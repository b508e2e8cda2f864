/** What one edge's verdict means, and how far it can be influenced. */
module EdgeTheorems {
  import opened Primitives
  import opened Wrappers
  import opened TrustClasses
  import opened Dependencies
  import opened Ir
  import opened Validity
  import opened Seal
  import opened TrustLedgers
  import opened ProbeRegistries
  import opened Edges
  import opened Identifiers

  /** Does a probe get to answer for this edge in this check? */
  ghost predicate Consulted(ctx: Context, ledger: LedgerState, dep: Dependency) {
    && (dep.trustClass.Volatile? ==> GateOpen(dep, ctx.now, ctx.maxTtl))
    && !ProbeGone(ctx, ledger, dep.key)
    && SelectionOf(ctx.regs, dep.scheme, dep.key).Ok?
  }

  /** What it answers. */
  ghost function AnswerFor(ctx: Context, ledger: LedgerState, dep: Dependency): ProbeResult
    requires Consulted(ctx, ledger, dep)
  {
    ctx.Answer(SelectionOf(ctx.regs, dep.scheme, dep.key).value, dep)
  }

  /** The probe that must answer did, and saw a different state. */
  ghost predicate Drifts(ctx: Context, ledger: LedgerState, dep: Dependency) {
    Consulted(ctx, ledger, dep) && AnswerFor(ctx, ledger, dep).DriftResult?
  }

  /** The class in force for this edge and the probe answering for it. */
  ghost function ClassInForce(ctx: Context, ledger: LedgerState, dep: Dependency): TrustClass
    requires Consulted(ctx, ledger, dep)
  {
    ledger.EntryFor(Pair(dep.key, SelectionOf(ctx.regs, dep.scheme, dep.key).value.identity), dep.trustClass).adopted
  }

  /** The probe that must answer did, agreed, and saw no weaker class than is in force. */
  ghost predicate Confirms(ctx: Context, ledger: LedgerState, dep: Dependency) {
    && Consulted(ctx, ledger, dep)
    && AnswerFor(ctx, ledger, dep).MatchResult?
    && !AnswerFor(ctx, ledger, dep).observedClass.IsDemotionFrom(ClassInForce(ctx, ledger, dep))
  }

  /** A verdict means exactly this. Drift: the one probe that must answer saw a change. A
      match: for a volatile edge, its declared lifetime is open and nothing saw a change;
      for any other, the probe confirmed it without demotion. Everything else is undecided.
      The edge carries a reason exactly when it is not a strong match. */
  lemma VerdictMeaning(ctx: Context, ledger: LedgerState, dep: Dependency, sequence: nat)
    ensures var outcome := Evaluated(ctx, ledger, dep, sequence).outcome;
            && outcome.dependency == dep
            && (outcome.verdict.Drifted? <==> Drifts(ctx, ledger, dep))
            && (outcome.verdict.Matched? <==>
                  if dep.trustClass.Volatile? then GateOpen(dep, ctx.now, ctx.maxTtl) && !Drifts(ctx, ledger, dep)
                  else Confirms(ctx, ledger, dep))
            && EdgeExplained(outcome)
  {
    hide Dispatched, DiagnosticEvent, Arbitrates, GateOpen, EdgeExplained;
    UnprobedMeaning(dep);
    if Consulted(ctx, ledger, dep) {
      DispatchedMeaning(ctx, ledger, dep, SelectionOf(ctx.regs, dep.scheme, dep.key).value, sequence);
    }
  }

  /** What a match records: of a volatile edge nothing but what it was recorded as, of any other what
      the probe that confirmed it saw. */
  lemma MatchedMeaning(ctx: Context, ledger: LedgerState, dep: Dependency, sequence: nat)
    requires Evaluated(ctx, ledger, dep, sequence).outcome.verdict.Matched?
    ensures var verdict := Evaluated(ctx, ledger, dep, sequence).outcome.verdict;
            && verdict.recorded == dep.trustClass
            && if dep.trustClass.Volatile? then verdict.observed == Volatile && verdict.observedFp == dep.fingerprint
               else && Consulted(ctx, ledger, dep)
                    && verdict.observed == AnswerFor(ctx, ledger, dep).observedClass
                    && verdict.observedFp == AnswerFor(ctx, ledger, dep).observedFp
  {
    hide ProbeCheckedEvent, TransitionEvents, LedgerAfter, Arbitrates, GateOpen, RemovedEvent, TieEvent;
    VerdictMeaning(ctx, ledger, dep, sequence);
  }

  lemma UnprobedMeaning(dep: Dependency)
    ensures EdgeExplained(Doubt(dep, TtlExpired)) && EdgeExplained(Unprobed(dep))
    ensures Unprobed(dep).dependency == dep && !Unprobed(dep).verdict.Drifted?
    ensures Unprobed(dep).verdict.Matched? <==> dep.trustClass.Volatile?
  {
  }

  lemma DispatchedMeaning(ctx: Context, ledger: LedgerState, dep: Dependency, selected: Selected, sequence: nat)
    ensures var outcome, result := Dispatched(ctx, ledger, dep, selected, sequence).outcome, ctx.Answer(selected, dep);
            && outcome.dependency == dep
            && EdgeExplained(outcome)
            && (outcome.verdict.Drifted? <==> result.DriftResult?)
            && (outcome.verdict.Matched? <==>
                  if dep.trustClass.Volatile? then !result.DriftResult?
                  else result.MatchResult? && !result.observedClass.IsDemotionFrom(
                         ledger.EntryFor(Pair(dep.key, selected.identity), dep.trustClass).adopted))
  {
    hide ProbeCheckedEvent, TransitionEvents, LedgerAfter, TrustClass.IsDemotionFrom, LedgerState.EntryFor;
    FoldDemotes(ledger, dep, selected.identity, ctx.Answer(selected, dep), ctx.now);
  }

  lemma FoldDemotes(ledger: LedgerState, dep: Dependency, identity: string, result: ProbeResult, now: Instant)
    ensures var t := LedgerAfter(ledger, dep, identity, result, now).1;
            t.Some? && t.value.Demoted? <==>
            result.MatchResult?
              && result.observedClass.IsDemotionFrom(ledger.EntryFor(Pair(dep.key, identity), dep.trustClass).adopted)
  {
  }

  /** Inside a validated lifetime no registry, ledger or probe answer changes a volatile
      verdict except by reporting drift; outside it the verdict is undecided, no probe is
      consulted, nothing is emitted and the ledger does not move. */
  lemma VolatileIndifference(a: Context, la: LedgerState, b: Context, lb: LedgerState, dep: Dependency, sa: nat,
                             sb: nat)
    requires dep.trustClass.Volatile? && a.now == b.now && a.maxTtl == b.maxTtl
    ensures GateOpen(dep, a.now, a.maxTtl) && !Drifts(a, la, dep) && !Drifts(b, lb, dep) ==>
              Evaluated(a, la, dep, sa).outcome.verdict == Evaluated(b, lb, dep, sb).outcome.verdict
    ensures !GateOpen(dep, a.now, a.maxTtl) ==>
              Evaluated(a, la, dep, sa) == EdgeStep(Doubt(dep, TtlExpired), [], la) && !Consulted(a, la, dep)
  {
    hide EngineEventId, ProbeCheckedEvent, DiagnosticEvent, TransitionEvents, LedgerAfter, Arbitrates, GateOpen;
  }

  // ------------------------------------------------ reach of the ledger

  /** Two ledgers hold the same about one dependency key. */
  ghost predicate AgreeOn(a: LedgerState, b: LedgerState, key: string) {
    && (key in a.lastProbe <==> key in b.lastProbe)
    && (key in a.lastProbe ==> a.lastProbe[key] == b.lastProbe[key])
    && (forall identity :: Pair(key, identity) in a.entries <==> Pair(key, identity) in b.entries)
    && (forall identity :: Pair(key, identity) in a.entries ==>
        a.entries[Pair(key, identity)] == b.entries[Pair(key, identity)])
  }

  lemma LedgerAfterLocal(a: LedgerState, dep: Dependency, identity: string, result: ProbeResult, now: Instant,
                         key: string)
    requires key != dep.key
    ensures AgreeOn(a, LedgerAfter(a, dep, identity, result, now).0, key)
  {
  }

  /** Evaluating an edge touches nothing the ledger holds about other keys. */
  lemma EvaluationIsLocal(ctx: Context, ledger: LedgerState, dep: Dependency, sequence: nat, key: string)
    requires key != dep.key
    ensures AgreeOn(ledger, Evaluated(ctx, ledger, dep, sequence).ledger, key)
  {
    hide EngineEventId, ProbeCheckedEvent, DiagnosticEvent, TransitionEvents, Arbitrates;
    if SelectionOf(ctx.regs, dep.scheme, dep.key).Ok? {
      var selected := SelectionOf(ctx.regs, dep.scheme, dep.key).value;
      LedgerAfterLocal(ledger, dep, selected.identity, ctx.Answer(selected, dep), ctx.now, key);
    }
  }

  /** An edge's outcome depends on the ledger only through what it holds about that key,
      and never on the sequence number. */
  lemma OutcomeReadsOneKey(ctx: Context, a: LedgerState, b: LedgerState, dep: Dependency, sa: nat, sb: nat)
    requires AgreeOn(a, b, dep.key)
    ensures Evaluated(ctx, a, dep, sa).outcome == Evaluated(ctx, b, dep, sb).outcome
    ensures Consulted(ctx, a, dep) == Consulted(ctx, b, dep)
    ensures Drifts(ctx, a, dep) == Drifts(ctx, b, dep)
    ensures Confirms(ctx, a, dep) == Confirms(ctx, b, dep)
  {
    hide EngineEventId, ProbeCheckedEvent, DiagnosticEvent, TransitionEvents, LedgerAfter, Arbitrates;
    if SelectionOf(ctx.regs, dep.scheme, dep.key).Ok? {
      var selected := SelectionOf(ctx.regs, dep.scheme, dep.key).value;
      var result := ctx.Answer(selected, dep);
      FoldDemotes(a, dep, selected.identity, result, ctx.now);
      FoldDemotes(b, dep, selected.identity, result, ctx.now);
      assert a.EntryFor(Pair(dep.key, selected.identity), dep.trustClass)
             == b.EntryFor(Pair(dep.key, selected.identity), dep.trustClass);
    }
  }

  /** At most two events per edge, and a probe result is logged exactly when a probe was
      consulted. */
  lemma EdgeEvents(ctx: Context, ledger: LedgerState, dep: Dependency, sequence: nat)
    ensures var events := Evaluated(ctx, ledger, dep, sequence).events;
            && |events| <= 2
            && (Consulted(ctx, ledger, dep) ==>
                  events != [] && events[0] == ProbeCheckedEvent(ctx, sequence, dep, AnswerFor(ctx, ledger, dep)))
            && (forall i :: 0 <= i < |events| && !(i == 0 && Consulted(ctx, ledger, dep)) ==>
                events[i].kind == EventKind.Diagnostic)
            && (forall i :: 0 <= i < |events| ==>
                  events[i].computationId == Some(ctx.computation) && events[i].ts == ctx.now
                    && events[i].producer == ENGINE_PRODUCER)
  {
    hide EngineEventId, LedgerAfter, Arbitrates, VolatileVerdict, ProbedVerdict, Unprobed;
  }
}
