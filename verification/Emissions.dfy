/** What the engine's own events say, member by member, and when each is emitted. */
module Emissions {
  import opened Wrappers
  import opened TrustClasses
  import opened Fingerprints
  import opened Dependencies
  import opened Ir
  import opened Graph
  import opened TrustLedgers
  import opened ProbeRegistries
  import opened Edges
  import opened Engine
  import opened Classifications
  import Identifiers

  /** The envelope of every event of a check: in the engine's name, under the check's session, for
      its computation, at its instant, with nothing before it. */
  predicate FromCheck(e: IrEvent, ctx: Context, kind: EventKind) {
    && e.producer == "freshdag-engine" && e.producerVersion == "0.0.0"
    && e.sessionId == "check:" + ctx.computation && e.computationId == Some(ctx.computation)
    && e.parentId.None? && e.causalInputs.None? && e.ts == ctx.now && e.kind == kind && e.decoded.NotDecoded?
  }

  predicate Flags(e: IrEvent, name: string, flag: bool) {
    e.payload.Object? && name in e.payload.fields && e.payload.fields[name] == FlagField(flag)
  }

  predicate Numbers(e: IrEvent, name: string, number: nat) {
    e.payload.Object? && name in e.payload.fields && e.payload.fields[name] == NumberField(number)
  }

  predicate Lacks(e: IrEvent, name: string) {
    e.payload.Object? && name !in e.payload.fields
  }

  /** The report of one answer: about which dependency, at what recorded strength and lifetime,
      what was seen and at what strength, and how it compares; and, only of an undecided one,
      whether to ask again. */
  predicate ReportsAnswer(e: IrEvent, ctx: Context, dep: Dependency, answer: ProbeResult) {
    && FromCheck(e, ctx, EventKind.ProbeChecked)
    && Says(e, "scheme", dep.scheme) && Says(e, "key", dep.key) && NamesClass(e, "trust_class", dep.trustClass)
    && (match dep.ttlSeconds
        case None => Lacks(e, "ttl_seconds")
        case Some(seconds) => Numbers(e, "ttl_seconds", seconds))
    && match answer
       case MatchResult(fp, c) =>
         Says(e, "result", "match") && Says(e, "observed_fingerprint", fp.Display())
         && NamesClass(e, "observed_trust_class", c) && Lacks(e, "retryable")
       case DriftResult(fp, c) =>
         Says(e, "result", "drift") && Says(e, "observed_fingerprint", fp.Display())
         && NamesClass(e, "observed_trust_class", c) && Lacks(e, "retryable")
       case UnknownResult(retryable) =>
         Says(e, "result", "unknown") && Lacks(e, "observed_fingerprint")
         && NamesClass(e, "observed_trust_class", dep.trustClass) && Flags(e, "retryable", retryable)
  }

  lemma MembersApart()
    ensures "scheme" != "key" && "scheme" != "trust_class"
    ensures "scheme" != "ttl_seconds" && "scheme" != "observed_fingerprint"
    ensures "scheme" != "observed_trust_class" && "scheme" != "result"
    ensures "scheme" != "retryable" && "key" != "trust_class"
    ensures "key" != "ttl_seconds" && "key" != "observed_fingerprint"
    ensures "key" != "observed_trust_class" && "key" != "result"
    ensures "key" != "retryable" && "trust_class" != "ttl_seconds"
    ensures "trust_class" != "observed_fingerprint" && "trust_class" != "observed_trust_class"
    ensures "trust_class" != "result" && "trust_class" != "retryable"
    ensures "ttl_seconds" != "observed_fingerprint" && "ttl_seconds" != "observed_trust_class"
    ensures "ttl_seconds" != "result" && "ttl_seconds" != "retryable"
    ensures "observed_fingerprint" != "observed_trust_class" && "observed_fingerprint" != "result"
    ensures "observed_fingerprint" != "retryable" && "observed_trust_class" != "result"
    ensures "observed_trust_class" != "retryable" && "result" != "retryable"
  {
    assert |"scheme"| == 6 && |"key"| == 3 && |"trust_class"| == 11 && |"result"| == 6 && |"retryable"| == 9;
    assert |"observed_fingerprint"| == 20 && |"observed_trust_class"| == 20 && |"ttl_seconds"| == 11;
    assert "trust_class"[1] == 'r' && "ttl_seconds"[1] == 't' && "scheme"[0] == 's' && "result"[0] == 'r';
    assert "observed_fingerprint"[9] == 'f' && "observed_trust_class"[9] == 't';
  }

  /** The members every report has, whatever the answer. */
  lemma CommonMembers(ctx: Context, sequence: nat, dep: Dependency, answer: ProbeResult)
    ensures var e := ProbeCheckedEvent(ctx, sequence, dep, answer);
            && e.payload.Object?
            && Member(e, "scheme", TextField(dep.scheme)) && Member(e, "key", TextField(dep.key))
            && Member(e, "trust_class", TextField(dep.trustClass.Wire()))
            && (dep.ttlSeconds.Some? ==> Member(e, "ttl_seconds", NumberField(dep.ttlSeconds.value)))
            && (dep.ttlSeconds.None? ==> Lacks(e, "ttl_seconds"))
  {
    hide Identifiers.EngineEventId, Fingerprint.Display, TrustClass.Wire;
    MembersApart();
  }

  predicate Member(e: IrEvent, name: string, field: Field) {
    e.payload.Object? && name in e.payload.fields && e.payload.fields[name] == field
  }

  lemma DecidedMembers(ctx: Context, sequence: nat, dep: Dependency, answer: ProbeResult)
    requires !answer.UnknownResult?
    ensures var e := ProbeCheckedEvent(ctx, sequence, dep, answer);
            && Member(e, "result", TextField(if answer.MatchResult? then "match" else "drift"))
            && Member(e, "observed_fingerprint", TextField(answer.observedFp.Display()))
            && Member(e, "observed_trust_class", TextField(answer.observedClass.Wire()))
            && Lacks(e, "retryable")
  {
    hide Identifiers.EngineEventId, Fingerprint.Display, TrustClass.Wire;
    MembersApart();
  }

  lemma UndecidedMembers(ctx: Context, sequence: nat, dep: Dependency, retryable: bool)
    ensures var e := ProbeCheckedEvent(ctx, sequence, dep, UnknownResult(retryable));
            && Member(e, "result", TextField("unknown")) && Lacks(e, "observed_fingerprint")
            && Member(e, "observed_trust_class", TextField(dep.trustClass.Wire()))
            && Member(e, "retryable", FlagField(retryable))
  {
    hide Identifiers.EngineEventId, Fingerprint.Display, TrustClass.Wire;
    MembersApart();
  }

  lemma ReportSays(ctx: Context, sequence: nat, dep: Dependency, answer: ProbeResult)
    ensures ReportsAnswer(ProbeCheckedEvent(ctx, sequence, dep, answer), ctx, dep, answer)
  {
    var e := ProbeCheckedEvent(ctx, sequence, dep, answer);
    assert FromCheck(e, ctx, EventKind.ProbeChecked) by {
      hide Identifiers.EngineEventId;
    }
    hide Fingerprint.Display, TrustClass.Wire, ProbeCheckedEvent, FromCheck, NamesClass;
    CommonMembers(ctx, sequence, dep, answer);
    ClassIsNamed(e, "trust_class", dep.trustClass);
    if answer.UnknownResult? {
      UndecidedMembers(ctx, sequence, dep, answer.retryable);
      ClassIsNamed(e, "observed_trust_class", dep.trustClass);
    } else {
      DecidedMembers(ctx, sequence, dep, answer);
      ClassIsNamed(e, "observed_trust_class", answer.observedClass);
    }
  }

  lemma ClassIsNamed(e: IrEvent, name: string, c: TrustClass)
    requires Member(e, name, TextField(c.Wire()))
    ensures NamesClass(e, name, c)
  {
    TrustClassSpellings(c);
  }

  // --------------------------------------------------------- diagnostics

  predicate Diagnoses(e: IrEvent, ctx: Context, message: string) {
    FromCheck(e, ctx, EventKind.Diagnostic) && Says(e, "message", message)
  }

  predicate SaysRemoved(e: IrEvent, ctx: Context, key: string, previous: string) {
    Diagnoses(e, ctx, "probe.removed") && Says(e, "dependency_key", key) && Says(e, "previous_probe", previous)
  }

  predicate SaysTie(e: IrEvent, ctx: Context, scheme: string, priority: nat, candidates: set<string>) {
    && Diagnoses(e, ctx, "probe.arbitration_tie") && Says(e, "scheme", scheme) && Numbers(e, "priority", priority)
    && Member(e, "candidates", NamesField(candidates))
  }

  predicate SaysMoved(e: IrEvent, ctx: Context, message: string, key: string, identity: string, from: TrustClass,
                      to: TrustClass) {
    && Diagnoses(e, ctx, message) && Says(e, "dependency_key", key) && Says(e, "probe_identity", identity)
    && NamesClass(e, "from_trust_class", from) && NamesClass(e, "to_trust_class", to)
  }

  predicate SaysConflict(e: IrEvent, ctx: Context, conflict: EdgeConflict) {
    && Diagnoses(e, ctx, "graph.edge_conflict") && Says(e, "dependency", conflict.dependency)
    && Says(e, "first_fingerprint", conflict.firstFingerprint.Display())
    && Says(e, "conflicting_fingerprint", conflict.conflictingFingerprint.Display())
  }

  lemma RemovedSays(ctx: Context, sequence: nat, key: string, previous: string)
    ensures SaysRemoved(RemovedEvent(ctx, sequence, key, previous), ctx, key, previous)
  {
    hide Identifiers.EngineEventId;
    assert |"message"| == 7 && |"dependency_key"| == 14 && |"previous_probe"| == 14;
    assert "dependency_key"[0] == 'd' && "previous_probe"[0] == 'p';
  }

  lemma TieSays(ctx: Context, sequence: nat, scheme: string, priority: nat, candidates: set<string>)
    ensures SaysTie(TieEvent(ctx, sequence, scheme, priority, candidates), ctx, scheme, priority, candidates)
  {
    hide Identifiers.EngineEventId;
    assert |"message"| == 7 && |"scheme"| == 6 && |"priority"| == 8 && |"candidates"| == 10;
  }

  lemma MovedSays(ctx: Context, sequence: nat, message: string, key: string, identity: string, from: TrustClass,
                  to: TrustClass)
    ensures SaysMoved(MovedEvent(ctx, sequence, message, key, identity, from, to), ctx, message, key, identity, from,
                      to)
  {
    hide Identifiers.EngineEventId, TrustClass.Wire, NamesClass;
    assert |"message"| == 7 && |"dependency_key"| == 14 && |"probe_identity"| == 14;
    assert |"from_trust_class"| == 16 && |"to_trust_class"| == 14;
    assert "dependency_key"[0] == 'd' && "probe_identity"[0] == 'p' && "to_trust_class"[0] == 't';
    var e := MovedEvent(ctx, sequence, message, key, identity, from, to);
    ClassIsNamed(e, "from_trust_class", from);
    ClassIsNamed(e, "to_trust_class", to);
  }

  /** Every conflict is announced, in order, with both fingerprints in their order. */
  lemma {:induction false} ConflictsAreAnnounced(ctx: Context, conflicts: seq<EdgeConflict>, sequence: nat)
    ensures |ConflictEvents(ctx, conflicts, sequence)| == |conflicts|
    ensures forall i :: 0 <= i < |conflicts| ==>
              SaysConflict(ConflictEvents(ctx, conflicts, sequence)[i], ctx, conflicts[i])
  {
    hide ConflictEvent, SaysConflict;
    if conflicts != [] {
      var n := |conflicts| - 1;
      ConflictsAreAnnounced(ctx, conflicts[..n], sequence);
      ConflictSays(ctx, SequenceAfter(sequence, n), conflicts[n]);
    }
  }

  lemma ConflictSays(ctx: Context, sequence: nat, conflict: EdgeConflict)
    ensures SaysConflict(ConflictEvent(ctx, sequence, conflict), ctx, conflict)
  {
    hide Identifiers.EngineEventId, Fingerprint.Display;
    assert |"message"| == 7 && |"dependency"| == 10 && |"first_fingerprint"| == 17 && |"conflicting_fingerprint"| == 23;
  }

  /** The second event of a consulted edge: a demotion for a class below the one in force, an
      escalation for a higher one that had been proposed just before, and otherwise none. */
  predicate Follows(events: seq<IrEvent>, ctx: Context, dep: Dependency, identity: string, entry: Entry,
                    answer: ProbeResult) {
    if answer.MatchResult? && Weaker(answer.observedClass, entry.adopted) then
      && |events| == 2
      && SaysMoved(events[1], ctx, "probe.trust_demoted", dep.key, identity, entry.adopted, answer.observedClass)
    else if answer.MatchResult? && Weaker(entry.adopted, answer.observedClass)
            && entry.pending.Some? && entry.pending.value.proposed == answer.observedClass then
      && |events| == 2
      && SaysMoved(events[1], ctx, "probe.trust_escalated", dep.key, identity, entry.adopted, answer.observedClass)
    else |events| == 1
  }

  /** What evaluating one edge emits, event by event. Nothing outside a volatile edge's lifetime.
      Where the probe that last answered is gone, only that. Where probes tie, only that. Where a
      probe is consulted, its answer, and then what the ledger made of it. Otherwise nothing. */
  lemma EdgeEmissions(ctx: Context, ledger: LedgerState, dep: Dependency, sequence: nat)
    requires forall pair :: pair in ledger.entries && ledger.entries[pair].pending.Some? ==>
               ledger.entries[pair].pending.value.count == 1
    ensures var events := Evaluated(ctx, ledger, dep, sequence).events;
            var gone := dep.key in ledger.lastProbe && ledger.lastProbe[dep.key] !in ctx.regs;
            var selection := SelectionOf(ctx.regs, dep.scheme, dep.key);
            if dep.trustClass.Volatile? && !GateOpen(dep, ctx.now, ctx.maxTtl) then events == []
            else if gone then |events| == 1 && SaysRemoved(events[0], ctx, dep.key, ledger.lastProbe[dep.key])
            else match selection
            case Err(PriorityTie(scheme, priority, candidates)) =>
              |events| == 1 && SaysTie(events[0], ctx, scheme, priority, candidates)
            case Err(_) => events == []
            case Ok(selected) =>
              var answer := ctx.world.probe(selected.handle, dep.key, dep.fingerprint, dep.ttlSeconds);
              && events != [] && ReportsAnswer(events[0], ctx, dep, answer)
              && Follows(events, ctx, dep, selected.identity,
                         ledger.EntryFor(Pair(dep.key, selected.identity), dep.trustClass), answer)
  {
    hide ProbeCheckedEvent, MovedEvent, RemovedEvent, TieEvent, ReportsAnswer, SaysRemoved, SaysTie, SaysMoved,
      Arbitrates, GateOpen, VolatileVerdict, ProbedVerdict, FoldOne, Weaker;
    var selection := SelectionOf(ctx.regs, dep.scheme, dep.key);
    if dep.key in ledger.lastProbe {
      RemovedSays(ctx, sequence, dep.key, ledger.lastProbe[dep.key]);
    }
    match selection {
      case Err(PriorityTie(scheme, priority, candidates)) => TieSays(ctx, sequence, scheme, priority, candidates);
      case Err(_) =>
      case Ok(selected) =>
        var answer := ctx.Answer(selected, dep);
        ReportSays(ctx, sequence, dep, answer);
        if answer.MatchResult? {
          var entry := ledger.EntryFor(Pair(dep.key, selected.identity), dep.trustClass);
          TransitionMeaning(entry, answer.observedClass, ctx.now);
          WeakerMeaning(answer.observedClass, entry.adopted);
          RankSeparates(answer.observedClass, entry.adopted);
          MovedSays(ctx, NextSequence(sequence), "probe.trust_demoted", dep.key, selected.identity, entry.adopted,
                    answer.observedClass);
          MovedSays(ctx, NextSequence(sequence), "probe.trust_escalated", dep.key, selected.identity, entry.adopted,
                    answer.observedClass);
        }
    }
  }
}
