/** Evaluating one dependency edge: the volatile TTL gate, probe removal, arbitration,
    dispatch, anti-thrash folding, and the verdict. */
module Edges {
  import opened Primitives
  import opened Wrappers
  import opened TrustClasses
  import opened Fingerprints
  import opened Dependencies
  import opened Ir
  import opened Validity
  import opened Certificates
  import opened Seal
  import opened TrustLedgers
  import opened ProbeRegistries
  import opened Identifiers

  const ENGINE_PRODUCER := "freshdag-engine"
  const ENGINE_VERSION := "0.0.0"

  /** Tolerance for observations dated after the check. */
  const MAX_CLOCK_SKEW_SECONDS: nat := 60

  const I64_MAX: nat := 0x7FFF_FFFF_FFFF_FFFF

  /** The last representable instant, the end of the year 9999. */
  const MAX_INSTANT: Instant := 253_402_300_799_999_999_999

  datatype ProbeResult =
    | MatchResult(observedFp: Fingerprint, observedClass: TrustClass)
    | DriftResult(observedFp: Fingerprint, observedClass: TrustClass)
    | UnknownResult(retryable: bool)

  /** What lies outside the engine: what every probe would answer now to a handle, key,
      recorded fingerprint and lifetime hint, and the hash of a serialized certificate. */
  datatype World = World(probe: (int, string, Fingerprint, Option<nat>) -> ProbeResult, identify: Identify)

  /** What one check evaluates its edges against. */
  datatype Context = Context(computation: string, now: Instant, regs: Registrations, maxTtl: nat, world: World) {

    function Answer(selected: Selected, dep: Dependency): ProbeResult {
      world.probe(selected.handle, dep.key, dep.fingerprint, dep.ttlSeconds)
    }
  }

  // ---------------------------------------------------------- the TTL gate

  /** When a declared lifetime ends, if that instant is representable. */
  function TtlExpiry(observedAt: Instant, seconds: nat): Option<Instant> {
    if seconds > I64_MAX then None
    else if observedAt + seconds * NANOS_PER_SECOND > MAX_INSTANT then None
    else Some(observedAt + seconds * NANOS_PER_SECOND)
  }

  /** The latest believable observation instant, if representable. */
  function Horizon(now: Instant): Option<Instant> {
    var h := now + MAX_CLOCK_SKEW_SECONDS * NANOS_PER_SECOND;
    if h > MAX_INSTANT then None else Some(h)
  }

  /** The four guards of the gate, in the order the engine applies them. */
  predicate GateOpen(dep: Dependency, now: Instant, maxTtl: nat) {
    && dep.ttlSeconds.Some?
    && var expiry := TtlExpiry(dep.observedAt, dep.ttlSeconds.value);
       && expiry.Some?
       && dep.ttlSeconds.value <= maxTtl
       && !(Horizon(now).Some? && dep.observedAt > Horizon(now).value)
       && !(now > expiry.value)
  }

  /** The gate is open exactly inside the declared window, stretched one minute backwards
      for clock skew, when the window ends before the year 10000, is counted in no more than 63
      bits, and is no longer than allowed. Instants are in nanoseconds. */
  lemma GateWindow(dep: Dependency, now: Instant, maxTtl: nat)
    requires dep.observedAt < 253_402_300_800 * 1_000_000_000
    ensures GateOpen(dep, now, maxTtl) <==>
            && dep.ttlSeconds.Some?
            && var lifetime := dep.ttlSeconds.value;
               && lifetime <= maxTtl && lifetime < 0x8000_0000_0000_0000
               && dep.observedAt + lifetime * 1_000_000_000 < 253_402_300_800 * 1_000_000_000
               && dep.observedAt - 60 * 1_000_000_000 <= now <= dep.observedAt + lifetime * 1_000_000_000
  {
  }

  /** One declaration keeps the gate open for at most the allowed lifetime plus the skew:
      any two instants at which it is open lie that close together. */
  lemma GateLifetime(dep: Dependency, early: Instant, late: Instant, maxTtl: nat)
    requires dep.observedAt < 253_402_300_800 * 1_000_000_000
    requires GateOpen(dep, early, maxTtl) && GateOpen(dep, late, maxTtl)
    ensures late - early <= (maxTtl + 60) * 1_000_000_000
  {
    GateWindow(dep, early, maxTtl);
    GateWindow(dep, late, maxTtl);
  }

  // --------------------------------------------------------------- events

  function NextSequence(sequence: nat): nat {
    if sequence < 0xFFFF then sequence + 1 else sequence
  }

  function EngineEvent(ctx: Context, sequence: nat, kind: EventKind, fields: map<string, Field>): IrEvent {
    IrEvent(EngineEventId(ctx.now, sequence), ENGINE_PRODUCER, ENGINE_VERSION, "check:" + ctx.computation,
            Some(ctx.computation), None, None, ctx.now, kind, Object(fields), NotDecoded)
  }

  function DiagnosticEvent(ctx: Context, sequence: nat, message: string, extra: map<string, Field>): IrEvent {
    EngineEvent(ctx, sequence, Diagnostic, extra["message" := TextField(message)])
  }

  function RemovedEvent(ctx: Context, sequence: nat, key: string, previous: string): IrEvent {
    DiagnosticEvent(ctx, sequence, "probe.removed",
                    map["dependency_key" := TextField(key), "previous_probe" := TextField(previous)])
  }

  function TieEvent(ctx: Context, sequence: nat, scheme: string, priority: nat, candidates: set<string>): IrEvent {
    DiagnosticEvent(ctx, sequence, "probe.arbitration_tie",
                    map["scheme" := TextField(scheme), "priority" := NumberField(priority),
                        "candidates" := NamesField(candidates)])
  }

  function MovedEvent(ctx: Context, sequence: nat, message: string, key: string, identity: string, from: TrustClass,
                      to: TrustClass): IrEvent {
    DiagnosticEvent(ctx, sequence, message,
                    map["dependency_key" := TextField(key), "probe_identity" := TextField(identity),
                        "from_trust_class" := TextField(from.Wire()), "to_trust_class" := TextField(to.Wire())])
  }

  /** How an answer is reported in the log. Nothing the ledger derived goes in. */
  function ProbeCheckedEvent(ctx: Context, sequence: nat, dep: Dependency, result: ProbeResult): IrEvent {
    var base := map["scheme" := TextField(dep.scheme), "key" := TextField(dep.key),
                    "trust_class" := TextField(dep.trustClass.Wire())];
    var withTtl := if dep.ttlSeconds.Some? then base["ttl_seconds" := NumberField(dep.ttlSeconds.value)] else base;
    var fields :=
      match result
      case MatchResult(fp, c) =>
        withTtl["observed_fingerprint" := TextField(fp.Display())]
               ["observed_trust_class" := TextField(c.Wire())]
               ["result" := TextField("match")]
      case DriftResult(fp, c) =>
        withTtl["observed_fingerprint" := TextField(fp.Display())]
               ["observed_trust_class" := TextField(c.Wire())]
               ["result" := TextField("drift")]
      case UnknownResult(retryable) =>
        withTtl["observed_trust_class" := TextField(dep.trustClass.Wire())]
               ["result" := TextField("unknown")]
               ["retryable" := FlagField(retryable)];
    EngineEvent(ctx, sequence, EventKind.ProbeChecked, fields)
  }

  // ------------------------------------------------------------- verdicts

  /** Why a match may still fall short of valid. */
  function CapsReason(recorded: TrustClass): Option<ReasonCode> {
    match recorded
    case Heuristic => Some(TrustClassHeuristicCapsAtLikelyValid)
    case Volatile => Some(TrustClassVolatileCapsAtLikelyValid)
    case _ => None
  }

  function Doubt(dep: Dependency, code: ReasonCode): EdgeOutcome {
    EdgeOutcome(dep, Undecided, Some(code))
  }

  /** The verdict inside a validated lifetime: total in what a probe said, or that none
      did. */
  function VolatileVerdict(dep: Dependency, probed: Option<ProbeResult>): EdgeOutcome {
    match probed
    case Some(DriftResult(_, _)) => EdgeOutcome(dep, Drifted, Some(Drift))
    case Some(MatchResult(_, _)) => EdgeOutcome(dep, Matched(Volatile, Volatile, dep.fingerprint), CapsReason(Volatile))
    case Some(UnknownResult(_)) => EdgeOutcome(dep, Matched(Volatile, Volatile, dep.fingerprint), Some(ProbeUnknown))
    case None => EdgeOutcome(dep, Matched(Volatile, Volatile, dep.fingerprint), Some(VolatileWithinTtlUnprobed))
  }

  /** The verdict of a probed edge that is not volatile. */
  function ProbedVerdict(dep: Dependency, result: ProbeResult, demoted: bool): EdgeOutcome {
    match result
    case MatchResult(fp, c) =>
      if demoted then Doubt(dep, ProbeTrustDemoted)
      else EdgeOutcome(dep, Matched(dep.trustClass, c, fp), CapsReason(dep.trustClass))
    case DriftResult(_, _) => EdgeOutcome(dep, Drifted, Some(Drift))
    case UnknownResult(_) => Doubt(dep, ProbeUnknown)
  }

  function Unprobed(dep: Dependency): EdgeOutcome {
    if dep.trustClass.Volatile? then VolatileVerdict(dep, None) else Doubt(dep, NoProbeAvailable)
  }

  /** How the ledger moves on one probe answer. Only a match carries a class to fold. */
  function LedgerAfter(s: LedgerState, dep: Dependency, identity: string, result: ProbeResult, now: Instant)
    : (LedgerState, Option<Transition>) {
    match result
    case MatchResult(_, c) =>
      var (s', t) := Observed(s, Pair(dep.key, identity), dep.trustClass, c, now);
      (s', Some(t))
    case _ => (s.Note(dep.key, identity), None)
  }

  function TransitionEvents(ctx: Context, sequence: nat, key: string, identity: string, t: Option<Transition>)
    : seq<IrEvent> {
    match t
    case Some(Escalated(from, to)) =>
      [MovedEvent(ctx, sequence, "probe.trust_escalated", key, identity, from, to)]
    case Some(Demoted(from, to)) =>
      [MovedEvent(ctx, sequence, "probe.trust_demoted", key, identity, from, to)]
    case _ => []
  }

  /** What evaluating one edge yields: its outcome, the events emitted, and the ledger. */
  datatype EdgeStep = EdgeStep(outcome: EdgeOutcome, events: seq<IrEvent>, ledger: LedgerState)

  /** Arbitration's one outcome for a key. */
  ghost function SelectionOf(regs: Registrations, scheme: string, key: string): (r: Result<Selected, NoProbe>)
    ensures Arbitrates(regs, scheme, key, r)
  {
    var matching := Matching(regs, scheme, key);
    if forall id :: id in regs ==> regs[id].scheme != scheme then Err(UnregisteredScheme(scheme))
    else if matching == {} then Err(NoHostMatch(scheme))
    else
      var top := TopPriority(regs, matching);
      var winners := Winners(regs, matching, top);
      if exists a, b :: a in winners && b in winners && a != b then Err(PriorityTie(scheme, top, winners))
      else
        var id :| id in winners;
        Ok(Selected(id, regs[id].handle))
  }

  /** Has the latest probe of this key been deregistered since? */
  predicate ProbeGone(ctx: Context, ledger: LedgerState, key: string) {
    key in ledger.lastProbe && ledger.lastProbe[key] !in ctx.regs
  }

  /** Evaluating a dispatched edge. */
  function Dispatched(ctx: Context, ledger: LedgerState, dep: Dependency, selected: Selected, sequence: nat): EdgeStep {
    var result := ctx.Answer(selected, dep);
    var (after, t) := LedgerAfter(ledger, dep, selected.identity, result, ctx.now);
    var events := [ProbeCheckedEvent(ctx, sequence, dep, result)]
      + TransitionEvents(ctx, NextSequence(sequence), dep.key, selected.identity, t);
    var outcome := if dep.trustClass.Volatile? then VolatileVerdict(dep, Some(result))
                   else ProbedVerdict(dep, result, t.Some? && t.value.Demoted?);
    EdgeStep(outcome, events, after)
  }

  ghost function Evaluated(ctx: Context, ledger: LedgerState, dep: Dependency, sequence: nat): EdgeStep {
    if dep.trustClass.Volatile? && !GateOpen(dep, ctx.now, ctx.maxTtl) then EdgeStep(Doubt(dep, TtlExpired), [], ledger)
    else if ProbeGone(ctx, ledger, dep.key) then
      EdgeStep(Unprobed(dep), [RemovedEvent(ctx, sequence, dep.key, ledger.lastProbe[dep.key])], ledger)
    else
      match SelectionOf(ctx.regs, dep.scheme, dep.key)
      case Err(PriorityTie(scheme, priority, candidates)) =>
        EdgeStep(Unprobed(dep), [TieEvent(ctx, sequence, scheme, priority, candidates)], ledger)
      case Err(_) => EdgeStep(Unprobed(dep), [], ledger)
      case Ok(selected) => Dispatched(ctx, ledger, dep, selected, sequence)
  }

  // ------------------------------------------------------ the procedure

  function SequenceAfter(sequence: nat, count: nat): nat {
    if sequence + count <= 0xFFFF then sequence + count else if sequence <= 0xFFFF then 0xFFFF else sequence
  }

  /** The engine's decision procedure for one edge. */
  method EvaluateEdge(ctx: Context, registry: ProbeRegistry, ledger: TrustLedger, dep: Dependency,
                      emitted: seq<IrEvent>, sequence: nat)
    returns (outcome: EdgeOutcome, emitted': seq<IrEvent>, sequence': nat)
    requires ctx.regs == registry.registrations && sequence <= 0xFFFF
    modifies ledger
    ensures var step := Evaluated(ctx, old(ledger.State()), dep, sequence);
            && outcome == step.outcome
            && emitted' == emitted + step.events
            && sequence' == SequenceAfter(sequence, |step.events|)
            && ledger.State() == step.ledger
  {
    emitted', sequence' := emitted, sequence;
    var volatileWithinTtl := dep.trustClass.Volatile?;
    if volatileWithinTtl {
      if dep.ttlSeconds.None? {
        return Doubt(dep, TtlExpired), emitted', sequence';
      }
      var secs := dep.ttlSeconds.value;
      var expiresAt := TtlExpiry(dep.observedAt, secs);
      if expiresAt.None? {
        return Doubt(dep, TtlExpired), emitted', sequence';
      }
      if secs > ctx.maxTtl {
        return Doubt(dep, TtlExpired), emitted', sequence';
      }
      if Horizon(ctx.now).Some? && dep.observedAt > Horizon(ctx.now).value {
        return Doubt(dep, TtlExpired), emitted', sequence';
      }
      if ctx.now > expiresAt.value {
        return Doubt(dep, TtlExpired), emitted', sequence';
      }
    }
    var previous := ledger.LastProbeFor(dep.key);
    if previous.Some? && previous.value !in registry.registrations {
      emitted' := emitted' + [RemovedEvent(ctx, sequence', dep.key, previous.value)];
      sequence' := NextSequence(sequence');
      if volatileWithinTtl {
        return VolatileVerdict(dep, None), emitted', sequence';
      }
      return Doubt(dep, NoProbeAvailable), emitted', sequence';
    }
    var selection := registry.Select(dep.scheme, dep.key);
    ArbitrationIsAFunction(ctx.regs, dep.scheme, dep.key, selection, SelectionOf(ctx.regs, dep.scheme, dep.key));
    if selection.Err? {
      if selection.error.PriorityTie? {
        emitted' := emitted' + [TieEvent(ctx, sequence', selection.error.scheme, selection.error.priority,
                                         selection.error.candidates)];
        sequence' := NextSequence(sequence');
      }
      if volatileWithinTtl {
        return VolatileVerdict(dep, None), emitted', sequence';
      }
      return Doubt(dep, NoProbeAvailable), emitted', sequence';
    }
    outcome, emitted', sequence' := Dispatch(ctx, ledger, dep, selection.value, emitted, sequence);
  }

  /** Ask the selected probe, book what it said, and decide. */
  method Dispatch(ctx: Context, ledger: TrustLedger, dep: Dependency, selected: Selected, emitted: seq<IrEvent>,
                  sequence: nat)
    returns (outcome: EdgeOutcome, emitted': seq<IrEvent>, sequence': nat)
    requires sequence <= 0xFFFF
    modifies ledger
    ensures var step := Dispatched(ctx, old(ledger.State()), dep, selected, sequence);
            && outcome == step.outcome
            && emitted' == emitted + step.events
            && sequence' == SequenceAfter(sequence, |step.events|)
            && ledger.State() == step.ledger
  {
    hide EngineEventId;
    var result := ctx.Answer(selected, dep);
    emitted' := emitted + [ProbeCheckedEvent(ctx, sequence, dep, result)];
    sequence' := NextSequence(sequence);
    var transition: Option<Transition> := None;
    match result {
      case MatchResult(_, observedClass) =>
        var t := ledger.Observe(dep.key, selected.identity, dep.trustClass, observedClass, ctx.now);
        transition := Some(t);
      case _ =>
        ledger.NoteProbe(dep.key, selected.identity);
    }
    if transition.Some? && transition.value.Escalated? {
      var moved := transition.value;
      emitted' := emitted' + [MovedEvent(ctx, sequence', "probe.trust_escalated", dep.key, selected.identity,
                                         moved.from, moved.to)];
      sequence' := NextSequence(sequence');
    }
    if transition.Some? && transition.value.Demoted? {
      var moved := transition.value;
      emitted' := emitted' + [MovedEvent(ctx, sequence', "probe.trust_demoted", dep.key, selected.identity,
                                         moved.from, moved.to)];
      sequence' := NextSequence(sequence');
    }
    if dep.trustClass.Volatile? {
      outcome := VolatileVerdict(dep, Some(result));
    } else {
      match result
      case MatchResult(fp, c) =>
        if transition.Some? && transition.value.Demoted? {
          outcome := Doubt(dep, ProbeTrustDemoted);
        } else {
          outcome := EdgeOutcome(dep, Matched(dep.trustClass, c, fp), CapsReason(dep.trustClass));
        }
      case DriftResult(_, _) => outcome := EdgeOutcome(dep, Drifted, Some(Drift));
      case UnknownResult(_) => outcome := Doubt(dep, ProbeUnknown);
    }
  }
}
