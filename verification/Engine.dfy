/** The check: find who produced an artifact, judge its edges in turn, and have the outcome
    sealed. */
module Engine {
  import opened Primitives
  import opened Wrappers
  import opened Dependencies
  import opened Ir
  import opened Coverage
  import opened Graph
  import opened Replays
  import opened Validity
  import opened Certificates
  import opened Seal
  import opened TrustLedgers
  import opened ProbeRegistries
  import opened Edges
  import opened Provenance

  datatype CheckOutcome = CheckOutcome(certificate: Certificate, events: seq<IrEvent>)

  // -------------------------------------------------- reading the log

  /** The events of one computation, in the order the log holds them. */
  function RecordedEvents(log: seq<IrEvent>, comp: string): (r: seq<IrEvent>)
    ensures forall e :: e in r <==> e in log && e.computationId == Some(comp)
  {
    if log == [] then []
    else
      assert log == [log[0]] + log[1..];
      (if log[0].computationId == Some(comp) then [log[0]] else []) + RecordedEvents(log[1..], comp)
  }

  predicate ProducesArtifact(e: IrEvent, comp: string, artifact: string) {
    e.kind.ArtifactProduced? && e.computationId == Some(comp) && e.payload.Text("artifact_id") == Some(artifact)
  }

  /** The first event, in log order, that produced the artifact. */
  function ArtifactEvent(log: seq<IrEvent>, comp: string, artifact: string): Option<IrEvent> {
    if log == [] then None
    else if ProducesArtifact(log[0], comp, artifact) then Some(log[0])
    else ArtifactEvent(log[1..], comp, artifact)
  }

  /** What a production says about its artifact, or which field it fails to say. */
  function RecordOf(e: IrEvent, artifact: string): Result<ArtifactRecord, EngineError> {
    var hash, kind, size := e.payload.Text("content_hash"), e.payload.Text("kind"), e.payload.Unsigned("size");
    if hash.None? || !IsHash(hash.value) then Err(MalformedArtifactEvent(artifact, "content_hash"))
    else if kind.None? then Err(MalformedArtifactEvent(artifact, "kind"))
    else Ok(ArtifactRecord(artifact, e.payload.Text("path"), kind.value, hash.value,
                           if size.Some? then size.value else 0, e.payload.Text("comparator")))
  }

  /** The artifact as its first production in the log describes it. */
  function ArtifactFound(log: seq<IrEvent>, comp: string, artifact: string): Result<ArtifactRecord, EngineError> {
    match ArtifactEvent(log, comp, artifact)
    case None => Err(EngineError.UnknownArtifact(artifact))
    case Some(e) => RecordOf(e, artifact)
  }

  function Claimants(graph: DerivedGraph, artifact: string): set<string> {
    set c | c in graph.computations && artifact in graph.computations[c].artifacts
  }

  // ---------------------------------------------------- edges, in turn

  datatype EdgeRun = EdgeRun(edges: seq<EdgeOutcome>, events: seq<IrEvent>, sequence: nat, ledger: LedgerState)

  /** Evaluating the first `n` dependencies one after the other. */
  ghost function EdgesEvaluated(ctx: Context, deps: seq<Dependency>, ledger: LedgerState, n: nat): (r: EdgeRun)
    requires n <= |deps|
    ensures |r.edges| == n
    ensures r.sequence <= 0xFFFF
  {
    if n == 0 then EdgeRun([], [], 0, ledger)
    else
      var run := EdgesEvaluated(ctx, deps, ledger, n - 1);
      var step := Evaluated(ctx, run.ledger, deps[n - 1], run.sequence);
      EdgeRun(run.edges + [step.outcome], run.events + step.events,
              SequenceAfter(run.sequence, |step.events|), step.ledger)
  }

  // --------------------------------------------------------- conflicts

  function IndexOfKey(edges: seq<EdgeOutcome>, key: string): (i: nat)
    ensures i <= |edges|
    ensures i < |edges| ==> edges[i].dependency.key == key
    ensures forall j :: 0 <= j < i ==> edges[j].dependency.key != key
  {
    if edges == [] then 0
    else if edges[0].dependency.key == key then 0
    else
      var i := IndexOfKey(edges[1..], key);
      assert forall j :: 1 <= j < i + 1 ==> edges[j] == edges[1..][j - 1];
      i + 1
  }

  function Overridden(edge: EdgeOutcome): EdgeOutcome {
    EdgeOutcome(edge.dependency, Undecided, Some(DependencyChangedDuringComputation))
  }

  /** Each conflict's edge forced to undecided, or nothing if a conflict names no edge. */
  function ConflictsApplied(edges: seq<EdgeOutcome>, conflicts: seq<EdgeConflict>): (r: Option<seq<EdgeOutcome>>)
    ensures r.Some? ==> |r.value| == |edges|
  {
    if conflicts == [] then Some(edges)
    else
      match ConflictsApplied(edges, conflicts[..|conflicts| - 1])
      case None => None
      case Some(earlier) =>
        var i := IndexOfKey(earlier, conflicts[|conflicts| - 1].dependency);
        if i == |earlier| then None else Some(earlier[i := Overridden(earlier[i])])
  }

  function ConflictEvent(ctx: Context, sequence: nat, conflict: EdgeConflict): IrEvent {
    DiagnosticEvent(ctx, sequence, "graph.edge_conflict",
                    map["dependency" := TextField(conflict.dependency),
                        "first_fingerprint" := TextField(conflict.firstFingerprint.Display()),
                        "conflicting_fingerprint" := TextField(conflict.conflictingFingerprint.Display())])
  }

  function ConflictEvents(ctx: Context, conflicts: seq<EdgeConflict>, sequence: nat): seq<IrEvent> {
    if conflicts == [] then []
    else
      var n := |conflicts| - 1;
      ConflictEvents(ctx, conflicts[..n], sequence)
      + [ConflictEvent(ctx, SequenceAfter(sequence, n), conflicts[n])]
  }

  // ------------------------------------------------- coverage evidence

  /** The engine's own entry: it contributed evidence, so it must be listed. */
  function EngineCoverageEntry(): CoverageEntry {
    CoverageEntry(ENGINE_PRODUCER, ENGINE_VERSION, ProducerRole.Probe, ["probe.checked", "diagnostic"], map[])
  }

  predicate HasUnproven(excluded: seq<ExcludedEdge>) {
    exists i :: 0 <= i < |excluded| && excluded[i].reason.IsUnprovenDependency()
  }

  /** The artifact-scoped reasons the engine itself detects, in the order it detects them. */
  function EngineReasons(node: ComputationNode, accountedMissing: set<string>, deficit: set<EventKind>,
                         coverage: set<CoverageEntry>)
    : seq<ReasonCode> {
    (if accountedMissing != {} then [ProducerMissingFromCoverage] else [])
    + (if HasUnproven(node.excluded) then [UnprovenDependency] else [])
    + (if deficit != {} || (node.obligations != [] && !HasFsCoveredObserver(coverage)) then [ReasonCode.CoverageDeficit]
       else [])
  }

  // ------------------------------------------------------------ checking

  function AttributionOf(graph: DerivedGraph, comp: string): CoverageLookup {
    if comp in graph.attribution then graph.attribution[comp].lookup else CoverageLookup({}, {})
  }

  function CoverageFor(graph: DerivedGraph, comp: string): set<CoverageEntry> {
    AttributionOf(graph, comp).entries + {EngineCoverageEntry()}
  }

  function MissingFor(graph: DerivedGraph, comp: string): set<string> {
    set k | k in AttributionOf(graph, comp).unregistered :: k.producer
  }

  /** What is handed to sealing for a computation whose edges came out as `edges`. */
  ghost function SealInputFor(log: seq<IrEvent>, graph: DerivedGraph, ctx: Context, record: ArtifactRecord,
                        edges: seq<EdgeOutcome>, emitted: seq<IrEvent>): SealInput
    requires ctx.computation in graph.computations
  {
    var comp := ctx.computation;
    var recorded := RecordedEvents(log, comp);
    var coverage := CoverageFor(graph, comp);
    SealInput(record, ProvenanceOf(comp, recorded, coverage), edges,
              EngineReasons(graph.computations[comp], MissingFor(graph, comp), EffectDeficitOf(recorded, coverage),
                            coverage),
              coverage, recorded + emitted, EngineAssembled, MissingFor(graph, comp), ctx.now, ctx.world.identify)
  }

  /** The check of one computation's artifact. */
  ghost function CheckedFor(log: seq<IrEvent>, graph: DerivedGraph, ctx: Context, ledger: LedgerState, artifact: string)
    : Result<CheckOutcome, EngineError>
    requires ctx.computation in graph.computations
  {
    var node := graph.computations[ctx.computation];
    var run := EdgesEvaluated(ctx, node.dependencies, ledger, |node.dependencies|);
    match ConflictsApplied(run.edges, node.conflicts)
    case None => Err(InternalInconsistency)
    case Some(edges) =>
      var emitted := run.events + ConflictEvents(ctx, node.conflicts, run.sequence);
      match ArtifactFound(log, ctx.computation, artifact)
      case Err(problem) => Err(problem)
      case Ok(record) =>
        match Sealed(SealInputFor(log, graph, ctx, record, edges, emitted))
        case Err(e) => Err(e)
        case Ok(certificate) => Ok(CheckOutcome(certificate, emitted))
  }

  predicate Sole(claimants: set<string>, comp: string) {
    claimants == {comp}
  }

  /** Everything one check reads besides the log and the graph. */
  ghost function Checked(log: seq<IrEvent>, graph: DerivedGraph, regs: Registrations, ledger: LedgerState, maxTtl: nat,
                         now: Instant, world: World, artifact: string): (Result<CheckOutcome, EngineError>,
                                                                         LedgerState) {
    if !graph.IsDeterministic() then (Err(NondeterministicReplay), ledger)
    else
      var claimants := Claimants(graph, artifact);
      if claimants == {} then (Err(EngineError.UnknownArtifact(artifact)), ledger)
      else if exists c :: Sole(claimants, c) then
        var comp :| Sole(claimants, comp);
        ClaimantsAreComputations(graph, artifact, comp);
        var ctx := Context(comp, now, regs, maxTtl, world);
        var deps := graph.computations[comp].dependencies;
        (CheckedFor(log, graph, ctx, ledger, artifact), EdgesEvaluated(ctx, deps, ledger, |deps|).ledger)
      else (Err(AmbiguousArtifact(artifact, claimants)), ledger)
  }

  lemma ClaimantsAreComputations(graph: DerivedGraph, artifact: string, comp: string)
    requires Sole(Claimants(graph, artifact), comp)
    ensures comp in graph.computations && artifact in graph.computations[comp].artifacts
  {
    assert comp in Claimants(graph, artifact);
  }

  class Engine {
    var log: seq<IrEvent>
    var graph: DerivedGraph
    var registry: ProbeRegistry
    var ledger: TrustLedger
    var maxVolatileTtl: nat

    /** Materialize the derived graph and start with an empty ledger. */
    constructor (log: seq<IrEvent>, coverage: CoverageRegistry, registry: ProbeRegistry, maxVolatileTtl: nat)
      requires coverage.Valid()
      ensures this.log == log && this.registry == registry && this.maxVolatileTtl == maxVolatileTtl
      ensures IsReplayOf(graph, log, coverage.manifests)
      ensures fresh(ledger) && ledger.State() == LedgerState(map[], map[])
    {
      var graph := Replay(log, coverage);
      var ledger := new TrustLedger();
      this.log, this.graph, this.registry, this.ledger, this.maxVolatileTtl := log, graph, registry, ledger,
        maxVolatileTtl;
    }

    /** The one computation that produced the artifact. */
    method ComputationFor(artifact: string) returns (r: Result<string, EngineError>)
      ensures r.Ok? <==> exists comp :: Sole(Claimants(graph, artifact), comp)
      ensures r.Ok? ==> Sole(Claimants(graph, artifact), r.value)
      ensures r.Err? ==> r.error == if Claimants(graph, artifact) == {} then EngineError.UnknownArtifact(artifact)
                                    else AmbiguousArtifact(artifact, Claimants(graph, artifact))
    {
      var claimants := Claimants(graph, artifact);
      if claimants == {} {
        return Err(EngineError.UnknownArtifact(artifact));
      }
      var comp :| comp in claimants;
      if !Sole(claimants, comp) {
        assert forall c :: Sole(claimants, c) ==> c == comp;
        return Err(AmbiguousArtifact(artifact, claimants));
      }
      assert Sole(Claimants(graph, artifact), comp);
      return Ok(comp);
    }

    /** One whole check. Nothing but the ledger changes. */
    method Check(artifact: string, now: Instant, world: World) returns (r: Result<CheckOutcome, EngineError>)
      modifies ledger
      ensures (r, ledger.State())
              == Checked(log, graph, registry.registrations, old(ledger.State()), maxVolatileTtl, now, world, artifact)
    {
      hide EdgesEvaluated, ConflictsApplied, ConflictEvents, SealInputFor, Sealed, ArtifactFound, Claimants;
      if !graph.IsDeterministic() {
        return Err(NondeterministicReplay);
      }
      var computation := ComputationFor(artifact);
      match computation {
        case Err(e) => return Err(e);
        case Ok(_) =>
      }
      var comp := computation.value;
      ClaimantsAreComputations(graph, artifact, comp);
      var ctx := Context(comp, now, registry.registrations, maxVolatileTtl, world);
      var node := graph.computations[comp];
      var edges, emitted, sequence := EvaluateEdges(ctx, node.dependencies);
      var applied;
      applied, emitted := ApplyConflicts(ctx, edges, node.conflicts, emitted, sequence);
      match applied {
        case None => return Err(InternalInconsistency);
        case Some(overridden) => edges := overridden;
      }
      var found := ArtifactFound(log, comp, artifact);
      match found {
        case Err(problem) => return Err(problem);
        case Ok(_) =>
      }
      var input := Assemble(ctx, found.value, edges, emitted);
      var certificate := SealCertificate(input);
      match certificate
      case Err(e) => return Err(e);
      case Ok(c) => return Ok(CheckOutcome(c, emitted));
    }

    /** Gather the coverage, the artifact-scoped reasons and the events sealing audits. */
    method Assemble(ctx: Context, record: ArtifactRecord, edges: seq<EdgeOutcome>, emitted: seq<IrEvent>)
      returns (input: SealInput)
      requires ctx.computation in graph.computations
      ensures input == SealInputFor(log, graph, ctx, record, edges, emitted)
    {
      hide EffectDeficitOf, HasFsCoveredObserver, RecordedEvents, ProvenanceOf, HasUnproven;
      var node := graph.computations[ctx.computation];
      var recorded := RecordedEvents(log, ctx.computation);
      var coverage := CoverageFor(graph, ctx.computation);
      var accountedMissing := MissingFor(graph, ctx.computation);
      var reasons: seq<ReasonCode> := [];
      if accountedMissing != {} {
        reasons := reasons + [ProducerMissingFromCoverage];
      }
      var unproven := AnyUnproven(node.excluded);
      if unproven {
        reasons := reasons + [UnprovenDependency];
      }
      var deficit := EffectDeficit(recorded, coverage);
      if deficit != {} || (node.obligations != [] && !HasFsCoveredObserver(coverage)) {
        reasons := reasons + [ReasonCode.CoverageDeficit];
      }
      var producedBy := DescribeProvenance(ctx.computation, recorded, coverage);
      input := SealInput(record, producedBy, edges, reasons, coverage, recorded + emitted, EngineAssembled,
                         accountedMissing,
                         ctx.now, ctx.world.identify);
    }

    method AnyUnproven(excluded: seq<ExcludedEdge>) returns (unproven: bool)
      ensures unproven == HasUnproven(excluded)
    {
      unproven := false;
      for i := 0 to |excluded|
        invariant unproven <==> exists j :: 0 <= j < i && excluded[j].reason.IsUnprovenDependency()
      {
        if excluded[i].reason.IsUnprovenDependency() {
          unproven := true;
        }
      }
    }

    method EvaluateEdges(ctx: Context, deps: seq<Dependency>)
      returns (edges: seq<EdgeOutcome>, emitted: seq<IrEvent>, sequence: nat)
      requires ctx.regs == registry.registrations
      modifies ledger
      ensures EdgeRun(edges, emitted, sequence, ledger.State())
              == EdgesEvaluated(ctx, deps, old(ledger.State()), |deps|)
    {
      hide Evaluated;
      edges, emitted, sequence := [], [], 0;
      for i := 0 to |deps|
        invariant EdgeRun(edges, emitted, sequence, ledger.State()) == EdgesEvaluated(ctx, deps, old(ledger.State()), i)
      {
        var outcome;
        outcome, emitted, sequence := EvaluateEdge(ctx, registry, ledger, deps[i], emitted, sequence);
        edges := edges + [outcome];
      }
    }

    /** Force every conflicted edge to undecided; a conflict that names no edge leaves the
        guarantee nothing to attach to. */
    method ApplyConflicts(ctx: Context, edges: seq<EdgeOutcome>, conflicts: seq<EdgeConflict>, emitted: seq<IrEvent>,
                          sequence: nat)
      returns (applied: Option<seq<EdgeOutcome>>, emitted': seq<IrEvent>)
      requires sequence <= 0xFFFF
      ensures applied == ConflictsApplied(edges, conflicts)
      ensures applied.Some? ==> emitted' == emitted + ConflictEvents(ctx, conflicts, sequence)
    {
      hide ConflictEvent;
      applied, emitted' := Some(edges), emitted;
      var current := sequence;
      for n := 0 to |conflicts|
        invariant applied.Some? && applied == ConflictsApplied(edges, conflicts[..n])
        invariant emitted' == emitted + ConflictEvents(ctx, conflicts[..n], sequence)
        invariant current == SequenceAfter(sequence, n)
      {
        assert conflicts[..n + 1][..n] == conflicts[..n];
        emitted' := emitted' + [ConflictEvent(ctx, current, conflicts[n])];
        current := NextSequence(current);
        var i := IndexOfKey(applied.value, conflicts[n].dependency);
        if i == |applied.value| {
          NoneStays(edges, conflicts, n + 1);
          return None, emitted';
        }
        applied := Some(applied.value[i := Overridden(applied.value[i])]);
      }
      assert conflicts[..|conflicts|] == conflicts;
    }
  }

  lemma {:induction false} NoneStays(edges: seq<EdgeOutcome>, conflicts: seq<EdgeConflict>, n: nat)
    requires n <= |conflicts| && ConflictsApplied(edges, conflicts[..n]).None?
    ensures ConflictsApplied(edges, conflicts).None?
    decreases |conflicts|
  {
    if n < |conflicts| {
      var init := conflicts[..|conflicts| - 1];
      assert init[..n] == conflicts[..n];
      NoneStays(edges, init, n);
    } else {
      assert conflicts[..n] == conflicts;
    }
  }
}
