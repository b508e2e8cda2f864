/** What a check means: which errors it can return, and exactly when a certificate says
    stale, valid, likely-valid or unknown. */
module EngineTheorems {
  import opened Primitives
  import opened Wrappers
  import opened Dependencies
  import opened Ir
  import opened Coverage
  import opened Graph
  import opened Replays
  import opened GraphTheorems
  import opened Validity
  import opened Certificates
  import opened Seal
  import opened TrustLedgers
  import opened ProbeRegistries
  import opened Edges
  import opened EdgeTheorems
  import opened Engine
  import opened Provenance
  import opened RecordedEdges
  import opened CheckedEdges
  import Order

  /** The graph really is the replay of this log under manifests a registry can hold. */
  ghost predicate Replayed(log: seq<IrEvent>, graph: DerivedGraph, manifests: Manifests) {
    IsReplayOf(graph, log, manifests) && FiledByKey(manifests)
  }

  lemma NodeIsReplayed(log: seq<IrEvent>, graph: DerivedGraph, manifests: Manifests, comp: string)
    requires Replayed(log, graph, manifests) && comp in graph.computations
    ensures graph.computations[comp] == NodeOf(Order.Linearize(log), comp)
    ensures AttributionOf(graph, comp) == LookupOf(manifests, ProducersOf(Order.Linearize(log), comp))
    ensures forall e :: e in log <==> e in Order.Linearize(log)
  {
    hide NodeOf, LookupOf, ProducersOf, NotesOf;
    Order.LinearizeSorts(log);
    Order.PermutationMembers(log, Order.Linearize(log));
  }

  // ------------------------------------------- the input to sealing

  /** Every event sealing audits comes from a declared or an accounted-for producer. */
  lemma ProducersAreAccountedFor(log: seq<IrEvent>, graph: DerivedGraph, manifests: Manifests, comp: string, e: IrEvent)
    requires Replayed(log, graph, manifests) && comp in graph.computations
    requires e in RecordedEvents(log, comp) || e.producer == ENGINE_PRODUCER
    ensures e.producer in Declared(CoverageFor(graph, comp)) || e.producer in MissingFor(graph, comp)
  {
    hide NodeOf, IsReplayOf, LookupOf, ProducersOf, RecordedEvents;
    var coverage := CoverageFor(graph, comp);
    if e in RecordedEvents(log, comp) {
      var events := Order.Linearize(log);
      NodeIsReplayed(log, graph, manifests, comp);
      ProducersMember(events, comp, e);
      var keys, key := ProducersOf(events, comp), KeyOfEvent(e);
      LookupAccountsForEveryProducer(manifests, keys);
      assert AttributionOf(graph, comp) == LookupOf(manifests, keys);
      if key !in AttributionOf(graph, comp).unregistered {
        var c :| c in AttributionOf(graph, comp).entries && KeyOfManifest(c) == key;
        assert c in coverage && c.producer == e.producer;
      }
    } else {
      assert EngineCoverageEntry() in coverage;
    }
  }

  lemma ProducersMember(events: seq<IrEvent>, comp: string, e: IrEvent)
    requires e in events && e.computationId == Some(comp)
    ensures KeyOfEvent(e) in ProducersOf(events, comp)
  {
  }

  lemma SubprocessesAreObligations(log: seq<IrEvent>, graph: DerivedGraph, manifests: Manifests, comp: string,
                                   e: IrEvent)
    requires Replayed(log, graph, manifests) && comp in graph.computations
    requires e in RecordedEvents(log, comp) && IsSubprocessTool(e)
    ensures graph.computations[comp].obligations != []
  {
    hide NodeOf, IsReplayOf, IsSubprocessTool;
    var events := Order.Linearize(log);
    NodeIsReplayed(log, graph, manifests, comp);
    ObligationsAreSubprocesses(events, comp);
    var m :| 0 <= m < |events| && events[m] == e;
  }

  /** An artifact a computation claims has its production in the log. */
  lemma ClaimedIsProduced(log: seq<IrEvent>, graph: DerivedGraph, manifests: Manifests, comp: string, artifact: string)
    requires Replayed(log, graph, manifests) && comp in graph.computations
    ensures artifact in graph.computations[comp].artifacts <==> ArtifactEvent(log, comp, artifact).Some?
  {
    hide NodeOf, IsReplayOf;
    var events := Order.Linearize(log);
    NodeIsReplayed(log, graph, manifests, comp);
    ArtifactsHoldProductions(events, comp, artifact);
    ArtifactEventMeaning(log, comp, artifact);
    forall m | 0 <= m < |events| ensures events[m] in log {
      assert events[m] in events;
    }
    if e :| e in log && ProducesArtifact(e, comp, artifact) {
      var m :| 0 <= m < |events| && events[m] == e;
    }
  }

  lemma {:induction false} ArtifactEventMeaning(log: seq<IrEvent>, comp: string, artifact: string)
    ensures ArtifactEvent(log, comp, artifact).Some? <==> exists e :: e in log && ProducesArtifact(e, comp, artifact)
    ensures ArtifactEvent(log, comp, artifact).Some? ==>
              var e := ArtifactEvent(log, comp, artifact).value;
              e in log && ProducesArtifact(e, comp, artifact)
  {
    hide ProducesArtifact;
    if log != [] {
      ArtifactEventMeaning(log[1..], comp, artifact);
      assert log == [log[0]] + log[1..];
    }
  }

  // -------------------------------------------------- the edges' outcomes

  /** The outcome an edge ends a check with. */
  ghost function FinalOutcome(ctx: Context, ledger: LedgerState, node: ComputationNode, dep: Dependency): EdgeOutcome {
    if Conflicted(node.conflicts, dep.key) then Overridden(OwnOutcome(ctx, ledger, dep))
      else OwnOutcome(ctx, ledger, dep)
  }

  /** The final outcomes in dependency order. */
  ghost function FinalOutcomes(ctx: Context, ledger: LedgerState, node: ComputationNode): (edges: seq<EdgeOutcome>)
    ensures |edges| == |node.dependencies|
    ensures forall i :: 0 <= i < |edges| ==> edges[i] == FinalOutcome(ctx, ledger, node, node.dependencies[i])
  {
    seq(|node.dependencies|, i
        requires 0 <= i < |node.dependencies| => FinalOutcome(ctx, ledger, node, node.dependencies[i]))
  }

  ghost predicate NodeWellRecorded(node: ComputationNode) {
    && (forall d :: d in node.dependencies ==> WellRecorded(d))
    && KeysDistinct(node.dependencies)
    && (forall c :: c in node.conflicts ==> NamesSome(c, node.dependencies))
  }

  lemma OwnOutcomeOwns(ctx: Context, ledger: LedgerState, dep: Dependency)
    ensures OwnOutcome(ctx, ledger, dep).dependency == dep
  {
    VerdictMeaning(ctx, ledger, dep, 0);
  }

  /** Every conflict finds its edge, so applying conflicts cannot fail; the edges end up as
      if each had been evaluated alone and then overridden where conflicted. */
  lemma ConflictsAlwaysApply(ctx: Context, ledger: LedgerState, node: ComputationNode)
    requires NodeWellRecorded(node)
    ensures var run := EdgesEvaluated(ctx, node.dependencies, ledger, |node.dependencies|);
            ConflictsApplied(run.edges, node.conflicts) == Some(FinalOutcomes(ctx, ledger, node))
  {
    hide EdgesEvaluated, ConflictsApplied, WellRecorded, OwnOutcome, Conflicted;
    var deps := node.dependencies;
    var edges := EdgesEvaluated(ctx, deps, ledger, |deps|).edges;
    EdgesAreIndependent(ctx, deps, ledger, |deps|);
    forall i | 0 <= i < |deps| ensures edges[i].dependency == deps[i] {
      OwnOutcomeOwns(ctx, ledger, deps[i]);
    }
    ConflictsReachTheirEdges(edges, node.conflicts);
    forall i | 0 <= i < |node.conflicts| ensures NamesEdge(edges, node.conflicts[i].dependency) {
      assert node.conflicts[i] in node.conflicts;
      var j :| 0 <= j < |deps| && deps[j].key == node.conflicts[i].dependency;
      assert edges[j].dependency.key == node.conflicts[i].dependency;
    }
    assert ConflictsApplied(edges, node.conflicts).value == FinalOutcomes(ctx, ledger, node);
  }

  lemma FinalOutcomeExplained(ctx: Context, ledger: LedgerState, node: ComputationNode, dep: Dependency)
    ensures var outcome := FinalOutcome(ctx, ledger, node, dep);
            && outcome.dependency == dep
            && EdgeExplained(outcome)
            && (outcome.verdict.Drifted? <==> !Conflicted(node.conflicts, dep.key) && Drifts(ctx, ledger, dep))
            && (outcome.verdict.Matched? <==> !Conflicted(node.conflicts, dep.key) && Supported(ctx, ledger, dep))
            && (outcome.verdict.Matched? ==> outcome.verdict.recorded == dep.trustClass)
  {
    hide Conflicted, Drifts, Confirms, GateOpen, Evaluated;
    VerdictMeaning(ctx, ledger, dep, 0);
  }

  /** Nothing the check learns speaks against this edge, and what speaks for it suffices: a
      volatile edge's declared lifetime is open and its probe, if one answers, saw no change;
      any other edge was confirmed by the probe that must answer for it. */
  ghost predicate Supported(ctx: Context, ledger: LedgerState, dep: Dependency) {
    if dep.trustClass.Volatile? then GateOpen(dep, ctx.now, ctx.maxTtl) && !Drifts(ctx, ledger, dep)
    else Confirms(ctx, ledger, dep)
  }

  /** What a check hands to sealing. */
  ghost function DueInput(log: seq<IrEvent>, graph: DerivedGraph, ctx: Context, ledger: LedgerState,
                          record: ArtifactRecord): SealInput
    requires ctx.computation in graph.computations
  {
    var node := graph.computations[ctx.computation];
    SealInputFor(log, graph, ctx, record, FinalOutcomes(ctx, ledger, node), EmittedEvents(ctx, node, ledger))
  }

  lemma DueInputIsWellAssembled(log: seq<IrEvent>, graph: DerivedGraph, manifests: Manifests, ctx: Context,
                                ledger: LedgerState,
      record: ArtifactRecord)
    requires Replayed(log, graph, manifests) && ctx.computation in graph.computations
    requires NodeWellRecorded(graph.computations[ctx.computation])
    ensures WellAssembled(DueInput(log, graph, ctx, ledger, record))
  {
    hide EmittedEvents, FinalOutcome, EdgeExplained, RecordedEvents, EffectDeficitOf, HasFsCoveredObserver, IsReplayOf,
         RecipeOf, MissingFor, CoverageFor, IsSubprocessTool, HasUnproven, Conflicted, Dependency.IsConsistent;
    var node := graph.computations[ctx.computation];
    var input := DueInput(log, graph, ctx, ledger, record);
    var emitted := EmittedEvents(ctx, node, ledger);
    EmissionIsBounded(ctx, node, ledger);
    forall i | 0 <= i < |input.edges|
      ensures EdgeExplained(input.edges[i]) && input.edges[i].dependency.IsConsistent() {
      FinalOutcomeExplained(ctx, ledger, node, node.dependencies[i]);
      assert node.dependencies[i] in node.dependencies;
    }
    forall e | e in input.events
      ensures e.producer in Declared(input.coverage) || e.producer in input.accountedMissing {
      assert e in RecordedEvents(log, ctx.computation) || e in emitted;
      ProducersAreAccountedFor(log, graph, manifests, ctx.computation, e);
    }
    CoverageIsNeverEmpty(graph, ctx.computation);
    forall e | e in input.events && IsSubprocessTool(e) ensures node.obligations != [] {
      if e in emitted {
        EngineEventsInvokeNothing(e, ctx);
      } else {
        assert e in RecordedEvents(log, ctx.computation);
        SubprocessesAreObligations(log, graph, manifests, ctx.computation, e);
      }
    }
  }

  lemma CoverageIsNeverEmpty(graph: DerivedGraph, comp: string)
    ensures CoverageFor(graph, comp) != {}
  {
    assert EngineCoverageEntry() in CoverageFor(graph, comp);
  }

  lemma EngineEventsInvokeNothing(e: IrEvent, ctx: Context)
    requires FromTheEngine(e, ctx)
    ensures !IsSubprocessTool(e)
  {
  }

  lemma CheckedForIsSealed(log: seq<IrEvent>, graph: DerivedGraph, manifests: Manifests, ctx: Context,
                           ledger: LedgerState,
                           artifact: string)
    requires Replayed(log, graph, manifests) && ctx.computation in graph.computations
    requires artifact in graph.computations[ctx.computation].artifacts
    ensures NodeWellRecorded(graph.computations[ctx.computation])
    ensures match ArtifactFound(log, ctx.computation, artifact)
            case Err(problem) =>
              problem.MalformedArtifactEvent? && problem.artifact == artifact
                && CheckedFor(log, graph, ctx, ledger, artifact) == Err(problem)
            case Ok(record) =>
              var input := DueInput(log, graph, ctx, ledger, record);
              && Sealed(input).Ok?
              && CheckedFor(log, graph, ctx, ledger, artifact)
                 == Ok(CheckOutcome(Sealed(input).value,
                                    EmittedEvents(ctx, graph.computations[ctx.computation], ledger)))
              && Sealed(input).value.status == DueStatus(input)
              && Sealed(input).value.dependsOn == graph.computations[ctx.computation].dependencies
  {
    hide EdgesEvaluated, ConflictsApplied, ConflictEvents, SealInputFor, Sealed, WellAssembled, DueStatus, FinalOutcome,
         IsReplayOf, NodeOf;
    var node := graph.computations[ctx.computation];
    NodeIsReplayed(log, graph, manifests, ctx.computation);
    NodesAreWellRecorded(Order.Linearize(log), ctx.computation);
    ConflictsAlwaysApply(ctx, ledger, node);
    ClaimedIsProduced(log, graph, manifests, ctx.computation, artifact);
    if ArtifactFound(log, ctx.computation, artifact).Ok? {
      var record := ArtifactFound(log, ctx.computation, artifact).value;
      DueInputIsWellAssembled(log, graph, manifests, ctx, ledger, record);
      SealingSucceeds(DueInput(log, graph, ctx, ledger, record));
      DueEdges(log, graph, ctx, ledger, record);
      FinalDependencies(ctx, ledger, node);
    }
  }

  lemma FinalDependencies(ctx: Context, ledger: LedgerState, node: ComputationNode)
    ensures DependsOn(FinalOutcomes(ctx, ledger, node)) == node.dependencies
  {
    hide FinalOutcome;
    var edges := FinalOutcomes(ctx, ledger, node);
    forall i | 0 <= i < |edges| ensures edges[i].dependency == node.dependencies[i] {
      FinalOutcomeExplained(ctx, ledger, node, node.dependencies[i]);
    }
  }

  lemma DueEdges(log: seq<IrEvent>, graph: DerivedGraph, ctx: Context, ledger: LedgerState,
      record: ArtifactRecord)
    requires ctx.computation in graph.computations
    ensures DueInput(log, graph, ctx, ledger, record).edges
            == FinalOutcomes(ctx, ledger, graph.computations[ctx.computation])
  {
  }

  // ----------------------------------------------------- which errors

  /** The computations whose events in the log produced the artifact. */
  ghost predicate ProducedIn(log: seq<IrEvent>, comp: string, artifact: string) {
    exists e :: e in log && ProducesArtifact(e, comp, artifact)
  }

  lemma ClaimantsProduced(log: seq<IrEvent>, graph: DerivedGraph, manifests: Manifests, artifact: string)
    requires Replayed(log, graph, manifests)
    ensures forall comp :: comp in Claimants(graph, artifact) <==> ProducedIn(log, comp, artifact)
  {
    hide NodeOf;
    forall comp ensures comp in Claimants(graph, artifact) <==> ProducedIn(log, comp, artifact) {
      ArtifactEventMeaning(log, comp, artifact);
      if e :| e in log && ProducesArtifact(e, comp, artifact) {
        Order.LinearizeSorts(log);
        Order.PermutationMembers(log, Order.Linearize(log));
        assert e in Order.Linearize(log);
        assert comp in graph.computations;
      }
      if comp in graph.computations {
        ClaimedIsProduced(log, graph, manifests, comp, artifact);
      }
    }
  }

  /** The engine's self-audits are dead code. For every log, manifests, registrations, probe
      answers, ledger and instant a check returns a certificate, or one of exactly four
      errors, each for the stated reason and no other. No error about the engine's own
      consistency, its coverage assembly, aggregation, a missing recipe or a malformed
      certificate can come out. */
  lemma SelfAuditsAreDead(log: seq<IrEvent>, graph: DerivedGraph, manifests: Manifests, regs: Registrations,
                          ledger: LedgerState,
                          maxTtl: nat, now: Instant, world: World, artifact: string)
    requires Replayed(log, graph, manifests)
    ensures var claimants := Claimants(graph, artifact);
            match Checked(log, graph, regs, ledger, maxTtl, now, world, artifact).0
            case Err(NondeterministicReplay) =>
              exists x, y :: x in log && y in log && x.eventId == y.eventId && x != y
            case Err(UnknownArtifact(a)) => a == artifact && forall comp :: !ProducedIn(log, comp, artifact)
            case Err(AmbiguousArtifact(a, among)) =>
              && a == artifact && among == claimants
              && exists c, d :: c != d && ProducedIn(log, c, artifact) && ProducedIn(log, d, artifact)
            case Err(MalformedArtifactEvent(a, field)) =>
              && a == artifact
              && (exists comp ::
                    && Sole(claimants, comp)
                    && ArtifactFound(log, comp, artifact) == Err(MalformedArtifactEvent(a, field)))
            case Err(_) => false
            case Ok(_) =>
              exists comp :: Sole(claimants, comp) && ArtifactFound(log, comp, artifact).Ok?
  {
    hide IsReplayOf, Claimants, ProducedIn, CheckedFor, ArtifactFound, EdgesEvaluated;
    Determinism(log, graph, manifests);
    ClaimantsProduced(log, graph, manifests, artifact);
    var claimants := Claimants(graph, artifact);
    if graph.IsDeterministic() && claimants != {} {
      if comp :| Sole(claimants, comp) {
        assert forall c :: Sole(claimants, c) ==> c == comp;
        ClaimantsAreComputations(graph, artifact, comp);
        CheckedForIsSealed(log, graph, manifests, Context(comp, now, regs, maxTtl, world), ledger, artifact);
      } else {
        var c :| c in claimants;
        assert !Sole(claimants, c);
        var d :| d in claimants && d != c;
        assert ProducedIn(log, c, artifact) && ProducedIn(log, d, artifact);
      }
    }
  }

  lemma Determinism(log: seq<IrEvent>, graph: DerivedGraph, manifests: Manifests)
    requires Replayed(log, graph, manifests)
    ensures graph.IsDeterministic() <==> forall x, y :: x in log && y in log && x.eventId == y.eventId ==> x == y
  {
    Order.DeterministicMeansNoDivergence(log, graph.duplicates);
  }

  // ------------------------------------------------ the exact verdict

  /** Nothing about the artifact as a whole stands in the way: every contributing producer is
      registered, no exclusion left a dependency unproven, every observed effect kind is
      covered, subprocesses were watched, and a recipe hash exists. */
  ghost predicate EvidenceComplete(log: seq<IrEvent>, graph: DerivedGraph, comp: string)
    requires comp in graph.computations
  {
    var node := graph.computations[comp];
    var recorded, coverage := RecordedEvents(log, comp), CoverageFor(graph, comp);
    && AttributionOf(graph, comp).unregistered == {}
    && (forall x :: x in node.excluded ==> !x.reason.IsUnprovenDependency())
    && (forall e :: e in recorded && IsEffectKind(e.kind) ==> CoveredBySome(coverage, e.kind))
    && ((exists e :: e in recorded && IsSubprocessTool(e)) ==> HasFsCoveredObserver(coverage))
    && RecipeOf(recorded).Some?
  }

  lemma EvidenceDecidesReasons(log: seq<IrEvent>, graph: DerivedGraph, manifests: Manifests, ctx: Context,
                               ledger: LedgerState,
      record: ArtifactRecord)
    requires Replayed(log, graph, manifests) && ctx.computation in graph.computations
    ensures var input := DueInput(log, graph, ctx, ledger, record);
            EvidenceComplete(log, graph, ctx.computation) <==>
              input.artifactReasons == [] && input.producedBy.recipeHash.Some?
  {
    hide IsReplayOf, NodeOf, FinalOutcomes, EmittedEvents, RecordedEvents, RecipeOf, IsSubprocessTool,
      HasFsCoveredObserver,
         CoveredBySome, IsEffectKind, CoverageFor, HasUnproven, EffectDeficitOf, MissingFor;
    var comp := ctx.computation;
    var node := graph.computations[comp];
    var recorded, coverage := RecordedEvents(log, comp), CoverageFor(graph, comp);
    MissingMeaning(graph, comp);
    UnprovenMeaning(node.excluded);
    DeficitMeaning(recorded, coverage);
    ObligationsRecorded(log, graph, manifests, comp);
  }

  lemma MissingMeaning(graph: DerivedGraph, comp: string)
    ensures MissingFor(graph, comp) == {} <==> AttributionOf(graph, comp).unregistered == {}
  {
    hide AttributionOf;
    if k :| k in AttributionOf(graph, comp).unregistered {
      assert k.producer in MissingFor(graph, comp);
    }
  }

  lemma UnprovenMeaning(excluded: seq<ExcludedEdge>)
    ensures HasUnproven(excluded) <==> exists x :: x in excluded && x.reason.IsUnprovenDependency()
  {
  }

  lemma DeficitMeaning(events: seq<IrEvent>, coverage: set<CoverageEntry>)
    ensures EffectDeficitOf(events, coverage) == {} <==>
            forall e :: e in events && IsEffectKind(e.kind) ==> CoveredBySome(coverage, e.kind)
  {
    if e :| e in events && IsEffectKind(e.kind) && !CoveredBySome(coverage, e.kind) {
      assert e.kind in EffectDeficitOf(events, coverage);
    }
  }

  lemma ObligationsRecorded(log: seq<IrEvent>, graph: DerivedGraph, manifests: Manifests, comp: string)
    requires Replayed(log, graph, manifests) && comp in graph.computations
    ensures graph.computations[comp].obligations != [] <==>
            exists e :: e in RecordedEvents(log, comp) && IsSubprocessTool(e)
  {
    hide IsReplayOf, NodeOf, IsSubprocessTool;
    var events := Order.Linearize(log);
    NodeIsReplayed(log, graph, manifests, comp);
    ObligationsAreSubprocesses(events, comp);
    if graph.computations[comp].obligations != [] {
      var m :| 0 <= m < |events| && events[m].computationId == Some(comp) && IsSubprocessTool(events[m]);
      assert events[m] in events;
      assert events[m] in RecordedEvents(log, comp);
    }
    if e :| e in RecordedEvents(log, comp) && IsSubprocessTool(e) {
      SubprocessesAreObligations(log, graph, manifests, comp, e);
    }
  }

  /** The probe that must answer for some unconflicted edge saw a change. */
  ghost predicate SomeDrift(ctx: Context, ledger: LedgerState, node: ComputationNode) {
    exists i :: 0 <= i < |node.dependencies|
                && !Conflicted(node.conflicts, node.dependencies[i].key) && Drifts(ctx, ledger, node.dependencies[i])
  }

  ghost predicate AllSupported(ctx: Context, ledger: LedgerState, deps: seq<Dependency>) {
    forall i :: 0 <= i < |deps| ==> Supported(ctx, ledger, deps[i])
  }

  predicate AllStrong(deps: seq<Dependency>) {
    forall i :: 0 <= i < |deps| ==> deps[i].trustClass.IsStrong()
  }

  /** The status of a computation's artifact, read off the log, the probes and the ledger.
      Stale: some unconflicted edge drifted. Usable: there is an edge, no edge is conflicted,
      every edge is supported and the evidence is complete; then valid if every recorded class
      is strong and likely-valid otherwise. Everything else is unknown. */
  ghost function TrueStatus(log: seq<IrEvent>, graph: DerivedGraph, ctx: Context, ledger: LedgerState): Status
    requires ctx.computation in graph.computations
  {
    var node := graph.computations[ctx.computation];
    if SomeDrift(ctx, ledger, node) then Stale
    else if node.dependencies != [] && node.conflicts == [] && AllSupported(ctx, ledger, node.dependencies)
            && EvidenceComplete(log, graph, ctx.computation)
    then if AllStrong(node.dependencies) then Valid else LikelyValid
    else Unknown
  }

  /** Position by position, what the verdicts of a check say about its dependencies. */
  ghost predicate Judged(ctx: Context, ledger: LedgerState, node: ComputationNode, verdicts: seq<EdgeVerdict>) {
    && |verdicts| == |node.dependencies|
    && forall i :: 0 <= i < |verdicts| ==>
         var d := node.dependencies[i];
         && (verdicts[i].Drifted? <==> !Conflicted(node.conflicts, d.key) && Drifts(ctx, ledger, d))
         && (verdicts[i].Matched? <==> !Conflicted(node.conflicts, d.key) && Supported(ctx, ledger, d))
         && (verdicts[i].Matched? ==> verdicts[i].recorded == d.trustClass)
  }

  lemma FinalVerdictsJudge(ctx: Context, ledger: LedgerState, node: ComputationNode)
    ensures Judged(ctx, ledger, node, Verdicts(FinalOutcomes(ctx, ledger, node)))
  {
    hide Drifts, Supported, FinalOutcome, Conflicted, EdgeExplained;
    forall i | 0 <= i < |node.dependencies| {
      FinalOutcomeExplained(ctx, ledger, node, node.dependencies[i]);
    }
  }

  lemma AggregateIsTrue(ctx: Context, ledger: LedgerState, node: ComputationNode)
    requires NodeWellRecorded(node)
    ensures var edges := FinalOutcomes(ctx, ledger, node);
            var status := Aggregated(Verdicts(edges), Keys(edges)).value;
            && (status.Stale? <==> SomeDrift(ctx, ledger, node))
            && (status.IsUsable() <==>
                  node.dependencies != [] && node.conflicts == [] && AllSupported(ctx, ledger, node.dependencies))
            && (status.Valid? <==> status.IsUsable() && AllStrong(node.dependencies))
  {
    hide Drifts, Supported, FinalOutcome, Conflicted, ReasonsOf, Fold, NodeWellRecorded;
    var verdicts := Verdicts(FinalOutcomes(ctx, ledger, node));
    FinalVerdictsJudge(ctx, ledger, node);
    FoldByPosition(verdicts);
    ConflictFreeNode(node);
  }

  lemma ConflictFreeNode(node: ComputationNode)
    requires NodeWellRecorded(node)
    ensures node.conflicts == [] <==>
            forall i :: 0 <= i < |node.dependencies| ==> !Conflicted(node.conflicts, node.dependencies[i].key)
  {
    if node.conflicts != [] {
      var c := node.conflicts[0];
      assert c in node.conflicts;
      var i :| 0 <= i < |node.dependencies| && node.dependencies[i].key == c.dependency;
      assert Conflicted(node.conflicts, node.dependencies[i].key);
    }
  }

  /** The exact meaning of the verdict: whenever a check returns a certificate, its status is
      the true status, and it lists exactly the computation's dependencies. */
  lemma VerdictIsExact(log: seq<IrEvent>, graph: DerivedGraph, manifests: Manifests, ctx: Context, ledger: LedgerState,
                       artifact: string)
    requires Replayed(log, graph, manifests) && ctx.computation in graph.computations
    requires artifact in graph.computations[ctx.computation].artifacts
    requires CheckedFor(log, graph, ctx, ledger, artifact).Ok?
    ensures var certificate := CheckedFor(log, graph, ctx, ledger, artifact).value.certificate;
            && certificate.status == TrueStatus(log, graph, ctx, ledger)
            && certificate.dependsOn == graph.computations[ctx.computation].dependencies
  {
    hide CheckedFor, Sealed, IsReplayOf, EvidenceComplete, FinalOutcomes, SomeDrift, AllSupported, AllStrong,
      NodeWellRecorded, Aggregated,
         ArtifactFound, Conflicted, EmittedEvents, EngineReasons;
    CheckedForIsSealed(log, graph, manifests, ctx, ledger, artifact);
    var record := ArtifactFound(log, ctx.computation, artifact).value;
    EvidenceDecidesReasons(log, graph, manifests, ctx, ledger, record);
    DueEdges(log, graph, ctx, ledger, record);
    AggregateIsTrue(ctx, ledger, graph.computations[ctx.computation]);
  }

  /** From the outside: a certificate is only ever issued for the one computation that produced
      the artifact, says its true status over the ledger the check began with, and comes with
      exactly the events that check emitted. */
  lemma CertificateIsTrue(log: seq<IrEvent>, graph: DerivedGraph, manifests: Manifests, regs: Registrations,
                          ledger: LedgerState,
                          maxTtl: nat, now: Instant, world: World, artifact: string)
    requires Replayed(log, graph, manifests)
    requires Checked(log, graph, regs, ledger, maxTtl, now, world, artifact).0.Ok?
    ensures exists comp :: Sole(Claimants(graph, artifact), comp)
    ensures forall comp :: Sole(Claimants(graph, artifact), comp) ==>
              && comp in graph.computations
              && var outcome := Checked(log, graph, regs, ledger, maxTtl, now, world, artifact).0.value;
                 var ctx := Context(comp, now, regs, maxTtl, world);
                 && outcome.certificate.status == TrueStatus(log, graph, ctx, ledger)
                 && outcome.certificate.dependsOn == graph.computations[comp].dependencies
                 && outcome.events == EmittedEvents(ctx, graph.computations[comp], ledger)
  {
    hide IsReplayOf, Claimants, CheckedFor, EdgesEvaluated, TrueStatus, EmittedEvents, ArtifactFound, Sealed,
      NodeWellRecorded, DueStatus;
    forall comp | Sole(Claimants(graph, artifact), comp)
      ensures comp in graph.computations
      ensures var outcome := Checked(log, graph, regs, ledger, maxTtl, now, world, artifact).0.value;
              var ctx := Context(comp, now, regs, maxTtl, world);
              && outcome.certificate.status == TrueStatus(log, graph, ctx, ledger)
              && outcome.certificate.dependsOn == graph.computations[comp].dependencies
              && outcome.events == EmittedEvents(ctx, graph.computations[comp], ledger)
    {
      var ctx := Context(comp, now, regs, maxTtl, world);
      assert forall c :: Sole(Claimants(graph, artifact), c) ==> c == comp;
      ClaimantsAreComputations(graph, artifact, comp);
      CheckedForIsSealed(log, graph, manifests, ctx, ledger, artifact);
      VerdictIsExact(log, graph, manifests, ctx, ledger, artifact);
    }
  }
}
