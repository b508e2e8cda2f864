/** What an issued certificate says beyond its status: why each edge falls short, what speaks
    against the artifact as a whole, and what was certified. */
module Explanations {
  import opened Wrappers
  import opened Text
  import opened SortedSets
  import opened TrustClasses
  import opened Dependencies
  import opened Ir
  import opened Coverage
  import opened Graph
  import opened Replays
  import opened Validity
  import opened Certificates
  import opened Seal
  import opened TrustLedgers
  import opened ProbeRegistries
  import opened Edges
  import opened EdgeTheorems
  import opened Engine
  import opened Provenance
  import opened CheckedEdges
  import opened EngineTheorems
  import opened FeedbackCertificates
  import opened Classifications
  import opened Evidence
  import Order
  import Paths

  // --------------------------------------------------- why an edge falls short

  /** What must have been observed about an edge for it to carry this reason. */
  ghost predicate Observed(ctx: Context, ledger: LedgerState, dep: Dependency, code: ReasonCode) {
    var gate := dep.trustClass.Volatile? && GateOpen(dep, ctx.now, ctx.maxTtl);
    var asked := Consulted(ctx, ledger, dep);
    match code
    case TtlExpired => dep.trustClass.Volatile? && !gate
    case NoProbeAvailable => !dep.trustClass.Volatile? && !asked
    case VolatileWithinTtlUnprobed => gate && !asked
    case ProbeUnknown => asked && AnswerFor(ctx, ledger, dep).UnknownResult?
    case Drift => asked && AnswerFor(ctx, ledger, dep).DriftResult?
    case ProbeTrustDemoted =>
      !dep.trustClass.Volatile? && asked && AnswerFor(ctx, ledger, dep).MatchResult?
      && Weaker(AnswerFor(ctx, ledger, dep).observedClass, ClassInForce(ctx, ledger, dep))
    case TrustClassHeuristicCapsAtLikelyValid =>
      dep.trustClass.Heuristic? && asked && AnswerFor(ctx, ledger, dep).MatchResult?
      && !Weaker(AnswerFor(ctx, ledger, dep).observedClass, ClassInForce(ctx, ledger, dep))
    case TrustClassVolatileCapsAtLikelyValid =>
      dep.trustClass.Volatile? && asked && AnswerFor(ctx, ledger, dep).MatchResult?
    case _ => false
  }

  /** An edge evaluated alone carries exactly the reason that was observed. */
  lemma ReasonIsObserved(ctx: Context, ledger: LedgerState, dep: Dependency, sequence: nat, code: ReasonCode)
    ensures Evaluated(ctx, ledger, dep, sequence).outcome.reason == Some(code) <==> Observed(ctx, ledger, dep, code)
  {
    hide ProbeCheckedEvent, TransitionEvents, LedgerAfter, Arbitrates, GateOpen, Weaker, LedgerState.EntryFor,
      TrustClass.IsDemotionFrom, RemovedEvent, TieEvent;
    if Consulted(ctx, ledger, dep) {
      var selected := SelectionOf(ctx.regs, dep.scheme, dep.key).value;
      FoldDemotes(ledger, dep, selected.identity, ctx.Answer(selected, dep), ctx.now);
      if ctx.Answer(selected, dep).MatchResult? {
        WeakerMeaning(ctx.Answer(selected, dep).observedClass, ClassInForce(ctx, ledger, dep));
      }
    }
  }

  /** What a conflict adds: it replaces whatever was observed. */
  ghost predicate Explains(ctx: Context, ledger: LedgerState, node: ComputationNode, dep: Dependency,
                           code: ReasonCode) {
    if Contradicted(node, dep) then code == DependencyChangedDuringComputation
    else Observed(ctx, ledger, dep, code)
  }

  /** The node records two observations of this edge that differ. */
  predicate Contradicted(node: ComputationNode, dep: Dependency) {
    exists i :: 0 <= i < |node.conflicts| && node.conflicts[i].dependency == dep.key
  }

  lemma FinalReasonIs(ctx: Context, ledger: LedgerState, node: ComputationNode, dep: Dependency, code: ReasonCode)
    ensures FinalOutcome(ctx, ledger, node, dep).reason == Some(code) <==> Explains(ctx, ledger, node, dep, code)
  {
    hide Evaluated, Observed;
    ReasonIsObserved(ctx, ledger, dep, 0, code);
  }

  // ------------------------------------------ what speaks against it all

  /** The reasons sealing collects: those handed over, no edges if there are none, and no recipe
      if the verdicts would do without. */
  lemma ScopedAre(input: SealInput, gate: GateOutcome)
    requires WellAssembled(input)
    requires forall c :: c in gate.reasons ==> c in input.artifactReasons
    requires RecipeIdentityUnavailable !in input.artifactReasons && NoDependenciesObserved !in input.artifactReasons
    ensures var aggregated := Aggregated(Verdicts(input.edges), Keys(input.edges));
            ScopedReasons(input, aggregated, gate)
            == input.artifactReasons + (if input.edges == [] then [NoDependenciesObserved] else [])
               + (if input.producedBy.recipeHash.None? && aggregated.value.IsUsable()
                  then [RecipeIdentityUnavailable] else [])
  {
    hide WellAssembled, Fold, ReasonsOf;
    var verdicts, keys := Verdicts(input.edges), Keys(input.edges);
    var aggregated := Aggregated(verdicts, keys);
    var scoped := input.artifactReasons;
    NoCodesFromEdges(verdicts, keys);
    var own := ArtifactCodes(aggregated.reasons);
    if input.edges == [] {
      assert aggregated.reasons[..0] == [] && own == [NoDependenciesObserved] && own[..0] == [];
      assert Adopt(scoped, own) == scoped + own;
    } else {
      assert own == [];
    }
    AdoptMembers(Adopt(scoped, own), gate.reasons);
  }

  function Flag(present: bool, code: ReasonCode): seq<ReasonCode> {
    if present then [code] else []
  }

  /** Cause before symptom: blindness, an unregistered producer, no edges at all, no recipe, an
      unproven dependency. */
  function Listed(blind: bool, stranger: bool, edgeless: bool, nameless: bool, doubtful: bool): seq<ReasonCode> {
    Flag(blind, ReasonCode.CoverageDeficit) + Flag(stranger, ProducerMissingFromCoverage)
    + Flag(edgeless, NoDependenciesObserved) + Flag(nameless, RecipeIdentityUnavailable)
    + Flag(doubtful, UnprovenDependency)
  }

  /** The order in which the engine comes upon them. */
  function Detected(blind: bool, stranger: bool, edgeless: bool, nameless: bool, doubtful: bool): seq<ReasonCode> {
    Flag(stranger, ProducerMissingFromCoverage) + Flag(doubtful, UnprovenDependency)
    + Flag(blind, ReasonCode.CoverageDeficit) + Flag(edgeless, NoDependenciesObserved)
    + Flag(nameless, RecipeIdentityUnavailable)
  }

  lemma {:induction false} RankedAlike(a: seq<ReasonCode>, b: seq<ReasonCode>)
    requires RankSorted(a) && RankSorted(b) && multiset(a) == multiset(b)
    requires forall c :: c in a ==> c.IsArtifactScoped()
    ensures a == b
  {
    hide RankSorted, ReasonCode.IsArtifactScoped;
    assert |a| == |multiset(a)| == |multiset(b)| == |b|;
    if a != [] {
      HeadsAlike(a, b);
      RankedTail(a);
      RankedTail(b);
      RankedAlike(a[1..], b[1..]);
    }
  }

  lemma RankedTail(a: seq<ReasonCode>)
    requires a != []
    ensures RankSorted(a) ==> RankSorted(a[1..])
    ensures multiset(a[1..]) == multiset(a) - multiset{a[0]}
    ensures forall c :: c in a[1..] ==> c in a
  {
    assert a == [a[0]] + a[1..];
  }

  lemma HeadsAlike(a: seq<ReasonCode>, b: seq<ReasonCode>)
    requires RankSorted(a) && RankSorted(b) && multiset(a) == multiset(b) && a != [] && b != []
    requires forall c :: c in a ==> c.IsArtifactScoped()
    ensures a[0] == b[0]
  {
    hide ArtifactReasonRank, ReasonCode.IsArtifactScoped;
    assert b[0] in multiset(b) && a[0] in multiset(a);
    assert b[0] in a && a[0] in b;
    var i :| 0 <= i < |a| && a[i] == b[0];
    var j :| 0 <= j < |b| && b[j] == a[0];
    RanksDiffer(a[0], b[0]);
  }

  lemma RanksDiffer(a: ReasonCode, b: ReasonCode)
    requires a.IsArtifactScoped() && b.IsArtifactScoped()
    ensures ArtifactReasonRank(a) == ArtifactReasonRank(b) ==> a == b
  {
  }

  /** However the engine comes upon them, sealing lists them cause before symptom. */
  lemma SortedIsListed(blind: bool, stranger: bool, edgeless: bool, nameless: bool, doubtful: bool)
    ensures SortByRank(Detected(blind, stranger, edgeless, nameless, doubtful))
            == Listed(blind, stranger, edgeless, nameless, doubtful)
  {
    hide SortByRank, Detected, Listed, RankSorted;
    var found := Detected(blind, stranger, edgeless, nameless, doubtful);
    var listed := Listed(blind, stranger, edgeless, nameless, doubtful);
    SortByRankSorts(found);
    SameReasons(blind, stranger, edgeless, nameless, doubtful);
    ListedIsSorted(blind, stranger, edgeless, nameless, doubtful);
    RankedAlike(listed, SortByRank(found));
  }

  lemma SameReasons(blind: bool, stranger: bool, edgeless: bool, nameless: bool, doubtful: bool)
    ensures multiset(Detected(blind, stranger, edgeless, nameless, doubtful))
            == multiset(Listed(blind, stranger, edgeless, nameless, doubtful))
    ensures forall c :: c in Listed(blind, stranger, edgeless, nameless, doubtful) ==> c.IsArtifactScoped()
  {
    FlagMembers(blind, ReasonCode.CoverageDeficit);
    FlagMembers(stranger, ProducerMissingFromCoverage);
    FlagMembers(edgeless, NoDependenciesObserved);
    FlagMembers(nameless, RecipeIdentityUnavailable);
    FlagMembers(doubtful, UnprovenDependency);
    hide Flag;
  }

  lemma FlagMembers(present: bool, code: ReasonCode)
    ensures forall c :: c in Flag(present, code) ==> c == code
  {
  }

  lemma ListedIsSorted(blind: bool, stranger: bool, edgeless: bool, nameless: bool, doubtful: bool)
    ensures RankSorted(Listed(blind, stranger, edgeless, nameless, doubtful))
  {
  }

  // ------------------------------------------------- the certificate

  /** The edges' part of the explanation: in dependency order, what explains each edge that falls
      short. */
  ghost function EdgePart(ctx: Context, ledger: LedgerState, node: ComputationNode, n: nat): seq<Reason>
    requires n <= |node.dependencies|
  {
    if n == 0 then []
    else
      var dep := node.dependencies[n - 1];
      EdgePart(ctx, ledger, node, n - 1)
      + if code :| Explains(ctx, ledger, node, dep, code) then [Reason(dep.key, code)] else []
  }

  lemma {:induction false} EdgePartIs(ctx: Context, ledger: LedgerState, node: ComputationNode, n: nat)
    requires n <= |node.dependencies|
    ensures EdgePart(ctx, ledger, node, n) == EdgeReasons(FinalOutcomes(ctx, ledger, node)[..n])
  {
    hide Explains, FinalOutcome;
    var edges := FinalOutcomes(ctx, ledger, node);
    if n > 0 {
      var dep := node.dependencies[n - 1];
      EdgePartIs(ctx, ledger, node, n - 1);
      assert edges[..n][..n - 1] == edges[..n - 1] && edges[..n][n - 1] == edges[n - 1];
      forall code {
        FinalReasonIs(ctx, ledger, node, dep, code);
      }
      FinalNames(ctx, ledger, node, dep);
    }
  }

  lemma FinalNames(ctx: Context, ledger: LedgerState, node: ComputationNode, dep: Dependency)
    ensures FinalOutcome(ctx, ledger, node, dep).dependency == dep
  {
    hide EdgeExplained, Conflicted, Drifts, Supported;
    FinalOutcomeExplained(ctx, ledger, node, dep);
  }

  /** Every edge would support the artifact. */
  ghost predicate EdgesWouldDo(ctx: Context, ledger: LedgerState, node: ComputationNode) {
    && node.dependencies != []
    && forall i :: 0 <= i < |node.dependencies| ==>
         !Contradicted(node, node.dependencies[i]) && Supported(ctx, ledger, node.dependencies[i])
  }

  /** What speaks against the artifact as a whole. */
  ghost function ArtifactPart(log: seq<IrEvent>, manifests: Manifests, ctx: Context, ledger: LedgerState,
                              node: ComputationNode): seq<ReasonCode> {
    var comp := ctx.computation;
    Listed(!EffectsDeclared(log, manifests, comp) || !ShellsWatched(log, manifests, comp),
           !AllKnown(log, manifests, comp), node.dependencies == [],
           !RecipeKnown(log, comp) && EdgesWouldDo(ctx, ledger, node), !NothingInDoubt(log, comp))
  }

  lemma AggregateWouldDo(ctx: Context, ledger: LedgerState, node: ComputationNode)
    requires NodeWellRecorded(node)
    ensures var edges := FinalOutcomes(ctx, ledger, node);
            Aggregated(Verdicts(edges), Keys(edges)).value.IsUsable() <==> EdgesWouldDo(ctx, ledger, node)
  {
    hide Supported, SomeDrift, AllStrong, Aggregated, FinalOutcomes, NodeWellRecorded;
    AggregateIsTrue(ctx, ledger, node);
    ConflictFreeNode(node);
    forall dep ensures Contradicted(node, dep) <==> Conflicted(node.conflicts, dep.key) {
    }
  }

  lemma EngineComesUpon(log: seq<IrEvent>, graph: DerivedGraph, manifests: Manifests, comp: string)
    requires Replayed(log, graph, manifests) && comp in graph.computations
    ensures var recorded, coverage := RecordedEvents(log, comp), CoverageFor(graph, comp);
            EngineReasons(graph.computations[comp], MissingFor(graph, comp), EffectDeficitOf(recorded, coverage),
                          coverage)
            == Flag(!AllKnown(log, manifests, comp), ProducerMissingFromCoverage)
               + Flag(!NothingInDoubt(log, comp), UnprovenDependency)
               + Flag(!EffectsDeclared(log, manifests, comp) || !ShellsWatched(log, manifests, comp),
                      ReasonCode.CoverageDeficit)
  {
    hide IsReplayOf, NodeOf, CoverageFor, AttributionOf, RecordedEvents, AllKnown, EffectsDeclared, ShellsWatched,
      IsEffectKind, CoveredBySome, IsSubprocessTool, HasFsCoveredObserver, LeavesADoubt, HasUnproven, EffectDeficitOf,
      MissingFor, ExclusionReason.IsUnprovenDependency;
    var node := graph.computations[comp];
    ContributesMeaning(log, graph, manifests, comp);
    EffectsMeaning(log, graph, manifests, comp);
    ShellsMeaning(log, graph, manifests, comp);
    NodeIsReplayed(log, graph, manifests, comp);
    NodeIsUnprovenExactlyWhen(Order.Linearize(log), comp);
    MissingMeaning(graph, comp);
    UnprovenMeaning(node.excluded);
    DeficitMeaning(RecordedEvents(log, comp), CoverageFor(graph, comp));
    ObligationsRecorded(log, graph, manifests, comp);
  }

  lemma SealedExplains(input: SealInput, blind: bool, stranger: bool, doubtful: bool)
    requires WellAssembled(input)
    requires input.artifactReasons == Flag(stranger, ProducerMissingFromCoverage) + Flag(doubtful, UnprovenDependency)
                                      + Flag(blind, ReasonCode.CoverageDeficit)
    ensures Sealed(input).Ok?
    ensures var aggregated := Aggregated(Verdicts(input.edges), Keys(input.edges)).value;
            Sealed(input).value.reasons == EdgeReasons(input.edges)
              + ArtifactReasons(Listed(blind, stranger, input.edges == [],
                                       input.producedBy.recipeHash.None? && aggregated.IsUsable(), doubtful))
  {
    hide RunGate, Aggregated, FinalStatus, EdgeReasons, CheckInvariants, EdgeExplained, AuditPasses, Caps,
      WellAssembled, SortByRank, ScopedReasons, Listed;
    SealingSucceeds(input);
    var aggregated := Aggregated(Verdicts(input.edges), Keys(input.edges));
    GateAddsNothing(input, aggregated.value);
    var gate := RunGate(aggregated.value, input.coverage, input.events, input.authority, input.accountedMissing).value;
    ScopedAre(input, gate);
    var nameless := input.producedBy.recipeHash.None? && aggregated.value.IsUsable();
    assert ScopedReasons(input, aggregated, gate) == Detected(blind, stranger, input.edges == [], nameless, doubtful);
    SortedIsListed(blind, stranger, input.edges == [], nameless, doubtful);
  }

  /** Everything an issued certificate gives as a reason, and in which order: for each edge in
      turn what was observed to its disadvantage, then what speaks against the artifact as a
      whole, cause before symptom. */
  lemma CertificateIsExplained(log: seq<IrEvent>, graph: DerivedGraph, manifests: Manifests, ctx: Context,
                               ledger: LedgerState, artifact: string)
    requires Replayed(log, graph, manifests) && ctx.computation in graph.computations
    requires artifact in graph.computations[ctx.computation].artifacts
    requires CheckedFor(log, graph, ctx, ledger, artifact).Ok?
    ensures var node := graph.computations[ctx.computation];
            CheckedFor(log, graph, ctx, ledger, artifact).value.certificate.reasons
            == EdgePart(ctx, ledger, node, |node.dependencies|)
               + ArtifactReasons(ArtifactPart(log, manifests, ctx, ledger, node))
  {
    hide IsReplayOf, CheckedFor, ArtifactFound, Sealed, NodeWellRecorded, WellAssembled, EdgeReasons, EmittedEvents,
      EngineReasons, RecordedEvents, CoverageFor, MissingFor, EffectDeficitOf, AllKnown, NothingInDoubt,
      EffectsDeclared, ShellsWatched, RecipeKnown, EdgesWouldDo, Aggregated, Listed, Flag, EdgePart, FinalOutcome,
      ArtifactReasons, DueStatus, RecipeOf;
    var comp, node := ctx.computation, graph.computations[ctx.computation];
    CheckedForIsSealed(log, graph, manifests, ctx, ledger, artifact);
    var record := ArtifactFound(log, comp, artifact).value;
    var input := DueInput(log, graph, ctx, ledger, record);
    DueInputIsWellAssembled(log, graph, manifests, ctx, ledger, record);
    EngineComesUpon(log, graph, manifests, comp);
    SealedExplains(input, !EffectsDeclared(log, manifests, comp) || !ShellsWatched(log, manifests, comp),
                   !AllKnown(log, manifests, comp), !NothingInDoubt(log, comp));
    AggregateWouldDo(ctx, ledger, node);
    RecipeIsTheFirstStarts(log, comp);
    EdgePartIs(ctx, ledger, node, |node.dependencies|);
    assert input.edges[..|input.edges|] == input.edges;
  }

  // ------------------------------------------------ the whole certificate

  /** What an event must say to describe the artifact it produced, and what it then describes. */
  lemma ProductionDescribes(e: IrEvent, artifact: string)
    ensures RecordOf(e, artifact).Ok? <==>
            (exists hash :: Says(e, "content_hash", hash) && IsHash(hash)) && SaysSomething(e, "kind")
    ensures RecordOf(e, artifact).Ok? ==>
              var r := RecordOf(e, artifact).value;
              && r.id == artifact && Says(e, "content_hash", r.contentHash) && Says(e, "kind", r.kind)
              && (r.path.Some? <==> SaysSomething(e, "path")) && (r.path.Some? ==> Says(e, "path", r.path.value))
              && (r.comparator.Some? <==> SaysSomething(e, "comparator"))
              && (r.comparator.Some? ==> Says(e, "comparator", r.comparator.value))
              && (Counts(e, "size") ==> e.payload.fields["size"] == NumberField(r.size))
              && (!Counts(e, "size") ==> r.size == 0)
    ensures RecordOf(e, artifact).Err? ==>
              RecordOf(e, artifact).error == MalformedArtifactEvent(artifact,
                if exists hash :: Says(e, "content_hash", hash) && IsHash(hash) then "kind" else "content_hash")
  {
    hide IsHash;
    if e.payload.Text("content_hash").Some? {
      assert Says(e, "content_hash", e.payload.Text("content_hash").value);
    }
  }

  /** The producer of some event is not in the coverage list. */
  predicate SomeUndeclared(coverage: set<CoverageEntry>, events: seq<IrEvent>) {
    exists e :: e in events && forall c :: c in coverage ==> c.producer != e.producer
  }

  /** What the coverage gate finds. In a list of the engine's own making an undeclared producer
      that is not accounted for is an error. Otherwise an undeclared producer is a reason and caps
      the status; failing that, a valid status is capped if a shell or an agent went unwatched. */
  lemma GateMeaning(status: Status, coverage: set<CoverageEntry>, events: seq<IrEvent>, authority: CoverageAuthority,
                    accounted: set<string>)
    ensures var gate := RunGate(status, coverage, events, authority, accounted);
            var unwatched := (exists e :: e in events && StartsAShell(e)) && forall c :: c in coverage ==> !Watches(c);
            if authority.EngineAssembled? && exists e :: e in events && e.producer !in accounted
                                                         && forall c :: c in coverage ==> c.producer != e.producer
            then gate == Err(CoverageAssemblyBug)
            else gate == Ok(if SomeUndeclared(coverage, events) then GateOutcome([ProducerMissingFromCoverage], true)
                            else if status == Valid && unwatched then GateOutcome([ReasonCode.CoverageDeficit], true)
                            else GateOutcome([], false))
  {
    hide IsSubprocessTool, StartsAShell, Watches, CoverageEntry.DischargesSubprocessObligation, FirstUndeclared,
      FirstSubprocess;
    FirstUndeclaredMeaning(events, Declared(coverage));
    FirstSubprocessMeaning(events);
    forall e ensures StartsAShell(e) <==> IsSubprocessTool(e) {
      ShellIsSubprocess(e);
    }
    forall c ensures Watches(c) <==> c.DischargesSubprocessObligation() {
      WatchesMeaning(c);
    }
    forall producer ensures producer in Declared(coverage) <==> exists c :: c in coverage && c.producer == producer {
    }
    assert forall i :: 0 <= i < |events| ==> events[i] in events;
  }

  /** The first event of a kind. */
  ghost predicate IsFirst(events: seq<IrEvent>, kind: EventKind, e: IrEvent) {
    exists i :: 0 <= i < |events| && events[i] == e && e.kind == kind
                && forall j :: 0 <= j < i ==> events[j].kind != kind
  }

  lemma {:induction false} FirstOfKindMeaning(events: seq<IrEvent>, kind: EventKind)
    ensures FirstOfKind(events, kind).Some? ==> IsFirst(events, kind, FirstOfKind(events, kind).value)
    ensures FirstOfKind(events, kind).None? ==> forall e :: e in events ==> e.kind != kind
  {
    hide IsFirst;
    if events != [] {
      FirstOfKindMeaning(events[1..], kind);
      assert events == [events[0]] + events[1..];
      FirstInFront(events, kind);
    }
  }

  lemma FirstInFront(events: seq<IrEvent>, kind: EventKind)
    requires events != []
    ensures events[0].kind == kind ==> IsFirst(events, kind, events[0])
    ensures events[0].kind != kind ==> forall e :: IsFirst(events[1..], kind, e) ==> IsFirst(events, kind, e)
  {
    var tail := events[1..];
    forall e | events[0].kind != kind && IsFirst(tail, kind, e) ensures IsFirst(events, kind, e) {
      var i :| 0 <= i < |tail| && tail[i] == e && e.kind == kind && forall j :: 0 <= j < i ==> tail[j].kind != kind;
      assert events[i + 1] == e;
      assert forall j :: 1 <= j < i + 1 ==> events[j] == tail[j - 1];
    }
  }

  /** No adapter of the list is named before this one, by producer and then by version. */
  predicate NamedFirst(coverage: set<CoverageEntry>, c: CoverageEntry) {
    && c in coverage && c.role.Adapter?
    && forall other :: other in coverage && other.role.Adapter? ==>
         && !Smaller(other.producer, c.producer)
         && (other.producer == c.producer ==> !Smaller(other.version, c.version))
  }

  lemma CoveringAdapterMeaning(coverage: set<CoverageEntry>)
    ensures if forall c :: c in coverage ==> !c.role.Adapter?
            then CoveringAdapter(coverage) == "freshdag-engine/0.0.0"
            else exists c :: NamedFirst(coverage, c) && CoveringAdapter(coverage) == c.producer + "/" + c.version
  {
    ProducerKeyLeIsTotal();
    var s := AdapterKeys(coverage);
    var keys := Ascending(s, ProducerKeyLe);
    if c :| c in coverage && c.role.Adapter? {
      assert KeyOfManifest(c) in s;
      assert keys != [];
      assert keys[0] in s;
      var first :| first in coverage && first.role.Adapter? && KeyOfManifest(first) == keys[0];
      forall other | other in coverage && other.role.Adapter?
        ensures !Smaller(other.producer, first.producer)
        ensures other.producer == first.producer ==> !Smaller(other.version, first.version)
      {
        assert KeyOfManifest(other) in s;
        var i :| 0 <= i < |keys| && keys[i] == KeyOfManifest(other);
        FirstKeyIsLeast(keys[0], keys[i]);
      }
      assert NamedFirst(coverage, first);
    } else {
      assert s == {};
    }
  }

  lemma FirstKeyIsLeast(a: ProducerKey, b: ProducerKey)
    ensures ProducerKeyLe(a, b) || a == b ==>
              !Smaller(b.producer, a.producer) && (b.producer == a.producer ==> !Smaller(b.version, a.version))
  {
    StrLeMeaning(a.producer, b.producer);
    StrLeMeaning(b.producer, a.producer);
    StrLeMeaning(a.version, b.version);
    StrLeMeaning(b.version, a.version);
    if StrLe(a.producer, b.producer) && StrLe(b.producer, a.producer) {
      StrLeAntisymmetric(a.producer, b.producer);
    }
    if StrLe(a.version, b.version) && StrLe(b.version, a.version) {
      StrLeAntisymmetric(a.version, b.version);
    }
  }

  /** The provenance record, member by member: what the first start says of recipe, adapter and
      instant, and the instant of the first end; without a start, no recipe, the adapter the
      coverage names first, or the engine, and the earliest event; without an end, the latest. */
  lemma ProvenanceMeaning(comp: string, events: seq<IrEvent>, coverage: set<CoverageEntry>)
    requires events != []
    ensures var p := ProvenanceOf(comp, events, coverage);
            && p.computationId == comp
            && (forall e :: IsFirst(events, ComputationStarted, e) ==>
                  && p.started == e.ts && p.adapter == e.producer + "/" + e.producerVersion
                  && (p.recipe.Some? <==> SaysSomething(e, "recipe_id"))
                  && (p.recipe.Some? ==> Says(e, "recipe_id", p.recipe.value))
                  && (p.recipeHash.Some? <==> exists hash :: Says(e, "recipe_hash", hash) && IsHash(hash))
                  && (p.recipeHash.Some? ==> Says(e, "recipe_hash", p.recipeHash.value)))
            && ((forall e :: e in events ==> !e.kind.ComputationStarted?) ==>
                  && (exists e :: e in events && e.ts == p.started) && (forall e :: e in events ==> p.started <= e.ts)
                  && p.recipe.None? && p.recipeHash.None?
                  && p.adapter == CoveringAdapter(coverage))
            && (forall e :: IsFirst(events, ComputationEnded, e) ==> p.ended == e.ts)
            && ((forall e :: e in events ==> !e.kind.ComputationEnded?) ==>
                  (exists e :: e in events && e.ts == p.ended) && forall e :: e in events ==> e.ts <= p.ended)
  {
    hide CoveringAdapter, RecipeOfEvent, Says, SaysSomething, IsHash, IsFirst, FirstOfKind;
    FirstOfKindMeaning(events, ComputationStarted);
    FirstOfKindMeaning(events, ComputationEnded);
    var start := FirstOfKind(events, ComputationStarted);
    if start.Some? {
      RecipeSaid(start.value);
      RecipeIdSaid(start.value);
    }
    FirstIsOne(events, ComputationStarted);
    FirstIsOne(events, ComputationEnded);
  }

  lemma FirstIsOne(events: seq<IrEvent>, kind: EventKind)
    ensures forall x, y :: IsFirst(events, kind, x) && IsFirst(events, kind, y) ==> x == y
    ensures forall x :: IsFirst(events, kind, x) ==> x in events && x.kind == kind
  {
  }

  lemma RecipeIdSaid(e: IrEvent)
    ensures e.payload.Text("recipe_id").Some? <==> SaysSomething(e, "recipe_id")
    ensures e.payload.Text("recipe_id").Some? ==> Says(e, "recipe_id", e.payload.Text("recipe_id").value)
    ensures RecipeOfEvent(e).Some? ==> Says(e, "recipe_hash", RecipeOfEvent(e).value)
  {
    hide IsHash;
  }

  /** The status, read off log, manifests, probes and ledger. */
  ghost predicate StatusSays(status: Status, log: seq<IrEvent>, manifests: Manifests, ctx: Context, ledger: LedgerState,
                             node: ComputationNode) {
    var usable := EdgesWouldDo(ctx, ledger, node) && BeyondDoubt(log, manifests, ctx.computation);
    && (status == Stale <==> exists i :: 0 <= i < |node.dependencies| && !Contradicted(node, node.dependencies[i])
                                         && Drifts(ctx, ledger, node.dependencies[i]))
    && (status == Valid <==>
          usable && forall d :: d in node.dependencies ==> d.trustClass.Exact? || d.trustClass.Versioned?)
    && (status == LikelyValid <==>
          usable && exists d :: d in node.dependencies && (d.trustClass.Heuristic? || d.trustClass.Volatile?))
  }

  /** Everything a certificate says about a computation. */
  ghost predicate SaysExactly(c: Certificate, log: seq<IrEvent>, manifests: Manifests, ctx: Context,
                              ledger: LedgerState, node: ComputationNode) {
    && c.schema == "freshdag.certificate/v0.1"
    && c.checkedAt == ctx.now
    && c.dependsOn == node.dependencies
    && c.producedBy == ProvenanceOf(ctx.computation, RecordedEvents(log, ctx.computation), c.coverage)
    && (forall entry :: entry in c.coverage <==>
          || Contributes(log, manifests, ctx.computation, entry)
          || entry == CoverageEntry("freshdag-engine", "0.0.0", Probe, ["probe.checked", "diagnostic"], map[]))
    && StatusSays(c.status, log, manifests, ctx, ledger, node)
    && c.reasons == EdgePart(ctx, ledger, node, |node.dependencies|)
                    + ArtifactReasons(ArtifactPart(log, manifests, ctx, ledger, node))
  }

  lemma StatusIsSaid(log: seq<IrEvent>, graph: DerivedGraph, manifests: Manifests, ctx: Context, ledger: LedgerState)
    requires Replayed(log, graph, manifests) && ctx.computation in graph.computations
    requires NodeWellRecorded(graph.computations[ctx.computation])
    ensures StatusSays(TrueStatus(log, graph, ctx, ledger), log, manifests, ctx, ledger,
                       graph.computations[ctx.computation])
  {
    hide IsReplayOf, EvidenceComplete, BeyondDoubt, Drifts, Supported, NodeWellRecorded, GateOpen;
    var node := graph.computations[ctx.computation];
    EvidenceMeaning(log, graph, manifests, ctx.computation);
    ConflictFreeNode(node);
    forall dep ensures Contradicted(node, dep) <==> Conflicted(node.conflicts, dep.key) {
    }
    forall d: Dependency ensures d.trustClass.IsStrong() <==> d.trustClass.Exact? || d.trustClass.Versioned? {
    }
    SupportExcludesDrift(ctx, ledger, node);
  }

  lemma SupportExcludesDrift(ctx: Context, ledger: LedgerState, node: ComputationNode)
    ensures AllSupported(ctx, ledger, node.dependencies) ==> !SomeDrift(ctx, ledger, node)
  {
  }

  lemma SealedHolds(input: SealInput)
    requires Sealed(input).Ok?
    ensures var c := Sealed(input).value;
            && c.schema == "freshdag.certificate/v0.1" && c.checkedAt == input.checkedAt
            && c.coverage == input.coverage && c.artifact == input.artifact && c.producedBy == input.producedBy
  {
    hide RunGate, Aggregated, ScopedReasons, FinalStatus, EdgeReasons, SortByRank, CheckInvariants, AuditPasses,
      ZeroHash;
  }

  lemma CertifiedSaysExactly(log: seq<IrEvent>, graph: DerivedGraph, manifests: Manifests, ctx: Context,
                             ledger: LedgerState, artifact: string)
    requires Replayed(log, graph, manifests) && ctx.computation in graph.computations
    requires artifact in graph.computations[ctx.computation].artifacts
    requires CheckedFor(log, graph, ctx, ledger, artifact).Ok?
    ensures SaysExactly(CheckedFor(log, graph, ctx, ledger, artifact).value.certificate, log, manifests, ctx, ledger,
                        graph.computations[ctx.computation])
    ensures ArtifactFound(log, ctx.computation, artifact)
            == Ok(CheckedFor(log, graph, ctx, ledger, artifact).value.certificate.artifact)
  {
    hide IsReplayOf, CheckedFor, ArtifactFound, Sealed, NodeWellRecorded, StatusSays, TrueStatus, EmittedEvents,
      EngineReasons, CoverageFor, Contributes, EdgePart, ArtifactPart, DueStatus, FinalOutcomes, ProvenanceOf,
      RecordedEvents, EffectDeficitOf, MissingFor;
    CheckedForIsSealed(log, graph, manifests, ctx, ledger, artifact);
    VerdictIsExact(log, graph, manifests, ctx, ledger, artifact);
    StatusIsSaid(log, graph, manifests, ctx, ledger);
    CertificateIsExplained(log, graph, manifests, ctx, ledger, artifact);
    ContributesMeaning(log, graph, manifests, ctx.computation);
    SealedHolds(DueInput(log, graph, ctx, ledger, ArtifactFound(log, ctx.computation, artifact).value));
  }

  /** From the outside: whatever certificate a check issues, it is for the one computation whose
      events produced the artifact, and says exactly what log, manifests, probes and ledger
      bear out: status, reasons in their order, dependencies, coverage and instant. */
  lemma CertificateSaysExactly(log: seq<IrEvent>, graph: DerivedGraph, manifests: Manifests, ledger: LedgerState,
                               ctx: Context, artifact: string)
    requires Replayed(log, graph, manifests)
    requires Checked(log, graph, ctx.regs, ledger, ctx.maxTtl, ctx.now, ctx.world, artifact).0.Ok?
    requires forall comp :: ProducedIn(log, comp, artifact) <==> comp == ctx.computation
    ensures ctx.computation in graph.computations
    ensures SaysExactly(Checked(log, graph, ctx.regs, ledger, ctx.maxTtl, ctx.now, ctx.world, artifact)
                          .0.value.certificate,
                        log, manifests, ctx, ledger, graph.computations[ctx.computation])
  {
    hide IsReplayOf, Checked, Claimants, CheckedFor, SaysExactly, ProducedIn;
    ClaimantsProduced(log, graph, manifests, artifact);
    assert Claimants(graph, artifact) == {ctx.computation};
    CheckedIsFor(log, graph, ctx, ledger, artifact);
    CertifiedSaysExactly(log, graph, manifests, ctx, ledger, artifact);
  }

  // ----------------------------------------------- two consequences

  /** A read the computation depended on but nobody could vouch for: pure, without a hash, of a
      path the computation had not written; or one that cannot be decoded at all. */
  ghost predicate UnvouchedRead(log: seq<IrEvent>, comp: string, n: nat)
    requires n < |Order.Linearize(log)|
  {
    var e := Order.Linearize(log)[n];
    && e.computationId == Some(comp) && e.kind.FsRead?
    && (e.decoded.ReadPayload? ==>
          && !e.decoded.impure && e.decoded.hash.None?
          && !WroteBefore(Order.Linearize(log), comp, n, Paths.Components(e.decoded.path)))
  }

  /** One such read costs every certificate of the computation its use. */
  lemma UnvouchedReadsForbidUse(log: seq<IrEvent>, graph: DerivedGraph, manifests: Manifests, ledger: LedgerState,
                                ctx: Context, artifact: string, n: nat)
    requires Replayed(log, graph, manifests)
    requires Checked(log, graph, ctx.regs, ledger, ctx.maxTtl, ctx.now, ctx.world, artifact).0.Ok?
    requires forall comp :: ProducedIn(log, comp, artifact) <==> comp == ctx.computation
    requires n < |Order.Linearize(log)| && UnvouchedRead(log, ctx.computation, n)
    ensures var c := Checked(log, graph, ctx.regs, ledger, ctx.maxTtl, ctx.now, ctx.world, artifact)
                       .0.value.certificate;
            (c.status == Stale || c.status == Unknown) && Reason("", UnprovenDependency) in c.reasons
  {
    hide IsReplayOf, Checked, ProducedIn, EdgePart, AllKnown, EffectsDeclared, ShellsWatched, RecipeKnown, EdgesWouldDo,
      Contributes, WroteBefore, ArtifactReasons, ArtifactPart;
    CertificateSaysExactly(log, graph, manifests, ledger, ctx, artifact);
    assert LeavesADoubt(Order.Linearize(log), ctx.computation, n);
    var node := graph.computations[ctx.computation];
    DoubtIsPart(log, manifests, ctx, ledger, node);
    LastIsDoubt(ArtifactPart(log, manifests, ctx, ledger, node));
  }

  lemma DoubtIsPart(log: seq<IrEvent>, manifests: Manifests, ctx: Context, ledger: LedgerState, node: ComputationNode)
    ensures !NothingInDoubt(log, ctx.computation) ==>
              UnprovenDependency in ArtifactPart(log, manifests, ctx, ledger, node)
  {
    hide AllKnown, EffectsDeclared, ShellsWatched, RecipeKnown, EdgesWouldDo, NothingInDoubt;
  }

  lemma LastIsDoubt(codes: seq<ReasonCode>)
    ensures UnprovenDependency in codes ==> Reason("", UnprovenDependency) in ArtifactReasons(codes)
  {
    if i :| 0 <= i < |codes| && codes[i] == UnprovenDependency {
      assert ArtifactReasons(codes)[i] == Reason("", UnprovenDependency);
    }
  }

  /** A usable certificate of a computation that started a shell or an agent rests on an observer
      that declares file reads, by name or by family, and admits about them to nothing but
      seeing too much. */
  lemma UsableMeansWatched(log: seq<IrEvent>, graph: DerivedGraph, manifests: Manifests, ledger: LedgerState,
                           ctx: Context, artifact: string, e: IrEvent)
    requires Replayed(log, graph, manifests)
    requires Checked(log, graph, ctx.regs, ledger, ctx.maxTtl, ctx.now, ctx.world, artifact).0.Ok?
    requires forall comp :: ProducedIn(log, comp, artifact) <==> comp == ctx.computation
    requires e in log && e.computationId == Some(ctx.computation) && e.kind.ToolInvoked?
    requires Says(e, "tool_kind", "bash") || Says(e, "tool_kind", "task")
    ensures var c := Checked(log, graph, ctx.regs, ledger, ctx.maxTtl, ctx.now, ctx.world, artifact)
                       .0.value.certificate;
            c.status == Valid || c.status == LikelyValid ==>
              exists entry :: entry in c.coverage && entry.role == Observer
                && ("fs.read" in entry.emits || "fs.*" in entry.emits)
                && forall pattern :: pattern in entry.partials && (pattern == "fs.read" || pattern == "fs.*") ==>
                     entry.partials[pattern].reason == OverApproximates
  {
    hide IsReplayOf, Checked, ProducedIn, EdgePart, AllKnown, EffectsDeclared, NothingInDoubt, RecipeKnown,
      EdgesWouldDo, Contributes, ArtifactPart;
    CertificateSaysExactly(log, graph, manifests, ledger, ctx, artifact);
    assert StartsAShell(e);
  }
}
