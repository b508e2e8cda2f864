/** How far a check depends on the physical order of the log. Replay does not; the recipe
    hash and the artifact's own description are read from the first matching event in log
    order, and this is exactly what that costs. */
module LogOrder {
  import opened Primitives
  import opened Wrappers
  import opened Ir
  import opened Coverage
  import opened Graph
  import opened Replays
  import opened Validity
  import opened Certificates
  import opened Seal
  import opened TrustLedgers
  import opened Edges
  import opened Engine
  import opened Provenance
  import opened CheckedEdges
  import opened EngineTheorems
  import Order

  predicate Starts(e: IrEvent, comp: string) {
    e.kind.ComputationStarted? && e.computationId == Some(comp)
  }

  predicate Ends(e: IrEvent, comp: string) {
    e.kind.ComputationEnded? && e.computationId == Some(comp)
  }

  predicate IsOf(e: IrEvent, kind: EventKind, comp: string) {
    e.kind == kind && e.computationId == Some(comp)
  }

  // --------------------------------------------------- what is read first

  /** The first event of a kind of a computation. */
  function FirstOf(log: seq<IrEvent>, kind: EventKind, comp: string): Option<IrEvent> {
    FirstOfKind(RecordedEvents(log, comp), kind)
  }

  lemma FirstOfStep(log: seq<IrEvent>, kind: EventKind, comp: string)
    requires log != []
    ensures FirstOf(log, kind, comp) == if IsOf(log[0], kind, comp) then Some(log[0]) else FirstOf(log[1..], kind, comp)
  {
    var tail := RecordedEvents(log[1..], comp);
    if log[0].computationId == Some(comp) {
      assert RecordedEvents(log, comp) == [log[0]] + tail && ([log[0]] + tail)[1..] == tail;
    } else {
      assert RecordedEvents(log, comp) == tail;
    }
  }

  predicate HasOne(log: seq<IrEvent>, kind: EventKind, comp: string) {
    exists e :: e in log && IsOf(e, kind, comp)
  }

  /** What is read is some event of that kind of the computation if there is one, the frontmost
      if the log begins with one, and nothing otherwise. */
  lemma {:induction false} FirstOfMeaning(log: seq<IrEvent>, kind: EventKind, comp: string)
    ensures var first := FirstOf(log, kind, comp);
            && (first.Some? <==> HasOne(log, kind, comp))
            && (first.Some? ==> first.value in log && IsOf(first.value, kind, comp))
            && (log != [] && IsOf(log[0], kind, comp) ==> first == Some(log[0]))
  {
    hide FirstOf, IsOf;
    if log == [] {
      NothingFirst(kind, comp);
    } else {
      FirstOfMeaning(log[1..], kind, comp);
      FirstOfStep(log, kind, comp);
      assert log == [log[0]] + log[1..];
    }
  }

  lemma NothingFirst(kind: EventKind, comp: string)
    ensures FirstOf([], kind, comp).None?
  {
  }

  lemma {:induction false} ArtifactEventSkips(log: seq<IrEvent>, comp: string, artifact: string, i: nat)
    requires i < |log| && !ProducesArtifact(log[i], comp, artifact)
    ensures ArtifactEvent([log[i]] + Order.Without(log, i), comp, artifact) == ArtifactEvent(log, comp, artifact)
  {
    hide ProducesArtifact;
    var rest := Order.Without(log, i);
    assert ([log[i]] + rest)[1..] == rest;
    if i == 0 {
      assert rest == log[1..];
    } else {
      ArtifactEventSkips(log[1..], comp, artifact, i - 1);
      var inner := Order.Without(log[1..], i - 1);
      assert rest[0] == log[0] && rest[1..] == inner;
      assert ([log[i]] + inner)[1..] == inner;
    }
  }

  /** The log with one of its events moved to the front. */
  function Fronted(log: seq<IrEvent>, i: nat): (r: seq<IrEvent>)
    requires i < |log|
    ensures Order.Permutation(log, r)
    ensures r != [] && r[0] == log[i]
  {
    [log[i]] + Order.Without(log, i)
  }

  /** A deterministic log has the same replay in every physical order. */
  lemma ReplayedAnyOrder(log: seq<IrEvent>, graph: DerivedGraph, manifests: Manifests, b: seq<IrEvent>)
    requires Replayed(log, graph, manifests) && graph.IsDeterministic() && Order.Permutation(log, b)
    ensures Replayed(b, graph, manifests)
    ensures forall e :: e in log <==> e in b
  {
    hide NodeOf, CoverageOf;
    Order.DeterministicKeysSeparate(log, graph.duplicates);
    Order.LinearizePermutation(log, b);
    Order.PermutationMembers(log, b);
  }

  // --------------------------------------- sealing reads events as a set

  /** The coverage gate depends on which events there are, not on their order: another order
      may name another missing producer first, but finds the same outcome. */
  lemma GateReadsMembers(status: Status, coverage: set<CoverageEntry>, a: seq<IrEvent>, b: seq<IrEvent>,
                         authority: CoverageAuthority, accounted: set<string>)
    requires forall e :: e in a <==> e in b
    ensures RunGate(status, coverage, a, authority, accounted) == RunGate(status, coverage, b, authority, accounted)
  {
    hide IsSubprocessTool, HasFsCoveredObserver, FirstUndeclared, FirstSubprocess;
    var declared := Declared(coverage);
    FirstUndeclaredMeaning(a, declared);
    FirstUndeclaredMeaning(b, declared);
    FirstSubprocessMeaning(a);
    FirstSubprocessMeaning(b);
    UnaccountedMeaning(coverage, a, accounted);
    UnaccountedMeaning(coverage, b, accounted);
  }

  lemma UnaccountedMeaning(coverage: set<CoverageEntry>, events: seq<IrEvent>, accounted: set<string>)
    ensures HasUnaccountedProducer(coverage, events, accounted) <==>
            exists e :: e in events && e.producer !in Declared(coverage) && e.producer !in accounted
  {
  }

  lemma SealedReadsMembers(a: SealInput, b: SealInput)
    requires b == a.(events := b.events) && forall e :: e in a.events <==> e in b.events
    ensures Sealed(a) == Sealed(b)
  {
    hide RunGate, Aggregated, Adopt, FinalStatus, EdgeReasons, SortByRank, CheckInvariants, AuditPasses;
    GateReadsMembers(Aggregated(Verdicts(a.edges), Keys(a.edges)).value, a.coverage, a.events, b.events, a.authority,
                     a.accountedMissing);
  }

  lemma SealedKeeps(input: SealInput)
    requires Sealed(input).Ok?
    ensures Sealed(input).value.artifact == input.artifact && Sealed(input).value.producedBy == input.producedBy
  {
    hide RunGate, Aggregated, ScopedReasons, FinalStatus, EdgeReasons, SortByRank, CheckInvariants, AuditPasses;
  }

  lemma DeficitReadsMembers(a: seq<IrEvent>, b: seq<IrEvent>, coverage: set<CoverageEntry>)
    requires forall e :: e in a <==> e in b
    ensures EffectDeficitOf(a, coverage) == EffectDeficitOf(b, coverage)
  {
    hide CoveredBySome, IsEffectKind;
  }

  // ------------------------------------------------------- sufficiency

  /** The provenance record a check certifies. */
  ghost function ProvenanceIn(log: seq<IrEvent>, graph: DerivedGraph, comp: string): ProducedBy {
    ProvenanceOf(comp, RecordedEvents(log, comp), CoverageFor(graph, comp))
  }

  lemma SameReadingSameCheck(a: seq<IrEvent>, b: seq<IrEvent>, graph: DerivedGraph, ctx: Context, ledger: LedgerState,
                             artifact: string)
    requires ctx.computation in graph.computations
    requires forall e :: e in a <==> e in b
    requires ArtifactFound(a, ctx.computation, artifact) == ArtifactFound(b, ctx.computation, artifact)
    requires ArtifactFound(a, ctx.computation, artifact).Ok? ==>
               ProvenanceIn(a, graph, ctx.computation) == ProvenanceIn(b, graph, ctx.computation)
    ensures CheckedFor(a, graph, ctx, ledger, artifact) == CheckedFor(b, graph, ctx, ledger, artifact)
  {
    hide EdgesEvaluated, ConflictsApplied, ConflictEvents, Sealed, ArtifactFound, ProvenanceOf, EngineReasons,
      EffectDeficitOf,
         CoverageFor, MissingFor;
    var node := graph.computations[ctx.computation];
    var run := EdgesEvaluated(ctx, node.dependencies, ledger, |node.dependencies|);
    var applied := ConflictsApplied(run.edges, node.conflicts);
    if applied.Some? && ArtifactFound(a, ctx.computation, artifact).Ok? {
      var emitted := run.events + ConflictEvents(ctx, node.conflicts, run.sequence);
      var record := ArtifactFound(a, ctx.computation, artifact).value;
      DeficitReadsMembers(RecordedEvents(a, ctx.computation), RecordedEvents(b, ctx.computation),
                          CoverageFor(graph, ctx.computation));
      SealedReadsMembers(SealInputFor(a, graph, ctx, record, applied.value, emitted),
                         SealInputFor(b, graph, ctx, record, applied.value, emitted));
    }
  }

  // --------------------------------------------------------- necessity

  lemma CheckShowsWhatItRead(log: seq<IrEvent>, graph: DerivedGraph, manifests: Manifests, ctx: Context,
                             ledger: LedgerState,
                             artifact: string)
    requires Replayed(log, graph, manifests) && ctx.computation in graph.computations
    requires artifact in graph.computations[ctx.computation].artifacts
    ensures match CheckedFor(log, graph, ctx, ledger, artifact)
            case Err(e) => ArtifactFound(log, ctx.computation, artifact) == Err(e)
            case Ok(outcome) =>
              && ArtifactFound(log, ctx.computation, artifact) == Ok(outcome.certificate.artifact)
              && ProvenanceIn(log, graph, ctx.computation) == outcome.certificate.producedBy
  {
    hide CheckedFor, Sealed, IsReplayOf, NodeWellRecorded, ArtifactFound, EmittedEvents, FinalOutcomes, ProvenanceOf,
         RecordedEvents, EngineReasons, DueStatus;
    CheckedForIsSealed(log, graph, manifests, ctx, ledger, artifact);
    if ArtifactFound(log, ctx.computation, artifact).Ok? {
      SealedKeeps(DueInput(log, graph, ctx, ledger, ArtifactFound(log, ctx.computation, artifact).value));
    }
  }

  /** Do all productions of the artifact describe it alike? */
  ghost predicate ProductionsAgree(log: seq<IrEvent>, comp: string, artifact: string) {
    forall x, y :: x in log && y in log && ProducesArtifact(x, comp, artifact) && ProducesArtifact(y, comp, artifact)
                   ==> RecordOf(x, artifact) == RecordOf(y, artifact)
  }

  /** Do all starts of the computation say the same: instant, adapter, recipe, recipe hash? */
  ghost predicate StartsAgree(log: seq<IrEvent>, comp: string) {
    forall x, y :: x in log && y in log && Starts(x, comp) && Starts(y, comp) ==> StartSays(x) == StartSays(y)
  }

  /** Do all its ends lie at one instant? */
  ghost predicate EndsAgree(log: seq<IrEvent>, comp: string) {
    forall x, y :: x in log && y in log && Ends(x, comp) && Ends(y, comp) ==> x.ts == y.ts
  }

  lemma AgreementFixesArtifact(log: seq<IrEvent>, b: seq<IrEvent>, comp: string, artifact: string)
    requires (forall e :: e in log <==> e in b) && ProductionsAgree(log, comp, artifact)
    ensures ArtifactFound(log, comp, artifact) == ArtifactFound(b, comp, artifact)
  {
    hide RecordOf, ProducesArtifact;
    ArtifactEventMeaning(log, comp, artifact);
    ArtifactEventMeaning(b, comp, artifact);
  }

  lemma AgreementFixesStart(log: seq<IrEvent>, b: seq<IrEvent>, comp: string)
    requires (forall e :: e in log <==> e in b) && StartsAgree(log, comp)
    ensures var x, y := FirstOf(log, ComputationStarted, comp), FirstOf(b, ComputationStarted, comp);
            (x.Some? <==> y.Some?) && (x.Some? ==> StartSays(x.value) == StartSays(y.value))
  {
    hide StartSays, FirstOf;
    FirstOfMeaning(log, ComputationStarted, comp);
    FirstOfMeaning(b, ComputationStarted, comp);
  }

  lemma AgreementFixesEnd(log: seq<IrEvent>, b: seq<IrEvent>, comp: string)
    requires (forall e :: e in log <==> e in b) && EndsAgree(log, comp)
    ensures var x, y := FirstOf(log, ComputationEnded, comp), FirstOf(b, ComputationEnded, comp);
            (x.Some? <==> y.Some?) && (x.Some? ==> x.value.ts == y.value.ts)
  {
    hide FirstOf;
    FirstOfMeaning(log, ComputationEnded, comp);
    FirstOfMeaning(b, ComputationEnded, comp);
  }

  lemma SpanOfRecorded(log: seq<IrEvent>, b: seq<IrEvent>, comp: string)
    requires forall e :: e in log <==> e in b
    ensures var x, y := RecordedEvents(log, comp), RecordedEvents(b, comp);
            (x == [] <==> y == []) && (x != [] && y != [] ==> Earliest(x) == Earliest(y) && Latest(x) == Latest(y))
  {
    var x, y := RecordedEvents(log, comp), RecordedEvents(b, comp);
    if x != [] {
      SpanReadsMembers(x, y);
    } else if y != [] {
      SpanReadsMembers(y, x);
    }
  }

  lemma AgreementFixesProvenance(log: seq<IrEvent>, b: seq<IrEvent>, graph: DerivedGraph, comp: string)
    requires (forall e :: e in log <==> e in b) && StartsAgree(log, comp) && EndsAgree(log, comp)
    ensures ProvenanceIn(log, graph, comp) == ProvenanceIn(b, graph, comp)
  {
    hide RecipeOfEvent, KeyOfEvent, AdapterName, CoverageFor, CoveringAdapter, RecordedEvents, FirstOfKind, StartsAgree,
      EndsAgree;
    AgreementFixesStart(log, b, comp);
    AgreementFixesEnd(log, b, comp);
    SpanOfRecorded(log, b, comp);
  }

  ghost predicate SameInEveryOrder(log: seq<IrEvent>, graph: DerivedGraph, ctx: Context, ledger: LedgerState,
                                   artifact: string)
    requires ctx.computation in graph.computations
  {
    forall b :: Order.Permutation(log, b) ==>
                  CheckedFor(b, graph, ctx, ledger, artifact) == CheckedFor(log, graph, ctx, ledger, artifact)
  }

  /** The documentation promises that the order of the log does not matter. It does not,
      exactly when every production of the artifact by the computation describes it alike and,
      unless that description is already refused, every start of the computation says the
      same and its ends lie at one instant. Otherwise two orders of one and the same
      deterministic log give different results. */
  lemma OrderIsIrrelevantExactlyWhen(log: seq<IrEvent>, graph: DerivedGraph, manifests: Manifests, ctx: Context,
                                     ledger: LedgerState, artifact: string)
    requires Replayed(log, graph, manifests) && graph.IsDeterministic() && ctx.computation in graph.computations
    requires artifact in graph.computations[ctx.computation].artifacts
    ensures SameInEveryOrder(log, graph, ctx, ledger, artifact) <==>
            && ProductionsAgree(log, ctx.computation, artifact)
            && (ArtifactFound(log, ctx.computation, artifact).Ok? ==>
                  StartsAgree(log, ctx.computation) && EndsAgree(log, ctx.computation))
  {
    hide CheckedFor, ArtifactFound, RecordedEvents, IsReplayOf, ProductionsAgree, StartsAgree, EndsAgree, ProvenanceIn;
    var comp := ctx.computation;
    CheckShowsWhatItRead(log, graph, manifests, ctx, ledger, artifact);
    if ProductionsAgree(log, comp, artifact)
       && (ArtifactFound(log, comp, artifact).Ok? ==> StartsAgree(log, comp) && EndsAgree(log, comp)) {
      forall b | Order.Permutation(log, b)
        ensures CheckedFor(b, graph, ctx, ledger, artifact) == CheckedFor(log, graph, ctx, ledger, artifact)
      {
        Order.PermutationMembers(log, b);
        AgreementFixesArtifact(log, b, comp, artifact);
        if ArtifactFound(log, comp, artifact).Ok? {
          AgreementFixesProvenance(log, b, graph, comp);
        }
        SameReadingSameCheck(b, log, graph, ctx, ledger, artifact);
      }
    }
    if SameInEveryOrder(log, graph, ctx, ledger, artifact) {
      SameMeansProductionsAgree(log, graph, manifests, ctx, ledger, artifact);
      if ArtifactFound(log, comp, artifact).Ok? {
        SameMeansSpansAgree(log, graph, manifests, ctx, ledger, artifact);
      }
    }
  }

  lemma SameMeansProductionsAgree(log: seq<IrEvent>, graph: DerivedGraph, manifests: Manifests, ctx: Context,
                                  ledger: LedgerState,
                                  artifact: string)
    requires Replayed(log, graph, manifests) && graph.IsDeterministic() && ctx.computation in graph.computations
    requires artifact in graph.computations[ctx.computation].artifacts
    requires SameInEveryOrder(log, graph, ctx, ledger, artifact)
    ensures ProductionsAgree(log, ctx.computation, artifact)
  {
    hide CheckedFor, RecordOf, ProvenanceIn, RecordedEvents, IsReplayOf, ProducesArtifact;
    CheckShowsWhatItRead(log, graph, manifests, ctx, ledger, artifact);
    forall x | x in log && ProducesArtifact(x, ctx.computation, artifact)
      ensures RecordOf(x, artifact) == ArtifactFound(log, ctx.computation, artifact)
    {
      var i :| 0 <= i < |log| && log[i] == x;
      var b := Fronted(log, i);
      ReplayedAnyOrder(log, graph, manifests, b);
      CheckShowsWhatItRead(b, graph, manifests, ctx, ledger, artifact);
      assert ArtifactFound(b, ctx.computation, artifact) == RecordOf(x, artifact);
    }
  }

  /** With an event of the computation in front, its provenance is what that event says. */
  lemma FrontedProvenance(log: seq<IrEvent>, i: nat, graph: DerivedGraph, comp: string)
    requires i < |log|
    ensures Starts(log[i], comp) ==>
              var p := ProvenanceIn(Fronted(log, i), graph, comp);
              StartRecord(p.started, p.adapter, p.recipe, p.recipeHash) == StartSays(log[i])
    ensures Ends(log[i], comp) ==> ProvenanceIn(Fronted(log, i), graph, comp).ended == log[i].ts
  {
    hide RecipeOfEvent, KeyOfEvent, AdapterName, CoverageFor, CoveringAdapter, RecordedEvents;
    FirstOfMeaning(Fronted(log, i), ComputationStarted, comp);
    FirstOfMeaning(Fronted(log, i), ComputationEnded, comp);
  }

  lemma SameMeansSpansAgree(log: seq<IrEvent>, graph: DerivedGraph, manifests: Manifests, ctx: Context,
                            ledger: LedgerState,
                            artifact: string)
    requires Replayed(log, graph, manifests) && graph.IsDeterministic() && ctx.computation in graph.computations
    requires artifact in graph.computations[ctx.computation].artifacts
    requires SameInEveryOrder(log, graph, ctx, ledger, artifact) && ArtifactFound(log, ctx.computation, artifact).Ok?
    ensures StartsAgree(log, ctx.computation) && EndsAgree(log, ctx.computation)
  {
    hide CheckedFor, ArtifactFound, RecordedEvents, IsReplayOf, StartSays, Starts, Ends, ProvenanceIn;
    var comp := ctx.computation;
    CheckShowsWhatItRead(log, graph, manifests, ctx, ledger, artifact);
    var p := ProvenanceIn(log, graph, comp);
    forall x | x in log && (Starts(x, comp) || Ends(x, comp))
      ensures Starts(x, comp) ==> StartSays(x) == StartRecord(p.started, p.adapter, p.recipe, p.recipeHash)
      ensures Ends(x, comp) ==> x.ts == p.ended
    {
      var i :| 0 <= i < |log| && log[i] == x;
      var b := Fronted(log, i);
      ReplayedAnyOrder(log, graph, manifests, b);
      CheckShowsWhatItRead(b, graph, manifests, ctx, ledger, artifact);
      FrontedProvenance(log, i, graph, comp);
    }
  }

  /** What that does to a verdict: a usable status survives every reordering of the log
      exactly when every start of the computation carries a usable recipe hash. Otherwise
      moving one start to the front turns the same evidence into `unknown`. */
  lemma UsableInEveryOrder(log: seq<IrEvent>, graph: DerivedGraph, manifests: Manifests, ctx: Context,
                           ledger: LedgerState,
                           artifact: string)
    requires Replayed(log, graph, manifests) && graph.IsDeterministic() && ctx.computation in graph.computations
    requires artifact in graph.computations[ctx.computation].artifacts
    requires CheckedFor(log, graph, ctx, ledger, artifact).Ok?
    requires CheckedFor(log, graph, ctx, ledger, artifact).value.certificate.status.IsUsable()
    ensures (forall b :: Order.Permutation(log, b) && CheckedFor(b, graph, ctx, ledger, artifact).Ok? ==>
               CheckedFor(b, graph, ctx, ledger, artifact).value.certificate.status
               == CheckedFor(log, graph, ctx, ledger, artifact).value.certificate.status)
            <==> forall e :: e in log && Starts(e, ctx.computation) ==> RecipeOfEvent(e).Some?
  {
    hide CheckedFor, ArtifactFound, RecipeOf, RecordedEvents, IsReplayOf, RecipeOfEvent, Starts, TrueStatus,
      ProvenanceIn;
    var comp := ctx.computation;
    VerdictIsExact(log, graph, manifests, ctx, ledger, artifact);
    if forall e :: e in log && Starts(e, comp) ==> RecipeOfEvent(e).Some? {
      forall b | Order.Permutation(log, b) && CheckedFor(b, graph, ctx, ledger, artifact).Ok?
        ensures CheckedFor(b, graph, ctx, ledger, artifact).value.certificate.status
                == TrueStatus(log, graph, ctx, ledger)
      {
        ReplayedAnyOrder(log, graph, manifests, b);
        VerdictIsExact(b, graph, manifests, ctx, ledger, artifact);
        RecipeMeaning(log, comp);
        RecipeMeaning(b, comp);
        UsableMeansRecipe(log, graph, ctx, ledger);
        StatusReadsRecipe(log, b, graph, ctx, ledger);
      }
    } else {
      var e :| e in log && Starts(e, comp) && RecipeOfEvent(e).None?;
      var i :| 0 <= i < |log| && log[i] == e;
      var b := Fronted(log, i);
      StartsProduceNothing(e, comp, artifact);
      ArtifactEventSkips(log, comp, artifact, i);
      ReplayedAnyOrder(log, graph, manifests, b);
      CheckShowsWhatItRead(log, graph, manifests, ctx, ledger, artifact);
      CheckShowsWhatItRead(b, graph, manifests, ctx, ledger, artifact);
      SameArtifactFound(log, b, comp, artifact);
      VerdictIsExact(b, graph, manifests, ctx, ledger, artifact);
      RecipeMeaning(b, comp);
      if TrueStatus(b, graph, ctx, ledger).IsUsable() {
        UsableMeansRecipe(b, graph, ctx, ledger);
      }
    }
  }

  /** The certified recipe is the one some start names, the frontmost if the log begins with a
      start, and absent without one. */
  lemma RecipeMeaning(log: seq<IrEvent>, comp: string)
    ensures var recipe := RecipeOf(RecordedEvents(log, comp));
            && (recipe.Some? ==> exists e :: e in log && Starts(e, comp) && RecipeOfEvent(e) == recipe)
            && ((exists e :: e in log && Starts(e, comp)) ==>
                  exists e :: e in log && Starts(e, comp) && RecipeOfEvent(e) == recipe)
            && (log != [] && Starts(log[0], comp) ==> recipe == RecipeOfEvent(log[0]))
  {
    hide RecipeOfEvent, RecordedEvents;
    FirstOfMeaning(log, ComputationStarted, comp);
    var first := FirstOf(log, ComputationStarted, comp);
    if e :| e in log && Starts(e, comp) {
      assert IsOf(e, ComputationStarted, comp);
    }
    if first.Some? {
      assert Starts(first.value, comp);
    }
  }

  lemma SameArtifactFound(log: seq<IrEvent>, b: seq<IrEvent>, comp: string, artifact: string)
    requires ArtifactEvent(log, comp, artifact) == ArtifactEvent(b, comp, artifact)
    ensures ArtifactFound(log, comp, artifact) == ArtifactFound(b, comp, artifact)
  {
  }

  lemma StartsProduceNothing(e: IrEvent, comp: string, artifact: string)
    requires Starts(e, comp)
    ensures !ProducesArtifact(e, comp, artifact)
  {
  }

  lemma UsableMeansRecipe(log: seq<IrEvent>, graph: DerivedGraph, ctx: Context, ledger: LedgerState)
    requires ctx.computation in graph.computations && TrueStatus(log, graph, ctx, ledger).IsUsable()
    ensures RecipeOf(RecordedEvents(log, ctx.computation)).Some?
  {
    hide SomeDrift, AllSupported, AllStrong, RecipeOf, CoveredBySome, IsSubprocessTool, HasFsCoveredObserver;
  }

  lemma StatusReadsRecipe(a: seq<IrEvent>, b: seq<IrEvent>, graph: DerivedGraph, ctx: Context, ledger: LedgerState)
    requires ctx.computation in graph.computations && forall e :: e in a <==> e in b
    requires RecipeOf(RecordedEvents(a, ctx.computation)).Some? && RecipeOf(RecordedEvents(b, ctx.computation)).Some?
    ensures TrueStatus(a, graph, ctx, ledger) == TrueStatus(b, graph, ctx, ledger)
  {
    hide SomeDrift, AllSupported, AllStrong, RecipeOf, CoveredBySome, IsSubprocessTool, HasFsCoveredObserver,
      IsEffectKind;
    assert forall e :: e in RecordedEvents(a, ctx.computation) <==> e in RecordedEvents(b, ctx.computation);
  }

  // ------------------------------------------------------- an example

  function HashOfDigits(digit: char): (h: Hash)
    requires '0' <= digit <= '9'
    ensures h[8] == digit
  {
    var h := "blake3:" + seq(64, _ => digit);
    assert h[..7] == "blake3:";
    h
  }

  function ExampleEvent(id: Uuid, at: Instant, kind: EventKind, fields: map<string, Field>): IrEvent {
    IrEvent(id, "adapter", "1", "session", Some("build"), None, None, at, kind, Object(fields), NotDecoded)
  }

  /** A start of the computation, by one of two recipes. */
  function ExampleStart(id: Uuid, recipe: char): IrEvent
    requires '0' <= recipe <= '9'
  {
    ExampleEvent(id, 0, ComputationStarted, map["recipe_hash" := TextField(HashOfDigits(recipe))])
  }

  function ExampleProduction(): IrEvent {
    ExampleEvent(3, 1, ArtifactProduced, map["artifact_id" := TextField("report"), "kind" := TextField("text"),
                                             "content_hash" := TextField(HashOfDigits('9'))])
  }

  /** Two starts that name different recipes, and one production. */
  function ExampleLog(): seq<IrEvent> {
    [ExampleStart(1, '1'), ExampleStart(2, '2'), ExampleProduction()]
  }

  /** The same events with the starts exchanged. */
  function ExampleReordered(): seq<IrEvent> {
    [ExampleStart(2, '2'), ExampleStart(1, '1'), ExampleProduction()]
  }

  lemma StartFacts(id: Uuid, recipe: char)
    requires '0' <= recipe <= '9'
    ensures var e := ExampleStart(id, recipe);
            && e.eventId == id && Starts(e, "build")
            && RecipeOfEvent(e) == Some(HashOfDigits(recipe))
  {
    hide HashOfDigits, IsHash;
    var fields := map["recipe_hash" := TextField(HashOfDigits(recipe))];
    assert "recipe_hash" in fields;
  }

  lemma ProductionFacts()
    ensures var e := ExampleProduction();
            && e.eventId == 3 && ProducesArtifact(e, "build", "report") && RecordOf(e, "report").Ok?
  {
    hide HashOfDigits, IsHash;
    var e := ExampleProduction();
    assert "artifact_id" != "kind" && "artifact_id" != "content_hash" && "kind" != "content_hash" by {
      assert |"kind"| == 4 && |"artifact_id"| == 11 && |"content_hash"| == 12;
    }
    assert e.payload.Text("artifact_id") == Some("report");
    assert e.payload.Text("kind") == Some("text");
    assert e.payload.Text("content_hash") == Some(HashOfDigits('9'));
  }

  lemma ExampleFinds(x: IrEvent, y: IrEvent)
    requires Starts(x, "build") && Starts(y, "build")
    ensures ArtifactEvent([x, y, ExampleProduction()], "build", "report") == Some(ExampleProduction())
    ensures ArtifactFound([x, y, ExampleProduction()], "build", "report").Ok?
  {
    hide ExampleProduction, RecordOf;
    var c := ExampleProduction();
    ProductionFacts();
    StartsProduceNothing(x, "build", "report");
    StartsProduceNothing(y, "build", "report");
    FoundThird(x, y, c);
  }

  lemma FoundThird(x: IrEvent, y: IrEvent, c: IrEvent)
    requires !ProducesArtifact(x, "build", "report") && !ProducesArtifact(y, "build", "report")
    requires ProducesArtifact(c, "build", "report")
    ensures ArtifactEvent([x, y, c], "build", "report") == Some(c)
  {
    hide ProducesArtifact;
    assert [x, y, c][1..] == [y, c] && [y, c][1..] == [c];
    assert ArtifactEvent([c], "build", "report") == Some(c);
    assert ArtifactEvent([y, c], "build", "report") == Some(c);
  }

  lemma ExampleReads()
    ensures var log, other := ExampleLog(), ExampleReordered();
            && Order.Permutation(log, other)
            && (forall x, y :: x in log && y in log && x.eventId == y.eventId ==> x == y)
            && Starts(log[0], "build") && Starts(other[0], "build")
            && ArtifactEvent(log, "build", "report").Some?
            && ArtifactFound(log, "build", "report").Ok? && ArtifactFound(other, "build", "report").Ok?
            && RecipeOfEvent(log[0]) != RecipeOfEvent(other[0])
  {
    hide HashOfDigits, ExampleStart, ExampleProduction, ArtifactFound, ArtifactEvent, RecipeOfEvent;
    var a, b, c := ExampleStart(1, '1'), ExampleStart(2, '2'), ExampleProduction();
    Exchanged(a, b, c);
    StartFacts(1, '1');
    StartFacts(2, '2');
    ProductionFacts();
    assert HashOfDigits('1')[8] != HashOfDigits('2')[8];
    ExampleFinds(a, b);
    ExampleFinds(b, a);
  }

  lemma Exchanged(a: IrEvent, b: IrEvent, c: IrEvent)
    ensures Order.Permutation([a, b, c], [b, a, c])
  {
    assert [a, b, c] == [a] + [b] + [c] && [b, a, c] == [b] + [a] + [c];
  }

  /** Two orders of one deterministic log with different certificates: the example's replay is
      deterministic, both orders replay to it, both checks succeed, and they certify different
      recipes. */
  lemma OrderMatters(ctx: Context, ledger: LedgerState)
    requires ctx.computation == "build"
    ensures var graph := ReplayOf(ExampleLog(), map[]);
            && graph.IsDeterministic() && ctx.computation in graph.computations
            && Replayed(ExampleLog(), graph, map[]) && Replayed(ExampleReordered(), graph, map[])
            && Order.Permutation(ExampleLog(), ExampleReordered())
            && var a := CheckedFor(ExampleLog(), graph, ctx, ledger, "report");
               var b := CheckedFor(ExampleReordered(), graph, ctx, ledger, "report");
               a.Ok? && b.Ok? && a.value.certificate.producedBy.recipeHash != b.value.certificate.producedBy.recipeHash
  {
    hide CheckedFor, ArtifactFound, RecipeOfEvent, RecordedEvents, ProvenanceOf, NodeOf, ExampleStart,
      ExampleProduction,
         CoverageOf;
    var log, other, comp := ExampleLog(), ExampleReordered(), "build";
    var graph := ReplayOf(log, map[]);
    ExampleReads();
    Determinism(log, graph, map[]);
    Order.LinearizeSorts(log);
    Order.PermutationMembers(log, Order.Linearize(log));
    assert log[0] in Order.Linearize(log);
    ReplayedAnyOrder(log, graph, map[], other);
    ClaimedIsProduced(log, graph, map[], comp, "report");
    ExampleChecks(log, graph, ctx, ledger);
    ExampleChecks(other, graph, ctx, ledger);
  }

  lemma ExampleChecks(log: seq<IrEvent>, graph: DerivedGraph, ctx: Context, ledger: LedgerState)
    requires log == ExampleLog() || log == ExampleReordered()
    requires Replayed(log, graph, map[]) && ctx.computation == "build" && "build" in graph.computations
    requires "report" in graph.computations["build"].artifacts
    ensures CheckedFor(log, graph, ctx, ledger, "report").Ok?
    ensures CheckedFor(log, graph, ctx, ledger, "report").value.certificate.producedBy.recipeHash
            == RecipeOfEvent(log[0])
  {
    hide CheckedFor, ArtifactFound, RecipeOfEvent, RecordedEvents, IsReplayOf, RecipeOf;
    ExampleReads();
    CheckShowsWhatItRead(log, graph, map[], ctx, ledger, "report");
    assert Starts(log[0], "build");
    RecipeMeaning(log, "build");
  }
}
