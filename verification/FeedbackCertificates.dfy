/** What feeding checks back does to a certificate beyond its status: the provenance record and
    the coverage list read the engine's own events. */
module FeedbackCertificates {
  import opened Wrappers
  import opened Dependencies
  import opened Ir
  import opened Coverage
  import opened Graph
  import opened Replays
  import opened Certificates
  import opened Seal
  import opened TrustLedgers
  import opened Edges
  import opened Engine
  import opened Provenance
  import opened CheckedEdges
  import opened EngineTheorems
  import opened Feedback
  import opened FeedbackVerdicts
  import opened LogOrder
  import Order

  /** None of these checks of the computation emitted anything. */
  ghost predicate Silent(log: seq<IrEvent>, rounds: seq<Round>, comp: string) {
    forall k :: 0 <= k < |rounds| && rounds[k].ctx.computation == comp ==> OutputOf(log, rounds, k) == []
  }

  /** The engine's registered manifest is one the list already holds. */
  predicate EngineListed(manifests: Manifests, coverage: set<CoverageEntry>) {
    EngineKey() in manifests && manifests[EngineKey()] in coverage
  }

  // ------------------------------------------------- what is appended

  /** Everything appended for one computation is one of its checks' output. */
  ghost predicate AppendedFor(e: IrEvent, rounds: seq<Round>, comp: string) {
    exists k :: 0 <= k < |rounds| && rounds[k].ctx.computation == comp && FromTheEngine(e, rounds[k].ctx)
  }

  lemma {:induction false} RecordedAfter(log: seq<IrEvent>, rounds: seq<Round>, comp: string)
    returns (more: seq<IrEvent>)
    ensures RecordedEvents(LogAfter(log, rounds), comp) == RecordedEvents(log, comp) + more
    ensures forall e :: e in more ==> AppendedFor(e, rounds, comp)
    ensures more == [] <==> Silent(log, rounds, comp)
  {
    hide Emitted, RecordedEvents, FromTheEngine, OutputOf;
    if rounds == [] {
      more := [];
    } else {
      var n := |rounds| - 1;
      var before, output := LogAfter(log, rounds[..n]), OutputOf(log, rounds, n);
      var earlier := RecordedAfter(log, rounds[..n], comp);
      LastOutput(log, rounds);
      RecordedConcat(before, output, comp);
      more := earlier + RecordedEvents(output, comp);
      OutputOfIsEngine(log, rounds, n);
      SilentStep(log, rounds, comp);
      forall e | e in more ensures AppendedFor(e, rounds, comp) {
        AppendedStep(e, rounds, comp);
        if e !in earlier {
          EngineRecords(output, rounds[n].ctx, comp);
        }
      }
      EngineRecords(output, rounds[n].ctx, comp);
    }
  }

  lemma AppendedStep(e: IrEvent, rounds: seq<Round>, comp: string)
    requires rounds != []
    ensures var n := |rounds| - 1;
            AppendedFor(e, rounds, comp) <==>
            AppendedFor(e, rounds[..n], comp) || (rounds[n].ctx.computation == comp && FromTheEngine(e, rounds[n].ctx))
  {
    hide FromTheEngine;
    var n := |rounds| - 1;
    if k :| 0 <= k < n && rounds[..n][k].ctx.computation == comp && FromTheEngine(e, rounds[..n][k].ctx) {
      assert rounds[k] == rounds[..n][k];
    }
    if k :| 0 <= k < |rounds| && rounds[k].ctx.computation == comp && FromTheEngine(e, rounds[k].ctx) {
      assert k < n ==> rounds[..n][k] == rounds[k];
    }
  }

  lemma SilentStep(log: seq<IrEvent>, rounds: seq<Round>, comp: string)
    requires rounds != []
    ensures var n := |rounds| - 1;
            Silent(log, rounds, comp) <==>
            Silent(log, rounds[..n], comp) && (rounds[n].ctx.computation == comp ==> OutputOf(log, rounds, n) == [])
  {
    hide OutputOf;
    var n := |rounds| - 1;
    forall k | 0 <= k < n
      ensures OutputOf(log, rounds[..n], k) == OutputOf(log, rounds, k) && rounds[..n][k] == rounds[k] {
      OutputOfPrefix(log, rounds, n, k);
    }
  }

  /** A check's events are all recorded for its own computation, and none for another. */
  lemma EngineRecords(output: seq<IrEvent>, ctx: Context, comp: string)
    requires forall e :: e in output ==> FromTheEngine(e, ctx)
    ensures forall e :: e in RecordedEvents(output, comp) ==> ctx.computation == comp && e in output
    ensures RecordedEvents(output, comp) == [] <==> ctx.computation != comp || output == []
  {
    if output != [] && ctx.computation == comp {
      assert output[0] in output;
      assert output[0] in RecordedEvents(output, comp);
    }
    if RecordedEvents(output, comp) != [] {
      assert RecordedEvents(output, comp)[0] in RecordedEvents(output, comp);
    }
  }

  // ---------------------------------------------------- the provenance

  lemma {:induction false} FirstConcat(a: seq<IrEvent>, b: seq<IrEvent>, kind: EventKind)
    requires forall e :: e in b ==> e.kind != kind
    ensures FirstOfKind(a + b, kind) == FirstOfKind(a, kind)
  {
    if a != [] {
      assert (a + b)[1..] == a[1..] + b;
      FirstConcat(a[1..], b, kind);
    } else if b != [] {
      assert a + b == b && b[0] in b;
      FirstConcat(a, b[1..], kind);
      assert a + b[1..] == b[1..];
    }
  }

  lemma LaterMovesTheEnd(recorded: seq<IrEvent>, more: seq<IrEvent>)
    requires recorded != [] && more != []
    requires forall x, y :: x in recorded && y in more ==> x.ts < y.ts
    ensures Earliest(recorded + more) == Earliest(recorded)
    ensures Latest(recorded + more) > Latest(recorded)
  {
    assert recorded[0] in recorded && more[0] in more;
    assert forall e :: e in recorded + more <==> e in recorded || e in more;
  }

  /** With a recorded start, later engine events leave the record as it was exactly when there
      are none or the computation's end is recorded too. */
  lemma ProvenanceKept(comp: string, recorded: seq<IrEvent>, more: seq<IrEvent>, before: set<CoverageEntry>,
                       after: set<CoverageEntry>)
    requires FirstOfKind(recorded, ComputationStarted).Some?
    requires forall e :: e in more ==> e.kind.ProbeChecked? || e.kind.Diagnostic?
    requires forall x, y :: x in recorded && y in more ==> x.ts < y.ts
    ensures ProvenanceOf(comp, recorded + more, after) == ProvenanceOf(comp, recorded, before) <==>
            more == [] || FirstOfKind(recorded, ComputationEnded).Some?
  {
    hide RecipeOfEvent, CoveringAdapter, FirstOfKind, AdapterName;
    FirstConcat(recorded, more, ComputationStarted);
    FirstConcat(recorded, more, ComputationEnded);
    NothingFound(ComputationStarted);
    if more == [] {
      assert recorded + more == recorded;
    } else {
      LaterMovesTheEnd(recorded, more);
    }
  }

  lemma NothingFound(kind: EventKind)
    ensures FirstOfKind([], kind).None?
  {
  }

  // ------------------------------------------------------ the coverage

  lemma ProducersOfMembers(log: seq<IrEvent>, comp: string)
    ensures forall key :: key in ProducersOf(Order.Linearize(log), comp) <==>
              exists e :: e in RecordedEvents(log, comp) && KeyOfEvent(e) == key
  {
    hide KeyOfEvent;
    LinearizedMembers(log);
    forall e | e in Order.Linearize(log) && e.computationId == Some(comp) ensures e in RecordedEvents(log, comp) {
    }
  }

  /** The engine joins the contributors of a computation exactly when its checks emitted. */
  lemma ContributorsAfter(log: seq<IrEvent>, rounds: seq<Round>, comp: string)
    ensures ProducersOf(Order.Linearize(LogAfter(log, rounds)), comp)
            == ProducersOf(Order.Linearize(log), comp) + if Silent(log, rounds, comp) then {} else {EngineKey()}
  {
    hide RecordedEvents, ProducersOf, LogAfter, Silent, EngineKey, KeyOfEvent, Order.Linearize;
    var after := LogAfter(log, rounds);
    ProducersOfMembers(log, comp);
    ProducersOfMembers(after, comp);
    var more := RecordedAfter(log, rounds, comp);
    forall e | e in more ensures KeyOfEvent(e) == EngineKey() {
    }
    assert forall e :: e in RecordedEvents(after, comp) <==> e in RecordedEvents(log, comp) || e in more;
    if more != [] {
      assert more[0] in more;
    }
  }

  lemma CoverageAfter(log: seq<IrEvent>, rounds: seq<Round>, manifests: Manifests, comp: string)
    requires FiledByKey(manifests) && comp in ReplayOf(log, manifests).computations
    requires comp in ReplayOf(LogAfter(log, rounds), manifests).computations
    ensures var before := CoverageFor(ReplayOf(log, manifests), comp);
            var after := CoverageFor(ReplayOf(LogAfter(log, rounds), manifests), comp);
            after == before <==>
            Silent(log, rounds, comp) || EngineKey() !in manifests || EngineListed(manifests, before)
  {
    hide RecordedEvents, ProducersOf, LogAfter, Silent, EngineKey, CoverageFor, ReplayOf, Order.Linearize,
      IsReplayOf;
    var after := LogAfter(log, rounds);
    ContributorsAfter(log, rounds, comp);
    WhatIsRead(log, ReplayOf(log, manifests), manifests, comp);
    WhatIsRead(after, ReplayOf(after, manifests), manifests, comp);
  }

  // --------------------------------------------------- the certificate

  /** A usable certificate holds the edges' own reasons, and beside them only what was read. */
  ghost function PlainDraft(log: seq<IrEvent>, graph: DerivedGraph, ctx: Context, ledger: LedgerState,
                            record: ArtifactRecord): Certificate
    requires ctx.computation in graph.computations
  {
    var input := DueInput(log, graph, ctx, ledger, record);
    Drafted(input, TrueStatus(log, graph, ctx, ledger), EdgeReasons(input.edges))
  }

  lemma CertifiedPlainly(log: seq<IrEvent>, graph: DerivedGraph, manifests: Manifests, ctx: Context,
                         ledger: LedgerState, artifact: string)
    requires Replayed(log, graph, manifests) && ctx.computation in graph.computations
    requires artifact in graph.computations[ctx.computation].artifacts
    requires ArtifactFound(log, ctx.computation, artifact).Ok?
    requires TrueStatus(log, graph, ctx, ledger).IsUsable()
    ensures CheckedFor(log, graph, ctx, ledger, artifact).Ok?
    ensures var record := ArtifactFound(log, ctx.computation, artifact).value;
            CheckedFor(log, graph, ctx, ledger, artifact).value.certificate
            == Identified(PlainDraft(log, graph, ctx, ledger, record), ctx.world.identify)
  {
    hide IsReplayOf, CheckedFor, ArtifactFound, Sealed, NodeWellRecorded, EvidenceComplete, WellAssembled, Drafted,
      DueStatus, SomeDrift, AllSupported, AllStrong, EdgeReasons, Identified, EmittedEvents, EngineReasons,
      RecordedEvents, ProvenanceOf;
    var record := ArtifactFound(log, ctx.computation, artifact).value;
    CheckedForIsSealed(log, graph, manifests, ctx, ledger, artifact);
    VerdictIsExact(log, graph, manifests, ctx, ledger, artifact);
    UsableMeansComplete(log, graph, ctx, ledger);
    EvidenceDecidesReasons(log, graph, manifests, ctx, ledger, record);
    DueInputIsWellAssembled(log, graph, manifests, ctx, ledger, record);
    SealedPlainly(DueInput(log, graph, ctx, ledger, record));
  }

  lemma SameOutcomes(ctx: Context, ledger: LedgerState, a: ComputationNode, b: ComputationNode)
    requires Unmoved(a, b)
    ensures FinalOutcomes(ctx, ledger, a) == FinalOutcomes(ctx, ledger, b)
  {
    hide FinalOutcome;
    forall i | 0 <= i < |a.dependencies|
      ensures FinalOutcome(ctx, ledger, a, a.dependencies[i]) == FinalOutcome(ctx, ledger, b, b.dependencies[i]) {
      SameOutcome(ctx, ledger, a, b, a.dependencies[i]);
    }
  }

  lemma SameOutcome(ctx: Context, ledger: LedgerState, a: ComputationNode, b: ComputationNode, dep: Dependency)
    requires Unmoved(a, b)
    ensures FinalOutcome(ctx, ledger, a, dep) == FinalOutcome(ctx, ledger, b, dep)
  {
    hide OwnOutcome, Conflicted;
  }

  lemma CheckedIsFor(log: seq<IrEvent>, graph: DerivedGraph, ctx: Context, ledger: LedgerState, artifact: string)
    requires Checked(log, graph, ctx.regs, ledger, ctx.maxTtl, ctx.now, ctx.world, artifact).0.Ok?
    requires Sole(Claimants(graph, artifact), ctx.computation)
    ensures ctx.computation in graph.computations && artifact in graph.computations[ctx.computation].artifacts
    ensures Checked(log, graph, ctx.regs, ledger, ctx.maxTtl, ctx.now, ctx.world, artifact).0
            == CheckedFor(log, graph, ctx, ledger, artifact)
  {
    hide Claimants, CheckedFor, EdgesEvaluated, Sole;
    SoleIsMember(Claimants(graph, artifact), ctx.computation);
    ClaimantsAreComputations(graph, artifact, ctx.computation);
  }

  /** The two drafts, before and after, differ at most in provenance and coverage. */
  lemma DraftsCompare(log: seq<IrEvent>, graph: DerivedGraph, after: seq<IrEvent>, graph': DerivedGraph, ctx: Context,
                      ledger: LedgerState, record: ArtifactRecord)
    requires ctx.computation in graph.computations && ctx.computation in graph'.computations
    requires Unmoved(graph.computations[ctx.computation], graph'.computations[ctx.computation])
    requires TrueStatus(log, graph, ctx, ledger) == TrueStatus(after, graph', ctx, ledger)
    ensures var a := Identified(PlainDraft(log, graph, ctx, ledger, record), ctx.world.identify);
            var b := Identified(PlainDraft(after, graph', ctx, ledger, record), ctx.world.identify);
            && a.producedBy == ProvenanceIn(log, graph, ctx.computation)
            && b.producedBy == ProvenanceIn(after, graph', ctx.computation)
            && (a == b <==> a.producedBy == b.producedBy
                            && CoverageFor(graph, ctx.computation) == CoverageFor(graph', ctx.computation))
  {
    hide TrueStatus, FinalOutcomes, EmittedEvents, EngineReasons, RecordedEvents, ProvenanceOf, CoverageFor,
      EdgeReasons, ZeroHash, DependsOn, EffectDeficitOf, MissingFor;
    SameOutcomes(ctx, ledger, graph.computations[ctx.computation], graph'.computations[ctx.computation]);
  }

  /** What of a usable certificate survives any number of fed-back checks that leave it usable.
      Its provenance does exactly when those of its computation emitted nothing or the end of
      the computation is recorded: otherwise the latest event, now the engine's own, is taken
      for the end. */
  lemma RecordSurvivesExactlyWhen(log: seq<IrEvent>, rounds: seq<Round>, manifests: Manifests, ctx: Context,
                                  ledger: LedgerState)
    requires EachLater(log, rounds) && FiledByKey(manifests)
    requires ctx.computation in ReplayOf(log, manifests).computations
    requires StatusIn(log, manifests, ctx, ledger).IsUsable()
    ensures ProvenanceIn(LogAfter(log, rounds), ReplayOf(LogAfter(log, rounds), manifests), ctx.computation)
            == ProvenanceIn(log, ReplayOf(log, manifests), ctx.computation) <==>
            Silent(log, rounds, ctx.computation) || FirstOf(log, ComputationEnded, ctx.computation).Some?
  {
    hide RecordedEvents, LogAfter, Silent, EngineKey, CoverageFor, ReplayOf, IsReplayOf, ProvenanceOf, FirstOfKind,
      TrueStatus, RecipeOfEvent, AttributionOf;
    var comp, recorded := ctx.computation, RecordedEvents(log, ctx.computation);
    UsableMeansComplete(log, ReplayOf(log, manifests), ctx, ledger);
    var more := RecordedAfter(log, rounds, comp);
    forall x, y | x in recorded && y in more ensures x.ts < y.ts && (y.kind.ProbeChecked? || y.kind.Diagnostic?) {
      assert x in log;
    }
    ProvenanceKept(comp, recorded, more, CoverageFor(ReplayOf(log, manifests), comp),
                   CoverageFor(ReplayOf(LogAfter(log, rounds), manifests), comp));
  }

  /** Exactly when a usable certificate comes out again to the last member, identifier included,
      after any number of fed-back checks: when they were harmless and identifiers stayed apart,
      and either those of its computation emitted nothing, or the computation's end is recorded
      and the engine's registered manifest is one the certificate listed already. */
  lemma CertificateRepeatsExactlyWhen(log: seq<IrEvent>, rounds: seq<Round>, manifests: Manifests, ctx: Context,
                                      ledger: LedgerState, artifact: string)
    requires EachLater(log, rounds) && FiledByKey(manifests)
    requires Sole(Claimants(ReplayOf(log, manifests), artifact), ctx.computation)
    requires var first := Checked(log, ReplayOf(log, manifests), ctx.regs, ledger, ctx.maxTtl, ctx.now, ctx.world,
                                  artifact).0;
             first.Ok? && first.value.certificate.status.IsUsable()
    ensures var graph, after, comp := ReplayOf(log, manifests), LogAfter(log, rounds), ctx.computation;
            var first := Checked(log, graph, ctx.regs, ledger, ctx.maxTtl, ctx.now, ctx.world, artifact).0;
            var again := Checked(after, ReplayOf(after, manifests), ctx.regs, ledger, ctx.maxTtl, ctx.now, ctx.world,
                                 artifact).0;
            again.Ok? && again.value.certificate == first.value.certificate <==>
            && HarmlessThroughout(log, rounds, manifests, comp) && IdsStayApart(log, rounds)
            && (Silent(log, rounds, comp)
                || (FirstOf(log, ComputationEnded, comp).Some? && EngineListed(manifests, CoverageFor(graph, comp))))
  {
    hide Checked, LogAfter, ReplayOf, IsReplayOf, Claimants, HarmlessThroughout, IdsStayApart, TrueStatus,
      ArtifactFound, EachLater, CheckedFor, PlainDraft, Silent, CoverageFor, FirstOf, ProvenanceIn, EngineKey, Unmoved,
      NodeOf, Broken, Sole, Identified;
    var graph, after, comp := ReplayOf(log, manifests), LogAfter(log, rounds), ctx.computation;
    var graph' := ReplayOf(after, manifests);
    CertificateSurvivesChecksExactlyWhen(log, rounds, manifests, ctx.regs, ledger, ctx.maxTtl, ctx.now, ctx.world,
                                         artifact, comp);
    if HarmlessThroughout(log, rounds, manifests, comp) && IdsStayApart(log, rounds) {
      CheckedIsFor(log, graph, ctx, ledger, artifact);
      ClaimsAreKept(log, rounds, manifests, artifact);
      CheckedIsFor(after, graph', ctx, ledger, artifact);
      SealedExactlyWhenFound(log, graph, manifests, ctx, ledger, artifact);
      SealedExactlyWhenFound(after, graph', manifests, ctx, ledger, artifact);
      VerdictIsExact(log, graph, manifests, ctx, ledger, artifact);
      VerdictIsExact(after, graph', manifests, ctx, ledger, artifact);
      CertifiedPlainly(log, graph, manifests, ctx, ledger, artifact);
      CertifiedPlainly(after, graph', manifests, ctx, ledger, artifact);
      SoleIsMember(Claimants(graph, artifact), comp);
      ChecksSettle(log, rounds, manifests, ctx, ledger);
      NodeIsReplayed(log, graph, manifests, comp);
      NodeIsReplayed(after, graph', manifests, comp);
      DraftsCompare(log, graph, after, graph', ctx, ledger, ArtifactFound(log, comp, artifact).value);
      RecordSurvivesExactlyWhen(log, rounds, manifests, ctx, ledger);
      CoverageAfter(log, rounds, manifests, comp);
      LoudMeansRegistered(log, rounds, manifests, comp);
    }
  }

  lemma LoudMeansRegistered(log: seq<IrEvent>, rounds: seq<Round>, manifests: Manifests, comp: string)
    requires HarmlessThroughout(log, rounds, manifests, comp)
    ensures Silent(log, rounds, comp) || EngineKey() in manifests
  {
    hide OutputOf, NodeOf, EngineKey, AllFaithful;
  }
}
