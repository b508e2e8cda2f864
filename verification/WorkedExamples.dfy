/** One small log on which checks can be followed to the end: a usable verdict is reached, and
    each way of losing it by feeding checks back is shown to happen. */
module WorkedExamples {
  import opened Primitives
  import opened Wrappers
  import opened TrustClasses
  import opened Fingerprints
  import opened Dependencies
  import opened Paths
  import opened Ir
  import opened Coverage
  import opened Graph
  import opened Replays
  import opened Validity
  import opened Certificates
  import opened Seal
  import opened TrustLedgers
  import opened ProbeRegistries
  import opened Edges
  import opened EdgeTheorems
  import opened Engine
  import opened Provenance
  import opened RecordedEdges
  import opened CheckedEdges
  import opened EngineTheorems
  import opened LogOrder
  import opened Feedback
  import opened FeedbackVerdicts
  import opened FeedbackCertificates
  import opened Identifiers
  import Order

  // ------------------------------------------------------------ the log

  const BUILD := "build"
  const REPORT := "report"

  /** A pure read of a file whose hash the adapter saw. */
  function SampleRead(): IrEvent {
    ExampleEvent(2, 0, FsRead, map[]).(decoded := ReadPayload("in.txt", Some(HashOfDigits('2')), false))
  }

  /** A start with a recipe, one read, one production. */
  function SampleLog(): seq<IrEvent> {
    [ExampleStart(1, '1'), SampleRead(), ExampleProduction()]
  }

  function SampleEdge(): Dependency {
    ExactFile("in.txt", HashOfDigits('2'), 0)
  }

  /** The adapter is registered and covers what it saw; the engine is not registered. */
  function AdapterOnly(): Manifests {
    map[ProducerKey("adapter", "1") := CoverageEntry("adapter", "1", Adapter, ["fs.*"], map[])]
  }

  function WithEngine(): Manifests {
    AdapterOnly()[EngineKey() := EngineCoverageEntry()]
  }

  function FileProbe(): Registration {
    Registration("file", None, 0, 1)
  }

  function OneProbe(): Registrations {
    map[FileProbe().Identity() := FileProbe()]
  }

  /** Every probe answers that the file is what it was. */
  function Steady(identify: Identify): World {
    World((handle, key, recorded, ttl) => MatchResult(recorded, Exact), identify)
  }

  /** No probe can tell right now. */
  function Unsure(identify: Identify): World {
    World((handle, key, recorded, ttl) => UnknownResult(true), identify)
  }

  function At(now: Instant, world: World): Context {
    Context(BUILD, now, OneProbe(), 0, world)
  }

  const FRESH := LedgerState(map[], map[])

  // -------------------------------------------------- what replay makes

  lemma SampleInOrder()
    ensures Order.Linearize(SampleLog()) == SampleLog()
  {
    hide HashOfDigits;
    Order.SortedStays(SampleLog());
  }

  lemma NamesDiffer()
    ensures "path" != "kind" && "path" != "artifact_id" && "path" != "content_hash"
    ensures "produced_by" != "kind" && "produced_by" != "artifact_id" && "produced_by" != "content_hash"
    ensures "artifact_id" != "kind" && "artifact_id" != "content_hash" && "kind" != "content_hash"
  {
    assert "path"[0] != "kind"[0] && "produced_by"[0] != "artifact_id"[0];
    assert |"kind"| == 4 && |"path"| == 4 && |"artifact_id"| == 11 && |"produced_by"| == 11 && |"content_hash"| == 12;
  }

  lemma NothingLocated()
    ensures ArtifactPaths(SampleLog()) == []
  {
    hide HashOfDigits, ExampleStart, SampleRead, ArtifactOf;
    var a, b, c := SampleLog()[0], SampleLog()[1], SampleLog()[2];
    NotLocated();
    NothingLocatedIn([]);
    assert [a][..0] == [] && [a, b][..1] == [a] && [a, b, c][..2] == [a, b];
    assert SampleLog() == [a, b, c];
    NothingLocatedIn([a]);
    NothingLocatedIn([a, b]);
    NothingLocatedIn([a, b, c]);
  }

  lemma NothingLocatedIn(events: seq<IrEvent>)
    requires events != [] ==> ArtifactPaths(events[..|events| - 1]) == []
    requires events != [] ==> ArtifactOf(events[|events| - 1], |events| - 1).None?
    ensures ArtifactPaths(events) == []
  {
  }

  lemma NotLocated()
    ensures ArtifactOf(SampleLog()[0], 0).None? && ArtifactOf(SampleLog()[1], 1).None?
    ensures ArtifactOf(SampleLog()[2], 2).None?
  {
    hide HashOfDigits, Components;
    NamesDiffer();
  }

  lemma SampleClassified()
    ensures var a, b, c := SampleLog()[0], SampleLog()[1], SampleLog()[2];
            && Classify(a, 0, {}, [], BUILD) == Unmodeled
            && Classify(b, 1, {}, [], BUILD) == Edge(SampleEdge())
            && Classify(c, 2, {}, [], BUILD) == Artifact(REPORT, None)
            && WrittenAfter(a, {}) == {} && WrittenAfter(b, {}) == {} && WrittenAfter(c, {}) == {}
  {
    hide HashOfDigits, Components, IsHash;
    NamesDiffer();
  }

  /** Replay gives the computation one edge, one artifact, and nothing to doubt. */
  lemma SampleNode()
    ensures var node := NodeOf(SampleLog(), BUILD);
            && node.dependencies == [SampleEdge()] && node.conflicts == [] && node.excluded == []
            && node.artifacts == [REPORT]
  {
    hide Classify, ExampleStart, SampleRead, ExampleProduction, WrittenAfter, KeyOfEvent, Dependency.Id, SampleEdge,
      ProgressAfter, ArtifactPaths;
    var log := SampleLog();
    NothingLocated();
    SampleClassified();
    SampleBelongs();
    ProgressStarts(log, BUILD);
    ProgressStep(log, BUILD, 0);
    ProgressStep(log, BUILD, 1);
    ProgressStep(log, BUILD, 2);
  }

  lemma ProgressStarts(events: seq<IrEvent>, comp: string)
    ensures ProgressAfter(events, [], comp, 0) == Nothing(comp)
  {
  }

  lemma ProgressStep(events: seq<IrEvent>, comp: string, n: nat)
    requires n < |events| && events[n].computationId == Some(comp)
    ensures ProgressAfter(events, [], comp, n + 1)
            == Advance(ProgressAfter(events, [], comp, n), events[n], n, [], comp)
  {
    hide Advance;
  }

  lemma SampleBelongs()
    ensures forall e :: e in SampleLog() ==>
              e.computationId == Some(BUILD) && KeyOfEvent(e) == ProducerKey("adapter", "1") && e.ts <= 1
              && e.eventId <= 3
    ensures forall i, j :: 0 <= i < j < 3 ==> SampleLog()[i].eventId != SampleLog()[j].eventId
    ensures SampleLog()[0].kind.ComputationStarted? && SampleLog()[1].kind.FsRead?
    ensures SampleLog()[2].kind.ArtifactProduced?
    ensures forall e :: e in SampleLog() ==> e.kind in [ComputationStarted, FsRead, ArtifactProduced]
  {
    hide HashOfDigits;
  }

  // ------------------------------------------- what a check finds

  predicate Registers(manifests: Manifests) {
    manifests == AdapterOnly() || manifests == WithEngine()
  }

  /** All of it is the adapter's, about the one computation, and of kinds it may emit. */
  ghost predicate ByTheAdapter(log: seq<IrEvent>) {
    && log != []
    && forall e :: e in log ==>
         && e.computationId == Some(BUILD) && KeyOfEvent(e) == ProducerKey("adapter", "1")
         && e.kind in [ComputationStarted, FsRead, ArtifactProduced]
  }

  /** One edge, and nothing to doubt. */
  predicate Simple(node: ComputationNode) {
    node.dependencies == [SampleEdge()] && node.conflicts == [] && node.excluded == []
  }

  /** Nothing in this log stands in the way of a valid verdict. */
  ghost predicate Blameless(log: seq<IrEvent>) {
    && ByTheAdapter(log) && Simple(NodeOf(Order.Linearize(log), BUILD))
    && RecipeOf(RecordedEvents(log, BUILD)).Some?
  }

  lemma SampleIsBlameless()
    ensures Blameless(SampleLog())
  {
    hide NodeOf, RecipeOf, RecordedEvents, SampleEdge, KeyOfEvent, ExampleStart, SampleRead, ExampleProduction;
    SampleInOrder();
    SampleNode();
    SampleRecords();
    SampleBelongs();
  }

  lemma AdapterReplayed(log: seq<IrEvent>, manifests: Manifests)
    requires Registers(manifests) && ByTheAdapter(log)
    ensures FiledByKey(manifests)
    ensures var graph := ReplayOf(log, manifests);
            && Replayed(log, graph, manifests)
            && BUILD in graph.computations && graph.computations[BUILD] == NodeOf(Order.Linearize(log), BUILD)
            && AttributionOf(graph, BUILD).unregistered == {}
  {
    hide NodeOf, ReplayOf, IsReplayOf, ProducersOf, AttributionOf, KeyOfEvent, Registers;
    var graph := ReplayOf(log, manifests);
    SampleManifests(manifests);
    assert log[0] in log;
    InReplay(graph, log, manifests, BUILD, log[0]);
    NodeIsReplayed(log, graph, manifests, BUILD);
    WhatIsRead(log, graph, manifests, BUILD);
    AdapterAlone(log);
  }

  lemma AdapterAlone(log: seq<IrEvent>)
    requires ByTheAdapter(log)
    ensures ProducersOf(Order.Linearize(log), BUILD) == {ProducerKey("adapter", "1")}
  {
    hide KeyOfEvent;
    LinearizedMembers(log);
    assert log[0] in log && log[0] in Order.Linearize(log);
    assert KeyOfEvent(log[0]) in ProducersOf(Order.Linearize(log), BUILD);
  }

  lemma SampleReplayed(manifests: Manifests)
    requires Registers(manifests)
    ensures FiledByKey(manifests)
    ensures var graph := ReplayOf(SampleLog(), manifests);
            && Replayed(SampleLog(), graph, manifests)
            && BUILD in graph.computations && graph.computations[BUILD] == NodeOf(SampleLog(), BUILD)
  {
    hide NodeOf, ReplayOf, IsReplayOf, SampleLog, RecipeOf, RecordedEvents, Simple, ByTheAdapter, Registers;
    SampleIsBlameless();
    SampleInOrder();
    AdapterReplayed(SampleLog(), manifests);
  }

  lemma SampleManifests(manifests: Manifests)
    requires Registers(manifests)
    ensures FiledByKey(manifests) && ProducerKey("adapter", "1") in manifests
    ensures manifests[ProducerKey("adapter", "1")].emits == ["fs.*"]
  {
    assert |"adapter"| != |ENGINE_PRODUCER|;
  }

  lemma InReplay(graph: DerivedGraph, log: seq<IrEvent>, manifests: Manifests, comp: string, e: IrEvent)
    requires IsReplayOf(graph, log, manifests) && e in log && e.computationId == Some(comp)
    ensures comp in graph.computations
  {
    hide NodeOf;
    LinearizedMembers(log);
    assert e in Order.Linearize(log);
  }

  lemma ReadIsCovered(log: seq<IrEvent>, manifests: Manifests)
    requires Registers(manifests) && ByTheAdapter(log)
    ensures CoveredBySome(CoverageFor(ReplayOf(log, manifests), BUILD), FsRead)
  {
    hide NodeOf, ReplayOf, IsReplayOf, CoverageFor, CoverageEntry.Covers, AttributionOf, Registers, ProducersOf,
      ByTheAdapter;
    SampleManifests(manifests);
    var c := manifests[ProducerKey("adapter", "1")];
    AdapterReplayed(log, manifests);
    AdapterAlone(log);
    WhatIsRead(log, ReplayOf(log, manifests), manifests, BUILD);
    assert c in CoverageFor(ReplayOf(log, manifests), BUILD);
    FamilyCovers(c);
  }

  lemma FamilyCovers(c: CoverageEntry)
    requires c.emits == ["fs.*"]
    ensures c.Covers(FsRead)
  {
    assert "fs.*"[2..] == ".*" && "fs.*"[..2] == "fs";
    assert PatternMatches(c.emits[0], FsRead);
  }

  lemma SampleRecords()
    ensures RecordedEvents(SampleLog(), BUILD) == SampleLog()
    ensures RecipeOf(SampleLog()).Some?
  {
    hide ExampleStart, SampleRead, ExampleProduction, HashOfDigits, RecipeOfEvent;
    var log := SampleLog();
    SampleBelongs();
    StartFacts(1, '1');
    assert log[1..][1..] == [log[2]] && log[2..] == [log[2]] && log[3..] == [] && log[1..] == [log[1], log[2]];
    assert [log[2]][1..] == [];
  }

  lemma EvidenceIsComplete(log: seq<IrEvent>, manifests: Manifests)
    requires Registers(manifests) && Blameless(log)
    ensures BUILD in ReplayOf(log, manifests).computations
    ensures EvidenceComplete(log, ReplayOf(log, manifests), BUILD)
  {
    hide NodeOf, ReplayOf, IsReplayOf, RecordedEvents, CoverageFor, AttributionOf, RecipeOf, CoveredBySome,
      HasFsCoveredObserver, KeyOfEvent, Registers;
    AdapterReplayed(log, manifests);
    ReadIsCovered(log, manifests);
    forall e | e in log ensures !IsSubprocessTool(e) && (IsEffectKind(e.kind) ==> e.kind == FsRead) {
    }
  }

  lemma ProbeIsSelected(key: string)
    ensures SelectionOf(OneProbe(), "file", key) == Ok(Selected(FileProbe().Identity(), 1))
  {
    hide Arbitrates, Derive, HostOf;
    SelectsTheSoleTop(OneProbe(), "file", key, SelectionOf(OneProbe(), "file", key), FileProbe().Identity());
  }

  /** With a fresh ledger the one probe answers for the one edge, whatever it says. */
  lemma SampleConsulted(ctx: Context)
    requires ctx.regs == OneProbe()
    ensures Consulted(ctx, FRESH, SampleEdge())
    ensures AnswerFor(ctx, FRESH, SampleEdge()) ==
            ctx.world.probe(1, SampleEdge().key, SampleEdge().fingerprint, None)
  {
    hide Arbitrates, OneProbe, SelectionOf, HashOfDigits;
    ProbeIsSelected(SampleEdge().key);
  }

  lemma SteadyIsFaithful(now: Instant, identify: Identify)
    ensures var ctx := At(now, Steady(identify));
            Confirms(ctx, FRESH, SampleEdge()) && !Drifts(ctx, FRESH, SampleEdge())
            && Faithful(AnswerFor(ctx, FRESH, SampleEdge()), SampleEdge())
  {
    hide Arbitrates, OneProbe, SelectionOf, HashOfDigits, Faithful, Consulted, AnswerFor;
    var ctx, edge := At(now, Steady(identify)), SampleEdge();
    SampleConsulted(ctx);
    assert Canonical(edge.fingerprint);
    FaithfulMeaning(AnswerFor(ctx, FRESH, edge), edge);
  }

  /** A valid verdict is reached. */
  lemma ValidIsReached(log: seq<IrEvent>, manifests: Manifests, now: Instant, identify: Identify)
    requires Registers(manifests) && Blameless(log)
    ensures BUILD in ReplayOf(log, manifests).computations
    ensures TrueStatus(log, ReplayOf(log, manifests), At(now, Steady(identify)), FRESH) == Valid
  {
    hide NodeOf, ReplayOf, IsReplayOf, EvidenceComplete, OneProbe, Confirms, Drifts, HashOfDigits, Registers,
      RecordedEvents, RecipeOf, ByTheAdapter;
    AdapterReplayed(log, manifests);
    EvidenceIsComplete(log, manifests);
    SteadyIsFaithful(now, identify);
  }

  lemma SampleClaim(manifests: Manifests)
    requires Registers(manifests)
    ensures Sole(Claimants(ReplayOf(SampleLog(), manifests), REPORT), BUILD)
    ensures ArtifactFound(SampleLog(), BUILD, REPORT).Ok?
    ensures NoDivergence(SampleLog())
  {
    hide NodeOf, ReplayOf, IsReplayOf, ExampleStart, SampleRead, ExampleProduction, ArtifactEvent, RecordOf, Claimants,
      ProducesArtifact;
    var log, graph := SampleLog(), ReplayOf(SampleLog(), manifests);
    SampleReplayed(manifests);
    SampleBelongs();
    ProductionFacts();
    OnlyTheLastProduces();
    ArtifactEventMeaning(log, BUILD, REPORT);
    ClaimantsProduced(log, graph, manifests, REPORT);
    assert log[2] in log;
    forall comp ensures comp in Claimants(graph, REPORT) <==> comp == BUILD {
    }
    assert Claimants(graph, REPORT) == {BUILD};
  }

  lemma OnlyTheLastProduces()
    ensures forall e, comp :: e in SampleLog() && ProducesArtifact(e, comp, REPORT) ==>
              e == ExampleProduction() && comp == BUILD
    ensures ProducesArtifact(ExampleProduction(), BUILD, REPORT) && ExampleProduction() in SampleLog()
  {
    hide HashOfDigits, IsHash, RecordOf;
    ProductionFacts();
    assert SampleLog()[2] in SampleLog();
  }

  ghost function CheckOf(log: seq<IrEvent>, manifests: Manifests, now: Instant, world: World)
    : Result<CheckOutcome, EngineError> {
    hide *;
    Checked(log, ReplayOf(log, manifests), OneProbe(), FRESH, 0, now, world, REPORT).0
  }

  /** A certificate was issued, and is valid. */
  predicate SaysValid(r: Result<CheckOutcome, EngineError>) {
    r.Ok? && r.value.certificate.status == Valid
  }

  /** A certificate was issued, and is of no use. */
  predicate SaysUnusable(r: Result<CheckOutcome, EngineError>) {
    r.Ok? && !r.value.certificate.status.IsUsable()
  }

  /** The check of the sample log while the file is what it was. */
  ghost function FirstCheck(manifests: Manifests, now: Instant, identify: Identify): Result<CheckOutcome, EngineError> {
    hide *;
    CheckOf(SampleLog(), manifests, now, Steady(identify))
  }

  /** The same check once the events of an earlier one have been appended. */
  ghost function NextCheck(round: Round, manifests: Manifests, now: Instant, identify: Identify)
    : Result<CheckOutcome, EngineError> {
    hide *;
    CheckOf(SampleLog() + Emitted(SampleLog(), round), manifests, now, Steady(identify))
  }

  /** The check issues a certificate that says so. */
  lemma ValidIsCertified(manifests: Manifests, now: Instant, identify: Identify)
    requires Registers(manifests)
    ensures SaysValid(FirstCheck(manifests, now, identify))
  {
    hide ReplayOf, IsReplayOf, SampleLog, Claimants, ArtifactFound, TrueStatus, OneProbe, Checked, NoDivergence,
      EmittedEvents;
    var graph := ReplayOf(SampleLog(), manifests);
    SampleReplayed(manifests);
    SampleClaim(manifests);
    SampleIsBlameless();
    ValidIsReached(SampleLog(), manifests, now, identify);
    CertifiedExactlyWhen(SampleLog(), graph, manifests, OneProbe(), FRESH, 0, now, Steady(identify), REPORT);
    CertificateIsTrue(SampleLog(), graph, manifests, OneProbe(), FRESH, 0, now, Steady(identify), REPORT);
  }

  // --------------------------------------------------- feeding back

  function RoundAt(now: Instant, world: World): Round {
    Round(At(now, world), FRESH)
  }

  /** A check that consults a probe emits something. */
  lemma ConsultedIsLoud(log: seq<IrEvent>, round: Round)
    requires var deps := NodeOf(Order.Linearize(log), round.ctx.computation).dependencies;
             |deps| > 0 && Consulted(round.ctx, round.ledger, deps[0])
    ensures Emitted(log, round) != []
  {
    hide NodeOf, Consulted, EmittedEvents, ReportsOn;
    var events, comp := Order.Linearize(log), round.ctx.computation;
    NodesAreWellRecorded(events, comp);
    EmittedReports(round.ctx, NodeOf(events, comp), round.ledger);
  }

  lemma SampleIsLoud(round: Round)
    requires round.ledger == FRESH && round.ctx.regs == OneProbe() && round.ctx.computation == BUILD
    ensures 1 <= |Emitted(SampleLog(), round)| <= 2
  {
    hide NodeOf, Consulted, EmittedEvents, SampleLog, SampleEdge;
    SampleInOrder();
    SampleNode();
    SampleConsulted(round.ctx);
    ConsultedIsLoud(SampleLog(), round);
    EmissionIsBounded(round.ctx, NodeOf(SampleLog(), BUILD), round.ledger);
  }

  /** One fed-back check collides with nothing. */
  lemma OneRoundIsApart(round: Round)
    requires round.ledger == FRESH && round.ctx.regs == OneProbe() && round.ctx.computation == BUILD
    requires 1 < round.ctx.now
    ensures EachLater(SampleLog(), [round])
    ensures LogAfter(SampleLog(), [round]) == SampleLog() + Emitted(SampleLog(), round)
    ensures OutputOf(SampleLog(), [round], 0) == Emitted(SampleLog(), round)
    ensures IdsStayApart(SampleLog(), [round])
  {
    hide Emitted, SampleLog, NoDivergence, EngineEventId, SequenceAfter;
    var log, output := SampleLog(), Emitted(SampleLog(), round);
    SampleBelongs();
    SampleIsLoud(round);
    SmallOutputsDoNotDiverge(log, round);
    OutputIds(log, round);
    assert [round][..0] == [] && [round][..1 - 1] == [];
    forall x, y | x in log && y in output ensures x.eventId != y.eventId {
      var k :| 0 <= k < |output| && output[k] == y;
      EngineIdsAreLarge(round.ctx.now, SequenceAfter(0, k));
    }
  }

  lemma OneRoundIsHarmless(round: Round, manifests: Manifests)
    requires round.ledger == FRESH && round.ctx.regs == OneProbe() && round.ctx.computation == BUILD
    requires 1 < round.ctx.now
    ensures Consulted(round.ctx, FRESH, SampleEdge())
    ensures HarmlessThroughout(SampleLog(), [round], manifests, BUILD) <==>
            Faithful(AnswerFor(round.ctx, FRESH, SampleEdge()), SampleEdge()) && EngineKey() in manifests
  {
    hide NodeOf, Consulted, Emitted, SampleLog, SampleEdge, Faithful, AnswerFor, EngineKey, OutputOf;
    SampleInOrder();
    SampleNode();
    SampleConsulted(round.ctx);
    SampleIsLoud(round);
    OneRoundIsApart(round);
    var deps := [SampleEdge()];
    assert AllFaithful(round.ctx, FRESH, deps) <==> Faithful(AnswerFor(round.ctx, FRESH, deps[0]), deps[0]);
    assert [round][0] == round;
  }

  /** What the next check says after one has been fed back. It always issues a certificate, and
      its status is valid again exactly when the check was harmless, and not usable otherwise. */
  lemma AfterOneRound(round: Round, manifests: Manifests, now: Instant, identify: Identify)
    requires round.ledger == FRESH && round.ctx.regs == OneProbe() && round.ctx.computation == BUILD
    requires 1 < round.ctx.now && Registers(manifests)
    ensures if HarmlessThroughout(SampleLog(), [round], manifests, BUILD)
            then SaysValid(NextCheck(round, manifests, now, identify))
            else SaysUnusable(NextCheck(round, manifests, now, identify))
  {
    hide ReplayOf, IsReplayOf, SampleLog, Claimants, ArtifactFound, OneProbe, Checked, NoDivergence, Emitted,
      LogAfter, HarmlessThroughout, IdsStayApart, EachLater;
    var log, rounds := SampleLog(), [round];
    var after := LogAfter(log, rounds);
    SampleReplayed(manifests);
    SampleClaim(manifests);
    OneRoundIsApart(round);
    ValidIsCertified(manifests, now, identify);
    CertificateSurvivesChecksExactlyWhen(log, rounds, manifests, OneProbe(), FRESH, 0, now, Steady(identify), REPORT,
                                         BUILD);
    RunsStayDeterministicExactlyWhen(log, rounds);
    ClaimsAreKept(log, rounds, manifests, REPORT);
    SoleIsMember(Claimants(ReplayOf(log, manifests), REPORT), BUILD);
    CertifiedExactlyWhen(after, ReplayOf(after, manifests), manifests, OneProbe(), FRESH, 0, now, Steady(identify),
                         REPORT);
  }

  /** Fed back with the engine registered and faithful answers, a valid certificate stays valid.
      Even so it is another certificate: the end of the computation, which the log does not
      record, is now taken to be the check. */
  lemma HarmlessCheckKeepsValid(at: Instant, now: Instant, identify: Identify)
    requires 1 < at
    ensures var first := FirstCheck(WithEngine(), now, identify);
            var next := NextCheck(RoundAt(at, Steady(identify)), WithEngine(), now, identify);
            SaysValid(first) && SaysValid(next) && next.value.certificate != first.value.certificate
  {
    hide ReplayOf, SampleLog, Claimants, ArtifactFound, OneProbe, Checked, NoDivergence, Emitted, Silent,
      LogAfter, HarmlessThroughout, IdsStayApart, EachLater, AnswerFor, Faithful, SampleEdge, EngineListed, FirstOf;
    var round, ctx := RoundAt(at, Steady(identify)), At(now, Steady(identify));
    SteadyIsFaithful(at, identify);
    OneRoundIsHarmless(round, WithEngine());
    AfterOneRound(round, WithEngine(), now, identify);
    ValidIsCertified(WithEngine(), now, identify);
    OneRoundIsApart(round);
    SampleReplayed(WithEngine());
    SampleClaim(WithEngine());
    CertificateRepeatsExactlyWhen(SampleLog(), [round], WithEngine(), ctx, FRESH, REPORT);
    SampleIsLoud(round);
    LoudIsNotSilent(round);
    NoEndRecorded();
  }

  lemma LoudIsNotSilent(round: Round)
    requires round.ctx.computation == BUILD && OutputOf(SampleLog(), [round], 0) != []
    ensures !Silent(SampleLog(), [round], BUILD)
  {
    hide OutputOf;
    assert [round][0].ctx.computation == BUILD;
  }

  lemma NoEndRecorded()
    ensures FirstOf(SampleLog(), ComputationEnded, BUILD).None?
  {
    hide SampleLog, FirstOf;
    SampleBelongs();
    FirstOfMeaning(SampleLog(), ComputationEnded, BUILD);
  }

  /** One retryable unknown, fed back, costs the next check its verdict although nothing
      changed and the engine is registered. */
  lemma OneUnknownCostsTheVerdict(at: Instant, now: Instant, identify: Identify)
    requires 1 < at
    ensures SaysValid(FirstCheck(WithEngine(), now, identify))
    ensures SaysUnusable(NextCheck(RoundAt(at, Unsure(identify)), WithEngine(), now, identify))
  {
    hide SampleLog, OneProbe, CheckOf, Emitted, HarmlessThroughout, AnswerFor, SampleEdge;
    var round := RoundAt(at, Unsure(identify));
    SampleConsulted(round.ctx);
    OneRoundIsHarmless(round, WithEngine());
    AfterOneRound(round, WithEngine(), now, identify);
    ValidIsCertified(WithEngine(), now, identify);
  }

  /** So does any check, however faithful its answers, while the engine is not registered. */
  lemma UnregisteredEngineCostsTheVerdict(at: Instant, now: Instant, identify: Identify)
    requires 1 < at
    ensures SaysValid(FirstCheck(AdapterOnly(), now, identify))
    ensures SaysUnusable(NextCheck(RoundAt(at, Steady(identify)), AdapterOnly(), now, identify))
  {
    hide SampleLog, OneProbe, CheckOf, Emitted, HarmlessThroughout, AnswerFor, SampleEdge, Faithful;
    var round := RoundAt(at, Steady(identify));
    assert |"adapter"| != |ENGINE_PRODUCER|;
    OneRoundIsHarmless(round, AdapterOnly());
    AfterOneRound(round, AdapterOnly(), now, identify);
    ValidIsCertified(AdapterOnly(), now, identify);
  }

  // ------------------------------------------------ one millisecond

  /** Two faithful checks a nanosecond apart. */
  function TwoRounds(identify: Identify): seq<Round> {
    [RoundAt(1_000_000, Steady(identify)), RoundAt(1_000_001, Steady(identify))]
  }

  lemma SecondIsLoud(first: Round, second: Round)
    requires forall x :: x in SampleLog() ==> x.ts < first.ctx.now
    requires second.ledger == FRESH && second.ctx.regs == OneProbe() && second.ctx.computation == BUILD
    ensures Emitted(SampleLog() + Emitted(SampleLog(), first), second) != []
  {
    hide NodeOf, Consulted, Emitted, SampleLog, SampleEdge;
    var log, after := SampleLog(), SampleLog() + Emitted(SampleLog(), first);
    SampleInOrder();
    SampleNode();
    ExtendsAfterRound(log, first, BUILD);
    SampleConsulted(second.ctx);
    assert NodeOf(Order.Linearize(after), BUILD).dependencies[0] == SampleEdge();
    ConsultedIsLoud(after, second);
  }

  lemma TwoRoundsMeet(identify: Identify)
    ensures var rounds := TwoRounds(identify);
            && |rounds| == 2 && EachLater(SampleLog(), rounds)
            && OutputOf(SampleLog(), rounds, 0) != [] && OutputOf(SampleLog(), rounds, 1) != []
            && MillisField(rounds[0].ctx.now) == MillisField(rounds[1].ctx.now)
  {
    hide Emitted, SampleLog, OneProbe;
    var rounds := TwoRounds(identify);
    SampleBelongs();
    assert rounds[..0] == [] && rounds[..1][..0] == [] && rounds[..1] == [rounds[0]];
    SampleIsLoud(rounds[0]);
    SecondIsLoud(rounds[0], rounds[1]);
  }

  /** Two checks within one millisecond mint the same identifiers; fed back, they leave a log no
      check will read. */
  lemma OneMillisecondStopsChecking(now: Instant, identify: Identify)
    ensures SaysValid(FirstCheck(WithEngine(), now, identify))
    ensures CheckOf(LogAfter(SampleLog(), TwoRounds(identify)), WithEngine(), now, Steady(identify))
            == Err(NondeterministicReplay)
  {
    hide SampleLog, OneProbe, TwoRounds, LogAfter, NoDivergence, EachLater, OutputOf, MillisField, ReplayOf, IsReplayOf,
      CheckedFor, Claimants;
    var rounds := TwoRounds(identify);
    var after := LogAfter(SampleLog(), rounds);
    ValidIsCertified(WithEngine(), now, identify);
    SampleReplayed(WithEngine());
    TwoRoundsMeet(identify);
    RunsStayDeterministicExactlyWhen(SampleLog(), rounds);
    assert !IdsStayApart(SampleLog(), rounds);
    DeterministicMeansNoDivergence(after, ReplayOf(after, WithEngine()), WithEngine());
  }

  // ---------------------------------------------------- another order

  /** A later start that names no recipe. */
  function Restart(): IrEvent {
    ExampleEvent(4, 2, ComputationStarted, map[])
  }

  function Restarted(): seq<IrEvent> {
    SampleLog() + [Restart()]
  }

  lemma RestartFacts()
    ensures Starts(Restart(), BUILD) && RecipeOfEvent(Restart()).None? && !ProducesArtifact(Restart(), BUILD, REPORT)
    ensures ArtifactOf(Restart(), 3).None? && Restart().ts == 2 && Restart().eventId == 4
    ensures KeyOfEvent(Restart()) == ProducerKey("adapter", "1")
    ensures forall written :: Classify(Restart(), 3, written, [], BUILD) == Unmodeled
  {
  }

  lemma RestartedInOrder()
    ensures Order.Linearize(Restarted()) == Restarted()
    ensures ByTheAdapter(Restarted()) && NoDivergence(Restarted())
  {
    hide SampleLog, Restart, KeyOfEvent, Order.Linearize;
    SampleBelongs();
    SampleInOrder();
    RestartFacts();
    SampleApart();
    forall x, y | x in SampleLog() && y in [Restart()] ensures Order.Precedes(x, y) {
      Order.LaterInstantIsLater(x, y);
    }
    Order.SortedStays([Restart()]);
    Order.LinearizeAppend(SampleLog(), [Restart()]);
  }

  lemma SampleApart()
    ensures SampleLog() != [] && NoDivergence(SampleLog())
  {
    hide ExampleStart, SampleRead, ExampleProduction;
    SampleBelongs();
  }

  lemma {:induction false} ProgressPrefix(short: seq<IrEvent>, long: seq<IrEvent>, comp: string, n: nat)
    requires short <= long && n <= |short|
    ensures ProgressAfter(short, [], comp, n) == ProgressAfter(long, [], comp, n)
  {
    hide Advance;
    if n > 0 {
      ProgressPrefix(short, long, comp, n - 1);
    }
  }

  /** An event the graph does not model moves none of a node's lists. */
  lemma UnmodeledKeeps(p: Progress, e: IrEvent, n: nat, artifacts: seq<ArtifactAt>, comp: string)
    requires p.Valid() && Classify(e, n, p.written, artifacts, comp) == Unmodeled && Simple(p.node)
    ensures Simple(Advance(p, e, n, artifacts, comp).node)
  {
    hide Classify, SampleEdge;
  }

  lemma RestartedNode()
    ensures Simple(NodeOf(Restarted(), BUILD))
  {
    hide Classify, SampleLog, SampleEdge, ProgressAfter, ArtifactPaths, Restart, Advance;
    var log := Restarted();
    SampleLength();
    NothingLocated();
    SampleNode();
    RestartFacts();
    assert log[..3] == SampleLog();
    NothingLocatedIn(log);
    ProgressPrefix(SampleLog(), log, BUILD, 3);
    ProgressStep(log, BUILD, 3);
    UnmodeledKeeps(ProgressAfter(log, [], BUILD, 3), Restart(), 3, [], BUILD);
  }

  lemma SampleLength()
    ensures |SampleLog()| == 3
  {
  }

  /** In the order it was written, the log's first start names a recipe. */
  lemma RestartedIsBlameless()
    ensures Blameless(Restarted())
  {
    hide NodeOf, ExampleStart, SampleRead, ExampleProduction, Restart, Simple, FirstOf, ByTheAdapter, RecipeOfEvent;
    RestartedInOrder();
    RestartedNode();
    SampleBelongs();
    StartFacts(1, '1');
    FirstOfMeaning(Restarted(), ComputationStarted, BUILD);
    FirstStartDecides(Restarted());
  }

  lemma FirstStartDecides(log: seq<IrEvent>)
    requires log != [] && Starts(log[0], BUILD)
    ensures RecipeOf(RecordedEvents(log, BUILD)) == RecipeOfEvent(log[0])
  {
    hide RecipeOfEvent, FirstOfKind, RecordedEvents;
    FirstOfMeaning(log, ComputationStarted, BUILD);
  }

  lemma RestartedClaim(log: seq<IrEvent>, manifests: Manifests)
    requires Registers(manifests) && Order.Permutation(Restarted(), log)
    ensures FiledByKey(manifests)
    ensures ReplayOf(log, manifests) == ReplayOf(Restarted(), manifests) && NoDivergence(log)
    ensures Sole(Claimants(ReplayOf(log, manifests), REPORT), BUILD)
    ensures ArtifactFound(log, BUILD, REPORT).Ok?
  {
    hide NodeOf, ReplayOf, IsReplayOf, SampleLog, ArtifactEvent, RecordOf, Claimants, ProducesArtifact, ByTheAdapter,
      ExampleProduction, Restart, DerivedGraph.IsDeterministic, Order.Permutation;
    var restarted := Restarted();
    var graph := ReplayOf(restarted, manifests);
    RestartedInOrder();
    AdapterReplayed(restarted, manifests);
    DeterministicMeansNoDivergence(restarted, graph, manifests);
    ReplayedAnyOrder(restarted, graph, manifests, log);
    ReplayIsDetermined(graph, log, manifests);
    OnlyTheLastProduces();
    ProductionFacts();
    ArtifactEventMeaning(log, BUILD, REPORT);
    ClaimantsProduced(log, graph, manifests, REPORT);
    OneProduction(log);
    forall comp ensures comp in Claimants(graph, REPORT) <==> comp == BUILD {
    }
    assert Claimants(graph, REPORT) == {BUILD};
  }

  lemma OneProduction(log: seq<IrEvent>)
    requires forall e :: e in Restarted() <==> e in log
    ensures forall e, comp :: e in log && ProducesArtifact(e, comp, REPORT) ==>
              e == ExampleProduction() && comp == BUILD
    ensures ProducesArtifact(ExampleProduction(), BUILD, REPORT) && ExampleProduction() in log
  {
    hide ExampleProduction, SampleLog;
    OnlyTheLastProduces();
    forall e, comp | e in log && ProducesArtifact(e, comp, REPORT)
      ensures e == ExampleProduction() && comp == BUILD {
      assert e in Restarted();
    }
    assert ExampleProduction() in Restarted();
  }

  /** One deterministic log, two orders: as written, the certificate says valid; with the second
      start moved to the front, the same check issues one of no use. */
  lemma ReorderingCostsTheVerdict(manifests: Manifests, now: Instant, identify: Identify)
    requires Registers(manifests)
    ensures SaysValid(CheckOf(Restarted(), manifests, now, Steady(identify)))
    ensures SaysUnusable(CheckOf(Fronted(Restarted(), 3), manifests, now, Steady(identify)))
  {
    hide ReplayOf, IsReplayOf, Restarted, Claimants, ArtifactFound, OneProbe, Checked, NoDivergence, EmittedEvents,
      TrueStatus, Fronted, RecordedEvents, RecipeOf, Restart;
    assert |Restarted()| == 4 && Restarted()[3] == Restart() by { RestartedLength(); }
    var log, other, world := Restarted(), Fronted(Restarted(), 3), Steady(identify);
    assert Order.Permutation(log, log);
    var graph := ReplayOf(log, manifests);
    RestartedClaim(log, manifests);
    RestartedClaim(other, manifests);
    RestartedIsBlameless();
    ValidIsReached(log, manifests, now, identify);
    CertifiedExactlyWhen(log, graph, manifests, OneProbe(), FRESH, 0, now, world, REPORT);
    CertifiedExactlyWhen(other, graph, manifests, OneProbe(), FRESH, 0, now, world, REPORT);
    CertificateIsTrue(log, graph, manifests, OneProbe(), FRESH, 0, now, world, REPORT);
    CertificateIsTrue(other, graph, manifests, OneProbe(), FRESH, 0, now, world, REPORT);
    RestartFacts();
    FirstStartDecides(other);
    NoRecipeNoUse(other, graph, At(now, world));
  }

  lemma RestartedLength()
    ensures |Restarted()| == 4 && Restarted()[3] == Restart()
  {
  }

  lemma NoRecipeNoUse(log: seq<IrEvent>, graph: DerivedGraph, ctx: Context)
    requires ctx.computation in graph.computations
    requires RecipeOf(RecordedEvents(log, ctx.computation)).None?
    ensures !TrueStatus(log, graph, ctx, FRESH).IsUsable()
  {
    hide RecipeOf, RecordedEvents, TrueStatus, CoverageFor, AttributionOf;
    IncompleteIsUnusable(log, graph, ctx, FRESH);
  }
}
