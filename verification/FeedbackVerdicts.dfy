/** What feeding a check's own events back into the log does to later verdicts. A later check
    reads more than the edges of a node: the producers that contributed to it, and whether the
    log still replays deterministically. */
module FeedbackVerdicts {
  import opened Primitives
  import opened Wrappers
  import opened Ir
  import opened Coverage
  import opened Graph
  import opened Replays
  import opened NodeLists
  import opened Validity
  import opened Seal
  import opened TrustLedgers
  import opened ProbeRegistries
  import opened Edges
  import opened EdgeTheorems
  import opened Engine
  import opened Provenance
  import opened CheckedEdges
  import opened EngineTheorems
  import opened Feedback
  import opened Identifiers
  import Order

  // -------------------------------------------- producers and records

  lemma LinearizedMembers(log: seq<IrEvent>)
    ensures forall e :: e in Order.Linearize(log) <==> e in log
  {
    Order.LinearizeSorts(log);
    Order.PermutationMembers(log, Order.Linearize(log));
  }

  /** Engine events make the engine a contributing producer of their computation, and change no
      other attribution. */
  lemma ProducersAfter(log: seq<IrEvent>, later: seq<IrEvent>, ctx: Context, comp: string)
    requires forall e :: e in later ==> FromTheEngine(e, ctx)
    ensures ProducersOf(Order.Linearize(log + later), comp) == ProducersOf(Order.Linearize(log), comp)
            + if comp == ctx.computation && later != [] then {EngineKey()} else {}
  {
    hide KeyOfEvent;
    LinearizedMembers(log);
    LinearizedMembers(log + later);
    var before, after := ProducersOf(Order.Linearize(log), comp), ProducersOf(Order.Linearize(log + later), comp);
    if comp == ctx.computation && later != [] {
      assert later[0] in later && later[0] in log + later;
      assert KeyOfEvent(later[0]) in after;
    }
    forall key | key in after ensures key in before || (comp == ctx.computation && later != [] && key == EngineKey()) {
      var e :| e in Order.Linearize(log + later) && e.computationId == Some(comp) && KeyOfEvent(e) == key;
      assert e in log || e in later;
    }
    forall key | key in before ensures key in after {
      var e :| e in Order.Linearize(log) && e.computationId == Some(comp) && KeyOfEvent(e) == key;
      assert e in Order.Linearize(log + later);
    }
  }

  lemma {:induction false} RecordedConcat(a: seq<IrEvent>, b: seq<IrEvent>, comp: string)
    ensures RecordedEvents(a + b, comp) == RecordedEvents(a, comp) + RecordedEvents(b, comp)
  {
    if a == [] {
      assert a + b == b;
    } else {
      assert (a + b)[1..] == a[1..] + b;
      RecordedConcat(a[1..], b, comp);
    }
  }

  lemma {:induction false} RecipeConcat(a: seq<IrEvent>, b: seq<IrEvent>)
    requires forall e :: e in b ==> !e.kind.ComputationStarted?
    ensures RecipeOf(a + b) == RecipeOf(a)
  {
    hide RecipeOfEvent;
    if a != [] {
      assert (a + b)[1..] == a[1..] + b;
      RecipeConcat(a[1..], b);
    } else if b != [] {
      assert a + b == b;
      assert b[0] in b && forall e :: e in b[1..] ==> e in b;
      RecipeConcat(a, b[1..]);
      assert a + b[1..] == b[1..];
    }
  }

  lemma RecipeAfter(log: seq<IrEvent>, later: seq<IrEvent>, ctx: Context, comp: string)
    requires forall e :: e in later ==> FromTheEngine(e, ctx)
    ensures RecipeOf(RecordedEvents(log + later, comp)) == RecipeOf(RecordedEvents(log, comp))
  {
    hide RecipeOf;
    RecordedConcat(log, later, comp);
    RecipeConcat(RecordedEvents(log, comp), RecordedEvents(later, comp));
  }

  // ------------------------------------------------- evidence afterwards

  /** What of the evidence rests on the recorded events and the coverage alone. */
  ghost predicate Covered(recorded: seq<IrEvent>, coverage: set<CoverageEntry>) {
    && (forall e :: e in recorded && IsEffectKind(e.kind) ==> CoveredBySome(coverage, e.kind))
    && ((exists e :: e in recorded && IsSubprocessTool(e)) ==> HasFsCoveredObserver(coverage))
  }

  lemma EngineHasNoEffects(e: IrEvent, ctx: Context)
    requires FromTheEngine(e, ctx)
    ensures !IsEffectKind(e.kind) && !IsSubprocessTool(e)
  {
  }

  lemma CoveredAfter(log: seq<IrEvent>, later: seq<IrEvent>, ctx: Context, comp: string,
                     coverage: set<CoverageEntry>, coverage': set<CoverageEntry>)
    requires forall e :: e in later ==> FromTheEngine(e, ctx)
    requires coverage <= coverage' && Covered(RecordedEvents(log, comp), coverage)
    ensures Covered(RecordedEvents(log + later, comp), coverage')
  {
    hide CoverageEntry.Covers, CoverageEntry.DischargesSubprocessObligation, IsEffectKind, IsSubprocessTool,
      FromTheEngine;
    RecordedConcat(log, later, comp);
    forall e | e in RecordedEvents(later, comp) ensures !IsEffectKind(e.kind) && !IsSubprocessTool(e) {
      EngineHasNoEffects(e, ctx);
    }
    forall kind | CoveredBySome(coverage, kind) ensures CoveredBySome(coverage', kind) {
      var c :| c in coverage && c.Covers(kind);
    }
  }

  /** The node and the attribution a check of the computation reads. */
  lemma WhatIsRead(log: seq<IrEvent>, graph: DerivedGraph, manifests: Manifests, comp: string)
    requires Replayed(log, graph, manifests) && comp in graph.computations
    ensures graph.computations[comp] == NodeOf(Order.Linearize(log), comp)
    ensures AttributionOf(graph, comp).unregistered == {} <==> ProducersOf(Order.Linearize(log), comp) <= manifests.Keys
    ensures forall c :: c in CoverageFor(graph, comp) <==>
              c == EngineCoverageEntry()
              || exists k :: k in ProducersOf(Order.Linearize(log), comp) && k in manifests && manifests[k] == c
  {
    hide NodeOf, ProducersOf, IsReplayOf;
    NodeIsReplayed(log, graph, manifests, comp);
    var keys := ProducersOf(Order.Linearize(log), comp);
    LookupAccountsForEveryProducer(manifests, keys);
  }

  /** With the engine's manifest among the manifests, or no event emitted, nothing the check
      appended stands in the way of evidence that was complete. */
  lemma EvidenceAfter(log: seq<IrEvent>, graph: DerivedGraph, manifests: Manifests, later: seq<IrEvent>,
                      graph': DerivedGraph,
                      ctx: Context, comp: string)
    requires Replayed(log, graph, manifests) && Replayed(log + later, graph', manifests)
    requires forall e :: e in later ==> FromTheEngine(e, ctx)
    requires comp in graph.computations && comp in graph'.computations
    requires graph'.computations[comp].excluded == graph.computations[comp].excluded
    requires EvidenceComplete(log, graph, comp)
    ensures EvidenceComplete(log + later, graph', comp) <==>
            comp != ctx.computation || later == [] || EngineKey() in manifests
  {
    hide IsReplayOf, ProducersOf, RecipeOf, RecordedEvents, CoverageFor, AttributionOf, IsEffectKind, CoveredBySome,
         IsSubprocessTool, HasFsCoveredObserver, EngineKey, FromTheEngine;
    WhatIsRead(log, graph, manifests, comp);
    WhatIsRead(log + later, graph', manifests, comp);
    ProducersAfter(log, later, ctx, comp);
    RecipeAfter(log, later, ctx, comp);
    assert CoverageFor(graph, comp) <= CoverageFor(graph', comp);
    CoveredAfter(log, later, ctx, comp, CoverageFor(graph, comp), CoverageFor(graph', comp));
  }

  // ------------------------------------------------------ one check

  /** The answers of a check of this computation cost it nothing: the probes were faithful, and
      the engine, if it emitted anything, is a registered producer. */
  ghost predicate Harmless(log: seq<IrEvent>, round: Round, manifests: Manifests) {
    && AllFaithful(round.ctx, round.ledger, NodeOf(Order.Linearize(log), round.ctx.computation).dependencies)
    && (Emitted(log, round) == [] || EngineKey() in manifests)
  }

  lemma OutputIsEngine(log: seq<IrEvent>, round: Round)
    ensures forall e :: e in Emitted(log, round) ==> FromTheEngine(e, round.ctx)
  {
    hide NodeOf, EmittedEvents, FromTheEngine;
    EmissionIsBounded(round.ctx, NodeOf(Order.Linearize(log), round.ctx.computation), round.ledger);
  }

  /** Two graphs give a computation the same status if its node and evidence are the same. */
  lemma SameStatus(log: seq<IrEvent>, graph: DerivedGraph, log': seq<IrEvent>, graph': DerivedGraph, ctx: Context,
                   ledger: LedgerState)
    requires ctx.computation in graph.computations && ctx.computation in graph'.computations
    requires Unmoved(graph.computations[ctx.computation], graph'.computations[ctx.computation])
    requires EvidenceComplete(log, graph, ctx.computation) <==> EvidenceComplete(log', graph', ctx.computation)
    ensures TrueStatus(log, graph, ctx, ledger) == TrueStatus(log', graph', ctx, ledger)
  {
    hide EvidenceComplete, Drifts, Conflicted, Supported;
  }

  lemma UsableMeansComplete(log: seq<IrEvent>, graph: DerivedGraph, ctx: Context, ledger: LedgerState)
    requires ctx.computation in graph.computations && TrueStatus(log, graph, ctx, ledger).IsUsable()
    ensures EvidenceComplete(log, graph, ctx.computation)
  {
    hide EvidenceComplete, SomeDrift, AllSupported, AllStrong;
  }

  lemma IncompleteIsUnusable(log: seq<IrEvent>, graph: DerivedGraph, ctx: Context, ledger: LedgerState)
    requires ctx.computation in graph.computations && !EvidenceComplete(log, graph, ctx.computation)
    ensures !TrueStatus(log, graph, ctx, ledger).IsUsable()
  {
    hide EvidenceComplete, SomeDrift, AllSupported, AllStrong;
  }

  lemma StillComputed(log: seq<IrEvent>, graph: DerivedGraph, later: seq<IrEvent>, graph': DerivedGraph,
                      manifests: Manifests, comp: string)
    requires Replayed(log, graph, manifests) && Replayed(log + later, graph', manifests) && comp in graph.computations
    ensures comp in graph'.computations
  {
    hide NodeOf, CoverageOf;
    LinearizedMembers(log);
    LinearizedMembers(log + later);
    var e :| e in Order.Linearize(log) && e.computationId == Some(comp);
    assert e in Order.Linearize(log + later);
  }

  /** Exactly when a usable status survives feeding a check back: when every probe that check
      consulted answered faithfully and, if it emitted anything, the engine's own manifest is
      registered. Then the status is the very same, for every later check. A check of another
      computation never costs it. */
  lemma UsableSurvivesExactlyWhen(log: seq<IrEvent>, graph: DerivedGraph, manifests: Manifests, round: Round,
                                  graph': DerivedGraph,
                                  ctx: Context, ledger: LedgerState)
    requires forall x :: x in log ==> x.ts < round.ctx.now
    requires Replayed(log, graph, manifests) && Replayed(log + Emitted(log, round), graph', manifests)
    requires ctx.computation in graph.computations && TrueStatus(log, graph, ctx, ledger).IsUsable()
    ensures ctx.computation in graph'.computations
    ensures var status := TrueStatus(log + Emitted(log, round), graph', ctx, ledger);
            && (status.IsUsable() <==> ctx.computation != round.ctx.computation || Harmless(log, round, manifests))
            && (status.IsUsable() ==> status == TrueStatus(log, graph, ctx, ledger))
  {
    hide TrueStatus, EvidenceComplete, IsReplayOf, NodeOf, Emitted, AllFaithful, Tainted, FromTheEngine, Unmoved;
    var comp, later := ctx.computation, Emitted(log, round);
    OutputIsEngine(log, round);
    StillComputed(log, graph, later, graph', manifests, comp);
    NodeIsReplayed(log, graph, manifests, comp);
    NodeIsReplayed(log + later, graph', manifests, comp);
    UsableMeansComplete(log, graph, ctx, ledger);
    FedBack(log, round);
    if comp != round.ctx.computation
      || AllFaithful(round.ctx, round.ledger, NodeOf(Order.Linearize(log), round.ctx.computation).dependencies) {
      UnmovedExcluded(graph.computations[comp], graph'.computations[comp]);
      EvidenceAfter(log, graph, manifests, later, graph', round.ctx, comp);
      if EvidenceComplete(log + later, graph', comp) {
        SameStatus(log, graph, log + later, graph', ctx, ledger);
      } else {
        IncompleteIsUnusable(log + later, graph', ctx, ledger);
      }
    } else {
      TaintedIsUnusable(log + later, graph', ctx, ledger);
    }
  }

  lemma UnmovedExcluded(before: ComputationNode, after: ComputationNode)
    requires Unmoved(before, after)
    ensures after.excluded == before.excluded
  {
  }

  /** One round fed back: what moves and what taints. */
  lemma FedBack(log: seq<IrEvent>, round: Round)
    requires forall x :: x in log ==> x.ts < round.ctx.now
    ensures var faithful := AllFaithful(round.ctx, round.ledger,
                                        NodeOf(Order.Linearize(log), round.ctx.computation).dependencies);
            var after := Order.Linearize(log + Emitted(log, round));
            && (faithful ==>
                Unmoved(NodeOf(Order.Linearize(log), round.ctx.computation), NodeOf(after, round.ctx.computation)))
            && (!faithful ==> Tainted(NodeOf(after, round.ctx.computation)))
            && (forall comp :: comp != round.ctx.computation ==>
                Unmoved(NodeOf(Order.Linearize(log), comp), NodeOf(after, comp)))
  {
    hide NodeOf, EmittedEvents, AllFaithful, Tainted, Unmoved;
    FeedbackIsQuietExactlyWhenFaithful(log, round.ctx, round.ledger);
    if !AllFaithful(round.ctx, round.ledger, NodeOf(Order.Linearize(log), round.ctx.computation).dependencies) {
      UnfaithfulAnswersTaint(log, round.ctx, round.ledger);
    }
  }

  // --------------------------------------------------------- determinism

  /** No identifier is carried by two different events. */
  ghost predicate NoDivergence(log: seq<IrEvent>) {
    forall x, y :: x in log && y in log && x.eventId == y.eventId ==> x == y
  }

  /** No event of one sequence carries an identifier of the other. */
  ghost predicate NoSharedId(a: seq<IrEvent>, b: seq<IrEvent>) {
    forall x, y :: x in a && y in b ==> x.eventId != y.eventId
  }

  lemma DeterministicMeansNoDivergence(log: seq<IrEvent>, graph: DerivedGraph, manifests: Manifests)
    requires Replayed(log, graph, manifests)
    ensures graph.IsDeterministic() <==> NoDivergence(log)
  {
    Determinism(log, graph, manifests);
  }

  lemma DivergenceConcat(a: seq<IrEvent>, b: seq<IrEvent>)
    requires forall x, y :: x in a && y in b ==> x != y
    ensures NoDivergence(a + b) <==> NoDivergence(a) && NoDivergence(b) && NoSharedId(a, b)
  {
    assert forall x :: x in a + b <==> x in a || x in b;
  }

  lemma LaterIsDifferent(log: seq<IrEvent>, later: seq<IrEvent>, ctx: Context)
    requires forall x :: x in log ==> x.ts < ctx.now
    requires forall e :: e in later ==> FromTheEngine(e, ctx)
    ensures forall x, y :: x in log && y in later ==> x != y
  {
  }

  /** A check of at most 4096 events never diverges from itself. */
  lemma SmallOutputsDoNotDiverge(log: seq<IrEvent>, round: Round)
    requires |Emitted(log, round)| <= 4096
    ensures NoDivergence(Emitted(log, round))
  {
    hide NodeOf, EmittedEvents;
    var events := Emitted(log, round);
    EmissionIsBounded(round.ctx, NodeOf(Order.Linearize(log), round.ctx.computation), round.ledger);
    forall x, y | x in events && y in events && x.eventId == y.eventId ensures x == y {
      var i :| 0 <= i < |events| && events[i] == x;
      var j :| 0 <= j < |events| && events[j] == y;
    }
  }

  /** The identifiers of a check: the `k`-th event carries the `k`-th identifier of the check's
      millisecond. */
  lemma OutputIds(log: seq<IrEvent>, round: Round)
    ensures Numbered(Emitted(log, round), round.ctx.now, 0)
  {
    hide NodeOf, EngineEventId, EdgesEvaluated, ConflictEvents;
    var ctx, node := round.ctx, NodeOf(Order.Linearize(log), round.ctx.computation);
    var run := EdgesEvaluated(ctx, node.dependencies, round.ledger, |node.dependencies|);
    RunNumbered(ctx, node.dependencies, round.ledger, |node.dependencies|);
    ConflictsNumbered(ctx, node.conflicts, run.sequence);
    NumberedConcat(run.events, ConflictEvents(ctx, node.conflicts, run.sequence), ctx.now, 0);
  }

  /** Exactly when a log with a check's events appended still replays deterministically: when
      the log itself did, the check does not diverge from itself, and no logged event carries
      one of its identifiers, those of the check's millisecond in order. */
  lemma DeterminismSurvivesExactlyWhen(log: seq<IrEvent>, graph: DerivedGraph, manifests: Manifests, round: Round,
                                       graph': DerivedGraph)
    requires forall x :: x in log ==> x.ts < round.ctx.now
    requires Replayed(log, graph, manifests) && Replayed(log + Emitted(log, round), graph', manifests)
    ensures graph'.IsDeterministic() <==>
            && graph.IsDeterministic()
            && NoDivergence(Emitted(log, round))
            && (forall x, k :: x in log && 0 <= k < |Emitted(log, round)| ==>
                  x.eventId != EngineEventId(round.ctx.now, SequenceAfter(0, k)))
  {
    hide IsReplayOf, Emitted, FromTheEngine, EngineEventId, NoDivergence, SequenceAfter;
    var later := Emitted(log, round);
    OutputIsEngine(log, round);
    OutputIds(log, round);
    LaterIsDifferent(log, later, round.ctx);
    DivergenceConcat(log, later);
    DeterministicMeansNoDivergence(log, graph, manifests);
    DeterministicMeansNoDivergence(log + later, graph', manifests);
    assert forall k :: 0 <= k < |later| ==> later[k] in later;
  }

  /** Two checks that both emitted something share an identifier exactly when they fall into
      the same millisecond. */
  lemma SharedExactlyInOneMillisecond(log: seq<IrEvent>, a: Round, log': seq<IrEvent>, b: Round)
    requires Emitted(log, a) != [] && Emitted(log', b) != []
    ensures NoSharedId(Emitted(log, a), Emitted(log', b)) <==> MillisField(a.ctx.now) != MillisField(b.ctx.now)
  {
    hide Emitted, EngineEventId, MillisField;
    var x, y := Emitted(log, a), Emitted(log', b);
    OutputIds(log, a);
    OutputIds(log', b);
    EngineIdCollisions(a.ctx.now, 0, b.ctx.now, 0);
    assert x[0] in x && y[0] in y;
    if MillisField(a.ctx.now) != MillisField(b.ctx.now) {
      forall e, f | e in x && f in y ensures e.eventId != f.eventId {
        var i :| 0 <= i < |x| && x[i] == e;
        var j :| 0 <= j < |y| && y[j] == f;
        EngineIdCollisions(a.ctx.now, SequenceAfter(0, i), b.ctx.now, SequenceAfter(0, j));
      }
    }
  }

  // ---------------------------------------------------------- many checks

  /** What the `k`-th of these checks emits. */
  ghost function OutputOf(log: seq<IrEvent>, rounds: seq<Round>, k: nat): seq<IrEvent>
    requires k < |rounds|
  {
    Emitted(LogAfter(log, rounds[..k]), rounds[k])
  }

  /** Identifiers collide nowhere: not within a check, not with the original log, and not
      between two checks that emitted something in one millisecond. */
  ghost predicate IdsStayApart(log: seq<IrEvent>, rounds: seq<Round>) {
    && (forall k :: 0 <= k < |rounds| ==>
        NoDivergence(OutputOf(log, rounds, k)) && NoSharedId(log, OutputOf(log, rounds, k)))
    && (forall j, k :: 0 <= j < k < |rounds| && OutputOf(log, rounds, j) != [] && OutputOf(log, rounds, k) != [] ==>
          MillisField(rounds[j].ctx.now) != MillisField(rounds[k].ctx.now))
  }

  lemma OutputOfPrefix(log: seq<IrEvent>, rounds: seq<Round>, m: nat, k: nat)
    requires k < m <= |rounds|
    ensures OutputOf(log, rounds[..m], k) == OutputOf(log, rounds, k)
  {
    hide Emitted, LogAfter;
    assert rounds[..m][..k] == rounds[..k];
  }

  /** The log after the checks holds the original events and those of each check. */
  lemma {:induction false} LogAfterMembers(log: seq<IrEvent>, rounds: seq<Round>)
    ensures forall e :: e in LogAfter(log, rounds) <==>
              e in log || exists k :: 0 <= k < |rounds| && e in OutputOf(log, rounds, k)
  {
    hide Emitted, OutputOf;
    if rounds != [] {
      var n := |rounds| - 1;
      LogAfterMembers(log, rounds[..n]);
      forall k | 0 <= k < n ensures OutputOf(log, rounds[..n], k) == OutputOf(log, rounds, k) {
        OutputOfPrefix(log, rounds, n, k);
      }
      assert LogAfter(log, rounds) == LogAfter(log, rounds[..n])
             + OutputOf(log, rounds, n) by { LastOutput(log, rounds); }
      forall e | e in LogAfter(log, rounds)
        ensures e in log || exists k :: 0 <= k < |rounds| && e in OutputOf(log, rounds, k)
      {
        assert e in LogAfter(log, rounds[..n]) || e in OutputOf(log, rounds, n);
      }
    }
  }

  lemma LastOutput(log: seq<IrEvent>, rounds: seq<Round>)
    requires rounds != []
    ensures var n := |rounds| - 1;
            LogAfter(log, rounds) == LogAfter(log, rounds[..n]) + OutputOf(log, rounds, n)
  {
  }

  lemma SharedWithEarlier(log: seq<IrEvent>, rounds: seq<Round>)
    requires rounds != []
    ensures var n := |rounds| - 1;
            NoSharedId(LogAfter(log, rounds[..n]), OutputOf(log, rounds, n)) <==>
            && NoSharedId(log, OutputOf(log, rounds, n))
            && (forall j :: 0 <= j < n ==> NoSharedId(OutputOf(log, rounds, j), OutputOf(log, rounds, n)))
  {
    hide Emitted, OutputOf, LogAfter;
    var n := |rounds| - 1;
    LogAfterMembers(log, rounds[..n]);
    forall k | 0 <= k < n ensures OutputOf(log, rounds[..n], k) == OutputOf(log, rounds, k) {
      OutputOfPrefix(log, rounds, n, k);
    }
    if NoSharedId(LogAfter(log, rounds[..n]), OutputOf(log, rounds, n)) {
      forall j | 0 <= j < n ensures NoSharedId(OutputOf(log, rounds, j), OutputOf(log, rounds, n)) {
        assert forall x :: x in OutputOf(log, rounds[..n], j) ==> x in LogAfter(log, rounds[..n]);
      }
    }
  }

  lemma OutputsShare(log: seq<IrEvent>, rounds: seq<Round>, j: nat, k: nat)
    requires j < k < |rounds|
    ensures NoSharedId(OutputOf(log, rounds, j), OutputOf(log, rounds, k)) <==>
            (OutputOf(log, rounds, j) != [] && OutputOf(log, rounds, k) != [] ==>
               MillisField(rounds[j].ctx.now) != MillisField(rounds[k].ctx.now))
  {
    hide Emitted, LogAfter, MillisField;
    if OutputOf(log, rounds, j) != [] && OutputOf(log, rounds, k) != [] {
      SharedExactlyInOneMillisecond(LogAfter(log, rounds[..j]), rounds[j], LogAfter(log, rounds[..k]), rounds[k]);
    }
  }

  lemma ApartStep(log: seq<IrEvent>, rounds: seq<Round>)
    requires rounds != []
    ensures var n := |rounds| - 1;
            IdsStayApart(log, rounds) <==>
            && IdsStayApart(log, rounds[..n])
            && NoDivergence(OutputOf(log, rounds, n))
            && NoSharedId(LogAfter(log, rounds[..n]), OutputOf(log, rounds, n))
  {
    hide OutputOf, LogAfter, MillisField, NoDivergence, NoSharedId;
    var n := |rounds| - 1;
    forall k | 0 <= k < n
      ensures OutputOf(log, rounds[..n], k) == OutputOf(log, rounds, k) && rounds[..n][k] == rounds[k] {
      OutputOfPrefix(log, rounds, n, k);
    }
    SharedWithEarlier(log, rounds);
    forall j | 0 <= j < n {
      OutputsShare(log, rounds, j, n);
    }
  }

  /** Exactly when the log after any number of checks still replays deterministically: when it
      did before them and their identifiers stay apart. Two checks in one millisecond are
      enough to lose it, if both emitted anything. */
  lemma {:induction false} RunsStayDeterministicExactlyWhen(log: seq<IrEvent>, rounds: seq<Round>)
    requires EachLater(log, rounds)
    ensures NoDivergence(LogAfter(log, rounds)) <==> NoDivergence(log) && IdsStayApart(log, rounds)
  {
    hide NoDivergence, NoSharedId, OutputOf, IdsStayApart, FromTheEngine;
    if rounds == [] {
      NothingApart(log, rounds);
    } else {
      var n := |rounds| - 1;
      var before, later := LogAfter(log, rounds[..n]), OutputOf(log, rounds, n);
      RoundLater(log, rounds);
      RunsStayDeterministicExactlyWhen(log, rounds[..n]);
      LastOutput(log, rounds);
      OutputOfIsEngine(log, rounds, n);
      LaterIsDifferent(before, later, rounds[n].ctx);
      DivergenceConcat(before, later);
      ApartStep(log, rounds);
    }
  }

  lemma NothingApart(log: seq<IrEvent>, rounds: seq<Round>)
    requires rounds == []
    ensures IdsStayApart(log, rounds)
  {
  }

  lemma OutputOfIsEngine(log: seq<IrEvent>, rounds: seq<Round>, k: nat)
    requires k < |rounds|
    ensures forall e :: e in OutputOf(log, rounds, k) ==> FromTheEngine(e, rounds[k].ctx)
  {
    hide Emitted, FromTheEngine, LogAfter;
    OutputIsEngine(LogAfter(log, rounds[..k]), rounds[k]);
  }

  // -------------------------------------------------- verdicts in the end

  /** Every check of the computation was answered faithfully, judged against its original
      edges, and the engine is registered if any of them emitted anything. */
  ghost predicate HarmlessThroughout(log: seq<IrEvent>, rounds: seq<Round>, manifests: Manifests, comp: string) {
    forall k :: 0 <= k < |rounds| && rounds[k].ctx.computation == comp ==>
      && AllFaithful(rounds[k].ctx, rounds[k].ledger, NodeOf(Order.Linearize(log), comp).dependencies)
      && (OutputOf(log, rounds, k) == [] || EngineKey() in manifests)
  }

  /** Something no later event can repair stands against the computation. */
  ghost predicate Broken(log: seq<IrEvent>, manifests: Manifests, comp: string) {
    Tainted(NodeOf(Order.Linearize(log), comp)) || !(ProducersOf(Order.Linearize(log), comp) <= manifests.Keys)
  }

  lemma BrokenIsUnusable(log: seq<IrEvent>, graph: DerivedGraph, manifests: Manifests, ctx: Context,
                         ledger: LedgerState)
    requires Replayed(log, graph, manifests) && ctx.computation in graph.computations
             && Broken(log, manifests, ctx.computation)
    ensures !TrueStatus(log, graph, ctx, ledger).IsUsable()
  {
    hide IsReplayOf, NodeOf, ProducersOf, Tainted, TrueStatus, RecordedEvents, CoverageFor, AttributionOf;
    WhatIsRead(log, graph, manifests, ctx.computation);
    if Tainted(NodeOf(Order.Linearize(log), ctx.computation)) {
      TaintedIsUnusable(log, graph, ctx, ledger);
    } else {
      IncompleteIsUnusable(log, graph, ctx, ledger);
    }
  }

  lemma BrokenPersists(log: seq<IrEvent>, round: Round, manifests: Manifests, comp: string)
    requires forall x :: x in log ==> x.ts < round.ctx.now
    requires Broken(log, manifests, comp)
    ensures Broken(log + Emitted(log, round), manifests, comp)
  {
    hide NodeOf, ProducersOf, Tainted, Emitted, Extends, FromTheEngine;
    OutputIsEngine(log, round);
    ProducersAfter(log, Emitted(log, round), round.ctx, comp);
    ExtendsAfterRound(log, round, comp);
    if Tainted(NodeOf(Order.Linearize(log), comp)) {
      TaintExtends(NodeOf(Order.Linearize(log), comp), NodeOf(Order.Linearize(log + Emitted(log, round)), comp));
    }
  }

  lemma HarmfulBreaks(log: seq<IrEvent>, round: Round, manifests: Manifests)
    requires forall x :: x in log ==> x.ts < round.ctx.now
    requires !Harmless(log, round, manifests)
    ensures Broken(log + Emitted(log, round), manifests, round.ctx.computation)
  {
    hide NodeOf, ProducersOf, Tainted, Emitted, FromTheEngine, AllFaithful, EngineKey;
    OutputIsEngine(log, round);
    ProducersAfter(log, Emitted(log, round), round.ctx, round.ctx.computation);
    FedBack(log, round);
  }

  /** The status of a computation in the replay of a log. */
  ghost function StatusIn(log: seq<IrEvent>, manifests: Manifests, ctx: Context, ledger: LedgerState): Status
    requires ctx.computation in ReplayOf(log, manifests).computations
  {
    TrueStatus(log, ReplayOf(log, manifests), ctx, ledger)
  }

  lemma HarmlessStep(log: seq<IrEvent>, rounds: seq<Round>, manifests: Manifests, comp: string)
    requires rounds != []
    ensures var n := |rounds| - 1;
            HarmlessThroughout(log, rounds, manifests, comp) <==>
            && HarmlessThroughout(log, rounds[..n], manifests, comp)
            && (rounds[n].ctx.computation == comp ==>
                  && AllFaithful(rounds[n].ctx, rounds[n].ledger, NodeOf(Order.Linearize(log), comp).dependencies)
                  && (OutputOf(log, rounds, n) == [] || EngineKey() in manifests))
  {
    hide NodeOf, AllFaithful, OutputOf, EngineKey;
    var n := |rounds| - 1;
    forall k | 0 <= k < n
      ensures OutputOf(log, rounds[..n], k) == OutputOf(log, rounds, k) && rounds[..n][k] == rounds[k] {
      OutputOfPrefix(log, rounds, n, k);
    }
  }

  /** The state of a computation after some checks: unharmed and with its status, or broken. */
  ghost predicate Settled(log: seq<IrEvent>, rounds: seq<Round>, manifests: Manifests, ctx: Context,
                          ledger: LedgerState)
    requires ctx.computation in ReplayOf(log, manifests).computations
  {
    var comp, after := ctx.computation, LogAfter(log, rounds);
    && comp in ReplayOf(after, manifests).computations
    && if HarmlessThroughout(log, rounds, manifests, comp)
       then && Unmoved(NodeOf(Order.Linearize(log), comp), NodeOf(Order.Linearize(after), comp))
            && StatusIn(after, manifests, ctx, ledger) == StatusIn(log, manifests, ctx, ledger)
       else Broken(after, manifests, comp)
  }

  lemma {:induction false} ChecksSettle(log: seq<IrEvent>, rounds: seq<Round>, manifests: Manifests, ctx: Context,
                                        ledger: LedgerState)
    requires EachLater(log, rounds) && FiledByKey(manifests)
    requires ctx.computation in ReplayOf(log, manifests).computations
             && StatusIn(log, manifests, ctx, ledger).IsUsable()
    ensures Settled(log, rounds, manifests, ctx, ledger)
  {
    hide LogAfter, NodeOf, StatusIn, HarmlessThroughout, Broken, ReplayOf, OutputOf, Settled;
    if rounds == [] {
      NothingSettled(log, rounds, manifests, ctx, ledger);
    } else {
      ChecksSettle(log, rounds[..|rounds| - 1], manifests, ctx, ledger) by { RoundLater(log, rounds); }
      SettleStep(log, rounds, manifests, ctx, ledger);
    }
  }

  lemma NothingSettled(log: seq<IrEvent>, rounds: seq<Round>, manifests: Manifests, ctx: Context, ledger: LedgerState)
    requires rounds == [] && ctx.computation in ReplayOf(log, manifests).computations
    ensures Settled(log, rounds, manifests, ctx, ledger)
  {
    hide NodeOf, StatusIn, Broken, ReplayOf;
  }

  lemma SettleStep(log: seq<IrEvent>, rounds: seq<Round>, manifests: Manifests, ctx: Context, ledger: LedgerState)
    requires rounds != [] && EachLater(log, rounds) && FiledByKey(manifests)
    requires ctx.computation in ReplayOf(log, manifests).computations
             && StatusIn(log, manifests, ctx, ledger).IsUsable()
    requires Settled(log, rounds[..|rounds| - 1], manifests, ctx, ledger)
    ensures Settled(log, rounds, manifests, ctx, ledger)
  {
    hide LogAfter, NodeOf, HarmlessThroughout, Broken, ReplayOf, Emitted, TrueStatus, IsReplayOf, AllFaithful,
      EngineKey, Unmoved;
    var n, comp := |rounds| - 1, ctx.computation;
    var round, before, after := rounds[n], LogAfter(log, rounds[..n]), LogAfter(log, rounds);
    RoundLater(log, rounds);
    LastOutput(log, rounds);
    HarmlessStep(log, rounds, manifests, comp);
    StillComputed(before, ReplayOf(before, manifests), Emitted(before, round), ReplayOf(after, manifests),
                  manifests, comp);
    if HarmlessThroughout(log, rounds[..n], manifests, comp) {
      SameEdges(NodeOf(Order.Linearize(log), comp), NodeOf(Order.Linearize(before), comp));
      UsableSurvivesExactlyWhen(before, ReplayOf(before, manifests), manifests, round, ReplayOf(after, manifests), ctx,
                                ledger);
      FedBack(before, round);
      if HarmlessThroughout(log, rounds, manifests, comp) {
        UnmovedTwice(NodeOf(Order.Linearize(log), comp), NodeOf(Order.Linearize(before), comp),
                     NodeOf(Order.Linearize(after), comp));
      } else {
        HarmfulBreaks(before, round, manifests);
      }
    } else {
      BrokenPersists(before, round, manifests, comp);
    }
  }

  lemma SameEdges(before: ComputationNode, after: ComputationNode)
    requires Unmoved(before, after)
    ensures after.dependencies == before.dependencies
  {
  }

  lemma UnmovedTwice(a: ComputationNode, b: ComputationNode, c: ComputationNode)
    requires Unmoved(a, b) && Unmoved(b, c)
    ensures Unmoved(a, c)
  {
  }

  /** Exactly when a usable status survives any number of checks fed back, of any computations
      and with any ledgers: when each check of this computation was answered faithfully and
      the engine is registered if any of them emitted anything. Then it is the very same. */
  lemma UsableSurvivesChecksExactlyWhen(log: seq<IrEvent>, rounds: seq<Round>, manifests: Manifests, ctx: Context,
                                        ledger: LedgerState)
    requires EachLater(log, rounds) && FiledByKey(manifests)
    requires ctx.computation in ReplayOf(log, manifests).computations
             && StatusIn(log, manifests, ctx, ledger).IsUsable()
    ensures ctx.computation in ReplayOf(LogAfter(log, rounds), manifests).computations
    ensures var status := StatusIn(LogAfter(log, rounds), manifests, ctx, ledger);
            && (status.IsUsable() <==> HarmlessThroughout(log, rounds, manifests, ctx.computation))
            && (status.IsUsable() ==> status == StatusIn(log, manifests, ctx, ledger))
  {
    hide LogAfter, NodeOf, HarmlessThroughout, Broken, ReplayOf, TrueStatus, IsReplayOf, Unmoved;
    ChecksSettle(log, rounds, manifests, ctx, ledger);
    if !HarmlessThroughout(log, rounds, manifests, ctx.computation) {
      BrokenIsUnusable(LogAfter(log, rounds), ReplayOf(LogAfter(log, rounds), manifests), manifests, ctx, ledger);
    }
  }

  // ------------------------------------------------- certificates in the end

  lemma {:induction false} LogIsKept(log: seq<IrEvent>, rounds: seq<Round>)
    ensures log <= LogAfter(log, rounds)
  {
    hide Emitted;
    if rounds != [] {
      LogIsKept(log, rounds[..|rounds| - 1]);
    }
  }

  lemma {:induction false} ArtifactEventKept(short: seq<IrEvent>, long: seq<IrEvent>, comp: string, artifact: string)
    requires short <= long && ArtifactEvent(short, comp, artifact).Some?
    ensures ArtifactEvent(long, comp, artifact) == ArtifactEvent(short, comp, artifact)
  {
    hide ProducesArtifact;
    if !ProducesArtifact(short[0], comp, artifact) {
      ArtifactEventKept(short[1..], long[1..], comp, artifact);
    }
  }

  /** Engine events produce no artifact, so claims and their descriptions stay as they were. */
  lemma ClaimsAreKept(log: seq<IrEvent>, rounds: seq<Round>, manifests: Manifests, artifact: string)
    requires FiledByKey(manifests)
    ensures Claimants(ReplayOf(LogAfter(log, rounds), manifests), artifact)
            == Claimants(ReplayOf(log, manifests), artifact)
    ensures forall comp :: comp in Claimants(ReplayOf(log, manifests), artifact) ==>
              ArtifactFound(LogAfter(log, rounds), comp, artifact) == ArtifactFound(log, comp, artifact)
  {
    hide LogAfter, ReplayOf, IsReplayOf, Claimants, OutputOf, ProducesArtifact, ArtifactEvent, RecordOf;
    var after := LogAfter(log, rounds);
    ClaimantsProduced(log, ReplayOf(log, manifests), manifests, artifact);
    ClaimantsProduced(after, ReplayOf(after, manifests), manifests, artifact);
    LogAfterMembers(log, rounds);
    LogIsKept(log, rounds);
    forall comp, e | e in after && ProducesArtifact(e, comp, artifact) ensures e in log {
      if e !in log {
        var k :| 0 <= k < |rounds| && e in OutputOf(log, rounds, k);
        OutputOfIsEngine(log, rounds, k);
        EngineProducesNothing(e, rounds[k].ctx, comp, artifact);
      }
    }
    forall comp ensures comp in Claimants(ReplayOf(after, manifests), artifact) <==>
      comp in Claimants(ReplayOf(log, manifests), artifact) {
    }
    forall comp | comp in Claimants(ReplayOf(log, manifests), artifact)
      ensures ArtifactFound(after, comp, artifact) == ArtifactFound(log, comp, artifact)
    {
      ArtifactEventMeaning(log, comp, artifact);
      ArtifactEventKept(log, after, comp, artifact);
    }
  }

  lemma EngineProducesNothing(e: IrEvent, ctx: Context, comp: string, artifact: string)
    requires FromTheEngine(e, ctx)
    ensures !ProducesArtifact(e, comp, artifact)
  {
  }

  lemma SealedExactlyWhenFound(log: seq<IrEvent>, graph: DerivedGraph, manifests: Manifests, ctx: Context,
                               ledger: LedgerState, artifact: string)
    requires Replayed(log, graph, manifests) && ctx.computation in graph.computations
    requires artifact in graph.computations[ctx.computation].artifacts
    ensures CheckedFor(log, graph, ctx, ledger, artifact).Ok? <==> ArtifactFound(log, ctx.computation, artifact).Ok?
  {
    hide IsReplayOf, CheckedFor, ArtifactFound, Sealed, DueInput, DueStatus, NodeWellRecorded;
    CheckedForIsSealed(log, graph, manifests, ctx, ledger, artifact);
  }

  /** A check issues a certificate exactly when the log replays deterministically, one
      computation produced the artifact, and its first production describes it. */
  lemma CertifiedExactlyWhen(log: seq<IrEvent>, graph: DerivedGraph, manifests: Manifests, regs: Registrations,
                             ledger: LedgerState,
                             maxTtl: nat, now: Instant, world: World, artifact: string)
    requires Replayed(log, graph, manifests)
    ensures Checked(log, graph, regs, ledger, maxTtl, now, world, artifact).0.Ok? <==>
            && NoDivergence(log)
            && exists comp :: Sole(Claimants(graph, artifact), comp) && ArtifactFound(log, comp, artifact).Ok?
  {
    hide IsReplayOf, Claimants, ProducedIn, CheckedFor, ArtifactFound, EdgesEvaluated, NoDivergence, Sole,
      DerivedGraph.IsDeterministic;
    DeterministicMeansNoDivergence(log, graph, manifests);
    var claimants := Claimants(graph, artifact);
    if graph.IsDeterministic() {
      if comp :| Sole(claimants, comp) {
        SoleIsMember(claimants, comp);
        ClaimantsAreComputations(graph, artifact, comp);
        SealedExactlyWhenFound(log, graph, manifests, Context(comp, now, regs, maxTtl, world), ledger, artifact);
      }
    }
  }

  /** From the outside: an artifact with a usable certificate still gets one, from the same
      later question, after any number of checks have been fed back exactly when the checks of
      its computation were harmless and no identifiers collided. Then the verdict is the
      same. */
  lemma CertificateSurvivesChecksExactlyWhen(log: seq<IrEvent>, rounds: seq<Round>, manifests: Manifests,
                                             regs: Registrations,
                                             ledger: LedgerState, maxTtl: nat, now: Instant, world: World,
                                               artifact: string, comp: string)
    requires EachLater(log, rounds) && FiledByKey(manifests)
    requires Sole(Claimants(ReplayOf(log, manifests), artifact), comp)
    requires var first := Checked(log, ReplayOf(log, manifests), regs, ledger, maxTtl, now, world, artifact).0;
             first.Ok? && first.value.certificate.status.IsUsable()
    ensures var first := Checked(log, ReplayOf(log, manifests), regs, ledger, maxTtl, now, world, artifact).0;
            var after := LogAfter(log, rounds);
            var again := Checked(after, ReplayOf(after, manifests), regs, ledger, maxTtl, now, world, artifact).0;
            && (again.Ok? && again.value.certificate.status.IsUsable() <==>
                  HarmlessThroughout(log, rounds, manifests, comp) && IdsStayApart(log, rounds))
            && (again.Ok? && again.value.certificate.status.IsUsable() ==>
                  again.value.certificate.status == first.value.certificate.status)
  {
    hide Checked, LogAfter, ReplayOf, IsReplayOf, Claimants, HarmlessThroughout, IdsStayApart, TrueStatus,
      ArtifactFound,
         NoDivergence, EachLater, EmittedEvents;
    var graph, after := ReplayOf(log, manifests), LogAfter(log, rounds);
    var ctx := Context(comp, now, regs, maxTtl, world);
    CertificateIsTrue(log, graph, manifests, regs, ledger, maxTtl, now, world, artifact);
    CertifiedExactlyWhen(log, graph, manifests, regs, ledger, maxTtl, now, world, artifact);
    CertifiedExactlyWhen(after, ReplayOf(after, manifests), manifests, regs, ledger, maxTtl, now, world, artifact);
    ClaimsAreKept(log, rounds, manifests, artifact);
    RunsStayDeterministicExactlyWhen(log, rounds);
    UsableSurvivesChecksExactlyWhen(log, rounds, manifests, ctx, ledger);
    SoleIsMember(Claimants(graph, artifact), comp);
    if IdsStayApart(log, rounds) {
      CertificateIsTrue(after, ReplayOf(after, manifests), manifests, regs, ledger, maxTtl, now, world, artifact);
    }
  }

  lemma SoleIsMember(claimants: set<string>, comp: string)
    requires Sole(claimants, comp)
    ensures comp in claimants && forall c :: Sole(claimants, c) ==> c == comp
  {
    assert comp in claimants;
  }
}
