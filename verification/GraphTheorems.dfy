/** What the derived graph means in terms of the canonical events alone. */
module GraphTheorems {
  import opened Wrappers
  import opened Dependencies
  import opened Paths
  import opened Ir
  import opened Coverage
  import opened Graph
  import opened Replays
  import opened ReverseIndex
  import opened FirstWins
  import opened NodeLists
  import Order

  // --------------------------------------------------- reference readings

  /** The paths a computation wrote among the first `n` canonical events. */
  ghost function OwnWrites(events: seq<IrEvent>, comp: string, n: nat): set<Path>
    requires n <= |events|
  {
    set m | 0 <= m < n && events[m].computationId == Some(comp)
      && WrittenPath(events[m]).Some? :: WrittenPath(events[m]).value
  }

  /** The last artifact another computation produced at `path` among the first `n` events. */
  ghost function LatestProducer(events: seq<IrEvent>, path: Path, comp: string, n: nat): Option<string>
    requires n <= |events|
  {
    if n == 0 then None
    else
      match ArtifactOf(events[n - 1], n - 1)
      case Some(a) =>
        if a.path == path && a.computation != Some(comp) then Some(a.artifact)
        else LatestProducer(events, path, comp, n - 1)
      case None => LatestProducer(events, path, comp, n - 1)
  }

  /** How the `n`-th canonical event counts for a computation. */
  ghost function OutcomeAt(events: seq<IrEvent>, comp: string, n: nat): Option<Outcome>
    requires n < |events|
  {
    if events[n].computationId == Some(comp)
    then Some(Classify(events[n], n, OwnWrites(events, comp, n), ArtifactPaths(events), comp))
    else None
  }

  /** What the canonical events let one computation observe, position by position. */
  ghost function ObservationsOf(events: seq<IrEvent>, comp: string): (obs: Observations)
    ensures |obs| == |events|
    ensures forall n :: 0 <= n < |events| ==> obs[n] == ObservationAt(events, comp, n)
  {
    seq(|events|, n requires 0 <= n < |events| => ObservationAt(events, comp, n))
  }

  ghost function ObservationAt(events: seq<IrEvent>, comp: string, n: nat): Option<Observation>
    requires n < |events|
  {
    match OutcomeAt(events, comp, n)
    case Some(Edge(dependency)) => Some(Observation(dependency, events[n].eventId))
    case _ => None
  }

  // -------------------------------------------------------- own writes

  lemma {:induction false} WrittenIsOwnWrites(events: seq<IrEvent>, artifacts: seq<ArtifactAt>, comp: string, n: nat)
    requires n <= |events|
    ensures ProgressAfter(events, artifacts, comp, n).written == OwnWrites(events, comp, n)
  {
    hide Classify, Book;
    if n > 0 {
      WrittenIsOwnWrites(events, artifacts, comp, n - 1);
    }
  }

  lemma ArtifactKeepsPosition(e: IrEvent, position: nat)
    ensures ArtifactOf(e, position).Some? ==> ArtifactOf(e, position).value.position == position
  {
  }

  lemma ArtifactPathsStep(events: seq<IrEvent>, path: Path, comp: string, position: nat)
    requires events != []
    ensures var last := |events| - 1;
            var found := ArtifactOf(events[last], last);
            ProducingArtifact(ArtifactPaths(events), path, position, comp)
            == if found.Some? && Produces(found.value, path, position, comp) then Some(found.value.artifact)
               else ProducingArtifact(ArtifactPaths(events[..last]), path, position, comp)
  {
    var last := |events| - 1;
    var init := ArtifactPaths(events[..last]);
    match ArtifactOf(events[last], last) {
      case None => assert ArtifactPaths(events) == init;
      case Some(a) => assert ArtifactPaths(events) == init + [a] && (init + [a])[..|init|] == init;
    }
  }

  lemma {:induction false} ProducerBefore(events: seq<IrEvent>, path: Path, comp: string, n: nat, position: nat)
    requires n <= |events| <= position || n == position <= |events|
    ensures n == |events| || n == position ==>
              ProducingArtifact(ArtifactPaths(events), path, position, comp) == LatestProducer(events, path, comp, n)
    decreases |events|
  {
    hide ArtifactOf;
    if events != [] {
      var last := |events| - 1;
      ArtifactKeepsPosition(events[last], last);
      ArtifactPathsStep(events, path, comp, position);
      if n == |events| {
        ProducerBefore(events[..last], path, comp, last, position);
        LatestProducerPrefix(events[..last], events, path, comp, last);
      } else if n == position {
        ProducerBefore(events[..last], path, comp, n, position);
        LatestProducerPrefix(events[..last], events, path, comp, n);
      }
    }
  }

  lemma ArtifactPathsLocated(events: seq<IrEvent>, path: Path, comp: string, n: nat)
    requires n <= |events|
    ensures ProducingArtifact(ArtifactPaths(events), path, n, comp) == LatestProducer(events, path, comp, n)
  {
    ProducerBefore(events, path, comp, n, n);
  }

  lemma {:induction false} LatestProducerPrefix(short: seq<IrEvent>, long: seq<IrEvent>, path: Path, comp: string,
                                                n: nat)
    requires short <= long && n <= |short|
    ensures LatestProducer(short, path, comp, n) == LatestProducer(long, path, comp, n)
  {
    if n > 0 {
      LatestProducerPrefix(short, long, path, comp, n - 1);
    }
  }

  /** The last of the first `n` events to produce the path elsewhere is the `m`-th. */
  predicate ProducedLast(events: seq<IrEvent>, path: Path, comp: string, n: nat, m: nat)
    requires n <= |events|
  {
    m < n && ProducesElsewhere(events[m], path, comp)
      && forall k :: m < k < n ==> !ProducesElsewhere(events[k], path, comp)
  }

  /** What `LatestProducer` finds: an earlier production at that path by another
      computation, with none in between. */
  lemma {:induction false} LatestProducerIsLatest(events: seq<IrEvent>, path: Path, comp: string, n: nat)
    requires n <= |events|
    ensures var producer := LatestProducer(events, path, comp, n);
            && (producer.None? <==> forall m :: 0 <= m < n ==> !ProducesElsewhere(events[m], path, comp))
            && (forall m :: 0 <= m < n && ProducedLast(events, path, comp, n, m) ==>
                  producer == events[m].payload.Text("artifact_id"))
  {
    hide ProducesElsewhere, LatestProducer;
    if n == 0 {
      NoneProduced(events, path, comp);
    } else {
      LatestProducerIsLatest(events, path, comp, n - 1);
      LatestProducerStep(events, path, comp, n - 1);
      forall m | 0 <= m < n && ProducedLast(events, path, comp, n, m)
        ensures LatestProducer(events, path, comp, n) == events[m].payload.Text("artifact_id")
      {
        if m < n - 1 {
          assert ProducedLast(events, path, comp, n - 1, m);
        }
      }
    }
  }

  lemma NoneProduced(events: seq<IrEvent>, path: Path, comp: string)
    ensures LatestProducer(events, path, comp, 0).None?
  {
  }

  lemma LatestProducerStep(events: seq<IrEvent>, path: Path, comp: string, n: nat)
    requires n < |events|
    ensures LatestProducer(events, path, comp, n + 1)
            == if ProducesElsewhere(events[n], path, comp) then events[n].payload.Text("artifact_id")
               else LatestProducer(events, path, comp, n)
    ensures ProducesElsewhere(events[n], path, comp) ==> events[n].payload.Text("artifact_id").Some?
  {
  }

  predicate ProducesElsewhere(e: IrEvent, path: Path, comp: string) {
    && e.kind.ArtifactProduced?
    && e.payload.Text("artifact_id").Some?
    && e.payload.Text("path").Some?
    && Components(e.payload.Text("path").value) == path
    && e.computationId != Some(comp)
  }

  /** Own writes are judged in canonical order. A decodable read is set aside as a read of
      the computation's own output exactly when an earlier canonical write of the same
      computation names that path; otherwise a pure hashed read is a dependency, produced
      by the latest earlier artifact another computation left at that path. */
  lemma OwnWritesJudgedInOrder(events: seq<IrEvent>, comp: string, n: nat)
    requires n < |events| && events[n].computationId == Some(comp)
    requires events[n].kind.FsRead? && events[n].decoded.ReadPayload?
    ensures var read := events[n].decoded;
            var path := Components(read.path);
            var outcome := OutcomeAt(events, comp, n).value;
            var wroteBefore := exists m :: 0 <= m < n && events[m].computationId == Some(comp)
                                           && WrittenPath(events[m]) == Some(path);
            && (outcome.Excluded? && outcome.excludedEdge.reason.ReadAfterOwnWrite? <==> wroteBefore)
            && (outcome.Edge? <==> !wroteBefore && !read.impure && read.hash.Some?)
            && (outcome.Edge? ==>
                  outcome.dependency == ExactFile(read.path, read.hash.value, events[n].ts)
                                        .(producedBy := LatestProducer(events, path, comp, n)))
  {
    hide ArtifactPaths, ProducingArtifact, LatestProducer, Components, WrittenPath, ExactFile, FileKey;
    var path := Components(events[n].decoded.path);
    ArtifactPathsLocated(events, path, comp, n);
    assert path in OwnWrites(events, comp, n) <==>
           exists m :: 0 <= m < n && events[m].computationId == Some(comp) && WrittenPath(events[m]) == Some(path);
  }

  // ------------------------------------------- first observation wins

  /** One canonical event moves a computation's node by booking how it counts. */
  lemma StepBooksOutcome(events: seq<IrEvent>, comp: string, n: nat)
    requires n < |events|
    ensures var before := ProgressAfter(events, ArtifactPaths(events), comp, n);
            var after := ProgressAfter(events, ArtifactPaths(events), comp, n + 1);
            match OutcomeAt(events, comp, n)
            case None => after == before
            case Some(outcome) => (after.node, after.index) == Book(before.node, before.index, events[n], outcome)
  {
    hide Classify, Book;
    WrittenIsOwnWrites(events, ArtifactPaths(events), comp, n);
  }

  lemma NothingYet(events: seq<IrEvent>, comp: string)
    ensures ProgressAfter(events, ArtifactPaths(events), comp, 0) == Nothing(comp)
  {
  }

  lemma ObservationStep(events: seq<IrEvent>, comp: string, n: nat)
    requires n < |events|
    ensures var before := ProgressAfter(events, ArtifactPaths(events), comp, n);
            var after := ProgressAfter(events, ArtifactPaths(events), comp, n + 1);
            (after.node.dependencies, after.node.conflicts, after.index)
            == match ObservationAt(events, comp, n)
               case None => (before.node.dependencies, before.node.conflicts, before.index)
               case Some(o) => BookEdge(before.node.dependencies, before.node.conflicts, before.index, o.event,
                                        o.dependency)
  {
    hide ProgressAfter, Classify, BookEdge;
    StepBooksOutcome(events, comp, n);
  }

  /** Replay's per-computation fold books exactly the observations. */
  lemma {:induction false} FoldBooksObservations(events: seq<IrEvent>, comp: string, n: nat)
    requires n <= |events|
    ensures var p := ProgressAfter(events, ArtifactPaths(events), comp, n);
            (p.node.dependencies, p.node.conflicts, p.index) == Booked(ObservationsOf(events, comp), n)
  {
    hide ProgressAfter, ObservationsOf, ObservationAt, BookEdge;
    if n == 0 {
      NothingYet(events, comp);
    } else {
      FoldBooksObservations(events, comp, n - 1);
      ObservationStep(events, comp, n - 1);
    }
  }

  /** First observation wins and disagreement is never lost. In every node the retained
      dependencies are the first canonical observation of each identity, in order and
      unique by identity; and the conflicts are exactly the later observations that differ
      from that first one in fingerprint or trust class, one record each, naming both
      events. */
  lemma FirstObservationWins(events: seq<IrEvent>, comp: string)
    ensures var node, obs := NodeOf(events, comp), ObservationsOf(events, comp);
            && node.dependencies == Retained(obs, |events|)
            && node.conflicts == Conflicting(obs, |events|)
            && (forall i, j :: 0 <= i < j < |node.dependencies| ==>
                node.dependencies[i].Id() != node.dependencies[j].Id())
            && (forall m :: 0 <= m < |events| && obs[m].Some? ==>
                  var first := FirstOf(obs, obs[m].value.Id(), |events|);
                  first <= m && obs[first].value.dependency in node.dependencies)
  {
    var obs := ObservationsOf(events, comp);
    FoldBooksObservations(events, comp, |events|);
    BookedMeansFirst(obs, |events|);
    RetainedMembers(obs, |events|);
    forall m | 0 <= m < |events| && obs[m].Some?
      ensures var first := FirstOf(obs, obs[m].value.Id(), |events|);
              first <= m && obs[first].value.dependency in Retained(obs, |events|)
    {
      var id := obs[m].value.Id();
      assert ObservesAt(obs, id, m);
      var (dependencies, _, index) := Booked(obs, |events|);
      assert dependencies[index[id].0] in dependencies;
    }
  }

  /** A node is free of conflict records exactly when every two observations of one
      identity agree in fingerprint and trust class. */
  lemma ConflictFreeMeansAgreement(events: seq<IrEvent>, comp: string)
    ensures var obs := ObservationsOf(events, comp);
            NodeOf(events, comp).conflicts == [] <==> forall a, b :: 0 <= a < b < |events| ==> AgreeAt(obs, a, b)
  {
    FirstObservationWins(events, comp);
    NoConflictMeansAgreement(ObservationsOf(events, comp), |events|);
  }

  // ------------------------------------------- what each list contains

  /** Each canonical event of a computation with how it counts, position by position. */
  ghost function MarksOf(events: seq<IrEvent>, comp: string): (marks: Marks)
    ensures |marks| == |events|
    ensures forall n :: 0 <= n < |events| ==> marks[n] == MarkAt(events, comp, n)
  {
    seq(|events|, n requires 0 <= n < |events| => MarkAt(events, comp, n))
  }

  ghost function MarkAt(events: seq<IrEvent>, comp: string, n: nat): Option<Mark>
    requires n < |events|
  {
    match OutcomeAt(events, comp, n)
    case None => None
    case Some(outcome) => Some(Mark(events[n], outcome))
  }

  lemma {:induction false} FoldBooksMarks(events: seq<IrEvent>, comp: string, n: nat)
    requires n <= |events|
    ensures var p := ProgressAfter(events, ArtifactPaths(events), comp, n);
            (p.node, p.index) == BookedNode(comp, MarksOf(events, comp), n)
  {
    hide ProgressAfter, OutcomeAt, MarksOf, Book;
    if n == 0 {
      NothingYet(events, comp);
    } else {
      FoldBooksMarks(events, comp, n - 1);
      StepBooksOutcome(events, comp, n - 1);
      BookedStep(comp, MarksOf(events, comp), n - 1);
    }
  }

  /** Every list of a node holds, in canonical order, what the computation's events were
      classified as. */
  lemma NodeListsCollect(events: seq<IrEvent>, comp: string)
    ensures var node, marks := NodeOf(events, comp), MarksOf(events, comp);
            && node.excluded == Collected(marks, PickExcluded, |events|)
            && node.obligations == Collected(marks, PickObligation, |events|)
            && node.artifacts == Collected(marks, PickArtifact, |events|)
            && node.outputs == Collected(marks, PickOutput, |events|)
  {
    FoldBooksMarks(events, comp, |events|);
    ListsCollect(comp, MarksOf(events, comp), |events|);
  }

  /** An exclusion is on a node exactly when one of the computation's events was
      classified as that exclusion. */
  lemma ExcludedHoldsExclusions(events: seq<IrEvent>, comp: string, x: ExcludedEdge)
    ensures x in NodeOf(events, comp).excluded <==>
            exists m :: 0 <= m < |events| && OutcomeAt(events, comp, m) == Some(Excluded(x))
  {
    var marks := MarksOf(events, comp);
    NodeListsCollect(events, comp);
    CollectedMembers(marks, PickExcluded, |events|);
    forall m | 0 <= m < |events|
      ensures OutcomeAt(events, comp, m) == Some(Excluded(x))
              <==> marks[m].Some? && PickExcluded(marks[m].value.outcome) == Some(x)
    {
      assert marks[m] == MarkAt(events, comp, m);
    }
  }

  lemma ClassifiedObligation(e: IrEvent, position: nat, written: set<Path>, artifacts: seq<ArtifactAt>, comp: string)
    ensures Classify(e, position, written, artifacts, comp).Obligation? <==> IsSubprocessTool(e)
  {
  }

  lemma ClassifiedArtifact(e: IrEvent, position: nat, written: set<Path>, artifacts: seq<ArtifactAt>, comp: string)
    ensures Classify(e, position, written, artifacts, comp).Artifact? <==>
            e.kind.ArtifactProduced? && e.payload.Text("artifact_id").Some?
    ensures Classify(e, position, written, artifacts, comp).Artifact? ==>
            Some(Classify(e, position, written, artifacts, comp).artifact) == e.payload.Text("artifact_id")
  {
  }

  /** A computation claims an artifact exactly when one of its events produced it. */
  lemma ArtifactsHoldProductions(events: seq<IrEvent>, comp: string, id: string)
    ensures id in NodeOf(events, comp).artifacts <==>
            exists m :: 0 <= m < |events| && events[m].computationId == Some(comp) && events[m].kind.ArtifactProduced?
                        && events[m].payload.Text("artifact_id") == Some(id)
  {
    var marks := MarksOf(events, comp);
    NodeListsCollect(events, comp);
    CollectedMembers(marks, PickArtifact, |events|);
    forall m | 0 <= m < |events|
      ensures events[m].computationId == Some(comp) && events[m].kind.ArtifactProduced?
              && events[m].payload.Text("artifact_id") == Some(id)
              <==> marks[m].Some? && PickArtifact(marks[m].value.outcome) == Some(id)
    {
      assert marks[m] == MarkAt(events, comp, m);
      ClassifiedArtifact(events[m], m, OwnWrites(events, comp, m), ArtifactPaths(events), comp);
    }
  }

  /** A computation carries an observation obligation exactly when one of its events is a
      `bash` or `task` invocation, however malformed the rest of that payload. */
  lemma ObligationsAreSubprocesses(events: seq<IrEvent>, comp: string)
    ensures NodeOf(events, comp).obligations != [] <==>
            exists m :: 0 <= m < |events| && events[m].computationId == Some(comp) && IsSubprocessTool(events[m])
  {
    var marks := MarksOf(events, comp);
    NodeListsCollect(events, comp);
    CollectedMembers(marks, PickObligation, |events|);
    var obligations := Collected(marks, PickObligation, |events|);
    forall m | 0 <= m < |events|
      ensures events[m].computationId == Some(comp) && IsSubprocessTool(events[m])
              <==> marks[m].Some? && PickObligation(marks[m].value.outcome).Some?
      ensures marks[m].Some? && PickObligation(marks[m].value.outcome).Some? ==>
              PickObligation(marks[m].value.outcome).value in obligations
    {
      assert marks[m] == MarkAt(events, comp, m);
      ClassifiedObligation(events[m], m, OwnWrites(events, comp, m), ArtifactPaths(events), comp);
    }
    if obligations != [] {
      assert obligations[0] in obligations;
    }
  }

  // -------------------------------------------------------- conservation

  lemma {:induction false} MarkedIsCount(events: seq<IrEvent>, comp: string, n: nat)
    requires n <= |events|
    ensures Marked(MarksOf(events, comp), n) == CountOf(events[..n], Some(comp))
  {
    if n > 0 {
      MarkedIsCount(events, comp, n - 1);
      assert events[..n][..n - 1] == events[..n - 1];
      assert MarksOf(events, comp)[n - 1] == MarkAt(events, comp, n - 1);
    }
  }

  lemma NodeConserved(events: seq<IrEvent>, comp: string)
    ensures Conserved(NodeOf(events, comp)) && NodeOf(events, comp).accounting.total == CountOf(events, Some(comp))
  {
    FoldBooksMarks(events, comp, |events|);
    BookedNodeConserved(comp, MarksOf(events, comp), |events|);
    MarkedIsCount(events, comp, |events|);
    assert events[..|events|] == events;
  }

  /** Observations are conserved. In every node the six buckets sum to the total, each
      list is as long as its bucket says, and the total is the number of the computation's
      events; and the node totals together with the events belonging to no computation
      make up the whole log. */
  lemma ObservationsAreConserved(graph: DerivedGraph, log: seq<IrEvent>, manifests: Manifests)
    requires IsReplayOf(graph, log, manifests)
    ensures forall comp :: comp in graph.computations ==>
              && Conserved(graph.computations[comp])
              && graph.computations[comp].accounting.total == CountOf(Order.Linearize(log), Some(comp))
    ensures SumOfTotals(graph.computations, graph.computations.Keys)
            + CountOf(Order.Linearize(log), None) == graph.eventCount
  {
    var events := Order.Linearize(log);
    Order.LinearizeSorts(log);
    forall comp | comp in graph.computations
      ensures Conserved(graph.computations[comp])
      ensures graph.computations[comp].accounting.total == CountOf(events, Some(comp))
    {
      NodeConserved(events, comp);
    }
    SumsCountEvents(graph.computations, events, graph.computations.Keys);
    CountWithinAll(events, graph.computations.Keys);
  }

  /** The orphan defects among some defects, in order. */
  function OrphansIn(defects: seq<GraphDefect>): seq<GraphDefect> {
    if defects == [] then []
    else OrphansIn(defects[..|defects| - 1]) + if defects[|defects| - 1].OrphanEdgeEvent? then [defects[|defects| - 1]]
      else []
  }

  /** The kinds an event may have without belonging to a computation. */
  predicate StandsAlone(kind: EventKind) {
    || kind.SessionStarted? || kind.SessionEnded? || kind.ComputationStarted? || kind.ComputationEnded?
    || kind.ToolCompleted? || kind.ProcSpawn? || kind.ProcExit? || kind.NetConnect? || kind.Diagnostic?
  }

  /** One orphan defect per event of any other kind that belongs to no computation, in order. */
  function OrphansOf(events: seq<IrEvent>): seq<GraphDefect> {
    if events == [] then []
    else
      var e := events[|events| - 1];
      OrphansOf(events[..|events| - 1])
      + if !StandsAlone(e.kind) && e.computationId.None? then [OrphanEdgeEvent(e.eventId, e.kind, e.producer)] else []
  }

  lemma {:induction false} OrphansInConcat(a: seq<GraphDefect>, b: seq<GraphDefect>)
    ensures OrphansIn(a + b) == OrphansIn(a) + OrphansIn(b)
  {
    if b == [] {
      assert a + b == a;
    } else {
      var init := b[..|b| - 1];
      assert (a + b)[..|a + b| - 1] == a + init;
      OrphansInConcat(a, init);
    }
  }

  lemma EdgeBearingKinds(kind: EventKind)
    ensures IsEdgeBearing(kind) <==> !StandsAlone(kind)
  {
  }

  lemma OrphanOf(e: IrEvent)
    ensures OrphansIn(DefectOf(e)) ==
            if !StandsAlone(e.kind) && e.computationId.None? then [OrphanEdgeEvent(e.eventId, e.kind, e.producer)]
              else []
  {
    hide IsEdgeBearing, StandsAlone;
    EdgeBearingKinds(e.kind);
    if DefectOf(e) != [] {
      assert DefectOf(e)[..0] == [] && |DefectOf(e)| == 1;
    }
  }

  /** No edge-bearing event without a computation vanishes, and no other is reported. */
  lemma {:induction false} OrphansAreReported(events: seq<IrEvent>)
    ensures OrphansIn(DefectsOf(events)) == OrphansOf(events)
  {
    hide OrphansIn, DefectOf, StandsAlone;
    if events == [] {
      NoOrphans();
    } else {
      OrphansAreReported(events[..|events| - 1]);
      OrphansInConcat(DefectsOf(events[..|events| - 1]), DefectOf(events[|events| - 1]));
      OrphanOf(events[|events| - 1]);
    }
  }

  lemma NoOrphans()
    ensures OrphansIn([]) == []
  {
  }

  lemma {:induction false} DivergenceIsNoOrphan(defects: seq<GraphDefect>)
    requires forall i :: 0 <= i < |defects| ==> defects[i].DivergentDuplicate?
    ensures OrphansIn(defects) == []
  {
    if defects != [] {
      DivergenceIsNoOrphan(defects[..|defects| - 1]);
    }
  }

  /** The orphan defects of a replayed graph, wherever they stand among its defects, are one per
      edge-bearing event without a computation, in canonical order. */
  lemma ReplayReportsOrphans(graph: DerivedGraph, log: seq<IrEvent>, manifests: Manifests)
    requires IsReplayOf(graph, log, manifests)
    ensures OrphansIn(graph.defects) == OrphansOf(Order.Linearize(log))
  {
    hide NodeOf, Agrees, CoverageOf, Order.AreFindings, DefectsOf, OrphansIn, OrphansOf;
    var divergent, others := DivergentDefects(graph.duplicates), DefectsOf(Order.Linearize(log));
    DivergenceIsNoOrphan(divergent);
    OrphansInConcat(divergent, others);
    OrphansAreReported(Order.Linearize(log));
  }

  // ------------------------------------------- what the index reaches

  /** The reverse index of a replay, read off the log: a computation is listed as consuming an
      identity exactly when one of its canonical events was classified as an edge to it, and as
      leaving it unproven exactly when one was excluded there, as a read or a probe, for want
      of proof. */
  lemma IndexReadsTheLog(graph: DerivedGraph, log: seq<IrEvent>, manifests: Manifests, comp: string, id: string)
    requires IsReplayOf(graph, log, manifests) && comp in graph.computations
    ensures var events, index := Order.Linearize(log), graph.reverseIndex;
            && (id in index && comp in index[id].consumingComputations <==>
                  EverObserved(events, comp, id))
            && (id in index && comp in index[id].unprovenComputations <==>
                  EverLeftUnproven(events, comp, id))
  {
    hide NodeOf, Agrees, EverObserved, EverLeftUnproven, Consumes, LeavesUnproven, CoverageOf,
      Order.AreFindings,
         DivergentDefects, DefectsOf;
    var events := Order.Linearize(log);
    assert graph.computations[comp] == NodeOf(events, comp);
    BlastRadius(graph.reverseIndex, graph.computations, id, comp, "");
    ConsumesMeansObserved(events, comp, id);
    UnprovenMeansExcluded(events, comp, id);
  }

  ghost predicate ObservesIn(events: seq<IrEvent>, comp: string, id: string, m: nat)
    requires m < |events|
  {
    ObservationAt(events, comp, m).Some? && ObservationAt(events, comp, m).value.Id() == id
  }

  ghost predicate LeavesUnprovenAt(events: seq<IrEvent>, comp: string, id: string, m: nat)
    requires m < |events|
  {
    match OutcomeAt(events, comp, m)
    case Some(Excluded(x)) => Implies(x, id)
    case _ => false
  }

  ghost predicate EverObserved(events: seq<IrEvent>, comp: string, id: string) {
    exists m :: 0 <= m < |events| && ObservesIn(events, comp, id, m)
  }

  ghost predicate EverLeftUnproven(events: seq<IrEvent>, comp: string, id: string) {
    exists m :: 0 <= m < |events| && LeavesUnprovenAt(events, comp, id, m)
  }

  lemma ConsumesMeansObserved(events: seq<IrEvent>, comp: string, id: string)
    ensures Consumes(NodeOf(events, comp), id) <==> EverObserved(events, comp, id)
  {
    hide NodeOf, ObservationAt, Dependency.Id;
    var node, obs := NodeOf(events, comp), ObservationsOf(events, comp);
    FirstObservationWins(events, comp);
    RetainedMembers(obs, |events|);
    if i :| 0 <= i < |node.dependencies| && node.dependencies[i].Id() == id {
      assert node.dependencies[i] in node.dependencies;
      var m :| 0 <= m < |events| && obs[m].Some? && obs[m].value.dependency == node.dependencies[i];
      assert ObservesIn(events, comp, id, m);
    }
    if m :| 0 <= m < |events| && ObservesIn(events, comp, id, m) {
      assert obs[m].Some?;
      var first := obs[FirstOf(obs, id, |events|)].value.dependency;
      assert first in node.dependencies;
      var i :| 0 <= i < |node.dependencies| && node.dependencies[i] == first;
    }
  }

  lemma UnprovenMeansExcluded(events: seq<IrEvent>, comp: string, id: string)
    ensures LeavesUnproven(NodeOf(events, comp), id) <==> EverLeftUnproven(events, comp, id)
  {
    hide NodeOf, OutcomeAt, Implies;
    var node := NodeOf(events, comp);
    if i :| 0 <= i < |node.excluded| && Implies(node.excluded[i], id) {
      assert node.excluded[i] in node.excluded;
      ExcludedHoldsExclusions(events, comp, node.excluded[i]);
      var m :| 0 <= m < |events| && OutcomeAt(events, comp, m) == Some(Excluded(node.excluded[i]));
      assert LeavesUnprovenAt(events, comp, id, m);
    }
    if m :| 0 <= m < |events| && LeavesUnprovenAt(events, comp, id, m) {
      var x := OutcomeAt(events, comp, m).value.excludedEdge;
      ExcludedHoldsExclusions(events, comp, x);
      var i :| 0 <= i < |node.excluded| && node.excluded[i] == x;
    }
  }

  // ------------------------------------------- replay is order-free

  /** Replay is a function of the set of events: physical orders of a deterministic log
      derive the same graph, its reverse index included, and even of a divergent one the duplicate findings, the
      determinism answer and the event count. */
  lemma ReplayPermutation(a: seq<IrEvent>, b: seq<IrEvent>, ga: DerivedGraph, gb: DerivedGraph, manifests: Manifests)
    requires Order.Permutation(a, b)
    requires IsReplayOf(ga, a, manifests) && IsReplayOf(gb, b, manifests)
    ensures ga.duplicates == gb.duplicates && ga.eventCount == gb.eventCount
    ensures ga.IsDeterministic() == gb.IsDeterministic()
    ensures ga.IsDeterministic() ==> ga == gb
  {
    Order.FindingsPermutation(a, b, ga.duplicates, gb.duplicates);
    Order.PermutationMembers(a, b);
    if ga.IsDeterministic() {
      Order.DeterministicKeysSeparate(a, ga.duplicates);
      Order.LinearizePermutation(a, b);
      IndexIsDetermined(ga.reverseIndex, gb.reverseIndex, ga.computations);
    }
  }

  // ------------------------------------------- later events only extend

  lemma ClassifyReadsOneProducer(e: IrEvent, position: nat, written: set<Path>, a: seq<ArtifactAt>, b: seq<ArtifactAt>,
                                 comp: string)
    requires forall path :: ProducingArtifact(a, path, position, comp) == ProducingArtifact(b, path, position, comp)
    ensures Classify(e, position, written, a, comp) == Classify(e, position, written, b, comp)
  {
  }

  lemma ClassifyIgnoresLaterArtifacts(short: seq<IrEvent>, long: seq<IrEvent>, comp: string, n: nat, written: set<Path>)
    requires short <= long && n < |short|
    ensures Classify(short[n], n, written, ArtifactPaths(short), comp)
            == Classify(long[n], n, written, ArtifactPaths(long), comp)
  {
    hide Classify;
    forall path ensures ProducingArtifact(ArtifactPaths(short), path, n, comp)
      == ProducingArtifact(ArtifactPaths(long), path, n, comp) {
      ArtifactPathsLocated(short, path, comp, n);
      ArtifactPathsLocated(long, path, comp, n);
      LatestProducerPrefix(short, long, path, comp, n);
    }
    ClassifyReadsOneProducer(short[n], n, written, ArtifactPaths(short), ArtifactPaths(long), comp);
  }

  lemma {:induction false} ProgressPrefix(short: seq<IrEvent>, long: seq<IrEvent>, comp: string, n: nat)
    requires short <= long && n <= |short|
    ensures ProgressAfter(short, ArtifactPaths(short), comp, n) == ProgressAfter(long, ArtifactPaths(long), comp, n)
  {
    hide Classify, Book, ArtifactPaths, WrittenAfter, KeyOfEvent;
    if n > 0 {
      ProgressPrefix(short, long, comp, n - 1);
      ClassifyIgnoresLaterArtifacts(short, long, comp, n - 1,
                                    ProgressAfter(short, ArtifactPaths(short), comp, n - 1).written);
    }
  }

  /** Appending canonically later events only extends what every node already lists. */
  lemma LaterEventsOnlyExtend(log: seq<IrEvent>, later: seq<IrEvent>, comp: string)
    requires forall x, y :: x in log && y in later ==> Order.Precedes(x, y)
    ensures Extends(NodeOf(Order.Linearize(log), comp), NodeOf(Order.Linearize(log + later), comp))
  {
    var short, long := Order.Linearize(log), Order.Linearize(log + later);
    Order.LinearizeAppend(log, later);
    ProgressPrefix(short, long, comp, |short|);
    FoldBooksMarks(long, comp, |short|);
    FoldBooksMarks(long, comp, |long|);
    BookedNodeExtends(comp, MarksOf(long, comp), |short|, |long|);
  }
}
