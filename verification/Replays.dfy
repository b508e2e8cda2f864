/** Materializing the derived graph: linearize, book, attribute, index. */
module Replays {
  import opened Primitives
  import opened SortedSets
  import opened Ir
  import opened Coverage
  import opened Graph
  import opened ReverseIndex
  import Order

  /** The whole derived graph. */
  datatype DerivedGraph = DerivedGraph(
    computations: map<string, ComputationNode>,
    reverseIndex: map<string, ReverseIndexEntry>,
    attribution: map<string, ComputationCoverage>,
    defects: seq<GraphDefect>,
    duplicates: map<Uuid, Order.DuplicateEventId>,
    eventCount: nat)
  {
    predicate IsDeterministic() {
      Order.IsDeterministic(duplicates)
    }
  }

  // ---------------------------------------------- divergent duplicates

  predicate UuidLe(a: Uuid, b: Uuid) {
    a <= b
  }

  function DivergentIds(findings: map<Uuid, Order.DuplicateEventId>): set<Uuid> {
    set id | id in findings && findings[id].divergent
  }

  /** One defect per divergent finding, in identifier order. */
  function DefectsFor(ids: seq<Uuid>, findings: map<Uuid, Order.DuplicateEventId>): (defects: seq<GraphDefect>)
    requires forall id :: id in ids ==> id in findings
    ensures |defects| == |ids|
  {
    seq(|ids|, i requires 0 <= i < |ids| => DivergentDuplicate(ids[i], findings[ids[i]].producer))
  }

  ghost function DivergentDefects(findings: map<Uuid, Order.DuplicateEventId>): seq<GraphDefect> {
    DefectsFor(Ascending(DivergentIds(findings), UuidLe), findings)
  }

  // --------------------------------------------------------------- replay

  /** What replaying a log under a set of manifests must produce. */
  ghost predicate IsReplayOf(graph: DerivedGraph, log: seq<IrEvent>, manifests: Manifests) {
    var events := Order.Linearize(log);
    && graph.computations == (map comp | comp in ComputationsOf(events) :: NodeOf(events, comp))
    && Agrees(graph.reverseIndex, graph.computations)
    && graph.attribution == (map comp | comp in ComputationsOf(events) :: CoverageOf(manifests, events, comp))
    && Order.AreFindings(graph.duplicates, events)
    && graph.defects == DivergentDefects(graph.duplicates) + DefectsOf(events)
    && graph.eventCount == |log|
  }

  /** The replay of a log under a set of manifests. */
  ghost function ReplayOf(log: seq<IrEvent>, manifests: Manifests): (graph: DerivedGraph)
    ensures IsReplayOf(graph, log, manifests)
  {
    var events := Order.Linearize(log);
    var computations := map comp | comp in ComputationsOf(events) :: NodeOf(events, comp);
    var findings := Order.FindingsOf(events);
    DerivedGraph(computations, IndexOf(computations),
                 map comp | comp in ComputationsOf(events) :: CoverageOf(manifests, events, comp),
                 DivergentDefects(findings) + DefectsOf(events), findings, |log|)
  }

  /** A log under given manifests has exactly one replay. */
  lemma ReplayIsDetermined(graph: DerivedGraph, log: seq<IrEvent>, manifests: Manifests)
    ensures IsReplayOf(graph, log, manifests) <==> graph == ReplayOf(log, manifests)
  {
    hide NodeOf, CoverageOf, ComputationsOf, Order.Group, Order.Finding, Agrees;
    if IsReplayOf(graph, log, manifests) {
      var events := Order.Linearize(log);
      FindingsAreDetermined(graph.duplicates, ReplayOf(log, manifests).duplicates, events);
      IndexIsDetermined(graph.reverseIndex, ReplayOf(log, manifests).reverseIndex, graph.computations);
    }
  }

  lemma FindingsAreDetermined(a: map<Uuid, Order.DuplicateEventId>, b: map<Uuid, Order.DuplicateEventId>,
                              events: seq<IrEvent>)
    requires Order.AreFindings(a, events) && Order.AreFindings(b, events)
    ensures a == b
  {
    hide Order.Finding;
    forall id ensures id in a <==> id in b
              ensures id in a ==> a[id] == b[id]
    {
    }
  }

  /** Replayed nodes are filed under their own identifier, so the index can be built. */
  lemma {:induction false} ProgressKeepsId(events: seq<IrEvent>, artifacts: seq<ArtifactAt>, comp: string, n: nat)
    requires n <= |events|
    ensures ProgressAfter(events, artifacts, comp, n).node.computationId == comp
  {
    hide Classify;
    if n > 0 {
      ProgressKeepsId(events, artifacts, comp, n - 1);
    }
  }

  lemma ReplayedNodesAreFiled(computations: Nodes, events: seq<IrEvent>)
    requires forall comp :: comp in computations ==> computations[comp] == NodeOf(events, comp)
    ensures FiledById(computations)
  {
    hide ProgressAfter;
    forall comp | comp in computations ensures computations[comp].computationId == comp {
      ProgressKeepsId(events, ArtifactPaths(events), comp, |events|);
    }
  }

  method ListDefects(ids: seq<Uuid>, findings: map<Uuid, Order.DuplicateEventId>) returns (defects: seq<GraphDefect>)
    requires forall id :: id in ids ==> id in findings
    ensures defects == DefectsFor(ids, findings)
  {
    defects := [];
    for i := 0 to |ids|
      invariant |defects| == i && forall j :: 0 <= j < i ==>
                defects[j] == DivergentDuplicate(ids[j], findings[ids[j]].producer)
    {
      defects := defects + [DivergentDuplicate(ids[i], findings[ids[i]].producer)];
    }
  }

  method ListDivergent(findings: map<Uuid, Order.DuplicateEventId>) returns (defects: seq<GraphDefect>)
    ensures defects == DivergentDefects(findings)
  {
    hide DefectsFor;
    var ids := SortSet(DivergentIds(findings), UuidLe);
    defects := ListDefects(ids, findings);
  }

  /** The divergent-duplicate defects are exactly the identifiers carried by two different
      events, each once, in ascending order, so a graph is deterministic exactly when there is
      none. */
  lemma DivergenceIsReported(findings: map<Uuid, Order.DuplicateEventId>)
    ensures Order.IsDeterministic(findings) <==> DivergentDefects(findings) == []
    ensures forall id, producer :: DivergentDuplicate(id, producer) in DivergentDefects(findings) <==>
              id in findings && findings[id].divergent && findings[id].producer == producer
    ensures forall i, j :: 0 <= i < j < |DivergentDefects(findings)| ==>
              DivergentDefects(findings)[i].eventId < DivergentDefects(findings)[j].eventId
  {
    hide DefectsFor, Ascending, Lists, DivergentIds;
    var ids := Ascending(DivergentIds(findings), UuidLe);
    NothingListed(ids, DivergentIds(findings), UuidLe);
    DivergentMembers(findings);
    forall id {
      ListedMember(ids, DivergentIds(findings), id);
    }
    DefectsForMembers(ids, findings);
    DefectsForAscend(ids, DivergentIds(findings), findings);
    forall id, producer
      ensures DivergentDuplicate(id, producer) in DivergentDefects(findings) <==>
              id in findings && findings[id].divergent && findings[id].producer == producer
    {
      ListedMember(ids, DivergentIds(findings), id);
    }
  }

  lemma ListedMember(ids: seq<Uuid>, s: set<Uuid>, id: Uuid)
    requires Lists(ids, s, UuidLe)
    ensures id in ids <==> id in s
  {
  }

  lemma DivergentMembers(findings: map<Uuid, Order.DuplicateEventId>)
    ensures forall id :: id in DivergentIds(findings) <==> id in findings && findings[id].divergent
    ensures Order.IsDeterministic(findings) <==> DivergentIds(findings) == {}
  {
    if DivergentIds(findings) == {} {
      assert forall id :: id in findings && findings[id].divergent ==> id in DivergentIds(findings);
    }
  }

  lemma DefectsForMembers(ids: seq<Uuid>, findings: map<Uuid, Order.DuplicateEventId>)
    requires forall id :: id in ids ==> id in findings
    ensures forall id, producer :: DivergentDuplicate(id, producer) in DefectsFor(ids, findings) <==>
              id in ids && findings[id].producer == producer
  {
    var defects := DefectsFor(ids, findings);
    forall id | id in ids ensures DivergentDuplicate(id, findings[id].producer) in defects {
      var i :| 0 <= i < |ids| && ids[i] == id;
      assert defects[i] == DivergentDuplicate(id, findings[id].producer);
    }
  }

  lemma DefectsForAscend(ids: seq<Uuid>, s: set<Uuid>, findings: map<Uuid, Order.DuplicateEventId>)
    requires Lists(ids, s, UuidLe) && forall id :: id in ids ==> id in findings
    ensures forall i, j :: 0 <= i < j < |ids| ==>
              DefectsFor(ids, findings)[i].eventId < DefectsFor(ids, findings)[j].eventId
  {
  }

  /** Materialize the graph. There is no way to replay a caller-supplied order. */
  method Replay(log: seq<IrEvent>, registry: CoverageRegistry) returns (graph: DerivedGraph)
    requires registry.Valid()
    ensures IsReplayOf(graph, log, registry.manifests)
  {
    hide NodeOf, Agrees, ComputationsOf, CoverageOf, DivergentDefects;
    var events, duplicates := Order.LinearizeChecked(log);
    Order.LinearizeSorts(log);
    var divergent := ListDivergent(duplicates);
    var artifacts := CollectArtifactPaths(events);
    var computations, defects := BuildNodes(events, artifacts);
    var attribution := BuildAttribution(computations, events, registry);
    ReplayedNodesAreFiled(computations, events);
    var index := BuildReverseIndex(computations);
    graph := DerivedGraph(computations, index, attribution, divergent + defects, duplicates, |events|);
  }
}
