/** What booking a sequence of classified events leaves on a node: which list each event
    lands in, and that none is lost or counted twice. */
module NodeLists {
  import opened Wrappers
  import opened Ir
  import opened Graph

  /** An event of a computation and how it was classified. */
  datatype Mark = Mark(event: IrEvent, outcome: Outcome)

  /** Position `n` holds the mark of its event, if that event belongs to the computation. */
  type Marks = seq<Option<Mark>>

  /** The node and index after booking the first `n` positions. */
  function BookedNode(comp: string, marks: Marks, n: nat): (r: (ComputationNode, EdgeIndex))
    requires n <= |marks|
    ensures Indexed(r.0.dependencies, r.1)
  {
    if n == 0 then (NewNode(comp), map[])
    else
      var (node, index) := BookedNode(comp, marks, n - 1);
      match marks[n - 1]
      case None => (node, index)
      case Some(m) => Book(node, index, m.event, m.outcome)
  }

  /** One marked position books its event on what the earlier ones left. */
  lemma BookedStep(comp: string, marks: Marks, n: nat)
    requires n < |marks|
    ensures var before, after := BookedNode(comp, marks, n), BookedNode(comp, marks, n + 1);
            after == if marks[n].None? then before
              else Book(before.0, before.1, marks[n].value.event, marks[n].value.outcome)
  {
  }

  /** What the first `n` marks contributed to one of the lists. */
  function Collected<T>(marks: Marks, pick: Outcome -> Option<T>, n: nat): seq<T>
    requires n <= |marks|
  {
    if n == 0 then []
    else if marks[n - 1].Some? && pick(marks[n - 1].value.outcome).Some?
    then Collected(marks, pick, n - 1) + [pick(marks[n - 1].value.outcome).value]
    else Collected(marks, pick, n - 1)
  }

  function PickExcluded(o: Outcome): Option<ExcludedEdge> {
    if o.Excluded? then Some(o.excludedEdge) else None
  }

  function PickObligation(o: Outcome): Option<CoverageObligation> {
    if o.Obligation? then Some(o.obligation) else None
  }

  function PickArtifact(o: Outcome): Option<string> {
    if o.Artifact? then Some(o.artifact) else None
  }

  function PickOutput(o: Outcome): Option<OutputRecord> {
    if o.Output? then Some(o.output) else None
  }

  lemma BookAppends(n: ComputationNode, index: EdgeIndex, e: IrEvent, outcome: Outcome)
    requires Indexed(n.dependencies, index)
    ensures var after := Book(n, index, e, outcome).0;
            && after.excluded
              == (if PickExcluded(outcome).Some? then n.excluded + [PickExcluded(outcome).value] else n.excluded)
            && after.obligations
              == (if PickObligation(outcome).Some? then n.obligations + [PickObligation(outcome).value]
                  else n.obligations)
            && after.artifacts
              == (if PickArtifact(outcome).Some? then n.artifacts + [PickArtifact(outcome).value] else n.artifacts)
            && after.outputs
              == (if PickOutput(outcome).Some? then n.outputs + [PickOutput(outcome).value] else n.outputs)
  {
  }

  /** Each list holds, in canonical order, exactly what the events classified for it. */
  lemma {:induction false} ListsCollect(comp: string, marks: Marks, n: nat)
    requires n <= |marks|
    ensures var node := BookedNode(comp, marks, n).0;
            && node.excluded == Collected(marks, PickExcluded, n)
            && node.obligations == Collected(marks, PickObligation, n)
            && node.artifacts == Collected(marks, PickArtifact, n)
            && node.outputs == Collected(marks, PickOutput, n)
  {
    hide Book;
    if n > 0 {
      ListsCollect(comp, marks, n - 1);
      BookedStep(comp, marks, n - 1);
      if marks[n - 1].Some? {
        var before := BookedNode(comp, marks, n - 1);
        BookAppends(before.0, before.1, marks[n - 1].value.event, marks[n - 1].value.outcome);
      }
    }
  }

  lemma {:induction false} CollectedMembers<T>(marks: Marks, pick: Outcome -> Option<T>, n: nat)
    requires n <= |marks|
    ensures forall x :: x in Collected(marks, pick, n) <==>
              exists m :: 0 <= m < n && marks[m].Some? && pick(marks[m].value.outcome) == Some(x)
  {
    if n > 0 {
      CollectedMembers(marks, pick, n - 1);
    }
  }

  function Marked(marks: Marks, n: nat): nat
    requires n <= |marks|
  {
    if n == 0 then 0 else Marked(marks, n - 1) + if marks[n - 1].Some? then 1 else 0
  }

  ghost predicate Conserved(node: ComputationNode) {
    var a := node.accounting;
    && a.IsBalanced()
    && a.outputs == |node.outputs|
    && a.artifacts == |node.artifacts|
    && a.obligations == |node.obligations|
    && a.excluded == |node.excluded|
    && a.unmodeled == |node.unmodeled|
    && a.total == |node.kindCounts|
    && a.edgeEvents >= |node.dependencies| + |node.conflicts|
  }

  lemma BookConserves(n: ComputationNode, index: EdgeIndex, e: IrEvent, outcome: Outcome)
    requires Indexed(n.dependencies, index) && Conserved(n)
    ensures var after := Book(n, index, e, outcome).0;
            Conserved(after) && after.accounting.total == n.accounting.total + 1
  {
    assert |n.kindCounts + multiset{e.kind}| == |n.kindCounts| + 1;
    assert |n.unmodeled + multiset{e.kind}| == |n.unmodeled| + 1;
  }

  lemma NewNodeConserved(comp: string, marks: Marks)
    ensures Conserved(BookedNode(comp, marks, 0).0) && BookedNode(comp, marks, 0).0.accounting.total == 0
  {
  }

  lemma {:induction false} BookedNodeConserved(comp: string, marks: Marks, n: nat)
    requires n <= |marks|
    ensures Conserved(BookedNode(comp, marks, n).0)
    ensures BookedNode(comp, marks, n).0.accounting.total == Marked(marks, n)
  {
    hide Book, Conserved, BookedNode;
    if n == 0 {
      NewNodeConserved(comp, marks);
    } else {
      BookedNodeConserved(comp, marks, n - 1);
      BookedStep(comp, marks, n - 1);
      if marks[n - 1].Some? {
        var before := BookedNode(comp, marks, n - 1);
        BookConserves(before.0, before.1, marks[n - 1].value.event, marks[n - 1].value.outcome);
      }
    }
  }

  ghost predicate Extends(before: ComputationNode, after: ComputationNode) {
    && before.dependencies <= after.dependencies
    && before.outputs <= after.outputs
    && before.artifacts <= after.artifacts
    && before.obligations <= after.obligations
    && before.excluded <= after.excluded
    && before.conflicts <= after.conflicts
    && before.kindCounts <= after.kindCounts
  }

  lemma BookExtends(n: ComputationNode, index: EdgeIndex, e: IrEvent, outcome: Outcome)
    requires Indexed(n.dependencies, index)
    ensures Extends(n, Book(n, index, e, outcome).0)
  {
  }

  lemma ExtendsTransitive(a: ComputationNode, b: ComputationNode, c: ComputationNode)
    requires Extends(a, b) && Extends(b, c)
    ensures Extends(a, c)
  {
  }

  /** Booking more positions only extends every list. */
  lemma {:induction false} BookedNodeExtends(comp: string, marks: Marks, m: nat, n: nat)
    requires m <= n <= |marks|
    ensures Extends(BookedNode(comp, marks, m).0, BookedNode(comp, marks, n).0)
  {
    hide Book;
    if m < n {
      var before, after := BookedNode(comp, marks, n - 1), BookedNode(comp, marks, n);
      BookedNodeExtends(comp, marks, m, n - 1);
      BookedStep(comp, marks, n - 1);
      if marks[n - 1].Some? {
        BookExtends(before.0, before.1, marks[n - 1].value.event, marks[n - 1].value.outcome);
      }
      ExtendsTransitive(BookedNode(comp, marks, m).0, before.0, after.0);
    }
  }

  // ---------------------------------------------------------- sums

  function CountOf(events: seq<IrEvent>, comp: Option<string>): nat {
    if events == [] then 0
    else CountOf(events[..|events| - 1], comp) + if events[|events| - 1].computationId == comp then 1 else 0
  }

  /** Sum of the totals of some of the nodes. */
  ghost function SumOfTotals(nodes: map<string, ComputationNode>, comps: set<string>): nat
    requires comps <= nodes.Keys
  {
    if comps == {} then 0
    else
      var comp :| comp in comps;
      nodes[comp].accounting.total + SumOfTotals(nodes, comps - {comp})
  }

  lemma {:induction false} SumPick(nodes: map<string, ComputationNode>, comps: set<string>, comp: string)
    requires comps <= nodes.Keys && comp in comps
    ensures SumOfTotals(nodes, comps) == nodes[comp].accounting.total + SumOfTotals(nodes, comps - {comp})
  {
    var chosen :| chosen in comps
      && SumOfTotals(nodes, comps) == nodes[chosen].accounting.total + SumOfTotals(nodes, comps - {chosen});
    if chosen != comp {
      SumPick(nodes, comps - {chosen}, comp);
      SumPick(nodes, comps - {comp}, chosen);
      assert comps - {chosen} - {comp} == comps - {comp} - {chosen};
    }
  }

  /** Events of some computations. */
  function CountWithin(events: seq<IrEvent>, comps: set<string>): nat {
    if events == [] then 0
    else
      var e := events[|events| - 1];
      CountWithin(events[..|events| - 1], comps) + if e.computationId.Some? && e.computationId.value in comps
        then 1 else 0
  }

  lemma {:induction false} CountWithinRemove(events: seq<IrEvent>, comps: set<string>, comp: string)
    requires comp in comps
    ensures CountWithin(events, comps) == CountOf(events, Some(comp)) + CountWithin(events, comps - {comp})
  {
    if events != [] {
      CountWithinRemove(events[..|events| - 1], comps, comp);
    }
  }

  lemma {:induction false} CountWithinNothing(events: seq<IrEvent>)
    ensures CountWithin(events, {}) == 0
  {
    if events != [] {
      CountWithinNothing(events[..|events| - 1]);
    }
  }

  lemma {:induction false} CountWithinAll(events: seq<IrEvent>, comps: set<string>)
    requires ComputationsOf(events) <= comps
    ensures CountWithin(events, comps) + CountOf(events, None) == |events|
  {
    if events != [] {
      var init, e := events[..|events| - 1], events[|events| - 1];
      assert events == init + [e] && e in events;
      assert forall x :: x in init ==> x in events;
      CountWithinAll(init, comps);
    }
  }

  lemma {:induction false} SumsCountEvents(nodes: map<string, ComputationNode>, events: seq<IrEvent>,
                                           comps: set<string>)
    requires comps <= nodes.Keys
    requires forall c :: c in comps ==> nodes[c].accounting.total == CountOf(events, Some(c))
    ensures SumOfTotals(nodes, comps) == CountWithin(events, comps)
  {
    if comps == {} {
      CountWithinNothing(events);
    } else {
      var comp :| comp in comps;
      SumPick(nodes, comps, comp);
      SumsCountEvents(nodes, events, comps - {comp});
      CountWithinRemove(events, comps, comp);
    }
  }
}
