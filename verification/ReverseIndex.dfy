/** The reverse index: which computations and artifacts an identity's change reaches. */
module ReverseIndex {
  import opened Wrappers
  import opened Text
  import opened SortedSets
  import opened Dependencies
  import opened Graph

  datatype ReverseIndexEntry = ReverseIndexEntry(
    scheme: string,
    consumingComputations: set<string>, consumers: set<string>,
    unprovenComputations: set<string>, unprovenConsumers: set<string>)

  type Nodes = map<string, ComputationNode>

  /** Nodes are filed under their own identifier. */
  predicate FiledById(nodes: Nodes) {
    forall c :: c in nodes ==> nodes[c].computationId == c
  }

  // ------------------------------------------- reading one forward node

  predicate Consumes(node: ComputationNode, id: string) {
    exists i :: 0 <= i < |node.dependencies| && node.dependencies[i].Id() == id
  }

  /** An exclusion, of a read or a probe, behind which there is an unproven edge to `id`. */
  predicate Implies(x: ExcludedEdge, id: string) {
    (x.kind.FsRead? || x.kind.ProbeChecked?) && x.reason.IsUnprovenDependency() && x.key == Some(id)
  }

  predicate LeavesUnproven(node: ComputationNode, id: string) {
    exists i :: 0 <= i < |node.excluded| && Implies(node.excluded[i], id)
  }

  /** The scheme under which the first of these dependencies with the identity is recorded. */
  function SchemeAmong(deps: seq<Dependency>, id: string): (scheme: Option<string>)
    ensures scheme.Some? <==> exists i :: 0 <= i < |deps| && deps[i].Id() == id
  {
    if deps == [] then None
    else
      var last := |deps| - 1;
      var earlier := SchemeAmong(deps[..last], id);
      assert forall i :: 0 <= i < last ==> deps[..last][i] == deps[i];
      if earlier.Some? then earlier else if deps[last].Id() == id then Some(deps[last].scheme) else None
  }

  /** The scheme recorded with the first of these exclusions that implies the identity. */
  function ImpliedSchemeAmong(excluded: seq<ExcludedEdge>, id: string): (scheme: Option<string>)
    ensures scheme.Some? <==> exists i :: 0 <= i < |excluded| && Implies(excluded[i], id)
  {
    if excluded == [] then None
    else
      var last := |excluded| - 1;
      var earlier := ImpliedSchemeAmong(excluded[..last], id);
      assert forall i :: 0 <= i < last ==> excluded[..last][i] == excluded[i];
      if earlier.Some? then earlier
      else if Implies(excluded[last], id) then Some(SchemeOrEmpty(excluded[last].scheme))
      else None
  }

  function SchemeOrEmpty(scheme: Option<string>): string {
    if scheme.Some? then scheme.value else ""
  }

  function ProvenScheme(node: ComputationNode, id: string): Option<string> {
    SchemeAmong(node.dependencies, id)
  }

  function UnprovenScheme(node: ComputationNode, id: string): Option<string> {
    ImpliedSchemeAmong(node.excluded, id)
  }

  // ----------------------------------------------------- reading them all

  function Consuming(nodes: Nodes, among: set<string>, id: string): set<string> {
    set c | c in among && c in nodes && Consumes(nodes[c], id)
  }

  function Unproven(nodes: Nodes, among: set<string>, id: string): set<string> {
    set c | c in among && c in nodes && LeavesUnproven(nodes[c], id)
  }

  function ProducedBy(nodes: Nodes, comps: set<string>): set<string> {
    set c, a | c in comps && c in nodes && a in nodes[c].artifacts :: a
  }

  /** What the first of these computations to say so records as the scheme. */
  function FirstScheme(nodes: Nodes, order: seq<string>, read: (ComputationNode, string) -> Option<string>, id: string)
    : Option<string>
    requires forall c :: c in order ==> c in nodes
  {
    if order == [] then None
    else
      var last := |order| - 1;
      var earlier := FirstScheme(nodes, order[..last], read, id);
      if earlier.Some? then earlier else read(nodes[order[last]], id)
  }

  lemma StrLeIsTotal()
    ensures TotalOrder(StrLe)
  {
    forall a, b ensures StrLe(a, b) || StrLe(b, a) {
      StrLeTotal(a, b);
    }
    forall a, b | StrLe(a, b) && StrLe(b, a) ensures a == b {
      StrLeAntisymmetric(a, b);
    }
    forall a, b, c | StrLe(a, b) && StrLe(b, c) ensures StrLe(a, c) {
      StrLeTransitive(a, b, c);
    }
  }

  /** The computations in ascending order, as an ordered map is walked. */
  ghost function InOrder(nodes: Nodes): (order: seq<string>)
    ensures forall c :: c in order <==> c in nodes
  {
    StrLeIsTotal();
    Ascending(nodes.Keys, StrLe)
  }

  /** The entry an identity must have: exactly the computations that consume it or leave it
      unproven, exactly their artifacts, and the scheme of the first fingerprinted edge, or
      failing that of the first exclusion. */
  ghost function EntryOf(nodes: Nodes, id: string): ReverseIndexEntry {
    var proven := SchemeOrEmpty(FirstScheme(nodes, InOrder(nodes), ProvenScheme, id));
    var unproven := SchemeOrEmpty(FirstScheme(nodes, InOrder(nodes), UnprovenScheme, id));
    ReverseIndexEntry(
      if proven == "" then unproven else proven,
      Consuming(nodes, nodes.Keys, id), ProducedBy(nodes, Consuming(nodes, nodes.Keys, id)),
      Unproven(nodes, nodes.Keys, id), ProducedBy(nodes, Unproven(nodes, nodes.Keys, id)))
  }

  predicate Reached(nodes: Nodes, id: string) {
    exists c :: c in nodes && (Consumes(nodes[c], id) || LeavesUnproven(nodes[c], id))
  }

  /** The index agrees with the forward graph: an identity has an entry exactly when some
      computation consumes it or leaves it unproven, and then it is the one it must have. */
  ghost predicate Agrees(index: map<string, ReverseIndexEntry>, nodes: Nodes) {
    && (forall id :: id in index <==> Reached(nodes, id))
    && (forall id :: id in index ==> index[id] == EntryOf(nodes, id))
  }

  /** The forward graph determines the index. */
  lemma IndexIsDetermined(a: map<string, ReverseIndexEntry>, b: map<string, ReverseIndexEntry>, nodes: Nodes)
    requires Agrees(a, nodes) && Agrees(b, nodes)
    ensures a == b
  {
    hide Reached, EntryOf;
    assert forall id :: id in a <==> id in b;
  }

  // ------------------------------------------------------- building it

  /** What one of the two passes has listed for an identity. */
  datatype Listing = Listing(scheme: string, computations: set<string>)

  type Listings = map<string, Listing>

  function Listed(m: Listings, id: string): set<string> {
    if id in m then m[id].computations else {}
  }

  function SchemeIn(m: Listings, id: string): Option<string> {
    if id in m then Some(m[id].scheme) else None
  }

  /** List a computation under an identity, keeping the scheme that was there first. */
  function Noted(m: Listings, id: string, scheme: string, comp: string): Listings {
    m[id := if id in m then m[id].(computations := m[id].computations + {comp}) else Listing(scheme, {comp})]
  }

  function FirstOr(first: Option<string>, otherwise: Option<string>): Option<string> {
    if first.Some? then first else otherwise
  }

  lemma NotedMeaning(m: Listings, key: string, scheme: string, comp: string, id: string)
    ensures Listed(Noted(m, key, scheme, comp), id) == Listed(m, id) + if id == key then {comp} else {}
    ensures SchemeIn(Noted(m, key, scheme, comp), id)
            == FirstOr(SchemeIn(m, id), if id == key then Some(scheme) else None)
  {
  }

  lemma SchemeAmongStep(deps: seq<Dependency>, n: nat, id: string)
    requires n < |deps|
    ensures SchemeAmong(deps[..n + 1], id)
            == FirstOr(SchemeAmong(deps[..n], id), if id == deps[n].Id() then Some(deps[n].scheme) else None)
  {
    assert deps[..n + 1][..n] == deps[..n];
  }

  lemma ImpliedSchemeStep(excluded: seq<ExcludedEdge>, n: nat, id: string)
    requires n < |excluded|
    ensures ImpliedSchemeAmong(excluded[..n + 1], id)
            == FirstOr(ImpliedSchemeAmong(excluded[..n], id),
                       if Implies(excluded[n], id) then Some(SchemeOrEmpty(excluded[n].scheme)) else None)
  {
    assert excluded[..n + 1][..n] == excluded[..n];
  }

  lemma NothingAmong(deps: seq<Dependency>)
    ensures forall id :: SchemeAmong(deps[..0], id) == None
  {
    assert deps[..0] == [];
  }

  lemma NothingImplied(excluded: seq<ExcludedEdge>)
    ensures forall id :: ImpliedSchemeAmong(excluded[..0], id) == None
  {
    assert excluded[..0] == [];
  }

  method ListDependencies(before: Listings, node: ComputationNode) returns (m: Listings)
    ensures forall id ::
              Listed(m, id) == Listed(before, id) + if ProvenScheme(node, id).Some? then {node.computationId} else {}
    ensures forall id :: SchemeIn(m, id) == FirstOr(SchemeIn(before, id), ProvenScheme(node, id))
  {
    hide SchemeAmong, Noted, Listed, SchemeIn;
    m := before;
    ghost var deps := node.dependencies;
    NothingAmong(deps);
    for i := 0 to |node.dependencies|
      invariant forall id ::
                  Listed(m, id) == Listed(before, id)
                                   + if SchemeAmong(deps[..i], id).Some? then {node.computationId} else {}
      invariant forall id :: SchemeIn(m, id) == FirstOr(SchemeIn(before, id), SchemeAmong(deps[..i], id))
    {
      var dep := node.dependencies[i];
      ghost var was := m;
      m := Noted(m, dep.Id(), dep.scheme, node.computationId);
      forall id
        ensures Listed(m, id) == Listed(before, id)
                                 + if SchemeAmong(deps[..i + 1], id).Some? then {node.computationId} else {}
        ensures SchemeIn(m, id) == FirstOr(SchemeIn(before, id), SchemeAmong(deps[..i + 1], id))
      {
        SchemeAmongStep(deps, i, id);
        NotedMeaning(was, dep.Id(), dep.scheme, node.computationId, id);
      }
    }
    assert deps[..|deps|] == deps;
  }

  method ListUnproven(before: Listings, node: ComputationNode) returns (m: Listings)
    ensures forall id ::
              Listed(m, id) == Listed(before, id) + if UnprovenScheme(node, id).Some? then {node.computationId} else {}
    ensures forall id :: SchemeIn(m, id) == FirstOr(SchemeIn(before, id), UnprovenScheme(node, id))
  {
    hide ImpliedSchemeAmong, Noted, Listed, SchemeIn;
    m := before;
    ghost var excluded := node.excluded;
    NothingImplied(excluded);
    for i := 0 to |node.excluded|
      invariant forall id ::
                  Listed(m, id) == Listed(before, id)
                                   + if ImpliedSchemeAmong(excluded[..i], id).Some? then {node.computationId} else {}
      invariant forall id :: SchemeIn(m, id) == FirstOr(SchemeIn(before, id), ImpliedSchemeAmong(excluded[..i], id))
    {
      var x := node.excluded[i];
      ghost var was := m;
      if (x.kind.FsRead? || x.kind.ProbeChecked?) && x.reason.IsUnprovenDependency() && x.key.Some? {
        m := Noted(m, x.key.value, SchemeOrEmpty(x.scheme), node.computationId);
      }
      forall id
        ensures Listed(m, id) == Listed(before, id)
                                 + if ImpliedSchemeAmong(excluded[..i + 1], id).Some? then {node.computationId} else {}
        ensures SchemeIn(m, id) == FirstOr(SchemeIn(before, id), ImpliedSchemeAmong(excluded[..i + 1], id))
      {
        ImpliedSchemeStep(excluded, i, id);
        if x.key.Some? {
          NotedMeaning(was, x.key.value, SchemeOrEmpty(x.scheme), node.computationId, id);
        }
      }
    }
    assert excluded[..|excluded|] == excluded;
  }

  function Elements(order: seq<string>): set<string> {
    set c | c in order
  }

  /** The map lists exactly the computations visited so far that consume each identity, under
      the scheme of the first of them. */
  ghost predicate ConsumersListed(m: Listings, nodes: Nodes, order: seq<string>)
    requires forall c :: c in order ==> c in nodes
  {
    && (forall id :: Listed(m, id) == Consuming(nodes, Elements(order), id))
    && (forall id :: SchemeIn(m, id) == FirstScheme(nodes, order, ProvenScheme, id))
    && (forall id :: id in m ==> Listed(m, id) != {})
  }

  ghost predicate UnprovenListed(m: Listings, nodes: Nodes, order: seq<string>)
    requires forall c :: c in order ==> c in nodes
  {
    && (forall id :: Listed(m, id) == Unproven(nodes, Elements(order), id))
    && (forall id :: SchemeIn(m, id) == FirstScheme(nodes, order, UnprovenScheme, id))
    && (forall id :: id in m ==> Listed(m, id) != {})
  }

  lemma Grow(nodes: Nodes, done: set<string>, c: string, id: string)
    requires c in nodes
    ensures Consuming(nodes, done + {c}, id) == Consuming(nodes, done, id) + if Consumes(nodes[c], id) then {c} else {}
    ensures Unproven(nodes, done + {c}, id) == Unproven(nodes, done, id) + if LeavesUnproven(nodes[c], id) then {c}
            else {}
  {
  }

  lemma FirstSchemeSnoc(nodes: Nodes, order: seq<string>, c: string, read: (ComputationNode, string) -> Option<string>,
                        id: string)
    requires c in nodes && forall k :: k in order ==> k in nodes
    ensures FirstScheme(nodes, order + [c], read, id)
            == FirstOr(FirstScheme(nodes, order, read, id), read(nodes[c], id))
  {
    assert (order + [c])[..|order|] == order;
  }

  lemma ConsumersGrow(before: Listings, after: Listings, nodes: Nodes, order: seq<string>, c: string)
    requires FiledById(nodes) && c in nodes && forall k :: k in order ==> k in nodes
    requires ConsumersListed(before, nodes, order)
    requires forall id ::
               Listed(after, id) == Listed(before, id)
                                    + if ProvenScheme(nodes[c], id).Some? then {nodes[c].computationId} else {}
    requires forall id :: SchemeIn(after, id) == FirstOr(SchemeIn(before, id), ProvenScheme(nodes[c], id))
    ensures ConsumersListed(after, nodes, order + [c])
  {
    hide Consuming, FirstScheme, ProvenScheme;
    assert Elements(order + [c]) == Elements(order) + {c};
    forall id
      ensures Listed(after, id) == Consuming(nodes, Elements(order + [c]), id)
      ensures SchemeIn(after, id) == FirstScheme(nodes, order + [c], ProvenScheme, id)
      ensures id in after ==> Listed(after, id) != {}
    {
      Grow(nodes, Elements(order), c, id);
      FirstSchemeSnoc(nodes, order, c, ProvenScheme, id);
      ProvenSchemeMeaning(nodes[c], id);
    }
  }

  lemma ProvenSchemeMeaning(node: ComputationNode, id: string)
    ensures ProvenScheme(node, id).Some? <==> Consumes(node, id)
    ensures UnprovenScheme(node, id).Some? <==> LeavesUnproven(node, id)
  {
  }

  lemma UnprovenGrow(before: Listings, after: Listings, nodes: Nodes, order: seq<string>, c: string)
    requires FiledById(nodes) && c in nodes && forall k :: k in order ==> k in nodes
    requires UnprovenListed(before, nodes, order)
    requires forall id ::
               Listed(after, id) == Listed(before, id)
                                    + if UnprovenScheme(nodes[c], id).Some? then {nodes[c].computationId} else {}
    requires forall id :: SchemeIn(after, id) == FirstOr(SchemeIn(before, id), UnprovenScheme(nodes[c], id))
    ensures UnprovenListed(after, nodes, order + [c])
  {
    hide Unproven, FirstScheme, UnprovenScheme;
    assert Elements(order + [c]) == Elements(order) + {c};
    forall id
      ensures Listed(after, id) == Unproven(nodes, Elements(order + [c]), id)
      ensures SchemeIn(after, id) == FirstScheme(nodes, order + [c], UnprovenScheme, id)
      ensures id in after ==> Listed(after, id) != {}
    {
      Grow(nodes, Elements(order), c, id);
      FirstSchemeSnoc(nodes, order, c, UnprovenScheme, id);
      ProvenSchemeMeaning(nodes[c], id);
    }
  }

  method VisitDependencies(before: Listings, nodes: Nodes, ghost order: seq<string>, c: string)
    returns (after: Listings)
    requires FiledById(nodes) && c in nodes && forall k :: k in order ==> k in nodes
    requires ConsumersListed(before, nodes, order)
    ensures ConsumersListed(after, nodes, order + [c])
  {
    hide ConsumersListed, ProvenScheme, Listed, SchemeIn;
    after := ListDependencies(before, nodes[c]);
    ConsumersGrow(before, after, nodes, order, c);
  }

  method VisitExclusions(before: Listings, nodes: Nodes, ghost order: seq<string>, c: string)
    returns (after: Listings)
    requires FiledById(nodes) && c in nodes && forall k :: k in order ==> k in nodes
    requires UnprovenListed(before, nodes, order)
    ensures UnprovenListed(after, nodes, order + [c])
  {
    hide UnprovenListed, UnprovenScheme, Listed, SchemeIn;
    after := ListUnproven(before, nodes[c]);
    UnprovenGrow(before, after, nodes, order, c);
  }

  method KeysInOrder(nodes: Nodes) returns (order: seq<string>)
    ensures order == InOrder(nodes)
  {
    StrLeIsTotal();
    order := SortSet(nodes.Keys, StrLe);
  }

  /** Both listings are right for the computations visited so far. */
  ghost predicate BothListed(proven: Listings, unproven: Listings, nodes: Nodes, order: seq<string>) {
    && (forall c :: c in order ==> c in nodes)
    && ConsumersListed(proven, nodes, order) && UnprovenListed(unproven, nodes, order)
  }

  method Visit(proven: Listings, unproven: Listings, nodes: Nodes, ghost order: seq<string>, c: string)
    returns (proven': Listings, unproven': Listings)
    requires FiledById(nodes) && c in nodes && BothListed(proven, unproven, nodes, order)
    ensures BothListed(proven', unproven', nodes, order + [c])
  {
    hide ConsumersListed, UnprovenListed, FiledById;
    proven' := VisitDependencies(proven, nodes, order, c);
    unproven' := VisitExclusions(unproven, nodes, order, c);
  }

  /** Two passes over the nodes in ascending order, then one entry per listed identity. */
  method BuildReverseIndex(nodes: Nodes) returns (index: map<string, ReverseIndexEntry>)
    requires FiledById(nodes)
    ensures Agrees(index, nodes)
  {
    hide BothListed, Agrees, FiledById, Entries, InOrder;
    var proven: Listings := map[];
    var unproven: Listings := map[];
    var order := KeysInOrder(nodes);
    NothingYet(nodes, order);
    for k := 0 to |order|
      invariant BothListed(proven, unproven, nodes, order[..k])
    {
      assert order[k] in order;
      proven, unproven := Visit(proven, unproven, nodes, order[..k], order[k]);
      assert order[..k] + [order[k]] == order[..k + 1];
    }
    assert order[..|order|] == order;
    EntriesAgree(nodes, proven, unproven);
    index := Entries(nodes, proven, unproven);
  }

  lemma NothingYet(nodes: Nodes, order: seq<string>)
    ensures order[..0] == []
    ensures BothListed(map[], map[], nodes, [])
  {
  }

  /** One entry per listed identity, widened from computations to their artifacts. */
  function Entries(nodes: Nodes, proven: Listings, unproven: Listings): map<string, ReverseIndexEntry> {
    map id | id in proven.Keys + unproven.Keys ::
      ReverseIndexEntry(
        if SchemeOrEmpty(SchemeIn(proven, id)) == "" then SchemeOrEmpty(SchemeIn(unproven, id))
          else SchemeOrEmpty(SchemeIn(proven, id)),
        Listed(proven, id), ProducedBy(nodes, Listed(proven, id)),
        Listed(unproven, id), ProducedBy(nodes, Listed(unproven, id)))
  }

  lemma ReachedMeaning(nodes: Nodes, id: string)
    ensures Reached(nodes, id) <==> Consuming(nodes, nodes.Keys, id) != {} || Unproven(nodes, nodes.Keys, id) != {}
  {
    hide Consumes, LeavesUnproven;
    if c :| c in nodes && (Consumes(nodes[c], id) || LeavesUnproven(nodes[c], id)) {
      assert c in Consuming(nodes, nodes.Keys, id) || c in Unproven(nodes, nodes.Keys, id);
    }
    if c :| c in Consuming(nodes, nodes.Keys, id) {
      assert Reached(nodes, id);
    }
    if c :| c in Unproven(nodes, nodes.Keys, id) {
      assert Reached(nodes, id);
    }
  }

  lemma EntryAgrees(nodes: Nodes, proven: Listings, unproven: Listings, id: string)
    requires ConsumersListed(proven, nodes, InOrder(nodes)) && UnprovenListed(unproven, nodes, InOrder(nodes))
    ensures id in proven || id in unproven <==> Reached(nodes, id)
    ensures id in Entries(nodes, proven, unproven) ==> Entries(nodes, proven, unproven)[id] == EntryOf(nodes, id)
  {
    hide ProducedBy, Consuming, Unproven, FirstScheme, Reached;
    assert Elements(InOrder(nodes)) == nodes.Keys;
    assert Listed(proven, id) == Consuming(nodes, nodes.Keys, id);
    assert Listed(unproven, id) == Unproven(nodes, nodes.Keys, id);
    assert SchemeIn(proven, id) == FirstScheme(nodes, InOrder(nodes), ProvenScheme, id);
    assert SchemeIn(unproven, id) == FirstScheme(nodes, InOrder(nodes), UnprovenScheme, id);
    ReachedMeaning(nodes, id);
  }

  lemma EntriesAgree(nodes: Nodes, proven: Listings, unproven: Listings)
    requires BothListed(proven, unproven, nodes, InOrder(nodes))
    ensures Agrees(Entries(nodes, proven, unproven), nodes)
  {
    hide Reached, EntryOf, ConsumersListed, UnprovenListed, InOrder;
    var index := Entries(nodes, proven, unproven);
    forall id
      ensures id in index <==> Reached(nodes, id)
      ensures id in index ==> index[id] == EntryOf(nodes, id)
    {
      EntryAgrees(nodes, proven, unproven, id);
      assert id in index <==> id in proven || id in unproven;
    }
  }

  /** The index of a forward graph. */
  ghost function IndexOf(nodes: Nodes): (index: map<string, ReverseIndexEntry>)
    ensures Agrees(index, nodes)
  {
    var consumed := set c, i | c in nodes && 0 <= i < |nodes[c].dependencies| :: nodes[c].dependencies[i].Id();
    var implied := set c, i | c in nodes && 0 <= i < |nodes[c].excluded| && nodes[c].excluded[i].key.Some?
                       :: nodes[c].excluded[i].key.value;
    assert forall id :: Reached(nodes, id) ==> id in consumed + implied;
    map id | id in consumed + implied && Reached(nodes, id) :: EntryOf(nodes, id)
  }

  /** Read from the other side: a computation is found under an identity as a consumer
      exactly when its node has that edge, and as unproven exactly when its node excluded a
      keyed read or probe there for want of proof; an artifact is found there exactly when
      such a computation produced it. */
  lemma BlastRadius(index: map<string, ReverseIndexEntry>, nodes: Nodes, id: string, c: string, artifact: string)
    requires Agrees(index, nodes) && c in nodes
    ensures id in index && c in index[id].consumingComputations <==> Consumes(nodes[c], id)
    ensures id in index && c in index[id].unprovenComputations <==> LeavesUnproven(nodes[c], id)
    ensures id in index && artifact in index[id].consumers <==>
            exists k :: k in nodes && Consumes(nodes[k], id) && artifact in nodes[k].artifacts
    ensures id in index && artifact in index[id].unprovenConsumers <==>
            exists k :: k in nodes && LeavesUnproven(nodes[k], id) && artifact in nodes[k].artifacts
  {
    hide Consumes, LeavesUnproven, FirstScheme;
    assert c in Consuming(nodes, nodes.Keys, id) <==> Consumes(nodes[c], id);
    assert c in Unproven(nodes, nodes.Keys, id) <==> LeavesUnproven(nodes[c], id);
    forall k | k in nodes
      ensures k in Consuming(nodes, nodes.Keys, id) <==> Consumes(nodes[k], id)
      ensures k in Unproven(nodes, nodes.Keys, id) <==> LeavesUnproven(nodes[k], id)
    {
    }
  }
}
