/** First observation wins: what the edge bookkeeping of one computation means, over any
    sequence of positions that may or may not observe a dependency. */
module FirstWins {
  import opened Primitives
  import opened Wrappers
  import opened Dependencies
  import opened Graph

  datatype Observation = Observation(dependency: Dependency, event: Uuid) {
    function Id(): string {
      dependency.Id()
    }
  }

  /** Position `n` holds the observation its event made, if it made one. */
  type Observations = seq<Option<Observation>>

  predicate ObservesAt(obs: Observations, id: string, n: nat)
    requires n < |obs|
  {
    obs[n].Some? && obs[n].value.Id() == id
  }

  /** The first of the first `n` positions that observes `id`, or `n`. */
  function FirstOf(obs: Observations, id: string, n: nat): (f: nat)
    requires n <= |obs|
    ensures f <= n
    ensures f < n ==> ObservesAt(obs, id, f)
    ensures forall m :: 0 <= m < f ==> !ObservesAt(obs, id, m)
  {
    if n == 0 then 0
    else
      var f := FirstOf(obs, id, n - 1);
      if f < n - 1 || ObservesAt(obs, id, n - 1) then f else n
  }

  /** The first observation of each identity, in order. */
  function Retained(obs: Observations, n: nat): seq<Dependency>
    requires n <= |obs|
  {
    if n == 0 then []
    else if obs[n - 1].Some? && FirstOf(obs, obs[n - 1].value.Id(), n - 1) == n - 1
    then Retained(obs, n - 1) + [obs[n - 1].value.dependency]
    else Retained(obs, n - 1)
  }

  /** Two reports of one dependency show one state and record it at one strength. */
  predicate Alike(a: Dependency, b: Dependency) {
    a.fingerprint == b.fingerprint && a.trustClass == b.trustClass
  }

  /** Position `n` disagrees with the first observation of what it observes. */
  predicate DissentsAt(obs: Observations, n: nat)
    requires n < |obs|
  {
    && obs[n].Some?
    && var f := FirstOf(obs, obs[n].value.Id(), n);
       f < n && !Alike(obs[f].value.dependency, obs[n].value.dependency)
  }

  function ConflictAt(obs: Observations, n: nat): EdgeConflict
    requires n < |obs| && DissentsAt(obs, n)
  {
    var first, later := obs[FirstOf(obs, obs[n].value.Id(), n)].value, obs[n].value;
    EdgeConflict(later.Id(), first.event, first.dependency.fingerprint, later.event, later.dependency.fingerprint)
  }

  /** One record per dissenting position, in order. */
  function Conflicting(obs: Observations, n: nat): seq<EdgeConflict>
    requires n <= |obs|
  {
    if n == 0 then []
    else if DissentsAt(obs, n - 1) then Conflicting(obs, n - 1) + [ConflictAt(obs, n - 1)]
    else Conflicting(obs, n - 1)
  }

  /** The source's bookkeeping over the first `n` positions. */
  function Booked(obs: Observations, n: nat): (r: (seq<Dependency>, seq<EdgeConflict>, EdgeIndex))
    requires n <= |obs|
    ensures Indexed(r.0, r.2)
  {
    if n == 0 then ([], [], map[])
    else
      var (dependencies, conflicts, index) := Booked(obs, n - 1);
      match obs[n - 1]
      case None => (dependencies, conflicts, index)
      case Some(o) => BookEdge(dependencies, conflicts, index, o.event, o.dependency)
  }

  /** The index knows exactly the identities seen, and points at their first observation. */
  ghost predicate PointsAtFirst(obs: Observations, n: nat, dependencies: seq<Dependency>, index: EdgeIndex)
    requires n <= |obs| && Indexed(dependencies, index)
  {
    && (forall id :: id in index <==> FirstOf(obs, id, n) < n)
    && (forall id :: id in index ==>
          var f := FirstOf(obs, id, n);
          index[id].1 == obs[f].value.event && dependencies[index[id].0] == obs[f].value.dependency)
  }

  lemma FirstOfStep(obs: Observations, id: string, n: nat)
    requires n < |obs|
    ensures FirstOf(obs, id, n + 1) ==
            if FirstOf(obs, id, n) < n || ObservesAt(obs, id, n) then FirstOf(obs, id, n) else n + 1
  {
  }

  lemma DependenciesStep(obs: Observations, n: nat, dependencies: seq<Dependency>, conflicts: seq<EdgeConflict>,
                         index: EdgeIndex)
    requires n < |obs| && obs[n].Some? && Indexed(dependencies, index)
    requires PointsAtFirst(obs, n, dependencies, index) && dependencies == Retained(obs, n)
    ensures BookEdge(dependencies, conflicts, index, obs[n].value.event, obs[n].value.dependency).0
            == Retained(obs, n + 1)
  {
    hide FirstOf, Disagrees, ConflictBetween, Dependency.Id;
  }

  lemma ConflictsStep(obs: Observations, n: nat, dependencies: seq<Dependency>, conflicts: seq<EdgeConflict>,
                      index: EdgeIndex)
    requires n < |obs| && obs[n].Some? && Indexed(dependencies, index)
    requires PointsAtFirst(obs, n, dependencies, index) && conflicts == Conflicting(obs, n)
    ensures BookEdge(dependencies, conflicts, index, obs[n].value.event, obs[n].value.dependency).1
            == Conflicting(obs, n + 1)
  {
    hide FirstOf, Dependency.Id;
  }

  lemma IndexStep(obs: Observations, n: nat, dependencies: seq<Dependency>, conflicts: seq<EdgeConflict>,
                  index: EdgeIndex)
    requires n < |obs| && obs[n].Some? && Indexed(dependencies, index) && PointsAtFirst(obs, n, dependencies, index)
    ensures var booked := BookEdge(dependencies, conflicts, index, obs[n].value.event, obs[n].value.dependency);
            PointsAtFirst(obs, n + 1, booked.0, booked.2)
  {
    hide FirstOf, Disagrees, ConflictBetween, Dependency.Id;
    forall id ensures FirstOf(obs, id, n + 1) ==
                      if FirstOf(obs, id, n) < n || ObservesAt(obs, id, n) then FirstOf(obs, id, n) else n + 1 {
      FirstOfStep(obs, id, n);
    }
  }

  lemma NothingObserved(obs: Observations, n: nat, dependencies: seq<Dependency>, index: EdgeIndex)
    requires n < |obs| && obs[n].None? && Indexed(dependencies, index) && PointsAtFirst(obs, n, dependencies, index)
    ensures PointsAtFirst(obs, n + 1, dependencies, index)
  {
    hide FirstOf;
    forall id ensures FirstOf(obs, id, n + 1) == if FirstOf(obs, id, n) < n then FirstOf(obs, id, n) else n + 1 {
      FirstOfStep(obs, id, n);
    }
  }

  /** The bookkeeping computes the reference reading. */
  lemma {:induction false} BookedMeansFirst(obs: Observations, n: nat)
    requires n <= |obs|
    ensures var (dependencies, conflicts, index) := Booked(obs, n);
            && dependencies == Retained(obs, n)
            && conflicts == Conflicting(obs, n)
            && PointsAtFirst(obs, n, dependencies, index)
  {
    hide FirstOf, BookEdge, PointsAtFirst, DissentsAt, Indexed;
    if n == 0 {
      NothingBooked(obs);
    } else {
      BookedMeansFirst(obs, n - 1);
      var (dependencies, conflicts, index) := Booked(obs, n - 1);
      if obs[n - 1].Some? {
        DependenciesStep(obs, n - 1, dependencies, conflicts, index);
        ConflictsStep(obs, n - 1, dependencies, conflicts, index);
        IndexStep(obs, n - 1, dependencies, conflicts, index);
      } else {
        NothingObserved(obs, n - 1, dependencies, index);
        NothingDissents(obs, n - 1);
      }
    }
  }

  lemma NothingBooked(obs: Observations)
    ensures PointsAtFirst(obs, 0, [], map[])
  {
  }

  lemma NothingDissents(obs: Observations, n: nat)
    requires n < |obs| && obs[n].None?
    ensures Retained(obs, n + 1) == Retained(obs, n) && Conflicting(obs, n + 1) == Conflicting(obs, n)
  {
  }

  lemma {:induction false} RetainedMembers(obs: Observations, n: nat)
    requires n <= |obs|
    ensures forall d :: d in Retained(obs, n) <==>
              exists m :: 0 <= m < n && obs[m].Some? && obs[m].value.dependency == d && FirstOf(obs, d.Id(), m) == m
    ensures forall i, j :: 0 <= i < j < |Retained(obs, n)| ==> Retained(obs, n)[i].Id() != Retained(obs, n)[j].Id()
  {
    hide FirstOf, Dependency.Id;
    if n > 0 {
      RetainedMembers(obs, n - 1);
      if obs[n - 1].Some? && FirstOf(obs, obs[n - 1].value.Id(), n - 1) == n - 1 {
        var id := obs[n - 1].value.Id();
        forall d | d in Retained(obs, n - 1) ensures d.Id() != id {
          var m :| 0 <= m < n - 1 && obs[m].Some? && obs[m].value.dependency == d && FirstOf(obs, d.Id(), m) == m;
          assert !ObservesAt(obs, id, m);
        }
      }
    }
  }

  /** Two positions observe one identity and report it alike. */
  predicate AgreeAt(obs: Observations, a: nat, b: nat)
    requires a < |obs| && b < |obs|
  {
    obs[a].Some? && obs[b].Some? && obs[a].value.Id() == obs[b].value.Id()
    ==> Alike(obs[a].value.dependency, obs[b].value.dependency)
  }

  /** There are no conflict records exactly when all observations of one identity agree
      with one another. */
  lemma {:induction false} NoConflictMeansAgreement(obs: Observations, n: nat)
    requires n <= |obs|
    ensures Conflicting(obs, n) == [] <==> forall a, b :: 0 <= a < b < n ==> AgreeAt(obs, a, b)
  {
    if n > 0 {
      NoConflictMeansAgreement(obs, n - 1);
      if obs[n - 1].Some? {
        var id := obs[n - 1].value.Id();
        var f := FirstOf(obs, id, n - 1);
        if Conflicting(obs, n) == [] {
          var last := n - 1;
          forall a | 0 <= a < last ensures AgreeAt(obs, a, last) {
            if ObservesAt(obs, id, a) {
              assert f <= a && ObservesAt(obs, id, f);
              assert f < a ==> AgreeAt(obs, f, a);
            }
          }
        } else if f < n - 1 && DissentsAt(obs, n - 1) {
          assert !AgreeAt(obs, f, n - 1);
        }
      }
    }
  }

  /** Records exist only for positions that observed, and each record names its dissenter
      and the first observation it dissents from. */
  lemma {:induction false} ConflictMembers(obs: Observations, n: nat)
    requires n <= |obs|
    ensures forall c :: c in Conflicting(obs, n) <==>
            exists m :: 0 <= m < n && DissentsAt(obs, m) && ConflictAt(obs, m) == c
  {
    if n > 0 {
      ConflictMembers(obs, n - 1);
    }
  }
}
