/** Sets walked in ascending order, as the source's ordered maps and sets are. */
module SortedSets {

  ghost predicate TotalOrder<T(!new)>(le: (T, T) -> bool) {
    && (forall a, b :: le(a, b) || le(b, a))
    && (forall a, b :: le(a, b) && le(b, a) ==> a == b)
    && (forall a, b, c :: le(a, b) && le(b, c) ==> le(a, c))
  }

  /** The sequence lists the set, each element once, in ascending order. */
  ghost predicate Lists<T(!new)>(xs: seq<T>, s: set<T>, le: (T, T) -> bool) {
    && (forall i, j :: 0 <= i < j < |xs| ==> le(xs[i], xs[j]) && xs[i] != xs[j])
    && (forall x :: x in xs <==> x in s)
  }

  function Placed<T(==)>(x: T, xs: seq<T>, le: (T, T) -> bool): seq<T> {
    if xs == [] || le(x, xs[0]) then [x] + xs else [xs[0]] + Placed(x, xs[1..], le)
  }

  lemma ListsTail<T(!new)>(xs: seq<T>, s: set<T>, le: (T, T) -> bool)
    requires xs != [] && Lists(xs, s, le)
    ensures Lists(xs[1..], s - {xs[0]}, le)
    ensures forall y :: y in s - {xs[0]} ==> le(xs[0], y)
  {
    assert forall y :: y in xs[1..] ==> exists i :: 1 <= i < |xs| && xs[i] == y;
    assert forall i :: 1 <= i < |xs| ==> xs[i] in xs[1..] by {
      forall i | 1 <= i < |xs| ensures xs[i] in xs[1..] {
        assert xs[1..][i - 1] == xs[i];
      }
    }
  }

  lemma ListsPrepend<T(!new)>(x: T, xs: seq<T>, s: set<T>, le: (T, T) -> bool)
    requires Lists(xs, s, le) && x !in s && forall y :: y in s ==> le(x, y)
    ensures Lists([x] + xs, s + {x}, le)
  {
    var all := [x] + xs;
    assert forall i :: 0 <= i < |xs| ==> xs[i] in s;
    forall i, j | 0 <= i < j < |all| ensures le(all[i], all[j]) && all[i] != all[j] {
      assert all[j] == xs[j - 1];
    }
    assert forall y :: y in all <==> y == x || y in xs;
  }

  lemma {:induction false} PlacedLists<T(!new)>(x: T, xs: seq<T>, s: set<T>, le: (T, T) -> bool)
    requires TotalOrder(le) && Lists(xs, s, le) && x !in s
    ensures Lists(Placed(x, xs, le), s + {x}, le)
  {
    hide Lists;
    if xs == [] {
      NothingListed(xs, s, le);
      ListsPrepend(x, xs, s, le);
    } else {
      ListsTail(xs, s, le);
      HeadListed(xs, s, le);
      if le(x, xs[0]) {
        ListsPrepend(x, xs, s, le);
      } else {
        PlacedLists(x, xs[1..], s - {xs[0]}, le);
        ListsPrepend(xs[0], Placed(x, xs[1..], le), s - {xs[0]} + {x}, le);
        assert s - {xs[0]} + {x} + {xs[0]} == s + {x};
      }
    }
  }

  lemma NothingListed<T(!new)>(xs: seq<T>, s: set<T>, le: (T, T) -> bool)
    requires Lists(xs, s, le)
    ensures xs == [] <==> s == {}
  {
    if xs != [] {
      assert xs[0] in s;
    }
  }

  lemma HeadListed<T(!new)>(xs: seq<T>, s: set<T>, le: (T, T) -> bool)
    requires Lists(xs, s, le) && xs != []
    ensures xs[0] in s
  {
    assert xs[0] in xs;
  }

  lemma LeastIsUnique<T(!new)>(x: T, y: T, s: set<T>, le: (T, T) -> bool)
    requires TotalOrder(le) && x in s && y in s
    requires (forall z :: z in s - {x} ==> le(x, z)) && (forall z :: z in s - {y} ==> le(y, z))
    ensures x == y
  {
    assert x != y ==> y in s - {x} && x in s - {y};
  }

  /** A set has one ascending listing. */
  lemma {:induction false} ListingIsUnique<T(!new)>(xs: seq<T>, ys: seq<T>, s: set<T>, le: (T, T) -> bool)
    requires TotalOrder(le) && Lists(xs, s, le) && Lists(ys, s, le)
    ensures xs == ys
    decreases |xs|
  {
    hide Lists;
    NothingListed(xs, s, le);
    NothingListed(ys, s, le);
    if xs != [] {
      HeadListed(xs, s, le);
      HeadListed(ys, s, le);
      ListsTail(xs, s, le);
      ListsTail(ys, s, le);
      LeastIsUnique(xs[0], ys[0], s, le);
      ListingIsUnique(xs[1..], ys[1..], s - {xs[0]}, le);
      assert xs == [xs[0]] + xs[1..] && ys == [ys[0]] + ys[1..];
    }
  }

  /** The set in ascending order. */
  ghost function Ascending<T(!new)>(s: set<T>, le: (T, T) -> bool): (xs: seq<T>)
    requires TotalOrder(le)
    ensures Lists(xs, s, le)
  {
    if s == {} then []
    else
      var x :| x in s;
      var rest := Ascending(s - {x}, le);
      PlacedLists(x, rest, s - {x}, le);
      assert s - {x} + {x} == s;
      Placed(x, rest, le)
  }

  method SortSet<T(!new, ==)>(s: set<T>, le: (T, T) -> bool) returns (xs: seq<T>)
    requires TotalOrder(le)
    ensures xs == Ascending(s, le)
  {
    xs := [];
    var rest := s;
    while rest != {}
      invariant rest <= s
      invariant Lists(xs, s - rest, le)
      decreases rest
    {
      var x :| x in rest;
      PlacedLists(x, xs, s - rest, le);
      assert s - (rest - {x}) == s - rest + {x};
      xs := Placed(x, xs, le);
      rest := rest - {x};
    }
    assert s - rest == s;
    ListingIsUnique(xs, Ascending(s, le), s, le);
  }
}
