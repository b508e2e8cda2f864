/** The canonical order of a log, and the identifiers that occur in it more than once. */
module Order {
  import opened Primitives
  import opened Text
  import opened Ir

  datatype Key = Key(seconds: int, nanos: int, producer: string, id: Uuid)

  function OrderKey(e: IrEvent): Key {
    Key(e.ts / NANOS_PER_SECOND, e.ts % NANOS_PER_SECOND, e.producer, e.eventId)
  }

  predicate KeyLe(a: Key, b: Key) {
    if a.seconds != b.seconds then a.seconds < b.seconds
    else if a.nanos != b.nanos then a.nanos < b.nanos
    else if a.producer != b.producer then StrLe(a.producer, b.producer)
    else a.id <= b.id
  }

  predicate Precedes(a: IrEvent, b: IrEvent) {
    KeyLe(OrderKey(a), OrderKey(b))
  }

  lemma KeyLeTotalOrder(a: Key, b: Key)
    ensures KeyLe(a, a)
    ensures KeyLe(a, b) || KeyLe(b, a)
    ensures KeyLe(a, b) && KeyLe(b, a) ==> a == b
  {
    StrLeTotal(a.producer, b.producer);
    if StrLe(a.producer, b.producer) && StrLe(b.producer, a.producer) {
      StrLeAntisymmetric(a.producer, b.producer);
    }
  }

  lemma KeyLeTransitive(a: Key, b: Key, c: Key)
    requires KeyLe(a, b) && KeyLe(b, c)
    ensures KeyLe(a, c)
  {
    if StrLe(a.producer, b.producer) && StrLe(b.producer, c.producer) {
      StrLeTransitive(a.producer, b.producer, c.producer);
      if a.producer == c.producer {
        StrLeAntisymmetric(a.producer, b.producer);
      }
    }
  }

  /** The key compares instants: a strictly later instant is strictly later in the order,
      whatever its producer and identifier, before the epoch as after it. */
  lemma LaterInstantIsLater(a: IrEvent, b: IrEvent)
    requires a.ts < b.ts
    ensures Precedes(a, b) && !Precedes(b, a)
  {
    assert a.ts == NANOS_PER_SECOND * (a.ts / NANOS_PER_SECOND) + a.ts % NANOS_PER_SECOND;
    assert b.ts == NANOS_PER_SECOND * (b.ts / NANOS_PER_SECOND) + b.ts % NANOS_PER_SECOND;
  }

  // ------------------------------------------------------- linearizing

  function Insert(e: IrEvent, sorted: seq<IrEvent>): seq<IrEvent> {
    if sorted == [] || Precedes(e, sorted[0]) then [e] + sorted
    else [sorted[0]] + Insert(e, sorted[1..])
  }

  /** The stable sort of the events by their key. */
  function Linearize(events: seq<IrEvent>): seq<IrEvent> {
    if events == [] then [] else Insert(events[0], Linearize(events[1..]))
  }

  ghost predicate Sorted(events: seq<IrEvent>) {
    forall i, j :: 0 <= i < j < |events| ==> Precedes(events[i], events[j])
  }

  /** The events carrying one key, in the order they appear. */
  function WithKey(events: seq<IrEvent>, k: Key): seq<IrEvent> {
    if events == [] then []
    else (if OrderKey(events[0]) == k then [events[0]] else []) + WithKey(events[1..], k)
  }

  lemma {:induction false} InsertKeeps(e: IrEvent, sorted: seq<IrEvent>)
    requires Sorted(sorted)
    ensures Sorted(Insert(e, sorted))
    ensures multiset(Insert(e, sorted)) == multiset{e} + multiset(sorted)
    ensures |Insert(e, sorted)| == |sorted| + 1
  {
    if sorted == [] {
    } else if Precedes(e, sorted[0]) {
      forall j | 0 <= j < |sorted| ensures Precedes(e, sorted[j]) {
        if j > 0 {
          KeyLeTransitive(OrderKey(e), OrderKey(sorted[0]), OrderKey(sorted[j]));
        }
      }
    } else {
      KeyLeTotalOrder(OrderKey(e), OrderKey(sorted[0]));
      var rest := Insert(e, sorted[1..]);
      InsertKeeps(e, sorted[1..]);
      assert sorted == [sorted[0]] + sorted[1..];
      forall j | 0 <= j < |rest| ensures Precedes(sorted[0], rest[j]) {
        assert rest[j] in multiset(rest);
        assert rest[j] == e || rest[j] in multiset(sorted[1..]);
        if rest[j] != e {
          var m :| 0 <= m < |sorted[1..]| && sorted[1..][m] == rest[j];
          assert sorted[m + 1] == rest[j];
        }
      }
    }
  }

  /** Linearizing neither loses nor invents an event, and its output is in order. */
  lemma {:induction false} LinearizeSorts(events: seq<IrEvent>)
    ensures Sorted(Linearize(events))
    ensures multiset(Linearize(events)) == multiset(events)
    ensures |Linearize(events)| == |events|
  {
    if events != [] {
      LinearizeSorts(events[1..]);
      InsertKeeps(events[0], Linearize(events[1..]));
      assert events == [events[0]] + events[1..];
    }
  }

  /** The earlier instant first; at one instant the smaller producer name; of one producer at one
      instant the smaller identifier. */
  predicate StandsBefore(x: IrEvent, y: IrEvent) {
    || x.ts < y.ts
    || (x.ts == y.ts && Smaller(x.producer, y.producer))
    || (x.ts == y.ts && x.producer == y.producer && x.eventId < y.eventId)
  }

  lemma PrecedesMeaning(x: IrEvent, y: IrEvent)
    ensures Precedes(x, y) <==> !StandsBefore(y, x)
  {
    hide StrLe, Smaller;
    KeyLeTotalOrder(OrderKey(x), OrderKey(y));
    StrLeMeaning(x.producer, y.producer);
    StrLeMeaning(y.producer, x.producer);
    if StrLe(x.producer, y.producer) && StrLe(y.producer, x.producer) {
      StrLeAntisymmetric(x.producer, y.producer);
    }
    if x.ts < y.ts {
      LaterInstantIsLater(x, y);
    } else if y.ts < x.ts {
      LaterInstantIsLater(y, x);
    }
  }

  /** The canonical order, read off the events themselves: none stands behind one it should
      stand before, and events that tie in instant, producer and identifier keep the order they
      had in the log. */
  lemma LinearizedOrder(log: seq<IrEvent>)
    ensures multiset(Linearize(log)) == multiset(log)
    ensures forall i, j :: 0 <= i < j < |Linearize(log)| ==> !StandsBefore(Linearize(log)[j], Linearize(log)[i])
    ensures forall i, j :: (0 <= i < |Linearize(log)| && 0 <= j < |Linearize(log)|
                            && StandsBefore(Linearize(log)[i], Linearize(log)[j])) ==> i < j
  {
    hide StandsBefore, OrderKey, KeyLe;
    LinearizeSorts(log);
    var events := Linearize(log);
    forall i, j | 0 <= i < |events| && 0 <= j < |events| {
      PrecedesMeaning(events[i], events[j]);
    }
    forall i, j | 0 <= i < |events| && 0 <= j < |events| && StandsBefore(events[i], events[j]) ensures i < j {
      NeverBeforeItself(events[i]);
    }
  }

  lemma NeverBeforeItself(e: IrEvent)
    ensures !StandsBefore(e, e)
  {
  }

  lemma {:induction false} InsertStable(e: IrEvent, sorted: seq<IrEvent>, k: Key)
    ensures WithKey(Insert(e, sorted), k) == (if OrderKey(e) == k then [e] else []) + WithKey(sorted, k)
  {
    if sorted == [] || Precedes(e, sorted[0]) {
      assert ([e] + sorted)[1..] == sorted;
    } else {
      KeyLeTotalOrder(OrderKey(e), OrderKey(sorted[0]));
      InsertStable(e, sorted[1..], k);
      assert ([sorted[0]] + Insert(e, sorted[1..]))[1..] == Insert(e, sorted[1..]);
    }
  }

  /** Events the order cannot separate stay in the order they were given. */
  lemma {:induction false} LinearizeStable(events: seq<IrEvent>, k: Key)
    ensures WithKey(Linearize(events), k) == WithKey(events, k)
  {
    if events != [] {
      LinearizeStable(events[1..], k);
      InsertStable(events[0], Linearize(events[1..]), k);
    }
  }

  lemma {:induction false} WithKeyMembers(events: seq<IrEvent>, k: Key)
    ensures forall e :: e in WithKey(events, k) <==> e in events && OrderKey(e) == k
  {
    if events != [] {
      WithKeyMembers(events[1..], k);
    }
  }

  lemma WithKeyTail(events: seq<IrEvent>, k: Key)
    requires events != []
    ensures WithKey(events, k) == (if OrderKey(events[0]) == k then [events[0]] else []) + WithKey(events[1..], k)
    ensures OrderKey(events[0]) == k ==> WithKey(events[1..], k) == WithKey(events, k)[1..]
    ensures OrderKey(events[0]) != k ==> WithKey(events[1..], k) == WithKey(events, k)
  {
  }

  /** In-order sequences that agree key by key are equal: sortedness and stability
      determine the result, so `Linearize` is the stable sort and no other. */
  lemma {:induction false} StableSortUnique(a: seq<IrEvent>, b: seq<IrEvent>)
    requires Sorted(a) && Sorted(b)
    requires forall k :: WithKey(a, k) == WithKey(b, k)
    ensures a == b
  {
    if a != [] {
      assert WithKey(b, OrderKey(a[0])) == WithKey(a, OrderKey(a[0]));
    }
    if b != [] {
      assert WithKey(a, OrderKey(b[0])) == WithKey(b, OrderKey(b[0]));
    }
    if a != [] && b != [] {
      var ka, kb := OrderKey(a[0]), OrderKey(b[0]);
      WithKeyMembers(a, kb);
      WithKeyMembers(b, ka);
      WithKeyMembers(a, ka);
      WithKeyMembers(b, kb);
      assert a[0] in WithKey(a, ka) && b[0] in WithKey(b, kb);
      assert a[0] in WithKey(b, ka) && b[0] in WithKey(a, kb);
      assert KeyLe(ka, kb) && KeyLe(kb, ka) by {
        KeyLeTotalOrder(ka, kb);
        var i :| 0 <= i < |b| && b[i] == a[0];
        var j :| 0 <= j < |a| && a[j] == b[0];
      }
      KeyLeTotalOrder(ka, kb);
      assert WithKey(a, ka)[0] == a[0] && WithKey(b, ka)[0] == b[0];
      forall k ensures WithKey(a[1..], k) == WithKey(b[1..], k) {
        assert WithKey(a, k) == WithKey(b, k);
        WithKeyTail(a, k);
        WithKeyTail(b, k);
      }
      StableSortUnique(a[1..], b[1..]);
      assert a == [a[0]] + a[1..] && b == [b[0]] + b[1..];
    }
  }

  // --------------------------------------------- independence of order

  /** No two different events share an order key. */
  ghost predicate KeysSeparate(events: seq<IrEvent>) {
    forall x, y :: x in events && y in events && OrderKey(x) == OrderKey(y) ==> x == y
  }

  ghost predicate Permutation(a: seq<IrEvent>, b: seq<IrEvent>) {
    multiset(a) == multiset(b)
  }

  lemma PermutationMembers(a: seq<IrEvent>, b: seq<IrEvent>)
    requires Permutation(a, b)
    ensures forall e :: e in a <==> e in b
    ensures |a| == |b|
  {
    assert forall e :: e in a <==> e in multiset(a);
    assert |a| == |multiset(a)| && |b| == |multiset(b)|;
  }

  /** The first event of an ordered sequence has the least key, so that key depends only
      on which events there are. */
  lemma SortedHeadKey(g: seq<IrEvent>, h: seq<IrEvent>)
    requires Sorted(g) && Sorted(h) && Permutation(g, h) && g != []
    ensures h != [] && OrderKey(g[0]) == OrderKey(h[0]) && h[0] in g
  {
    PermutationMembers(g, h);
    assert g[0] in h && h[0] in g;
    var i :| 0 <= i < |h| && h[i] == g[0];
    var j :| 0 <= j < |g| && g[j] == h[0];
    KeyLeTotalOrder(OrderKey(g[0]), OrderKey(h[0]));
  }

  lemma PermutationTail(a: seq<IrEvent>, b: seq<IrEvent>)
    requires Permutation(a, b) && a != [] && b != [] && a[0] == b[0]
    ensures Permutation(a[1..], b[1..])
  {
    assert a == [a[0]] + a[1..] && b == [b[0]] + b[1..];
    assert multiset(a[1..]) == multiset(a) - multiset{a[0]};
    assert multiset(b[1..]) == multiset(b) - multiset{b[0]};
  }

  lemma {:induction false} SortedUnique(a: seq<IrEvent>, b: seq<IrEvent>)
    requires Sorted(a) && Sorted(b) && Permutation(a, b) && KeysSeparate(a)
    ensures a == b
  {
    PermutationMembers(a, b);
    if a != [] {
      SortedHeadKey(a, b);
      assert a[0] == b[0];
      PermutationTail(a, b);
      assert forall e :: e in a[1..] ==> e in a;
      SortedUnique(a[1..], b[1..]);
      assert a == [a[0]] + a[1..] && b == [b[0]] + b[1..];
    }
  }

  lemma LinearizePermutation(a: seq<IrEvent>, b: seq<IrEvent>)
    requires Permutation(a, b) && KeysSeparate(a)
    ensures Linearize(a) == Linearize(b)
  {
    LinearizeSorts(a);
    LinearizeSorts(b);
    PermutationMembers(a, Linearize(a));
    SortedUnique(Linearize(a), Linearize(b));
  }

  /** Events that are in order already stay as they are. */
  lemma SortedStays(events: seq<IrEvent>)
    requires Sorted(events)
    ensures Linearize(events) == events
  {
    LinearizeSorts(events);
    forall k {
      LinearizeStable(events, k);
    }
    StableSortUnique(Linearize(events), events);
  }

  function Without(s: seq<IrEvent>, i: nat): (r: seq<IrEvent>)
    requires i < |s|
    ensures multiset(s) == multiset{s[i]} + multiset(r)
  {
    assert s == s[..i] + [s[i]] + s[i + 1..];
    s[..i] + s[i + 1..]
  }

  /** Exactly when the canonical order is a function of the multiset of events: when no
      two different events share timestamp, producer and identifier. */
  lemma LinearizeOrderIndependent(a: seq<IrEvent>)
    ensures (forall b :: Permutation(a, b) ==> Linearize(b) == Linearize(a)) <==> KeysSeparate(a)
  {
    hide Linearize, OrderKey;
    if KeysSeparate(a) {
      forall b | Permutation(a, b) ensures Linearize(b) == Linearize(a) {
        LinearizePermutation(a, b);
      }
    } else {
      var x, y :| x in a && y in a && OrderKey(x) == OrderKey(y) && x != y;
      var p, q := OrdersApart(a, x, y);
    }
  }

  lemma OrdersApart(a: seq<IrEvent>, x: IrEvent, y: IrEvent) returns (p: seq<IrEvent>, q: seq<IrEvent>)
    requires x in a && y in a && OrderKey(x) == OrderKey(y) && x != y
    ensures Permutation(a, p) && Permutation(a, q) && Linearize(p) != Linearize(q)
  {
    hide OrderKey, Linearize;
    var core := WithoutPair(a, x, y);
    p, q := [x, y] + core, [y, x] + core;
    assert multiset([x, y]) == multiset{x, y} && multiset([y, x]) == multiset{x, y};
    TiesKeepInputOrder(x, y, core);
  }

  lemma WithoutPair(a: seq<IrEvent>, x: IrEvent, y: IrEvent) returns (core: seq<IrEvent>)
    requires x in a && y in a && x != y
    ensures multiset(a) == multiset{x, y} + multiset(core)
  {
    var i :| 0 <= i < |a| && a[i] == x;
    var rest := Without(a, i);
    assert y in multiset(a) && multiset(a)[y] == multiset(rest)[y];
    assert y in multiset(rest);
    var j :| 0 <= j < |rest| && rest[j] == y;
    core := Without(rest, j);
    assert multiset(a) == multiset{x} + (multiset{y} + multiset(core));
  }

  lemma TiesKeepInputOrder(x: IrEvent, y: IrEvent, core: seq<IrEvent>)
    requires OrderKey(x) == OrderKey(y) && x != y
    ensures Linearize([x, y] + core) != Linearize([y, x] + core)
  {
    var p, q := [x, y] + core, [y, x] + core;
    var k := OrderKey(x);
    LinearizeStable(p, k);
    LinearizeStable(q, k);
    WithKeyTail(p, k);
    WithKeyTail(q, k);
    assert WithKey(p, k)[0] == x && WithKey(q, k)[0] == y;
  }

  lemma {:induction false} InsertBeforeSuffix(e: IrEvent, x: seq<IrEvent>, y: seq<IrEvent>)
    requires forall i :: 0 <= i < |y| ==> Precedes(e, y[i])
    ensures Insert(e, x + y) == Insert(e, x) + y
  {
    if x == [] {
      assert x + y == y;
    } else {
      assert (x + y)[1..] == x[1..] + y;
      if Precedes(e, x[0]) {
        assert [e] + (x + y) == ([e] + x) + y;
      } else {
        InsertBeforeSuffix(e, x[1..], y);
      }
    }
  }

  /** A log extended by canonically later events is linearized by extending its
      linearization. */
  lemma {:induction false} LinearizeAppend(log: seq<IrEvent>, later: seq<IrEvent>)
    requires forall x, y :: x in log && y in later ==> Precedes(x, y)
    ensures Linearize(log + later) == Linearize(log) + Linearize(later)
  {
    if log == [] {
      assert log + later == later;
    } else {
      assert (log + later)[1..] == log[1..] + later;
      LinearizeAppend(log[1..], later);
      LinearizeSorts(later);
      PermutationMembers(later, Linearize(later));
      InsertBeforeSuffix(log[0], Linearize(log[1..]), Linearize(later));
    }
  }

  // ---------------------------------------------- duplicate identifiers

  /** An identifier carried by more than one event. */
  datatype DuplicateEventId = DuplicateEventId(eventId: Uuid, producer: string, count: nat, divergent: bool)

  /** The events carrying one identifier, in the order they appear. */
  function Group(events: seq<IrEvent>, id: Uuid): (g: seq<IrEvent>)
    ensures forall e :: e in g <==> e in events && e.eventId == id
  {
    if events == [] then []
    else
      assert events == [events[0]] + events[1..];
      (if events[0].eventId == id then [events[0]] else []) + Group(events[1..], id)
  }

  function Finding(id: Uuid, group: seq<IrEvent>): DuplicateEventId
    requires group != []
  {
    DuplicateEventId(id, group[0].producer, |group|, exists i :: 0 <= i < |group| && group[i] != group[0])
  }

  /** The findings of canonically ordered events, by identifier. */
  ghost predicate AreFindings(findings: map<Uuid, DuplicateEventId>, canonical: seq<IrEvent>) {
    && (forall id :: id in findings <==> |Group(canonical, id)| > 1)
    && (forall id :: id in findings ==> findings[id] == Finding(id, Group(canonical, id)))
  }

  /** The findings of canonically ordered events, all at once. */
  ghost function FindingsOf(canonical: seq<IrEvent>): (findings: map<Uuid, DuplicateEventId>)
    ensures AreFindings(findings, canonical)
  {
    var ids := set e | e in canonical :: e.eventId;
    forall id | |Group(canonical, id)| > 1 ensures id in ids {
      assert Group(canonical, id)[0] in canonical;
    }
    map id | id in ids && |Group(canonical, id)| > 1 :: Finding(id, Group(canonical, id))
  }

  /** No identifier stands for two different events. */
  predicate IsDeterministic(findings: map<Uuid, DuplicateEventId>) {
    forall id :: id in findings ==> !findings[id].divergent
  }

  lemma {:induction false} GroupSnoc(events: seq<IrEvent>, e: IrEvent, id: Uuid)
    ensures Group(events + [e], id) == Group(events, id) + (if e.eventId == id then [e] else [])
  {
    if events == [] {
      assert events + [e] == [e] && [e][1..] == [];
    } else {
      assert (events + [e])[1..] == events[1..] + [e];
      GroupSnoc(events[1..], e, id);
    }
  }

  lemma NothingGrouped()
    ensures forall id :: Group([], id) == []
  {
  }

  /** Linearize, and find every identifier that occurs more than once. */
  method LinearizeChecked(log: seq<IrEvent>) returns (canonical: seq<IrEvent>, findings: map<Uuid, DuplicateEventId>)
    ensures canonical == Linearize(log)
    ensures AreFindings(findings, canonical)
  {
    hide Finding, OrderKey, Linearize, Group;
    canonical := Linearize(log);
    NothingGrouped();
    var byId: map<Uuid, seq<IrEvent>> := map[];
    for i := 0 to |canonical|
      invariant forall id :: id in byId <==> Group(canonical[..i], id) != []
      invariant forall id :: id in byId ==> byId[id] == Group(canonical[..i], id)
    {
      var e := canonical[i];
      assert canonical[..i + 1] == canonical[..i] + [e];
      forall id { GroupSnoc(canonical[..i], e, id); }
      byId := byId[e.eventId := (if e.eventId in byId then byId[e.eventId] else []) + [e]];
    }
    assert canonical[..|canonical|] == canonical;
    findings := map id | id in byId && |byId[id]| > 1 :: Finding(id, byId[id]);
  }

  lemma {:induction false} GroupCounts(events: seq<IrEvent>, id: Uuid, e: IrEvent)
    ensures multiset(Group(events, id))[e] == if e.eventId == id then multiset(events)[e] else 0
  {
    if events != [] {
      GroupCounts(events[1..], id, e);
      assert events == [events[0]] + events[1..];
    }
  }

  lemma GroupPermutation(a: seq<IrEvent>, b: seq<IrEvent>, id: Uuid)
    requires Permutation(a, b)
    ensures Permutation(Group(a, id), Group(b, id))
  {
    forall e ensures multiset(Group(a, id))[e] == multiset(Group(b, id))[e] {
      GroupCounts(a, id, e);
      GroupCounts(b, id, e);
    }
  }

  lemma {:induction false} GroupSorted(events: seq<IrEvent>, id: Uuid)
    requires Sorted(events)
    ensures Sorted(Group(events, id))
  {
    if events != [] {
      GroupSorted(events[1..], id);
      var rest := Group(events[1..], id);
      forall j | 0 <= j < |rest| ensures Precedes(events[0], rest[j]) {
        assert rest[j] in events[1..];
        var m :| 0 <= m < |events[1..]| && events[1..][m] == rest[j];
        assert events[m + 1] == rest[j];
      }
    }
  }

  /** The duplicate findings, and so the determinism answer, are the same for every
      physical order of the log, whether or not copies diverge. */
  lemma FindingsPermutation(a: seq<IrEvent>, b: seq<IrEvent>,
                            fa: map<Uuid, DuplicateEventId>, fb: map<Uuid, DuplicateEventId>)
    requires Permutation(a, b)
    requires AreFindings(fa, Linearize(a)) && AreFindings(fb, Linearize(b))
    ensures fa == fb
    ensures IsDeterministic(fa) == IsDeterministic(fb)
  {
    hide Finding, OrderKey, IsDeterministic;
    forall id ensures id in fa <==> id in fb
              ensures id in fa ==> fa[id] == fb[id]
    {
      FindingPermutation(a, b, id);
    }
  }

  lemma FindingPermutation(a: seq<IrEvent>, b: seq<IrEvent>, id: Uuid)
    requires Permutation(a, b)
    ensures var g, h := Group(Linearize(a), id), Group(Linearize(b), id);
            |g| == |h| && (g != [] ==> Finding(id, g) == Finding(id, h))
  {
    hide Linearize, Group;
    LinearizeSorts(a);
    LinearizeSorts(b);
    var g, h := Group(Linearize(a), id), Group(Linearize(b), id);
    GroupPermutation(Linearize(a), Linearize(b), id);
    PermutationMembers(g, h);
    if g != [] {
      GroupSorted(Linearize(a), id);
      GroupSorted(Linearize(b), id);
      SortedHeadKey(g, h);
      DivergenceAgrees(g, h);
    }
  }

  lemma DivergenceAgrees(g: seq<IrEvent>, h: seq<IrEvent>)
    requires g != [] && h != [] && forall e :: e in g <==> e in h
    ensures (exists i :: 0 <= i < |g| && g[i] != g[0]) <==> (exists i :: 0 <= i < |h| && h[i] != h[0])
  {
    assert g[0] in h && h[0] in g;
    if i :| 0 <= i < |g| && g[i] != g[0] {
      assert g[i] in h;
    }
    if i :| 0 <= i < |h| && h[i] != h[0] {
      assert h[i] in g;
    }
  }

  /** A log is reported deterministic exactly when no identifier is carried by two
      different events, from one producer or from several. */
  lemma DeterministicMeansNoDivergence(log: seq<IrEvent>, findings: map<Uuid, DuplicateEventId>)
    requires AreFindings(findings, Linearize(log))
    ensures IsDeterministic(findings)
            <==> forall x, y :: x in log && y in log && x.eventId == y.eventId ==> x == y
  {
    LinearizeSorts(log);
    PermutationMembers(log, Linearize(log));
    forall x, y | IsDeterministic(findings) && x in log && y in log && x.eventId == y.eventId ensures x == y {
      GroupUniform(Linearize(log), findings, x);
      GroupUniform(Linearize(log), findings, y);
    }
    if !IsDeterministic(findings) {
      var id :| id in findings && findings[id].divergent;
      var g := Group(Linearize(log), id);
      var i :| 0 <= i < |g| && g[i] != g[0];
      assert g[i] in g && g[0] in g;
    }
  }

  lemma GroupUniform(canonical: seq<IrEvent>, findings: map<Uuid, DuplicateEventId>, x: IrEvent)
    requires AreFindings(findings, canonical) && IsDeterministic(findings) && x in canonical
    ensures var g := Group(canonical, x.eventId); g != [] && x == g[0]
  {
    var g := Group(canonical, x.eventId);
    assert x in g;
    var i :| 0 <= i < |g| && g[i] == x;
    if |g| > 1 {
      assert !findings[x.eventId].divergent;
    }
  }

  /** A deterministic log replays identically from every physical order. */
  lemma DeterministicKeysSeparate(log: seq<IrEvent>, findings: map<Uuid, DuplicateEventId>)
    requires AreFindings(findings, Linearize(log)) && IsDeterministic(findings)
    ensures KeysSeparate(log)
  {
    DeterministicMeansNoDivergence(log, findings);
  }
}
