/** The per-producer view of the log: each producer's events in identifier order, and a
    report of every event that went backwards. */
module ProducerStreams {
  import opened Primitives
  import opened Ir

  datatype Violation = Violation(producer: string, previous: Uuid, observed: Uuid, logIndex: nat)

  /** One producer's events, in the order the log holds them. */
  function EmittedBy(events: seq<IrEvent>, producer: string): (r: seq<IrEvent>)
    ensures |r| <= |events|
  {
    if events == [] then []
    else
      var last := events[|events| - 1];
      EmittedBy(events[..|events| - 1], producer) + if last.producer == producer then [last] else []
  }

  function ViolationAt(events: seq<IrEvent>, i: nat): seq<Violation>
    requires i < |events|
  {
    var e := events[i];
    var before := EmittedBy(events[..i], e.producer);
    if before != [] && e.eventId < before[|before| - 1].eventId
    then [Violation(e.producer, before[|before| - 1].eventId, e.eventId, i)] else []
  }

  /** Every event whose identifier is below that of its producer's preceding event. */
  function ViolationsOf(events: seq<IrEvent>, n: nat): seq<Violation>
    requires n <= |events|
  {
    if n == 0 then [] else ViolationsOf(events, n - 1) + ViolationAt(events, n - 1)
  }

  function InsertById(e: IrEvent, sorted: seq<IrEvent>): seq<IrEvent> {
    if sorted == [] || e.eventId <= sorted[0].eventId then [e] + sorted else [sorted[0]] + InsertById(e, sorted[1..])
  }

  /** The stable sort by identifier. */
  function SortById(events: seq<IrEvent>): seq<IrEvent> {
    if events == [] then [] else InsertById(events[0], SortById(events[1..]))
  }

  predicate InIdOrder(events: seq<IrEvent>) {
    forall i :: 0 < i < |events| ==> events[i - 1].eventId <= events[i].eventId
  }

  function Producers(events: seq<IrEvent>): set<string> {
    set e | e in events :: e.producer
  }

  lemma EmittedBySnoc(events: seq<IrEvent>, n: nat, producer: string)
    requires n < |events|
    ensures EmittedBy(events[..n + 1], producer)
            == EmittedBy(events[..n], producer) + if events[n].producer == producer then [events[n]] else []
  {
    assert events[..n + 1][..n] == events[..n];
  }

  lemma ProducersSnoc(events: seq<IrEvent>, n: nat)
    requires n < |events|
    ensures Producers(events[..n + 1]) == Producers(events[..n]) + {events[n].producer}
  {
    assert events[..n + 1] == events[..n] + [events[n]];
  }

  lemma NothingEmitted()
    ensures Producers([]) == {} && forall p :: EmittedBy([], p) == []
  {
  }

  /** Group the log by producer, sort each group, and report what was out of order. */
  method FromLogOrder(events: seq<IrEvent>) returns (streams: map<string, seq<IrEvent>>, violations: seq<Violation>)
    ensures streams.Keys == Producers(events)
    ensures forall p :: p in streams ==> streams[p] == SortById(EmittedBy(events, p))
    ensures violations == ViolationsOf(events, |events|)
  {
    hide EmittedBy, Producers, SortById, ViolationAt;
    NothingEmitted();
    assert events[..0] == [];
    var grouped: map<string, seq<IrEvent>> := map[];
    violations := [];
    for logIndex := 0 to |events|
      invariant grouped.Keys == Producers(events[..logIndex])
      invariant forall p :: Listed(grouped, p) == EmittedBy(events[..logIndex], p)
      invariant violations == ViolationsOf(events, logIndex)
    {
      var event := events[logIndex];
      var stream := Listed(grouped, event.producer);
      assert stream == EmittedBy(events[..logIndex], event.producer);
      ViolationFound(events, logIndex, stream);
      if |stream| > 0 {
        var previous := stream[|stream| - 1];
        if event.eventId < previous.eventId {
          violations := violations + [Violation(event.producer, previous.eventId, event.eventId, logIndex)];
        }
      }
      ProducersSnoc(events, logIndex);
      var next := grouped[event.producer := stream + [event]];
      forall p ensures Listed(next, p) == EmittedBy(events[..logIndex + 1], p) {
        EmittedBySnoc(events, logIndex, p);
        assert Listed(grouped, p) == EmittedBy(events[..logIndex], p);
      }
      grouped := next;
    }
    assert events[..|events|] == events;
    streams := map p | p in grouped :: SortById(grouped[p]);
    forall p | p in streams ensures streams[p] == SortById(EmittedBy(events, p)) {
      assert Listed(grouped, p) == EmittedBy(events[..|events|], p);
    }
  }

  function Listed(grouped: map<string, seq<IrEvent>>, p: string): seq<IrEvent> {
    if p in grouped then grouped[p] else []
  }

  lemma ViolationFound(events: seq<IrEvent>, i: nat, stream: seq<IrEvent>)
    requires i < |events| && stream == EmittedBy(events[..i], events[i].producer)
    ensures ViolationsOf(events, i + 1) == ViolationsOf(events, i) +
            if stream != [] && events[i].eventId < stream[|stream| - 1].eventId
            then [Violation(events[i].producer, stream[|stream| - 1].eventId, events[i].eventId, i)] else []
  {
    hide EmittedBy;
  }

  lemma ConsInOrder(first: IrEvent, rest: seq<IrEvent>)
    ensures InIdOrder([first] + rest) <==> InIdOrder(rest) && (rest != [] ==> first.eventId <= rest[0].eventId)
  {
    var all := [first] + rest;
    assert forall i :: 0 <= i < |rest| ==> all[i + 1] == rest[i];
    if InIdOrder(all) {
      forall i | 0 < i < |rest| ensures rest[i - 1].eventId <= rest[i].eventId {
        assert all[i].eventId <= all[i + 1].eventId;
      }
      assert rest != [] ==> all[0].eventId <= all[1].eventId;
    }
  }

  lemma {:induction false} InsertByIdSorts(e: IrEvent, sorted: seq<IrEvent>)
    requires InIdOrder(sorted)
    ensures InIdOrder(InsertById(e, sorted))
    ensures InsertById(e, sorted) != []
    ensures InsertById(e, sorted)[0] == e || (sorted != [] && InsertById(e, sorted)[0] == sorted[0])
  {
    hide InIdOrder;
    ConsInOrder(e, sorted);
    if sorted != [] {
      assert sorted == [sorted[0]] + sorted[1..];
      ConsInOrder(sorted[0], sorted[1..]);
      if e.eventId > sorted[0].eventId {
        InsertByIdSorts(e, sorted[1..]);
        ConsInOrder(sorted[0], InsertById(e, sorted[1..]));
      }
    }
  }

  lemma {:induction false} InsertByIdKeeps(e: IrEvent, sorted: seq<IrEvent>)
    ensures multiset(InsertById(e, sorted)) == multiset{e} + multiset(sorted)
  {
    if sorted != [] {
      InsertByIdKeeps(e, sorted[1..]);
      assert sorted == [sorted[0]] + sorted[1..];
    }
  }

  lemma {:induction false} SortInOrder(events: seq<IrEvent>)
    ensures InIdOrder(SortById(events))
  {
    if events == [] {
      OrderOfNothing();
    } else {
      SortInOrder(events[1..]);
      InsertByIdSorts(events[0], SortById(events[1..]));
    }
  }

  lemma {:induction false} SortKeeps(events: seq<IrEvent>)
    ensures multiset(SortById(events)) == multiset(events)
  {
    hide InsertById;
    if events != [] {
      SortKeeps(events[1..]);
      InsertByIdKeeps(events[0], SortById(events[1..]));
      assert events == [events[0]] + events[1..];
    }
  }

  lemma {:induction false} SortLeavesOrder(events: seq<IrEvent>)
    requires InIdOrder(events)
    ensures SortById(events) == events
  {
    hide InIdOrder;
    if events != [] {
      assert events == [events[0]] + events[1..];
      ConsInOrder(events[0], events[1..]);
      SortLeavesOrder(events[1..]);
    }
  }

  /** The events carrying one identifier, in the order they appear. */
  function WithId(events: seq<IrEvent>, id: Uuid): seq<IrEvent> {
    if events == [] then []
    else (if events[0].eventId == id then [events[0]] else []) + WithId(events[1..], id)
  }

  lemma WithIdCons(first: IrEvent, rest: seq<IrEvent>, id: Uuid)
    ensures WithId([first] + rest, id) == (if first.eventId == id then [first] else []) + WithId(rest, id)
  {
    assert ([first] + rest)[1..] == rest;
  }

  lemma {:induction false} InsertByIdStable(e: IrEvent, sorted: seq<IrEvent>, id: Uuid)
    ensures WithId(InsertById(e, sorted), id) == (if e.eventId == id then [e] else []) + WithId(sorted, id)
  {
    hide WithId;
    WithIdCons(e, sorted, id);
    if sorted != [] && e.eventId > sorted[0].eventId {
      InsertByIdStable(e, sorted[1..], id);
      assert sorted == [sorted[0]] + sorted[1..];
      WithIdCons(sorted[0], sorted[1..], id);
      WithIdCons(sorted[0], InsertById(e, sorted[1..]), id);
    }
  }

  lemma {:induction false} SortStable(events: seq<IrEvent>, id: Uuid)
    ensures WithId(SortById(events), id) == WithId(events, id)
  {
    hide InsertById;
    if events != [] {
      SortStable(events[1..], id);
      InsertByIdStable(events[0], SortById(events[1..]), id);
    }
  }

  /** Sorting keeps every event of the producer, in identifier order, events with one
      identifier in the order they came, and leaves a stream that is in order as it is. */
  lemma SortByIdSorts(events: seq<IrEvent>, id: Uuid)
    ensures InIdOrder(SortById(events))
    ensures multiset(SortById(events)) == multiset(events)
    ensures WithId(SortById(events), id) == WithId(events, id)
    ensures InIdOrder(events) ==> SortById(events) == events
  {
    hide InIdOrder, SortById, WithId;
    SortInOrder(events);
    SortKeeps(events);
    SortStable(events, id);
    if InIdOrder(events) {
      SortLeavesOrder(events);
    }
  }

  lemma InOrderSnoc(before: seq<IrEvent>, e: IrEvent)
    ensures InIdOrder(before + [e]) <==>
            InIdOrder(before) && (before != [] ==> before[|before| - 1].eventId <= e.eventId)
  {
    var after, last := before + [e], |before|;
    assert forall i :: 0 <= i < last ==> after[i] == before[i];
    assert InIdOrder(after) && 0 < last ==> after[last - 1].eventId <= after[last].eventId;
  }

  /** Every producer's events among the first `n` came in identifier order. */
  ghost predicate AllInOrder(events: seq<IrEvent>, n: nat)
    requires n <= |events|
  {
    forall p :: InIdOrder(EmittedBy(events[..n], p))
  }

  lemma OrderStep(events: seq<IrEvent>, m: nat)
    requires m < |events|
    ensures AllInOrder(events, m + 1) <==> AllInOrder(events, m) && ViolationAt(events, m) == []
  {
    hide EmittedBy, InIdOrder;
    var e := events[m];
    var before, after := EmittedBy(events[..m], e.producer), EmittedBy(events[..m + 1], e.producer);
    InOrderSnoc(before, e);
    EmittedBySnoc(events, m, e.producer);
    assert InIdOrder(after) <==> InIdOrder(before) && ViolationAt(events, m) == [];
    forall p | p != e.producer ensures EmittedBy(events[..m + 1], p) == EmittedBy(events[..m], p) {
      EmittedBySnoc(events, m, p);
    }
    var short, long := events[..m], events[..m + 1];
    if AllInOrder(events, m + 1) {
      assert InIdOrder(after);
      forall p ensures InIdOrder(EmittedBy(short, p)) {
        assert InIdOrder(EmittedBy(long, p));
      }
    }
    if AllInOrder(events, m) && ViolationAt(events, m) == [] {
      forall p ensures InIdOrder(EmittedBy(long, p)) {
        assert InIdOrder(EmittedBy(short, p));
      }
    }
  }

  lemma {:induction false} NoViolationSoFar(events: seq<IrEvent>, n: nat)
    requires n <= |events|
    ensures ViolationsOf(events, n) == [] <==> AllInOrder(events, n)
  {
    hide EmittedBy, InIdOrder, ViolationAt;
    if n == 0 {
      NothingEmitted();
      assert events[..n] == [];
      OrderOfNothing();
    } else {
      NoViolationSoFar(events, n - 1);
      OrderStep(events, n - 1);
    }
  }

  lemma OrderOfNothing()
    ensures InIdOrder([])
  {
  }

  lemma SortedExactlyWhenInOrder(events: seq<IrEvent>)
    ensures SortById(events) == events <==> InIdOrder(events)
  {
    hide InIdOrder, SortById;
    SortInOrder(events);
    if InIdOrder(events) {
      SortLeavesOrder(events);
    }
  }

  lemma StreamInOrder(events: seq<IrEvent>, p: string)
    requires AllInOrder(events, |events|)
    ensures InIdOrder(EmittedBy(events, p))
  {
    hide InIdOrder;
    assert InIdOrder(EmittedBy(events[..|events|], p));
    assert events[..|events|] == events;
  }

  lemma StreamsInOrder(events: seq<IrEvent>)
    requires forall p :: InIdOrder(EmittedBy(events, p))
    ensures AllInOrder(events, |events|)
  {
    hide InIdOrder;
    forall p ensures InIdOrder(EmittedBy(events[..|events|], p)) {
      assert events[..|events|] == events;
      assert InIdOrder(EmittedBy(events, p));
    }
  }

  /** Sorting leaves every producer's stream as the log had it. */
  ghost predicate StreamsUnchanged(events: seq<IrEvent>) {
    forall p :: SortById(EmittedBy(events, p)) == EmittedBy(events, p)
  }

  lemma UnchangedExactlyWhenInOrder(events: seq<IrEvent>)
    ensures StreamsUnchanged(events) <==> AllInOrder(events, |events|)
  {
    if AllInOrder(events, |events|) {
      forall p ensures SortById(EmittedBy(events, p)) == EmittedBy(events, p) {
        StreamInOrder(events, p);
        SortedExactlyWhenInOrder(EmittedBy(events, p));
      }
    }
    if StreamsUnchanged(events) {
      forall p ensures InIdOrder(EmittedBy(events, p)) {
        SortedExactlyWhenInOrder(EmittedBy(events, p));
      }
      StreamsInOrder(events);
    }
  }

  /** Nothing is reported exactly when sorting changes no stream: every producer's events came
      in identifier order. */
  lemma SilentExactlyWhenInOrder(events: seq<IrEvent>)
    ensures ViolationsOf(events, |events|) == [] <==> StreamsUnchanged(events)
  {
    NoViolationSoFar(events, |events|);
    UnchangedExactlyWhenInOrder(events);
  }
}
