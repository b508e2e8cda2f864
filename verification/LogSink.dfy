/** The append-only sink: one record per event, within an optional byte budget. */
module LogSink {
  import opened Primitives
  import opened Wrappers
  import opened Text
  import opened Ir
  import opened Identifiers
  import opened LogReader

  const STORE_PRODUCER := "freshdag-store"
  const STORE_VERSION := "0.0.0"

  /** Bytes held back from the budget so that a drop can always be announced. */
  const DIAGNOSTIC_RESERVE_BYTES: nat := 2048

  datatype AppendOutcome = Appended | DroppedNewest(totalDropped: nat)

  /** The fresh identifier and the wall clock reading a store diagnostic is stamped with. */
  datatype Stamp = Stamp(id: Uuid, at: Instant)

  function DropDiagnostic(dropped: IrEvent, totalDropped: nat, stamp: Stamp): IrEvent {
    IrEvent(stamp.id, STORE_PRODUCER, STORE_VERSION, dropped.sessionId, dropped.computationId, None,
            Some([dropped.eventId]), stamp.at, EventKind.Diagnostic,
            Object(map["message" := TextField("sink byte budget exhausted; dropping newest events"),
                       "reason" := TextField("sink_budget_exhausted"), "dropped_newest" := FlagField(true),
                       "dropped_event_id" := OtherField(Decimal(dropped.eventId)),
                       "dropped_kind" := TextField(dropped.kind.Wire()),
                         "dropped_producer" := TextField(dropped.producer),
                       "total_dropped" := NumberField(totalDropped)]),
            NotDecoded)
  }

  function DropSummary(sessionId: string, totalDropped: nat, stamp: Stamp): IrEvent {
    IrEvent(stamp.id, STORE_PRODUCER, STORE_VERSION, sessionId, None, None, None, stamp.at, EventKind.Diagnostic,
            Object(map["message" := TextField("sink closed after dropping events under back-pressure"),
                       "reason" := TextField("sink_budget_exhausted"), "dropped_newest" := FlagField(true),
                       "total_dropped" := NumberField(totalDropped)]),
            NotDecoded)
  }

  function SaturatingAdd(a: nat, b: nat): nat {
    if a + b > U64_MAX then U64_MAX else a + b
  }

  /** The part of a budget events may use. */
  function Usable(max: nat): nat {
    if max < DIAGNOSTIC_RESERVE_BYTES then 0 else max - DIAGNOSTIC_RESERVE_BYTES
  }

  datatype SinkState = SinkState(file: seq<Byte>, bytesWritten: nat, dropped: nat, announced: bool) {

    /** The byte count is the length of the file as far as 64 bits can say, and a drop has been
        announced exactly when one has happened. */
    predicate Valid() {
      bytesWritten == SaturatingAdd(|file|, 0) && (announced <==> dropped > 0)
    }

    predicate WouldExceed(maxBytes: Option<nat>, length: nat) {
      maxBytes.Some? && SaturatingAdd(bytesWritten, length) > Usable(maxBytes.value)
    }

    function With(record: seq<Byte>): SinkState {
      this.(file := file + record, bytesWritten := SaturatingAdd(bytesWritten, |record|))
    }
  }

  /** What one append does. */
  function AfterAppend(s: SinkState, maxBytes: Option<nat>, encode: Encoder, event: IrEvent, stamp: Stamp): (SinkState,
    AppendOutcome) {
    var record := Record(event, encode);
    if !s.WouldExceed(maxBytes, |record|) then (s.With(record), Appended)
    else
      var counted := s.(dropped := s.dropped + 1, announced := true);
      (if s.announced then counted else counted.With(Record(DropDiagnostic(event, s.dropped + 1, stamp), encode)),
       DroppedNewest(s.dropped + 1))
  }

  class JsonlSink {
    const maxBytes: Option<nat>
    var file: seq<Byte>
    var bytesWritten: nat
    var dropped: nat
    var announcedDrop: bool

    function State(): SinkState
      reads this
    {
      SinkState(file, bytesWritten, dropped, announcedDrop)
    }

    /** Open a log that already holds some bytes. */
    constructor (existing: seq<Byte>, maxBytes: Option<nat>)
      requires |existing| <= U64_MAX
      ensures this.maxBytes == maxBytes
      ensures State() == SinkState(existing, |existing|, 0, false) && State().Valid()
    {
      this.maxBytes, file, bytesWritten, dropped, announcedDrop := maxBytes, existing, |existing|, 0, false;
    }

    method WriteRecord(record: seq<Byte>)
      modifies this
      ensures State() == old(State()).With(record)
    {
      file := file + record;
      bytesWritten := SaturatingAdd(bytesWritten, |record|);
    }

    method Append(event: IrEvent, stamp: Stamp, encode: Encoder) returns (outcome: AppendOutcome)
      modifies this
      ensures (State(), outcome) == AfterAppend(old(State()), maxBytes, encode, event, stamp)
    {
      var record := Record(event, encode);
      if State().WouldExceed(maxBytes, |record|) {
        dropped := dropped + 1;
        var totalDropped := dropped;
        if !announcedDrop {
          announcedDrop := true;
          WriteRecord(Record(DropDiagnostic(event, totalDropped, stamp), encode));
        }
        return DroppedNewest(totalDropped);
      }
      WriteRecord(record);
      return Appended;
    }

    method AppendAll(attempts: seq<Attempt>, encode: Encoder) returns (outcomes: seq<AppendOutcome>)
      modifies this
      ensures var session := Session(old(State()), maxBytes, encode, attempts);
              State() == session.After(|attempts|) && outcomes == session.Outcomes(|attempts|)
    {
      hide AfterAppend;
      outcomes := [];
      ghost var session := Session(State(), maxBytes, encode, attempts);
      for i := 0 to |attempts|
        invariant State() == session.After(i) && outcomes == session.Outcomes(i)
      {
        var outcome := Append(attempts[i].event, attempts[i].stamp, encode);
        outcomes := outcomes + [outcome];
      }
    }

    /** Close the session: say how much was dropped, if anything was. */
    method Finish(sessionId: string, stamp: Stamp, encode: Encoder)
      modifies this
      ensures State() == if old(dropped) > 0
              then old(State()).With(Record(DropSummary(sessionId, old(dropped), stamp), encode))
                         else old(State())
    {
      if dropped > 0 {
        WriteRecord(Record(DropSummary(sessionId, dropped, stamp), encode));
      }
    }
  }

  // -------------------------------------------------------- whole runs

  datatype Attempt = Attempt(event: IrEvent, stamp: Stamp)

  /** A run of appends to one sink. */
  datatype Session = Session(start: SinkState, maxBytes: Option<nat>, encode: Encoder, attempts: seq<Attempt>) {

    function After(n: nat): SinkState
      requires n <= |attempts|
    {
      if n == 0 then start
        else AfterAppend(After(n - 1), maxBytes, encode, attempts[n - 1].event, attempts[n - 1].stamp).0
    }

    function OutcomeOf(i: nat): AppendOutcome
      requires i < |attempts|
    {
      AfterAppend(After(i), maxBytes, encode, attempts[i].event, attempts[i].stamp).1
    }

    function Outcomes(n: nat): seq<AppendOutcome>
      requires n <= |attempts|
    {
      if n == 0 then [] else Outcomes(n - 1) + [OutcomeOf(n - 1)]
    }

    /** The events of the attempts from `from` up to `n`. */
    function Offered(from: nat, n: nat): seq<IrEvent>
      requires from <= n <= |attempts|
    {
      if n == from then [] else Offered(from, n - 1) + [attempts[n - 1].event]
    }

    /** Those of them that were appended. */
    function Survivors(from: nat, n: nat): seq<IrEvent>
      requires from <= n <= |attempts|
    {
      if n == from then []
      else Survivors(from, n - 1) + if OutcomeOf(n - 1).Appended? then [attempts[n - 1].event] else []
    }

    /** The first of the first `n` attempts that was dropped, or `n`. */
    function FirstDrop(n: nat): (f: nat)
      requires n <= |attempts|
      ensures f <= n
      ensures f < n ==> OutcomeOf(f).DroppedNewest?
      ensures forall i :: 0 <= i < f ==> OutcomeOf(i).Appended?
    {
      if n == 0 then 0
      else
        var f := FirstDrop(n - 1);
        if f < n - 1 || OutcomeOf(n - 1).DroppedNewest? then f else n
    }

    /** What the log holds beyond what it held at the start: everything up to the first drop,
        the one announcement in that event's place, and then only what still fitted. */
    function Recorded(n: nat): seq<IrEvent>
      requires n <= |attempts|
    {
      var f := FirstDrop(n);
      if f == n then Offered(0, n)
      else Offered(0, f) + [DropDiagnostic(attempts[f].event, 1, attempts[f].stamp)] + Survivors(f + 1, n)
    }

    /** A sink that has dropped nothing yet. */
    predicate Fresh() {
      start.Valid() && start.dropped == 0 && (maxBytes.Some? ==> maxBytes.value <= U64_MAX)
    }
  }

  predicate IsSubsequence(xs: seq<IrEvent>, ys: seq<IrEvent>) {
    if xs == [] then true
    else if ys == [] then false
    else
      || (xs[|xs| - 1] == ys[|ys| - 1] && IsSubsequence(xs[..|xs| - 1], ys[..|ys| - 1]))
      || IsSubsequence(xs, ys[..|ys| - 1])
  }

  lemma AppendKeepsValid(s: SinkState, maxBytes: Option<nat>, encode: Encoder, event: IrEvent, stamp: Stamp)
    requires s.Valid()
    ensures AfterAppend(s, maxBytes, encode, event, stamp).0.Valid()
  {
    hide DropDiagnostic, Record;
  }

  lemma {:induction false} AlwaysValid(session: Session, n: nat)
    requires session.start.Valid() && n <= |session.attempts|
    ensures session.After(n).Valid()
  {
    hide AfterAppend, SinkState.Valid;
    if n > 0 {
      AlwaysValid(session, n - 1);
      AppendKeepsValid(session.After(n - 1), session.maxBytes, session.encode, session.attempts[n - 1].event,
                       session.attempts[n - 1].stamp);
    }
  }

  /** An event survives exactly when the true length of the file with its record stays within
      the usable budget. Saturation of the byte count never decides. */
  lemma SurvivesExactlyWhenItFits(session: Session, i: nat)
    requires session.Fresh() && i < |session.attempts|
    ensures session.OutcomeOf(i).Appended? <==>
            || session.maxBytes.None?
            || |session.After(i).file|
              + |Record(session.attempts[i].event, session.encode)| <= Usable(session.maxBytes.value)
    ensures session.OutcomeOf(i).Appended? <==>
            || session.maxBytes.None?
            || |session.After(i).file| + |session.encode(session.attempts[i].event)| + 1 + 2048
               <= session.maxBytes.value
  {
    hide DropDiagnostic;
    AlwaysValid(session, i);
  }

  lemma {:induction false} DroppedCount(session: Session, n: nat)
    requires session.Fresh() && n <= |session.attempts|
    ensures session.After(n).dropped == 0 <==> session.FirstDrop(n) == n
    ensures |session.Survivors(0, n)| + session.After(n).dropped == n
  {
    hide Record, DropDiagnostic;
    if n > 0 {
      DroppedCount(session, n - 1);
    }
  }

  lemma StepFile(s: SinkState, maxBytes: Option<nat>, encode: Encoder, event: IrEvent, stamp: Stamp)
    ensures var (after, outcome) := AfterAppend(s, maxBytes, encode, event, stamp);
            after.file == s.file + if outcome.Appended? then Record(event, encode)
                                   else if s.announced then []
                                     else Record(DropDiagnostic(event, s.dropped + 1, stamp), encode)
  {
    hide Record, DropDiagnostic;
  }

  lemma {:induction false} WrittenSnoc(events: seq<IrEvent>, e: IrEvent, encode: Encoder)
    ensures Written(events + [e], encode) == Written(events, encode) + Record(e, encode)
  {
    hide Record;
    if events == [] {
      assert events + [e] == [e] && [e][1..] == [];
    } else {
      WrittenSnoc(events[1..], e, encode);
      assert (events + [e])[1..] == events[1..] + [e];
    }
  }

  lemma RecordedStep(session: Session, n: nat)
    requires n < |session.attempts|
    ensures session.Recorded(n + 1) == session.Recorded(n) +
            if session.OutcomeOf(n).Appended? then [session.attempts[n].event]
            else if session.FirstDrop(n) == n
              then [DropDiagnostic(session.attempts[n].event, 1, session.attempts[n].stamp)]
            else []
  {
    hide DropDiagnostic, Session.OutcomeOf;
    var f := session.FirstDrop(n);
    assert session.FirstDrop(n + 1) == if f < n || session.OutcomeOf(n).DroppedNewest? then f else n + 1;
    hide Session.FirstDrop;
    if f == n && session.OutcomeOf(n).DroppedNewest? {
      assert session.Survivors(n + 1, n + 1) == [];
    }
  }

  /** Over any run of appends the bytes already there stay a prefix of the file, and what
      follows is exactly the record of the run: all events up to the first drop, then the
      single announcement of it, then in call order the later events that still fitted. */
  lemma {:induction false} RunIsRecorded(session: Session, n: nat)
    requires session.Fresh() && n <= |session.attempts|
    ensures session.After(n).file == session.start.file + Written(session.Recorded(n), session.encode)
  {
    hide AfterAppend, Session.OutcomeOf, Session.Recorded, DropDiagnostic, Record;
    if n == 0 {
      NothingRecorded(session);
      assert session.start.file + [] == session.start.file;
    } else {
      var m := n - 1;
      var s, attempt := session.After(m), session.attempts[m];
      RunIsRecorded(session, m);
      StepFile(s, session.maxBytes, session.encode, attempt.event, attempt.stamp);
      RecordedStep(session, m);
      AlwaysValid(session, m);
      DroppedCount(session, m);
      OutcomeIs(session, m);
      WrittenSnoc(session.Recorded(m), attempt.event, session.encode);
      WrittenSnoc(session.Recorded(m), DropDiagnostic(attempt.event, 1, attempt.stamp), session.encode);
      var before, written := session.start.file, Written(session.Recorded(m), session.encode);
      var added := session.After(n).file[|s.file|..];
      assert session.After(n).file == s.file + added;
      assert (before + written) + added == before + (written + added);
      if s.announced && session.OutcomeOf(m).DroppedNewest? {
        assert session.Recorded(n) == session.Recorded(m);
      }
    }
  }

  lemma NothingRecorded(session: Session)
    ensures session.Recorded(0) == []
  {
  }

  lemma OutcomeIs(session: Session, i: nat)
    requires i < |session.attempts|
    ensures session.OutcomeOf(i)
            == AfterAppend(session.After(i), session.maxBytes, session.encode, session.attempts[i].event,
                           session.attempts[i].stamp).1
  {
  }

  lemma {:induction false} SurvivorsInOrder(session: Session, from: nat, n: nat)
    requires from <= n <= |session.attempts|
    ensures IsSubsequence(session.Survivors(from, n), session.Offered(from, n))
  {
    hide Session.OutcomeOf;
    if from < n {
      SurvivorsInOrder(session, from, n - 1);
      var offered, survivors := session.Offered(from, n), session.Survivors(from, n);
      assert offered[..|offered| - 1] == session.Offered(from, n - 1);
      if session.OutcomeOf(n - 1).Appended? {
        assert survivors[..|survivors| - 1] == session.Survivors(from, n - 1);
      } else {
        assert survivors == session.Survivors(from, n - 1);
      }
    }
  }

  /** No attempt goes unaccounted: appended and dropped add up to the attempts, the survivors
      are a subsequence of what was offered, and the count the sink reports is the number
      dropped. */
  lemma EveryAttemptIsAccountedFor(session: Session, n: nat)
    requires session.Fresh() && n <= |session.attempts|
    ensures |session.Survivors(0, n)| + session.After(n).dropped == n
    ensures IsSubsequence(session.Survivors(0, n), session.Offered(0, n))
    ensures session.After(n).announced <==> session.FirstDrop(n) < n
  {
    hide Session.After, Session.Survivors, Session.Offered, AfterAppend;
    DroppedCount(session, n);
    SurvivorsInOrder(session, 0, n);
    AlwaysValid(session, n);
  }

  /** The length of the one announcement, if there has been one. */
  function AnnouncementLength(session: Session, n: nat): nat
    requires n <= |session.attempts|
  {
    var f := session.FirstDrop(n);
    if f == n then 0
      else |Record(DropDiagnostic(session.attempts[f].event, 1, session.attempts[f].stamp), session.encode)|
  }

  /** With a budget the file never outgrows the larger of what it held and the usable part of
      the budget, except by the one announcement. */
  lemma {:induction false} LengthIsBounded(session: Session, n: nat)
    requires session.Fresh() && session.maxBytes.Some? && n <= |session.attempts|
    ensures var usable, initial := Usable(session.maxBytes.value), |session.start.file|;
            |session.After(n).file| <= (if initial > usable then initial else usable) + AnnouncementLength(session, n)
  {
    hide AfterAppend, DropDiagnostic, Record, Session.OutcomeOf, Usable;
    if n > 0 {
      var m := n - 1;
      LengthIsBounded(session, m);
      StepFile(session.After(m), session.maxBytes, session.encode, session.attempts[m].event,
               session.attempts[m].stamp);
      SurvivesExactlyWhenItFits(session, m);
      OutcomeIs(session, m);
      AlwaysValid(session, m);
      DroppedCount(session, m);
    }
  }

  /** A log that starts at least 2048 bytes below its budget never exceeds it, as long as an
      announcement takes no more than those 2048 bytes. */
  lemma BudgetIsKept(session: Session, n: nat)
    requires session.Fresh() && session.maxBytes.Some? && n <= |session.attempts|
    requires |session.start.file| + 2048 <= session.maxBytes.value
    requires forall i :: 0 <= i < |session.attempts| ==>
               |session.encode(DropDiagnostic(session.attempts[i].event, 1, session.attempts[i].stamp))| < 2048
    ensures |session.After(n).file| <= session.maxBytes.value
  {
    hide DropDiagnostic, Session.After, Session.OutcomeOf;
    LengthIsBounded(session, n);
  }

  /** What the one announcement says: in the store's name, which event was dropped, of what kind
      and from whom, and how many by then. */
  lemma AnnouncementNamesTheDrop(dropped: IrEvent, total: nat, stamp: Stamp)
    ensures var e := DropDiagnostic(dropped, total, stamp);
            && e.kind == EventKind.Diagnostic && e.producer == "freshdag-store" && e.eventId == stamp.id
            && e.ts == stamp.at
            && e.sessionId == dropped.sessionId && e.computationId == dropped.computationId
            && e.causalInputs == Some([dropped.eventId])
            && e.payload.Text("reason") == Some("sink_budget_exhausted")
            && e.payload.Text("dropped_kind") == Some(dropped.kind.Wire())
            && e.payload.Text("dropped_producer") == Some(dropped.producer)
            && e.payload.Object? && "total_dropped" in e.payload.fields && "dropped_newest" in e.payload.fields
            && e.payload.fields["total_dropped"] == NumberField(total)
            && e.payload.fields["dropped_newest"] == FlagField(true)
  {
    hide EventKind.Wire, Decimal;
    assert |"message"| == 7 && |"reason"| == 6 && |"dropped_newest"| == 14 && |"dropped_event_id"| == 16;
    assert |"dropped_kind"| == 12 && |"dropped_producer"| == 16 && |"total_dropped"| == 13;
    assert "dropped_event_id"[8] == 'e' && "dropped_producer"[8] == 'p';
  }

  /** What the closing summary says: in the store's name, about no one computation, how many events
      the session lost. */
  lemma SummaryCountsTheDrops(sessionId: string, total: nat, stamp: Stamp)
    ensures var e := DropSummary(sessionId, total, stamp);
            && e.kind == EventKind.Diagnostic && e.producer == "freshdag-store" && e.eventId == stamp.id
            && e.ts == stamp.at && e.sessionId == sessionId && e.computationId.None? && e.causalInputs.None?
            && e.payload.Text("reason") == Some("sink_budget_exhausted")
            && e.payload.Object? && "total_dropped" in e.payload.fields && "dropped_newest" in e.payload.fields
            && e.payload.fields["total_dropped"] == NumberField(total)
            && e.payload.fields["dropped_newest"] == FlagField(true)
  {
    assert |"message"| == 7 && |"reason"| == 6 && |"dropped_newest"| == 14 && |"total_dropped"| == 13;
  }

  /** Drops are numbered in order: each outcome says how many there have been with this one. */
  lemma DropsAreNumbered(session: Session, i: nat)
    requires session.Fresh() && i < |session.attempts| && session.OutcomeOf(i).DroppedNewest?
    ensures session.OutcomeOf(i).totalDropped + |session.Survivors(0, i + 1)| == i + 1
  {
    hide DropDiagnostic, Record;
    DroppedCount(session, i);
    DroppedCount(session, i + 1);
  }

  /** Without a budget nothing is ever dropped. */
  lemma UnboundedDropsNothing(session: Session, n: nat)
    requires session.Fresh() && session.maxBytes.None? && n <= |session.attempts|
    ensures session.After(n).dropped == 0 && session.Recorded(n) == session.Offered(0, n)
  {
    DroppedCount(session, n);
    var f := session.FirstDrop(n);
    if f < n {
      SurvivesExactlyWhenItFits(session, f);
    }
  }

  /** What a sink wrote onto a clean log is read back: the earlier events, then exactly what
      the run recorded, and no defect. */
  lemma SinkRoundTrip(session: Session, earlier: seq<IrEvent>, decode: Decoder, n: nat)
    requires session.Fresh() && n <= |session.attempts|
    requires session.start.file == Written(earlier, session.encode)
    requires Invertible(earlier + session.Recorded(n), session.encode, decode)
    ensures ScanOf(session.After(n).file, decode) == LogScan(earlier + session.Recorded(n), [])
  {
    hide ScanOf, Session.Recorded, Session.After;
    var all := earlier + session.Recorded(n);
    RunIsRecorded(session, n);
    WrittenSplit(all, session.encode, |earlier|);
    assert all[..|earlier|] == earlier && all[|earlier|..] == session.Recorded(n);
    WrittenRoundTrip(all, session.encode, decode);
  }
}
