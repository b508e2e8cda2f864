/** The tolerant log scanner: every byte becomes part of an event or part of a defect. */
module LogReader {
  import opened Wrappers
  import opened Ir
  import opened Identifiers

  const NEWLINE: Byte := 10

  /** Bytes that are no event, where they stand. The first line is line 1. */
  datatype LogDefect =
    | MalformedRecord(line: nat, byteOffset: nat, raw: seq<Byte>)
    | TruncatedTrailingRecord(line: nat, byteOffset: nat, raw: seq<Byte>)

  datatype LogScan = LogScan(events: seq<IrEvent>, defects: seq<LogDefect>)

  /** What parsing the bytes of one record yields. */
  type Decoder = seq<Byte> -> Option<IrEvent>

  // ------------------------------------------------------------ regions

  /** How many bytes reading up to and including the next newline consumes. */
  function LineLength(bytes: seq<Byte>): (n: nat)
    ensures n <= |bytes|
    ensures n == 0 <==> bytes == []
    ensures forall i :: 0 <= i < n - 1 ==> bytes[i] != NEWLINE
    ensures n < |bytes| ==> bytes[n - 1] == NEWLINE
  {
    if bytes == [] then 0
    else if bytes[0] == NEWLINE then 1
    else
      var n := LineLength(bytes[1..]);
      assert forall i :: 1 <= i < n ==> bytes[i] == bytes[1..][i - 1];
      n + 1
  }

  /** The log cut after every newline. */
  function Regions(bytes: seq<Byte>): (regions: seq<seq<Byte>>)
    decreases |bytes|
  {
    if bytes == [] then [] else [bytes[..LineLength(bytes)]] + Regions(bytes[LineLength(bytes)..])
  }

  predicate Terminated(region: seq<Byte>) {
    region != [] && region[|region| - 1] == NEWLINE
  }

  /** Where the `i`-th region starts. */
  function Offset(regions: seq<seq<Byte>>, i: nat): nat
    requires i <= |regions|
  {
    if i == 0 then 0 else Offset(regions, i - 1) + |regions[i - 1]|
  }

  function Joined(regions: seq<seq<Byte>>): seq<Byte> {
    if regions == [] then [] else Joined(regions[..|regions| - 1]) + regions[|regions| - 1]
  }

  /** What one region is found to be. */
  datatype Found = Event(event: IrEvent) | Defect(defect: LogDefect)

  function FoundIn(region: seq<Byte>, line: nat, byteOffset: nat, decode: Decoder): Found {
    if !Terminated(region) then Defect(TruncatedTrailingRecord(line, byteOffset, region))
    else
      var record := region[..|region| - 1];
      match decode(record)
      case Some(event) => Event(event)
      case None => Defect(MalformedRecord(line, byteOffset, record))
  }

  /** Reading the first `n` regions one by one. */
  function ScanFirst(regions: seq<seq<Byte>>, decode: Decoder, n: nat): LogScan
    requires n <= |regions|
  {
    if n == 0 then LogScan([], [])
    else
      var before := ScanFirst(regions, decode, n - 1);
      match FoundIn(regions[n - 1], n, Offset(regions, n - 1), decode)
      case Event(event) => LogScan(before.events + [event], before.defects)
      case Defect(defect) => LogScan(before.events, before.defects + [defect])
  }

  /** What a tolerant read of these bytes must return. */
  function ScanOf(bytes: seq<Byte>, decode: Decoder): LogScan {
    ScanFirst(Regions(bytes), decode, |Regions(bytes)|)
  }

  // ----------------------------------------------------------- scanning

  lemma RestStep(regions: seq<seq<Byte>>, line: nat, rest: seq<Byte>)
    requires line <= |regions| && regions[line..] == Regions(rest) && rest != []
    ensures line < |regions| && regions[line] == rest[..LineLength(rest)]
    ensures regions[line + 1..] == Regions(rest[LineLength(rest)..])
  {
    assert Regions(rest)[1..] == Regions(rest[LineLength(rest)..]);
    assert regions[line + 1..] == regions[line..][1..];
  }

  lemma UnterminatedIsLast(rest: seq<Byte>)
    requires rest != [] && rest[LineLength(rest) - 1] != NEWLINE
    ensures |Regions(rest)| == 1
  {
    assert rest[LineLength(rest)..] == [];
  }

  /** Read line by line, keeping count of lines and bytes. */
  method ScanReader(bytes: seq<Byte>, decode: Decoder) returns (scan: LogScan)
    ensures scan == ScanOf(bytes, decode)
  {
    hide Regions;
    scan := LogScan([], []);
    var byteOffset, line: nat := 0, 0;
    var rest := bytes;
    ghost var regions := Regions(bytes);
    while true
      invariant line <= |regions| && regions[line..] == Regions(rest)
      invariant byteOffset == Offset(regions, line)
      invariant scan == ScanFirst(regions, decode, line)
      decreases |rest|
    {
      var read := LineLength(rest);
      if read == 0 {
        NoRegions();
        break;
      }
      var buf := rest[..read];
      RestStep(regions, line, rest);
      ghost var bytesLeft := rest;
      rest := rest[read..];
      line := line + 1;
      var terminated := buf[|buf| - 1] == NEWLINE;
      var record := if terminated then buf[..|buf| - 1] else buf;
      if !terminated {
        UnterminatedIsLast(bytesLeft);
        scan := LogScan(scan.events, scan.defects + [TruncatedTrailingRecord(line, byteOffset, record)]);
        break;
      }
      match decode(record) {
        case Some(event) => scan := LogScan(scan.events + [event], scan.defects);
        case None => scan := LogScan(scan.events, scan.defects + [MalformedRecord(line, byteOffset, record)]);
      }
      byteOffset := byteOffset + read;
    }
  }

  /** The strict read: the events if nothing was wrong, else the first defect. */
  method ReadLog(bytes: seq<Byte>, decode: Decoder) returns (r: Result<seq<IrEvent>, LogDefect>)
    ensures var scan := ScanOf(bytes, decode);
            r == if scan.defects == [] then Ok(scan.events) else Err(scan.defects[0])
  {
    var scan := ScanReader(bytes, decode);
    if scan.defects != [] {
      return Err(scan.defects[0]);
    }
    return Ok(scan.events);
  }

  // ------------------------------------------------ no byte is skipped

  lemma {:induction false} JoinedFront(first: seq<Byte>, rest: seq<seq<Byte>>)
    ensures Joined([first] + rest) == first + Joined(rest)
  {
    var all := [first] + rest;
    if rest == [] {
      assert all[..0] == [] && Joined(all[..0]) == [];
    } else {
      var init, last := rest[..|rest| - 1], rest[|rest| - 1];
      JoinedFront(first, init);
      assert all[..|all| - 1] == [first] + init && all[|all| - 1] == last;
      assert Joined(all) == (first + Joined(init)) + last;
      assert Joined(rest) == Joined(init) + last;
    }
  }

  /** A region holds a newline at most at its end. */
  predicate OneLine(region: seq<Byte>) {
    region != [] && forall j :: 0 <= j < |region| - 1 ==> region[j] != NEWLINE
  }

  lemma FirstLine(bytes: seq<Byte>)
    requires bytes != []
    ensures var n := LineLength(bytes);
            OneLine(bytes[..n]) && (n < |bytes| ==> Terminated(bytes[..n])) && |bytes[n..]| < |bytes|
  {
    hide LineLength;
  }

  lemma RegionsStep(bytes: seq<Byte>)
    requires bytes != []
    ensures var n := LineLength(bytes);
            && Regions(bytes) == [bytes[..n]] + Regions(bytes[n..])
            && OneLine(bytes[..n]) && (n < |bytes| ==> Terminated(bytes[..n]))
            && |bytes[n..]| < |bytes|
            && (n == |bytes| ==> Regions(bytes[n..]) == [])
  {
    hide LineLength, OneLine, Terminated;
    FirstLine(bytes);
  }

  lemma {:induction false} RegionsJoin(bytes: seq<Byte>)
    ensures Joined(Regions(bytes)) == bytes
    decreases |bytes|
  {
    hide Regions, OneLine, Terminated, Joined;
    if bytes == [] {
      NoRegions();
    } else {
      var n := LineLength(bytes);
      RegionsStep(bytes);
      RegionsJoin(bytes[n..]);
      JoinedFront(bytes[..n], Regions(bytes[n..]));
      assert bytes[..n] + bytes[n..] == bytes;
    }
  }

  lemma NoRegions()
    ensures Regions([]) == [] && Joined([]) == []
  {
  }

  /** The regions partition the log: none holds a newline but at its end, and every one but
      the last ends in one. */
  lemma {:induction false} RegionsAreLines(bytes: seq<Byte>)
    ensures var regions := Regions(bytes);
            forall i :: 0 <= i < |regions| ==> OneLine(regions[i]) && (i < |regions| - 1 ==> Terminated(regions[i]))
    decreases |bytes|
  {
    hide Regions, OneLine, Terminated;
    if bytes == [] {
      NoRegions();
    } else {
      RegionsStep(bytes);
      RegionsAreLines(bytes[LineLength(bytes)..]);
    }
  }

  lemma {:induction false} JoinedAt(regions: seq<seq<Byte>>, i: nat)
    requires i < |regions|
    ensures Offset(regions, i) + |regions[i]| <= |Joined(regions)|
    ensures Joined(regions)[Offset(regions, i)..Offset(regions, i) + |regions[i]|] == regions[i]
    ensures Offset(regions, |regions|) == |Joined(regions)|
    decreases |regions|
  {
    var init, last := regions[..|regions| - 1], regions[|regions| - 1];
    if init != [] {
      JoinedAt(init, if i < |init| then i else 0);
    }
    OffsetPrefix(init, regions, |init|);
    if i < |init| {
      OffsetPrefix(init, regions, i);
      var lo, hi := Offset(regions, i), Offset(regions, i) + |regions[i]|;
      assert Joined(regions)[lo..hi] == Joined(init)[lo..hi];
    }
  }

  lemma {:induction false} OffsetPrefix(short: seq<seq<Byte>>, long: seq<seq<Byte>>, i: nat)
    requires short <= long && i <= |short|
    ensures Offset(short, i) == Offset(long, i)
  {
    if i > 0 {
      OffsetPrefix(short, long, i - 1);
    }
  }

  lemma {:induction false} ScanKeepsFound(regions: seq<seq<Byte>>, decode: Decoder, i: nat, n: nat)
    requires i < n <= |regions|
    ensures var before, scan := ScanFirst(regions, decode, i), ScanFirst(regions, decode, n);
            match FoundIn(regions[i], i + 1, Offset(regions, i), decode)
               case Event(event) => |before.events| < |scan.events| && scan.events[|before.events|] == event
               case Defect(defect) => |before.defects| < |scan.defects| && scan.defects[|before.defects|] == defect
  {
    hide FoundIn;
    if i < n - 1 {
      ScanKeepsFound(regions, decode, i, n - 1);
    }
  }

  /** The region ends in a newline and the bytes before it decode. */
  predicate HoldsEvent(region: seq<Byte>, decode: Decoder) {
    region != [] && region[|region| - 1] == 10 && decode(region[..|region| - 1]).Some?
  }

  /** How many of the first `n` regions hold an event. */
  function EventsAmong(regions: seq<seq<Byte>>, decode: Decoder, n: nat): (count: nat)
    requires n <= |regions|
    ensures count <= n
  {
    if n == 0 then 0
    else EventsAmong(regions, decode, n - 1) + if HoldsEvent(regions[n - 1], decode) then 1 else 0
  }

  lemma {:induction false} ScanCounts(regions: seq<seq<Byte>>, decode: Decoder, n: nat)
    requires n <= |regions|
    ensures |ScanFirst(regions, decode, n).events| == EventsAmong(regions, decode, n)
    ensures |ScanFirst(regions, decode, n).defects| == n - EventsAmong(regions, decode, n)
  {
    if n > 0 {
      ScanCounts(regions, decode, n - 1);
    }
  }

  /** The defect a region that holds no event must be. */
  predicate IsDefectOf(defect: LogDefect, region: seq<Byte>, line: nat, byteOffset: nat) {
    var ended := region != [] && region[|region| - 1] == 10;
    && defect.line == line && defect.byteOffset == byteOffset
    && (defect.MalformedRecord? <==> ended)
    && defect.raw == if ended then region[..|region| - 1] else region
  }

  /** On arbitrary bytes nothing is skipped. The log is its regions laid end to end, each with a
      newline at its end and nowhere else, except that the last may have none. Each is exactly
      one entry of the scan, the event or the defect whose position is the number of events or of
      defects before it, and there are no other entries. A terminated region that decodes is that
      event; any other is a defect with the right line, the right offset and the very bytes. */
  lemma NoByteIsSkipped(bytes: seq<Byte>, decode: Decoder, i: nat)
    requires i < |Regions(bytes)|
    ensures var regions, scan := Regions(bytes), ScanOf(bytes, decode);
            var region, start, before := regions[i], Offset(regions, i), EventsAmong(regions, decode, i);
            && |scan.events| == EventsAmong(regions, decode, |regions|)
            && |scan.events| + |scan.defects| == |regions|
            && region != [] && start + |region| <= |bytes| && bytes[start..start + |region|] == region
            && Offset(regions, |regions|) == |bytes|
            && (forall k :: 0 <= k < |region| - 1 ==> region[k] != 10)
            && (i < |regions| - 1 ==> region[|region| - 1] == 10)
            && if HoldsEvent(region, decode)
               then before < |scan.events| && Some(scan.events[before]) == decode(region[..|region| - 1])
               else i - before < |scan.defects| && IsDefectOf(scan.defects[i - before], region, i + 1, start)
  {
    hide ScanFirst, Regions, Joined, Offset, EventsAmong;
    var regions := Regions(bytes);
    RegionsJoin(bytes);
    RegionsAreLines(bytes);
    JoinedAt(regions, i);
    ScanCounts(regions, decode, i);
    ScanCounts(regions, decode, |regions|);
    ScanKeepsFound(regions, decode, i, |regions|);
  }

  // -------------------------------------------------- crash at any byte

  /** Encoding as the sink does it: the record's bytes, then a newline. */
  type Encoder = IrEvent -> seq<Byte>

  function Record(e: IrEvent, encode: Encoder): (r: seq<Byte>)
    ensures Terminated(r)
  {
    encode(e) + [NEWLINE]
  }

  /** The log holding these events and nothing else. */
  function Written(events: seq<IrEvent>, encode: Encoder): seq<Byte> {
    if events == [] then [] else Record(events[0], encode) + Written(events[1..], encode)
  }

  /** What serialization must satisfy: compact JSON has no raw newline, and parsing undoes
      it. */
  predicate Invertible(events: seq<IrEvent>, encode: Encoder, decode: Decoder) {
    forall i :: 0 <= i < |events| ==> NEWLINE !in encode(events[i]) && decode(encode(events[i])) == Some(events[i])
  }

  /** How many of these events lie wholly within the first `n` bytes of their log. */
  function WholeWithin(events: seq<IrEvent>, encode: Encoder, n: nat): (k: nat)
    ensures k <= |events|
  {
    if events == [] || n < |Record(events[0], encode)| then 0
    else 1 + WholeWithin(events[1..], encode, n - |Record(events[0], encode)|)
  }

  /** `WholeWithin` is the number of records that end at or before the cut. */
  lemma {:induction false} WholeWithinMeaning(events: seq<IrEvent>, encode: Encoder, n: nat)
    ensures var k := WholeWithin(events, encode, n);
            && |Written(events[..k], encode)| <= n
            && Written(events[..k], encode) <= Written(events, encode)
            && (k < |events| ==> n < |Written(events[..k + 1], encode)|)
  {
    hide Record;
    var k := WholeWithin(events, encode, n);
    if events == [] || n < |Record(events[0], encode)| {
      if events != [] {
        assert events[..1] == [events[0]] && [events[0]][1..] == [];
      }
    } else {
      WholeWithinMeaning(events[1..], encode, n - |Record(events[0], encode)|);
      assert events[..k][1..] == events[1..][..k - 1];
      if k < |events| {
        assert events[..k + 1][1..] == events[1..][..k];
      }
    }
  }

  lemma FirstNewline(bytes: seq<Byte>, at: nat)
    requires at < |bytes| && bytes[at] == NEWLINE && forall i :: 0 <= i < at ==> bytes[i] != NEWLINE
    ensures LineLength(bytes) == at + 1
  {
    var last := LineLength(bytes) - 1;
    assert bytes[last] in bytes;
  }

  lemma LineOfRecord(e: IrEvent, encode: Encoder, rest: seq<Byte>)
    requires NEWLINE !in encode(e)
    ensures LineLength(Record(e, encode) + rest) == |Record(e, encode)|
  {
    var bytes := Record(e, encode) + rest;
    var n := LineLength(bytes);
    var m := |Record(e, encode)|;
    assert bytes[m - 1] == NEWLINE;
    forall i | 0 <= i < m - 1 ensures bytes[i] != NEWLINE {
      assert bytes[i] == encode(e)[i];
    }
    FirstNewline(bytes, m - 1);
  }

  /** A log that starts with whole records is cut into those records and then whatever the
      remainder is cut into. */
  lemma {:induction false} RegionsOfWritten(events: seq<IrEvent>, encode: Encoder, decode: Decoder, tail: seq<Byte>)
    requires Invertible(events, encode, decode)
    ensures var regions := Regions(Written(events, encode) + tail);
            && |regions| == |events| + |Regions(tail)|
            && (forall i :: 0 <= i < |events| ==> regions[i] == Record(events[i], encode))
            && regions[|events|..] == Regions(tail)
            && Offset(regions, |events|) == |Written(events, encode)|
  {
    hide Record, Regions, OneLine, Offset;
    if events == [] {
      assert Written(events, encode) + tail == tail;
      OffsetZero(Regions(tail));
    } else {
      var first, rest := Record(events[0], encode), Written(events[1..], encode) + tail;
      RegionsOfWritten(events[1..], encode, decode, tail);
      LineOfRecord(events[0], encode, rest);
      assert Written(events, encode) + tail == first + rest;
      assert (first + rest)[..|first|] == first && (first + rest)[|first|..] == rest;
      RegionsStep(first + rest);
      OffsetFront(first, Regions(rest), |events| - 1);
    }
  }

  lemma OffsetZero(regions: seq<seq<Byte>>)
    ensures Offset(regions, 0) == 0
  {
  }

  lemma {:induction false} OffsetFront(first: seq<Byte>, rest: seq<seq<Byte>>, i: nat)
    requires i <= |rest|
    ensures Offset([first] + rest, i + 1) == |first| + Offset(rest, i)
  {
    if i > 0 {
      OffsetFront(first, rest, i - 1);
    }
  }

  lemma {:induction false} ScanOfWhole(events: seq<IrEvent>, encode: Encoder, decode: Decoder, regions: seq<seq<Byte>>,
                                       n: nat)
    requires Invertible(events, encode, decode) && n <= |events| <= |regions|
    requires forall i :: 0 <= i < |events| ==> regions[i] == Record(events[i], encode)
    ensures ScanFirst(regions, decode, n) == LogScan(events[..n], [])
  {
    if n > 0 {
      ScanOfWhole(events, encode, decode, regions, n - 1);
      assert regions[n - 1][..|regions[n - 1]| - 1] == encode(events[n - 1]);
      assert events[..n] == events[..n - 1] + [events[n - 1]];
    }
  }

  /** Append and scan undo each other at every crash point. Scanning the first `n` bytes of a
      written log, for any `n`, yields exactly the events wholly inside it and, if and only if
      the cut falls inside a record, one truncated-tail defect at the right line and offset
      with exactly the surviving bytes. */
  lemma EveryCrashPoint(events: seq<IrEvent>, encode: Encoder, decode: Decoder, n: nat)
    requires Invertible(events, encode, decode) && n <= |Written(events, encode)|
    ensures var k := WholeWithin(events, encode, n);
            var start := |Written(events[..k], encode)|;
            && start <= n
            && ScanOf(Written(events, encode)[..n], decode)
               == LogScan(events[..k], if start == n then []
                                       else [TruncatedTrailingRecord(k + 1, start, Written(events, encode)[start..n])])
  {
    hide ScanOf, WholeWithin, Record, Written;
    var k := WholeWithin(events, encode, n);
    var whole := Written(events[..k], encode);
    WholeWithinMeaning(events, encode, n);
    var tail := Written(events, encode)[|whole|..n];
    assert Written(events, encode)[..n] == whole + tail;
    if |whole| < n {
      TailInsideRecord(events, encode, decode, k, n);
    }
    assert forall i :: 0 <= i < k ==> events[..k][i] == events[i];
    ScanWithTail(events[..k], encode, decode, tail);
  }

  /** Whole records and then a fragment without a newline. */
  lemma ScanWithTail(events: seq<IrEvent>, encode: Encoder, decode: Decoder, tail: seq<Byte>)
    requires Invertible(events, encode, decode) && NEWLINE !in tail
    ensures ScanOf(Written(events, encode) + tail, decode)
            == LogScan(events, if tail == [] then []
                       else [TruncatedTrailingRecord(|events| + 1, |Written(events, encode)|, tail)])
  {
    hide ScanFirst, Record, Written, Regions, Offset;
    var k := |events|;
    RegionsOfWritten(events, encode, decode, tail);
    var regions := Regions(Written(events, encode) + tail);
    ScanOfWhole(events, encode, decode, regions, k);
    assert events[..k] == events;
    if tail == [] {
      NoRegions();
    } else {
      TornTailIsOneRegion(tail);
      assert regions[k..][0] == regions[k] == tail;
      ScanStep(regions, decode, k);
    }
  }

  lemma ScanStep(regions: seq<seq<Byte>>, decode: Decoder, n: nat)
    requires n < |regions|
    ensures ScanFirst(regions, decode, n + 1) ==
            var before := ScanFirst(regions, decode, n);
            match FoundIn(regions[n], n + 1, Offset(regions, n), decode)
            case Event(event) => LogScan(before.events + [event], before.defects)
            case Defect(defect) => LogScan(before.events, before.defects + [defect])
  {
  }

  lemma {:induction false} WrittenSplit(events: seq<IrEvent>, encode: Encoder, k: nat)
    requires k <= |events|
    ensures Written(events, encode) == Written(events[..k], encode) + Written(events[k..], encode)
  {
    hide Record;
    if k > 0 {
      WrittenSplit(events[1..], encode, k - 1);
      assert events[..k][1..] == events[1..][..k - 1];
      assert events[1..][k - 1..] == events[k..];
    } else {
      assert events[..0] == [] && events[0..] == events;
    }
  }

  lemma TailInsideRecord(events: seq<IrEvent>, encode: Encoder, decode: Decoder, k: nat, n: nat)
    requires Invertible(events, encode, decode) && n <= |Written(events, encode)| && k == WholeWithin(events, encode, n)
    requires |Written(events[..k], encode)| < n
    ensures NEWLINE !in Written(events, encode)[|Written(events[..k], encode)|..n]
  {
    hide WholeWithin;
    WholeWithinMeaning(events, encode, n);
    var whole := Written(events[..k], encode);
    WrittenSplit(events, encode, k);
    assert events[..|events|] == events;
    if k < |events| {
      var record := Record(events[k], encode);
      WrittenSplit(events[..k + 1], encode, k);
      assert events[..k + 1][..k] == events[..k] && events[..k + 1][k..] == [events[k]];
      assert Written([events[k]], encode) == record by {
        assert [events[k]][1..] == [];
      }
      var tail := Written(events, encode)[|whole|..n];
      assert tail == Written(events[k..], encode)[..n - |whole|];
      assert forall i :: 0 <= i < |tail| ==> tail[i] == record[i] == encode(events[k])[i];
    }
  }

  lemma TornTailIsOneRegion(tail: seq<Byte>)
    requires tail != [] && NEWLINE !in tail
    ensures Regions(tail) == [tail] && !Terminated(tail)
  {
    var last := LineLength(tail) - 1;
    assert tail[last] in tail;
    assert tail[..last + 1] == tail && tail[last + 1..] == [];
  }

  /** A log written to the end scans back to exactly its events, with nothing to report. */
  lemma WrittenRoundTrip(events: seq<IrEvent>, encode: Encoder, decode: Decoder)
    requires Invertible(events, encode, decode)
    ensures ScanOf(Written(events, encode), decode) == LogScan(events, [])
  {
    hide ScanFirst, Record;
    RegionsOfWritten(events, encode, decode, []);
    assert Written(events, encode) + [] == Written(events, encode);
    ScanOfWhole(events, encode, decode, Regions(Written(events, encode)), |events|);
    assert events[..|events|] == events;
  }

  /** What a torn tail costs when the log is reopened and appended to. The fragment and the
      next record become one line, so that line's parse stands in for the next event; every
      record before the fragment and after that line is read as if nothing had happened. If
      the glued line does not parse, exactly the one event is lost, and the loss is reported
      as a malformed record in the middle of the log. */
  lemma AppendAfterTornTail(events: seq<IrEvent>, torn: seq<Byte>, next: IrEvent, later: seq<IrEvent>, encode: Encoder,
                            decode: Decoder)
    requires Invertible(events + [next] + later, encode, decode) && NEWLINE !in torn
    ensures var log := Written(events, encode) + torn + Written([next] + later, encode);
            ScanOf(log, decode) ==
            match decode(torn + encode(next))
            case Some(glued) => LogScan(events + [glued] + later, [])
            case None =>
              LogScan(events + later, [MalformedRecord(|events| + 1, |Written(events, encode)|, torn + encode(next))])
  {
    hide ScanFirst, Written, Regions, Offset, Record, Terminated;
    var k, line, rest := |events|, torn + Record(next, encode), Written(later, encode);
    var log := Written(events, encode) + torn + Written([next] + later, encode);
    WrittenFront(next, later, encode);
    assert log == Written(events, encode) + (line + rest);
    SubInvertible(events, next, later, encode, decode);
    RegionsOfWritten(events, encode, decode, line + rest);
    GluedLine(torn, next, encode, rest);
    RegionsOfWritten(later, encode, decode, []);
    assert rest + [] == rest;
    NoRegions();
    var regions := Regions(log);
    RegionsAfterGlue(regions, k, line, Regions(rest));
    ScanOfWhole(events, encode, decode, regions, k);
    assert events[..k] == events;
    ScanStep(regions, decode, k);
    ScanOfLater(later, encode, decode, regions, k + 1, |later|);
    assert later[..|later|] == later;
  }

  lemma RegionsAfterGlue(regions: seq<seq<Byte>>, k: nat, line: seq<Byte>, rest: seq<seq<Byte>>)
    requires k <= |regions| && regions[k..] == [line] + rest
    ensures |regions| == k + 1 + |rest| && regions[k] == line
    ensures forall i :: 0 <= i < |rest| ==> regions[k + 1 + i] == rest[i]
  {
    assert regions[k] == regions[k..][0];
    forall i | 0 <= i < |rest| ensures regions[k + 1 + i] == rest[i] {
      assert regions[k..][1 + i] == rest[i];
    }
  }

  lemma WrittenFront(first: IrEvent, rest: seq<IrEvent>, encode: Encoder)
    ensures Written([first] + rest, encode) == Record(first, encode) + Written(rest, encode)
  {
    assert ([first] + rest)[1..] == rest;
  }

  lemma SubInvertible(events: seq<IrEvent>, next: IrEvent, later: seq<IrEvent>, encode: Encoder, decode: Decoder)
    requires Invertible(events + [next] + later, encode, decode)
    ensures Invertible(events, encode, decode) && Invertible(later, encode, decode) && NEWLINE !in encode(next)
  {
    var all := events + [next] + later;
    assert forall i :: 0 <= i < |events| ==> events[i] == all[i];
    assert forall i :: 0 <= i < |later| ==> later[i] == all[|events| + 1 + i];
    assert all[|events|] == next;
  }

  lemma GluedLine(torn: seq<Byte>, next: IrEvent, encode: Encoder, rest: seq<Byte>)
    requires NEWLINE !in torn && NEWLINE !in encode(next)
    ensures var line := torn + Record(next, encode);
            && Terminated(line) && line[..|line| - 1] == torn + encode(next)
            && Regions(line + rest) == [line] + Regions(rest)
  {
    var line := torn + Record(next, encode);
    var bytes := line + rest;
    var n := LineLength(bytes);
    assert bytes[|line| - 1] == NEWLINE;
    forall i | 0 <= i < |line| - 1 ensures bytes[i] != NEWLINE {
      assert bytes[i] == if i < |torn| then torn[i] else encode(next)[i - |torn|];
    }
    FirstNewline(bytes, |line| - 1);
    assert line[..|line| - 1] == torn + encode(next);
    assert n == |line| && bytes[..n] == line && bytes[n..] == rest;
  }

  lemma {:induction false} ScanOfLater(later: seq<IrEvent>, encode: Encoder, decode: Decoder, regions: seq<seq<Byte>>,
                                       from: nat, n: nat)
    requires Invertible(later, encode, decode) && n <= |later| && from + |later| <= |regions|
    requires forall i :: 0 <= i < |later| ==> regions[from + i] == Record(later[i], encode)
    ensures var before := ScanFirst(regions, decode, from);
            ScanFirst(regions, decode, from + n) == LogScan(before.events + later[..n], before.defects)
  {
    hide ScanFirst;
    if n > 0 {
      ScanOfLater(later, encode, decode, regions, from, n - 1);
      ScanStep(regions, decode, from + n - 1);
      assert regions[from + (n - 1)] == Record(later[n - 1], encode);
      assert Record(later[n - 1], encode)[..|Record(later[n - 1], encode)| - 1] == encode(later[n - 1]);
      assert later[..n] == later[..n - 1] + [later[n - 1]];
    } else {
      assert later[..0] == [];
    }
  }
}
