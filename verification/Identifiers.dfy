/** Event identifiers: big-endian byte strings shaped like version-7 UUIDs
    (section 5.7 of RFC 9562), minted from counters rather than from randomness. */
module Identifiers {
  import opened Primitives

  type Byte = b: int | 0 <= b < 256

  /** `256^width`. */
  function Span(width: nat): (s: nat)
    ensures s >= 1
  {
    if width == 0 then 1 else 256 * Span(width - 1)
  }

  /** The low `width` bytes of `n`, most significant first. */
  function ToBytes(n: nat, width: nat): (bytes: seq<Byte>)
    ensures |bytes| == width
  {
    if width == 0 then [] else ToBytes(n / 256, width - 1) + [n % 256]
  }

  /** The number a byte string spells, most significant byte first. */
  function BigEndian(bytes: seq<Byte>): nat {
    if bytes == [] then 0 else 256 * BigEndian(bytes[..|bytes| - 1]) + bytes[|bytes| - 1]
  }

  /** Bytewise order of byte strings. */
  predicate BytesLess(a: seq<Byte>, b: seq<Byte>) {
    if a == [] then b != []
    else if b == [] then false
    else if a[0] != b[0] then a[0] < b[0]
    else BytesLess(a[1..], b[1..])
  }

  lemma {:induction false} BytesOfNumber(n: nat, width: nat)
    requires n < Span(width)
    ensures BigEndian(ToBytes(n, width)) == n
  {
    if width > 0 {
      BytesOfNumber(n / 256, width - 1);
      assert ToBytes(n, width)[..width - 1] == ToBytes(n / 256, width - 1);
    }
  }

  lemma {:induction false} BigEndianBound(bytes: seq<Byte>)
    ensures BigEndian(bytes) < Span(|bytes|)
  {
    if bytes != [] {
      BigEndianBound(bytes[..|bytes| - 1]);
    }
  }

  lemma {:induction false} BigEndianConcat(a: seq<Byte>, b: seq<Byte>)
    ensures BigEndian(a + b) == BigEndian(a) * Span(|b|) + BigEndian(b)
  {
    if b == [] {
      assert a + b == a;
    } else {
      var init := b[..|b| - 1];
      assert (a + b)[..|a + b| - 1] == a + init;
      BigEndianConcat(a, init);
      TimesCommutes(BigEndian(a), Span(|init|));
    }
  }

  lemma TimesCommutes(x: nat, span: nat)
    ensures 256 * (x * span) == x * (256 * span)
  {
  }

  lemma ShiftedLess(x: nat, y: nat, span: nat, p: nat, q: nat)
    requires p < span && q < span && x < y
    ensures x * span + p < y * span + q
  {
    assert (x + 1) * span <= y * span;
    assert (x + 1) * span == x * span + span;
  }

  /** For strings of one length the bytewise order is the numeric order. */
  lemma {:induction false} BytewiseIsNumeric(a: seq<Byte>, b: seq<Byte>)
    requires |a| == |b|
    ensures BytesLess(a, b) <==> BigEndian(a) < BigEndian(b)
    ensures BigEndian(a) == BigEndian(b) <==> a == b
  {
    if a != [] {
      var s := Span(|a| - 1);
      assert a == [a[0]] + a[1..] && b == [b[0]] + b[1..];
      assert BigEndian([a[0]]) == a[0] && BigEndian([b[0]]) == b[0] by {
        assert [a[0]][..0] == [] && [b[0]][..0] == [];
      }
      BigEndianConcat([a[0]], a[1..]);
      BigEndianConcat([b[0]], b[1..]);
      BigEndianBound(a[1..]);
      BigEndianBound(b[1..]);
      BytewiseIsNumeric(a[1..], b[1..]);
      if a[0] < b[0] {
        ShiftedLess(a[0], b[0], s, BigEndian(a[1..]), BigEndian(b[1..]));
      } else if b[0] < a[0] {
        ShiftedLess(b[0], a[0], s, BigEndian(b[1..]), BigEndian(a[1..]));
      }
    }
  }

  lemma ToBytesInjective(m: nat, n: nat, width: nat)
    requires m < Span(width) && n < Span(width)
    ensures ToBytes(m, width) == ToBytes(n, width) <==> m == n
    ensures BytesLess(ToBytes(m, width), ToBytes(n, width)) <==> m < n
  {
    BytesOfNumber(m, width);
    BytesOfNumber(n, width);
    BytewiseIsNumeric(ToBytes(m, width), ToBytes(n, width));
  }

  lemma {:induction false} SharedPrefixOrder(p: seq<Byte>, a: seq<Byte>, b: seq<Byte>)
    ensures BytesLess(p + a, p + b) <==> BytesLess(a, b)
  {
    if p == [] {
      assert p + a == a && p + b == b;
    } else {
      assert (p + a)[1..] == p[1..] + a && (p + b)[1..] == p[1..] + b;
      SharedPrefixOrder(p[1..], a, b);
    }
  }

  /** The version nibble and variant bits of a version-7 UUID. */
  predicate IsVersion7(id: seq<Byte>) {
    |id| == 16 && id[6] / 16 == 7 && id[8] / 64 == 2
  }

  // ------------------------------------------------- seeded generators

  const U16_SPAN: nat := 0x1_0000
  const U32_MAX: nat := 0xFFFF_FFFF
  const U48_SPAN: nat := 0x1_0000_0000_0000

  /** `2026-01-01T00:00:00Z` in Unix milliseconds. */
  const CONFORMANCE_EPOCH_UNIX_MS: nat := 1_767_225_600_000

  /** Milliseconds, version, variant, producer tag, counter. */
  function SeededId(epochMs: nat, tag: nat, counter: nat): (id: seq<Byte>)
    ensures |id| == 16
  {
    ToBytes(epochMs, 6) + [0x70, 0x00, 0x80, 0x00] + ToBytes(tag, 2) + ToBytes(counter, 4)
  }

  const U64_SPAN: nat := 0x1_0000_0000_0000_0000

  /** Bitwise exclusive or. */
  function Xor(a: nat, b: nat): nat
    decreases a + b
  {
    if a == 0 then b
    else if b == 0 then a
    else 2 * Xor(a / 2, b / 2) + (a + b) % 2
  }

  /** One step of FNV-1a, multiplying with 64-bit wrap-around. */
  function FnvStep(hash: nat, byte: Byte): (h: nat)
    ensures h < U64_SPAN
  {
    (Xor(hash, byte) * 0x0000_0100_0000_01b3) % U64_SPAN
  }

  /** FNV-1a over the bytes of a producer name. */
  function Fnv(name: seq<Byte>): (h: nat)
    ensures h < U64_SPAN
  {
    if name == [] then 0xcbf2_9ce4_8422_2325 else FnvStep(Fnv(name[..|name| - 1]), name[|name| - 1])
  }

  /** The 64-bit hash folded to its low 16 bits. */
  function Folded(hash: nat): (f: nat)
    ensures f < U16_SPAN
  {
    Xor(Xor(hash, hash / U16_SPAN), Xor(hash / 0x1_0000_0000, hash / U48_SPAN)) % U16_SPAN
  }

  function TagOf(name: seq<Byte>): nat {
    1 + Folded(Fnv(name)) % 0xFFFE
  }

  method ProducerTag(name: seq<Byte>) returns (tag: nat)
    ensures tag == TagOf(name)
  {
    hide Folded, FnvStep;
    var hash := 0xcbf2_9ce4_8422_2325;
    for i := 0 to |name|
      invariant 0 <= hash < U64_SPAN && hash == Fnv(name[..i])
    {
      assert name[..i + 1][..i] == name[..i];
      hash := FnvStep(hash, name[i]);
    }
    assert name[..|name|] == name;
    tag := 1 + Folded(hash) % 0xFFFE;
  }

  /** No name is given one of the two tags kept back. */
  lemma TagsAvoidReserved(name: seq<Byte>)
    ensures 1 <= TagOf(name) <= 0xFFFE
  {
  }

  /** A tag is one more than the folded hash, the last two folds sharing tags with the first two. */
  lemma TagMeaning(name: seq<Byte>)
    ensures Folded(Fnv(name)) < 65534 ==> TagOf(name) == Folded(Fnv(name)) + 1
    ensures Folded(Fnv(name)) == 65534 ==> TagOf(name) == 1
    ensures Folded(Fnv(name)) == 65535 ==> TagOf(name) == 2
  {
    hide Folded, Fnv;
  }

  class SeededIdGen {
    var epochMs: nat
    var producerTag: nat
    var counter: nat

    ghost predicate Valid()
      reads this
    {
      epochMs < U48_SPAN && producerTag < U16_SPAN && counter <= U32_MAX
    }

    constructor (epochMs: nat, start: nat)
      requires epochMs < U48_SPAN && start <= U32_MAX
      ensures Valid() && this.epochMs == epochMs && producerTag == 0 && counter == start
    {
      this.epochMs, producerTag, counter := epochMs, 0, start;
    }

    constructor ForProducer(name: seq<Byte>)
      ensures Valid() && epochMs == 1_767_225_600_000 && producerTag == TagOf(name) && counter == 1
    {
      var tag := ProducerTag(name);
      TagsAvoidReserved(name);
      epochMs, producerTag, counter := CONFORMANCE_EPOCH_UNIX_MS, tag, 1;
    }

    /** Mint the next identifier. Drawing past the last counter value fails loudly in the
        source, so it is the caller's to avoid. */
    method NextId() returns (id: seq<Byte>)
      requires Valid() && counter < U32_MAX
      modifies this
      ensures Valid()
      ensures id == SeededId(old(epochMs), old(producerTag), old(counter))
      ensures epochMs == old(epochMs) && producerTag == old(producerTag) && counter == old(counter) + 1
    {
      var n := counter;
      counter := counter + 1;
      var bytes: seq<Byte> := seq(16, _ => 0);
      bytes := ToBytes(epochMs, 6) + bytes[6..];
      bytes := bytes[6 := 0x70];
      bytes := bytes[7 := 0x00];
      bytes := bytes[8 := 0x80];
      bytes := bytes[9 := 0x00];
      bytes := bytes[..10] + ToBytes(producerTag, 2) + bytes[12..];
      bytes := bytes[..12] + ToBytes(n, 4);
      id := bytes;
      assert id[6..10] == [0x70, 0x00, 0x80, 0x00];
      assert id == id[..6] + id[6..10] + id[10..12] + id[12..];
    }
  }

  lemma SpanOfWidths()
    ensures Span(2) == U16_SPAN && Span(4) == U32_MAX + 1 && Span(6) == U48_SPAN
  {
    assert Span(1) == 256;
    assert Span(3) == 256 * Span(2);
    assert Span(5) == 256 * Span(4);
  }

  /** Identifiers from one generator are version-7 shaped and strictly increase bytewise;
      identifiers from generators with different tags are never equal. */
  lemma SeededIdsOrdered(epochMs: nat, tag: nat, tag': nat, m: nat, n: nat)
    requires epochMs < U48_SPAN && tag < U16_SPAN && tag' < U16_SPAN && m <= U32_MAX && n <= U32_MAX
    ensures IsVersion7(SeededId(epochMs, tag, m))
    ensures BytesLess(SeededId(epochMs, tag, m), SeededId(epochMs, tag, n)) <==> m < n
    ensures SeededId(epochMs, tag, m) == SeededId(epochMs, tag', n) <==> tag == tag' && m == n
  {
    SpanOfWidths();
    var head := ToBytes(epochMs, 6) + [0x70, 0x00, 0x80, 0x00];
    var a, b, c := SeededId(epochMs, tag, m), SeededId(epochMs, tag, n), SeededId(epochMs, tag', n);
    assert a[6] == 0x70 && a[8] == 0x80;
    ToBytesInjective(m, n, 4);
    ToBytesInjective(tag, tag', 2);
    assert a == (head + ToBytes(tag, 2)) + ToBytes(m, 4) && b == (head + ToBytes(tag, 2)) + ToBytes(n, 4);
    SharedPrefixOrder(head + ToBytes(tag, 2), ToBytes(m, 4), ToBytes(n, 4));
    assert a[10..12] == ToBytes(tag, 2) && c[10..12] == ToBytes(tag', 2);
    assert a[12..] == ToBytes(m, 4) && c[12..] == ToBytes(n, 4);
  }

  // --------------------------------------------------- engine identifiers

  const NANOS_PER_MILLI: int := 1_000_000

  /** The 48-bit millisecond field of an instant; an instant before the epoch reads as 0. */
  function MillisField(at: Instant): (ms: nat)
    ensures ms < U48_SPAN
  {
    if at < 0 || at / NANOS_PER_MILLI > U64_MAX then 0 else (at / NANOS_PER_MILLI) % U48_SPAN
  }

  /** Milliseconds, version with the low 12 bits of the sequence number, variant. */
  function EngineIdBytes(at: Instant, sequence: nat): (id: seq<Byte>)
    ensures |id| == 16
  {
    ToBytes(MillisField(at), 6) + [0x70 + (sequence / 256) % 16, sequence % 256, 0x80, 0, 0, 0, 0, 0, 0, 0]
  }

  function EngineEventId(at: Instant, sequence: nat): Uuid {
    BigEndian(EngineIdBytes(at, sequence))
  }

  /** Exactly when two events the engine emits carry the same identifier, within one check
      or across checks: same millisecond and sequence numbers equal in their low 12 bits. */
  lemma EngineIdCollisions(at: Instant, s: nat, at': Instant, s': nat)
    ensures EngineEventId(at, s) == EngineEventId(at', s') <==>
            MillisField(at) == MillisField(at') && s % 4096 == s' % 4096
  {
    var a, b := EngineIdBytes(at, s), EngineIdBytes(at', s');
    SpanOfWidths();
    BytewiseIsNumeric(a, b);
    ToBytesInjective(MillisField(at), MillisField(at'), 6);
    LowBits(s);
    LowBits(s');
    if MillisField(at) == MillisField(at') && s % 4096 == s' % 4096 {
      assert a == b;
    }
    if a == b {
      assert a[..6] == ToBytes(MillisField(at), 6) && b[..6] == ToBytes(MillisField(at'), 6);
      assert a[6] == 0x70 + (s / 256) % 16 && b[6] == 0x70 + (s' / 256) % 16;
      assert a[7] == s % 256 && b[7] == s' % 256;
    }
  }

  lemma LowBits(s: nat)
    ensures s % 4096 == 256 * ((s / 256) % 16) + s % 256
  {
  }

  /** Within one check the identifiers are version-7 shaped and strictly increase with the
      sequence number as long as it stays below 4096. */
  lemma EngineIdsOrdered(at: Instant, s: nat, t: nat)
    requires s < 4096 && t < 4096
    ensures IsVersion7(EngineIdBytes(at, s))
    ensures EngineEventId(at, s) < EngineEventId(at, t) <==> s < t
  {
    hide BigEndian, ToBytes, MillisField;
    var a, b := EngineIdBytes(at, s), EngineIdBytes(at, t);
    var head := ToBytes(MillisField(at), 6);
    assert a[6] == 0x70 + (s / 256) % 16 && a[8] == 0x80;
    BytewiseIsNumeric(a, b);
    SharedPrefixOrder(head, a[6..], b[6..]);
    assert a == head + a[6..] && b == head + b[6..];
    assert BytesLess(a[8..], b[8..]) == false by {
      assert a[8..] == b[8..];
      BytewiseIsNumeric(a[8..], b[8..]);
    }
    assert a[6..][1..] == a[7..] && a[7..][1..] == a[8..] && b[6..][1..] == b[7..] && b[7..][1..] == b[8..];
    assert a[6..][0] == a[6] && b[6..][0] == b[6] && a[7..][0] == a[7] && b[7..][0] == b[7];
    LowBits(s);
    LowBits(t);
  }

  /** Engine identifiers are far above the first few. */
  lemma EngineIdsAreLarge(at: Instant, s: nat)
    ensures EngineEventId(at, s) > 0xFFFF
  {
    hide ToBytes, MillisField, BigEndian;
    var id := EngineIdBytes(at, s);
    var head, tail := id[..7], id[7..];
    assert id == head + tail && |tail| == 9 && head[6] >= 0x70;
    BigEndianConcat(head, tail);
    LastByteBounds(head);
    assert Span(9) > 0xFFFF;
    assert BigEndian(head) * Span(9) >= 1 * Span(9);
  }

  lemma LastByteBounds(bytes: seq<Byte>)
    requires bytes != []
    ensures BigEndian(bytes) >= bytes[|bytes| - 1]
  {
  }

  // -------------------------------------------------------- known values

  function Bit(n: nat, k: nat): nat {
    if k == 0 then n % 2 else Bit(n / 2, k - 1)
  }

  /** The exclusive or has a bit exactly where one of the two has it and the other does not. */
  lemma {:induction false} XorBits(a: nat, b: nat, k: nat)
    ensures Bit(Xor(a, b), k) == (Bit(a, k) + Bit(b, k)) % 2
    decreases k
  {
    XorHalves(a, b);
    if k > 0 {
      XorBits(a / 2, b / 2, k - 1);
    }
  }

  lemma {:induction false} XorHalves(a: nat, b: nat)
    ensures Xor(a, b) / 2 == Xor(a / 2, b / 2) && Xor(a, b) % 2 == (a + b) % 2
  {
  }

  function Power(j: nat): (p: nat)
    ensures p >= 1
  {
    if j == 0 then 1 else 2 * Power(j - 1)
  }

  lemma HalveThenDivide(n: nat, m: nat)
    requires m >= 1
    ensures n / (2 * m) == (n / 2) / m
  {
    var q, r := n / (2 * m), n % (2 * m);
    assert n == 2 * m * q + r;
    assert n / 2 == m * q + r / 2 by {
      assert 2 * m * q == 2 * (m * q);
    }
    assert 0 <= r / 2 < m;
    Quotient(m * q + r / 2, m, q, r / 2);
  }

  lemma Quotient(n: nat, m: nat, q: nat, r: nat)
    requires r < m && n == m * q + r
    ensures n / m == q
  {
    var q' := n / m;
    assert n == m * q' + n % m;
    assert q' < q ==> m * (q' + 1) <= m * q;
    assert q < q' ==> m * (q + 1) <= m * q';
  }

  /** The number without its low `j` bits. */
  function Shifted(n: nat, j: nat): nat {
    if j == 0 then n else Shifted(n / 2, j - 1)
  }

  lemma {:induction false} ShiftedDivides(n: nat, j: nat)
    ensures Shifted(n, j) == n / Power(j)
  {
    hide Power;
    PowerStep(j);
    if j == 0 {
      assert n / 1 == n;
    } else {
      HalveThenDivide(n, Power(j - 1));
      ShiftedDivides(n / 2, j - 1);
    }
  }

  /** Shifting right by `j` moves every bit down by `j`. */
  lemma {:induction false} ShiftedBits(n: nat, j: nat, k: nat)
    ensures Bit(Shifted(n, j), k) == Bit(n, j + k)
  {
    hide Bit;
    if j > 0 {
      ShiftedBits(n / 2, j - 1, k);
      BitStep(n, j + k);
    }
  }

  lemma PowerStep(j: nat)
    ensures Power(j) == if j == 0 then 1 else 2 * Power(j - 1)
  {
  }

  lemma BitStep(n: nat, k: nat)
    ensures k > 0 ==> Bit(n, k) == Bit(n / 2, k - 1)
  {
  }

  lemma {:induction false} LowBitsKept(n: nat, j: nat, k: nat)
    requires k < j
    ensures Bit(n % Power(j), k) == Bit(n, k)
  {
    var m := Power(j - 1);
    HalveThenDivide(n, m);
    var low := n % (2 * m);
    assert low % 2 == n % 2 && low / 2 == (n / 2) % m by {
      var q := n / (2 * m);
      assert n == 2 * (m * q) + low by {
        assert 2 * m * q == 2 * (m * q);
      }
      assert n / 2 == m * q + low / 2;
      assert q == (n / 2) / m;
    }
    if k > 0 {
      LowBitsKept(n / 2, j - 1, k - 1);
    }
  }

  lemma PowersOfTwo()
    ensures Power(16) == 0x1_0000 && Power(32) == 0x1_0000_0000 && Power(48) == 0x1_0000_0000_0000
  {
    assert Power(6) == 0x40;
    assert Power(12) == 0x1000;
    assert Power(18) == 0x40000;
    assert Power(24) == 0x1000000;
    assert Power(30) == 0x40000000;
    assert Power(36) == 0x1000000000;
    assert Power(42) == 0x40000000000;
  }

  /** Bits beyond a shift by 16, 32 or 48. */
  lemma ShiftsOf(hash: nat, k: nat)
    ensures Bit(hash / 0x1_0000, k) == Bit(hash, 16 + k)
    ensures Bit(hash / 0x1_0000_0000, k) == Bit(hash, 32 + k)
    ensures Bit(hash / 0x1_0000_0000_0000, k) == Bit(hash, 48 + k)
  {
    hide Bit, Shifted, Power;
    PowersOfTwo();
    ShiftedBits(hash, 16, k);
    ShiftedDivides(hash, 16);
    ShiftedBits(hash, 32, k);
    ShiftedDivides(hash, 32);
    ShiftedBits(hash, 48, k);
    ShiftedDivides(hash, 48);
  }

  lemma LowSixteen(n: nat, k: nat)
    requires k < 16
    ensures Bit(n % 0x1_0000, k) == Bit(n, k)
  {
    hide Bit, Power;
    PowersOfTwo();
    LowBitsKept(n, 16, k);
  }

  /** Every bit of the folded hash combines the four bits of the hash that lie 16 apart. */
  lemma FoldedBits(hash: nat, k: nat)
    requires k < 16
    ensures Bit(Folded(hash), k)
            == (Bit(hash, k) + Bit(hash, k + 16) + Bit(hash, k + 32) + Bit(hash, k + 48)) % 2
  {
    hide Bit, Xor;
    var a, b := Xor(hash, hash / 0x1_0000), Xor(hash / 0x1_0000_0000, hash / 0x1_0000_0000_0000);
    LowSixteen(Xor(a, b), k);
    XorBits(a, b, k);
    XorBits(hash, hash / 0x1_0000, k);
    XorBits(hash / 0x1_0000_0000, hash / 0x1_0000_0000_0000, k);
    ShiftsOf(hash, k);
  }

  /** The published offset basis and prime, and with them the published hash of `a`. */
  lemma FnvKnownValues()
    ensures Fnv([]) == 0xcbf2_9ce4_8422_2325 && FnvStep(1, 0) == 0x0000_0100_0000_01b3
    ensures Fnv([97]) == 0xaf63_dc4c_8601_ec8c
  {
    assert [97][..0] == [];
    assert Xor(0x197e539c9084446, 0) == 0x197e539c9084446;
    assert Xor(0x32fca739210888c, 1) == 0x32fca739210888d;
    assert Xor(0x65f94e724211119, 3) == 0x65f94e72421111a;
    assert Xor(0xcbf29ce48422232, 6) == 0xcbf29ce48422234;
    assert Xor(0x197e539c90844464, 12) == 0x197e539c90844468;
    assert Xor(0x32fca739210888c9, 24) == 0x32fca739210888d1;
    assert Xor(0x65f94e7242111192, 48) == 0x65f94e72421111a2;
    assert Xor(0xcbf29ce484222325, 97) == 0xcbf29ce484222344;
  }

  /** The identifier holds its three parts where each can be read back. */
  lemma SeededIdParts(epochMs: nat, tag: nat, counter: nat)
    requires epochMs < U48_SPAN && tag < U16_SPAN && counter <= U32_MAX
    ensures var id := SeededId(epochMs, tag, counter);
            && BigEndian(id[..6]) == epochMs && id[6..10] == [0x70, 0x00, 0x80, 0x00]
            && BigEndian(id[10..12]) == tag && BigEndian(id[12..]) == counter
  {
    hide BigEndian, ToBytes;
    SpanOfWidths();
    BytesOfNumber(epochMs, 6);
    BytesOfNumber(tag, 2);
    BytesOfNumber(counter, 4);
    var id := SeededId(epochMs, tag, counter);
    assert id[..6] == ToBytes(epochMs, 6) && id[10..12] == ToBytes(tag, 2) && id[12..] == ToBytes(counter, 4);
  }

  /** An engine identifier holds the milliseconds since the epoch, if 64 bits can hold them, cut to
      48 bits, and the low 12 bits of the sequence number. */
  lemma EngineIdParts(at: Instant, sequence: nat)
    ensures var id := EngineIdBytes(at, sequence);
            && BigEndian(id[..6]) == (if 0 <= at && at / 1_000_000 < 0x1_0000_0000_0000_0000
                                      then (at / 1_000_000) % 0x1_0000_0000_0000 else 0)
            && (var high: int, low: int := id[6], id[7]; 256 * high + low == 0x7000 + sequence % 4096)
            && id[8..] == [0x80, 0, 0, 0, 0, 0, 0, 0]
  {
    hide BigEndian, ToBytes;
    SpanOfWidths();
    BytesOfNumber(MillisField(at), 6);
    LowBits(sequence);
    var id := EngineIdBytes(at, sequence);
    assert id[..6] == ToBytes(MillisField(at), 6);
  }
}
