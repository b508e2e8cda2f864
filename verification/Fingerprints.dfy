/** Fingerprints, and how they are written and read back. */
module Fingerprints {
  import opened Wrappers
  import opened Text

  datatype FingerprintKind = ContentHash | Version | Etag | Mtime | Custom {

    /** Wire prefix before the colon. */
    function WirePrefix(): string {
      match this
      case ContentHash => "blake3"
      case Version => "version"
      case Etag => "etag"
      case Mtime => "mtime"
      case Custom => "custom"
    }
  }

  datatype Fingerprint = Fingerprint(kind: FingerprintKind, payload: string) {

    /** The wire form. A content hash already carries its algorithm prefix. */
    function Display(): string {
      if kind.ContentHash? then payload else kind.WirePrefix() + ":" + payload
    }
  }

  datatype ParseError = Empty | Malformed | UnknownIsNotFingerprint

  function Lower(c: char): char {
    if 'A' <= c <= 'Z' then 'a' + (c - 'A') else c
  }

  predicate EqualsIgnoringAsciiCase(a: string, b: string) {
    |a| == |b| && forall i :: 0 <= i < |a| ==> Lower(a[i]) == Lower(b[i])
  }

  predicate IsHashPrefix(prefix: string) {
    prefix == "blake3" || prefix == "sha256"
  }

  predicate IsNamedPrefix(prefix: string) {
    IsHashPrefix(prefix) || prefix == "version" || prefix == "etag" || prefix == "mtime"
  }

  function Parse(s: string): Result<Fingerprint, ParseError> {
    if s == [] then Err(Empty)
    else match SplitOnce(s, ':') {
      case None => Err(Malformed)
      case Some((prefix, rest)) =>
        if prefix == [] then Err(Malformed)
        else if rest == [] then Err(Empty)
        else if EqualsIgnoringAsciiCase(prefix, "unknown") then Err(UnknownIsNotFingerprint)
        else if IsHashPrefix(prefix) then Ok(Fingerprint(ContentHash, s))
        else if prefix == "version" then Ok(Fingerprint(Version, rest))
        else if prefix == "etag" then Ok(Fingerprint(Etag, rest))
        else if prefix == "mtime" then Ok(Fingerprint(Mtime, rest))
        else Ok(Fingerprint(Custom, rest))
    }
  }

  /** What a fingerprint must look like for its wire form to mean itself. A caller can
      check it without parsing anything back. */
  predicate Canonical(f: Fingerprint) {
    if f.kind.ContentHash?
    then |f.payload| > 7 && (f.payload[..7] == "blake3:" || f.payload[..7] == "sha256:")
    else f.payload != []
  }

  /** What each prefix is read as. */
  lemma ParseOfJoin(prefix: string, rest: string)
    requires ':' !in prefix && prefix != [] && rest != []
    requires !EqualsIgnoringAsciiCase(prefix, "unknown")
    ensures Parse(prefix + ":" + rest) ==
            Ok(if IsHashPrefix(prefix) then Fingerprint(ContentHash, prefix + ":" + rest)
               else if prefix == "version" then Fingerprint(Version, rest)
               else if prefix == "etag" then Fingerprint(Etag, rest)
               else if prefix == "mtime" then Fingerprint(Mtime, rest)
               else Fingerprint(Custom, rest))
  {
    SplitOnceOfJoin(prefix, ':', rest);
    assert prefix + ":" + rest == prefix + [':'] + rest;
  }

  /** A wire string that parses is its prefix, a colon and its rest. */
  lemma SplitIsJoin(s: string)
    requires SplitOnce(s, ':').Some?
    ensures var (prefix, rest) := SplitOnce(s, ':').value;
            s == prefix + ":" + rest && ':' !in prefix
  {
    var i := IndexOf(s, ':');
    assert s == s[..i] + [s[i]] + s[i + 1..];
  }

  /** Wire form and parser undo each other exactly on canonical fingerprints. */
  lemma DisplayRoundTrip(f: Fingerprint)
    ensures Parse(f.Display()) == Ok(f) <==> Canonical(f)
  {
    var s := f.Display();
    if !f.kind.ContentHash? {
      NamedRoundTrip(f);
    } else if Canonical(f) {
      var prefix := s[..6];
      assert s[..7] == prefix + ":";
      assert prefix == "blake3" || prefix == "sha256";
      assert s == prefix + ":" + s[7..];
      assert "unknown"[0] == 'u' && "blake3"[0] == 'b' && "sha256"[0] == 's';
      ParseOfJoin(prefix, s[7..]);
    } else if Parse(s).Ok? {
      ParsedFormIsCanonical(s);
    }
  }

  lemma NamedRoundTrip(f: Fingerprint)
    requires !f.kind.ContentHash?
    ensures Parse(f.Display()) == Ok(f) <==> f.payload != []
  {
    var prefix := f.kind.WirePrefix();
    assert "version"[0] == 'v' && "etag"[0] == 'e' && "mtime"[0] == 'm' && "custom"[0] == 'c';
    assert "unknown"[0] == 'u' && "blake3"[0] == 'b' && "sha256"[0] == 's';
    assert f.Display() == prefix + [':'] + f.payload;
    SplitOnceOfJoin(prefix, ':', f.payload);
    if f.payload != [] {
      ParseOfJoin(prefix, f.payload);
    }
  }

  lemma ParsedFormIsCanonical(s: string)
    requires Parse(s).Ok?
    ensures Canonical(Parse(s).value)
  {
    SplitIsJoin(s);
    var prefix := SplitOnce(s, ':').value.0;
    if IsHashPrefix(prefix) {
      assert s[..7] == prefix + ":";
    }
  }

  /** Everything the parser accepts is canonical, so re-serializing an accepted
      fingerprint and parsing it again changes nothing. */
  lemma ParsedIsCanonical(s: string)
    requires Parse(s).Ok?
    ensures Canonical(Parse(s).value)
    ensures Parse(Parse(s).value.Display()) == Parse(s)
  {
    ParsedFormIsCanonical(s);
    DisplayRoundTrip(Parse(s).value);
  }

  /** Exactly which distinct wire strings are read as the same fingerprint: those whose
      prefixes are both outside the named ones and whose remainders agree. The prefix of a
      custom scheme is not kept. */
  lemma ParseCollisions(s: string, t: string)
    requires Parse(s).Ok? && Parse(t).Ok?
    ensures Parse(s) == Parse(t) <==>
            || s == t
            || (&& !IsNamedPrefix(SplitOnce(s, ':').value.0)
                && !IsNamedPrefix(SplitOnce(t, ':').value.0)
                && SplitOnce(s, ':').value.1 == SplitOnce(t, ':').value.1)
  {
    SplitIsJoin(s);
    SplitIsJoin(t);
  }

  /** The token `unknown` never parses as a fingerprint, whatever its casing. */
  lemma UnknownNeverParses(prefix: string, rest: string)
    requires EqualsIgnoringAsciiCase(prefix, "unknown")
    ensures Parse(prefix + ":" + rest).Err?
  {
    forall i | 0 <= i < |prefix| ensures prefix[i] != ':' {
      assert Lower(prefix[i]) == Lower("unknown"[i]);
      assert "unknown"[i] in ['u', 'n', 'k', 'o', 'w'];
    }
    SplitOnceOfJoin(prefix, ':', rest);
    assert prefix + ":" + rest == prefix + [':'] + rest;
  }

  /** Why a string is refused: no colon or nothing before it; nothing at all or nothing after it;
      or some casing of the token. */
  lemma RefusedExactlyWhen(prefix: string, rest: string)
    requires ':' !in prefix
    ensures Parse(prefix) == Err(if prefix == "" then Empty else Malformed)
    ensures Parse(prefix + ":" + rest) == Err(Malformed) <==> prefix == ""
    ensures Parse(prefix + ":" + rest) == Err(Empty) <==> prefix != "" && rest == ""
    ensures Parse(prefix + ":" + rest) == Err(UnknownIsNotFingerprint) <==>
            && rest != "" && |prefix| == 7
            && forall i :: 0 <= i < 7 ==> prefix[i] == "unknown"[i] || prefix[i] == "UNKNOWN"[i]
  {
    SplitOnceOfJoin(prefix, ':', rest);
    assert prefix + ":" + rest == prefix + [':'] + rest;
    assert SplitOnce(prefix, ':').None?;
    CasingsOfUnknown(prefix);
  }

  lemma CasingsOfUnknown(prefix: string)
    ensures EqualsIgnoringAsciiCase(prefix, "unknown") <==>
            |prefix| == 7 && forall i :: 0 <= i < 7 ==> prefix[i] == "unknown"[i] || prefix[i] == "UNKNOWN"[i]
  {
    assert |"unknown"| == 7 && |"UNKNOWN"| == 7;
    if |prefix| == 7 {
      forall i | 0 <= i < 7
        ensures Lower(prefix[i]) == Lower("unknown"[i]) <==> prefix[i] == "unknown"[i] || prefix[i] == "UNKNOWN"[i]
      {
      }
    }
  }
}
