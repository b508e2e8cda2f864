/** Entity tags (section 8.8.3 of RFC 9110): strict parsing, and the wire form it normalizes
    to. */
module ETags {
  import opened Wrappers
  import opened Text

  datatype ETag = ETag(weak: bool, quoted: string) {
    function Wire(): string {
      if weak then "W/" + quoted else quoted
    }
  }

  datatype ETagError = EmptyTag | Unquoted | IllegalCharacter | BadWeakPrefix {
    function Token(): string {
      match this
      case EmptyTag => "empty"
      case Unquoted => "unquoted"
      case IllegalCharacter => "illegal-character"
      case BadWeakPrefix => "bad-weak-prefix"
    }
  }

  predicate IsWhitespace(c: char) {
    '\t' <= c <= '\r' || c == ' ' || c as int in {0x85, 0xA0, 0x1680, 0x2028, 0x2029, 0x202F, 0x205F, 0x3000}
    || 0x2000 <= c as int <= 0x200A
  }

  function TrimStart(s: string): string {
    if s != "" && IsWhitespace(s[0]) then TrimStart(s[1..]) else s
  }

  function TrimEnd(s: string): string {
    if s != "" && IsWhitespace(s[|s| - 1]) then TrimEnd(s[..|s| - 1]) else s
  }

  function Trim(s: string): string {
    TrimEnd(TrimStart(s))
  }

  /** `etagc`: printable, not a double quote, not a space or control. */
  predicate IsTagChar(c: char) {
    c as int == 0x21 || 0x23 <= c as int <= 0x7E || c as int >= 0x80
  }

  function ParseOpaque(weak: bool, quoted: string): Result<ETag, ETagError> {
    if |quoted| < 2 || quoted[0] != '"' || quoted[|quoted| - 1] != '"' then Err(Unquoted)
    else if forall i :: 1 <= i < |quoted| - 1 ==> IsTagChar(quoted[i]) then Ok(ETag(weak, quoted))
    else Err(IllegalCharacter)
  }

  function ParseETag(raw: string): Result<ETag, ETagError> {
    var value := Trim(raw);
    if value == "" then Err(EmptyTag)
    else if StartsWith(value, "W/") || StartsWith(value, "w/") then ParseOpaque(true, value[2..])
    else
      match SplitOnce(value, '/')
      case Some((prefix, rest)) =>
        if |prefix| == 1 && prefix[0] as int < 0x80 && rest != "" && rest[0] == '"' then Err(BadWeakPrefix)
        else ParseOpaque(false, value)
      case None => ParseOpaque(false, value)
  }

  lemma TrimmedAlready(s: string)
    requires s != "" && !IsWhitespace(s[0]) && !IsWhitespace(s[|s| - 1])
    ensures Trim(s) == s
  {
  }

  /** The wire form of a parsed tag is its normal form: parsing it again changes nothing, and
      a weak tag is never read back as a strong one. */
  lemma WireIsNormal(raw: string)
    requires ParseETag(raw).Ok?
    ensures ParseETag(ParseETag(raw).value.Wire()) == ParseETag(raw)
  {
    var tag := ParseETag(raw).value;
    var wire := tag.Wire();
    assert ParseOpaque(tag.weak, tag.quoted) == Ok(tag);
    assert wire[|wire| - 1] == '"';
    TrimmedAlready(wire);
    if tag.weak {
      assert wire[..2] == "W/" && wire[2..] == tag.quoted;
    } else {
      assert wire[0] == '"' && "W/"[0] == 'W' && "w/"[0] == 'w';
      match SplitOnce(wire, '/')
      case Some((prefix, rest)) => assert prefix != "" ==> prefix[0] == '"';
      case None =>
    }
  }

  /** Only an explicit weakness prefix makes a tag weak, and it always does. */
  lemma WeakExactlyWhenMarked(raw: string)
    requires ParseETag(raw).Ok?
    ensures ParseETag(raw).value.weak <==> StartsWith(Trim(raw), "W/") || StartsWith(Trim(raw), "w/")
    ensures ParseETag(raw).value.weak <==> ParseETag(raw).value.Wire()[0] == 'W'
  {
  }

  /** Any character above the space may stand inside the quotes, but for the quote and DEL. */
  lemma TagCharMeaning(c: char)
    ensures IsTagChar(c) <==> c > ' ' && c != '"' && c as int != 0x7F
  {
  }

  /** What is trimmed: the white space of Unicode. */
  lemma WhitespaceMeaning(c: char)
    ensures IsWhitespace(c) <==>
            c as int in {0x09, 0x0A, 0x0B, 0x0C, 0x0D, 0x20, 0x85, 0xA0, 0x1680, 0x2000, 0x2001, 0x2002, 0x2003, 0x2004,
                         0x2005, 0x2006, 0x2007, 0x2008, 0x2009, 0x200A, 0x2028, 0x2029, 0x202F, 0x205F, 0x3000}
  {
  }

  /** Trimming takes white space off both ends, as much as there is. */
  lemma {:induction false} TrimMeaning(s: string)
    ensures exists front, back ::
              && s == front + Trim(s) + back
              && (forall c :: c in front + back ==> IsWhitespace(c))
    ensures Trim(s) != "" ==> !IsWhitespace(Trim(s)[0]) && !IsWhitespace(Trim(s)[|Trim(s)| - 1])
  {
    var front := TrimmedStart(s);
    var back := TrimmedEnd(TrimStart(s));
    assert s == front + Trim(s) + back;
    if Trim(s) != "" {
      assert Trim(s)[0] == TrimStart(s)[0];
    }
  }

  lemma {:induction false} TrimmedStart(s: string) returns (front: string)
    ensures s == front + TrimStart(s) && forall c :: c in front ==> IsWhitespace(c)
    ensures TrimStart(s) != "" ==> !IsWhitespace(TrimStart(s)[0])
  {
    front := "";
    if s != "" && IsWhitespace(s[0]) {
      front := TrimmedStart(s[1..]);
      front := [s[0]] + front;
    }
  }

  lemma {:induction false} TrimmedEnd(s: string) returns (back: string)
    ensures s == TrimEnd(s) + back && forall c :: c in back ==> IsWhitespace(c)
    ensures TrimEnd(s) != "" ==> !IsWhitespace(TrimEnd(s)[|TrimEnd(s)| - 1])
  {
    back := "";
    if s != "" && IsWhitespace(s[|s| - 1]) {
      back := TrimmedEnd(s[..|s| - 1]);
      back := back + [s[|s| - 1]];
    }
  }

  /** An opaque tag: tag characters between double quotes. */
  predicate IsOpaque(quoted: string) {
    && |quoted| >= 2 && quoted[0] == '"' && quoted[|quoted| - 1] == '"'
    && forall i :: 1 <= i < |quoted| - 1 ==> IsTagChar(quoted[i])
  }

  /** The field is an entity tag: an opaque tag, marked weak or not, with white space around it. */
  predicate IsEntityTag(raw: string, tag: ETag) {
    && IsOpaque(tag.quoted)
    && if tag.weak then Trim(raw) == "W/" + tag.quoted || Trim(raw) == "w/" + tag.quoted else Trim(raw) == tag.quoted
  }

  /** Every entity tag should be accepted and nothing else. The strong tag that is one slash is
      not: it is taken for a bad weakness prefix. It alone is lost. */
  lemma AcceptedExactlyWhen(raw: string, tag: ETag)
    ensures ParseETag(raw) == Ok(tag) <==> IsEntityTag(raw, tag) && Trim(raw) != "\"/\""
  {
    hide Trim, IsTagChar;
    var value := Trim(raw);
    assert "W/"[0] == 'W' && "w/"[0] == 'w' && |"W/"| == 2 && |"w/"| == 2;
    assert StartsWith(value, "W/") ==> value == "W/" + value[2..];
    assert StartsWith(value, "w/") ==> value == "w/" + value[2..];
    if tag.weak {
      assert ("W/" + tag.quoted)[2..] == tag.quoted && ("w/" + tag.quoted)[2..] == tag.quoted;
    }
    if IsOpaque(value) {
      OneSlash(value);
    }
  }

  /** What the parser takes for a tag with a bad weakness prefix. */
  predicate LooksPrefixed(value: string) {
    match SplitOnce(value, '/')
    case None => false
    case Some((prefix, rest)) => |prefix| == 1 && prefix[0] as int < 0x80 && rest != "" && rest[0] == '"'
  }

  lemma OneSlash(value: string)
    requires IsOpaque(value)
    ensures LooksPrefixed(value) <==> value == "\"/\""
  {
    assert |"\"/\""| == 3 && "\"/\""[1] == '/';
    var i := IndexOf(value, '/');
    if i == 1 && |value| > 2 && value[2] == '"' {
      assert !IsTagChar(value[2]);
      assert |value| == 3;
      assert value == [value[0], value[1], value[2]];
    }
  }

  /** An entity tag section 8.8.3 of RFC 9110 allows and the parser refuses. */
  lemma OneSlashIsRefused()
    ensures IsEntityTag("\"/\"", ETag(false, "\"/\"")) && ParseETag("\"/\"") == Err(BadWeakPrefix)
  {
    var value := "\"/\"";
    assert |value| == 3 && value[0] == '"' && value[1] == '/' && value[2] == '"';
    TrimmedAlready(value);
    assert IsTagChar('/');
    assert IsOpaque(value);
    OneSlash(value);
    assert "W/"[0] == 'W' && "w/"[0] == 'w';
  }
}
