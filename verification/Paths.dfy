/** Unix paths as component sequences, and their lexical normalisation.
    Two paths are equal when their components are, which is how the source's path type
    compares: `a//b`, `a/./b` and `a/b` are one path. */
module Paths {
  import opened Wrappers
  import opened Text

  datatype Component = RootDir | CurDir | ParentDir | Normal(name: string)

  type Path = seq<Component>

  // ----------------------------------------------------------- parsing

  function Segments(s: string): (parts: seq<string>)
    ensures parts != []
    decreases |s|
  {
    match SplitOnce(s, '/')
    case None => [s]
    case Some((first, rest)) =>
      [first] + Segments(rest)
  }

  function ComponentOf(segment: string, leading: bool): Path {
    if segment == "" then []
    else if segment == "." then (if leading then [CurDir] else [])
    else if segment == ".." then [ParentDir]
    else [Normal(segment)]
  }

  function ComponentsOf(segments: seq<string>, leading: bool): Path {
    if segments == [] then []
    else ComponentOf(segments[0], leading) + ComponentsOf(segments[1..], false)
  }

  /** The components of a path string: repeated separators and interior `.` vanish, a
      leading `.` of a relative path stays. */
  function Components(s: string): Path {
    var rooted := s != "" && s[0] == '/';
    (if rooted then [RootDir] else []) + ComponentsOf(Segments(s), !rooted)
  }

  /** A root can only be the first component. */
  predicate RootOnlyFirst(p: Path) {
    forall i :: 0 < i < |p| ==> p[i] != RootDir
  }

  predicate IsRooted(p: Path) {
    p != [] && p[0] == RootDir
  }

  lemma {:induction false} SegmentsHaveNoRoot(segments: seq<string>, leading: bool)
    ensures RootDir !in ComponentsOf(segments, leading)
  {
    if segments != [] {
      SegmentsHaveNoRoot(segments[1..], false);
    }
  }

  lemma ComponentsRootOnlyFirst(s: string)
    ensures RootOnlyFirst(Components(s))
    ensures IsRooted(Components(s)) <==> s != "" && s[0] == '/'
  {
    var rooted := s != "" && s[0] == '/';
    SegmentsHaveNoRoot(Segments(s), !rooted);
  }

  lemma {:induction false} SegmentsSnoc(p: string, segment: string)
    requires '/' !in segment
    ensures Segments(p + "/" + segment) == Segments(p) + [segment]
    decreases |p|
  {
    var s := p + "/" + segment;
    match SplitOnce(p, '/')
    case None =>
      SplitOnceOfJoin(p, '/', segment);
      assert s == p + ['/'] + segment;
      assert SplitOnce(segment, '/').None?;
    case Some((first, rest)) =>
      assert p == first + ['/'] + rest;
      assert s == first + ['/'] + (rest + "/" + segment);
      SplitOnceOfJoin(first, '/', rest + "/" + segment);
      SegmentsSnoc(rest, segment);
  }

  lemma {:induction false} ComponentsSnoc(segments: seq<string>, segment: string, leading: bool)
    ensures ComponentsOf(segments + [segment], leading)
            == ComponentsOf(segments, leading) + ComponentOf(segment, leading && segments == [])
  {
    var all := segments + [segment];
    if segments == [] {
      assert all[1..] == [];
    } else {
      assert all[0] == segments[0] && all[1..] == segments[1..] + [segment];
      ComponentsSnoc(segments[1..], segment, false);
    }
  }

  /** A path string read from its last separator: a segment adds its name, `..` adds the parent,
      an empty segment or `.` adds nothing, except that a path that is just `.` keeps it. What
      stands before a leading separator is the root. */
  lemma ComponentsMeaning(p: string, segment: string)
    requires '/' !in segment
    ensures Components(segment) == if segment == "" then [] else if segment == "." then [CurDir]
                                   else if segment == ".." then [ParentDir] else [Normal(segment)]
    ensures Components(p + "/" + segment)
            == (if p == "" then [RootDir] else Components(p))
               + if segment == "" || segment == "." then [] else if segment == ".." then [ParentDir]
                 else [Normal(segment)]
  {
    hide Segments, ComponentsOf;
    OneSegment(segment);
    ExtendedPath(p, segment);
  }

  lemma ExtendedPath(p: string, segment: string)
    requires '/' !in segment
    ensures Components(p + "/" + segment)
            == (if p == "" then [RootDir] else Components(p)) + ComponentOf(segment, false)
  {
    hide Segments, ComponentsOf;
    SegmentsSnoc(p, segment);
    var rooted := p == "" || p[0] == '/';
    var s := p + "/" + segment;
    assert s != "" && s[0] == if p == "" then '/' else p[0];
    ComponentsSnoc(Segments(p), segment, !rooted);
    OneSegment("");
  }

  lemma OneSegment(segment: string)
    requires '/' !in segment
    ensures Segments(segment) == [segment]
    ensures forall leading :: ComponentsOf([segment], leading) == ComponentOf(segment, leading)
  {
    assert SplitOnce(segment, '/').None?;
    assert [segment][1..] == [];
  }

  // ----------------------------------------------------------- meaning

  /** Where following a path lexically leads from directory `dir`, directories being the
      names from the root down. The parent of the root is the root. */
  function Walk(p: Path, dir: seq<string>): seq<string> {
    if p == [] then dir
    else
      var before := Walk(p[..|p| - 1], dir);
      match p[|p| - 1]
      case RootDir => []
      case CurDir => before
      case ParentDir => if before == [] then [] else before[..|before| - 1]
      case Normal(name) => before + [name]
  }

  ghost predicate SameMeaning(p: Path, q: Path) {
    forall dir :: Walk(p, dir) == Walk(q, dir)
  }

  lemma {:induction false} WalkConcat(p: Path, q: Path, dir: seq<string>)
    ensures Walk(p + q, dir) == Walk(q, Walk(p, dir))
  {
    if q == [] {
      assert p + q == p;
    } else {
      assert (p + q)[..|p + q| - 1] == p + q[..|q| - 1];
      WalkConcat(p, q[..|q| - 1], dir);
    }
  }

  // ------------------------------------------------------- normal form

  function Parents(n: nat): Path {
    seq(n, _ => ParentDir)
  }

  function Named(names: seq<string>): Path {
    seq(|names|, i requires 0 <= i < |names| => Normal(names[i]))
  }

  /** The normal form of a path: rooted or not, how many leading `..` survive, and the
      names below them. */
  datatype NormalForm = NormalForm(rooted: bool, ups: nat, names: seq<string>) {
    predicate Valid() {
      rooted ==> ups == 0
    }

    /** The components it stands for before an empty path becomes `.`. */
    function Body(): Path {
      (if rooted then [RootDir] else []) + Parents(ups) + Named(names)
    }

    function Path(): Path {
      if Body() == [] then [CurDir] else Body()
    }

    /** Closed form of where it leads. */
    function Destination(dir: seq<string>): seq<string> {
      if rooted then names
      else if ups <= |dir| then dir[..|dir| - ups] + names
      else names
    }
  }

  /** Normal form of a path, one component at a time from the left. */
  function Reduce(p: Path): (nf: NormalForm)
    requires RootOnlyFirst(p)
    ensures nf.Valid()
    ensures nf.rooted == IsRooted(p)
  {
    if p == [] then NormalForm(false, 0, [])
    else
      var nf := Reduce(p[..|p| - 1]);
      match p[|p| - 1]
      case RootDir => NormalForm(true, 0, [])
      case CurDir => nf
      case ParentDir =>
        if nf.names != [] then nf.(names := nf.names[..|nf.names| - 1])
        else if !nf.rooted then nf.(ups := nf.ups + 1)
        else nf
      case Normal(name) => nf.(names := nf.names + [name])
  }

  function Normalize(p: Path): Path
    requires RootOnlyFirst(p)
  {
    Reduce(p).Path()
  }

  /** What pushing and popping do to the components of a normal form. */
  lemma BodySteps(nf: NormalForm, name: string)
    requires nf.Valid()
    ensures nf.(names := nf.names + [name]).Body() == nf.Body() + [Normal(name)]
    ensures nf.names != [] ==> nf.(names := nf.names[..|nf.names| - 1]).Body() == nf.Body()[..|nf.Body()| - 1]
    ensures nf.names == [] && !nf.rooted ==> nf.(ups := nf.ups + 1).Body() == nf.Body() + [ParentDir]
  {
    assert Named(nf.names + [name]) == Named(nf.names) + [Normal(name)];
    assert nf.names != [] ==> Named(nf.names[..|nf.names| - 1]) == Named(nf.names)[..|nf.names| - 1];
    assert Parents(nf.ups + 1) == Parents(nf.ups) + [ParentDir];
  }

  lemma BodyStarts()
    ensures NormalForm(false, 0, []).Body() == [] && NormalForm(true, 0, []).Body() == [RootDir]
  {
  }

  lemma BodyHolds(nf: NormalForm)
    ensures nf.names != [] ==> |nf.Body()| > 0
  {
  }

  /** Normalise component by component, keeping count of the names that can be popped. */
  method LexicallyNormalize(path: Path) returns (out: Path)
    requires RootOnlyFirst(path)
    ensures out == Normalize(path)
  {
    hide NormalForm.Body;
    BodyStarts();
    out := [];
    var poppedDepth := 0;
    var rooted := false;
    for i := 0 to |path|
      invariant RootOnlyFirst(path[..i])
      invariant out == Reduce(path[..i]).Body()
      invariant poppedDepth == |Reduce(path[..i]).names|
      invariant rooted == Reduce(path[..i]).rooted
    {
      assert path[..i + 1][..i] == path[..i];
      BodyHolds(Reduce(path[..i]));
      BodySteps(Reduce(path[..i]), if path[i].Normal? then path[i].name else "");
      match path[i] {
        case CurDir =>
        case ParentDir =>
          if poppedDepth > 0 {
            out := out[..|out| - 1];
            poppedDepth := poppedDepth - 1;
          } else if !rooted {
            out := out + [ParentDir];
          }
        case Normal(name) =>
          out := out + [Normal(name)];
          poppedDepth := poppedDepth + 1;
        case RootDir =>
          assert i == 0;
          rooted := true;
          out := [RootDir];
      }
    }
    assert path[..|path|] == path;
    if out == [] {
      out := [CurDir];
    }
  }

  // ---------------------------------------------- normalising is exact

  /** Following a path is following its normal form. */
  lemma {:induction false} ReduceKeepsMeaning(p: Path, dir: seq<string>)
    requires RootOnlyFirst(p)
    ensures Walk(p, dir) == Reduce(p).Destination(dir)
  {
    if p != [] {
      ReduceKeepsMeaning(p[..|p| - 1], dir);
    }
  }

  lemma {:induction false} ParentsLead(n: nat, dir: seq<string>)
    ensures Walk(Parents(n), dir) == if n <= |dir| then dir[..|dir| - n] else []
  {
    if n > 0 {
      assert Parents(n)[..n - 1] == Parents(n - 1);
      ParentsLead(n - 1, dir);
    }
  }

  lemma {:induction false} NamedLead(names: seq<string>, dir: seq<string>)
    ensures Walk(Named(names), dir) == dir + names
  {
    if names != [] {
      var init := names[..|names| - 1];
      assert Named(names)[..|names| - 1] == Named(init);
      NamedLead(init, dir);
    }
  }

  lemma NormalFormLeads(nf: NormalForm, dir: seq<string>)
    requires nf.Valid()
    ensures Walk(nf.Path(), dir) == nf.Destination(dir)
  {
    hide Parents, Named;
    var root: Path := if nf.rooted then [RootDir] else [];
    WalkConcat(root + Parents(nf.ups), Named(nf.names), dir);
    WalkConcat(root, Parents(nf.ups), dir);
    ParentsLead(nf.ups, Walk(root, dir));
    NamedLead(nf.names, Walk(root + Parents(nf.ups), dir));
    assert [] + nf.names == nf.names;
    if nf.Body() == [] {
      assert Walk([CurDir], dir) == Walk([CurDir][..0], dir) == dir;
    }
  }

  /** Two normal forms that lead everywhere to the same place are the same. */
  lemma NormalFormsDistinct(a: NormalForm, b: NormalForm)
    requires a.Valid() && b.Valid()
    requires forall dir :: a.Destination(dir) == b.Destination(dir)
    ensures a == b
  {
    if a.rooted && !b.rooted {
      RootedDiffers(a, b);
    } else if b.rooted && !a.rooted {
      RootedDiffers(b, a);
    } else if !a.rooted {
      if a.ups < b.ups {
        UpsDiffer(a, b);
      } else if b.ups < a.ups {
        UpsDiffer(b, a);
      }
      var dir: seq<string> := seq(a.ups, _ => "");
      assert a.Destination(dir) == b.Destination(dir);
      assert dir[..0] + a.names == a.names && dir[..0] + b.names == b.names;
    } else {
      assert a.Destination([]) == b.Destination([]);
    }
  }

  lemma RootedDiffers(a: NormalForm, b: NormalForm)
    requires a.rooted && !b.rooted
    ensures exists dir :: a.Destination(dir) != b.Destination(dir)
  {
    var dir := seq(b.ups + |a.names| + 1, _ => "");
    assert |b.Destination(dir)| > |a.Destination(dir)|;
  }

  lemma UpsDiffer(a: NormalForm, b: NormalForm)
    requires !a.rooted && !b.rooted && a.ups < b.ups
    ensures exists dir :: a.Destination(dir) != b.Destination(dir)
  {
    var other := if b.names == [] then "" else b.names[0] + "+";
    var dir := seq(b.ups, _ => other);
    var there := a.Destination(dir);
    assert there[0] == dir[0] == other;
    assert b.Destination(dir) == b.names;
  }

  /** Normalisation decides meaning: two paths lead to the same place from every
      directory exactly when they normalise to the same path. */
  lemma NormalizeDecidesMeaning(p: Path, q: Path)
    requires RootOnlyFirst(p) && RootOnlyFirst(q)
    ensures SameMeaning(p, q) <==> Normalize(p) == Normalize(q)
  {
    var a, b := Reduce(p), Reduce(q);
    forall dir ensures Walk(p, dir) == a.Destination(dir) && Walk(q, dir) == b.Destination(dir)
                       && Walk(Normalize(p), dir) == a.Destination(dir)
                       && Walk(Normalize(q), dir) == b.Destination(dir)
    {
      ReduceKeepsMeaning(p, dir);
      ReduceKeepsMeaning(q, dir);
      NormalFormLeads(a, dir);
      NormalFormLeads(b, dir);
    }
    if SameMeaning(p, q) {
      forall dir ensures a.Destination(dir) == b.Destination(dir) {
        assert Walk(p, dir) == Walk(q, dir);
      }
      NormalFormsDistinct(a, b);
    }
  }

  lemma NormalFormShape(p: Path)
    requires RootOnlyFirst(p)
    ensures RootOnlyFirst(Normalize(p))
    ensures IsRooted(Normalize(p)) <==> IsRooted(p)
    ensures IsRooted(p) ==> CurDir !in Normalize(p) && ParentDir !in Normalize(p)
    ensures CurDir in Normalize(p) ==> Normalize(p) == [CurDir]
    ensures forall i, j :: 0 <= i < j < |Normalize(p)| && Normalize(p)[j].ParentDir? ==> Normalize(p)[i].ParentDir?
  {
    var nf := Reduce(p);
  }

  lemma NormalizeKeepsMeaning(p: Path)
    requires RootOnlyFirst(p)
    ensures RootOnlyFirst(Normalize(p)) && SameMeaning(Normalize(p), p)
  {
    NormalFormShape(p);
    forall dir ensures Walk(Normalize(p), dir) == Walk(p, dir) {
      ReduceKeepsMeaning(p, dir);
      NormalFormLeads(Reduce(p), dir);
    }
  }

  lemma NormalizeIdempotent(p: Path)
    requires RootOnlyFirst(p)
    ensures RootOnlyFirst(Normalize(p)) && Normalize(Normalize(p)) == Normalize(p)
  {
    NormalizeKeepsMeaning(p);
    NormalizeDecidesMeaning(Normalize(p), p);
  }

  /** Normalising before joining a relative path loses nothing. */
  lemma NormalizeThenJoin(p: Path, q: Path)
    requires RootOnlyFirst(p) && RootDir !in q
    ensures RootOnlyFirst(p + q) && RootOnlyFirst(Normalize(p) + q)
    ensures Normalize(Normalize(p) + q) == Normalize(p + q)
  {
    NormalizeKeepsMeaning(p);
    var n := Normalize(p);
    forall dir ensures Walk(n + q, dir) == Walk(p + q, dir) {
      WalkConcat(n, q, dir);
      WalkConcat(p, q, dir);
      assert Walk(n, dir) == Walk(p, dir);
    }
    NormalizeDecidesMeaning(n + q, p + q);
  }

  // ----------------------------------------------------------- resolve

  datatype ResolveError = RelativeWithoutCwd | EmptyPath

  datatype ResolvedPath = ResolvedPath(path: Path, rawPath: Option<Path>)

  /** Joining an absolute path replaces the base; a relative one is appended. */
  function Join(base: Path, p: Path): Path {
    if IsRooted(p) then p else base + p
  }

  /** The tool's path, made absolute by the working directory when it is relative. */
  function Joined(raw: string, cwd: string): (p: Path)
    ensures RootOnlyFirst(p)
    ensures IsRooted(p) <==> IsRooted(Components(raw)) || IsRooted(Components(cwd))
  {
    ComponentsRootOnlyFirst(raw);
    ComponentsRootOnlyFirst(cwd);
    SegmentsHaveNoRoot(Segments(raw), true);
    Join(Components(cwd), Components(raw))
  }

  function Resolve(raw: string, cwd: Option<string>): (r: Result<ResolvedPath, ResolveError>) {
    var observed := Components(raw);
    ComponentsRootOnlyFirst(raw);
    if raw == "" then Err(EmptyPath)
    else if IsRooted(observed) then Ok(Settle(observed, observed))
    else if cwd.None? then Err(RelativeWithoutCwd)
    else Ok(Settle(Joined(raw, cwd.value), observed))
  }

  function Settle(joined: Path, observed: Path): ResolvedPath
    requires RootOnlyFirst(joined)
  {
    var normalized := Normalize(joined);
    ResolvedPath(normalized, if normalized == observed then None else Some(observed))
  }

  /** Resolution fails only on an empty path or a relative one with no working directory.
      It yields an absolute path exactly when the tool's path or the working directory is
      absolute: a relative working directory is not refused. */
  lemma ResolveAbsolute(raw: string, cwd: Option<string>)
    ensures Resolve(raw, cwd).Err? <==> raw == "" || (!IsRooted(Components(raw)) && cwd.None?)
    ensures Resolve(raw, cwd).Ok? ==>
              (IsRooted(Resolve(raw, cwd).value.path)
               <==> IsRooted(Components(raw)) || (cwd.Some? && IsRooted(Components(cwd.value))))
  {
    if Resolve(raw, cwd).Ok? {
      ComponentsRootOnlyFirst(raw);
      NormalFormShape(if IsRooted(Components(raw)) then Components(raw) else Joined(raw, cwd.value));
    }
  }

  /** Where it succeeds, the result leads where walking from the working directory along
      the tool's path would, and the raw form is kept exactly when it differs. */
  lemma ResolveKeepsMeaning(raw: string, cwd: Option<string>, dir: seq<string>)
    requires Resolve(raw, cwd).Ok?
    ensures var r := Resolve(raw, cwd).value;
            && Walk(r.path, dir) == Walk(Components(raw), if cwd.None? then dir else Walk(Components(cwd.value), dir))
            && r.rawPath == if r.path == Components(raw) then None else Some(Components(raw))
  {
    var observed := Components(raw);
    ComponentsRootOnlyFirst(raw);
    var base := if cwd.None? then [] else Components(cwd.value);
    var joined := if IsRooted(observed) then observed else Joined(raw, cwd.value);
    NormalizeKeepsMeaning(joined);
    assert Walk(Normalize(joined), dir) == Walk(joined, dir);
    if IsRooted(observed) {
      RootedForgets(observed, dir, if cwd.None? then dir else Walk(base, dir));
    } else {
      WalkConcat(base, observed, dir);
    }
  }

  lemma RootedForgets(p: Path, a: seq<string>, b: seq<string>)
    requires IsRooted(p)
    ensures Walk(p, a) == Walk(p, b)
  {
    assert p == p[..1] + p[1..];
    WalkConcat(p[..1], p[1..], a);
    WalkConcat(p[..1], p[1..], b);
  }
}
