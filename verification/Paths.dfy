/** Virtual paths: the string functions of the path helpers, and the segment lists they stand for. */
module Paths {
  import opened Common
  import opened Text

  // ---- Segments -------------------------------------------------------------------------------

  /** `strings.Split(s, "/")`. */
  function Split(s: string): (parts: seq<string>)
    ensures parts != []
  {
    if s == "" then [""]
    else
      var rest := Split(s[1..]);
      if s[0] == '/' then [""] + rest else [[s[0]] + rest[0]] + rest[1..]
  }

  /** A name `validateFileName` accepts. */
  predicate ValidName(name: string) {
    name != "" && '/' !in name && '\\' !in name && name != "." && name != ".."
  }

  /** A segment `path.Clean` keeps. */
  predicate CleanSegment(seg: string) {
    seg != "" && '/' !in seg && seg != "." && seg != ".."
  }

  predicate CleanSegments(segs: seq<string>) {
    forall i | 0 <= i < |segs| :: CleanSegment(segs[i])
  }

  /** Every segment preceded by a slash. */
  function Slashed(segs: seq<string>): string {
    if segs == [] then "" else "/" + segs[0] + Slashed(segs[1..])
  }

  function Render(segs: seq<string>): string {
    if segs == [] then "/" else Slashed(segs)
  }

  /** How `path.Clean` treats one more component of a rooted path. */
  function Push(segs: seq<string>, part: string): seq<string> {
    if part == "" || part == "." then segs
    else if part == ".." then (if segs == [] then [] else segs[..|segs| - 1])
    else segs + [part]
  }

  function PushAll(segs: seq<string>, parts: seq<string>): seq<string>
    decreases |parts|
  {
    if parts == [] then segs else PushAll(Push(segs, parts[0]), parts[1..])
  }

  function Segments(path: string): seq<string> {
    PushAll([], Split(path))
  }

  /** `path.Clean` on a rooted path. */
  function Clean(path: string): string {
    Render(Segments(path))
  }

  // ---- The helpers ----------------------------------------------------------------------------

  function NormalizeVirtualPath(input: string): (r: Result<string>)
    ensures r.Ok? ==> IsCanonical(r.value)
    ensures r.Err? ==> r.error == PathInvalid
  {
    var rooted := if input == "" then "/" else input;
    if !HasPrefix(rooted, "/") then Err(PathInvalid)
    else
      CleanIsIdempotent(rooted);
      var cleaned := Clean(rooted);
      if HasDotDot(cleaned) then Err(PathInvalid) else Ok(cleaned)
  }

  function JoinVirtualPath(parentPath: string, name: string): string {
    if parentPath == "/" then "/" + TrimPrefix(name, "/")
    else parentPath + "/" + TrimPrefix(name, "/")
  }

  /** The empty string stands for "invalid", as in the source. */
  function MergeMountAndInnerPath(mountPath: string, innerPath: string): string {
    match (NormalizeVirtualPath(mountPath), NormalizeVirtualPath(innerPath))
    case (Err(_), _) => ""
    case (_, Err(_)) => ""
    case (Ok(mount), Ok(inner)) =>
      if inner == "/" then mount
      else if mount == "/" then inner
      else mount + inner
  }

  predicate IsSubPath(base: string, target: string) {
    match (NormalizeVirtualPath(base), NormalizeVirtualPath(target))
    case (Ok(b), Ok(t)) => if b == "/" then HasPrefix(t, "/") else t == b || HasPrefix(t, b + "/")
    case _ => false
  }

  function LastSlash(path: string): int
    ensures -1 <= LastSlash(path) < |path|
    ensures LastSlash(path) >= 0 ==> path[LastSlash(path)] == '/'
    ensures forall i | LastSlash(path) < i < |path| :: path[i] != '/'
  {
    if path == "" then -1
    else if path[|path| - 1] == '/' then |path| - 1
    else LastSlash(path[..|path| - 1])
  }

  /** `path.Dir` on a rooted path: what stands up to the last slash, cleaned. */
  function DirOf(path: string): string {
    Clean(path[..LastSlash(path) + 1])
  }

  /** `path.Base` on a clean path. */
  function BaseOf(path: string): string {
    if path == "/" then "/" else path[LastSlash(path) + 1..]
  }

  function SplitParentName(input: string): Result<(string, string)> {
    match NormalizeVirtualPath(input)
    case Err(e) => Err(e)
    case Ok(p) => if p == "/" then Ok(("/", "")) else Ok((DirOf(p), BaseOf(p)))
  }

  // ---- Clean and canonical paths --------------------------------------------------------------

  /** A path `path.Clean` leaves alone. Stored node paths are clean; they may contain "..". */
  predicate IsClean(path: string) {
    HasPrefix(path, "/") && Clean(path) == path
  }

  /** A path `normalizeVirtualPath` leaves alone. */
  predicate IsCanonical(path: string) {
    IsClean(path) && !HasDotDot(path)
  }

  /** At or below, by characters: the relation `isSubPath` and the SQL prefix query decide. */
  predicate AtOrBelow(base: string, target: string) {
    if base == "/" then HasPrefix(target, "/") else target == base || HasPrefix(target, base + "/")
  }

  // ---- Lemmas about Split ---------------------------------------------------------------------

  lemma {:induction false} SplitOfSegment(seg: string)
    requires '/' !in seg
    ensures Split(seg) == [seg]
  {
    if seg != "" {
      assert seg[0] != '/';
      SplitOfSegment(seg[1..]);
      assert [seg[0]] + seg[1..] == seg;
    }
  }

  /** One more leading character, on the split. */
  function Prepend(c: char, parts: seq<string>): seq<string>
    requires parts != []
  {
    if c == '/' then [""] + parts else [[c] + parts[0]] + parts[1..]
  }

  lemma SplitStep(c: char, s: string)
    ensures Split([c] + s) == Prepend(c, Split(s))
  {
    assert ([c] + s)[1..] == s;
  }

  lemma PrependConcat(c: char, a: seq<string>, b: seq<string>)
    requires a != []
    ensures Prepend(c, a + b) == Prepend(c, a) + b
  {
  }

  lemma {:induction false} SplitOfJoin(x: string, y: string)
    ensures Split(x + "/" + y) == Split(x) + Split(y)
  {
    var s := x + "/" + y;
    if x == "" {
      assert s[1..] == y;
    } else {
      SplitOfJoin(x[1..], y);
      assert s[1..] == x[1..] + "/" + y;
      SplitStep(x[0], x[1..]);
      SplitStep(x[0], s[1..]);
      assert [x[0]] + x[1..] == x && [x[0]] + s[1..] == s;
      PrependConcat(x[0], Split(x[1..]), Split(y));
    }
  }

  lemma {:induction false} SplitHasNoSlash(s: string)
    ensures forall i | 0 <= i < |Split(s)| :: '/' !in Split(s)[i]
  {
    if s != "" { SplitHasNoSlash(s[1..]); }
  }

  lemma {:induction false} SplitOfSegmentThen(seg: string, t: string)
    requires '/' !in seg
    ensures Split(seg + t) == [seg + Split(t)[0]] + Split(t)[1..]
  {
    if seg == "" {
      assert seg + t == t;
      assert seg + Split(t)[0] == Split(t)[0];
    } else {
      assert seg[0] != '/';
      SplitOfSegmentThen(seg[1..], t);
      assert (seg + t)[1..] == seg[1..] + t;
      assert [seg[0]] + (seg[1..] + Split(t)[0]) == seg + Split(t)[0];
    }
  }

  lemma {:induction false} SplitOfSlashed(segs: seq<string>)
    requires CleanSegments(segs)
    ensures Split(Slashed(segs)) == [""] + segs
  {
    if segs != [] {
      var rest := Slashed(segs[1..]);
      SplitOfSlashed(segs[1..]);
      SplitOfSegmentThen(segs[0], rest);
      assert segs[0] + "" == segs[0];
      assert ([""] + segs[1..])[1..] == segs[1..];
      assert Split(segs[0] + rest) == [segs[0]] + segs[1..] == segs;
      SplitStep('/', segs[0] + rest);
      assert Slashed(segs) == ['/'] + (segs[0] + rest);
    }
  }

  lemma {:induction false} PushAllConcat(segs: seq<string>, a: seq<string>, b: seq<string>)
    ensures PushAll(segs, a + b) == PushAll(PushAll(segs, a), b)
    decreases |a|
  {
    if a == [] {
      assert a + b == b;
    } else {
      PushAllConcat(Push(segs, a[0]), a[1..], b);
      assert (a + b)[1..] == a[1..] + b;
    }
  }

  lemma {:induction false} PushAllOfClean(segs: seq<string>, parts: seq<string>)
    requires CleanSegments(parts)
    ensures PushAll(segs, parts) == segs + parts
    decreases |parts|
  {
    if parts != [] {
      PushAllOfClean(segs + [parts[0]], parts[1..]);
      assert segs + [parts[0]] + parts[1..] == segs + parts;
    }
  }

  lemma {:induction false} PushAllIsClean(segs: seq<string>, parts: seq<string>)
    requires CleanSegments(segs)
    requires forall i | 0 <= i < |parts| :: '/' !in parts[i]
    ensures CleanSegments(PushAll(segs, parts))
    decreases |parts|
  {
    if parts != [] { PushAllIsClean(Push(segs, parts[0]), parts[1..]); }
  }

  lemma {:induction false} SlashedConcat(a: seq<string>, b: seq<string>)
    ensures Slashed(a + b) == Slashed(a) + Slashed(b)
  {
    if a == [] {
      assert a + b == b;
    } else {
      SlashedConcat(a[1..], b);
      assert (a + b)[1..] == a[1..] + b;
    }
  }

  // ---- Rendering and cleaning are inverse -----------------------------------------------------

  lemma SegmentsAreClean(path: string)
    ensures CleanSegments(Segments(path))
  {
    SplitHasNoSlash(path);
    PushAllIsClean([], Split(path));
  }

  /** Reading a rendered path gives back its segments. */
  lemma SegmentsOfRender(segs: seq<string>)
    requires CleanSegments(segs)
    ensures Segments(Render(segs)) == segs
    ensures IsClean(Render(segs))
  {
    if segs == [] {
      assert Split("/") == ["", ""];
      assert PushAll([], ["", ""]) == PushAll([], [""]);
    } else {
      SplitOfSlashed(segs);
      PushAllOfClean([], segs);
      assert PushAll([], [""] + segs) == PushAll([], segs) by {
        assert ([""] + segs)[1..] == segs;
      }
    }
  }

  lemma CleanIsIdempotent(path: string)
    ensures IsClean(Clean(path))
    ensures Segments(Clean(path)) == Segments(path)
  {
    SegmentsAreClean(path);
    SegmentsOfRender(Segments(path));
  }

  /** `normalizeVirtualPath` succeeds exactly with a canonical result, and leaves it alone. */
  lemma NormalizeIsIdempotent(input: string)
    ensures NormalizeVirtualPath(input).Ok? ==>
              && IsCanonical(NormalizeVirtualPath(input).value)
              && NormalizeVirtualPath(NormalizeVirtualPath(input).value) == NormalizeVirtualPath(input)
  {
    var rooted := if input == "" then "/" else input;
    if HasPrefix(rooted, "/") {
      CleanIsIdempotent(rooted);
    }
  }

  lemma CanonicalIsFixpoint(path: string)
    ensures IsCanonical(path) <==> NormalizeVirtualPath(path) == Ok(path)
  {
    if NormalizeVirtualPath(path) == Ok(path) { NormalizeIsIdempotent(path); }
  }

  // ---- Joining --------------------------------------------------------------------------------

  lemma JoinIsRender(parent: string, name: string)
    requires IsClean(parent) && CleanSegment(name)
    ensures JoinVirtualPath(parent, name) == Render(Segments(parent) + [name])
    ensures IsClean(JoinVirtualPath(parent, name))
    ensures Segments(JoinVirtualPath(parent, name)) == Segments(parent) + [name]
  {
    var segs := Segments(parent);
    SegmentsAreClean(parent);
    assert TrimPrefix(name, "/") == name;
    SlashedConcat(segs, [name]);
    assert Slashed([name]) == "/" + name + Slashed([]);
    if segs == [] {
      assert segs + [name] == [name];
    }
    SegmentsOfRender(segs + [name]);
  }

  lemma RootOrSlashed(path: string)
    requires IsClean(path)
    ensures path == "/" || (path == Slashed(Segments(path)) && Segments(path) != [])
    ensures path != "/" ==> |path| >= 2 && path[|path| - 1] != '/'
  {
    if path != "/" {
      var segs := Segments(path);
      SegmentsAreClean(path);
      var last := segs[|segs| - 1];
      SlashedConcat(segs[..|segs| - 1], [last]);
      assert segs[..|segs| - 1] + [last] == segs;
      assert Slashed([last]) == "/" + last + Slashed([]);
    }
  }

  lemma {:induction false} LastSlashOf(before: string, name: string)
    requires '/' !in name
    ensures LastSlash(before + "/" + name) == |before|
  {
    var p := before + "/" + name;
    if name == "" {
      assert p[|p| - 1] == '/';
    } else {
      assert name[|name| - 1] != '/';
      assert p[|p| - 1] == name[|name| - 1];
      assert p[..|p| - 1] == before + "/" + name[..|name| - 1];
      LastSlashOf(before, name[..|name| - 1]);
    }
  }

  /** A trailing slash does not change what a path names. */
  lemma CleanOfTrailingSlash(path: string)
    requires IsClean(path)
    ensures Clean(path + "/") == path
  {
    assert path + "/" == path + "/" + "";
    SplitOfJoin(path, "");
    PushAllConcat([], Split(path), [""]);
  }

  /** `path.Dir` and `path.Base` undo a join. */
  lemma DirOfJoin(parent: string, name: string)
    requires IsClean(parent) && CleanSegment(name)
    ensures DirOf(JoinVirtualPath(parent, name)) == parent
    ensures BaseOf(JoinVirtualPath(parent, name)) == name
  {
    var p := JoinVirtualPath(parent, name);
    assert TrimPrefix(name, "/") == name;
    var before := if parent == "/" then "" else parent;
    assert p == before + "/" + name;
    LastSlashOf(before, name);
    assert p[..|before| + 1] == before + "/";
    assert p[|before| + 1..] == name;
    if parent != "/" { CleanOfTrailingSlash(parent); }
  }

  /** Joining a valid name is injective on clean parents. */
  lemma JoinInjective(p: string, a: string, q: string, b: string)
    requires IsClean(p) && IsClean(q) && CleanSegment(a) && CleanSegment(b)
    requires JoinVirtualPath(p, a) == JoinVirtualPath(q, b)
    ensures p == q && a == b
  {
    DirOfJoin(p, a);
    DirOfJoin(q, b);
  }

  // ---- Containment ----------------------------------------------------------------------------

  /** On clean paths "at or below", read off the characters, is the segment-prefix order:
      "/a" is not above "/ab". */
  lemma AtOrBelowIsSegmentPrefix(base: string, target: string)
    requires IsClean(base) && IsClean(target)
    ensures AtOrBelow(base, target) <==> Segments(base) <= Segments(target)
  {
    SegmentsAreClean(base);
    SegmentsAreClean(target);
    RootOrSlashed(base);
    RootOrSlashed(target);
    SegmentsOfRender([]);
    hide Segments, Clean;
    if base != "/" {
      if HasPrefix(target, base + "/") { BelowIsLonger(base, target, Segments(base), Segments(target)); }
      if Segments(base) <= Segments(target) && base != target { LongerIsBelow(Segments(base), Segments(target)); }
    }
  }

  /** Cleaning leaves a path at or below a clean one, if no ".." follows. */
  lemma CleanedStaysBelow(base: string, path: string)
    requires IsClean(base) && base != "/"
    requires path == base || (HasPrefix(path, base + "/") && !HasDotDot(path[|base| + 1..]))
    ensures AtOrBelow(base, Clean(path))
  {
    CleanIsIdempotent(path);
    if path != base {
      var y := path[|base| + 1..];
      assert path == base + "/" + y;
      SplitOfJoin(base, y);
      PushAllConcat([], Split(base), Split(y));
      if ".." in Split(y) { DotsOfPart(y); }
      PushAllExtends(Segments(base), Split(y));
      AtOrBelowIsSegmentPrefix(base, Clean(path));
    }
  }

  lemma {:induction false} PushAllExtends(segs: seq<string>, parts: seq<string>)
    requires ".." !in parts
    ensures segs <= PushAll(segs, parts)
    decreases |parts|
  {
    if parts != [] { PushAllExtends(Push(segs, parts[0]), parts[1..]); }
  }

  lemma {:induction false} FirstPart(s: string)
    ensures Split(s)[0] <= s
  {
    if s != "" { FirstPart(s[1..]); }
  }

  lemma {:induction false} DotsOfPart(s: string)
    requires ".." in Split(s)
    ensures HasDotDot(s)
  {
    if s != "" {
      if ".." in Split(s[1..]) {
        DotsOfPart(s[1..]);
        DotDotOfConcat(s[..1], s[1..]);
        assert s == s[..1] + s[1..];
      } else {
        FirstPart(s[1..]);
        assert [s[0]] + Split(s[1..])[0] == "..";
        assert s[0] == ".."[0] && Split(s[1..])[0] == ".."[1..];
        assert s[1..][0] == '.';
      }
    }
  }

  lemma BelowIsLonger(base: string, target: string, b: seq<string>, t: seq<string>)
    requires CleanSegments(b) && CleanSegments(t) && base == Slashed(b)
             && (target == Slashed(t) || (target == "/" && t == []))
    requires b != [] && HasPrefix(target, base + "/")
    ensures b <= t
  {
    var rest := target[|base| + 1..];
    assert target == base + "/" + rest;
    assert |base| > 0;
    assert target != "/";
    SplitOfJoin(base, rest);
    SplitOfSlashed(b);
    SplitOfSlashed(t);
    assert [""] + t == [""] + (b + Split(rest));
    assert ([""] + t)[1..] == ([""] + (b + Split(rest)))[1..];
    assert t == b + Split(rest);
  }

  lemma LongerIsBelow(b: seq<string>, t: seq<string>)
    requires b <= t && b != [] && Slashed(b) != Slashed(t)
    ensures HasPrefix(Slashed(t), Slashed(b) + "/")
  {
    var more := t[|b|..];
    assert t == b + more;
    SlashedConcat(b, more);
    assert more == [] ==> t == b;
    assert Slashed(more)[0] == '/';
    assert Slashed(t)[..|Slashed(b)| + 1] == Slashed(b) + "/";
  }

  /** `isSubPath` is containment of the segment lists, and never holds of a path with "..". */
  lemma SubPathIsSegmentPrefix(base: string, target: string)
    requires IsClean(base) && IsClean(target)
    ensures IsSubPath(base, target) <==>
              !HasDotDot(base) && !HasDotDot(target) && Segments(base) <= Segments(target)
    ensures IsSubPath(base, target) <==>
              !HasDotDot(base) && !HasDotDot(target) && AtOrBelow(base, target)
  {
    AtOrBelowIsSegmentPrefix(base, target);
  }

  /** `isSubPath` is a partial order on the image of `normalizeVirtualPath`. */
  lemma SubPathIsPartialOrder(a: string, b: string, c: string)
    requires IsCanonical(a) && IsCanonical(b) && IsCanonical(c)
    ensures IsSubPath(a, a)
    ensures IsSubPath(a, b) && IsSubPath(b, a) ==> a == b
    ensures IsSubPath(a, b) && IsSubPath(b, c) ==> IsSubPath(a, c)
    ensures IsSubPath(a, c) && IsSubPath(b, c) ==> IsSubPath(a, b) || IsSubPath(b, a)
  {
    SubPathIsSegmentPrefix(a, a);
    SubPathIsSegmentPrefix(a, b);
    SubPathIsSegmentPrefix(b, a);
    SubPathIsSegmentPrefix(b, c);
    SubPathIsSegmentPrefix(a, c);
    var sa, sb, sc := Segments(a), Segments(b), Segments(c);
    if sa <= sc && sb <= sc {
      assert sa == sc[..|sa|] && sb == sc[..|sb|];
    }
  }

  /** ".." inside a path is ".." inside one of its segments. */
  lemma {:induction false} DotDotOfSlashed(segs: seq<string>)
    ensures HasDotDot(Slashed(segs)) <==> exists i | 0 <= i < |segs| :: HasDotDot(segs[i])
  {
    if segs != [] {
      var rest := Slashed(segs[1..]);
      DotDotOfSlashed(segs[1..]);
      DotDotOfConcat("/", segs[0]);
      DotDotOfConcat("/" + segs[0], rest);
      assert forall i | 0 <= i < |segs[1..]| :: segs[1..][i] == segs[i + 1];
      if i :| 0 <= i < |segs| && HasDotDot(segs[i]) {
        if i > 0 { assert HasDotDot(segs[1..][i - 1]); }
      }
    }
  }

  lemma DotDotOfRender(segs: seq<string>)
    ensures HasDotDot(Render(segs)) <==> exists i | 0 <= i < |segs| :: HasDotDot(segs[i])
  {
    DotDotOfSlashed(segs);
  }

  /** Canonical paths are the renderings of clean segments without "..". */
  lemma CanonicalRender(segs: seq<string>)
    requires CleanSegments(segs)
    requires forall i | 0 <= i < |segs| :: !HasDotDot(segs[i])
    ensures IsCanonical(Render(segs)) && Segments(Render(segs)) == segs
  {
    SegmentsOfRender(segs);
    DotDotOfRender(segs);
  }

  lemma CanonicalSegments(path: string)
    requires IsCanonical(path)
    ensures CleanSegments(Segments(path)) && path == Render(Segments(path))
    ensures forall i | 0 <= i < |Segments(path)| :: !HasDotDot(Segments(path)[i])
  {
    SegmentsAreClean(path);
    DotDotOfRender(Segments(path));
  }

  lemma OneSegment(name: string)
    requires CleanSegment(name) && !HasDotDot(name)
    ensures IsCanonical("/" + name) && NormalizeVirtualPath("/" + name) == Ok("/" + name)
  {
    assert Render([name]) == "/" + name by { assert Slashed([name][1..]) == ""; }
    CanonicalRender([name]);
    CanonicalIsFixpoint("/" + name);
  }
}
