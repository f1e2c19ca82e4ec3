/** Public shares: paths relative to the share root, and the breadcrumb trail. */
module Shares {
  import opened Common
  import opened Text
  import opened Paths
  import Mounts

  /** `normalizeShareRelativePath`. */
  function NormalizeShareRelativePath(input: string): Result<string> {
    if input == "" then Ok("/")
    else if !HasPrefix(input, "/") then Err(PathInvalid)
    else if ".." in Split(TrimPrefix(input, "/")) then Err(PathInvalid)
    else NormalizeVirtualPath(input)
  }

  predicate IsWithinShareRoot(root: string, target: string) {
    if root == "/" then HasPrefix(target, "/")
    else
      var trimmed := if root != "" && root[|root| - 1] == '/' then root[..|root| - 1] else root;
      target == root || HasPrefix(target, trimmed + "/")
  }

  /** `resolveShareTargetPath`: the actual path and the normalized relative one. `path.Join` on a rooted
      first element is `path.Clean` of the two with a slash between them. */
  function ResolveShareTargetPath(shareRootPath: string, requestedPath: string): Result<(string, string)> {
    match (NormalizeVirtualPath(shareRootPath), NormalizeShareRelativePath(requestedPath))
    case (Err(e), _) => Err(e)
    case (_, Err(e)) => Err(e)
    case (Ok(root), Ok(relative)) =>
      if relative == "/" then Ok((root, relative))
      else
        var actual := if root == "/" then relative else Clean(root + "/" + TrimPrefix(relative, "/"));
        if IsWithinShareRoot(root, actual) then Ok((actual, relative)) else Err(PathInvalid)
  }

  /** `publicShareRelativePath`. */
  function PublicShareRelativePath(shareRootPath: string, actualPath: string): string {
    var trimmed :=
      if shareRootPath != "" && shareRootPath[|shareRootPath| - 1] == '/' then shareRootPath[..|shareRootPath| - 1]
      else shareRootPath;
    var root := if trimmed == "" then "/" else trimmed;
    if root == "/" then actualPath else Mounts.InnerPathUnder(root, actualPath)
  }

  // ---- Round trips ----------------------------------------------------------------------------

  lemma WithinIsSubPath(root: string, target: string)
    requires IsCanonical(root) && IsCanonical(target)
    ensures IsWithinShareRoot(root, target) <==> IsSubPath(root, target)
  {
    SubPathIsSegmentPrefix(root, target);
    RootOrSlashed(root);
  }

  lemma RelativeIsInner(root: string, actual: string)
    requires IsCanonical(root) && IsCanonical(actual) && IsSubPath(root, actual)
    ensures PublicShareRelativePath(root, actual) == Mounts.InnerPathUnder(root, actual)
  {
    RootOrSlashed(root);
    SegmentsOfRender([]);
    if root == "/" {
      Mounts.InnerOfSubPath("/", actual);
      Mounts.InnerPathIsSuffix("/", actual) by { SubPathIsSegmentPrefix("/", actual); }
      assert Segments(actual)[0..] == Segments(actual);
    }
  }

  /** `path.Join` of the root and a relative path is the merge of the two. */
  lemma JoinIsMerge(root: string, relative: string)
    requires IsCanonical(root) && IsCanonical(relative) && root != "/" && relative != "/"
    ensures Clean(root + "/" + TrimPrefix(relative, "/")) == MergeMountAndInnerPath(root, relative)
  {
    Mounts.MergeIsConcat(root, relative);
    RootOrSlashed(relative);
    assert relative[0] == '/';
    assert TrimPrefix(relative, "/") == relative[1..];
    assert root + "/" + relative[1..] == root + relative;
    CanonicalIsFixpoint(root);
    CanonicalIsFixpoint(relative);
    assert MergeMountAndInnerPath(root, relative) == root + relative;
  }

  /** The resolved path is the merge of root and relative path; it never leaves the share, and the final
      containment check never fails. */
  lemma ResolvedStaysInside(shareRootPath: string, requestedPath: string)
    requires NormalizeVirtualPath(shareRootPath).Ok? && NormalizeShareRelativePath(requestedPath).Ok?
    ensures
      var root, relative := NormalizeVirtualPath(shareRootPath).value, NormalizeShareRelativePath(requestedPath).value;
      && IsCanonical(relative) && IsCanonical(MergeMountAndInnerPath(root, relative))
      && ResolveShareTargetPath(shareRootPath, requestedPath) == Ok((MergeMountAndInnerPath(root, relative), relative))
      && IsSubPath(root, MergeMountAndInnerPath(root, relative))
  {
    var root, relative := NormalizeVirtualPath(shareRootPath).value, NormalizeShareRelativePath(requestedPath).value;
    SegmentsOfRender([]);
    hide Segments, Clean, IsSubPath, MergeMountAndInnerPath, IsWithinShareRoot, IsClean, Split, HasDotDot;
    assert IsCanonical("/");
    MergedStaysInside(root, relative);
    WithinIsSubPath(root, MergeMountAndInnerPath(root, relative));
    if root != "/" && relative != "/" { JoinIsMerge(root, relative); }
  }

  lemma MergedStaysInside(root: string, relative: string)
    requires IsCanonical(root) && IsCanonical(relative)
    ensures IsCanonical(MergeMountAndInnerPath(root, relative))
            && IsSubPath(root, MergeMountAndInnerPath(root, relative))
    ensures relative == "/" ==> MergeMountAndInnerPath(root, relative) == root
    ensures root == "/" ==> MergeMountAndInnerPath(root, relative) == relative
  {
    Mounts.MergeIsConcat(root, relative);
    Mounts.InnerIsTheInverseOfMerge(root, MergeMountAndInnerPath(root, relative), relative);
    CanonicalIsFixpoint(root);
    CanonicalIsFixpoint(relative);
  }

  /** From a request to the actual path and back. */
  lemma RelativeOfResolved(shareRootPath: string, requestedPath: string)
    requires ResolveShareTargetPath(shareRootPath, requestedPath).Ok?
    ensures
      var (actual, relative) := ResolveShareTargetPath(shareRootPath, requestedPath).value;
      PublicShareRelativePath(NormalizeVirtualPath(shareRootPath).value, actual) == relative
  {
    ResolvedStaysInside(shareRootPath, requestedPath);
    var root, relative := NormalizeVirtualPath(shareRootPath).value, NormalizeShareRelativePath(requestedPath).value;
    hide NormalizeShareRelativePath, ResolveShareTargetPath, Segments, IsSubPath, PublicShareRelativePath,
         MergeMountAndInnerPath;
    var actual := MergeMountAndInnerPath(root, relative);
    RelativeIsInner(root, actual);
    Mounts.InnerIsTheInverseOfMerge(root, actual, relative);
  }

  /** From an actual path inside the share to its public path and back. */
  lemma ResolvedOfRelative(root: string, actual: string)
    requires IsCanonical(root) && IsCanonical(actual) && IsSubPath(root, actual)
    ensures ResolveShareTargetPath(root, PublicShareRelativePath(root, actual))
            == Ok((actual, PublicShareRelativePath(root, actual)))
  {
    RelativeIsInner(root, actual);
    Mounts.InnerOfSubPath(root, actual);
    var relative := Mounts.InnerPathUnder(root, actual);
    CanonicalIsFixpoint(root);
    CanonicalRequest(relative);
    hide NormalizeShareRelativePath, ResolveShareTargetPath, Segments, IsSubPath, PublicShareRelativePath,
         MergeMountAndInnerPath,
         NormalizeVirtualPath, IsCanonical;
    ResolvedStaysInside(root, relative);
  }

  /** A canonical path is accepted as a request as it stands. */
  lemma CanonicalRequest(relative: string)
    requires IsCanonical(relative)
    ensures NormalizeShareRelativePath(relative) == Ok(relative)
  {
    CanonicalIsFixpoint(relative);
    RootOrSlashed(relative);
    var segs := Segments(relative);
    CanonicalSegments(relative);
    if relative != "/" {
      SplitOfSlashed(segs);
      SplitStep('/', relative[1..]);
      assert ['/'] + relative[1..] == relative;
      assert [""] + Split(relative[1..]) == [""] + segs;
      assert ([""] + Split(relative[1..]))[1..] == ([""] + segs)[1..];
      assert Split(relative[1..]) == segs;
    } else {
      assert TrimPrefix("/", "/") == "";
    }
  }

  // ---- Breadcrumbs ----------------------------------------------------------------------------

  datatype Breadcrumb = Breadcrumb(name: string, path: string)

  /** The trail of a path: the share itself, then every ancestor of the path down to the path. */
  predicate IsTrail(rootName: string, path: string, trail: seq<Breadcrumb>) {
    var segs := Segments(path);
    && |trail| == |segs| + 1
    && (forall i | 0 <= i < |trail| ::
          && trail[i].path == Render(segs[..i])
          && trail[i].name == if i == 0 then rootName else segs[i - 1])
  }

  /** The crumbs for the first `n` segments. */
  predicate TrailSoFar(rootName: string, segs: seq<string>, n: nat, current: string, trail: seq<Breadcrumb>)
    requires n <= |segs|
  {
    && current == Slashed(segs[..n]) && |trail| == n + 1
    && forall k | 0 <= k < |trail| ::
       trail[k] == Breadcrumb(if k == 0 then rootName else segs[k - 1], Render(segs[..k]))
  }

  lemma OneMoreCrumb(rootName: string, segs: seq<string>, n: nat, current: string, trail: seq<Breadcrumb>)
    requires n < |segs| && TrailSoFar(rootName, segs, n, current, trail)
    ensures TrailSoFar(rootName, segs, n + 1, current + "/" + segs[n],
                       trail + [Breadcrumb(segs[n], current + "/" + segs[n])])
  {
    assert segs[..n + 1] == segs[..n] + [segs[n]];
    SlashedConcat(segs[..n], [segs[n]]);
    assert Slashed([segs[n]]) == "/" + segs[n] + Slashed([]);
    assert current + "/" + segs[n] == current + ("/" + segs[n]);
  }

  method BuildPublicShareBreadcrumbs(rootName: string, currentPath: string) returns (breadcrumbs: seq<Breadcrumb>)
    requires IsCanonical(currentPath)
    ensures IsTrail(rootName, currentPath, breadcrumbs)
  {
    breadcrumbs := [Breadcrumb(rootName, "/")];
    SegmentsOfRender([]);
    if currentPath == "/" { return; }
    ghost var segs := Segments(currentPath);
    hide Segments, IsCanonical, TrailSoFar, CleanSegment;
    SplitOfCanonical(currentPath);
    CanonicalSegments(currentPath);
    var current := "";
    var segments := Split(TrimPrefix(currentPath, "/"));
    TrailStart(rootName, segs);
    for i := 0 to |segments|
      invariant TrailSoFar(rootName, segs, i, current, breadcrumbs)
    {
      var segment := segments[i];
      NoEmptySegment(segs, i);
      OneMoreCrumb(rootName, segs, i, current, breadcrumbs);
      if segment != "" {
        current := current + "/" + segment;
        breadcrumbs := breadcrumbs + [Breadcrumb(segment, current)];
      }
    }
    TrailDone(rootName, currentPath, current, breadcrumbs);
  }

  lemma TrailStart(rootName: string, segs: seq<string>)
    ensures TrailSoFar(rootName, segs, 0, "", [Breadcrumb(rootName, "/")])
  {
  }

  lemma TrailDone(rootName: string, path: string, current: string, trail: seq<Breadcrumb>)
    requires TrailSoFar(rootName, Segments(path), |Segments(path)|, current, trail)
    ensures IsTrail(rootName, path, trail)
  {
    hide Segments, Render;
  }

  lemma NoEmptySegment(segs: seq<string>, i: nat)
    requires CleanSegments(segs) && i < |segs|
    ensures segs[i] != ""
  {
  }

  lemma SplitOfCanonical(path: string)
    requires IsCanonical(path) && path != "/"
    ensures Split(TrimPrefix(path, "/")) == Segments(path)
  {
    CanonicalRequest(path);
    RootOrSlashed(path);
    var segs := Segments(path);
    CanonicalSegments(path);
    SplitOfSlashed(segs);
    SplitStep('/', path[1..]);
    assert ['/'] + path[1..] == path;
    assert ([""] + Split(path[1..]))[1..] == ([""] + segs)[1..];
  }

  /** `publicShareParentPath`. */
  function PublicShareParentPath(relativePath: string): string {
    DirOf(relativePath)
  }

  /** Each crumb lies in the one before it: the parent path of a crumb is the previous crumb, and the
      last crumb is the path itself. */
  lemma TrailIsTheAncestorChain(rootName: string, path: string, trail: seq<Breadcrumb>, i: nat)
    requires IsCanonical(path) && IsTrail(rootName, path, trail) && 0 < i < |trail|
    ensures PublicShareParentPath(trail[i].path) == trail[i - 1].path
    ensures trail[|trail| - 1].path == path
    ensures IsSubPath(trail[i - 1].path, trail[i].path) && IsSubPath(trail[i].path, path)
  {
    var segs := Segments(path);
    CanonicalSegments(path);
    assert segs[..|segs|] == segs;
    assert segs[..i] == segs[..i - 1] + [segs[i - 1]];
    hide Segments, IsSubPath, Clean;
    CanonicalRender(segs[..i]);
    CanonicalRender(segs[..i - 1]);
    JoinIsRender(Render(segs[..i - 1]), segs[i - 1]);
    DirOfJoin(Render(segs[..i - 1]), segs[i - 1]);
    SubPathIsSegmentPrefix(Render(segs[..i - 1]), Render(segs[..i]));
    SubPathIsSegmentPrefix(Render(segs[..i]), path);
  }
}
