/** Mount resolution: which storage source serves a virtual path, and at which inner path. */
module Mounts {
  import opened Common
  import opened Text
  import opened Paths

  datatype Source = Source(id: Id, driverType: string, mountPath: string, rootPath: string,
                           webdavSlug: string, isEnabled: bool)

  datatype MountEntry = MountEntry(mountPath: string, source: Source)

  datatype ResolvedPath = ResolvedPath(virtualPath: string, matchedMountPath: string, innerPath: string,
                                       source: Option<Source>, isRealMount: bool, isPureVirtual: bool)

  // ---- The inner path below a mount -----------------------------------------------------------

  /** `strings.TrimPrefix(path, mount)`, made absolute again. */
  function InnerPathUnder(mount: string, path: string): string {
    var inner := TrimPrefix(path, mount);
    if inner == "" then "/"
    else if !HasPrefix(inner, "/") then "/" + inner
    else inner
  }

  /** Cutting the mount off the string cuts its segments off the list. */
  lemma InnerPathIsSuffix(mount: string, path: string)
    requires IsClean(mount) && IsClean(path) && AtOrBelow(mount, path)
    ensures Segments(mount) <= Segments(path)
    ensures InnerPathUnder(mount, path) == Render(Segments(path)[|Segments(mount)|..])
    ensures IsClean(InnerPathUnder(mount, path))
    ensures Segments(InnerPathUnder(mount, path)) == Segments(path)[|Segments(mount)|..]
    ensures !HasDotDot(path) ==> !HasDotDot(InnerPathUnder(mount, path))
  {
    AtOrBelowIsSegmentPrefix(mount, path);
    SegmentsAreClean(mount);
    SegmentsAreClean(path);
    RootOrSlashed(mount);
    RootOrSlashed(path);
    if mount == "/" { SegmentsOfRender([]); }
    if path == "/" { SegmentsOfRender([]); }
    var m, p := Segments(mount), Segments(path);
    hide Segments, Clean;
    InnerOfSegments(m, p);
    SegmentsOfRender(p[|m|..]);
    DotDotOfRender(p);
    DotDotOfRender(p[|m|..]);
    assert forall i | 0 <= i < |p[|m|..]| :: p[|m|..][i] == p[|m| + i];
  }

  lemma InnerOfSegments(m: seq<string>, p: seq<string>)
    requires CleanSegments(m) && CleanSegments(p) && m <= p
    ensures InnerPathUnder(Render(m), Render(p)) == Render(p[|m|..])
  {
    var mount, path, rest := Render(m), Render(p), p[|m|..];
    if m == [] {
      assert rest == p;
      if p == [] {
        assert TrimPrefix(path, mount) == "";
      } else {
        RenderedHeadIsNotSlash(p);
        assert TrimPrefix(path, mount) == path[1..];
        assert path[0] == '/';
        assert "/" + path[1..] == path;
      }
    } else {
      assert p == m + rest;
      SlashedConcat(m, rest);
      assert path == mount + Slashed(rest);
      assert TrimPrefix(path, mount) == Slashed(rest);
      if rest != [] {
        assert Slashed(rest)[0] == '/';
      }
    }
  }

  lemma RenderedHeadIsNotSlash(segs: seq<string>)
    requires CleanSegments(segs) && segs != []
    ensures |Render(segs)| >= 2 && Render(segs)[1] != '/'
  {
    assert Render(segs) == "/" + segs[0] + Slashed(segs[1..]);
    assert segs[0][0] != '/';
    assert Render(segs)[1] == segs[0][0];
  }

  /** `mergeMountAndInnerPath` concatenates the segments. */
  lemma MergeIsConcat(mount: string, inner: string)
    requires IsCanonical(mount) && IsCanonical(inner)
    ensures MergeMountAndInnerPath(mount, inner) == Render(Segments(mount) + Segments(inner))
    ensures IsCanonical(MergeMountAndInnerPath(mount, inner))
    ensures Segments(MergeMountAndInnerPath(mount, inner)) == Segments(mount) + Segments(inner)
  {
    var m, i := Segments(mount), Segments(inner);
    CanonicalSegments(mount);
    CanonicalSegments(inner);
    CanonicalRender(m + i);
    SlashedConcat(m, i);
    SegmentsOfRender([]);
    assert m + [] == m && [] + i == i;
  }

  /** The inner path is the one canonical path that merges with the mount to give the virtual path. */
  lemma InnerIsTheInverseOfMerge(mount: string, path: string, inner: string)
    requires IsCanonical(mount) && IsCanonical(path) && IsCanonical(inner)
    ensures IsSubPath(mount, path) && InnerPathUnder(mount, path) == inner
            <==> MergeMountAndInnerPath(mount, inner) == path
  {
    MergeIsConcat(mount, inner);
    SubPathIsSegmentPrefix(mount, path);
    var m, p, i := Segments(mount), Segments(path), Segments(inner);
    if IsSubPath(mount, path) {
      InnerPathIsSuffix(mount, path);
      assert p == m + p[|m|..];
    }
    if MergeMountAndInnerPath(mount, inner) == path {
      assert m <= p;
      assert p[|m|..] == i;
      InnerPathIsSuffix(mount, path);
    }
  }

  lemma InnerOfSubPath(mount: string, path: string)
    requires IsCanonical(mount) && IsCanonical(path) && IsSubPath(mount, path)
    ensures IsCanonical(InnerPathUnder(mount, path))
    ensures MergeMountAndInnerPath(mount, InnerPathUnder(mount, path)) == path
  {
    SubPathIsSegmentPrefix(mount, path);
    InnerPathIsSuffix(mount, path);
    InnerIsTheInverseOfMerge(mount, path, InnerPathUnder(mount, path));
  }

  // ---- Longest-prefix resolution --------------------------------------------------------------

  predicate AllMountsValid(mounts: seq<MountEntry>) {
    ValidUpTo(mounts, |mounts|)
  }

  predicate ValidUpTo(mounts: seq<MountEntry>, n: nat)
    requires n <= |mounts|
  {
    forall i | 0 <= i < n :: NormalizeVirtualPath(mounts[i].mountPath).Ok?
  }

  function MountPathAt(mounts: seq<MountEntry>, i: nat): string
    requires i < |mounts| && NormalizeVirtualPath(mounts[i].mountPath).Ok?
  {
    NormalizeVirtualPath(mounts[i].mountPath).value
  }

  predicate Encloses(mounts: seq<MountEntry>, i: nat, path: string)
    requires i < |mounts| && NormalizeVirtualPath(mounts[i].mountPath).Ok?
  {
    IsSubPath(MountPathAt(mounts, i), path)
  }

  /** Mount `i` encloses the path, every enclosing mount lies at or above it, and it is listed first. */
  ghost predicate IsDeepest(mounts: seq<MountEntry>, path: string, i: nat)
    requires AllMountsValid(mounts)
  {
    && i < |mounts| && Encloses(mounts, i, path)
    && (forall j | 0 <= j < |mounts| && Encloses(mounts, j, path) ::
          IsSubPath(MountPathAt(mounts, j), MountPathAt(mounts, i)))
    && (forall j | 0 <= j < i && Encloses(mounts, j, path) :: MountPathAt(mounts, j) != MountPathAt(mounts, i))
  }

  /** What resolving must return: the deepest enclosing mount if there is one. */
  ghost predicate Resolves(virtualPath: string, mounts: seq<MountEntry>, r: Result<ResolvedPath>) {
    if !NormalizeVirtualPath(virtualPath).Ok? || !AllMountsValid(mounts) then r == Err(PathInvalid)
    else
      var p := NormalizeVirtualPath(virtualPath).value;
      && r.Ok?
      && r.value.virtualPath == p
      && (r.value.isRealMount <==> exists i | 0 <= i < |mounts| :: Encloses(mounts, i, p))
      && (r.value.isRealMount ==>
            && !r.value.isPureVirtual
            && (exists i: nat ::
                  && IsDeepest(mounts, p, i)
                  && r.value.source == Some(mounts[i].source)
                  && r.value.matchedMountPath == MountPathAt(mounts, i))
            && IsCanonical(r.value.innerPath)
            && MergeMountAndInnerPath(r.value.matchedMountPath, r.value.innerPath) == p)
      && (!r.value.isRealMount ==>
            && r.value.source == None && r.value.matchedMountPath == "" && r.value.innerPath == ""
            && (r.value.isPureVirtual <==>
                  exists i | 0 <= i < |mounts| :: IsSubPath(p, MountPathAt(mounts, i))))
  }

  method ResolveVirtualPathByLongestPrefix(virtualPath: string, mounts: seq<MountEntry>)
    returns (r: Result<ResolvedPath>)
    ensures Resolves(virtualPath, mounts, r)
  {
    hide NormalizeVirtualPath, IsSubPath, IsCanonical, MergeMountAndInnerPath, InnerPathUnder;
    var normalized := NormalizeVirtualPath(virtualPath);
    if normalized.Err? { return Err(normalized.error); }
    var path := normalized.value;
    var bestIndex: int, bestMountPath := -1, "";
    var index := 0;
    while index < |mounts|
      invariant 0 <= index <= |mounts|
      invariant ValidUpTo(mounts, index)
      invariant -1 <= bestIndex < index
      invariant bestIndex < 0 ==> bestMountPath == "" && NoneEncloses(mounts, index, path)
      invariant bestIndex >= 0 ==>
                  && bestMountPath == MountPathAt(mounts, bestIndex)
                  && IsLongest(mounts, index, path, bestIndex)
    {
      var mountPath := NormalizeVirtualPath(mounts[index].mountPath);
      if mountPath.Err? {
        assert !NormalizeVirtualPath(mounts[index].mountPath).Ok?;
        return Err(mountPath.error);
      }
      CanonicalIsNotEmpty(mountPath.value);
      if IsSubPath(mountPath.value, path) && |mountPath.value| > |bestMountPath| {
        bestIndex, bestMountPath := index, mountPath.value;
      }
      index := index + 1;
    }
    if bestIndex >= 0 {
      LongestIsDeepest(mounts, path, bestIndex);
      InnerOfSubPath(bestMountPath, path);
      return Ok(ResolvedPath(path, bestMountPath, InnerPathUnder(bestMountPath, path),
                             Some(mounts[bestIndex].source), true, false));
    }
    index := 0;
    while index < |mounts|
      invariant 0 <= index <= |mounts|
      invariant forall j | 0 <= j < index :: !IsSubPath(path, MountPathAt(mounts, j))
    {
      var mountPath := MountPathAt(mounts, index);
      SubPathIsPartialOrder(path, path, path);
      assert mountPath != path by { assert !Encloses(mounts, index, path); }
      if mountPath != path && IsSubPath(path, mountPath) {
        return Ok(ResolvedPath(path, "", "", None, false, true));
      }
      index := index + 1;
    }
    return Ok(ResolvedPath(path, "", "", None, false, false));
  }

  lemma CanonicalIsNotEmpty(path: string)
    requires IsCanonical(path)
    ensures path != ""
  {
  }

  ghost predicate NoneEncloses(mounts: seq<MountEntry>, n: nat, path: string)
    requires n <= |mounts| && ValidUpTo(mounts, n)
  {
    forall j | 0 <= j < n :: !Encloses(mounts, j, path)
  }

  /** The loop's own criterion: the first of the longest enclosing mount paths. */
  ghost predicate IsLongest(mounts: seq<MountEntry>, n: nat, path: string, i: nat)
    requires n <= |mounts| && ValidUpTo(mounts, n)
  {
    && i < n && Encloses(mounts, i, path)
    && (forall j | 0 <= j < n && Encloses(mounts, j, path) ::
          |MountPathAt(mounts, j)| <= |MountPathAt(mounts, i)|)
    && (forall j | 0 <= j < i && Encloses(mounts, j, path) ::
          |MountPathAt(mounts, j)| < |MountPathAt(mounts, i)|)
  }

  /** Of two paths above the same path, the shorter string is above the longer one. */
  lemma ShorterIsAbove(a: string, b: string, path: string)
    requires IsCanonical(a) && IsCanonical(b) && IsCanonical(path)
    requires IsSubPath(a, path) && IsSubPath(b, path) && |a| <= |b|
    ensures IsSubPath(a, b)
  {
    SubPathIsPartialOrder(a, b, path);
    SubPathIsSegmentPrefix(a, b);
    SubPathIsSegmentPrefix(b, a);
  }

  /** Comparing string lengths finds the deepest mount. */
  lemma LongestIsDeepest(mounts: seq<MountEntry>, path: string, i: nat)
    requires AllMountsValid(mounts) && IsCanonical(path)
    requires IsLongest(mounts, |mounts|, path, i)
    ensures IsDeepest(mounts, path, i)
  {
    forall j | 0 <= j < |mounts| && Encloses(mounts, j, path)
      ensures IsSubPath(MountPathAt(mounts, j), MountPathAt(mounts, i))
    {
      ShorterIsAbove(MountPathAt(mounts, j), MountPathAt(mounts, i), path);
    }
  }

  /** The specification leaves no choice. */
  lemma ResolutionIsUnique(virtualPath: string, mounts: seq<MountEntry>,
                           r: Result<ResolvedPath>, q: Result<ResolvedPath>)
    requires Resolves(virtualPath, mounts, r) && Resolves(virtualPath, mounts, q)
    ensures r == q
  {
    if r.Ok? && r.value.isRealMount {
      ResolutionIgnoresOrder(virtualPath, mounts, mounts, r, q);
      var p := r.value.virtualPath;
      var i: nat :| IsDeepest(mounts, p, i) && r.value.source == Some(mounts[i].source)
                    && r.value.matchedMountPath == MountPathAt(mounts, i);
      var j: nat :| IsDeepest(mounts, p, j) && q.value.source == Some(mounts[j].source)
                    && q.value.matchedMountPath == MountPathAt(mounts, j);
      assert i == j;
    }
  }

  /** With distinct mount paths, any two lists of the same mounts resolve every path alike; in
      general they still agree on the matched mount path and the inner path. */
  lemma ResolutionIgnoresOrder(virtualPath: string, mounts: seq<MountEntry>, others: seq<MountEntry>,
                               r: Result<ResolvedPath>, q: Result<ResolvedPath>)
    requires forall m :: m in mounts <==> m in others
    requires Resolves(virtualPath, mounts, r) && Resolves(virtualPath, others, q)
    ensures r.Ok? <==> q.Ok?
    ensures r.Ok? ==>
              && r.value.isRealMount == q.value.isRealMount
              && r.value.isPureVirtual == q.value.isPureVirtual
              && r.value.matchedMountPath == q.value.matchedMountPath
              && r.value.innerPath == q.value.innerPath
    ensures r.Ok? && DistinctMountPaths(mounts) ==> r == q
  {
    hide NormalizeVirtualPath, IsSubPath, IsCanonical, MergeMountAndInnerPath, IsDeepest;
    MountsTransfer(mounts, others);
    MountsTransfer(others, mounts);
    if r.Ok? {
      var p := r.value.virtualPath;
      if r.value.isRealMount { EnclosureTransfers(p, mounts, others); }
      if q.value.isRealMount { EnclosureTransfers(p, others, mounts); }
      if r.value.isRealMount {
        DeepestPathsAgree(p, mounts, others, r.value, q.value);
      } else {
        if r.value.isPureVirtual { PureVirtualTransfers(p, mounts, others); }
        if q.value.isPureVirtual { PureVirtualTransfers(p, others, mounts); }
      }
    }
  }

  lemma EnclosureTransfers(p: string, mounts: seq<MountEntry>, others: seq<MountEntry>)
    requires forall m :: m in mounts <==> m in others
    requires AllMountsValid(mounts) && AllMountsValid(others)
    requires exists i | 0 <= i < |mounts| :: Encloses(mounts, i, p)
    ensures exists i | 0 <= i < |others| :: Encloses(others, i, p)
  {
    var e :| 0 <= e < |mounts| && Encloses(mounts, e, p);
    assert mounts[e] in others;
    var e' :| 0 <= e' < |others| && others[e'] == mounts[e];
    assert Encloses(others, e', p);
  }

  lemma MountsTransfer(mounts: seq<MountEntry>, others: seq<MountEntry>)
    requires forall m :: m in mounts <==> m in others
    ensures AllMountsValid(mounts) ==> AllMountsValid(others)
  {
    if AllMountsValid(mounts) {
      forall i | 0 <= i < |others| ensures NormalizeVirtualPath(others[i].mountPath).Ok? {
        assert others[i] in mounts;
      }
    }
  }

  lemma PureVirtualTransfers(p: string, mounts: seq<MountEntry>, others: seq<MountEntry>)
    requires forall m :: m in mounts <==> m in others
    requires AllMountsValid(mounts) && AllMountsValid(others)
    requires exists i | 0 <= i < |mounts| :: IsSubPath(p, MountPathAt(mounts, i))
    ensures exists i | 0 <= i < |others| :: IsSubPath(p, MountPathAt(others, i))
  {
    var i :| 0 <= i < |mounts| && IsSubPath(p, MountPathAt(mounts, i));
    assert mounts[i] in others;
    var j :| 0 <= j < |others| && others[j] == mounts[i];
    assert IsSubPath(p, MountPathAt(others, j));
  }

  /** No two different mounts share a mount path. */
  ghost predicate DistinctMountPaths(mounts: seq<MountEntry>)
    requires AllMountsValid(mounts)
  {
    forall i, j | 0 <= i < |mounts| && 0 <= j < |mounts| && MountPathAt(mounts, i) == MountPathAt(mounts, j) ::
      mounts[i] == mounts[j]
  }

  lemma DeepestPathsAgree(p: string, mounts: seq<MountEntry>, others: seq<MountEntry>,
                          r: ResolvedPath, q: ResolvedPath)
    requires forall m :: m in mounts <==> m in others
    requires AllMountsValid(mounts) && AllMountsValid(others) && IsCanonical(p)
    requires exists i: nat :: IsDeepest(mounts, p, i) && r.matchedMountPath == MountPathAt(mounts, i)
                              && r.source == Some(mounts[i].source)
    requires exists i: nat :: IsDeepest(others, p, i) && q.matchedMountPath == MountPathAt(others, i)
                              && q.source == Some(others[i].source)
    requires IsCanonical(r.innerPath) && MergeMountAndInnerPath(r.matchedMountPath, r.innerPath) == p
    requires IsCanonical(q.innerPath) && MergeMountAndInnerPath(q.matchedMountPath, q.innerPath) == p
    ensures r.matchedMountPath == q.matchedMountPath && r.innerPath == q.innerPath
    ensures DistinctMountPaths(mounts) ==> r.source == q.source
  {
    var i: nat :| IsDeepest(mounts, p, i) && r.matchedMountPath == MountPathAt(mounts, i)
                  && r.source == Some(mounts[i].source);
    var j: nat :| IsDeepest(others, p, j) && q.matchedMountPath == MountPathAt(others, j)
                  && q.source == Some(others[j].source);
    assert mounts[i] in others && others[j] in mounts;
    var i' :| 0 <= i' < |others| && others[i'] == mounts[i];
    var j' :| 0 <= j' < |mounts| && mounts[j'] == others[j];
    assert Encloses(others, i', p) && Encloses(mounts, j', p);
    SubPathIsPartialOrder(r.matchedMountPath, q.matchedMountPath, p);
    InnerIsTheInverseOfMerge(r.matchedMountPath, p, r.innerPath);
    InnerIsTheInverseOfMerge(q.matchedMountPath, p, q.innerPath);
  }

  // ---- Writable targets -----------------------------------------------------------------------

  /** `hasMountNameConflict`: a mount sits at or under the target; the root conflicts with nothing. */
  function HasMountNameConflict(targetPath: string, mounts: seq<MountEntry>): Result<bool> {
    match NormalizeVirtualPath(targetPath)
    case Err(e) => Err(e)
    case Ok(target) => if target == "/" then Ok(false) else ConflictsFrom(target, mounts)
  }

  function ConflictsFrom(target: string, mounts: seq<MountEntry>): (r: Result<bool>)
    ensures r.Err? ==> r.error == PathInvalid
  {
    if mounts == [] then Ok(false)
    else
      match NormalizeVirtualPath(mounts[0].mountPath)
      case Err(e) => Err(e)
      case Ok(mountPath) =>
        if mountPath == target then Ok(true)
        else if IsSubPath(target, mountPath) then Ok(true)
        else ConflictsFrom(target, mounts[1..])
  }

  lemma {:induction false} NoConflictMeansNoMountBelow(target: string, mounts: seq<MountEntry>)
    requires IsCanonical(target) && AllMountsValid(mounts)
    ensures ConflictsFrom(target, mounts) ==
            Ok(exists i | 0 <= i < |mounts| :: IsSubPath(target, MountPathAt(mounts, i)))
  {
    hide NormalizeVirtualPath, IsSubPath, IsCanonical;
    if mounts != [] {
      var tail := mounts[1..];
      assert forall i | 0 <= i < |tail| :: tail[i] == mounts[i + 1];
      NoConflictMeansNoMountBelow(target, tail);
      SubPathIsPartialOrder(target, target, target);
      if IsSubPath(target, MountPathAt(mounts, 0)) {
        assert ConflictsFrom(target, mounts) == Ok(true);
      } else {
        assert ConflictsFrom(target, mounts) == ConflictsFrom(target, tail);
        forall i | 0 <= i < |mounts| && IsSubPath(target, MountPathAt(mounts, i))
          ensures exists k | 0 <= k < |tail| :: IsSubPath(target, MountPathAt(tail, k))
        {
          assert IsSubPath(target, MountPathAt(tail, i - 1));
        }
        forall i | 0 <= i < |tail| && IsSubPath(target, MountPathAt(tail, i))
          ensures exists k | 0 <= k < |mounts| :: IsSubPath(target, MountPathAt(mounts, k))
        {
          assert IsSubPath(target, MountPathAt(mounts, i + 1));
        }
      }
    }
  }

  /** `ensureWritableNameAvailable` followed by the resolution, as `ResolveWritableTarget` runs them.
      `probe` stands for the driver's answer to "does this inner path exist". */
  method ResolveWritableTarget(virtualPath: string, mounts: seq<MountEntry>,
                               probe: (Source, string) -> Result<bool>)
    returns (r: Result<ResolvedPath>)
    ensures r.Ok? ==> Accepted(virtualPath, mounts, r.value)
    ensures r.Ok? ==> probe(r.value.source.value, r.value.innerPath) == Ok(false)
    ensures r.Err? && r.error == NoBackingStorage && (forall s, p :: probe(s, p) != Err(NoBackingStorage)) ==>
              exists q :: Resolves(virtualPath, mounts, Ok(q)) && !q.isRealMount
    ensures HasMountNameConflict(virtualPath, mounts) == Ok(true) ==> r == Err(NameConflict)
    ensures forall q: ResolvedPath ::
              Accepted(virtualPath, mounts, q) && probe(q.source.value, q.innerPath) == Ok(false) ==> r == Ok(q)
  {
    hide NormalizeVirtualPath, IsSubPath, IsCanonical, Resolves, ConflictsFrom;
    var conflict := HasMountNameConflict(virtualPath, mounts);
    if conflict.Err? { return Err(conflict.error); }
    if conflict.value { return Err(NameConflict); }
    var resolved := ResolveVirtualPathByLongestPrefix(virtualPath, mounts);
    forall q: ResolvedPath | Resolves(virtualPath, mounts, Ok(q)) ensures Ok(q) == resolved {
      ResolutionIsUnique(virtualPath, mounts, Ok(q), resolved);
    }
    ResolvedShape(virtualPath, mounts, resolved);
    if resolved.Err? { return resolved; }
    if resolved.value.isRealMount {
      var exists' := probe(resolved.value.source.value, resolved.value.innerPath);
      if exists'.Err? { return Err(exists'.error); }
      if exists'.value { return Err(NameConflict); }
    }
    if !resolved.value.isRealMount { return Err(NoBackingStorage); }
    return resolved;
  }

  lemma ResolvedShape(virtualPath: string, mounts: seq<MountEntry>, r: Result<ResolvedPath>)
    requires Resolves(virtualPath, mounts, r)
    ensures r.Err? ==> r.error == PathInvalid
    ensures r.Ok? && r.value.isRealMount ==> r.value.source.Some?
  {
  }

  /** The target was accepted: a mount serves it, and no mount sits at or under it (unless it is "/"). */
  ghost predicate Accepted(virtualPath: string, mounts: seq<MountEntry>, q: ResolvedPath) {
    && Resolves(virtualPath, mounts, Ok(q)) && q.isRealMount && q.source.Some?
    && HasMountNameConflict(virtualPath, mounts) == Ok(false)
  }

  /** The (only) deepest mount of an accepted target is the deepest mount of everything below it. */
  lemma DeepestStaysDeepest(mounts: seq<MountEntry>, p: string, d: string, i: nat, j: nat)
    requires AllMountsValid(mounts) && IsCanonical(p) && IsCanonical(d) && IsSubPath(p, d)
    requires forall k | 0 <= k < |mounts| :: !IsSubPath(p, MountPathAt(mounts, k))
    requires IsDeepest(mounts, p, i) && IsDeepest(mounts, d, j)
    ensures i == j
  {
    hide NormalizeVirtualPath, IsSubPath, IsCanonical;
    var mi, mj := MountPathAt(mounts, i), MountPathAt(mounts, j);
    SubPathIsPartialOrder(mj, p, d);
    SubPathIsPartialOrder(mi, p, d);
    assert Encloses(mounts, j, p) && Encloses(mounts, i, d);
    SubPathIsPartialOrder(mi, mj, d);
    assert mi == mj;
  }

  /** `d`, below the target `q`, is served by the source that serves the target, under its inner path. */
  ghost predicate ServedAlike(q: ResolvedPath, d: string, rd: Result<ResolvedPath>) {
    && rd.Ok? && rd.value.isRealMount
    && rd.value.source == q.source && rd.value.matchedMountPath == q.matchedMountPath
    && Segments(q.virtualPath) <= Segments(d)
    && Segments(rd.value.innerPath) == Segments(q.innerPath) + Segments(d)[|Segments(q.virtualPath)|..]
  }

  ghost predicate OwnsSubtree(mounts: seq<MountEntry>, q: ResolvedPath) {
    forall d, rd | IsCanonical(d) && IsSubPath(q.virtualPath, d) && Resolves(d, mounts, rd) :: ServedAlike(q, d, rd)
  }

  predicate OnlyAtTheRoot(mounts: seq<MountEntry>)
    requires AllMountsValid(mounts)
  {
    forall i | 0 <= i < |mounts| :: MountPathAt(mounts, i) == "/"
  }

  /** The mount that serves a target serves everything below it, if no other mount path lies there. */
  lemma ServedBelow(virtualPath: string, mounts: seq<MountEntry>, q: ResolvedPath, d: string, rd: Result<ResolvedPath>)
    requires Accepted(virtualPath, mounts, q) && (q.virtualPath != "/" || OnlyAtTheRoot(mounts))
    requires IsCanonical(d) && IsSubPath(q.virtualPath, d) && Resolves(d, mounts, rd)
    ensures ServedAlike(q, d, rd)
  {
    SameMountBelow(virtualPath, mounts, q, d, rd);
    SubPathIsSegmentPrefix(q.virtualPath, d);
    hide NormalizeVirtualPath, IsSubPath, IsCanonical, Segments, Accepted, Resolves, MergeMountAndInnerPath;
    var m := q.matchedMountPath;
    MergeIsConcat(m, q.innerPath);
    MergeIsConcat(m, rd.value.innerPath);
    SuffixOfConcat(Segments(m), Segments(q.innerPath), Segments(rd.value.innerPath), Segments(q.virtualPath),
                   Segments(d));
  }

  lemma SameMountBelow(virtualPath: string, mounts: seq<MountEntry>, q: ResolvedPath, d: string,
                       rd: Result<ResolvedPath>)
    requires Accepted(virtualPath, mounts, q) && (q.virtualPath != "/" || OnlyAtTheRoot(mounts))
    requires IsCanonical(d) && IsSubPath(q.virtualPath, d) && Resolves(d, mounts, rd)
    ensures rd.Ok? && rd.value.isRealMount && rd.value.source == q.source
            && rd.value.matchedMountPath == q.matchedMountPath
    ensures IsCanonical(q.virtualPath) && IsCanonical(q.matchedMountPath) && IsCanonical(q.innerPath)
            && IsCanonical(rd.value.innerPath)
    ensures MergeMountAndInnerPath(q.matchedMountPath, q.innerPath) == q.virtualPath
    ensures MergeMountAndInnerPath(q.matchedMountPath, rd.value.innerPath) == d
  {
    var p := q.virtualPath;
    assert NormalizeVirtualPath(virtualPath) == Ok(p);
    CanonicalIsFixpoint(d);
    hide NormalizeVirtualPath, IsSubPath, IsCanonical, ConflictsFrom, Segments, MergeMountAndInnerPath;
    assert IsCanonical(p);
    if p != "/" { NoConflictMeansNoMountBelow(p, mounts); }
    var i: nat :| IsDeepest(mounts, p, i) && q.source == Some(mounts[i].source)
                  && q.matchedMountPath == MountPathAt(mounts, i);
    SubPathIsPartialOrder(q.matchedMountPath, p, d);
    assert Encloses(mounts, i, d);
    var j: nat :| IsDeepest(mounts, d, j) && rd.value.source == Some(mounts[j].source)
                  && rd.value.matchedMountPath == MountPathAt(mounts, j);
    if p != "/" { DeepestStaysDeepest(mounts, p, d, i, j); }
  }

  /** An accepted target owns what lies below it, unless it is the root and some mount lies elsewhere: then the path of
      that mount is served by another mount. */
  lemma AcceptedTargetOwnsItsSubtree(virtualPath: string, mounts: seq<MountEntry>, q: ResolvedPath)
    requires Accepted(virtualPath, mounts, q)
    ensures AllMountsValid(mounts)
    ensures OwnsSubtree(mounts, q) <==> q.virtualPath != "/" || OnlyAtTheRoot(mounts)
  {
    hide Accepted, ServedAlike, Resolves;
    AcceptedAmongValid(virtualPath, mounts, q);
    if q.virtualPath != "/" || OnlyAtTheRoot(mounts) {
      forall d, rd | IsCanonical(d) && IsSubPath(q.virtualPath, d) && Resolves(d, mounts, rd)
        ensures ServedAlike(q, d, rd) {
        ServedBelow(virtualPath, mounts, q, d, rd);
      }
    } else {
      var i :| 0 <= i < |mounts| && MountPathAt(mounts, i) != "/";
      var rd := ServedAtItsMount(virtualPath, mounts, q, i);
    }
  }

  lemma AcceptedAmongValid(virtualPath: string, mounts: seq<MountEntry>, q: ResolvedPath)
    requires Accepted(virtualPath, mounts, q)
    ensures AllMountsValid(mounts)
  {
  }

  /** The first mount at the path of mount `i`. */
  lemma {:induction false} FirstAt(mounts: seq<MountEntry>, i: nat) returns (j: nat)
    requires AllMountsValid(mounts) && i < |mounts|
    ensures j < |mounts| && MountPathAt(mounts, j) == MountPathAt(mounts, i)
    ensures forall k | 0 <= k < j :: MountPathAt(mounts, k) != MountPathAt(mounts, i)
  {
    j := i;
    if k :| 0 <= k < i && MountPathAt(mounts, k) == MountPathAt(mounts, i) {
      j := FirstAt(mounts, k);
    }
  }

  /** The path of a mount is served by a mount at that path. */
  lemma ServedAtItsMount(virtualPath: string, mounts: seq<MountEntry>, q: ResolvedPath, i: nat)
    returns (rd: Result<ResolvedPath>)
    requires Accepted(virtualPath, mounts, q) && AllMountsValid(mounts) && i < |mounts|
    requires q.virtualPath == "/" && MountPathAt(mounts, i) != "/"
    ensures
      var d := MountPathAt(mounts, i);
      IsCanonical(d) && IsSubPath(q.virtualPath, d) && Resolves(d, mounts, rd) && !ServedAlike(q, d, rd)
  {
    var d := MountPathAt(mounts, i);
    var j := FirstAt(mounts, i);
    CanonicalIsFixpoint(d);
    SegmentsOfRender([]);
    SubPathIsSegmentPrefix("/", d);
    SubPathIsPartialOrder(d, d, d);
    MergeIsConcat(d, "/");
    CanonicalSegments(d);
    assert Segments(d) + [] == Segments(d);
    var served := ResolvedPath(d, d, "/", Some(mounts[j].source), true, false);
    rd := Ok(served);
    RootServedByRoot(virtualPath, mounts, q);
    hide NormalizeVirtualPath, IsSubPath, IsCanonical, MergeMountAndInnerPath, Segments;
    assert Encloses(mounts, j, d) && IsDeepest(mounts, d, j);
  }

  lemma RootServedByRoot(virtualPath: string, mounts: seq<MountEntry>, q: ResolvedPath)
    requires Accepted(virtualPath, mounts, q) && q.virtualPath == "/"
    ensures q.matchedMountPath == "/"
  {
    var i: nat :| i < |mounts| && IsDeepest(mounts, "/", i) && q.matchedMountPath == MountPathAt(mounts, i);
    SegmentsOfRender([]);
    assert IsCanonical("/");
    SubPathIsSegmentPrefix(q.matchedMountPath, "/");
    CanonicalSegments(q.matchedMountPath);
  }

  lemma SuffixOfConcat<T>(m: seq<T>, a: seq<T>, b: seq<T>, p: seq<T>, d: seq<T>)
    requires p == m + a && d == m + b && p <= d
    ensures b == a + d[|p|..]
  {
    assert d == p + d[|p|..];
    assert b == d[|m|..];
  }

  /** An accepted target has inner path "/" exactly when it is the root itself. */
  lemma AcceptedInnerPathIsNotTheRoot(virtualPath: string, mounts: seq<MountEntry>, q: ResolvedPath)
    requires Accepted(virtualPath, mounts, q)
    ensures q.innerPath == "/" <==> q.virtualPath == "/"
  {
    var p := q.virtualPath;
    SegmentsOfRender([]);
    SubPathIsPartialOrder(p, p, p);
    RootOrSlashed(p);
    hide NormalizeVirtualPath, IsSubPath, IsCanonical, ConflictsFrom, Segments;
    MergeIsConcat(q.matchedMountPath, q.innerPath);
    var i: nat :| IsDeepest(mounts, p, i) && q.matchedMountPath == MountPathAt(mounts, i);
    CanonicalSegments(q.innerPath);
    CanonicalSegments(q.matchedMountPath);
    CanonicalSegments(p);
    if q.innerPath == "/" {
      assert Segments(p) == Segments(q.matchedMountPath);
      assert p == q.matchedMountPath;
    }
    if p != "/" {
      NoConflictMeansNoMountBelow(p, mounts);
      assert p != MountPathAt(mounts, i);
    } else {
      assert Segments(q.innerPath) == [];
    }
  }

  /** For instance: it is accepted although another source is mounted below it. */
  lemma RootTargetDoesNotOwnItsSubtree(s: Source, t: Source)
    requires s != t
    ensures
      var mounts := [MountEntry("/", s), MountEntry("/a", t)];
      && Accepted("/", mounts, ResolvedPath("/", "/", "/", Some(s), true, false))
      && Resolves("/a", mounts, Ok(ResolvedPath("/a", "/a", "/", Some(t), true, false)))
  {
    var mounts := [MountEntry("/", s), MountEntry("/a", t)];
    SlashAndSlashA();
    hide NormalizeVirtualPath, Segments, Clean, IsSubPath, MergeMountAndInnerPath, Render, IsCanonical;
    assert MountPathAt(mounts, 0) == "/" && MountPathAt(mounts, 1) == "/a";
    assert IsDeepest(mounts, "/", 0);
    assert IsDeepest(mounts, "/a", 1);
  }

  lemma SlashAndSlashA()
    ensures IsCanonical("/") && IsCanonical("/a")
    ensures NormalizeVirtualPath("/") == Ok("/") && NormalizeVirtualPath("/a") == Ok("/a")
    ensures IsSubPath("/", "/") && IsSubPath("/", "/a") && IsSubPath("/a", "/a") && !IsSubPath("/a", "/")
    ensures MergeMountAndInnerPath("/", "/") == "/" && MergeMountAndInnerPath("/a", "/") == "/a"
  {
    SegmentsOfRender([]);
    assert Render(["a"]) == "/a" by { assert Slashed(["a"][1..]) == ""; }
    SegmentsOfRender(["a"]);
    SubPathIsPartialOrder("/", "/", "/");
    SubPathIsPartialOrder("/a", "/a", "/a");
    assert NormalizeVirtualPath("/") == Ok("/") && NormalizeVirtualPath("/a") == Ok("/a");
    hide Segments, Clean;
    assert !HasPrefix("/", "/a");
  }

  /** What upload and task creation record: the parent of the inner path recomposes, through the
      matched mount, to the virtual parent that was asked for. */
  lemma RecordedParentRecomposes(parent: string, name: string, mounts: seq<MountEntry>, q: ResolvedPath)
    requires IsCanonical(parent) && ValidName(name)
    requires Accepted(JoinVirtualPath(parent, name), mounts, q)
    ensures
      var recorded := SplitParentName(q.innerPath);
      && recorded.Ok? && recorded.value.1 == name
      && MergeMountAndInnerPath(q.matchedMountPath, recorded.value.0) == parent
  {
    var target := JoinVirtualPath(parent, name);
    JoinIsRender(parent, name);
    assert q.virtualPath == target;
    AcceptedInnerPathIsNotTheRoot(target, mounts, q);
    SegmentsOfRender([]);
    hide NormalizeVirtualPath, IsSubPath, ConflictsFrom, Segments, IsClean, IsCanonical;
    MergeIsConcat(q.matchedMountPath, q.innerPath);
    CanonicalSegments(q.innerPath);
    CanonicalSegments(q.matchedMountPath);
    CanonicalSegments(parent);
    var m, i := Segments(q.matchedMountPath), Segments(q.innerPath);
    ParentOfConcat(m, i, Segments(parent), name);
    ParentOfRender(q.innerPath, i[..|i| - 1], name);
    CanonicalRender(i[..|i| - 1]);
    MergeIsConcat(q.matchedMountPath, Render(i[..|i| - 1]));
  }

  lemma ParentOfConcat(m: seq<string>, i: seq<string>, parent: seq<string>, name: string)
    requires m + i == parent + [name] && i != []
    ensures i[|i| - 1] == name && i == i[..|i| - 1] + [name]
    ensures m + i[..|i| - 1] == parent
  {
    assert (m + i)[|m + i| - 1] == i[|i| - 1];
    assert (m + i)[..|m + i| - 1] == m + i[..|i| - 1];
    assert (parent + [name])[..|parent|] == parent;
  }

  lemma ParentOfRender(path: string, up: seq<string>, name: string)
    requires IsCanonical(path) && Segments(path) == up + [name]
    ensures SplitParentName(path) == Ok((Render(up), name))
  {
    CanonicalSegments(path);
    var segs := Segments(path);
    assert forall k | 0 <= k < |up| :: up[k] == segs[k];
    assert segs[|up|] == name;
    CanonicalRender(up);
    JoinIsRender(Render(up), name);
    DirOfJoin(Render(up), name);
    CanonicalIsFixpoint(path);
    SegmentsOfRender([]);
  }
}
