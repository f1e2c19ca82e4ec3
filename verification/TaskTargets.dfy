/** Imported downloads: the virtual directory a file is committed to, from what its task recorded. */
module TaskTargets {
  import opened Common
  import opened Text
  import opened Paths
  import opened Mounts

  /** The columns of a download task that name its target. */
  datatype RecordedTarget = RecordedTarget(targetVirtualParentPath: string, saveVirtualPath: string,
                                           resolvedInnerSavePath: string, savePath: string)

  function VirtualBase(t: RecordedTarget): string {
    if TrimSpace(t.targetVirtualParentPath) != "" then TrimSpace(t.targetVirtualParentPath)
    else TrimSpace(t.saveVirtualPath)
  }

  function InnerBase(t: RecordedTarget): string {
    if TrimSpace(t.resolvedInnerSavePath) != "" then TrimSpace(t.resolvedInnerSavePath) else t.savePath
  }

  /** The imported directory lies below the recorded one, so it is rebased. */
  predicate Rebases(t: RecordedTarget, innerParentPath: string) {
    && VirtualBase(t) != "" && NormalizeVirtualPath(VirtualBase(t)).Ok?
    && NormalizeVirtualPath(innerParentPath).Ok? && NormalizeVirtualPath(InnerBase(t)).Ok?
    && IsSubPath(NormalizeVirtualPath(InnerBase(t)).value, NormalizeVirtualPath(innerParentPath).value)
  }

  /** `taskImportedMetadataVirtualParentPath`. */
  function RebasedParentPath(t: RecordedTarget, mountPath: string, innerParentPath: string): string {
    if Rebases(t, innerParentPath) then
      var virtual, inner, base := NormalizeVirtualPath(VirtualBase(t)).value,
        NormalizeVirtualPath(innerParentPath).value,
                                  NormalizeVirtualPath(InnerBase(t)).value;
      if inner == base then virtual else JoinVirtualPath(virtual, TrimPrefix(TrimPrefix(inner, base), "/"))
    else MergeMountAndInnerPath(mountPath, innerParentPath)
  }

  // ---- When rebasing is merging ---------------------------------------------------------------

  /** Whatever was recorded: a rebased path is the merge through the mount exactly when the recorded virtual directory
      is the merge of the recorded inner one. */
  lemma RebaseIsMergeIff(t: RecordedTarget, mountPath: string, innerParentPath: string)
    ensures RebasedParentPath(t, mountPath, innerParentPath) == MergeMountAndInnerPath(mountPath, innerParentPath) <==>
            (Rebases(t, innerParentPath) ==>
               NormalizeVirtualPath(VirtualBase(t)) == Ok(MergeMountAndInnerPath(mountPath, InnerBase(t))))
  {
    if Rebases(t, innerParentPath) {
      var virtual, inner, base := NormalizeVirtualPath(VirtualBase(t)).value,
        NormalizeVirtualPath(innerParentPath).value,
                                  NormalizeVirtualPath(InnerBase(t)).value;
      MergeOfNormalized(mountPath, innerParentPath);
      MergeOfNormalized(mountPath, InnerBase(t));
      hide NormalizeVirtualPath, IsSubPath, IsCanonical, MergeMountAndInnerPath, TrimSpace, JoinVirtualPath, TrimPrefix;
      RebasedSegments(virtual, base, inner);
      if NormalizeVirtualPath(mountPath).Ok? { Cancel(NormalizeVirtualPath(mountPath).value, virtual, base, inner); }
    }
  }

  lemma MergeOfNormalized(mountPath: string, inner: string)
    requires NormalizeVirtualPath(inner).Ok?
    ensures MergeMountAndInnerPath(mountPath, inner) ==
            if NormalizeVirtualPath(mountPath).Ok?
            then MergeMountAndInnerPath(NormalizeVirtualPath(mountPath).value, NormalizeVirtualPath(inner).value)
              else ""
    ensures forall v | NormalizeVirtualPath(v).Ok? :: NormalizeVirtualPath(v).value != ""
  {
    hide Segments, Clean, HasDotDot;
    CanonicalIsFixpoint(NormalizeVirtualPath(inner).value);
    if NormalizeVirtualPath(mountPath).Ok? { CanonicalIsFixpoint(NormalizeVirtualPath(mountPath).value); }
  }

  /** What a path below `base` becomes below `virtual`. */
  function Rebased(virtual: string, base: string, inner: string): string {
    if inner == base then virtual else JoinVirtualPath(virtual, TrimPrefix(TrimPrefix(inner, base), "/"))
  }

  lemma RebasedSegments(virtual: string, base: string, inner: string)
    requires IsCanonical(virtual) && IsCanonical(base) && IsCanonical(inner) && IsSubPath(base, inner)
    ensures Segments(base) <= Segments(inner)
    ensures Rebased(virtual, base, inner) == Render(Segments(virtual) + Segments(inner)[|Segments(base)|..])
    ensures CleanSegments(Segments(virtual) + Segments(inner)[|Segments(base)|..])
  {
    SubPathIsSegmentPrefix(base, inner);
    CanonicalSegments(base);
    CanonicalSegments(inner);
    CanonicalSegments(virtual);
    hide NormalizeVirtualPath, IsSubPath, IsCanonical, Segments, JoinVirtualPath, Render, Slashed, TrimPrefix,
         HasDotDot;
    if inner == base {
      assert Segments(virtual) + Segments(inner)[|Segments(base)|..] == Segments(virtual);
    } else {
      assert Segments(base) != Segments(inner);
      JoinOfParts(Segments(virtual), Segments(base), Segments(inner));
    }
  }

  lemma Cancel(mount: string, virtual: string, base: string, inner: string)
    requires IsCanonical(mount) && IsCanonical(virtual) && IsCanonical(base) && IsCanonical(inner)
             && IsSubPath(base, inner)
    ensures Rebased(virtual, base, inner) == MergeMountAndInnerPath(mount, inner)
            <==> virtual == MergeMountAndInnerPath(mount, base)
  {
    hide NormalizeVirtualPath, IsSubPath, IsCanonical, Segments, MergeMountAndInnerPath, Rebased, Render, HasDotDot;
    RebasedSegments(virtual, base, inner);
    MergeIsConcat(mount, inner);
    MergeIsConcat(mount, base);
    CanonicalSegments(virtual);
    var v, m, b, i := Segments(virtual), Segments(mount), Segments(base), Segments(inner);
    var rest := i[|b|..];
    SegmentsOfRender(v + rest);
    assert i == b + rest;
    assert m + i == (m + b) + rest;
    if v + rest == (m + b) + rest {
      assert v == (v + rest)[..|v|] && m + b == ((m + b) + rest)[..|m + b|];
    }
  }

  lemma JoinOfParts(v: seq<string>, b: seq<string>, i: seq<string>)
    requires CleanSegments(v) && CleanSegments(b) && CleanSegments(i) && b < i
    ensures JoinVirtualPath(Render(v), TrimPrefix(TrimPrefix(Render(i), Render(b)), "/")) == Render(v + i[|b|..])
  {
    hide JoinVirtualPath, Render, Slashed, TrimPrefix, CleanSegment;
    var more := i[|b|..];
    assert i == b + more && more != [];
    assert forall k | 0 <= k < |more| :: more[k] == i[|b| + k];
    RelativePart(b, more);
    JoinRelative(v, more);
  }

  lemma RelativePart(b: seq<string>, more: seq<string>)
    requires CleanSegments(b) && CleanSegments(more) && more != []
    ensures |Slashed(more)| > 0 && TrimPrefix(TrimPrefix(Render(b + more), Render(b)), "/") == Slashed(more)[1..]
  {
    HeadOfSlashed(more);
    SlashedConcat(b, more);
    var rel := Slashed(more)[1..];
    hide CleanSegments;
    if b == [] {
      assert b + more == more;
      assert Render(more) == "/" + rel;
    } else {
      assert b + more != [];
      assert Render(b + more) == Render(b) + Slashed(more);
      assert TrimPrefix(Render(b + more), Render(b)) == Slashed(more);
    }
  }

  lemma HeadOfSlashed(more: seq<string>)
    requires CleanSegments(more) && more != []
    ensures |Slashed(more)| > 1 && Slashed(more)[0] == '/' && Slashed(more)[1] != '/'
    ensures Slashed(more) == "/" + Slashed(more)[1..] && TrimPrefix(Slashed(more)[1..], "/") == Slashed(more)[1..]
  {
    assert CleanSegment(more[0]) && more[0][0] in more[0];
    assert Slashed(more) == "/" + more[0] + Slashed(more[1..]);
    assert Slashed(more)[1] == more[0][0];
  }

  lemma JoinRelative(v: seq<string>, more: seq<string>)
    requires CleanSegments(v) && CleanSegments(more) && more != []
    ensures |Slashed(more)| > 0 && JoinVirtualPath(Render(v), Slashed(more)[1..]) == Render(v + more)
  {
    SlashedConcat(v, more);
    HeadOfSlashed(more);
    var rel := Slashed(more)[1..];
    if v == [] {
      assert v + more == more;
    } else {
      assert v[0] != "";
      assert Render(v) + "/" + rel == Render(v) + ("/" + rel);
    }
  }

  // ---- Trimmed paths --------------------------------------------------------------------------

  lemma SuffixHasNoDotDot(s: string, n: nat)
    requires !HasDotDot(s) && n <= |s|
    ensures !HasDotDot(s[n..]) && !HasDotDot(s[..n])
  {
    DotDotOfConcat(s[..n], s[n..]);
    assert s == s[..n] + s[n..];
  }

  /** No component of a string without ".." is "..". */
  lemma {:induction false} PartsHaveNoDotDot(s: string)
    requires !HasDotDot(s)
    ensures Split(s)[0] <= s
    ensures forall i | 0 <= i < |Split(s)| :: !HasDotDot(Split(s)[i]) && Split(s)[i] != ".."
  {
    assert HasDotDot("..") by { assert ".."[0] == '.' && ".."[1] == '.'; }
    if s != "" {
      SuffixHasNoDotDot(s, 1);
      PartsHaveNoDotDot(s[1..]);
      var head := Split(s)[0];
      assert head <= s;
      SuffixHasNoDotDot(s, |head|);
      assert s[..|head|] == head;
      hide HasDotDot;
    } else {
      assert !HasDotDot("");
    }
  }

  /** Without "..", pushing components leaves what is there and adds only components. */
  lemma {:induction false} PushAllAfter(before: seq<string>, more: seq<string>, parts: seq<string>)
    requires forall i | 0 <= i < |parts| :: !HasDotDot(parts[i]) && parts[i] != ".."
    requires forall i | 0 <= i < |more| :: !HasDotDot(more[i])
    ensures PushAll(before + more, parts) == before + PushAll(more, parts)
    ensures forall i | 0 <= i < |PushAll(more, parts)| :: !HasDotDot(PushAll(more, parts)[i])
    decreases |parts|
  {
    if parts != [] {
      assert Push(before + more, parts[0]) == before + Push(more, parts[0]);
      PushAllAfter(before, Push(more, parts[0]), parts[1..]);
    }
  }

  /** Normalizing a rooted path without ".." succeeds. */
  lemma NormalizesWithoutDots(s: string)
    requires HasPrefix(s, "/") && !HasDotDot(s)
    ensures NormalizeVirtualPath(s) == Ok(Clean(s))
  {
    PartsHaveNoDotDot(s);
    PushAllAfter([], [], Split(s));
    DotDotOfRender(Segments(s));
  }

  lemma SegmentsBelow(mount: string, tail: string)
    requires IsCanonical(mount) && HasPrefix(tail, "/") && !HasDotDot(tail)
    ensures
      var before := if mount == "/" then "" else mount;
      Segments(before + tail) == Segments(mount) + Segments(tail) && !HasDotDot(before + tail)
  {
    var before := if mount == "/" then "" else mount;
    var y := tail[1..];
    assert tail == "" + "/" + y && before + tail == before + "/" + y;
    SplitOfJoin("", y);
    SplitOfJoin(before, y);
    SegmentsOfRender([]);
    DotDotOfConcat("/", y);
    PartsHaveNoDotDot(y);
    PushAllConcat([], Split(""), Split(y));
    PushAllConcat([], Split(before), Split(y));
    PushAllAfter(Segments(mount), [], Split(y));
    assert Segments(mount) + [] == Segments(mount);
    RootOrSlashed(mount);
    DotDotOfConcat(before, tail);
  }

  /** Trimming the merge of a mount and an inner path other than "/" trims the inner path. */
  lemma TrimmedMerge(mount: string, base: string)
    requires IsCanonical(mount) && IsCanonical(base) && base != "/"
    ensures NormalizeVirtualPath(TrimSpace(base)).Ok?
    ensures NormalizeVirtualPath(TrimSpace(MergeMountAndInnerPath(mount, base)))
            == Ok(MergeMountAndInnerPath(mount, NormalizeVirtualPath(TrimSpace(base)).value))
  {
    TrimmedIsRooted(base);
    var tail, before := TrimSpace(base), if mount == "/" then "" else mount;
    CanonicalIsFixpoint(mount);
    CanonicalIsFixpoint(base);
    assert MergeMountAndInnerPath(mount, base) == before + base;
    TrimRightOfConcat(before, base);
    assert TrimSpace(before + base) == before + tail;
    NormalizesWithoutDots(tail);
    SegmentsBelow(mount, tail);
    NormalizesWithoutDots(before + tail);
    MergeIsConcat(mount, Clean(tail));
    CleanIsIdempotent(tail);
  }

  /** Trimming a canonical path leaves a rooted string without "..", shorter exactly when white space was trimmed. */
  lemma TrimmedIsRooted(path: string)
    requires IsCanonical(path)
    ensures HasPrefix(TrimSpace(path), "/") && !HasDotDot(TrimSpace(path)) && TrimSpace(path) <= path
    ensures TrimSpace(path) != path <==> IsSpace(path[|path| - 1])
  {
    assert TrimLeftSpace(path) == path;
    TrimRightFixed(path);
    TrimRightSpaceShape(path);
    var t := TrimSpace(path);
    DotDotOfConcat(t, path[|t|..]);
    assert path == t + path[|t|..];
    if IsSpace(path[|path| - 1]) { TrimRightSpaceShape(path[..|path| - 1]); }
  }

  /** `path.Clean` never makes a rooted path longer. */
  lemma CleanIsNoLonger(path: string)
    requires HasPrefix(path, "/")
    ensures |Clean(path)| <= |path|
  {
    assert path == "" + "/" + path[1..];
    SplitOfJoin("", path[1..]);
    SlashedIsNoLonger([], Split(path[1..]));
    assert ([""] + Split(path[1..]))[1..] == Split(path[1..]);
    Weighed(path[1..]);
  }

  function Weight(parts: seq<string>): nat {
    if parts == [] then 0 else 1 + |parts[0]| + Weight(parts[1..])
  }

  lemma {:induction false} Weighed(s: string)
    ensures Weight(Split(s)) == |s| + 1
  {
    if s != "" {
      Weighed(s[1..]);
      var rest := Split(s[1..]);
      assert ([[s[0]] + rest[0]] + rest[1..])[1..] == rest[1..];
      assert ([""] + rest)[1..] == rest;
    }
  }

  lemma {:induction false} SlashedIsNoLonger(segs: seq<string>, parts: seq<string>)
    ensures |Slashed(PushAll(segs, parts))| <= |Slashed(segs)| + Weight(parts)
    decreases |parts|
  {
    if parts != [] {
      var next := Push(segs, parts[0]);
      SlashedIsNoLonger(next, parts[1..]);
      SlashedConcat(segs, [parts[0]]);
      if segs != [] {
        SlashedConcat(segs[..|segs| - 1], [segs[|segs| - 1]]);
        assert segs[..|segs| - 1] + [segs[|segs| - 1]] == segs;
      }
    }
  }

  // ---- Tasks as they are created --------------------------------------------------------------

  /** What `resolveCreateTarget` records for the directory `base` of the source mounted at `mount`, whether the caller
      named a virtual directory or a source and a path. */
  predicate CreatedFor(t: RecordedTarget, mount: string, base: string) {
    && t.resolvedInnerSavePath == base && t.savePath == base && t.saveVirtualPath == MergeMountAndInnerPath(mount, base)
    && (t.targetVirtualParentPath == t.saveVirtualPath || t.targetVirtualParentPath == "")
  }

  /** For a task as it was created, rebasing an imported directory is merging through the mount, unless the target is
      the mount point itself and its path ends in white space; then it never is. */
  lemma CreatedTargetsRebase(t: RecordedTarget, mount: string, base: string, inner: string)
    requires IsCanonical(mount) && IsCanonical(base) && IsCanonical(inner) && CreatedFor(t, mount, base)
    ensures RebasedParentPath(t, mount, inner) == MergeMountAndInnerPath(mount, inner)
            <==> !(base == "/" && IsSpace(mount[|mount| - 1]))
  {
    var v := MergeMountAndInnerPath(mount, base);
    MergeIsConcat(mount, base);
    TrimmedIsRooted(v);
    TrimmedIsRooted(base);
    assert TrimSpace("") == "";
    RebaseIsMergeIff(t, mount, inner);
    CanonicalIsFixpoint(inner);
    CanonicalIsFixpoint(mount);
    if base != "/" {
      TrimmedMerge(mount, base);
      MergeOfNormalized(mount, TrimSpace(base));
    } else {
      TrimmedMount(mount);
      SegmentsOfRender([]);
      SubPathIsSegmentPrefix("/", inner);
      assert TrimSpace("/") == "/" && NormalizeVirtualPath("/") == Ok("/");
    }
  }

  lemma TrimmedMount(mount: string)
    requires IsCanonical(mount)
    ensures NormalizeVirtualPath(TrimSpace(mount)).Ok?
    ensures NormalizeVirtualPath(TrimSpace(mount)).value == mount <==> !IsSpace(mount[|mount| - 1])
  {
    TrimmedIsRooted(mount);
    NormalizesWithoutDots(TrimSpace(mount));
    CleanIsNoLonger(TrimSpace(mount));
    CanonicalIsFixpoint(mount);
  }

  /** The source at "/m " commits what a task downloads into its directory "/x" below "/m". */
  lemma BlankMountDiverges()
    ensures
      var t := RecordedTarget("/m ", "/m ", "/", "/");
      && CreatedFor(t, "/m ", "/")
      && RebasedParentPath(t, "/m ", "/x") == "/m/x" && MergeMountAndInnerPath("/m ", "/x") == "/m /x"
  {
    BlankMountTrimmed();
    BlankMountPaths();
    hide NormalizeVirtualPath, TrimSpace, IsCanonical, IsSubPath;
    assert "/x" == "/" + "x" && "x"[0] != '/';
    assert TrimPrefix("/x", "/") == "x" && TrimPrefix("x", "/") == "x";
  }

  lemma BlankMountPaths()
    ensures NormalizeVirtualPath("/m ") == Ok("/m ") && NormalizeVirtualPath("/m") == Ok("/m")
    ensures NormalizeVirtualPath("/x") == Ok("/x") && NormalizeVirtualPath("/") == Ok("/") && IsSubPath("/", "/x")
  {
    assert !HasDotDot("m ") && !HasDotDot("m") && !HasDotDot("x");
    hide NormalizeVirtualPath, IsSubPath, HasDotDot, IsCanonical;
    OneSegment("m ");
    OneSegment("m");
    OneSegment("x");
    RootIsCanonical();
    assert "/" + "m " == "/m " && "/" + "m" == "/m" && "/" + "x" == "/x";
    IsAboveAll("/x");
  }

  lemma BlankMountTrimmed()
    ensures TrimSpace("/m ") == "/m" && TrimSpace("/") == "/"
  {
    assert "/m " == "/" + "m ";
    TrimRightOfConcat("/", "m ");
    assert "m "[..1] == "m" && TrimRightSpace("m") == "m";
  }

  lemma RootIsCanonical()
    ensures IsCanonical("/") && NormalizeVirtualPath("/") == Ok("/")
  {
    SegmentsOfRender([]);
  }

  lemma IsAboveAll(path: string)
    requires IsCanonical(path)
    ensures IsSubPath("/", path)
  {
    SegmentsOfRender([]);
    SubPathIsSegmentPrefix("/", path);
  }
}
