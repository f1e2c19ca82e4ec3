/** The inner-path computations of the services: one left inverse of `mergeMountAndInnerPath`, written
    seven times. */
module InnerPaths {
  import opened Common
  import opened Text
  import opened Paths
  import opened Store
  import Acl
  import Locators
  import Mounts
  import RefreshService

  // ---- The computations -----------------------------------------------------------------------

  /** `legacyInnerPathForSource`. */
  function LegacyInnerPath(mountPath: string, virtualPath: string): Option<string> {
    match (NormalizeVirtualPath(mountPath), NormalizeVirtualPath(virtualPath))
    case (Ok(mount), Ok(path)) =>
      if !IsSubPath(mount, path) then None
      else if mount == "/" then Some(path)
      else Some(Mounts.InnerPathUnder(mount, path))
    case _ => None
  }

  /** `shareInnerPathForSource`. */
  function ShareInnerPath(mountPath: string, virtualPath: string): Result<string> {
    match (NormalizeVirtualPath(virtualPath), NormalizeVirtualPath(mountPath))
    case (Err(e), _) => Err(e)
    case (_, Err(e)) => Err(e)
    case (Ok(path), Ok(mount)) =>
      if !IsSubPath(mount, path) then Err(FileNotFound)
      else if mount == "/" then Ok(path)
      else
        var inner := TrimPrefix(path, mount);
        if inner == "" then Ok("/")
        else NormalizeVirtualPath(if HasPrefix(inner, "/") then inner else "/" + inner)
  }

  /** `innerPathForVirtualPath` of the ACL evaluator. */
  function AclInnerPath(mountPath: string, virtualPath: string): string {
    match NormalizeVirtualPath(virtualPath)
    case Err(_) => virtualPath
    case Ok(path) =>
      match NormalizeVirtualPath(mountPath)
      case Err(_) => path
      case Ok(mount) =>
        if mount != "/" && IsSubPath(mount, path) then Mounts.InnerPathUnder(mount, path) else path
  }

  /** `metadataCommitInnerParentPath`. */
  function CommitInnerParentPath(resolvedInner: string, mountPath: string, virtualParentPath: string): Result<string> {
    if TrimSpace(resolvedInner) != "" then NormalizeVirtualPath(resolvedInner)
    else if TrimSpace(mountPath) != "" && NormalizeVirtualPath(mountPath).Ok?
            && IsSubPath(NormalizeVirtualPath(mountPath).value, virtualParentPath) then
      NormalizeVirtualPath(Mounts.InnerPathUnder(NormalizeVirtualPath(mountPath).value, virtualParentPath))
    else NormalizeVirtualPath(virtualParentPath)
  }

  // ---- They agree -----------------------------------------------------------------------------

  lemma InnerUnderRoot(path: string)
    requires IsCanonical(path)
    ensures Mounts.InnerPathUnder("/", path) == path
  {
    SegmentsOfRender([]);
    SubPathIsPartialOrder("/", "/", "/");
    Mounts.InnerPathIsSuffix("/", path);
    assert Segments(path)[0..] == Segments(path);
  }

  /** Below a mount other than "/" the cut-off path starts with a slash by itself. */
  lemma CutStartsWithSlash(mount: string, path: string)
    requires IsCanonical(mount) && IsCanonical(path) && IsSubPath(mount, path) && mount != "/"
    ensures
      var inner := TrimPrefix(path, mount);
      Mounts.InnerPathUnder(mount, path) == (if inner == "" then "/" else inner)
  {
    SubPathIsSegmentPrefix(mount, path);
  }

  /** The refresh goes by the mount path of the source: no mount row and no mount node says otherwise. */
  predicate RefreshKnowsMount(target: Node, mountRow: Option<string>, source: Mounts.Source) {
    var own := RefreshService.OwnMountPath(target, mountRow);
    if own != "" then NormalizeVirtualPath(own) == NormalizeVirtualPath(source.mountPath)
    else source.mountPath != "" || target.kind != Mount || target.path == "/"
  }

  /** What a refresh asks its provider for, whatever it takes for the mount path: the path that merges with that one to
      give the target's path back. (A mount node for which neither a row nor the source has a path is the mount.) */
  lemma RefreshAnswers(source: Mounts.Source, target: Node, mountRow: Option<string>, inner: string)
    requires IsCanonical(target.path) && IsCanonical(inner)
    ensures
      var own := RefreshService.OwnMountPath(target, mountRow);
      var mountPath := if own == "" then source.mountPath else own;
      RefreshService.RemoteParentPath(target, mountRow, source) == Ok(inner) <==>
      if mountPath == "" && target.kind == Mount then inner == "/"
      else NormalizeVirtualPath(mountPath).Ok?
           && MergeMountAndInnerPath(NormalizeVirtualPath(mountPath).value, inner) == target.path
    ensures RefreshService.RemoteParentPath(target, mountRow, source).Err? ==>
              RefreshService.RemoteParentPath(target, mountRow, source).error == PathInvalid
    ensures RefreshService.RemoteParentPath(target, mountRow, source).Ok? ==>
              IsCanonical(RefreshService.RemoteParentPath(target, mountRow, source).value)
  {
    var path := target.path;
    var own := RefreshService.OwnMountPath(target, mountRow);
    var mountPath := if own == "" then source.mountPath else own;
    CanonicalIsFixpoint(path);
    RootIsCanonical();
    if NormalizeVirtualPath(mountPath).Ok? {
      var mount := NormalizeVirtualPath(mountPath).value;
      EmptyMount(mountPath, inner);
      Mounts.InnerIsTheInverseOfMerge(mount, path, inner);
      if IsSubPath(mount, path) { Mounts.InnerOfSubPath(mount, path); }
    }
    hide NormalizeVirtualPath, IsSubPath, IsCanonical, MergeMountAndInnerPath, TrimSpace;
  }

  lemma RootIsCanonical()
    ensures IsCanonical("/") && NormalizeVirtualPath("/") == Ok("/")
  {
    SegmentsOfRender([]);
    CanonicalIsFixpoint("/");
  }

  /** On a canonical path inside a valid mount (an empty mount path is "/") all services compute the same inner path:
      the one canonical path that merges with the mount to give the virtual path back. A refresh does so if and only if
      what it takes for the mount path, from a mount row or from a mount node, is the source's. */
  lemma AllInnerPathsAgree(source: Mounts.Source, sources: Locators.Sources, target: Node, mountRow: Option<string>,
                           path: string, inner: string)
    requires NormalizeVirtualPath(source.mountPath).Ok?
    requires source.id in sources && sources[source.id] == source
    requires target.path == path && IsCanonical(path) && IsCanonical(inner)
    requires MergeMountAndInnerPath(NormalizeVirtualPath(source.mountPath).value, inner) == path
    ensures LegacyInnerPath(source.mountPath, path) == Some(inner)
    ensures ShareInnerPath(source.mountPath, path) == Ok(inner)
    ensures AclInnerPath(source.mountPath, path) == inner
    ensures !Acl.OutsideMount(source.mountPath, path) && Acl.MountInnerPath(source.mountPath, path) == inner
    ensures CommitInnerParentPath("", source.mountPath, path) == Ok(inner)
    ensures Locators.MetadataNodeInnerPath(sources, source.id, path) == Ok(inner)
    ensures RefreshService.RemoteParentPath(target, mountRow, source) == Ok(inner) <==>
            RefreshKnowsMount(target, mountRow, source)
  {
    CanonicalIsFixpoint(path);
    CanonicalIsFixpoint(inner);
    InnerUnderRoot(path);
    assert TrimSpace("") == "";
    EmptyMount(source.mountPath, inner);
    RefreshAnswers(source, target, mountRow, inner);
    var own := RefreshService.OwnMountPath(target, mountRow);
    var mount := NormalizeVirtualPath(source.mountPath).value;
    if own != "" && NormalizeVirtualPath(own).Ok? { OneMountForInner(mount, NormalizeVirtualPath(own).value, inner); }
    hide NormalizeVirtualPath, IsSubPath, IsCanonical, MergeMountAndInnerPath, TrimSpace,
         RefreshService.RemoteParentPath;
    Mounts.InnerIsTheInverseOfMerge(mount, path, inner);
    if mount != "/" { CutStartsWithSlash(mount, path); }
  }

  /** Inner path and virtual path determine the mount. */
  lemma OneMountForInner(mount: string, other: string, inner: string)
    requires IsCanonical(mount) && IsCanonical(other) && IsCanonical(inner)
    ensures MergeMountAndInnerPath(mount, inner) == MergeMountAndInnerPath(other, inner) ==> mount == other
  {
    Mounts.MergeIsConcat(mount, inner);
    Mounts.MergeIsConcat(other, inner);
    CanonicalSegments(mount);
    CanonicalSegments(other);
    var m, o, i := Segments(mount), Segments(other), Segments(inner);
    assert m == (m + i)[..|m| + |i| - |i|] && o == (o + i)[..|o| + |i| - |i|];
  }

  /** A blank mount path that normalizes is empty, and means the root. */
  lemma EmptyMount(mountPath: string, inner: string)
    requires NormalizeVirtualPath(mountPath).Ok? && IsCanonical(inner)
    ensures TrimSpace(mountPath) == "" ==> mountPath == ""
    ensures mountPath == "" ==> NormalizeVirtualPath(mountPath).value == "/"
                                && MergeMountAndInnerPath("/", inner) == inner
  {
    if mountPath != "" {
      assert mountPath[0] == '/' && !IsSpace('/');
      TrimRightFixed(mountPath);
    } else {
      SegmentsOfRender([]);
      CanonicalIsFixpoint(inner);
    }
  }

  /** Outside the mount four of them say so, each in its own way. The commit and one of the evaluator's two do not: they
      answer with the whole virtual path. A refresh does unless a mount row or the target itself tells it another mount
      that encloses the path; then it answers with the inner path there. */
  lemma OutsideTheMount(source: Mounts.Source, sources: Locators.Sources, target: Node, mountRow: Option<string>,
                        path: string)
    requires NormalizeVirtualPath(source.mountPath).Ok?
    requires source.id in sources && sources[source.id] == source
    requires target.path == path && IsCanonical(path)
    requires forall inner | IsCanonical(inner) ::
               MergeMountAndInnerPath(NormalizeVirtualPath(source.mountPath).value, inner) != path
    ensures LegacyInnerPath(source.mountPath, path) == None
    ensures ShareInnerPath(source.mountPath, path) == Err(FileNotFound)
    ensures Acl.OutsideMount(source.mountPath, path)
    ensures Locators.MetadataNodeInnerPath(sources, source.id, path) == Err(PathInvalid)
    ensures CommitInnerParentPath("", source.mountPath, path) == Ok(path)
    ensures AclInnerPath(source.mountPath, path) == path
    ensures
      var own := RefreshService.OwnMountPath(target, mountRow);
      var answer := RefreshService.RemoteParentPath(target, mountRow, source);
      && (forall inner | IsCanonical(inner) ::
            answer == Ok(inner) <==> own != "" && NormalizeVirtualPath(own).Ok?
                                     && MergeMountAndInnerPath(NormalizeVirtualPath(own).value, inner) == path)
      && (answer.Ok? ==> IsCanonical(answer.value)) && (answer.Err? ==> answer.error == PathInvalid)
  {
    assert TrimSpace("") == "";
    CanonicalIsFixpoint(path);
    var mount := NormalizeVirtualPath(source.mountPath).value;
    EmptyMount(source.mountPath, path);
    if IsSubPath(mount, path) { Mounts.InnerOfSubPath(mount, path); }
    assert !IsSubPath(mount, path);
    RefreshAnswers(source, target, mountRow, path);
    hide NormalizeVirtualPath, IsSubPath, IsCanonical, MergeMountAndInnerPath, TrimSpace,
         RefreshService.RemoteParentPath;
    forall inner | IsCanonical(inner)
      ensures
        var own := RefreshService.OwnMountPath(target, mountRow);
        RefreshService.RemoteParentPath(target, mountRow, source) == Ok(inner) <==>
        own != "" && NormalizeVirtualPath(own).Ok?
        && MergeMountAndInnerPath(NormalizeVirtualPath(own).value, inner) == path
    {
      RefreshAnswers(source, target, mountRow, inner);
    }
  }
}
