/** Where a commit puts a file, and what it writes about it, in terms of the request alone. */
module CommitPlaces {
  import opened Common
  import opened Text
  import opened Paths
  import opened Store
  import opened Tree
  import opened Repositories
  import opened DirChains
  import opened Commit
  import InnerPaths
  import LocatorSteps
  import MetadataVfs
  import Mounts

  /** `parent` is the directory of what the request gives as object path. */
  ghost predicate IsObjectParent(objectPath: string, parent: string) {
    && NormalizeVirtualPath(objectPath).Ok? && IsCanonical(parent)
    && if NormalizeVirtualPath(objectPath).value == "/" then parent == "/"
       else exists name :: CleanSegment(name) && NormalizeVirtualPath(objectPath).value == JoinVirtualPath(parent, name)
  }

  /** The directory the request means: the virtual parent it names; else the resolved inner parent, below the mount;
      else the directory of the object path, below the mount. */
  ghost predicate IsRequestedParent(req: CommitRequest, directory: string) {
    if TrimSpace(req.virtualParentPath) != "" then NormalizeVirtualPath(req.virtualParentPath) == Ok(directory)
    else
      && req.source.Some? && directory != ""
      && var mount, inner := req.source.value.mountPath, req.resolvedInnerParentPath;
         if TrimSpace(inner) != "" && MergeMountAndInnerPath(mount, inner) != ""
         then directory == MergeMountAndInnerPath(mount, inner)
         else
           && TrimSpace(req.objectPath) != ""
           && exists parent ::
                IsObjectParent(req.objectPath, parent) && directory == MergeMountAndInnerPath(mount, parent)
  }

  /** Row and object carry what the request says about the file. */
  ghost predicate WrittenAsAsked(req: CommitRequest, sanitize: Json -> Json, guessMime: string -> string, row: Node,
                                 obj: StorageObject) {
    && row.kind == File && row.name == req.filename && !row.isDeleted && row.syncState == Indexed
    && row.providerItemID == None && row.providerParentID == None
    && row.size == obj.size == (if req.size < 0 then 0 else req.size)
    && row.etag == obj.etag == req.etag && row.checksum == obj.checksum == req.checksum
    && row.mimeType == obj.mimeType
       == (if TrimSpace(req.mimeType) != "" then TrimSpace(req.mimeType) else guessMime(req.filename))
    && row.sourceID == Some(obj.sourceID) && obj.status == Available && obj.sourceID != 0 && obj.driverType != ""
    && (req.sourceID != 0 ==> obj.sourceID == req.sourceID)
    && (req.sourceID == 0 ==> req.source.Some? && obj.sourceID == req.source.value.id)
    && (TrimSpace(req.driverType) != "" ==> obj.driverType == TrimSpace(req.driverType))
    && (TrimSpace(req.driverType) == "" ==> req.source.Some? && obj.driverType == req.source.value.driverType)
    && (TrimSpace(req.locatorType) != "" ==> obj.locatorType == TrimSpace(req.locatorType))
    && (TrimSpace(req.locatorType) == "" && obj.driverType == "local" ==> obj.locatorType == "local_path")
    && (TrimSpace(req.locatorType) == "" && obj.driverType != "local" ==> obj.locatorType == "driver_path")
    && (TrimSpace(req.locatorType) != "" && req.locator.Some? ==> obj.locator == sanitize(req.locator.value))
    && ((TrimSpace(req.locatorType) == "" || req.locator.None?) && TrimSpace(req.objectPath) != "" ==>
          NormalizeVirtualPath(req.objectPath).Ok?
          && obj.locator == map["path" := NormalizeVirtualPath(req.objectPath).value])
    && ((TrimSpace(req.locatorType) == "" || req.locator.None?) && TrimSpace(req.objectPath) == ""
        && TrimSpace(req.resolvedInnerParentPath) != "" ==>
          && NormalizeVirtualPath(req.resolvedInnerParentPath).Ok?
          && var path := JoinVirtualPath(NormalizeVirtualPath(req.resolvedInnerParentPath).value, req.filename);
             NormalizeVirtualPath(path).Ok? && obj.locator == map["path" := NormalizeVirtualPath(path).value])
  }

  lemma ObjectParent(objectPath: string)
    requires SplitParentName(objectPath).Ok?
    ensures IsObjectParent(objectPath, SplitParentName(objectPath).value.0)
  {
    var path := NormalizeVirtualPath(objectPath).value;
    if path == "/" {
      InnerPaths.RootIsCanonical();
    } else {
      CanonicalSegments(path);
      var segs := Segments(path);
      assert segs != [];
      var front, name := segs[..|segs| - 1], segs[|segs| - 1];
      assert front + [name] == segs;
      ParentOf(path, front, name);
    }
  }

  lemma ParentOf(path: string, front: seq<string>, name: string)
    requires IsCanonical(path) && Segments(path) == front + [name]
    ensures CleanSegment(name) && IsCanonical(DirOf(path)) && path == JoinVirtualPath(DirOf(path), name)
  {
    CanonicalSegments(path);
    var segs := Segments(path);
    assert segs[|front|] == name && forall i | 0 <= i < |front| :: front[i] == segs[i];
    hide Clean, Segments, DirOf, Render, HasDotDot;
    SegmentsOfRender(front);
    DotDotOfRender(front);
    JoinIsRender(Render(front), name);
    DirOfJoin(Render(front), name);
  }

  /** The planned directory is the requested one. */
  lemma PlannedParent(req: CommitRequest)
    requires VirtualParentPath(req).Ok?
    ensures IsRequestedParent(req, VirtualParentPath(req).value)
  {
    if SplitParentName(req.objectPath).Ok? { ObjectParent(req.objectPath); }
    hide NormalizeVirtualPath, MergeMountAndInnerPath, TrimSpace, IsObjectParent, SplitParentName;
  }

  /** A planned commit writes what the request says, where the request says. */
  lemma CommitDoesAsAsked(nodes: Nodes, objects: Objects, nodes': Nodes, objects': Objects, req: CommitRequest,
                          sanitize: Json -> Json, guessMime: string -> string, root: Id, fileID: Id, objectID: Id)
    requires PlanOf(req, sanitize, guessMime).Ok? && Ready(nodes)
    requires Committed(nodes, objects, nodes', objects', PlanOf(req, sanitize, guessMime).value, root, fileID, objectID)
    ensures exists directory ::
              && IsRequestedParent(req, directory)
              && LiveAt(nodes', fileID, JoinVirtualPath(directory, req.filename))
    ensures objectID in objects' && nodes'[fileID].objectID == Some(objectID)
    ensures WrittenAsAsked(req, sanitize, guessMime, nodes'[fileID], objects'[objectID])
  {
    var plan := PlanOf(req, sanitize, guessMime).value;
    PlanIsValid(req, sanitize, guessMime);
    PlanFields(req, sanitize, guessMime);
    hide Ready, PlanOf, IsRequestedParent, ValidPlan, TrimSpace, Prepared, JoinVirtualPath, NormalizeVirtualPath,
         MergeMountAndInnerPath;
    CommitPlacesTheFile(nodes, objects, nodes', objects', plan, root, fileID, objectID);
    WrittenRow(nodes, objects, nodes', objects', plan, root, fileID, objectID);
  }

  lemma PlanFields(req: CommitRequest, sanitize: Json -> Json, guessMime: string -> string)
    requires PlanOf(req, sanitize, guessMime).Ok?
    ensures
      var plan := PlanOf(req, sanitize, guessMime).value;
      && IsRequestedParent(req, plan.virtualParentPath) && plan.filename == req.filename
      && forall row: Node | IsFileOf(plan, row) :: WrittenAsAsked(req, sanitize, guessMime, row, plan.obj)
  {
    PlannedParent(req);
    hide VirtualParentPath, IsRequestedParent, NormalizeVirtualPath, TrimSpace, ValidName, JoinVirtualPath, IsSubPath;
  }

  /** A row with the columns of the planned file. */
  predicate IsFileOf(plan: CommitPlan, row: Node) {
    && row.kind == File && row.name == plan.filename && !row.isDeleted && row.syncState == Indexed
    && row.providerItemID == None && row.providerParentID == None
    && row.size == plan.obj.size && row.mimeType == plan.obj.mimeType && row.etag == plan.obj.etag
    && row.checksum == plan.obj.checksum && row.sourceID == Some(plan.obj.sourceID)
  }

  lemma WrittenRow(nodes: Nodes, objects: Objects, nodes': Nodes, objects': Objects, plan: CommitPlan,
                   root: Id, fileID: Id, objectID: Id)
    requires Committed(nodes, objects, nodes', objects', plan, root, fileID, objectID)
    ensures fileID in nodes' && IsFileOf(plan, nodes'[fileID])
  {
    hide Prepared, UpsertTarget, KeyTarget, ChildPath;
  }

  /** The file is on the mount its directory is on. */
  lemma OnTheMountOfItsParent(nodes: Nodes, objects: Objects, nodes': Nodes, objects': Objects, plan: CommitPlan,
                              root: Id, fileID: Id, objectID: Id)
    requires ValidPlan(plan) && Ready(nodes)
    requires Committed(nodes, objects, nodes', objects', plan, root, fileID, objectID)
    ensures fileID in nodes' && nodes'[fileID].parentID.Some? && nodes'[fileID].parentID.value in nodes'
    ensures nodes'[fileID].mountID == nodes'[nodes'[fileID].parentID.value].mountID
  {
    hide Sound, Segments, ChildPath, Settled, Prepared, IsCanonical, JoinVirtualPath, AtOrBelow, Rooted, Linked, Ready,
         CommitPolicy, OnlyOnTheWay;
    CommittedShape(nodes, objects, nodes', objects', plan, root, fileID, objectID);
  }

  /** New directories are on the mount of their parents. */
  ghost predicate Inherits(p: Policy) {
    forall id: Id, n: Node, seg: string, path: string :: p.create(id, n, seg, path).mountID == n.mountID
  }

  /** Row `k` is on the mount its parent is on. */
  ghost predicate OnParentsMount(nodes: Nodes, k: Id)
    requires k in nodes
  {
    nodes[k].parentID.Some? && nodes[k].parentID.value in nodes
    && nodes[k].mountID == nodes[nodes[k].parentID.value].mountID
  }

  lemma {:induction false} ChainInherits(p: Policy, nodes: Nodes, parent: Id, segs: seq<string>)
    requires Standing(p, nodes, parent) && CleanSegments(segs) && Inherits(p)
    ensures Chain(p, nodes, parent, segs).Some? ==>
              var nodes' := Chain(p, nodes, parent, segs).value.0;
              forall k | k in nodes' && k !in nodes :: OnParentsMount(nodes', k)
    decreases |segs|
  {
    hide Standing, Linked, NodeOk, CleanSegment, ChildPath, WellFormed, Settled, PathBelow, AtOrBelow, Rooted;
    StandsOn(p, nodes, parent);
    if segs != [] && EnsureDir(p, nodes, parent, segs[0]).Some? {
      var (mid, k) := EnsureDir(p, nodes, parent, segs[0]).value;
      EnsureDirIsOneDir(p, nodes, parent, segs[0]);
      NewDirInherits(p, nodes, parent, segs[0]);
      hide EnsureDir, Sound, Inherits, OneDir;
      ChainInherits(p, mid, k, segs[1..]);
      ChainKeeps(p, mid, k, segs[1..]);
      if Chain(p, mid, k, segs[1..]).Some? { MountsStay(mid, Chain(p, mid, k, segs[1..]).value.0, nodes); }
    }
  }

  lemma NewDirInherits(p: Policy, nodes: Nodes, parent: Id, seg: string)
    requires Standing(p, nodes, parent) && CleanSegment(seg) && Inherits(p) && EnsureDir(p, nodes, parent, seg).Some?
    requires OneDir(p, nodes, parent, seg, EnsureDir(p, nodes, parent, seg).value.0,
                    EnsureDir(p, nodes, parent, seg).value.1)
    ensures
      var mid := EnsureDir(p, nodes, parent, seg).value.0;
      forall j | j in mid && j !in nodes :: OnParentsMount(mid, j)
  {
    hide Linked, Sound, ChildPath;
  }

  /** Rows that were on their parents' mount stay there while no row changes parent or mount. */
  lemma MountsStay(mid: Nodes, nodes': Nodes, nodes: Nodes)
    requires mid.Keys <= nodes'.Keys
    requires forall k | k in mid :: nodes'[k].parentID == mid[k].parentID && nodes'[k].mountID == mid[k].mountID
    requires forall k | k in mid && k !in nodes :: OnParentsMount(mid, k)
    requires forall k | k in nodes' && k !in mid :: OnParentsMount(nodes', k)
    ensures forall k | k in nodes' && k !in nodes :: OnParentsMount(nodes', k)
  {
  }

  /** Every row a commit adds below the root is on the mount of its parent. */
  lemma NewRowsAreOnParentsMount(nodes: Nodes, objects: Objects, nodes': Nodes, objects': Objects, plan: CommitPlan,
                                 root: Id, fileID: Id, objectID: Id, k: Id)
    requires ValidPlan(plan) && Ready(nodes)
    requires Committed(nodes, objects, nodes', objects', plan, root, fileID, objectID)
    requires k in nodes' && k !in nodes && k != root
    ensures OnParentsMount(nodes', k)
  {
    OnTheMountOfItsParent(nodes, objects, nodes', objects', plan, root, fileID, objectID);
    PreparedInherits(plan, nodes, root);
    hide Sound, Segments, ChildPath, Settled, Prepared, IsCanonical, JoinVirtualPath, AtOrBelow, Rooted, Linked, Ready,
         CommitPolicy, OnlyOnTheWay;
    CommittedShape(nodes, objects, nodes', objects', plan, root, fileID, objectID);
    CommitPlacesTheFile(nodes, objects, nodes', objects', plan, root, fileID, objectID);
    if k != fileID {
      var mid := Prepared(plan, nodes, root).value.0;
      ParentIsNotTheFile(mid, fileID, FileRow(plan, Prepared(plan, nodes, root).value.1,
                                              mid[Prepared(plan, nodes, root).value.1], objectID), k);
    }
  }

  lemma ParentIsNotTheFile(mid: Nodes, fileID: Id, row: Node, k: Id)
    requires k in mid && k != fileID && OnParentsMount(mid, k) && mid[k].parentID != Some(fileID)
    ensures OnParentsMount(mid[fileID := row], k)
  {
  }

  lemma PreparedInherits(plan: CommitPlan, nodes: Nodes, root: Id)
    requires ValidPlan(plan) && Ready(nodes) && UpsertTarget(nodes, root, "/") && Prepared(plan, nodes, root).Some?
    ensures
      var mid := Prepared(plan, nodes, root).value.0;
      forall k | k in mid && k !in nodes && k != root :: OnParentsMount(mid, k)
  {
    var p := CommitPolicy(plan.source, plan.obj.sourceID);
    assert Inherits(p);
    CommitPolicyIsSound(plan.source, plan.obj.sourceID);
    RootStands(nodes, root, p);
    PlanSegments(plan);
    hide Standing, CommitPolicy, Segments, Ready, IsCanonical, UpsertTarget, Inherits, OnParentsMount;
    ChainInherits(p, nodes[root := MetadataVfs.RootNode()], root, Segments(plan.virtualParentPath));
  }

  // ---- Which requests can be planned ----------------------------------------------------------

  /** A directory is requested exactly if the service finds one, and then it is that one. */
  lemma RequestedIsPlanned(req: CommitRequest, directory: string)
    requires IsRequestedParent(req, directory)
    ensures VirtualParentPath(req) == Ok(directory)
  {
    if TrimSpace(req.virtualParentPath) == "" {
      forall parent | IsObjectParent(req.objectPath, parent)
        ensures SplitParentName(req.objectPath).Ok? && SplitParentName(req.objectPath).value.0 == parent
      {
        OneObjectParent(req.objectPath, parent);
      }
    }
    hide NormalizeVirtualPath, MergeMountAndInnerPath, TrimSpace, IsObjectParent, SplitParentName;
  }

  lemma OneObjectParent(objectPath: string, parent: string)
    requires IsObjectParent(objectPath, parent)
    ensures SplitParentName(objectPath).Ok? && SplitParentName(objectPath).value.0 == parent
  {
    var path := NormalizeVirtualPath(objectPath).value;
    hide NormalizeVirtualPath, IsCanonical, DirOf, BaseOf, JoinVirtualPath, CleanSegment;
    if path != "/" {
      var name :| CleanSegment(name) && path == JoinVirtualPath(parent, name);
      CanonicalIsClean(parent);
      DirOfJoin(parent, name);
    }
  }

  lemma CanonicalIsClean(path: string)
    requires IsCanonical(path)
    ensures IsClean(path)
  {
  }

  /** Without a resolved inner parent there always is one. */
  lemma InnerParentExists(req: CommitRequest, mountPath: string, directory: string)
    requires IsCanonical(directory)
    ensures
      var inner := InnerPaths.CommitInnerParentPath(req.resolvedInnerParentPath, mountPath, directory);
      && (inner.Ok? <==> TrimSpace(req.resolvedInnerParentPath) == ""
                         || NormalizeVirtualPath(req.resolvedInnerParentPath).Ok?)
      && (inner.Ok? ==> IsCanonical(inner.value))
  {
    CanonicalIsFixpoint(directory);
    var mount := NormalizeVirtualPath(mountPath);
    if mount.Ok? && IsSubPath(mount.value, directory) {
      Mounts.InnerOfSubPath(mount.value, directory);
      CanonicalIsFixpoint(Mounts.InnerPathUnder(mount.value, directory));
    }
    hide IsSubPath, IsCanonical, TrimSpace, Mounts.InnerPathUnder;
  }

  /** A commit is planned if and only if the name is valid, source and driver are known, a directory is requested, and
      the paths in the source are valid. */
  lemma PlannedIff(req: CommitRequest, sanitize: Json -> Json, guessMime: string -> string)
    ensures PlanOf(req, sanitize, guessMime).Ok? <==>
              && ValidName(req.filename)
              && (req.sourceID != 0 || (req.source.Some? && req.source.value.id != 0))
              && (TrimSpace(req.driverType) != "" || (req.source.Some? && req.source.value.driverType != ""))
              && (exists directory :: IsRequestedParent(req, directory))
              && (TrimSpace(req.resolvedInnerParentPath) != "" ==>
                    NormalizeVirtualPath(req.resolvedInnerParentPath).Ok?)
              && (if TrimSpace(req.objectPath) != "" then NormalizeVirtualPath(req.objectPath).Ok?
                  else !HasDotDot(req.filename))
  {
    hide IsRequestedParent, NormalizeVirtualPath, TrimSpace, ValidName, JoinVirtualPath, IsSubPath, VirtualParentPath,
         HasDotDot, InnerPaths.CommitInnerParentPath, IsCanonical;
    if VirtualParentPath(req).Ok? {
      var directory, mountPath := VirtualParentPath(req).value,
        if req.source.Some? then req.source.value.mountPath else "";
      PlannedParent(req);
      VirtualParentIsCanonical(req);
      InnerParentExists(req, mountPath, directory);
      var inner := InnerPaths.CommitInnerParentPath(req.resolvedInnerParentPath, mountPath, directory);
      if inner.Ok? && ValidName(req.filename) { LocatorSteps.CanonicalChild(inner.value, req.filename); }
    } else if directory :| IsRequestedParent(req, directory) {
      RequestedIsPlanned(req, directory);
    }
  }
}
