/** Committing a file: what a commit request resolves to, and what the commit leaves in the tables. */
module Commit {
  import opened Common
  import opened Text
  import opened Paths
  import opened Store
  import opened Tree
  import opened Repositories
  import opened DirChains
  import InnerPaths
  import MetadataVfs
  import Mounts
  import TreeRuns

  datatype CommitRequest = CommitRequest(source: Option<Mounts.Source>, sourceID: Id, driverType: string,
                                         virtualParentPath: string, resolvedInnerParentPath: string, filename: string,
                                         objectPath: string, locatorType: string, locator: Option<Json>,
                                         size: int, mimeType: string, etag: string, checksum: string)

  /** A request whose paths and defaults are worked out; `obj` is the storage object to write. */
  datatype CommitPlan = CommitPlan(source: Option<Mounts.Source>, virtualParentPath: string, filename: string,
                                   obj: StorageObject)

  // ---- From the request to the plan -----------------------------------------------------------

  /** `metadataCommitVirtualParentPath`. */
  function VirtualParentPath(req: CommitRequest): Result<string> {
    if TrimSpace(req.virtualParentPath) != "" then NormalizeVirtualPath(req.virtualParentPath)
    else if req.source.None? then Err(PathInvalid)
    else
      var fromInner := if TrimSpace(req.resolvedInnerParentPath) != ""
                       then MergeMountAndInnerPath(req.source.value.mountPath, req.resolvedInnerParentPath) else "";
      if fromInner != "" then Ok(fromInner)
      else if TrimSpace(req.objectPath) == "" then Err(PathInvalid)
      else match SplitParentName(req.objectPath)
        case Err(e) => Err(e)
        case Ok((parent, _)) =>
          var merged := MergeMountAndInnerPath(req.source.value.mountPath, parent);
          if merged != "" then Ok(merged) else Err(PathInvalid)
  }

  lemma VirtualParentIsCanonical(req: CommitRequest)
    ensures VirtualParentPath(req).Ok? ==> IsCanonical(VirtualParentPath(req).value)
  {
    if req.source.Some? {
      MergedIsCanonical(req.source.value.mountPath, req.resolvedInnerParentPath);
      if SplitParentName(req.objectPath).Ok? {
        MergedIsCanonical(req.source.value.mountPath, SplitParentName(req.objectPath).value.0);
      }
    }
  }

  lemma MergedIsCanonical(mount: string, inner: string)
    ensures MergeMountAndInnerPath(mount, inner) != "" ==> IsCanonical(MergeMountAndInnerPath(mount, inner))
  {
    var m, i := NormalizeVirtualPath(mount), NormalizeVirtualPath(inner);
    if m.Ok? && i.Ok? {
      Mounts.MergeIsConcat(m.value, i.value);
      CanonicalIsFixpoint(m.value);
      CanonicalIsFixpoint(i.value);
    }
  }

  /** All checks before the transaction, in order. `sanitize` redacts sensitive members of a given
      locator, `guessMime` is the MIME table of the runtime. */
  function PlanOf(req: CommitRequest, sanitize: Json -> Json, guessMime: string -> string): Result<CommitPlan> {
    var sourceID := if req.sourceID == 0 && req.source.Some? then req.source.value.id else req.sourceID;
    var driverType := if TrimSpace(req.driverType) == "" && req.source.Some? then req.source.value.driverType
                      else TrimSpace(req.driverType);
    if !ValidName(req.filename) then Err(FileNameInvalid)
    else if sourceID == 0 || driverType == "" then Err(PathInvalid)
    else match VirtualParentPath(req)
      case Err(e) => Err(e)
      case Ok(virtualParent) =>
        match InnerPaths.CommitInnerParentPath(req.resolvedInnerParentPath,
                                               if req.source.Some? then req.source.value.mountPath else "",
                                               virtualParent)
        case Err(e) => Err(e)
        case Ok(innerParent) =>
          match NormalizeVirtualPath(if TrimSpace(req.objectPath) != "" then req.objectPath
                                     else JoinVirtualPath(innerParent, req.filename))
          case Err(e) => Err(e)
          case Ok(objectPath) =>
            var kind := TrimSpace(req.locatorType);
            var given := kind != "" && req.locator.Some?;
            Ok(CommitPlan(req.source, virtualParent, req.filename,
                 StorageObject(sourceID, driverType,
                   if kind != "" then kind else if driverType == "local" then "local_path" else "driver_path",
                   if given then sanitize(req.locator.value) else map["path" := objectPath],
                   if req.size < 0 then 0 else req.size, req.etag, req.checksum,
                   if TrimSpace(req.mimeType) != "" then TrimSpace(req.mimeType) else guessMime(req.filename),
                   Available)))
  }

  /** A plan a commit can be asked to carry out. */
  ghost predicate ValidPlan(plan: CommitPlan) {
    IsCanonical(plan.virtualParentPath) && ValidName(plan.filename) && plan.obj.sourceID != 0
  }

  lemma PlanIsValid(req: CommitRequest, sanitize: Json -> Json, guessMime: string -> string)
    requires PlanOf(req, sanitize, guessMime).Ok?
    ensures ValidPlan(PlanOf(req, sanitize, guessMime).value)
  {
    VirtualParentIsCanonical(req);
    hide VirtualParentPath, NormalizeVirtualPath, TrimSpace;
  }

  // ---- Directories on the way -----------------------------------------------------------------

  /** `metadataCommitDirectoryKind`. */
  function DirectoryKind(source: Option<Mounts.Source>, path: string): Kind {
    if source.None? || TrimSpace(source.value.mountPath) == "" then Dir
    else match NormalizeVirtualPath(source.value.mountPath)
      case Err(_) => VirtualDir
      case Ok(mountPath) => if path == mountPath then Mount else if IsSubPath(mountPath, path) then Dir else VirtualDir
  }

  /** `metadataCommitDirectorySourceID` for a source id that is not 0. */
  function DirectorySource(source: Option<Mounts.Source>, sourceID: Id, path: string): Option<Id> {
    if source.None? || TrimSpace(source.value.mountPath) == "" then Some(sourceID)
    else match NormalizeVirtualPath(source.value.mountPath)
      case Err(_) => None
      case Ok(mountPath) => if IsSubPath(mountPath, path) then Some(sourceID) else None
  }

  function CommitPolicy(source: Option<Mounts.Source>, sourceID: Id): Policy {
    Policy((id: Id, n: Node, path: string) => n.sourceID.Some? && DirectorySource(source, sourceID, path).Some?
                                              && n.sourceID != DirectorySource(source, sourceID, path),
           (n: Node, path: string) => n.(kind := DirectoryKind(source, path),
                                         sourceID := DirectorySource(source, sourceID, path),
                                         syncState := Indexed),
           (id: Id, parent: Node, seg: string, path: string) =>
             Node(Some(id), seg, path, DirectoryKind(source, path), parent.mountID, None,
                  DirectorySource(source, sourceID, path), None, None, 0, "inode/directory", "", "", Indexed, false))
  }

  lemma CommitPolicyIsSound(source: Option<Mounts.Source>, sourceID: Id)
    ensures Sound(CommitPolicy(source, sourceID))
  {
    hide NormalizeVirtualPath, IsSubPath, TrimSpace;
  }

  // ---- The effect of a commit -----------------------------------------------------------------

  function FileRow(plan: CommitPlan, parentID: Id, parent: Node, objectID: Id): Node {
    Node(Some(parentID), plan.filename, ChildPath(parent.path, plan.filename), File, parent.mountID, Some(objectID),
         Some(plan.obj.sourceID), None, None, plan.obj.size, plan.obj.mimeType, plan.obj.etag, plan.obj.checksum,
           Indexed, false)
  }

  ghost function Prepared(plan: CommitPlan, nodes: Nodes, root: Id): Option<(Nodes, Id)> {
    Chain(CommitPolicy(plan.source, plan.obj.sourceID), nodes[root := MetadataVfs.RootNode()], root,
          Segments(plan.virtualParentPath))
  }

  /** The commit went through: root and ancestors ensured, the object upserted by its key, the file row
      by its path. */
  ghost predicate Committed(nodes: Nodes, objects: Objects, nodes': Nodes, objects': Objects, plan: CommitPlan,
                            root: Id, fileID: Id, objectID: Id) {
    && UpsertTarget(nodes, root, "/") && Prepared(plan, nodes, root).Some?
    && var (mid, parent) := Prepared(plan, nodes, root).value;
       && parent in mid
       && var row := FileRow(plan, parent, mid[parent], objectID);
          && UpsertTarget(mid, fileID, row.path) && (fileID in mid ==> mid[fileID].kind == File)
          && nodes' == mid[fileID := row]
          && KeyTarget(objects, objectID, KeyOf(plan.obj)) && objects' == objects[objectID := plan.obj]
  }

  lemma RootStands(nodes: Nodes, root: Id, p: Policy)
    requires Ready(nodes) && UpsertTarget(nodes, root, "/") && Sound(p)
    ensures Standing(p, nodes[root := MetadataVfs.RootNode()], root)
    ensures WellFormedOrEmpty(nodes) ==> WellFormed(nodes[root := MetadataVfs.RootNode()])
  {
    hide Sound;
    if Linked(nodes) {
      var r :| Live(nodes, r) && nodes[r].parentID == None;
      assert NodeOk(nodes, r) && LiveAt(nodes, r, "/");
      TreeRuns.OverwritingTheRoot(nodes, root);
    } else {
      TreeRuns.OnlyTheRoot(nodes, root);
    }
  }

  lemma PlanSegments(plan: CommitPlan)
    requires ValidPlan(plan)
    ensures CleanSegments(Segments(plan.virtualParentPath))
    ensures PathBelow("/", Segments(plan.virtualParentPath)) == plan.virtualParentPath
  {
    CanonicalSegments(plan.virtualParentPath);
    assert [] + Segments(plan.virtualParentPath) == Segments(plan.virtualParentPath);
    PathBelowRoot([], Segments(plan.virtualParentPath));
  }

  /** What the ancestor walk of a commit leaves. */
  lemma PreparedShape(plan: CommitPlan, nodes: Nodes, root: Id)
    requires ValidPlan(plan) && Ready(nodes) && UpsertTarget(nodes, root, "/") && Prepared(plan, nodes, root).Some?
    ensures
      var p := CommitPolicy(plan.source, plan.obj.sourceID);
      var (mid, parent) := Prepared(plan, nodes, root).value;
      && Standing(p, mid, parent) && LiveAt(mid, parent, plan.virtualParentPath)
      && LiveAt(mid, root, "/") && mid[root] == MetadataVfs.RootNode()
      && OnlyOnTheWay(nodes[root := MetadataVfs.RootNode()], mid, "/", plan.virtualParentPath)
      && Settled(p, mid, "/", Segments(plan.virtualParentPath))
      && (WellFormedOrEmpty(nodes) ==> WellFormed(mid))
  {
    var p := CommitPolicy(plan.source, plan.obj.sourceID);
    CommitPolicyIsSound(plan.source, plan.obj.sourceID);
    RootStands(nodes, root, p);
    PlanSegments(plan);
    var start := nodes[root := MetadataVfs.RootNode()];
    assert LiveAt(start, root, "/");
    hide Standing, CommitPolicy, Segments, Settled, IsCanonical, Ready, UpsertTarget, WellFormed, WellFormedOrEmpty;
    ChainKeeps(p, start, root, Segments(plan.virtualParentPath));
    var (mid, parent) := Prepared(plan, nodes, root).value;
    assert mid[root] == start[root];
  }

  /** A commit keeps the tree linked and, if it was, well formed, and the object keys unique. */
  lemma CommitKeepsTheTree(nodes: Nodes, objects: Objects, nodes': Nodes, objects': Objects, plan: CommitPlan,
                           root: Id, fileID: Id, objectID: Id)
    requires ValidPlan(plan) && Ready(nodes) && UniqueKeys(objects)
    requires Committed(nodes, objects, nodes', objects', plan, root, fileID, objectID)
    ensures Linked(nodes') && UniqueKeys(objects')
    ensures WellFormedOrEmpty(nodes) ==> WellFormed(nodes')
  {
    PreparedShape(plan, nodes, root);
    hide Sound, Segments, NodeOk, ChildPath, Settled, Prepared, IsCanonical, Linked, WellFormedOrEmpty;
    var (mid, parent) := Prepared(plan, nodes, root).value;
    PutChildKeepsLinked(mid, parent, fileID, FileRow(plan, parent, mid[parent], objectID));
    if WellFormedOrEmpty(nodes) {
      PutChildKeepsWellFormed(mid, parent, fileID, FileRow(plan, parent, mid[parent], objectID));
    }
  }

  lemma FilePath(plan: CommitPlan, mid: Nodes, parent: Id)
    requires ValidPlan(plan) && LiveAt(mid, parent, plan.virtualParentPath) && Linked(mid)
    ensures ChildPath(mid[parent].path, plan.filename) == JoinVirtualPath(plan.virtualParentPath, plan.filename)
    ensures |ChildPath(mid[parent].path, plan.filename)| > |plan.virtualParentPath|
    ensures Rooted(plan.virtualParentPath) && Rooted(ChildPath(mid[parent].path, plan.filename))
    ensures AtOrBelow(plan.virtualParentPath, ChildPath(mid[parent].path, plan.filename))
  {
    assert NodeOk(mid, parent);
    ChildPathIsJoin(plan.virtualParentPath, plan.filename);
    ChildPathShape(plan.virtualParentPath, plan.filename);
    AtOrBelowChild(plan.virtualParentPath, plan.virtualParentPath, plan.filename);
  }

  /** The last step of a commit, seen from the prepared table. */
  lemma CommittedShape(nodes: Nodes, objects: Objects, nodes': Nodes, objects': Objects, plan: CommitPlan,
                       root: Id, fileID: Id, objectID: Id)
    requires ValidPlan(plan) && Ready(nodes)
    requires Committed(nodes, objects, nodes', objects', plan, root, fileID, objectID)
    ensures Prepared(plan, nodes, root).Some?
    ensures
      var (mid, parent) := Prepared(plan, nodes, root).value;
      var filePath := JoinVirtualPath(plan.virtualParentPath, plan.filename);
      && Linked(mid) && LiveAt(mid, parent, plan.virtualParentPath) && parent in mid
      && LiveAt(mid, root, "/") && mid[root] == MetadataVfs.RootNode()
      && UpsertTarget(mid, fileID, filePath) && nodes' == mid[fileID := FileRow(plan, parent, mid[parent], objectID)]
      && FileRow(plan, parent, mid[parent], objectID).path == filePath
      && |plan.virtualParentPath| < |filePath| && Rooted(plan.virtualParentPath) && Rooted(filePath)
      && AtOrBelow(plan.virtualParentPath, filePath) && AtOrBelow(filePath, filePath)
      && fileID != parent && fileID != root
      && (forall k: Id | Live(mid, k) && |mid[k].path| <= |plan.virtualParentPath| :: k != fileID)
      && OnlyOnTheWay(nodes[root := MetadataVfs.RootNode()], mid, "/", plan.virtualParentPath)
      && Settled(CommitPolicy(plan.source, plan.obj.sourceID), mid, "/", Segments(plan.virtualParentPath))
  {
    PreparedShape(plan, nodes, root);
    var (mid, parent) := Prepared(plan, nodes, root).value;
    FilePath(plan, mid, parent);
    assert AtOrBelow(ChildPath(mid[parent].path, plan.filename), ChildPath(mid[parent].path, plan.filename));
    hide Sound, Segments, ChildPath, Settled, Prepared, IsCanonical, JoinVirtualPath, NodeOk, OnlyOnTheWay, Ready,
         AtOrBelow, Rooted, WellFormed,
         WellFormedOrEmpty;
  }

  /** The file hangs below the requested parent, with its object; every row that changed lies at or above
      it. The root row is written afresh, without source and mount. */
  lemma CommitPlacesTheFile(nodes: Nodes, objects: Objects, nodes': Nodes, objects': Objects, plan: CommitPlan,
                            root: Id, fileID: Id, objectID: Id)
    requires ValidPlan(plan) && Ready(nodes)
    requires Committed(nodes, objects, nodes', objects', plan, root, fileID, objectID)
    ensures LiveAt(nodes', fileID, JoinVirtualPath(plan.virtualParentPath, plan.filename))
    ensures nodes'[fileID].kind == File && nodes'[fileID].objectID == Some(objectID)
    ensures objectID in objects' && objects'[objectID] == plan.obj
    ensures nodes'[fileID].parentID.Some? && LiveAt(nodes', nodes'[fileID].parentID.value, plan.virtualParentPath)
    ensures root in nodes' && nodes'[root] == MetadataVfs.RootNode()
    ensures nodes.Keys <= nodes'.Keys
    ensures forall k | k in nodes' && k != root && (k !in nodes || nodes'[k] != nodes[k]) ::
              AtOrBelow(nodes'[k].path, JoinVirtualPath(plan.virtualParentPath, plan.filename))
  {
    hide Sound, Segments, ChildPath, Settled, Prepared, IsCanonical, JoinVirtualPath, AtOrBelow, Rooted, Linked, Ready,
         CommitPolicy;
    CommittedShape(nodes, objects, nodes', objects', plan, root, fileID, objectID);
    var (mid, parent) := Prepared(plan, nodes, root).value;
    var filePath := JoinVirtualPath(plan.virtualParentPath, plan.filename);
    forall k | Live(mid, k) && AtOrBelow(mid[k].path, plan.virtualParentPath) ensures AtOrBelow(mid[k].path, filePath) {
      AboveTheFile(mid, k, plan.virtualParentPath, filePath);
    }
    assert LiveAt(nodes', parent, plan.virtualParentPath);
  }

  lemma AboveTheFile(mid: Nodes, k: Id, parentPath: string, filePath: string)
    requires Linked(mid) && Live(mid, k) && AtOrBelow(mid[k].path, parentPath)
    requires Rooted(parentPath) && Rooted(filePath) && AtOrBelow(parentPath, filePath)
    ensures AtOrBelow(mid[k].path, filePath)
  {
    assert NodeOk(mid, k);
    AtOrBelowTransitive(mid[k].path, parentPath, filePath);
  }

  /** On the way down every directory has the kind and source its place asks for: above the mount virtual
      directories without a source, at the mount the mount, below it directories of the source. */
  lemma CommitSettlesTheAncestors(nodes: Nodes, objects: Objects, nodes': Nodes, objects': Objects, plan: CommitPlan,
                                  root: Id, fileID: Id, objectID: Id, n: nat)
    requires ValidPlan(plan) && Ready(nodes)
    requires Committed(nodes, objects, nodes', objects', plan, root, fileID, objectID)
    requires 0 < n <= |Segments(plan.virtualParentPath)|
    ensures
      var path := Render(Segments(plan.virtualParentPath)[..n]);
      exists k: Id ::
        && LiveAt(nodes', k, path) && nodes'[k].syncState == Indexed
        && nodes'[k].kind == DirectoryKind(plan.source, path)
        && nodes'[k].sourceID == DirectorySource(plan.source, plan.obj.sourceID, path)
  {
    hide Segments, Settled, Prepared, IsCanonical, DirectoryKind, DirectorySource, Render, OnlyOnTheWay, Sound,
         Committed,
         Linked, Ready, JoinVirtualPath;
    CommittedShape(nodes, objects, nodes', objects', plan, root, fileID, objectID);
    var (mid, parent) := Prepared(plan, nodes, root).value;
    SettledDirectory(plan, mid, n);
    var path := Render(Segments(plan.virtualParentPath)[..n]);
    var k: Id :| LiveAt(mid, k, path) && mid[k].kind == DirectoryKind(plan.source, path)
             && mid[k].sourceID == DirectorySource(plan.source, plan.obj.sourceID, path) && mid[k].syncState == Indexed;
    assert k != fileID;
    assert LiveAt(nodes', k, path) && nodes'[k] == mid[k];
  }

  lemma SettledDirectory(plan: CommitPlan, mid: Nodes, n: nat)
    requires ValidPlan(plan) && 0 < n <= |Segments(plan.virtualParentPath)|
    requires Settled(CommitPolicy(plan.source, plan.obj.sourceID), mid, "/", Segments(plan.virtualParentPath))
    ensures
      var path := Render(Segments(plan.virtualParentPath)[..n]);
      && |path| <= |plan.virtualParentPath|
      && exists k: Id ::
           && LiveAt(mid, k, path) && mid[k].syncState == Indexed
           && mid[k].kind == DirectoryKind(plan.source, path)
           && mid[k].sourceID == DirectorySource(plan.source, plan.obj.sourceID, path)
  {
    hide Settled, Segments, IsCanonical, DirectoryKind, DirectorySource, PathBelow, Render;
    var p, segs := CommitPolicy(plan.source, plan.obj.sourceID), Segments(plan.virtualParentPath);
    SettledAt(p, mid, "/", segs, n);
    PrefixPath(plan, n);
  }

  lemma PrefixPath(plan: CommitPlan, n: nat)
    requires ValidPlan(plan) && n <= |Segments(plan.virtualParentPath)|
    ensures
      var segs := Segments(plan.virtualParentPath);
      PathBelow("/", segs[..n]) == Render(segs[..n]) && |Render(segs[..n])| <= |plan.virtualParentPath|
  {
    var segs := Segments(plan.virtualParentPath);
    CanonicalSegments(plan.virtualParentPath);
    hide Segments, IsCanonical;
    assert forall i | 0 <= i < n :: segs[..n][i] == segs[i];
    assert [] + segs[..n] == segs[..n];
    PathBelowRoot([], segs[..n]);
    SlashedConcat(segs[..n], segs[n..]);
    assert segs[..n] + segs[n..] == segs;
  }

  lemma KindsOnTheWay(source: Mounts.Source, sourceID: Id, mount: string, path: string)
    requires IsCanonical(mount) && IsCanonical(path) && NormalizeVirtualPath(source.mountPath) == Ok(mount)
    requires TrimSpace(source.mountPath) != ""
    ensures DirectoryKind(Some(source), path)
            == (if path == mount then Mount else if Segments(mount) <= Segments(path) then Dir else VirtualDir)
    ensures DirectorySource(Some(source), sourceID, path) ==
            if Segments(mount) <= Segments(path) then Some(sourceID) else None
  {
    SubPathIsSegmentPrefix(mount, path);
  }

  // ---- Committing twice -----------------------------------------------------------------------

  /** After a commit the walk of the same commit finds everything in place. */
  lemma PreparedAgain(nodes: Nodes, objects: Objects, nodes': Nodes, objects': Objects, plan: CommitPlan,
                      root: Id, fileID: Id, objectID: Id, root': Id)
    requires ValidPlan(plan) && Ready(nodes) && UniqueKeys(objects)
    requires Committed(nodes, objects, nodes', objects', plan, root, fileID, objectID)
    requires UpsertTarget(nodes', root', "/")
    ensures root' == root && Prepared(plan, nodes', root') == Some((nodes', Prepared(plan, nodes, root).value.1))
  {
    hide Segments, Prepared, IsCanonical, CommitPolicy, OnlyOnTheWay, NodeOk, JoinVirtualPath, Committed, Settled,
         UniqueKeys,
         Linked, FileRow, Ready, RowAt;
    CommitKeepsTheTree(nodes, objects, nodes', objects', plan, root, fileID, objectID);
    SettledAfterCommit(nodes, objects, nodes', objects', plan, root, fileID, objectID);
    RootIsUnique(nodes', root, root');
    WalkAgain(plan, nodes', root, Prepared(plan, nodes, root).value.1);
  }

  lemma SettledAfterCommit(nodes: Nodes, objects: Objects, nodes': Nodes, objects': Objects, plan: CommitPlan,
                           root: Id, fileID: Id, objectID: Id)
    requires ValidPlan(plan) && Ready(nodes)
    requires Committed(nodes, objects, nodes', objects', plan, root, fileID, objectID)
    ensures Prepared(plan, nodes, root).Some?
    ensures LiveAt(nodes', root, "/") && nodes'[root] == MetadataVfs.RootNode()
    ensures LiveAt(nodes', Prepared(plan, nodes, root).value.1, plan.virtualParentPath)
    ensures Settled(CommitPolicy(plan.source, plan.obj.sourceID), nodes', "/", Segments(plan.virtualParentPath))
  {
    hide Segments, Prepared, IsCanonical, CommitPolicy, PathBelow, OnlyOnTheWay, NodeOk, JoinVirtualPath, Committed,
         Settled,
         Linked, FileRow, Ready, AtOrBelow, CleanSegments, Rooted, UpsertTarget, Chain, ValidPlan, KeyOf;
    PlanSegments(plan);
    CommittedShape(nodes, objects, nodes', objects', plan, root, fileID, objectID);
    var (mid, parent) := Prepared(plan, nodes, root).value;
    BesideFile(CommitPolicy(plan.source, plan.obj.sourceID), mid, nodes', fileID,
               FileRow(plan, parent, mid[parent], objectID),
               Segments(plan.virtualParentPath), plan.virtualParentPath);
  }

  lemma BesideFile(p: Policy, mid: Nodes, nodes': Nodes, fileID: Id, row: Node, segs: seq<string>, to: string)
    requires Settled(p, mid, "/", segs) && CleanSegments(segs) && PathBelow("/", segs) == to
    requires nodes' == mid[fileID := row]
    requires forall k: Id | Live(mid, k) && |mid[k].path| <= |to| :: k != fileID
    ensures Settled(p, nodes', "/", segs)
  {
    SettledBeside(p, mid, nodes', fileID, "/", segs, to);
  }

  lemma WalkAgain(plan: CommitPlan, nodes: Nodes, root: Id, parent: Id)
    requires ValidPlan(plan) && Linked(nodes) && LiveAt(nodes, root, "/") && nodes[root] == MetadataVfs.RootNode()
    requires Settled(CommitPolicy(plan.source, plan.obj.sourceID), nodes, "/", Segments(plan.virtualParentPath))
    requires LiveAt(nodes, parent, plan.virtualParentPath)
    ensures Prepared(plan, nodes, root) == Some((nodes, parent))
  {
    CommitPolicyIsSound(plan.source, plan.obj.sourceID);
    PlanSegments(plan);
    hide Segments, IsCanonical, CommitPolicy, PathBelow, Sound, NodeOk, Settled, Linked;
    assert nodes[root := MetadataVfs.RootNode()] == nodes;
    SettledChainStands(CommitPolicy(plan.source, plan.obj.sourceID), nodes, root, Segments(plan.virtualParentPath),
                       parent);
    PreparedIsChain(plan, nodes, root);
  }

  lemma RootIsUnique(nodes: Nodes, root: Id, root': Id)
    requires Linked(nodes) && LiveAt(nodes, root, "/") && UpsertTarget(nodes, root', "/")
    ensures root' == root
  {
  }

  lemma PreparedIsChain(plan: CommitPlan, nodes: Nodes, root: Id)
    requires nodes[root := MetadataVfs.RootNode()] == nodes
    ensures Prepared(plan, nodes, root)
            == Chain(CommitPolicy(plan.source, plan.obj.sourceID), nodes, root, Segments(plan.virtualParentPath))
  {
  }

  /** A row below the chain does not disturb it. */
  lemma {:induction false} SettledBeside(p: Policy, mid: Nodes, nodes': Nodes, fileID: Id, path: string,
                                         segs: seq<string>, to: string)
    requires Settled(p, mid, path, segs) && Rooted(path) && CleanSegments(segs) && PathBelow(path, segs) == to
    requires forall k | Live(mid, k) && |mid[k].path| <= |to| :: k in nodes' && nodes'[k] == mid[k]
    ensures Settled(p, nodes', path, segs)
    decreases |segs|
  {
    if segs != [] {
      var next := ChildPath(path, segs[0]);
      ChildPathShape(path, segs[0]);
      PathBelowShape(next, segs[1..]);
      var k :| LiveAt(mid, k, next) && !Unfit(p, k, mid[k], next) && p.adjust(mid[k], next) == mid[k];
      assert LiveAt(nodes', k, next);
      SettledBeside(p, mid, nodes', fileID, next, segs[1..], to);
    }
  }

  /** Committing the same file again changes nothing and answers with the same node and object. */
  lemma CommitIsIdempotent(nodes: Nodes, objects: Objects, nodes1: Nodes, objects1: Objects, nodes2: Nodes,
                           objects2: Objects,
                           plan: CommitPlan, root: Id, fileID: Id, objectID: Id, root': Id, fileID': Id, objectID': Id)
    requires ValidPlan(plan) && Ready(nodes) && UniqueKeys(objects)
    requires Committed(nodes, objects, nodes1, objects1, plan, root, fileID, objectID)
    requires Committed(nodes1, objects1, nodes2, objects2, plan, root', fileID', objectID')
    ensures nodes2 == nodes1 && objects2 == objects1 && fileID' == fileID && objectID' == objectID
  {
    hide Segments, Prepared, IsCanonical, Sound, ChildPath, NodeOk, JoinVirtualPath, OnlyOnTheWay, Settled, Ready,
         ValidPlan,
         CommitPolicy, AtOrBelow, Rooted;
    PreparedAgain(nodes, objects, nodes1, objects1, plan, root, fileID, objectID, root');
    CommitKeepsTheTree(nodes, objects, nodes1, objects1, plan, root, fileID, objectID);
    CommittedShape(nodes, objects, nodes1, objects1, plan, root, fileID, objectID);
    var (mid, parent) := Prepared(plan, nodes, root).value;
    var filePath := JoinVirtualPath(plan.virtualParentPath, plan.filename);
    assert nodes1[parent] == mid[parent];
    assert LiveAt(nodes1, fileID, filePath);
    UpsertAgain(nodes1, fileID, fileID', filePath);
    SameKeyAgain(objects, objects1, objectID, objectID', plan.obj);
  }

  lemma UpsertAgain(nodes: Nodes, k: Id, k': Id, path: string)
    requires Linked(nodes) && LiveAt(nodes, k, path) && UpsertTarget(nodes, k', path)
    ensures k' == k
  {
  }

  lemma SameKeyAgain(objects: Objects, objects1: Objects, o: Id, o': Id, obj: StorageObject)
    requires UniqueKeys(objects1) && objects1 == objects[o := obj] && KeyTarget(objects1, o', KeyOf(obj))
    ensures o' == o && objects1[o' := obj] == objects1
  {
    assert KeyOf(objects1[o]) == KeyOf(obj);
  }
}
