/** Locators of path-based objects: when commits, refreshes and remounts keep them in agreement with the tree. */
module LocatorSteps {
  import opened Common
  import opened Text
  import opened Paths
  import opened Store
  import opened Tree
  import opened Locators
  import opened Repositories
  import opened DirChains
  import opened Commit
  import opened Listing
  import opened RefreshSpec
  import opened RefreshTheory
  import opened MountSync
  import InnerPaths
  import MetadataVfs
  import Mounts

  // ---- Rows that do not matter ----------------------------------------------------------------

  /** Sync state and mount say nothing about the locator. */
  predicate SameFile(n: Node, m: Node) {
    m == n.(syncState := m.syncState, mountID := m.mountID)
  }

  ghost predicate SameFiles(nodes: Nodes, nodes': Nodes) {
    && (forall k: Id | k in nodes && nodes[k].kind == File :: k in nodes' && SameFile(nodes[k], nodes'[k]))
    && (forall k: Id | k in nodes' && nodes'[k].kind == File :: k in nodes && nodes[k].kind == File)
  }

  /** The object a live file names is in the table. */
  ghost predicate FileObjectsExist(nodes: Nodes, objects: Objects) {
    forall k: Id | Live(nodes, k) && nodes[k].kind == File && nodes[k].objectID.Some? ::
      nodes[k].objectID.value in objects
  }

  /** Only files count. */
  lemma SameFilesAgree(nodes: Nodes, nodes': Nodes, objects: Objects, sources: Sources)
    requires SameFiles(nodes, nodes')
    ensures FileObjectsExist(nodes', objects) <==> FileObjectsExist(nodes, objects)
    ensures LocatorsAgree(nodes', objects, sources) <==> LocatorsAgree(nodes, objects, sources)
  {
    hide MetadataNodeInnerPath, PathBased;
    assert forall k: Id | Live(nodes', k) && nodes'[k].kind == File :: k in nodes && nodes[k].kind == File;
    forall k | Live(nodes, k) && Syncs(nodes[k], objects)
      ensures Live(nodes', k) && Syncs(nodes'[k], objects)
      ensures LocatorAgrees(nodes'[k], objects, sources) <==> LocatorAgrees(nodes[k], objects, sources)
    {
    }
    forall k | Live(nodes', k) && Syncs(nodes'[k], objects) ensures Live(nodes, k) && Syncs(nodes[k], objects) {
      assert k in nodes && nodes[k].kind == File;
    }
  }

  lemma SameFilesJoin(nodes: Nodes, mid: Nodes, nodes': Nodes)
    requires SameFiles(nodes, mid) && SameFiles(mid, nodes')
    ensures SameFiles(nodes, nodes')
  {
  }

  /** Walking down a path touches no file. */
  lemma {:induction false} FilesStand(p: Policy, nodes: Nodes, parent: Id, segs: seq<string>)
    requires Standing(p, nodes, parent) && CleanSegments(segs)
    ensures Chain(p, nodes, parent, segs).Some? ==> SameFiles(nodes, Chain(p, nodes, parent, segs).value.0)
    decreases |segs|
  {
    hide Standing, NodeOk, Linked, CleanSegment;
    StandsOn(p, nodes, parent);
    if segs != [] && EnsureDir(p, nodes, parent, segs[0]).Some? {
      var (mid, k) := EnsureDir(p, nodes, parent, segs[0]).value;
      EnsureDirIsOneDir(p, nodes, parent, segs[0]);
      OneDirTouchesNoFile(p, nodes, parent, segs[0]);
      hide EnsureDir, SameFiles, OneDir;
      FilesStand(p, mid, k, segs[1..]);
      if Chain(p, mid, k, segs[1..]).Some? { SameFilesJoin(nodes, mid, Chain(p, mid, k, segs[1..]).value.0); }
    }
  }

  lemma OneDirTouchesNoFile(p: Policy, nodes: Nodes, parent: Id, seg: string)
    requires Standing(p, nodes, parent) && CleanSegment(seg) && EnsureDir(p, nodes, parent, seg).Some?
    ensures SameFiles(nodes, EnsureDir(p, nodes, parent, seg).value.0)
  {
    hide Linked, DistinctPaths;
    var path := ChildPath(nodes[parent].path, seg);
    match RowAt(nodes, path)
    case Some(k) =>
      assert AdjustsWell(p, nodes[k], path);
      hide Sound, Standing, SameFiles;
      PutDirectory(nodes, k, p.adjust(nodes[k], path));
    case None =>
      assert CreatesWell(p, parent, nodes[parent], seg, path);
      hide Sound, Standing, SameFiles;
      PutDirectory(nodes, FreshId(nodes), p.create(parent, nodes[parent], seg, path));
  }

  lemma PutDirectory(nodes: Nodes, id: Id, row: Node)
    requires IsDirectory(row) && (id in nodes ==> IsDirectory(nodes[id]))
    ensures SameFiles(nodes, nodes[id := row])
  {
  }

  // ---- Commits --------------------------------------------------------------------------------

  /** The locator a commit writes is the inner path the metadata service gives the file. */
  ghost predicate PlanAgrees(plan: CommitPlan, sources: Sources) {
    PathBased(plan.obj) ==>
      && "path" in plan.obj.locator
      && MetadataNodeInnerPath(sources, plan.obj.sourceID, JoinVirtualPath(plan.virtualParentPath, plan.filename))
         == Ok(plan.obj.locator["path"])
  }

  lemma CommitWalksPastFiles(plan: CommitPlan, nodes: Nodes, root: Id)
    requires ValidPlan(plan) && Ready(nodes) && UpsertTarget(nodes, root, "/") && Prepared(plan, nodes, root).Some?
    ensures SameFiles(nodes, Prepared(plan, nodes, root).value.0)
  {
    var p := CommitPolicy(plan.source, plan.obj.sourceID);
    CommitPolicyIsSound(plan.source, plan.obj.sourceID);
    RootStands(nodes, root, p);
    PlanSegments(plan);
    RootIsNoFile(nodes, root);
    hide Standing, CommitPolicy, Segments, Ready, IsCanonical, UpsertTarget, SameFiles, ValidPlan;
    FilesStand(p, nodes[root := MetadataVfs.RootNode()], root, Segments(plan.virtualParentPath));
    SameFilesJoin(nodes, nodes[root := MetadataVfs.RootNode()], Prepared(plan, nodes, root).value.0);
  }

  lemma RootIsNoFile(nodes: Nodes, root: Id)
    requires Ready(nodes) && UpsertTarget(nodes, root, "/")
    ensures SameFiles(nodes, nodes[root := MetadataVfs.RootNode()])
  {
    if root in nodes { assert NodeOk(nodes, root); }
  }

  /** One object and one file of it written: the others agree as before. */
  lemma OneFileWritten(nodes: Nodes, objects: Objects, sources: Sources, fileID: Id, row: Node, o: Id,
                       obj: StorageObject)
    requires LocatorsAgree(nodes, objects, sources) && FileObjectsExist(nodes, objects)
    requires KeyTarget(objects, o, KeyOf(obj)) && row.kind == File && !row.isDeleted && row.objectID == Some(o)
    requires row.sourceID == Some(obj.sourceID)
    ensures FileObjectsExist(nodes[fileID := row], objects[o := obj])
    ensures LocatorsAgree(nodes[fileID := row], objects[o := obj], sources) <==>
            (PathBased(obj) ==> "path" in obj.locator
                                && MetadataNodeInnerPath(sources, obj.sourceID, row.path) == Ok(obj.locator["path"]))
  {
    var nodes', objects' := nodes[fileID := row], objects[o := obj];
    hide MetadataNodeInnerPath, PathBased;
    forall k | Live(nodes', k) && Syncs(nodes'[k], objects') && k != fileID
      ensures LocatorAgrees(nodes'[k], objects', sources)
    {
      assert Live(nodes, k) && nodes[k].objectID.value in objects;
      SameTypeSameKind(objects, objects', nodes[k].objectID.value);
    }
    assert Live(nodes', fileID) && (Syncs(row, objects') <==> PathBased(obj));
  }

  lemma SameTypeSameKind(objects: Objects, objects': Objects, o: Id)
    requires o in objects && o in objects' && KeyOf(objects[o]) == KeyOf(objects'[o])
    ensures PathBased(objects[o]) == PathBased(objects'[o])
  {
  }

  /** A commit keeps locators in agreement if and only if its own does. */
  lemma CommitKeepsLocatorsIff(nodes: Nodes, objects: Objects, nodes': Nodes, objects': Objects, plan: CommitPlan,
                               root: Id, fileID: Id, objectID: Id, sources: Sources)
    requires ValidPlan(plan) && Ready(nodes)
    requires Committed(nodes, objects, nodes', objects', plan, root, fileID, objectID)
    requires LocatorsAgree(nodes, objects, sources) && FileObjectsExist(nodes, objects)
    ensures FileObjectsExist(nodes', objects')
    ensures LocatorsAgree(nodes', objects', sources) <==> PlanAgrees(plan, sources)
  {
    hide LocatorsAgree, FileObjectsExist, Prepared, ValidPlan, Ready, SameFiles, PathBased, MetadataNodeInnerPath,
         JoinVirtualPath, ChildPath, UpsertTarget, KeyTarget;
    CommitWalksPastFiles(plan, nodes, root);
    CommittedShape(nodes, objects, nodes', objects', plan, root, fileID, objectID);
    var (mid, parent) := Prepared(plan, nodes, root).value;
    SameFilesAgree(nodes, mid, objects, sources);
    OneFileWritten(mid, objects, sources, fileID, FileRow(plan, parent, mid[parent], objectID), objectID, plan.obj);
  }

  /** A child path of a canonical path is canonical unless the name holds "..". */
  lemma CanonicalChild(parent: string, name: string)
    requires IsCanonical(parent) && ValidName(name)
    ensures IsClean(JoinVirtualPath(parent, name)) && HasPrefix(JoinVirtualPath(parent, name), "/")
    ensures IsCanonical(JoinVirtualPath(parent, name)) <==> !HasDotDot(name)
    ensures NormalizeVirtualPath(JoinVirtualPath(parent, name)) ==
            if HasDotDot(name) then Err(PathInvalid) else Ok(JoinVirtualPath(parent, name))
  {
    JoinIsRender(parent, name);
    CanonicalSegments(parent);
    var segs := Segments(parent) + [name];
    assert segs[|segs| - 1] == name && forall i | 0 <= i < |segs| - 1 :: segs[i] == Segments(parent)[i];
    DotDotOfRender(segs);
    CleanIsNormal(JoinVirtualPath(parent, name));
  }

  /** Merging a child is the child of the merge. */
  lemma MergedChild(mount: string, inner: string, name: string)
    requires IsCanonical(mount) && IsCanonical(inner) && ValidName(name) && !HasDotDot(name)
    ensures MergeMountAndInnerPath(mount, JoinVirtualPath(inner, name))
            == JoinVirtualPath(MergeMountAndInnerPath(mount, inner), name)
  {
    CanonicalChild(inner, name);
    JoinIsRender(inner, name);
    Mounts.MergeIsConcat(mount, inner);
    Mounts.MergeIsConcat(mount, JoinVirtualPath(inner, name));
    JoinIsRender(MergeMountAndInnerPath(mount, inner), name);
    assert Segments(mount) + (Segments(inner) + [name]) == Segments(mount) + Segments(inner) + [name];
  }

  /** The request leaves inner path and locator to the service, and names a source as it is registered. */
  predicate LeavesLocator(req: CommitRequest, sources: Sources) {
    && req.source.Some? && req.source.value.id in sources && sources[req.source.value.id] == req.source.value
    && (req.sourceID == 0 || req.sourceID == req.source.value.id)
    && NormalizeVirtualPath(req.source.value.mountPath).Ok?
    && TrimSpace(req.objectPath) == "" && TrimSpace(req.resolvedInnerParentPath) == ""
    && (TrimSpace(req.locatorType) == "" || req.locator.None?)
  }

  lemma PlanWithoutLocator(req: CommitRequest, sanitize: Json -> Json, guessMime: string -> string, sources: Sources)
    requires LeavesLocator(req, sources) && PlanOf(req, sanitize, guessMime).Ok?
    ensures
      var plan, source := PlanOf(req, sanitize, guessMime).value, req.source.value;
      var innerParent := InnerPaths.CommitInnerParentPath("", source.mountPath, plan.virtualParentPath);
      && IsCanonical(plan.virtualParentPath) && ValidName(plan.filename) && plan.obj.sourceID == source.id
      && innerParent.Ok? && NormalizeVirtualPath(JoinVirtualPath(innerParent.value, plan.filename)).Ok?
      && plan.obj.locator
         == map["path" := NormalizeVirtualPath(JoinVirtualPath(innerParent.value, plan.filename)).value]
  {
    VirtualParentIsCanonical(req);
    assert TrimSpace("") == "";
    hide NormalizeVirtualPath, TrimSpace, VirtualParentPath, IsSubPath, JoinVirtualPath, MergeMountAndInnerPath,
         ValidName, IsCanonical, Mounts.InnerPathUnder;
  }

  /** Such a request brings a locator that agrees if and only if the source's mount encloses the virtual directory. */
  lemma DefaultCommitAgreesIff(req: CommitRequest, sanitize: Json -> Json, guessMime: string -> string,
                               sources: Sources)
    requires LeavesLocator(req, sources) && PlanOf(req, sanitize, guessMime).Ok?
    ensures
      var plan := PlanOf(req, sanitize, guessMime).value;
      PlanAgrees(plan, sources) <==>
      (PathBased(plan.obj) ==>
         IsSubPath(NormalizeVirtualPath(req.source.value.mountPath).value, plan.virtualParentPath))
  {
    hide PlanOf, PathBased, LeavesLocator;
    PlanWithoutLocator(req, sanitize, guessMime, sources);
    SourceIsRegistered(req, sources);
    var plan := PlanOf(req, sanitize, guessMime).value;
    PlacedLocator(req.source.value, sources, plan.virtualParentPath, plan.filename);
    hide *;
  }

  lemma SourceIsRegistered(req: CommitRequest, sources: Sources)
    requires LeavesLocator(req, sources)
    ensures req.source.Some? && req.source.value.id in sources && sources[req.source.value.id] == req.source.value
    ensures NormalizeVirtualPath(req.source.value.mountPath).Ok?
  {
  }

  /** A row at a path, to ask about. */
  function AnyRowAt(path: string): Node {
    Node(None, "", path, Dir, None, None, None, None, None, 0, "", "", "", Indexed, false)
  }

  lemma InsideMount(source: Mounts.Source, sources: Sources, path: string)
    requires source.id in sources && sources[source.id] == source && NormalizeVirtualPath(source.mountPath).Ok?
    requires IsCanonical(path) && IsSubPath(NormalizeVirtualPath(source.mountPath).value, path)
    ensures
      var mount := NormalizeVirtualPath(source.mountPath).value;
      var inner := Mounts.InnerPathUnder(mount, path);
      && IsCanonical(mount) && IsCanonical(inner) && MergeMountAndInnerPath(mount, inner) == path
      && InnerPaths.CommitInnerParentPath("", source.mountPath, path) == Ok(inner)
      && MetadataNodeInnerPath(sources, source.id, path) == Ok(inner)
  {
    var mount := NormalizeVirtualPath(source.mountPath).value;
    Mounts.InnerOfSubPath(mount, path);
    hide IsSubPath, IsCanonical, MergeMountAndInnerPath, NormalizeVirtualPath, Mounts.InnerPathUnder;
    InnerPaths.AllInnerPathsAgree(source, sources, AnyRowAt(path), None, path, Mounts.InnerPathUnder(mount, path));
  }

  lemma OutsideMount(source: Mounts.Source, sources: Sources, path: string)
    requires source.id in sources && sources[source.id] == source && NormalizeVirtualPath(source.mountPath).Ok?
    requires IsCanonical(path) && !IsSubPath(NormalizeVirtualPath(source.mountPath).value, path)
    ensures InnerPaths.CommitInnerParentPath("", source.mountPath, path) == Ok(path)
    ensures MetadataNodeInnerPath(sources, source.id, path) == Err(PathInvalid)
  {
    var mount := NormalizeVirtualPath(source.mountPath).value;
    hide IsSubPath, IsCanonical, MergeMountAndInnerPath, NormalizeVirtualPath, Mounts.InnerPathUnder;
    forall inner | IsCanonical(inner) ensures MergeMountAndInnerPath(mount, inner) != path {
      Mounts.InnerIsTheInverseOfMerge(mount, path, inner);
    }
    InnerPaths.OutsideTheMount(source, sources, AnyRowAt(path), None, path);
  }

  /** Where the commit puts a file in the source, and where the metadata service looks for it. */
  lemma PlacedLocator(source: Mounts.Source, sources: Sources, parent: string, name: string)
    requires source.id in sources && sources[source.id] == source && NormalizeVirtualPath(source.mountPath).Ok?
    requires IsCanonical(parent) && ValidName(name)
    requires InnerPaths.CommitInnerParentPath("", source.mountPath, parent).Ok?
    requires NormalizeVirtualPath(JoinVirtualPath(
                                    InnerPaths.CommitInnerParentPath("", source.mountPath, parent).value, name)).Ok?
    ensures
      var innerParent := InnerPaths.CommitInnerParentPath("", source.mountPath, parent).value;
      MetadataNodeInnerPath(sources, source.id, JoinVirtualPath(parent, name))
      == NormalizeVirtualPath(JoinVirtualPath(innerParent, name))
      <==> IsSubPath(NormalizeVirtualPath(source.mountPath).value, parent)
  {
    hide IsSubPath, IsCanonical, MergeMountAndInnerPath, NormalizeVirtualPath, Mounts.InnerPathUnder, JoinVirtualPath,
         ValidName, InnerPaths.CommitInnerParentPath, MetadataNodeInnerPath, HasDotDot;
    var mount, path := NormalizeVirtualPath(source.mountPath).value, JoinVirtualPath(parent, name);
    CanonicalChild(parent, name);
    if IsSubPath(mount, parent) {
      InsideMount(source, sources, parent);
      var inner := Mounts.InnerPathUnder(mount, parent);
      CanonicalChild(inner, name);
      MergedChild(mount, inner, name);
      Mounts.InnerIsTheInverseOfMerge(mount, path, JoinVirtualPath(inner, name));
      InsideMount(source, sources, path);
    } else {
      OutsideMount(source, sources, parent);
      if IsSubPath(mount, path) {
        InsideMount(source, sources, path);
        if Mounts.InnerPathUnder(mount, path) == path {
          OnlyTheRootAddsNothing(mount, path);
          InnerPaths.RootIsCanonical();
          RootEncloses(parent);
        }
      } else {
        OutsideMount(source, sources, path);
      }
    }
  }

  lemma OnlyTheRootAddsNothing(mount: string, path: string)
    requires IsCanonical(mount) && IsCanonical(path) && MergeMountAndInnerPath(mount, path) == path
    ensures mount == "/"
  {
    Mounts.MergeIsConcat(mount, path);
    CanonicalSegments(mount);
    assert |Segments(mount)| == 0;
  }

  lemma RootEncloses(path: string)
    requires IsCanonical(path)
    ensures IsSubPath("/", path)
  {
    InnerPaths.RootIsCanonical();
    CanonicalIsFixpoint(path);
    hide NormalizeVirtualPath, Clean;
  }

  // ---- Refreshes ------------------------------------------------------------------------------

  /** The locator of a listed file is the inner path the metadata service gives the row. */
  ghost predicate EntryAgrees(ctx: Context, e: RemoteEntry, sources: Sources) {
    var obj := ObjectRow(ctx, e);
    !e.isDir && ctx.target.sourceID.Some? && PathBased(obj) ==>
      && ctx.target.sourceID == Some(obj.sourceID) && "path" in obj.locator
      && MetadataNodeInnerPath(sources, obj.sourceID, ChildPath(ctx.target.path, EntryName(e)))
         == Ok(obj.locator["path"])
  }

  /** A listed file without a locator of the driver's own, at its place in the listed directory, of a registered
      source. */
  predicate PlainEntry(ctx: Context, e: RemoteEntry, sources: Sources) {
    && ctx.source.id in sources && sources[ctx.source.id] == ctx.source && ctx.target.sourceID == Some(ctx.source.id)
    && IsCanonical(ctx.target.path) && IsCanonical(ctx.parentPath)
    && ValidName(EntryName(e)) && !HasDotDot(EntryName(e)) && !e.isDir
    && (e.path == "" || NormalizeVirtualPath(e.path) == Ok(JoinVirtualPath(ctx.parentPath, EntryName(e))))
    && e.providerItemID == "" && (TrimSpace(e.locatorType) == "" || e.locator.None?) && PathBased(ObjectRow(ctx, e))
  }

  lemma PlainLocator(ctx: Context, e: RemoteEntry, sources: Sources)
    requires PlainEntry(ctx, e, sources)
    ensures "path" in ObjectRow(ctx, e).locator && ObjectRow(ctx, e).sourceID == ctx.source.id
    ensures ObjectRow(ctx, e).locator["path"] == JoinVirtualPath(ctx.parentPath, EntryName(e))
    ensures ChildPath(ctx.target.path, EntryName(e)) == JoinVirtualPath(ctx.target.path, EntryName(e))
  {
    CanonicalIsFixpoint(ctx.parentPath);
    ChildPathIsJoin(ctx.target.path, EntryName(e));
    CanonicalChild(ctx.parentPath, EntryName(e));
    hide NormalizeVirtualPath, IsCanonical, EntryName, TrimSpace, PathBased, IsClean, HasDotDot, ChildPath;
  }

  /** It brings a locator that agrees if and only if the refresh asked for the inner path the metadata service gives the
      directory. */
  lemma PlainEntryAgreesIff(ctx: Context, e: RemoteEntry, sources: Sources)
    requires PlainEntry(ctx, e, sources)
    ensures EntryAgrees(ctx, e, sources) <==>
            MetadataNodeInnerPath(sources, ctx.source.id, ctx.target.path) == Ok(ctx.parentPath)
  {
    PlainLocator(ctx, e, sources);
    var id, name := ctx.source.id, EntryName(e);
    hide NormalizeVirtualPath, IsCanonical, EntryName, TrimSpace, PathBased, ObjectRow, MetadataNodeInnerPath,
         HasDotDot, MergeMountAndInnerPath, JoinVirtualPath, ValidName, MountOf;
    CanonicalChild(ctx.target.path, name);
    CanonicalChild(ctx.parentPath, name);
    InnerByMount(sources, id, ctx.target.path, ctx.parentPath);
    InnerByMount(sources, id, JoinVirtualPath(ctx.target.path, name), JoinVirtualPath(ctx.parentPath, name));
    if MountOf(ctx.source).Ok? {
      MountIsCanonical(ctx.source);
      MergedChild(MountOf(ctx.source).value, ctx.parentPath, name);
      SameParent(MountOf(ctx.source).value, ctx.parentPath, ctx.target.path, name);
    }
  }

  lemma SameParent(mount: string, inner: string, path: string, name: string)
    requires IsCanonical(mount) && IsCanonical(inner) && IsCanonical(path) && ValidName(name)
    ensures JoinVirtualPath(MergeMountAndInnerPath(mount, inner), name) == JoinVirtualPath(path, name) ==>
              MergeMountAndInnerPath(mount, inner) == path
  {
    Mounts.MergeIsConcat(mount, inner);
    hide MergeMountAndInnerPath, Segments, Clean;
    if JoinVirtualPath(MergeMountAndInnerPath(mount, inner), name) == JoinVirtualPath(path, name) {
      JoinInjective(MergeMountAndInnerPath(mount, inner), name, path, name);
    }
  }

  /** Every entry the refresh copies brings such a locator. */
  ghost predicate ListingAgrees(nodes: Nodes, ctx: Context, entries: seq<RemoteEntry>, sources: Sources) {
    forall n | Copies(nodes, ctx, entries, n) :: EntryAgrees(ctx, First(entries, n), sources)
  }

  ghost predicate RefreshedFrom(nodes: Nodes, objects: Objects, nodes': Nodes, objects': Objects, ctx: Context,
                                entries: seq<RemoteEntry>, r: RefreshResult) {
    && Linked(nodes) && Live(nodes, ctx.targetID) && ctx.target == nodes[ctx.targetID]
    && Refreshed(nodes, objects, nodes', objects', ctx, entries, r)
  }

  /** A row after a refresh: an old one but for its state, one without an object, or the copy of an entry. */
  lemma RowAfter(nodes: Nodes, objects: Objects, nodes': Nodes, objects': Objects, ctx: Context,
                 entries: seq<RemoteEntry>, r: RefreshResult, k: Id)
    requires RefreshedFrom(nodes, objects, nodes', objects', ctx, entries, r) && Live(nodes', k)
    ensures || (Live(nodes, k) && SameFile(nodes[k], nodes'[k]))
            || nodes'[k].objectID == None
            || (&& IsChild(nodes', ctx.targetID, k) && Copies(nodes, ctx, entries, nodes'[k].name)
                && nodes'[k] == IndexedNode(ctx, First(entries, nodes'[k].name), nodes'[k].objectID)
                && EntryObject(objects', ctx, First(entries, nodes'[k].name), nodes'[k].objectID))
  {
    hide Refreshed, Linked, HasChild, Count, Names, First, EntryObject, RowFor, ListedNode;
    var name := nodes'[k].name;
    LinkedAfter(nodes, objects, nodes', objects', ctx, entries, r);
    ChildAfter(nodes, objects, nodes', objects', ctx, ctx.(target := TargetRow(nodes', ctx)), entries, r, k);
    if IsChild(nodes', ctx.targetID, k) {
      if name in Names(entries) {
        ListedChild(nodes, objects, nodes', objects', ctx, entries, r, name);
        ChildIsUnique(nodes', ctx.targetID, k);
        RowByFate(ctx, entries, name, Existing(nodes, ctx, name), nodes'[k], objects');
        ExistingIsItself(nodes, objects, nodes', objects', ctx, entries, r, k);
      } else {
        UnlistedChild(nodes, objects, nodes', objects', ctx, entries, r, k);
      }
    }
  }

  function TargetRow(nodes: Nodes, ctx: Context): Node {
    if ctx.targetID in nodes then nodes[ctx.targetID] else ctx.target
  }

  lemma LinkedAfter(nodes: Nodes, objects: Objects, nodes': Nodes, objects': Objects, ctx: Context,
                    entries: seq<RemoteEntry>, r: RefreshResult)
    requires RefreshedFrom(nodes, objects, nodes', objects', ctx, entries, r)
    ensures Linked(nodes) && Linked(nodes') && ctx.targetID in nodes'
  {
  }

  lemma RowByFate(ctx: Context, entries: seq<RemoteEntry>, name: string, existing: Option<Node>, row: Node,
                  objects: Objects)
    requires Count(entries, name) > 0 && RowFor(ctx, entries, name, existing, row, objects)
    ensures || (existing.Some? && SameFile(existing.value, row))
            || row.objectID == None
            || (&& Count(entries, name) == 1 && FateOf(entries, name, existing) == Copied
                && row == IndexedNode(ctx, First(entries, name), row.objectID)
                && EntryObject(objects, ctx, First(entries, name), row.objectID))
  {
    hide EntryObject, First, Count;
  }

  /** The child a listed row was before is that row. */
  lemma ExistingIsItself(nodes: Nodes, objects: Objects, nodes': Nodes, objects': Objects, ctx: Context,
                         entries: seq<RemoteEntry>, r: RefreshResult, k: Id)
    requires RefreshedFrom(nodes, objects, nodes', objects', ctx, entries, r) && IsChild(nodes', ctx.targetID, k)
    ensures Existing(nodes, ctx, nodes'[k].name).Some? ==>
              Live(nodes, k) && Existing(nodes, ctx, nodes'[k].name) == Some(nodes[k])
  {
    hide Refreshed, Linked, Names, RowFor;
    var name, t := nodes'[k].name, ctx.targetID;
    LinkedAfter(nodes, objects, nodes', objects', ctx, entries, r);
    if HasChild(nodes, t, name) {
      var j := ChildOf(nodes, t, name);
      OldRowAfter(nodes, objects, nodes', objects', ctx, entries, r, j);
      ChildAfter(nodes, objects, nodes', objects', ctx, ctx.(target := TargetRow(nodes', ctx)), entries, r, j);
      ChildIsUnique(nodes', t, k);
      ChildIsUnique(nodes', t, j);
    }
  }

  /** A copied entry has its row. */
  lemma CopiedEntry(nodes: Nodes, objects: Objects, nodes': Nodes, objects': Objects, ctx: Context,
                    entries: seq<RemoteEntry>, r: RefreshResult, n: string)
    requires RefreshedFrom(nodes, objects, nodes', objects', ctx, entries, r) && Copies(nodes, ctx, entries, n)
    ensures HasChild(nodes', ctx.targetID, n)
    ensures
      var row := nodes'[ChildOf(nodes', ctx.targetID, n)];
      row == IndexedNode(ctx, First(entries, n), row.objectID)
      && EntryObject(objects', ctx, First(entries, n), row.objectID)
  {
    hide Linked, ObjectsSynced, OldRow, NewRow, ConflictTotal;
    ListedChild(nodes, objects, nodes', objects', ctx, entries, r, n);
    hide Refreshed, HasChild;
  }

  /** The row of a copied entry agrees exactly if the entry does. */
  lemma CopyAgreesIff(objects: Objects, ctx: Context, e: RemoteEntry, row: Node, sources: Sources)
    requires row == IndexedNode(ctx, e, row.objectID) && EntryObject(objects, ctx, e, row.objectID)
    ensures EntryAgrees(ctx, e, sources) <==> (Syncs(row, objects) ==> LocatorAgrees(row, objects, sources))
  {
    hide MetadataNodeInnerPath, EntryLocator, EntryName, EntrySize, EntryMime;
    if !e.isDir { SameTypeSameKind(map[0 := objects[row.objectID.value]], map[0 := ObjectRow(ctx, e)], 0); }
  }

  /** A file that only changed its state agrees as before. */
  lemma OldFileStays(objects: Objects, objects': Objects, n: Node, m: Node, sources: Sources)
    requires SameFile(n, m) && KeysKept(objects, objects')
    requires n.kind == File && n.objectID.Some? ==> n.objectID.value in objects
    ensures Syncs(m, objects') <==> Syncs(n, objects)
    ensures Syncs(n, objects) ==> (LocatorAgrees(m, objects', sources) <==> LocatorAgrees(n, objects, sources))
  {
    hide MetadataNodeInnerPath;
    if n.kind == File && n.objectID.Some? { SameTypeSameKind(objects, objects', n.objectID.value); }
    hide PathBased;
  }

  lemma CopiesAreCounted(nodes: Nodes, ctx: Context, entries: seq<RemoteEntry>, n: string)
    requires Copies(nodes, ctx, entries, n)
    ensures Count(entries, n) > 0
  {
  }

  lemma KeysAfter(nodes: Nodes, objects: Objects, nodes': Nodes, objects': Objects, ctx: Context,
                  entries: seq<RemoteEntry>, r: RefreshResult)
    requires RefreshedFrom(nodes, objects, nodes', objects', ctx, entries, r)
    ensures KeysKept(objects, objects')
  {
    hide Refreshed, KeysKept;
    KeysOfSync(nodes, objects, nodes', objects', ctx, entries, r);
  }

  /** One row of the refreshed table. */
  lemma RefreshedRowAgrees(nodes: Nodes, objects: Objects, nodes': Nodes, objects': Objects, ctx: Context,
                           entries: seq<RemoteEntry>, r: RefreshResult, sources: Sources, k: Id)
    requires RefreshedFrom(nodes, objects, nodes', objects', ctx, entries, r) && Live(nodes', k)
    requires LocatorsAgree(nodes, objects, sources) && FileObjectsExist(nodes, objects)
    ensures nodes'[k].kind == File && nodes'[k].objectID.Some? ==> nodes'[k].objectID.value in objects'
    ensures ListingAgrees(nodes, ctx, entries, sources) && Syncs(nodes'[k], objects') ==>
              LocatorAgrees(nodes'[k], objects', sources)
  {
    hide RefreshedFrom, Linked, Copies, LocatorAgrees, EntryAgrees, First, HasChild, Syncs;
    RowAfter(nodes, objects, nodes', objects', ctx, entries, r, k);
    KeysAfter(nodes, objects, nodes', objects', ctx, entries, r);
    if Live(nodes, k) && SameFile(nodes[k], nodes'[k]) {
      OldFileStays(objects, objects', nodes[k], nodes'[k], sources);
    } else if nodes'[k].objectID.Some? {
      CopiesAreCounted(nodes, ctx, entries, nodes'[k].name);
      CopyAgreesIff(objects', ctx, First(entries, nodes'[k].name), nodes'[k], sources);
    } else {
      NoObjectNoLocator(nodes'[k], objects');
    }
  }

  lemma NoObjectNoLocator(n: Node, objects: Objects)
    requires n.objectID.None?
    ensures !Syncs(n, objects)
  {
  }

  /** A refresh keeps locators in agreement if and only if every entry it copies brings one that does. */
  lemma RefreshKeepsLocatorsIff(nodes: Nodes, objects: Objects, nodes': Nodes, objects': Objects, ctx: Context,
                                entries: seq<RemoteEntry>, r: RefreshResult, sources: Sources)
    requires RefreshedFrom(nodes, objects, nodes', objects', ctx, entries, r)
    requires LocatorsAgree(nodes, objects, sources) && FileObjectsExist(nodes, objects)
    ensures FileObjectsExist(nodes', objects')
    ensures LocatorsAgree(nodes', objects', sources) <==> ListingAgrees(nodes, ctx, entries, sources)
  {
    forall k | Live(nodes', k)
      ensures nodes'[k].kind == File && nodes'[k].objectID.Some? ==> nodes'[k].objectID.value in objects'
      ensures ListingAgrees(nodes, ctx, entries, sources) && Syncs(nodes'[k], objects') ==>
                LocatorAgrees(nodes'[k], objects', sources)
    {
      RefreshedRowAgrees(nodes, objects, nodes', objects', ctx, entries, r, sources, k);
    }
    hide RefreshedFrom, Copies, IndexedNode, EntryObject, Syncs, LocatorAgrees, EntryAgrees, First, HasChild;
    forall n | Copies(nodes, ctx, entries, n) && LocatorsAgree(nodes', objects', sources)
      ensures Count(entries, n) > 0 && EntryAgrees(ctx, First(entries, n), sources)
    {
      CopiesAreCounted(nodes, ctx, entries, n);
      CopiedEntry(nodes, objects, nodes', objects', ctx, entries, r, n);
      CopyAgreesIff(objects', ctx, First(entries, n), nodes'[ChildOf(nodes', ctx.targetID, n)], sources);
    }
  }

  // ---- Mounts ---------------------------------------------------------------------------------

  /** Synchronizing and disabling mounts touches no file. */
  lemma MountStepTouchesNoFile(t: MountTables, req: MountRequest, t': MountTables)
    requires Ready(t.nodes) && MountStep(t, req, t')
    ensures SameFiles(t.nodes, t'.nodes)
  {
    hide Ready, MountPrepared, PathReusable, NormalizeVirtualPath, DisabledMounts, StaleNodes;
    if t' != t {
      match req
      case SyncMount(source, locator) =>
        var mountPath := NormalizeVirtualPath(source.mountPath).value;
        var node: Id, mountID: Id :| Synced(t.nodes, t.mounts, t'.nodes, t'.mounts, source.id, source.isEnabled,
                                            mountPath, locator, node, mountID);
        var mid := MountPrepared(t.nodes, t.mounts, source.id, mountPath).value.0;
        var marked := mid[node := MountNodeRow(mid[node], mountID)];
        WalkTouchesNoFile(t.nodes, t.mounts, source.id, mountPath);
        SameFilesJoin(t.nodes, mid, marked);
        StaleTouchesNoFile(marked, t.mounts[mountID := MountRow(source.id, node, mountPath, locator,
                                                                source.isEnabled)], source.id, mountPath);
        SameFilesJoin(t.nodes, marked, t'.nodes);
      case DisableMounts(sourceID) => StaleTouchesNoFile(t.nodes, t.mounts, sourceID, "");
    }
  }

  lemma StaleTouchesNoFile(nodes: Nodes, mounts: MountRows, sourceID: Id, keep: string)
    ensures SameFiles(nodes, StaleNodes(nodes, mounts, sourceID, keep))
  {
  }

  lemma WalkTouchesNoFile(nodes: Nodes, mounts: MountRows, sourceID: Id, mountPath: string)
    requires Ready(nodes) && IsCanonical(mountPath) && MountPrepared(nodes, mounts, sourceID, mountPath).Some?
    ensures SameFiles(nodes, MountPrepared(nodes, mounts, sourceID, mountPath).value.0)
  {
    hide Sound, MountPolicy, Segments, IsCanonical, Ready, SameFiles, RootedNodes, Linked, WellFormed,
         WellFormedOrEmpty;
    var p := MountPolicy(sourceID, mountPath, mounts);
    MountPolicyIsSound(sourceID, mountPath, mounts);
    RootedStands(nodes, p);
    var (start, root) := RootedNodes(nodes);
    RootedTouchesNoFile(nodes);
    if mountPath == "/" {
      PutDirectory(start, root, start[root].(sourceID := Some(sourceID), syncState := Indexed));
    } else {
      CanonicalSegments(mountPath);
      FilesStand(p, start, root, Segments(mountPath));
    }
    SameFilesJoin(nodes, start, MountPrepared(nodes, mounts, sourceID, mountPath).value.0);
  }

  lemma RootedTouchesNoFile(nodes: Nodes)
    ensures SameFiles(nodes, RootedNodes(nodes).0)
  {
  }

  /** The mount path the metadata service takes a source to have. */
  function MountOf(source: Mounts.Source): Result<string> {
    if TrimSpace(source.mountPath) == "" then Ok("/") else NormalizeVirtualPath(source.mountPath)
  }

  /** The metadata service's inner path is the one that merges with that mount. */
  lemma InnerByMount(sources: Sources, id: Id, path: string, inner: string)
    requires id in sources && IsCanonical(path)
    ensures MetadataNodeInnerPath(sources, id, path) == Ok(inner) <==>
              && MountOf(sources[id]).Ok? && IsCanonical(inner)
              && MergeMountAndInnerPath(MountOf(sources[id]).value, inner) == path
  {
    InnerPaths.RootIsCanonical();
    CanonicalIsFixpoint(path);
    if MountOf(sources[id]).Ok? {
      var mount := MountOf(sources[id]).value;
      if IsCanonical(inner) {
        Mounts.InnerIsTheInverseOfMerge(mount, path, inner);
        InnerPaths.InnerUnderRoot(path);
        RootEncloses(path);
      }
      if IsSubPath(mount, path) {
        Mounts.InnerOfSubPath(mount, path);
        CanonicalIsFixpoint(Mounts.InnerPathUnder(mount, path));
      }
    }
    hide NormalizeVirtualPath, IsSubPath, IsCanonical, MergeMountAndInnerPath, TrimSpace;
  }

  /** A source registered anew keeps locators in agreement if and only if no path-based file is its own or its mount is
      the same. */
  lemma RemountKeepsLocatorsIff(nodes: Nodes, objects: Objects, sources: Sources, source: Mounts.Source)
    requires Linked(nodes) && LocatorsAgree(nodes, objects, sources)
    ensures LocatorsAgree(nodes, objects, sources[source.id := source]) <==>
            || (forall k | Live(nodes, k) && Syncs(nodes[k], objects) :: nodes[k].sourceID != Some(source.id))
            || (source.id in sources && MountOf(source) == MountOf(sources[source.id]))
  {
    forall k | Live(nodes, k) && Syncs(nodes[k], objects)
      ensures LocatorAgrees(nodes[k], objects, sources[source.id := source]) <==>
              nodes[k].sourceID == Some(source.id) ==>
                source.id in sources && MountOf(source) == MountOf(sources[source.id])
    {
      FileAfterRemount(nodes, objects, sources, source, k);
    }
    hide Linked, Syncs, LocatorAgrees, MountOf;
  }

  lemma FileAfterRemount(nodes: Nodes, objects: Objects, sources: Sources, source: Mounts.Source, k: Id)
    requires Linked(nodes) && LocatorsAgree(nodes, objects, sources) && Live(nodes, k) && Syncs(nodes[k], objects)
    ensures LocatorAgrees(nodes[k], objects, sources[source.id := source]) <==>
            (nodes[k].sourceID == Some(source.id) ==>
               source.id in sources && MountOf(source) == MountOf(sources[source.id]))
  {
    var path := nodes[k].path;
    StoredPathIsClean(nodes, k);
    assert LocatorAgrees(nodes[k], objects, sources);
    PathOfLocator(nodes[k], objects, sources);
    CleanIsNormal(path);
    hide Linked, IsClean, MetadataNodeInnerPath, MountOf, PathBased, NormalizeVirtualPath;
    if nodes[k].sourceID == Some(source.id) {
      var inner := objects[nodes[k].objectID.value].locator["path"];
      InnerByMount(sources, source.id, path, inner);
      InnerByMount(sources[source.id := source], source.id, path, inner);
      if MountOf(source).Ok? {
        MountIsCanonical(source);
        MountIsCanonical(sources[source.id]);
        InnerPaths.OneMountForInner(MountOf(source).value, MountOf(sources[source.id]).value, inner);
      }
    } else {
      SameSource(sources, source, nodes[k].sourceID.value, path);
    }
  }

  lemma PathOfLocator(n: Node, objects: Objects, sources: Sources)
    requires Syncs(n, objects) && LocatorAgrees(n, objects, sources)
    ensures n.sourceID.value in sources && NormalizeVirtualPath(n.path).Ok?
  {
    NormalOfInner(sources, n.sourceID.value, n.path);
  }

  lemma MountIsCanonical(source: Mounts.Source)
    requires MountOf(source).Ok?
    ensures IsCanonical(MountOf(source).value)
  {
    InnerPaths.RootIsCanonical();
    hide IsCanonical, TrimSpace;
  }

  lemma SameSource(sources: Sources, source: Mounts.Source, id: Id, path: string)
    requires id != source.id
    ensures MetadataNodeInnerPath(sources[source.id := source], id, path) == MetadataNodeInnerPath(sources, id, path)
  {
  }
}
