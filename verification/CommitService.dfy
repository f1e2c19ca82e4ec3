/** The commit service: the transaction that puts a file into the metadata tables. */
module CommitService {
  import opened Common
  import opened Text
  import opened Paths
  import opened Store
  import opened Tree
  import opened Repositories
  import opened DirChains
  import opened Commit
  import opened CommitPlaces
  import MetadataVfs
  import Mounts
  import Shares

  /** A row that is no file stands where the file should go. */
  ghost predicate FileBlocked(plan: CommitPlan, nodes: Nodes) {
    exists k :: LiveAt(nodes, k, JoinVirtualPath(plan.virtualParentPath, plan.filename)) && nodes[k].kind != File
  }

  /** Some row on the way to the parent is a file, or belongs to another source. */
  ghost predicate WayBlocked(plan: CommitPlan, nodes: Nodes) {
    Blocked(CommitPolicy(plan.source, plan.obj.sourceID), nodes, "/", Segments(plan.virtualParentPath))
  }

  predicate DirectoryNeedsUpdate(existing: Node, parentID: Id, name: string, kind: Kind, sourceID: Option<Id>) {
    || existing.parentID != Some(parentID) || existing.name != name || existing.kind != kind
    || existing.sourceID != sourceID || existing.syncState != Indexed
  }

  class MetadataVFSCommitService {
    const store: MetadataStore
    const sanitize: Json -> Json
    const guessMime: string -> string

    constructor (store: MetadataStore, sanitize: Json -> Json, guessMime: string -> string)
      ensures this.store == store && this.sanitize == sanitize && this.guessMime == guessMime
    {
      this.store, this.sanitize, this.guessMime := store, sanitize, guessMime;
    }

    /** One segment of the ancestor walk. */
    method EnsureDirectory(source: Option<Mounts.Source>, sourceID: Id, current: Id, segment: string)
      returns (r: Result<Id>)
      requires CleanSegment(segment) && Standing(CommitPolicy(source, sourceID), store.nodes, current)
      modifies store`nodes
      ensures r.Ok? ==> EnsureDir(CommitPolicy(source, sourceID), old(store.nodes), current, segment)
                        == Some((store.nodes, r.value))
      ensures r.Ok? ==> Standing(CommitPolicy(source, sourceID), store.nodes, r.value)
      ensures r.Err? ==> r.error == NameConflict && store.nodes == old(store.nodes)
                         && EnsureDir(CommitPolicy(source, sourceID), old(store.nodes), current, segment) == None
    {
      hide Sound, NodeOk, Linked, DirectoryKind, DirectorySource, ChildPath, CleanSegment, UniqueLive, Clash, Admits;
      ghost var p, nodes := CommitPolicy(source, sourceID), store.nodes;
      EnsureDirIsOneDir(p, nodes, current, segment);
      ChildPathIsJoin(nodes[current].path, segment) by { SegmentHasNoSlash(segment); }
      var currentPath := JoinVirtualPath(store.nodes[current].path, segment);
      var desiredKind := DirectoryKind(source, currentPath);
      var desiredSourceID := DirectorySource(source, sourceID, currentPath);
      var found := store.FindByPath(currentPath);
      DistinctOf(nodes);
      if found.Some? {
        var k := found.value;
        RowAtIs(nodes, k, currentPath);
        var existing := store.nodes[k];
        if !IsDirectory(existing) { return Err(NameConflict); }
        if existing.sourceID.Some? && desiredSourceID.Some? && existing.sourceID != desiredSourceID {
          return Err(NameConflict);
        }
        ChildHere(nodes, current, k, segment);
        if DirectoryNeedsUpdate(existing, current, segment, desiredKind, desiredSourceID) {
          existing := existing.(parentID := Some(current), name := segment, kind := desiredKind,
                                sourceID := desiredSourceID);
          existing := existing.(syncState := Indexed);
          SamePlaceIsAdmitted(nodes, k, existing);
          var failed := store.UpdateNode(k, existing);
        }
        assert store.nodes == nodes[k := p.adjust(nodes[k], currentPath)];
        return Ok(k);
      }
      var node := Node(Some(current), segment, currentPath, desiredKind, store.nodes[current].mountID, None,
                       desiredSourceID,
                       None, None, 0, "inode/directory", "", "", Indexed, false);
      KindIsDirectory(source, currentPath);
      ChildRowIsAdmitted(nodes, current, node);
      LinkedOf(nodes);
      var upserted := store.UpsertByPath(node);
      assert RowAt(nodes, currentPath) == None;
      return Ok(upserted.value);
    }

    method EnsureCommitParentPath(source: Option<Mounts.Source>, sourceID: Id, virtualParentPath: string,
                                  ghost plan: CommitPlan)
      returns (r: Result<Id>, ghost root: Id)
      requires Ready(store.nodes) && ValidPlan(plan)
      requires plan.source == source && plan.obj.sourceID == sourceID && plan.virtualParentPath == virtualParentPath
      modifies store`nodes
      ensures r.Ok? ==> UpsertTarget(old(store.nodes), root, "/")
                        && Prepared(plan, old(store.nodes), root) == Some((store.nodes, r.value))
      ensures r.Err? ==> r.error == NameConflict && WayBlocked(plan, old(store.nodes))
    {
      hide Sound, NodeOk, Linked, DirectoryKind, DirectorySource, ChildPath, UniqueLive, EnsureDir, CommitPolicy,
           Standing, Segments,
           IsCanonical, Ready, Blocked, Settled;
      ghost var p, before, segs := CommitPolicy(source, sourceID), store.nodes, Segments(virtualParentPath);
      RootIsAdmitted(before);
      ReadyIsUnique(before);
      var upserted := store.UpsertByPath(MetadataVfs.RootNode());
      var current := upserted.value;
      root := current;
      ghost var start := store.nodes;
      CommitPolicyIsSound(source, sourceID);
      RootStands(before, root, p);
      SplitsIntoSegments(plan);
      PlanSegments(plan);
      if virtualParentPath == "/" {
        return Ok(current), root;
      }
      var segments := Split(TrimPrefix(virtualParentPath, "/"));
      var i := 0;
      while i < |segments|
        invariant 0 <= i <= |segments|
        invariant current in store.nodes && Standing(p, store.nodes, current)
        invariant Chain(p, start, root, segs) == Chain(p, store.nodes, current, segs[i..])
      {
        var segment := segments[i];
        assert segs[i..][0] == segment && segs[i..][1..] == segs[i + 1..];
        i := i + 1;
        SegmentIsNotEmpty(segment);
        var next := EnsureDirectory(source, sourceID, current, segment);
        if next.Err? {
          FailedWalk(plan, before, root);
          return Err(next.error), root;
        }
        StandingIsLive(p, store.nodes, next.value);
        current := next.value;
      }
      assert segs[i..] == [];
      return Ok(current), root;
    }

    /** `CommitFileObject`: one transaction, rolled back on any error. Answers with the file's node and object. */
    method CommitFileObject(req: CommitRequest) returns (r: Result<(Id, Id)>)
      requires Ready(store.nodes) && UniqueKeys(store.objects)
      modifies store`nodes, store`objects
      ensures r.Err? ==> store.nodes == old(store.nodes) && store.objects == old(store.objects)
      ensures
        var plan := PlanOf(req, sanitize, guessMime);
        if plan.Err? then r == Err(plan.error)
        else
          && ValidPlan(plan.value)
          && (r.Ok? <==> !WayBlocked(plan.value, old(store.nodes)) && !FileBlocked(plan.value, old(store.nodes)))
          && (r.Ok? ==> Linked(store.nodes) && UniqueKeys(store.objects)
                        && (WellFormedOrEmpty(old(store.nodes)) ==> WellFormed(store.nodes))
                        && exists root :: Committed(old(store.nodes), old(store.objects), store.nodes, store.objects,
                                                    plan.value,
                                                    root, r.value.0, r.value.1))
      ensures r.Ok? ==>
                && r.value.0 in store.nodes && r.value.1 in store.objects
                && (exists directory ::
                      && IsRequestedParent(req, directory)
                      && LiveAt(store.nodes, r.value.0, JoinVirtualPath(directory, req.filename)))
                && store.nodes[r.value.0].objectID == Some(r.value.1)
                && WrittenAsAsked(req, sanitize, guessMime, store.nodes[r.value.0], store.objects[r.value.1])
    {
      hide UniqueLive, Committed, WayBlocked, Prepared, NormalizeVirtualPath, Linked, IsCanonical, ChildPath,
           UniqueKeys, Ready, KeyOf,
           ValidPlan, PlanOf, FileBlocked, FileRow, JoinVirtualPath, IsRequestedParent, WrittenAsAsked;
      var planned := PlanOf(req, sanitize, guessMime);
      if planned.Err? { return Err(planned.error); }
      var plan := planned.value;
      PlanIsValid(req, sanitize, guessMime);
      var savedNodes, savedObjects := store.nodes, store.objects;
      ghost var root: Id;
      var ensured;
      ensured, root := EnsureCommitParentPath(plan.source, plan.obj.sourceID, plan.virtualParentPath, plan);
      if ensured.Err? {
        store.nodes := savedNodes;
        return Err(ensured.error);
      }
      var parent := ensured.value;
      ghost var mid := store.nodes;
      WalkIsNotBlocked(plan, savedNodes, root);
      PreparedParent(plan, savedNodes, root);
      FileUntouched(plan, savedNodes, root);
      var filePath := JoinVirtualPath(store.nodes[parent].path, plan.filename);
      var existing := store.FindByPath(filePath);
      if existing.Some? && store.nodes[existing.value].kind != File {
        store.nodes := savedNodes;
        return Err(NameConflict);
      }
      var o := store.UpsertObjectByLocator(plan.obj);
      var row := FileRow(plan, parent, store.nodes[parent], o);
      FileIsAdmitted(plan, mid, parent, o);
      var upserted := store.UpsertByPath(row);
      SameFile(plan, mid, parent, o, existing, upserted.value);
      CommittedNow(plan, savedNodes, savedObjects, root, mid, parent, upserted.value, o);
      CommitKeepsTheTree(savedNodes, savedObjects, store.nodes, store.objects, plan, root, upserted.value, o);
      CommitDoesAsAsked(savedNodes, savedObjects, store.nodes, store.objects, req, sanitize, guessMime, root,
                        upserted.value, o);
      return Ok((upserted.value, o));
    }
  }

  // ---- Steps of the methods -------------------------------------------------------------------

  lemma SegmentHasNoSlash(segment: string)
    requires CleanSegment(segment)
    ensures '/' !in segment
  {
  }

  lemma SegmentIsNotEmpty(segment: string)
    requires CleanSegment(segment)
    ensures segment != ""
  {
  }

  lemma KindIsDirectory(source: Option<Mounts.Source>, path: string)
    ensures DirectoryKind(source, path) != Root && DirectoryKind(source, path) != File
  {
  }

  lemma DistinctOf(nodes: Nodes)
    requires Linked(nodes)
    ensures DistinctPaths(nodes)
  {
  }

  lemma LinkedOf(nodes: Nodes)
    requires Linked(nodes)
    ensures UniqueLive(nodes)
  {
    LinkedIsUnique(nodes);
  }

  lemma ChildHere(nodes: Nodes, parent: Id, k: Id, name: string)
    requires Linked(nodes) && Live(nodes, parent) && CleanSegment(name)
    requires LiveAt(nodes, k, ChildPath(nodes[parent].path, name))
    ensures nodes[k].parentID == Some(parent) && nodes[k].name == name
  {
    hide ChildPath, NodeOk, CleanSegment;
    ChildAtPath(nodes, parent, k, name);
  }

  /** A row that keeps its place is admitted. */
  lemma SamePlaceIsAdmitted(nodes: Nodes, k: Id, row: Node)
    requires Linked(nodes) && Live(nodes, k)
    requires row.parentID == nodes[k].parentID && row.name == nodes[k].name && row.path == nodes[k].path
    ensures Admits(nodes, k, row)
  {
    LinkedIsUnique(nodes);
    hide Linked;
    forall j | j in nodes && Live(nodes, j) && j != k ensures !Clash(row, nodes[j]) {
      assert !Clash(nodes[k], nodes[j]);
    }
  }

  lemma ChildRowIsAdmitted(nodes: Nodes, parent: Id, row: Node)
    requires Linked(nodes) && Live(nodes, parent)
    requires CleanSegment(row.name) && row.kind != Root && !row.isDeleted && row.parentID == Some(parent)
    requires row.path == ChildPath(nodes[parent].path, row.name)
    ensures forall j | Live(nodes, j) && nodes[j].path != row.path :: !Clash(row, nodes[j])
  {
    forall j | Live(nodes, j) && nodes[j].path != row.path ensures !Clash(row, nodes[j]) {
      assert NodeOk(nodes, j) && NodeOk(nodes, parent);
    }
  }

  lemma RootIsAdmitted(nodes: Nodes)
    ensures forall j | Live(nodes, j) && nodes[j].path != "/" :: !Clash(MetadataVfs.RootNode(), nodes[j])
  {
  }

  lemma SplitsIntoSegments(plan: CommitPlan)
    requires ValidPlan(plan)
    ensures plan.virtualParentPath != "/"
            ==> Split(TrimPrefix(plan.virtualParentPath, "/")) == Segments(plan.virtualParentPath)
    ensures plan.virtualParentPath == "/" ==> Segments(plan.virtualParentPath) == []
  {
    if plan.virtualParentPath != "/" {
      Shares.SplitOfCanonical(plan.virtualParentPath);
    } else {
      SegmentsOfRender([]);
    }
  }

  lemma StandingIsLive(p: Policy, nodes: Nodes, k: Id)
    requires Standing(p, nodes, k)
    ensures k in nodes
  {
  }

  /** Overwriting the root does not change what is in the way. */
  lemma WayIgnoresTheRoot(plan: CommitPlan, nodes: Nodes, root: Id)
    requires ValidPlan(plan) && Ready(nodes) && UpsertTarget(nodes, root, "/")
    ensures
      var p, start, segs := CommitPolicy(plan.source, plan.obj.sourceID), nodes[root := MetadataVfs.RootNode()],
        Segments(plan.virtualParentPath);
      && (Blocked(p, start, "/", segs) <==> WayBlocked(plan, nodes))
      && (Prepared(plan, nodes, root).None? <==> Blocked(p, start, "/", segs))
  {
    var p, start, segs := CommitPolicy(plan.source, plan.obj.sourceID), nodes[root := MetadataVfs.RootNode()],
      Segments(plan.virtualParentPath);
    CommitPolicyIsSound(plan.source, plan.obj.sourceID);
    RootStands(nodes, root, p);
    PlanSegments(plan);
    hide Segments, CommitPolicy, Standing, Blocked, Ready, IsCanonical, WellFormed, WellFormedOrEmpty, Linked,
         CleanSegments;
    BlockedIgnoresShorter(p, nodes, start, "/", segs);
    ChainFailsIffBlocked(p, start, root, segs);
  }

  lemma FailedWalk(plan: CommitPlan, nodes: Nodes, root: Id)
    requires ValidPlan(plan) && Ready(nodes) && UpsertTarget(nodes, root, "/") && Prepared(plan, nodes, root).None?
    ensures WayBlocked(plan, nodes)
  {
    hide Segments, Blocked, WayBlocked, Prepared, CommitPolicy;
    WayIgnoresTheRoot(plan, nodes, root);
  }

  lemma WalkIsNotBlocked(plan: CommitPlan, nodes: Nodes, root: Id)
    requires ValidPlan(plan) && Ready(nodes) && UpsertTarget(nodes, root, "/") && Prepared(plan, nodes, root).Some?
    ensures !WayBlocked(plan, nodes)
  {
    hide Segments, Blocked, WayBlocked, Prepared, CommitPolicy;
    WayIgnoresTheRoot(plan, nodes, root);
  }

  lemma PreparedParent(plan: CommitPlan, nodes: Nodes, root: Id)
    requires ValidPlan(plan) && Ready(nodes) && UpsertTarget(nodes, root, "/") && Prepared(plan, nodes, root).Some?
    ensures
      var (mid, parent) := Prepared(plan, nodes, root).value;
      && Linked(mid) && UniqueLive(mid) && LiveAt(mid, parent, plan.virtualParentPath) && IsDirectory(mid[parent])
      && ChildPath(mid[parent].path, plan.filename) == JoinVirtualPath(plan.virtualParentPath, plan.filename)
  {
    hide Segments, Prepared, CommitPolicy, Sound, OnlyOnTheWay, Settled, ChildPath, JoinVirtualPath;
    PreparedShape(plan, nodes, root);
    var (mid, parent) := Prepared(plan, nodes, root).value;
    LinkedOf(mid);
    FilePath(plan, mid, parent);
  }

  /** The walk does not touch what stands at the file's path. */
  lemma FileUntouched(plan: CommitPlan, nodes: Nodes, root: Id)
    requires ValidPlan(plan) && Ready(nodes) && UpsertTarget(nodes, root, "/") && Prepared(plan, nodes, root).Some?
    ensures
      var filePath := JoinVirtualPath(plan.virtualParentPath, plan.filename);
      var mid := Prepared(plan, nodes, root).value.0;
      (exists k :: LiveAt(mid, k, filePath) && mid[k].kind != File) <==> FileBlocked(plan, nodes)
  {
    PreparedShape(plan, nodes, root);
    var (mid, parent) := Prepared(plan, nodes, root).value;
    FilePath(plan, mid, parent);
    var filePath := JoinVirtualPath(plan.virtualParentPath, plan.filename);
    hide Segments, Prepared, CommitPolicy, Sound, Settled, ChildPath, JoinVirtualPath, Ready, Linked, Rooted;
    forall k: Id ensures LiveAt(mid, k, filePath) <==> LiveAt(nodes, k, filePath)
                 ensures LiveAt(nodes, k, filePath) ==> mid[k] == nodes[k]
    {
    }
  }

  lemma FileIsAdmitted(plan: CommitPlan, mid: Nodes, parent: Id, o: Id)
    requires ValidPlan(plan) && Linked(mid) && Live(mid, parent)
    ensures forall j | Live(mid, j) && mid[j].path != FileRow(plan, parent, mid[parent], o).path ::
              !Clash(FileRow(plan, parent, mid[parent], o), mid[j])
    ensures !FileRow(plan, parent, mid[parent], o).isDeleted
    ensures FileRow(plan, parent, mid[parent], o).path == ChildPath(mid[parent].path, plan.filename)
  {
    hide Linked, ChildPath;
    ChildRowIsAdmitted(mid, parent, FileRow(plan, parent, mid[parent], o));
  }

  lemma SameFile(plan: CommitPlan, mid: Nodes, parent: Id, o: Id, existing: Option<Id>, fileID: Id)
    requires Linked(mid) && parent in mid
    requires var path := FileRow(plan, parent, mid[parent], o).path;
             && UpsertTarget(mid, fileID, path)
             && (existing.Some? ==> LiveAt(mid, existing.value, path) && mid[existing.value].kind == File)
             && (existing.None? ==> forall k :: !LiveAt(mid, k, path))
    ensures fileID in mid ==> mid[fileID].kind == File
    ensures forall k | LiveAt(mid, k, FileRow(plan, parent, mid[parent], o).path) :: mid[k].kind == File
  {
  }

  lemma CommittedNow(plan: CommitPlan, nodes: Nodes, objects: Objects, root: Id, mid: Nodes, parent: Id, fileID: Id,
                     o: Id)
    requires UpsertTarget(nodes, root, "/") && Prepared(plan, nodes, root) == Some((mid, parent)) && parent in mid
    requires var row := FileRow(plan, parent, mid[parent], o);
             UpsertTarget(mid, fileID, row.path) && (fileID in mid ==> mid[fileID].kind == File)
    requires KeyTarget(objects, o, KeyOf(plan.obj))
    ensures Committed(nodes, objects, mid[fileID := FileRow(plan, parent, mid[parent], o)], objects[o := plan.obj],
                      plan, root, fileID, o)
  {
  }
}
