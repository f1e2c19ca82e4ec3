/** The mount service: source mounts are synchronized into the metadata tables and disabled again. */
module MountService {
  import opened Common
  import opened Text
  import opened Paths
  import opened Store
  import opened Tree
  import opened Repositories
  import opened DirChains
  import opened CommitService
  import opened MountSync
  import MetadataVfs
  import Mounts
  import Shares

  class MountStore {
    var mounts: MountRows

    constructor ()
      ensures mounts == map[]
    {
      mounts := map[];
    }

    method FindByMountPath(mountPath: string) returns (r: Option<Id>)
      ensures r.Some? ==> r.value in mounts && mounts[r.value].mountPath == mountPath
      ensures r.None? ==> forall m | m in mounts :: mounts[m].mountPath != mountPath
    {
      if m :| m in mounts && mounts[m].mountPath == mountPath { return Some(m); }
      return None;
    }

    /** `findMountForSyncTarget`. */
    method FindMountForSyncTarget(id: Id, target: Node) returns (r: Option<Id>)
      requires UniqueMounts(mounts)
      ensures r == MountOfTarget(mounts, id, target) && (r.Some? ==> r.value in mounts)
      ensures MountPathFor(mounts, id, target) == if r.Some? then Some(mounts[r.value].mountPath) else None
    {
      if target.mountID.Some? {
        return if target.mountID.value in mounts then target.mountID else None;
      }
      if target.kind == Mount {
        if m :| m in mounts && mounts[m].nodeID == id { return Some(m); }
      }
      return None;
    }

    /** `UpsertByMountPath`; the unique index on the node refuses a node that carries another mount. */
    method UpsertByMountPath(row: MountRow) returns (r: Result<Id>)
      modifies this
      ensures r.Ok? ==> MountTarget(old(mounts), r.value, row.mountPath) && NodeIsFree(old(mounts), r.value, row.nodeID)
                        && mounts == old(mounts)[r.value := row]
      ensures r.Err? ==> mounts == old(mounts)
      ensures UniqueMounts(old(mounts)) ==>
                (r.Ok? <==> forall m | m in old(mounts) && old(mounts)[m].mountPath != row.mountPath ::
                 old(mounts)[m].nodeID != row.nodeID)
    {
      var found := FindByMountPath(row.mountPath);
      var id := if found.Some? then found.value else FreshAbove(mounts.Keys);
      if !NodeIsFree(mounts, id, row.nodeID) { return Err(NameConflict); }
      mounts := mounts[id := row];
      return Ok(id);
    }

    method Disable(m: Id)
      requires m in mounts
      modifies this
      ensures mounts == old(mounts)[m := old(mounts)[m].(isEnabled := false)]
    {
      mounts := mounts[m := mounts[m].(isEnabled := false)];
    }
  }

  /** Nothing stands against the mount: the path is free or reusable, the walk to it is not blocked, and
      its node carries no other mount. */
  ghost predicate MayMount(nodes: Nodes, mounts: MountRows, sourceID: Id, mountPath: string) {
    && PathReusable(mounts, sourceID, mountPath) && MountPrepared(nodes, mounts, sourceID, mountPath).Some?
    && forall m | m in mounts && mounts[m].mountPath != mountPath ::
         mounts[m].nodeID != MountPrepared(nodes, mounts, sourceID, mountPath).value.1
  }

  class MetadataVFSMountService {
    const store: MetadataStore
    const table: MountStore
    const rootLocator: (Mounts.Source, string, string) -> Json

    constructor (store: MetadataStore, table: MountStore, rootLocator: (Mounts.Source, string, string) -> Json)
      ensures this.store == store && this.table == table && this.rootLocator == rootLocator
    {
      this.store, this.table, this.rootLocator := store, table, rootLocator;
    }

    method EnsureMountPathReusable(sourceID: Id, mountPath: string) returns (r: Option<Error>)
      requires UniqueMounts(table.mounts)
      ensures r == if PathReusable(table.mounts, sourceID, mountPath) then None else Some(SourceMountPathConflict)
    {
      var existing := table.FindByMountPath(mountPath);
      if existing.None? { return None; }
      var row := table.mounts[existing.value];
      if row.sourceID != sourceID && row.isEnabled { return Some(SourceMountPathConflict); }
      return None;
    }

    method MountNodeReusableForSource(nodeID: Id, sourceID: Id) returns (reusable: bool)
      requires UniqueMounts(table.mounts)
      ensures reusable == NodeReusable(table.mounts, nodeID, sourceID)
    {
      if m :| m in table.mounts && table.mounts[m].nodeID == nodeID {
        return table.mounts[m].sourceID == sourceID || !table.mounts[m].isEnabled;
      }
      return true;
    }

    /** One segment of the walk to the mount node. */
    method EnsureDirectory(sourceID: Id, mountPath: string, current: Id, segment: string) returns (r: Result<Id>)
      requires CleanSegment(segment) && UniqueMounts(table.mounts)
      requires Standing(MountPolicy(sourceID, mountPath, table.mounts), store.nodes, current)
      modifies store`nodes
      ensures
        var p := MountPolicy(sourceID, mountPath, table.mounts);
        && (r.Ok? ==> EnsureDir(p, old(store.nodes), current, segment) == Some((store.nodes, r.value))
                      && Standing(p, store.nodes, r.value))
        && (r.Err? ==> EnsureDir(p, old(store.nodes), current, segment) == None)
    {
      hide Sound, NodeOk, Linked, ChildPath, CleanSegment, UniqueLive, Clash, Admits, UniqueMounts, NodeReusable;
      ghost var p, nodes := MountPolicy(sourceID, mountPath, table.mounts), store.nodes;
      EnsureDirIsOneDir(p, nodes, current, segment);
      ChildPathIsJoin(nodes[current].path, segment) by { SegmentHasNoSlash(segment); }
      var currentPath := JoinVirtualPath(store.nodes[current].path, segment);
      var isMountNode := currentPath == mountPath;
      var desiredKind := if isMountNode then Mount else VirtualDir;
      var desiredSourceID := if isMountNode then Some(sourceID) else None;
      var found := store.FindByPath(currentPath);
      DistinctOf(nodes);
      if found.Some? {
        var k := found.value;
        RowAtIs(nodes, k, currentPath);
        var existing := store.nodes[k];
        if !IsDirectory(existing) { return Err(NameConflict); }
        if existing.kind == Mount && existing.sourceID.Some? && desiredSourceID.Some?
          && existing.sourceID != desiredSourceID {
          var reusable := MountNodeReusableForSource(k, desiredSourceID.value);
          if !reusable { return Err(SourceMountPathConflict); }
        }
        ChildHere(nodes, current, k, segment);
        if DirectoryNeedsUpdate(existing, current, segment, desiredKind, desiredSourceID) {
          existing := existing.(parentID := Some(current), name := segment, kind := desiredKind,
                                sourceID := desiredSourceID);
          existing := existing.(syncState := Indexed, mimeType := "inode/directory");
          SamePlaceIsAdmitted(nodes, k, existing);
          var failed := store.UpdateNode(k, existing);
        }
        assert store.nodes == nodes[k := p.adjust(nodes[k], currentPath)];
        return Ok(k);
      }
      var node := Node(Some(current), segment, currentPath, desiredKind, None, None, desiredSourceID,
                       None, None, 0, "inode/directory", "", "", Indexed, false);
      NewDirectoryIsAdmitted(nodes, current, node);
      var created := store.CreateNode(node);
      assert RowAt(nodes, currentPath) == None;
      return Ok(created.value);
    }

    method EnsureMountRoot() returns (root: Id)
      requires Ready(store.nodes)
      modifies store`nodes
      ensures (store.nodes, root) == RootedNodes(old(store.nodes))
    {
      hide UniqueLive, Clash;
      var found := store.FindByPath("/");
      if found.Some? {
        RootRow(store.nodes, found.value);
        return found.value;
      }
      RootIsAdmitted(store.nodes);
      ReadyIsUnique(store.nodes);
      ghost var before := store.nodes;
      var upserted := store.UpsertByPath(MetadataVfs.RootNode());
      assert RowAt(before, "/") == None;
      return upserted.value;
    }

    method EnsureSourceMountNode(sourceID: Id, mountPath: string) returns (r: Result<Id>)
      requires Ready(store.nodes) && UniqueMounts(table.mounts) && IsCanonical(mountPath)
      modifies store`nodes
      ensures r.Ok? ==> MountPrepared(old(store.nodes), table.mounts, sourceID, mountPath)
                        == Some((store.nodes, r.value))
      ensures r.Err? ==> MountPrepared(old(store.nodes), table.mounts, sourceID, mountPath) == None
    {
      hide Sound, NodeOk, Linked, UniqueLive, EnsureDir, MountPolicy, Standing, Segments, IsCanonical, Ready,
           UniqueMounts, RootedNodes,
           Admits;
      ghost var p, before, segs := MountPolicy(sourceID, mountPath, table.mounts), store.nodes, Segments(mountPath);
      var root := EnsureMountRoot();
      MountPolicyIsSound(sourceID, mountPath, table.mounts);
      RootedStands(before, p);
      ghost var start := store.nodes;
      StandingIsLive(p, start, root);
      if mountPath == "/" {
        var row := store.nodes[root].(sourceID := Some(sourceID), syncState := Indexed);
        StandingKeepsPlace(p, store.nodes, root, row);
        var failed := store.UpdateNode(root, row);
        return Ok(root);
      }
      MountSegments(mountPath);
      var current := root;
      var segments := Split(TrimPrefix(mountPath, "/"));
      var i := 0;
      while i < |segments|
        invariant 0 <= i <= |segments|
        invariant current in store.nodes && Standing(p, store.nodes, current)
        invariant Chain(p, start, root, segs) == Chain(p, store.nodes, current, segs[i..])
      {
        var segment := segments[i];
        assert segs[i..][0] == segment && segs[i..][1..] == segs[i + 1..];
        i := i + 1;
        SegmentIsNotEmpty(segment);
        var next := EnsureDirectory(sourceID, mountPath, current, segment);
        if next.Err? { return Err(next.error); }
        StandingIsLive(p, store.nodes, next.value);
        current := next.value;
      }
      assert segs[i..] == [];
      return Ok(current);
    }

    /** One mount row of the source; says whether it was enabled and no longer is. */
    method DropOne(m: Id, sourceID: Id, keep: string, ghost rows: MountRows, ghost nodes: Nodes, ghost done: set<Id>)
      returns (dropped: bool)
      requires Ready(nodes)
      requires m in rows && rows[m].sourceID == sourceID && m !in done
      requires Midway(rows, table.mounts, done, sourceID, keep)
               && StaleMidway(nodes, store.nodes, rows, done, sourceID, keep)
      modifies store`nodes, table
      ensures Midway(rows, table.mounts, done + {m}, sourceID, keep)
              && StaleMidway(nodes, store.nodes, rows, done + {m}, sourceID, keep)
      ensures Dropped(rows, done + {m}, sourceID, keep) == Dropped(rows, done, sourceID, keep)
              + (if dropped then {m} else {})
    {
      hide Ready, Linked, Admits, Midway, StaleMidway;
      DropStep(rows, table.mounts, done, sourceID, keep, m);
      StaleStep(nodes, store.nodes, rows, done, sourceID, keep, m);
      var nodeID := table.mounts[m].nodeID;
      if table.mounts[m].mountPath == keep { return false; }
      dropped := table.mounts[m].isEnabled;
      if dropped { table.Disable(m); }
      if nodeID in store.nodes && !store.nodes[nodeID].isDeleted {
        StaleIsAdmitted(nodes, store.nodes, rows, done, sourceID, keep, nodeID);
        var failed := store.UpdateNode(nodeID, store.nodes[nodeID].(syncState := Stale));
      }
    }

    /** `disableOtherSourceMounts`: every row of the source but the kept one is disabled, its node stale. */
    method DisableOtherSourceMounts(sourceID: Id, keep: string) returns (disabled: set<Id>)
      requires Ready(store.nodes)
      modifies store`nodes, table
      ensures table.mounts == DisabledMounts(old(table.mounts), sourceID, keep)
      ensures store.nodes == StaleNodes(old(store.nodes), old(table.mounts), sourceID, keep)
      ensures disabled == Dropped(old(table.mounts), old(table.mounts).Keys, sourceID, keep)
    {
      hide Ready, Linked, Admits, Midway, StaleMidway, StaleNodes, DisabledMounts, Dropped, IsDropped;
      disabled := {};
      ghost var rows, nodes := table.mounts, store.nodes;
      var listed: set<Id> := set m | m in table.mounts && table.mounts[m].sourceID == sourceID;
      ghost var done: set<Id> := {};
      DropStart(rows, nodes, sourceID, keep);
      while listed != {}
        invariant forall m: Id :: m in listed <==> m in rows && rows[m].sourceID == sourceID && m !in done
        invariant done <= rows.Keys
        invariant Midway(rows, table.mounts, done, sourceID, keep)
        invariant StaleMidway(nodes, store.nodes, rows, done, sourceID, keep)
        invariant disabled == Dropped(rows, done, sourceID, keep)
        decreases |listed|
      {
        var m: Id :| m in listed;
        listed := listed - {m};
        var dropped := DropOne(m, sourceID, keep, rows, nodes, done);
        if dropped { disabled := disabled + {m}; }
        done := done + {m};
      }
      DropEnd(rows, table.mounts, nodes, store.nodes, done, sourceID, keep);
    }

    /** `SyncSourceMount`: one transaction. Answers with the mount node and the mount row. */
    method SyncSourceMount(source: Mounts.Source) returns (r: Result<(Id, Id)>)
      requires Ready(store.nodes) && UniqueMounts(table.mounts)
      modifies store`nodes, table
      ensures r.Err? ==> store.nodes == old(store.nodes) && table.mounts == old(table.mounts)
      ensures
        var mountPath, rootPath := NormalizeVirtualPath(source.mountPath), NormalizeVirtualPath(source.rootPath);
        if source.id == 0 || mountPath.Err? || rootPath.Err? then r == Err(PathInvalid)
        else
          && (!PathReusable(old(table.mounts), source.id, mountPath.value) ==> r == Err(SourceMountPathConflict))
          && (r.Ok? ==> Synced(old(store.nodes), old(table.mounts), store.nodes, table.mounts, source.id,
                               source.isEnabled, mountPath.value,
                               rootLocator(source, mountPath.value, rootPath.value), r.value.0, r.value.1))
          && (r.Ok? <==> MayMount(old(store.nodes), old(table.mounts), source.id, mountPath.value))
    {
      hide UniqueLive, MountPrepared, NormalizeVirtualPath, IsCanonical, Ready, UniqueMounts, PathReusable, MountTarget,
           NodeIsFree, Admits,
           StaleNodes, DisabledMounts, Linked, WellFormed;
      if source.id == 0 { return Err(PathInvalid); }
      var mountPath := NormalizeVirtualPath(source.mountPath);
      if mountPath.Err? { return Err(mountPath.error); }
      var rootPath := NormalizeVirtualPath(source.rootPath);
      if rootPath.Err? { return Err(rootPath.error); }
      var savedNodes, savedMounts := store.nodes, table.mounts;
      var conflict := EnsureMountPathReusable(source.id, mountPath.value);
      if conflict.Some? { return Err(conflict.value); }
      var ensured := EnsureSourceMountNode(source.id, mountPath.value);
      if ensured.Err? {
        store.nodes := savedNodes;
        return Err(ensured.error);
      }
      var node := ensured.value;
      MountNodeStands(savedNodes, savedMounts, source.id, mountPath.value);
      ghost var mid := store.nodes;
      var row := MountRow(source.id, node, mountPath.value, rootLocator(source, mountPath.value, rootPath.value),
                          source.isEnabled);
      var upserted := table.UpsertByMountPath(row);
      if upserted.Err? {
        store.nodes := savedNodes;
        return Err(upserted.error);
      }
      var mountID := upserted.value;
      if store.nodes[node].mountID != Some(mountID) || store.nodes[node].syncState != Indexed {
        var next := store.nodes[node].(mountID := Some(mountID), syncState := Indexed);
        SamePlaceIsAdmitted(mid, node, next);
        var failed := store.UpdateNode(node, next);
      }
      assert store.nodes == mid[node := MountNodeRow(mid[node], mountID)];
      MountNodeRowKeepsTree(mid, node, mountID);
      LinkedIsReady(store.nodes);
      var disabled := DisableOtherSourceMounts(source.id, mountPath.value);
      return Ok((node, mountID));
    }

    method DisableSourceMount(sourceID: Id) returns (r: Option<Error>)
      requires Ready(store.nodes)
      modifies store`nodes, table
      ensures r == if sourceID == 0 then Some(PathInvalid) else None
      ensures r.None? ==> table.mounts == DisabledMounts(old(table.mounts), sourceID, "")
                          && store.nodes == StaleNodes(old(store.nodes), old(table.mounts), sourceID, "")
      ensures r.Some? ==> table.mounts == old(table.mounts) && store.nodes == old(store.nodes)
    {
      hide StaleNodes, DisabledMounts, Ready;
      if sourceID == 0 { return Some(PathInvalid); }
      var disabled := DisableOtherSourceMounts(sourceID, "");
      return None;
    }
  }

  // ---- Steps of the methods -------------------------------------------------------------------

  lemma NewDirectoryIsAdmitted(nodes: Nodes, parent: Id, row: Node)
    requires Linked(nodes) && Live(nodes, parent) && CleanSegment(row.name) && row.kind != Root && !row.isDeleted
    requires row.parentID == Some(parent) && row.path == ChildPath(nodes[parent].path, row.name)
    requires forall k :: !LiveAt(nodes, k, row.path)
    ensures Admits(nodes, FreshId(nodes), row)
  {
    hide ChildPath, NodeOk, CleanSegment, Admits;
    FreshChildIsAdmitted(nodes, parent, FreshId(nodes), row);
  }

  lemma RootRow(nodes: Nodes, k: Id)
    requires Ready(nodes) && LiveAt(nodes, k, "/")
    ensures RowAt(nodes, "/") == Some(k)
  {
    RowAtIs(nodes, k, "/");
  }

  lemma StandingKeepsPlace(p: Policy, nodes: Nodes, k: Id, row: Node)
    requires Standing(p, nodes, k)
    requires row.parentID == nodes[k].parentID && row.name == nodes[k].name && row.path == nodes[k].path
    ensures Admits(nodes, k, row)
  {
    hide Ready, Linked, Admits;
    SamePlaceIsAdmitted(nodes, k, row);
  }

  lemma MountSegments(mountPath: string)
    requires IsCanonical(mountPath) && mountPath != "/"
    ensures Split(TrimPrefix(mountPath, "/")) == Segments(mountPath) && CleanSegments(Segments(mountPath))
  {
    Shares.SplitOfCanonical(mountPath);
    CanonicalSegments(mountPath);
  }

  /** The rows in `done` are dealt with. */
  ghost predicate Midway(rows: MountRows, mounts: MountRows, done: set<Id>, sourceID: Id, keep: string) {
    && mounts.Keys == rows.Keys
    && forall m | m in rows ::
         mounts[m] == if m in done && IsDropped(rows[m], sourceID, keep) then rows[m].(isEnabled := false) else rows[m]
  }

  ghost predicate StaleMidway(nodes: Nodes, nodes': Nodes, rows: MountRows, done: set<Id>, sourceID: Id, keep: string) {
    && nodes'.Keys == nodes.Keys
    && forall k | k in nodes ::
         nodes'[k] == if Live(nodes, k) && exists m | m in rows ::
           m in done && IsDropped(rows[m], sourceID, keep) && rows[m].nodeID == k
                      then nodes[k].(syncState := Stale) else nodes[k]
  }

  /** The enabled rows dropped so far. */
  function Dropped(rows: MountRows, done: set<Id>, sourceID: Id, keep: string): set<Id> {
    set m | m in rows && m in done && IsDropped(rows[m], sourceID, keep) && rows[m].isEnabled
  }

  lemma DropStart(rows: MountRows, nodes: Nodes, sourceID: Id, keep: string)
    ensures Midway(rows, rows, {}, sourceID, keep) && StaleMidway(nodes, nodes, rows, {}, sourceID, keep)
    ensures Dropped(rows, {}, sourceID, keep) == {}
  {
  }

  lemma DropStep(rows: MountRows, mounts: MountRows, done: set<Id>, sourceID: Id, keep: string, m: Id)
    requires Midway(rows, mounts, done, sourceID, keep) && m in rows && m !in done
    ensures m in mounts && mounts[m] == rows[m]
    ensures IsDropped(rows[m], sourceID, keep) && rows[m].isEnabled ==>
              Midway(rows, mounts[m := mounts[m].(isEnabled := false)], done + {m}, sourceID, keep)
    ensures !(IsDropped(rows[m], sourceID, keep) && rows[m].isEnabled)
            ==> Midway(rows, mounts, done + {m}, sourceID, keep)
  {
  }

  lemma StaleStep(nodes: Nodes, nodes': Nodes, rows: MountRows, done: set<Id>, sourceID: Id, keep: string, m: Id)
    requires StaleMidway(nodes, nodes', rows, done, sourceID, keep) && m in rows && m !in done
    ensures
      var k := rows[m].nodeID;
      if IsDropped(rows[m], sourceID, keep) && Live(nodes', k)
      then StaleMidway(nodes, nodes'[k := nodes'[k].(syncState := Stale)], rows, done + {m}, sourceID, keep)
      else StaleMidway(nodes, nodes', rows, done + {m}, sourceID, keep)
  {
    var k := rows[m].nodeID;
    assert m in done + {m};
    assert forall j | j in rows && j in done + {m} :: j == m || j in done;
    forall n | n in nodes && (exists j | j in rows ::
                              j in done && IsDropped(rows[j], sourceID, keep) && rows[j].nodeID == n)
      ensures exists j | j in rows :: j in done + {m} && IsDropped(rows[j], sourceID, keep) && rows[j].nodeID == n
    {
      var j :| j in rows && j in done && IsDropped(rows[j], sourceID, keep) && rows[j].nodeID == n;
      assert j in done + {m};
    }
  }

  lemma DropEnd(rows: MountRows, mounts: MountRows, nodes: Nodes, nodes': Nodes, done: set<Id>, sourceID: Id,
                keep: string)
    requires forall m: Id | m in rows && rows[m].sourceID == sourceID :: m in done
    requires Midway(rows, mounts, done, sourceID, keep) && StaleMidway(nodes, nodes', rows, done, sourceID, keep)
    ensures Dropped(rows, done, sourceID, keep) == Dropped(rows, rows.Keys, sourceID, keep)
    ensures mounts == DisabledMounts(rows, sourceID, keep) && nodes' == StaleNodes(nodes, rows, sourceID, keep)
  {
    forall k | k in nodes ensures nodes'[k] == StaleNodes(nodes, rows, sourceID, keep)[k] {
      if m :| m in rows && IsDropped(rows[m], sourceID, keep) && rows[m].nodeID == k {
        assert m in done;
      }
    }
  }

  lemma StaleIsAdmitted(nodes: Nodes, nodes': Nodes, rows: MountRows, done: set<Id>, sourceID: Id, keep: string, k: Id)
    requires Ready(nodes)
    requires StaleMidway(nodes, nodes', rows, done, sourceID, keep) && Live(nodes', k)
    ensures Admits(nodes', k, nodes'[k].(syncState := Stale))
  {
    assert Live(nodes, k);
    hide Ready, Linked, Admits;
    PlaceKept(nodes, nodes');
    SamePlaceIsAdmitted(nodes', k, nodes'[k].(syncState := Stale));
  }
}
