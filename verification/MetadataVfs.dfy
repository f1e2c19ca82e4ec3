/** The metadata VFS control plane: directories are made, renamed, moved and deleted in the tables. */
module MetadataVfs {
  import opened Common
  import opened Text
  import opened Paths
  import opened Store
  import opened Tree
  import opened Rewrite
  import opened Locators
  import opened Repositories

  // ---- Plans: what a request asks for when all its checks pass ---------------------------------

  function RootNode(): Node {
    Node(None, "", "/", Root, None, None, None, None, None, 0, "", "", "", Indexed, false)
  }

  /** The row `Mkdir` inserts: below a mount or a sourced directory a `dir`, elsewhere a `virtual_dir`. */
  function NewDirectory(parentID: Id, parent: Node, name: string): Node {
    Node(Some(parentID), name, ChildPath(parent.path, name),
         if parent.kind == Mount || parent.sourceID.Some? || parent.mountID.Some? then Dir else VirtualDir,
         parent.mountID, None, parent.sourceID, None, None, 0, "", "", "", Indexed, false)
  }

  /** The request path names live row `id`. */
  ghost predicate Resolves(nodes: Nodes, virtualPath: string, id: Id) {
    NormalizeVirtualPath(virtualPath).Ok? && LiveAt(nodes, id, NormalizeVirtualPath(virtualPath).value)
  }

  /** The row may be renamed, moved or deleted: it is neither the root nor a mount point. */
  predicate Movable(node: Node) {
    node.kind != Root && node.parentID.Some? && node.kind != Mount
  }

  ghost predicate NameIsFree(nodes: Nodes, path: string) {
    !HasDotDot(path) && forall k :: !LiveAt(nodes, k, path)
  }

  ghost predicate MkdirPlan(nodes: Nodes, parentPath: string, name: string, parent: Id) {
    && ValidName(name) && Resolves(nodes, parentPath, parent) && IsDirectory(nodes[parent])
    && NameIsFree(nodes, ChildPath(nodes[parent].path, name))
  }

  /** An empty row below the requested directory, with its source and mount: a `dir` if the directory is a mount or
      has a source or a mount, else a `virtual_dir`. */
  ghost predicate MadeBelow(nodes: Nodes, parentPath: string, name: string, row: Node) {
    && row.parentID.Some? && Resolves(nodes, parentPath, row.parentID.value)
    && var parent := nodes[row.parentID.value];
       && row.name == name && row.path == JoinVirtualPath(parent.path, name)
       && row.sourceID == parent.sourceID && row.mountID == parent.mountID && row.objectID == None
       && row.syncState == Indexed && !row.isDeleted && row.size == 0
       && (parent.kind == Mount || parent.sourceID.Some? || parent.mountID.Some? ==> row.kind == Dir)
       && (parent.kind != Mount && parent.sourceID.None? && parent.mountID.None? ==> row.kind == VirtualDir)
  }

  ghost predicate RenamePlan(nodes: Nodes, path: string, newName: string, id: Id) {
    && ValidName(newName) && Resolves(nodes, path, id) && Movable(nodes[id]) && nodes[id].name != newName
    && nodes[id].parentID.value in nodes
    && NameIsFree(nodes, ChildPath(nodes[nodes[id].parentID.value].path, newName))
  }

  ghost predicate MovePlan(nodes: Nodes, path: string, targetParentPath: string, id: Id, target: Id) {
    && Resolves(nodes, path, id) && Movable(nodes[id])
    && Resolves(nodes, targetParentPath, target) && IsDirectory(nodes[target])
    && !AtOrBelow(nodes[id].path, nodes[target].path)
    && nodes[id].mountID == nodes[target].mountID && nodes[id].sourceID == nodes[target].sourceID
    && nodes[id].parentID != Some(target)
    && NameIsFree(nodes, ChildPath(nodes[target].path, nodes[id].name))
  }

  ghost predicate DeletePlan(nodes: Nodes, path: string, id: Id) {
    Resolves(nodes, path, id) && nodes[id].kind != Root && nodes[id].kind != Mount
  }

  function DeleteNodes(nodes: Nodes, path: string): Nodes {
    map k | k in nodes :: if Live(nodes, k) && MatchesDeleteQuery(path, nodes[k].path)
                          then nodes[k].(isDeleted := true) else nodes[k]
  }

  lemma RenamePlanCanRewrite(nodes: Nodes, path: string, newName: string, id: Id)
    requires Linked(nodes) && RenamePlan(nodes, path, newName, id)
    ensures
      var parent := nodes[id].parentID.value;
      CanRewrite(nodes, id, parent, newName, ChildPath(nodes[parent].path, newName))
  {
    assert NodeOk(nodes, id);
    var parent := nodes[id].parentID.value;
    assert NodeOk(nodes, parent);
    ParentIsShorter(nodes, id);
    ShorterIsNotBelow(nodes[id].path, nodes[parent].path);
  }

  lemma MovePlanCanRewrite(nodes: Nodes, path: string, targetParentPath: string, id: Id, target: Id)
    requires Linked(nodes) && MovePlan(nodes, path, targetParentPath, id, target)
    ensures CanRewrite(nodes, id, target, nodes[id].name, ChildPath(nodes[target].path, nodes[id].name))
  {
    assert NodeOk(nodes, id);
  }

  /** A subtree rewrite took place, in nodes and objects. */
  ghost predicate Rewritten(nodes: Nodes, objects: Objects, nodes': Nodes, objects': Objects, sources: Sources,
                            id: Id, newParent: Id, newName: string, newPath: string)
    requires id in nodes
  {
    && nodes' == RewriteNodes(nodes, id, newParent, newName, newPath)
    && ObjectsFollow(nodes, nodes', MovedRows(nodes, id), objects, objects', sources)
    && (UniqueKeys(objects) ==> UniqueKeys(objects'))
  }

  // ---- The service ----------------------------------------------------------------------------

  class MetadataVFSService {
    const store: MetadataStore
    const sources: Sources

    constructor (store: MetadataStore, sources: Sources)
      ensures this.store == store && this.sources == sources
    {
      this.store, this.sources := store, sources;
    }

    /** The rows `ListByPathPrefix` returns, shortest path first, as the service sorts them. */
    method ListByPathPrefixSorted(prefix: string) returns (ids: seq<Id>)
      ensures forall k :: k in ids <==> k in store.nodes && Selected(store.nodes, prefix, k)
      ensures forall i, j | 0 <= i < j < |ids| :: ids[i] != ids[j]
      ensures ByPathLength(store.nodes, ids)
    {
      ids := SortByPathLength(store.nodes, set k | k in store.nodes && Selected(store.nodes, prefix, k));
    }

    method EnsureRoot() returns (id: Id)
      requires UniqueLive(store.nodes)
      modifies store`nodes
      ensures EnsuresRoot(old(store.nodes), store.nodes, id)
    {
      var upserted := store.UpsertByPath(RootNode());
      return upserted.value;
    }

    method ResolveNode(virtualPath: string) returns (r: Result<Id>)
      ensures r.Ok? ==> Resolves(store.nodes, virtualPath, r.value)
      ensures r.Err? ==> forall k :: !Resolves(store.nodes, virtualPath, k)
      ensures r.Err? ==> r.error == if NormalizeVirtualPath(virtualPath).Ok? then FileNotFound else PathInvalid
    {
      hide NormalizeVirtualPath;
      var normalized := NormalizeVirtualPath(virtualPath);
      if normalized.Err? { return Err(normalized.error); }
      var found := store.FindByPath(normalized.value);
      if found.None? { return Err(FileNotFound); }
      return Ok(found.value);
    }

    method EnsureMetadataNameAvailable(targetPath: string) returns (r: Option<Error>)
      requires IsClean(targetPath) && targetPath != "/"
      ensures r.None? <==> NameIsFree(store.nodes, targetPath)
      ensures r.Some? ==> r.value == if HasDotDot(targetPath) then PathInvalid else NameConflict
    {
      CleanIsNormal(targetPath);
      hide IsClean;
      var normalized := NormalizeVirtualPath(targetPath);
      if normalized.Err? { return Some(normalized.error); }
      if normalized.value == "/" { return Some(NameConflict); }
      var found := store.FindByPath(normalized.value);
      if found.Some? { return Some(NameConflict); }
      return None;
    }

    method Mkdir(parentPath: string, name: string) returns (r: Result<Id>)
      requires Ready(store.nodes)
      modifies store`nodes
      ensures r.Ok? ==> exists parent ::
                && MkdirPlan(old(store.nodes), parentPath, name, parent)
                && r.value !in old(store.nodes)
                && store.nodes == old(store.nodes)[r.value := NewDirectory(parent, old(store.nodes)[parent], name)]
      ensures r.Err? ==> store.nodes == old(store.nodes) && forall parent ::
              !MkdirPlan(store.nodes, parentPath, name, parent)
      ensures r.Ok? ==> r.value in store.nodes && MadeBelow(old(store.nodes), parentPath, name, store.nodes[r.value])
      ensures r == Err(FileNameInvalid) <==> name in {"", ".", ".."} || '/' in name || '\\' in name
    {
      if !ValidName(name) { return Err(FileNameInvalid); }
      var resolved := ResolveNode(parentPath);
      if resolved.Err? { return Err(resolved.error); }
      var parent := resolved.value;
      ResolvedInLinked(store.nodes, parentPath, parent);
      OnlyOneResolves(store.nodes, parentPath, parent);
      if !IsDirectory(store.nodes[parent]) { return Err(PathInvalid); }
      var targetPath := JoinVirtualPath(store.nodes[parent].path, name);
      ChildOfStored(store.nodes, parent, name);
      var unavailable := EnsureMetadataNameAvailable(targetPath);
      if unavailable.Some? { return Err(unavailable.value); }
      assert MkdirPlan(store.nodes, parentPath, name, parent);
      ghost var before := store.nodes;
      FreshChildIsAdmitted(store.nodes, parent, FreshId(store.nodes), NewDirectory(parent, store.nodes[parent], name));
      r := store.CreateNode(NewDirectory(parent, store.nodes[parent], name));
      assert MkdirPlan(before, parentPath, name, parent);
    }

    /** `ensureMetadataSubtreeTargetAvailable`: no target path belongs to a row outside the subtree. */
    method EnsureSubtreeTargetAvailable(subtree: seq<Id>, oldPrefix: string, newPrefix: string)
      returns (r: Option<Error>)
      requires forall k | k in subtree :: k in store.nodes
      ensures r == Some(NameConflict) || r == None
      ensures r.Some? ==> exists k, j | k in subtree && Live(store.nodes, j) ::
                j !in subtree && store.nodes[j].path == RewriteSubtreePath(store.nodes[k].path, oldPrefix, newPrefix)
      ensures r.None? && DistinctPaths(store.nodes) ==> forall k: Id, j: Id | k in subtree && Live(store.nodes, j) ::
                store.nodes[j].path == RewriteSubtreePath(store.nodes[k].path, oldPrefix, newPrefix) ==> j in subtree
    {
      for i := 0 to |subtree|
        invariant DistinctPaths(store.nodes) ==> forall n: nat, j: Id | n < i && Live(store.nodes, j) ::
                    store.nodes[j].path == RewriteSubtreePath(store.nodes[subtree[n]].path, oldPrefix, newPrefix) ==>
                      j in subtree
      {
        var targetPath := RewriteSubtreePath(store.nodes[subtree[i]].path, oldPrefix, newPrefix);
        var existing := store.FindByPath(targetPath);
        if existing.Some? && existing.value !in subtree {
          assert subtree[i] in subtree;
          return Some(NameConflict);
        }
        if DistinctPaths(store.nodes) {
          forall j: Id | Live(store.nodes, j) && store.nodes[j].path == targetPath ensures j in subtree {
            assert LiveAt(store.nodes, j, targetPath);
          }
        }
      }
      return None;
    }

    /** `syncPathBasedObjectLocator` for a row about to be written. */
    method SyncPathBasedObjectLocator(node: Node) returns (r: Option<Error>)
      modifies store`objects
      ensures r.None? <==> LocatorAdmitted(node, node.path, old(store.objects), sources)
      ensures store.objects == if r.None? then SyncedObjects(node, node.path, old(store.objects), sources)
              else old(store.objects)
      ensures r.None? && node.kind == File && node.objectID.Some? && node.sourceID.Some?
              && node.objectID.value in old(store.objects) ==>
                var o := node.objectID.value;
                var kind := TrimSpace(old(store.objects)[o].locatorType);
                if kind == "local_path" || kind == "driver_path" || kind == "provider_path" then
                  && MetadataNodeInnerPath(sources, node.sourceID.value, node.path).Ok?
                  && store.objects == old(store.objects)[o := old(store.objects)[o].(
                       locator := map["path" := MetadataNodeInnerPath(sources, node.sourceID.value, node.path).value])]
                else store.objects == old(store.objects)
    {
      if !Syncs(node, store.objects) { return None; }
      var innerPath := MetadataNodeInnerPath(sources, node.sourceID.value, node.path);
      if innerPath.Err? { return Some(innerPath.error); }
      var obj := store.objects[node.objectID.value];
      r := store.UpdateObject(node.objectID.value, obj.(locator := PathLocator(innerPath.value)));
    }

    /** One turn of the rewrite loop: the locator first, then the row. */
    method WriteRow(k: Id, item: Node) returns (r: Option<Error>)
      requires k in store.nodes
      modifies store`nodes, store`objects
      ensures r.None? <==> LocatorAdmitted(item, item.path, old(store.objects), sources)
                           && Admits(old(store.nodes), k, item)
      ensures r.None? ==> store.nodes == old(store.nodes)[k := item]
      ensures r.None? ==> store.objects == SyncedObjects(item, item.path, old(store.objects), sources)
      ensures UniqueKeys(old(store.objects)) ==> UniqueKeys(store.objects)
    {
      SyncKeepsKeys(item, item.path, store.objects, sources);
      r := SyncPathBasedObjectLocator(item);
      if r.Some? { return; }
      r := store.UpdateNode(k, item);
    }

    /** The loop of `updateMetadataSubtreePath` over the selected rows. */
    method RewriteRows(subtree: seq<Id>, id: Id, newParent: Id, newName: string, newPath: string)
      returns (r: Option<Error>)
      requires id in store.nodes
      requires forall k :: k in subtree <==> k in MovedRows(store.nodes, id)
      requires forall i, j | 0 <= i < j < |subtree| :: subtree[i] != subtree[j]
      modifies store`nodes, store`objects
      ensures r.None? ==> Rewritten(old(store.nodes), old(store.objects), store.nodes, store.objects, sources, id,
                                    newParent, newName, newPath)
      ensures CanRewrite(old(store.nodes), id, newParent, newName, newPath)
              && LocatorsAgree(old(store.nodes), old(store.objects), sources) ==>
                (r.None? <==> PlacesFree(old(store.nodes),
                                         RewriteNodes(old(store.nodes), id, newParent, newName, newPath),
                                         MovedRows(old(store.nodes), id), old(store.objects), sources))
    {
      hide CanRewrite, Selected, LocatorsAgree, Mid, Admits, LocatorAdmitted, SyncedObjects, PlacesFree, ObjectsFollow,
           Live, UniqueKeys, RewrittenNode;
      ghost var before, objectsBefore := store.nodes, store.objects;
      ghost var after := RewriteNodes(store.nodes, id, newParent, newName, newPath);
      ghost var moved := MovedRows(store.nodes, id);
      ghost var agreed := CanRewrite(store.nodes, id, newParent, newName, newPath)
                          && LocatorsAgree(store.nodes, store.objects, sources);
      var oldPath := store.nodes[id].path;
      ghost var done: set<Id> := {};
      RewrittenRows(before, id, newParent, newName, newPath);
      MidStart(before, after, store.objects, sources);
      NoPlaces(before, after, store.objects, sources);
      var i := 0;
      while i < |subtree|
        invariant 0 <= i <= |subtree|
        invariant forall j | 0 <= j < i :: subtree[j] in done
        invariant forall j | i <= j < |subtree| :: subtree[j] !in done
        invariant done <= moved
        invariant Mid(before, after, done, store.nodes, objectsBefore, store.objects, sources)
        invariant UniqueKeys(objectsBefore) ==> UniqueKeys(store.objects)
        invariant agreed ==> PlacesFree(before, after, done, objectsBefore, sources)
      {
        var k := subtree[i];
        assert k in subtree && k !in done && k in moved;
        MidRow(before, after, done, store.nodes, objectsBefore, store.objects, sources, k);
        var item := store.nodes[k];
        if k == id {
          item := item.(parentID := Some(newParent), name := newName, path := newPath);
        } else {
          item := item.(path := RewriteSubtreePath(item.path, oldPath, newPath));
        }
        assert item == after[k] by { RewrittenItem(before, id, newParent, newName, newPath, k); }
        ghost var nodesNow, objectsNow := store.nodes, store.objects;
        if agreed {
          PlaceMidway(before, done, store.nodes, objectsBefore, store.objects, sources, id, newParent, newName, newPath,
                      k);
          PlacesBeside(before, after, done, moved, objectsBefore, sources, k);
        }
        r := WriteRow(k, item);
        if r.Some? { return; }
        MidStep(before, after, done, nodesNow, objectsBefore, objectsNow, sources, k);
        done := done + {k};
        i := i + 1;
      }
      forall k | k in moved ensures k in done { assert k in subtree; }
      assert done == moved;
      MidEnd(before, after, moved, store.nodes, objectsBefore, store.objects, sources);
      return None;
    }

    /** `updateMetadataSubtreePath`: one transaction that rewrites every selected row and its locator. */
    method UpdateMetadataSubtreePath(id: Id, newParent: Id, newName: string, newPath: string)
      returns (r: Option<Error>)
      requires id in store.nodes
      modifies store`nodes, store`objects
      ensures r.None? ==> Rewritten(old(store.nodes), old(store.objects), store.nodes, store.objects, sources, id,
                                    newParent, newName, newPath)
      ensures r.None? ==> exists k :: Selected(old(store.nodes), old(store.nodes)[id].path, k)
      ensures r.Some? ==> store.nodes == old(store.nodes) && store.objects == old(store.objects)
      ensures CanRewrite(old(store.nodes), id, newParent, newName, newPath)
              && LocatorsAgree(old(store.nodes), old(store.objects), sources) ==>
                (r.None? <==>
                   && (exists k :: Selected(old(store.nodes), old(store.nodes)[id].path, k))
                   && PlacesFree(old(store.nodes), RewriteNodes(old(store.nodes), id, newParent, newName, newPath),
                                 MovedRows(old(store.nodes), id), old(store.objects), sources))
    {
      hide CanRewrite, Selected, LocatorsAgree, PlacesFree, RewriteNodes, Rewritten, ByPathLength;
      var savedNodes, savedObjects := store.nodes, store.objects;
      var subtree := ListByPathPrefixSorted(store.nodes[id].path);
      ghost var planned := CanRewrite(store.nodes, id, newParent, newName, newPath);
      if planned {
        NoForeignTarget(store.nodes, id, newParent, newName, newPath, subtree);
      }
      SelectedAreStored(store.nodes, store.nodes[id].path);
      if |subtree| == 0 { return Some(FileNotFound); }
      assert subtree[0] in subtree;
      r := EnsureSubtreeTargetAvailable(subtree, store.nodes[id].path, newPath);
      if r.Some? { return; }
      r := RewriteRows(subtree, id, newParent, newName, newPath);
      if r.Some? {
        store.nodes, store.objects := savedNodes, savedObjects;
      }
    }

    /** How `Rename` and `Move` end: the rewrite, then the look-up of the node at its new path. */
    method RewriteAndResolve(id: Id, newParent: Id, newName: string, newPath: string) returns (r: Result<(string, Id)>)
      requires CanRewrite(store.nodes, id, newParent, newName, newPath) && IsClean(newPath) && !HasDotDot(newPath)
      modifies store`nodes, store`objects
      ensures id in old(store.nodes)
      ensures r.Ok? ==>
                && r.value == (old(store.nodes)[id].path, id)
                && Rewritten(old(store.nodes), old(store.objects), store.nodes, store.objects, sources, id, newParent,
                             newName, newPath)
      ensures (store.nodes == old(store.nodes) && store.objects == old(store.objects) && r.Err?)
              || (&& Rewritten(old(store.nodes), old(store.objects), store.nodes, store.objects, sources, id, newParent,
                               newName, newPath)
                  && (exists k :: Selected(old(store.nodes), old(store.nodes)[id].path, k))
                  && (r.Err? <==> MissesItself(old(store.nodes)[id])))
      ensures LocatorsAgree(old(store.nodes), old(store.objects), sources) ==>
                var free := PlacesFree(old(store.nodes),
                                       RewriteNodes(old(store.nodes), id, newParent, newName, newPath),
                                       MovedRows(old(store.nodes), id), old(store.objects), sources);
                && (store.nodes != old(store.nodes) <==>
                      (exists k :: Selected(old(store.nodes), old(store.nodes)[id].path, k)) && free)
                && (r.Ok? <==> !MissesItself(old(store.nodes)[id]) && free)
    {
      AnsweredIff(store.nodes, id, newParent, newName, newPath);
      hide CanRewrite, Selected, LocatorsAgree, PlacesFree, RewriteNodes, Resolves, MissesItself, NormalizeVirtualPath,
           IsClean;
      ghost var before := store.nodes;
      InTable(store.nodes, id, newParent, newName, newPath);
      var oldPath := store.nodes[id].path;
      var failed := UpdateMetadataSubtreePath(id, newParent, newName, newPath);
      if failed.Some? { return Err(failed.value); }
      var updated := ResolveNode(newPath);
      if updated.Err? {
        assert !Resolves(store.nodes, newPath, id);
        return Err(updated.error);
      }
      return Ok((oldPath, updated.value));
    }

    method Rename(path: string, newName: string) returns (r: Result<(string, Id)>)
      requires Ready(store.nodes)
      modifies store`nodes, store`objects
      ensures newName in {"", ".", ".."} || '/' in newName || '\\' in newName ==> r == Err(FileNameInvalid)
      ensures forall id | ValidName(newName) && Resolves(old(store.nodes), path, id)
              && old(store.nodes)[id].kind == Mount ::
                r == Err(SourceOperationUnsupported)
      ensures r.Ok? ==>
                && Resolves(old(store.nodes), path, r.value.1) && r.value.0 == old(store.nodes)[r.value.1].path
                && if old(store.nodes)[r.value.1].name == newName
                   then store.nodes == old(store.nodes) && store.objects == old(store.objects)
                   else Renamed(old(store.nodes), old(store.objects), store.nodes, store.objects, sources, path,
                                newName, r.value.1)
      ensures LocatorsAgree(old(store.nodes), old(store.objects), sources) ==>
                forall id :: RenamePlan(old(store.nodes), path, newName, id) ==>
                  && (store.nodes != old(store.nodes) <==>
                        && (exists k :: Selected(old(store.nodes), old(store.nodes)[id].path, k))
                        && RenamePlacesFree(old(store.nodes), old(store.objects), sources, newName, id))
                  && (r.Ok? <==>
                        && !MissesItself(old(store.nodes)[id])
                        && RenamePlacesFree(old(store.nodes), old(store.objects), sources, newName, id))
      ensures (store.nodes == old(store.nodes) && store.objects == old(store.objects))
              || exists id, k ::
                   && Renamed(old(store.nodes), old(store.objects), store.nodes, store.objects, sources, path, newName,
                              id)
                   && Selected(old(store.nodes), old(store.nodes)[id].path, k)
                   && (r.Err? <==> MissesItself(old(store.nodes)[id]))
    {
      if !ValidName(newName) { return Err(FileNameInvalid); }
      var resolved := ResolveNode(path);
      if resolved.Err? { return Err(resolved.error); }
      var id := resolved.value;
      ResolvedInLinked(store.nodes, path, id);
      OnlyOneResolves(store.nodes, path, id);
      assert NodeOk(store.nodes, id);
      if store.nodes[id].kind == Root || store.nodes[id].parentID.None? { return Err(PathInvalid); }
      if store.nodes[id].kind == Mount { return Err(SourceOperationUnsupported); }
      if store.nodes[id].name == newName { return Ok((store.nodes[id].path, id)); }
      var parent := store.nodes[id].parentID.value;
      DirIsParentPath(store.nodes, id);
      var parentPath := DirOf(store.nodes[id].path);
      ParentIsShorter(store.nodes, id);
      ChildOfStored(store.nodes, parent, newName);
      var newPath := JoinVirtualPath(parentPath, newName);
      var unavailable := EnsureMetadataNameAvailable(newPath);
      if unavailable.Some? { return Err(unavailable.value); }
      assert RenamePlan(store.nodes, path, newName, id);
      RenamePlanCanRewrite(store.nodes, path, newName, id);
      hide Linked, CanRewrite, Selected, RewriteNodes, ObjectsFollow, PlacesFree, LocatorsAgree, UniqueKeys, ValidName,
           Rewritten, MissesItself, IsClean, HasDotDot;
      r := RewriteAndResolve(id, parent, newName, newPath);
    }

    /** The checks of `Move`; the node may be where it is wanted already. */
    method PlanMove(path: string, targetParentPath: string) returns (r: Result<(Id, Id)>)
      requires Ready(store.nodes)
      ensures r.Err? ==> forall id, target :: !MovePlan(store.nodes, path, targetParentPath, id, target)
      ensures r.Ok? ==>
                var (id, target) := r.value;
                && Linked(store.nodes) && Resolves(store.nodes, path, id)
                && Resolves(store.nodes, targetParentPath, target)
                && (store.nodes[id].parentID == Some(target)
                    || MovePlan(store.nodes, path, targetParentPath, id, target))
                && forall k, t | MovePlan(store.nodes, path, targetParentPath, k, t) ::
                     k == id && t == target && store.nodes[id].parentID != Some(target)
    {
      var resolved := ResolveNode(path);
      if resolved.Err? { return Err(resolved.error); }
      var id := resolved.value;
      ResolvedInLinked(store.nodes, path, id);
      OnlyOneResolves(store.nodes, path, id);
      if store.nodes[id].kind == Root || store.nodes[id].parentID.None? { return Err(PathInvalid); }
      if store.nodes[id].kind == Mount { return Err(SourceOperationUnsupported); }
      var resolvedTarget := ResolveNode(targetParentPath);
      if resolvedTarget.Err? { return Err(resolvedTarget.error); }
      var target := resolvedTarget.value;
      OnlyOneResolves(store.nodes, targetParentPath, target);
      if !IsDirectory(store.nodes[target]) { return Err(PathInvalid); }
      ResolvedContainment(store.nodes, path, targetParentPath, id, target);
      if IsSubPath(store.nodes[id].path, store.nodes[target].path) { return Err(PathInvalid); }
      if store.nodes[id].mountID != store.nodes[target].mountID
        || store.nodes[id].sourceID != store.nodes[target].sourceID {
        return Err(SourceOperationUnsupported);
      }
      if store.nodes[id].parentID == Some(target) { return Ok((id, target)); }
      assert NodeOk(store.nodes, id);
      ChildOfStored(store.nodes, target, store.nodes[id].name);
      var newPath := JoinVirtualPath(store.nodes[target].path, store.nodes[id].name);
      var unavailable := EnsureMetadataNameAvailable(newPath);
      if unavailable.Some? { return Err(unavailable.value); }
      assert MovePlan(store.nodes, path, targetParentPath, id, target);
      return Ok((id, target));
    }

    method Move(path: string, targetParentPath: string) returns (r: Result<(string, Id)>)
      requires Ready(store.nodes)
      modifies store`nodes, store`objects
      ensures r.Ok? ==> MoveAnswers(old(store.nodes), old(store.objects), store.nodes, store.objects, sources, path,
                                    targetParentPath, r.value)
      ensures MoveSucceedsIffFree(old(store.nodes), old(store.objects), store.nodes, sources, path, targetParentPath,
                                  r.Ok?)
      ensures MoveChanges(old(store.nodes), old(store.objects), store.nodes, store.objects, sources, path,
                          targetParentPath, r.Err?)
    {
      hide MoveSucceedsIffFree, MoveChanges, MoveAnswers;
      ghost var nodes, objects := store.nodes, store.objects;
      var planned := PlanMove(path, targetParentPath);
      if planned.Err? {
        NotMoved(nodes, objects, sources, path, targetParentPath, false);
        return Err(planned.error);
      }
      var (id, target) := planned.value;
      if store.nodes[id].parentID == Some(target) {
        NotMoved(nodes, objects, sources, path, targetParentPath, true);
        InPlace(nodes, objects, sources, path, targetParentPath, id, target);
        return Ok((store.nodes[id].path, id));
      }
      MovePlanCanRewrite(store.nodes, path, targetParentPath, id, target);
      ChildOfStored(store.nodes, target, store.nodes[id].name) by { assert NodeOk(store.nodes, id); }
      var newPath := JoinVirtualPath(store.nodes[target].path, store.nodes[id].name);
      assert IsClean(newPath) && !HasDotDot(newPath) && newPath == ChildPath(nodes[target].path, nodes[id].name);
      hide *;
      r := RewriteAndResolve(id, target, store.nodes[id].name, newPath);
      MovedNow(nodes, objects, store.nodes, store.objects, sources, path, targetParentPath, id, target, r);
    }

    /** `Delete`, down to the UPDATE the repository runs. */
    method Delete(path: string) returns (r: Option<Error>)
      requires Ready(store.nodes)
      modifies store`nodes
      ensures r.None? ==> exists id :: DeletePlan(old(store.nodes), path, id)
                                       && store.nodes == DeleteNodes(old(store.nodes), old(store.nodes)[id].path)
      ensures r.Some? ==> store.nodes == old(store.nodes) && forall id :: !DeletePlan(store.nodes, path, id)
      ensures store.nodes.Keys == old(store.nodes).Keys && forall k | k in store.nodes ::
                store.nodes[k] == old(store.nodes)[k].(isDeleted := store.nodes[k].isDeleted)
    {
      var resolved := ResolveNode(path);
      if resolved.Err? { return Some(resolved.error); }
      var id := resolved.value;
      ResolvedInLinked(store.nodes, path, id);
      OnlyOneResolves(store.nodes, path, id);
      if store.nodes[id].kind == Root { return Some(PathInvalid); }
      if store.nodes[id].kind == Mount { return Some(SourceOperationUnsupported); }
      assert DeletePlan(store.nodes, path, id);
      store.nodes := DeleteNodes(store.nodes, store.nodes[id].path);
      return None;
    }
  }

  /** The repository queries the requested path as it stands. */
  predicate TidyRequest(virtualPath: string) {
    NormalizeVirtualPath(virtualPath).Ok? ==> Tidy(NormalizeVirtualPath(virtualPath).value)
  }

  ghost predicate Renamed(nodes: Nodes, objects: Objects, nodes': Nodes, objects': Objects, sources: Sources,
                          path: string, newName: string, id: Id) {
    && RenamePlan(nodes, path, newName, id)
    && var parent := nodes[id].parentID.value;
       Rewritten(nodes, objects, nodes', objects', sources, id, parent, newName, ChildPath(nodes[parent].path, newName))
  }

  ghost predicate Moved(nodes: Nodes, objects: Objects, nodes': Nodes, objects': Objects, sources: Sources,
                        path: string, targetParentPath: string, id: Id, target: Id) {
    && MovePlan(nodes, path, targetParentPath, id, target)
    && Rewritten(nodes, objects, nodes', objects', sources, id, target, nodes[id].name,
                 ChildPath(nodes[target].path, nodes[id].name))
  }

  /** What a successful move answers and did; nothing, if the node was where it was wanted. */
  ghost predicate MoveAnswers(nodes: Nodes, objects: Objects, nodes': Nodes, objects': Objects, sources: Sources,
                              path: string, targetParentPath: string, answer: (string, Id)) {
    && Resolves(nodes, path, answer.1) && answer.0 == nodes[answer.1].path
    && exists target: Id ::
         && Resolves(nodes, targetParentPath, target)
         && if nodes[answer.1].parentID == Some(target) then nodes' == nodes && objects' == objects
            else Moved(nodes, objects, nodes', objects', sources, path, targetParentPath, answer.1, target)
  }

  /** Of a planned move: it changes the tables exactly when the query selects anything and the new places are free, and
      succeeds exactly when they are free and the query finds the node itself. */
  ghost predicate MoveSucceedsIffFree(nodes: Nodes, objects: Objects, nodes': Nodes, sources: Sources,
                                      path: string, targetParentPath: string, ok: bool) {
    LocatorsAgree(nodes, objects, sources) ==>
      forall id, target :: MovePlan(nodes, path, targetParentPath, id, target) ==>
        && (nodes' != nodes <==>
              (exists k :: Selected(nodes, nodes[id].path, k)) && MovePlacesFree(nodes, objects, sources, id, target))
        && (ok <==> !MissesItself(nodes[id]) && MovePlacesFree(nodes, objects, sources, id, target))
  }

  /** Either nothing changed or the selected rows were rewritten; then the answer is an error exactly when the query
      missed the node's own row. */
  ghost predicate MoveChanges(nodes: Nodes, objects: Objects, nodes': Nodes, objects': Objects, sources: Sources,
                              path: string, targetParentPath: string, err: bool) {
    || (nodes' == nodes && objects' == objects)
    || exists id, target, k ::
         && Moved(nodes, objects, nodes', objects', sources, path, targetParentPath, id, target)
         && Selected(nodes, nodes[id].path, k) && (err <==> MissesItself(nodes[id]))
  }

  lemma NotMoved(nodes: Nodes, objects: Objects, sources: Sources, path: string, targetParentPath: string, ok: bool)
    requires forall id, target :: !MovePlan(nodes, path, targetParentPath, id, target)
    ensures MoveSucceedsIffFree(nodes, objects, nodes, sources, path, targetParentPath, ok)
    ensures MoveChanges(nodes, objects, nodes, objects, sources, path, targetParentPath, !ok)
  {
    hide MovePlan;
  }

  lemma InPlace(nodes: Nodes, objects: Objects, sources: Sources, path: string, targetParentPath: string, id: Id,
                target: Id)
    requires Resolves(nodes, path, id) && Resolves(nodes, targetParentPath, target)
             && nodes[id].parentID == Some(target)
    ensures MoveAnswers(nodes, objects, nodes, objects, sources, path, targetParentPath, (nodes[id].path, id))
  {
    hide Resolves;
  }

  lemma PlannedMove(nodes: Nodes, path: string, targetParentPath: string, id: Id, target: Id)
    requires MovePlan(nodes, path, targetParentPath, id, target)
    ensures Resolves(nodes, path, id) && Resolves(nodes, targetParentPath, target) && nodes[id].parentID != Some(target)
    ensures id in nodes && target in nodes
  {
  }

  lemma MovedNow(nodes: Nodes, objects: Objects, nodes': Nodes, objects': Objects, sources: Sources,
                 path: string, targetParentPath: string, id: Id, target: Id, r: Result<(string, Id)>)
    requires MovePlan(nodes, path, targetParentPath, id, target)
    requires forall k, t | MovePlan(nodes, path, targetParentPath, k, t) :: k == id && t == target
    requires
      var newPath := ChildPath(nodes[target].path, nodes[id].name);
      && (r.Ok? ==> r.value == (nodes[id].path, id)
                    && Rewritten(nodes, objects, nodes', objects', sources, id, target, nodes[id].name, newPath))
      && ((nodes' == nodes && objects' == objects && r.Err?)
          || (&& Rewritten(nodes, objects, nodes', objects', sources, id, target, nodes[id].name, newPath)
              && (exists k :: Selected(nodes, nodes[id].path, k)) && (r.Err? <==> MissesItself(nodes[id]))))
      && (LocatorsAgree(nodes, objects, sources) ==>
            && (nodes' != nodes <==>
                  && (exists k :: Selected(nodes, nodes[id].path, k))
                  && MovePlacesFree(nodes, objects, sources, id, target))
            && (r.Ok? <==> !MissesItself(nodes[id]) && MovePlacesFree(nodes, objects, sources, id, target)))
    ensures r.Ok? ==> MoveAnswers(nodes, objects, nodes', objects', sources, path, targetParentPath, r.value)
    ensures MoveSucceedsIffFree(nodes, objects, nodes', sources, path, targetParentPath, r.Ok?)
    ensures MoveChanges(nodes, objects, nodes', objects', sources, path, targetParentPath, r.Err?)
  {
    hide Resolves, MovePlan, Rewritten, Selected, MovePlacesFree, LocatorsAgree, MissesItself, ChildPath;
    PlannedMove(nodes, path, targetParentPath, id, target);
    assert r.Ok? ==> Moved(nodes, objects, nodes', objects', sources, path, targetParentPath, id, target);
    if k :| Selected(nodes, nodes[id].path, k) {
      assert (nodes' == nodes && objects' == objects && r.Err?)
             || Moved(nodes, objects, nodes', objects', sources, path, targetParentPath, id, target);
    }
  }

  ghost predicate RenameLocatorsFree(nodes: Nodes, objects: Objects, sources: Sources, newName: string, id: Id)
    requires id in nodes && nodes[id].parentID.Some? && nodes[id].parentID.value in nodes
  {
    var parent := nodes[id].parentID.value;
    LocatorsFree(nodes, RewriteNodes(nodes, id, parent, newName, ChildPath(nodes[parent].path, newName)),
                 MovedRows(nodes, id), objects, sources)
  }

  ghost predicate RenamePlacesFree(nodes: Nodes, objects: Objects, sources: Sources, newName: string, id: Id)
    requires id in nodes && nodes[id].parentID.Some? && nodes[id].parentID.value in nodes
  {
    var parent := nodes[id].parentID.value;
    PlacesFree(nodes, RewriteNodes(nodes, id, parent, newName, ChildPath(nodes[parent].path, newName)),
               MovedRows(nodes, id), objects, sources)
  }

  ghost predicate MovePlacesFree(nodes: Nodes, objects: Objects, sources: Sources, id: Id, target: Id)
    requires id in nodes && target in nodes
  {
    PlacesFree(nodes, RewriteNodes(nodes, id, target, nodes[id].name, ChildPath(nodes[target].path, nodes[id].name)),
               MovedRows(nodes, id), objects, sources)
  }

  ghost predicate MoveLocatorsFree(nodes: Nodes, objects: Objects, sources: Sources, id: Id, target: Id)
    requires id in nodes && target in nodes
  {
    LocatorsFree(nodes, RewriteNodes(nodes, id, target, nodes[id].name, ChildPath(nodes[target].path, nodes[id].name)),
                 MovedRows(nodes, id), objects, sources)
  }

  /** A name that is not all white space: only the locators can be in the way. */
  lemma RenameNeedsLocators(nodes: Nodes, objects: Objects, sources: Sources, path: string, newName: string, id: Id)
    requires Linked(nodes) && LocatorsAgree(nodes, objects, sources) && RenamePlan(nodes, path, newName, id)
    requires !IsBlank(nodes[id].name)
    ensures RenamePlacesFree(nodes, objects, sources, newName, id)
            <==> RenameLocatorsFree(nodes, objects, sources, newName, id)
  {
    RenamePlanCanRewrite(nodes, path, newName, id);
    var parent := nodes[id].parentID.value;
    PlacesFreeIff(nodes, objects, sources, id, parent, newName, ChildPath(nodes[parent].path, newName));
  }

  lemma MoveNeedsLocators(nodes: Nodes, objects: Objects, sources: Sources, path: string, targetParentPath: string,
                          id: Id, target: Id)
    requires Linked(nodes) && LocatorsAgree(nodes, objects, sources)
    requires MovePlan(nodes, path, targetParentPath, id, target) && !IsBlank(nodes[id].name)
    ensures MovePlacesFree(nodes, objects, sources, id, target)
            <==> MoveLocatorsFree(nodes, objects, sources, id, target)
  {
    MovePlanCanRewrite(nodes, path, targetParentPath, id, target);
    PlacesFreeIff(nodes, objects, sources, id, target, nodes[id].name,
                  ChildPath(nodes[target].path, nodes[id].name));
  }

  /** After any rewrite the new path resolves to the node exactly when the query selected the node's own row, and to no
      other row. */
  lemma AnsweredIff(nodes: Nodes, id: Id, newParent: Id, newName: string, newPath: string)
    requires CanRewrite(nodes, id, newParent, newName, newPath) && IsClean(newPath) && !HasDotDot(newPath)
    ensures
      var after := RewriteNodes(nodes, id, newParent, newName, newPath);
      && NormalizeVirtualPath(newPath) == Ok(newPath)
      && (forall k :: Resolves(after, newPath, k) <==> k == id && Selected(nodes, nodes[id].path, id))
      && (Selected(nodes, nodes[id].path, id) <==> !MissesItself(nodes[id]))
      && ((exists k :: Selected(nodes, nodes[id].path, k)) ==> after != nodes)
  {
    CleanIsNormal(newPath);
    QueryOfNode(nodes, id);
    var after := RewriteNodes(nodes, id, newParent, newName, newPath);
    forall k ensures LiveAt(after, k, newPath) <==> k == id && Selected(nodes, nodes[id].path, id) {
      RowAtNewPath(nodes, id, newParent, newName, newPath, k);
    }
    hide CanRewrite, RewriteNodes, Selected, LiveAt, NormalizeVirtualPath;
    if k :| Selected(nodes, nodes[id].path, k) {
      RowAtNewPath(nodes, id, newParent, newName, newPath, k);
    }
  }

  lemma RowAtNewPath(nodes: Nodes, id: Id, newParent: Id, newName: string, newPath: string, k: Id)
    requires CanRewrite(nodes, id, newParent, newName, newPath)
    ensures
      var after := RewriteNodes(nodes, id, newParent, newName, newPath);
      && (LiveAt(after, k, newPath) <==> k == id && Selected(nodes, nodes[id].path, id))
      && (Selected(nodes, nodes[id].path, k) ==> after != nodes)
  {
    if Live(nodes, k) { OnlyItself(nodes, id, newParent, newName, newPath, k); }
    hide CanRewrite, RewrittenNode;
    var after := RewriteNodes(nodes, id, newParent, newName, newPath);
    assert Selected(nodes, nodes[id].path, k) ==> after[k] == RewrittenNode(nodes, id, newParent, newName, newPath, k);
  }

  /** A selected row gets a new path, and only the node itself the new path as it stands. */
  lemma OnlyItself(nodes: Nodes, id: Id, newParent: Id, newName: string, newPath: string, k: Id)
    requires CanRewrite(nodes, id, newParent, newName, newPath) && Live(nodes, k)
    ensures nodes[k].path != newPath
    ensures RewrittenNode(nodes, id, newParent, newName, newPath, k).path == newPath <==> k == id
    ensures RewrittenNode(nodes, id, newParent, newName, newPath, k).path != nodes[k].path
  {
    assert !LiveAt(nodes, k, newPath);
    LandsBelow(nodes, id, newParent, newName, newPath, k);
    LandsOnNobody(nodes, id, newParent, newName, newPath, k, k);
  }

  lemma InTable(nodes: Nodes, id: Id, newParent: Id, newName: string, newPath: string)
    requires CanRewrite(nodes, id, newParent, newName, newPath)
    ensures id in nodes
  {
  }

  lemma LiveAfterRewrite(nodes: Nodes, id: Id, newParent: Id, newName: string, newPath: string)
    requires CanRewrite(nodes, id, newParent, newName, newPath)
    ensures forall k :: Live(RewriteNodes(nodes, id, newParent, newName, newPath), k) <==> Live(nodes, k)
  {
  }

  lemma ResolvedContainment(nodes: Nodes, path: string, targetPath: string, id: Id, target: Id)
    requires Resolves(nodes, path, id) && Resolves(nodes, targetPath, target)
    ensures IsSubPath(nodes[id].path, nodes[target].path) <==> AtOrBelow(nodes[id].path, nodes[target].path)
  {
    SubPathIsSegmentPrefix(nodes[id].path, nodes[target].path);
  }

  ghost predicate ByPathLength(nodes: Nodes, ids: seq<Id>) {
    && (forall i | 0 <= i < |ids| :: ids[i] in nodes)
    && forall i, j | 0 <= i < j < |ids| :: |nodes[ids[i]].path| <= |nodes[ids[j]].path|
  }

  method SortByPathLength(nodes: Nodes, all: set<Id>) returns (ids: seq<Id>)
    requires all <= nodes.Keys
    ensures forall k :: k in ids <==> k in all
    ensures forall i, j | 0 <= i < j < |ids| :: ids[i] != ids[j]
    ensures ByPathLength(nodes, ids)
  {
    var rest := all;
    ids := [];
    while rest != {}
      invariant rest <= all
      invariant forall k :: k in ids <==> k in all && k !in rest
      invariant forall i, j | 0 <= i < j < |ids| :: ids[i] != ids[j]
      invariant ByPathLength(nodes, ids)
      invariant forall k, i | k in rest && 0 <= i < |ids| :: |nodes[ids[i]].path| <= |nodes[k].path|
      decreases |rest|
    {
      ShortestExists(nodes, rest);
      var next :| next in rest && forall k | k in rest :: |nodes[next].path| <= |nodes[k].path|;
      ids := ids + [next];
      rest := rest - {next};
    }
  }

  /** A locator the object table admits keeps the keys unique. */
  lemma SyncKeepsKeys(node: Node, path: string, objects: Objects, sources: Sources)
    ensures UniqueKeys(objects) && LocatorAdmitted(node, path, objects, sources) ==>
              UniqueKeys(SyncedObjects(node, path, objects, sources))
  {
    if UniqueKeys(objects) && LocatorAdmitted(node, path, objects, sources) && Syncs(node, objects) {
      var o := node.objectID.value;
      var after := SyncedObjects(node, path, objects, sources);
      hide Relocated, Syncs, MetadataNodeInnerPath;
      forall a, b | a in after && b in after && KeyOf(after[a]) == KeyOf(after[b]) ensures a == b {
        if a != o && b != o { assert KeyOf(objects[a]) == KeyOf(objects[b]); }
      }
    }
  }

  // ---- The rewrite loop, half way -------------------------------------------------------------

  /** Only the tree position of the row changes. */
  predicate SameButPlace(before: Node, after: Node) {
    after == before.(parentID := after.parentID, name := after.name, path := after.path)
  }

  /** The rows in `done` are written, with their locators; the others are untouched. */
  ghost predicate Mid(before: Nodes, after: Nodes, done: set<Id>, nodes: Nodes,
                      objectsBefore: Objects, objects: Objects, sources: Sources)
    requires done <= before.Keys && before.Keys == after.Keys
  {
    && nodes.Keys == before.Keys
    && (forall k | k in before :: SameButPlace(before[k], after[k]))
    && (forall k | k in before :: nodes[k] == if k in done then after[k] else before[k])
    && ObjectsFollow(before, after, done, objectsBefore, objects, sources)
  }

  lemma MidStart(before: Nodes, after: Nodes, objects: Objects, sources: Sources)
    requires before.Keys == after.Keys
    requires forall k | k in before :: SameButPlace(before[k], after[k])
    ensures Mid(before, after, {}, before, objects, objects, sources)
  {
  }

  lemma NoPlaces(before: Nodes, after: Nodes, objects: Objects, sources: Sources)
    requires before.Keys == after.Keys
    ensures PlacesFree(before, after, {}, objects, sources)
  {
  }

  /** If the next row does not find its place, all rows together do not. */
  lemma PlacesBeside(before: Nodes, after: Nodes, done: set<Id>, moved: set<Id>, objects: Objects, sources: Sources,
                     k: Id)
    requires done + {k} <= moved <= before.Keys && before.Keys == after.Keys
    ensures PlacesFree(before, after, moved, objects, sources) ==>
              PlacesFree(before, after, done + {k}, objects, sources)
  {
    hide PlacesFree;
    if PlacesFree(before, after, moved, objects, sources) {
      PlacesOfFewer(before, after, done + {k}, moved, objects, sources);
    }
  }

  lemma RewrittenRows(nodes: Nodes, id: Id, newParent: Id, newName: string, newPath: string)
    requires id in nodes
    ensures
      var after := RewriteNodes(nodes, id, newParent, newName, newPath);
      && after.Keys == nodes.Keys && (forall k | k in nodes :: SameButPlace(nodes[k], after[k]))
      && forall k | k in nodes && k !in MovedRows(nodes, id) :: after[k] == nodes[k]
  {
    hide MatchesPrefixQuery, RewriteSubtreePath;
  }

  lemma RewrittenItem(nodes: Nodes, id: Id, newParent: Id, newName: string, newPath: string, k: Id)
    requires id in nodes && k in MovedRows(nodes, id)
    ensures RewriteNodes(nodes, id, newParent, newName, newPath)[k] ==
            if k == id then nodes[k].(parentID := Some(newParent), name := newName, path := newPath)
            else nodes[k].(path := RewriteSubtreePath(nodes[k].path, nodes[id].path, newPath))
  {
  }

  lemma MidRow(before: Nodes, after: Nodes, done: set<Id>, nodes: Nodes,
               objectsBefore: Objects, objects: Objects, sources: Sources, k: Id)
    requires done <= before.Keys && before.Keys == after.Keys && k in before && k !in done
    requires Mid(before, after, done, nodes, objectsBefore, objects, sources)
    ensures k in nodes && nodes[k] == before[k]
  {
  }

  lemma MidEnd(before: Nodes, after: Nodes, moved: set<Id>, nodes: Nodes,
               objectsBefore: Objects, objects: Objects, sources: Sources)
    requires moved <= before.Keys && before.Keys == after.Keys
    requires Mid(before, after, moved, nodes, objectsBefore, objects, sources)
    requires forall k | k in before && k !in moved :: after[k] == before[k]
    ensures nodes == after && ObjectsFollow(before, after, moved, objectsBefore, objects, sources)
  {
  }

  lemma SyncsMidway(before: Nodes, after: Nodes, done: set<Id>, nodes: Nodes,
                    objectsBefore: Objects, objects: Objects, sources: Sources, k: Id)
    requires done <= before.Keys && before.Keys == after.Keys && k in before
    requires Mid(before, after, done, nodes, objectsBefore, objects, sources)
    ensures Syncs(after[k], objects) <==> Syncs(before[k], objectsBefore)
    ensures Syncs(before[k], objectsBefore)
            && MetadataNodeInnerPath(sources, before[k].sourceID.value, after[k].path).Ok? ==>
              NewKey(after[k], objects, sources, after[k].path) ==
              NewKey(before[k], objectsBefore, sources, after[k].path)
  {
    RelocatedKeepsType(objectsBefore, objects, before, after, done, sources);
    assert SameButPlace(before[k], after[k]);
  }

  lemma MidStep(before: Nodes, after: Nodes, done: set<Id>, nodes: Nodes,
                objectsBefore: Objects, objects: Objects, sources: Sources, k: Id)
    requires done <= before.Keys && before.Keys == after.Keys && k in before && k !in done
    requires Mid(before, after, done, nodes, objectsBefore, objects, sources)
    requires LocatorAdmitted(after[k], after[k].path, objects, sources)
    ensures Mid(before, after, done + {k}, nodes[k := after[k]],
                objectsBefore, SyncedObjects(after[k], after[k].path, objects, sources), sources)
  {
    SyncsMidway(before, after, done, nodes, objectsBefore, objects, sources, k);
    assert SameButPlace(before[k], after[k]);
    FollowOneMore(before, after, done, objectsBefore, objects,
                  SyncedObjects(after[k], after[k].path, objects, sources), sources, k);
  }

  lemma FollowOneObject(before: Nodes, after: Nodes, done: set<Id>, objects: Objects, now: Objects, then': Objects,
                        sources: Sources, k: Id, o: Id)
    requires done <= before.Keys && done <= after.Keys && k in before && k in after
    requires o in objects && o in now && o in then' && FollowsAt(before, after, done, objects, now, sources, o)
    requires References(before[k], objects, o) ==>
               then'[o] == Relocated(objects[o], sources, before[k].sourceID.value, after[k].path)
    requires !References(before[k], objects, o) ==> then'[o] == now[o]
    ensures FollowsAt(before, after, done + {k}, objects, then', sources, o)
  {
    hide Relocated, PathBased;
    assert k in done + {k};
    if !References(before[k], objects, o)
      && !(now[o] == objects[o] && forall j | j in done :: !References(before[j], objects, o)) {
      var j :| j in done && References(before[j], objects, o)
               && now[o] == Relocated(objects[o], sources, before[j].sourceID.value, after[j].path);
      assert j in done + {k};
    }
  }

  lemma FollowOneMore(before: Nodes, after: Nodes, done: set<Id>, objects: Objects, now: Objects, then': Objects,
                      sources: Sources, k: Id)
    requires done <= before.Keys && done <= after.Keys && k in before && k in after
    requires ObjectsFollow(before, after, done, objects, now, sources)
    requires if Syncs(before[k], objects)
             then MetadataNodeInnerPath(sources, before[k].sourceID.value, after[k].path).Ok?
                  && before[k].objectID.value in now
                  && then' == now[before[k].objectID.value :=
                                  Relocated(now[before[k].objectID.value], sources, before[k].sourceID.value,
                                            after[k].path)]
             else then' == now
    ensures ObjectsFollow(before, after, done + {k}, objects, then', sources)
  {
    RelocatedKeepsType(objects, now, before, after, done, sources);
    forall o | o in objects ensures FollowsAt(before, after, done + {k}, objects, then', sources, o) {
      assert FollowsAt(before, after, done, objects, now, sources, o);
      FollowOneObject(before, after, done, objects, now, then', sources, k, o);
    }
  }

  lemma RowAdmittedMidway(before: Nodes, done: set<Id>, nodes: Nodes,
                          objectsBefore: Objects, objects: Objects, sources: Sources,
                          id: Id, newParent: Id, newName: string, newPath: string, k: Id)
    requires CanRewrite(before, id, newParent, newName, newPath)
    requires done <= MovedRows(before, id) && k in MovedRows(before, id) && k !in done
    requires
      var after := RewriteNodes(before, id, newParent, newName, newPath);
      Mid(before, after, done, nodes, objectsBefore, objects, sources)
    ensures
      var after := RewriteNodes(before, id, newParent, newName, newPath);
      Admits(nodes, k, after[k]) <==> forall j | j in done :: after[j].path != after[k].path
  {
    InTable(before, id, newParent, newName, newPath);
    hide CanRewrite, RewrittenNode, Selected, ObjectsFollow, Admits;
    SelectedRowIsAdmitted(before, nodes, done, id, newParent, newName, newPath, k);
  }

  lemma LocatorAdmittedMidway(before: Nodes, done: set<Id>, nodes: Nodes,
                              objectsBefore: Objects, objects: Objects, sources: Sources,
                              id: Id, newParent: Id, newName: string, newPath: string, k: Id)
    requires CanRewrite(before, id, newParent, newName, newPath) && LocatorsAgree(before, objectsBefore, sources)
    requires done <= MovedRows(before, id) && k in MovedRows(before, id) && k !in done
    requires
      var after := RewriteNodes(before, id, newParent, newName, newPath);
      Mid(before, after, done, nodes, objectsBefore, objects, sources)
    ensures
      var after := RewriteNodes(before, id, newParent, newName, newPath);
      LocatorAdmitted(after[k], after[k].path, objects, sources) <==>
      && LocatorAdmitted(before[k], after[k].path, objectsBefore, sources)
      && forall j | j in done :: KeysDiffer(before, after, objectsBefore, sources, k, j)
  {
    var after := RewriteNodes(before, id, newParent, newName, newPath);
    SyncsMidway(before, after, done, nodes, objectsBefore, objects, sources, k);
    assert SameButPlace(before[k], after[k]);
    if Syncs(before[k], objectsBefore) && MetadataNodeInnerPath(sources, before[k].sourceID.value, after[k].path).Ok? {
      KeyIsFreeMidway(before, objectsBefore, objects, sources, done, id, newParent, newName, newPath, k);
    }
  }

  /** One more turn of the loop goes through exactly when one more row finds its place free. */
  lemma PlaceMidway(before: Nodes, done: set<Id>, nodes: Nodes,
                    objectsBefore: Objects, objects: Objects, sources: Sources,
                    id: Id, newParent: Id, newName: string, newPath: string, k: Id)
    requires CanRewrite(before, id, newParent, newName, newPath) && LocatorsAgree(before, objectsBefore, sources)
    requires done <= MovedRows(before, id) && k in MovedRows(before, id) && k !in done
    requires
      var after := RewriteNodes(before, id, newParent, newName, newPath);
      && Mid(before, after, done, nodes, objectsBefore, objects, sources)
      && PlacesFree(before, after, done, objectsBefore, sources)
    ensures
      var after := RewriteNodes(before, id, newParent, newName, newPath);
      LocatorAdmitted(after[k], after[k].path, objects, sources) && Admits(nodes, k, after[k]) <==>
      PlacesFree(before, after, done + {k}, objectsBefore, sources)
  {
    InTable(before, id, newParent, newName, newPath);
    hide CanRewrite, LocatorsAgree, Mid, PlacesFree, LocatorAdmitted, Admits, KeysDiffer, Selected;
    RowAdmittedMidway(before, done, nodes, objectsBefore, objects, sources, id, newParent, newName, newPath, k);
    LocatorAdmittedMidway(before, done, nodes, objectsBefore, objects, sources, id, newParent, newName, newPath, k);
    PlacesOneMore(before, RewriteNodes(before, id, newParent, newName, newPath), done, objectsBefore, sources, k);
  }

  lemma SelectedAreStored(nodes: Nodes, prefix: string)
    ensures forall k | Selected(nodes, prefix, k) :: k in nodes
  {
  }

  /** On a planned rewrite the availability check finds nothing: no target path is taken. */
  lemma NoForeignTarget(nodes: Nodes, id: Id, newParent: Id, newName: string, newPath: string, subtree: seq<Id>)
    requires CanRewrite(nodes, id, newParent, newName, newPath)
    requires forall k :: k in subtree <==> k in nodes && Selected(nodes, nodes[id].path, k)
    ensures forall k, j | k in subtree && Live(nodes, j) ::
              nodes[j].path != RewriteSubtreePath(nodes[k].path, nodes[id].path, newPath)
  {
    forall k, j | k in subtree && Live(nodes, j)
      ensures nodes[j].path != RewriteSubtreePath(nodes[k].path, nodes[id].path, newPath)
    {
      LandsOnNobody(nodes, id, newParent, newName, newPath, k, j);
      if k == id {
        assert RewriteSubtreePath(nodes[k].path, nodes[id].path, newPath) == newPath;
      }
    }
  }

  lemma ResolvedInLinked(nodes: Nodes, virtualPath: string, id: Id)
    requires Ready(nodes) && Resolves(nodes, virtualPath, id)
    ensures Linked(nodes)
  {
  }

  lemma NoDotsAbove(parent: string, name: string)
    requires !HasDotDot(ChildPath(parent, name))
    ensures !HasDotDot(parent)
  {
    if parent == "/" {
      assert |parent| == 1;
    } else {
      DotDotOfConcat(parent, "/" + name);
      hide HasDotDot;
      assert ChildPath(parent, name) == parent + ("/" + name);
    }
  }

  lemma OnlyOneResolves(nodes: Nodes, virtualPath: string, id: Id)
    requires Linked(nodes) && Resolves(nodes, virtualPath, id)
    ensures forall k | Resolves(nodes, virtualPath, k) :: k == id
  {
  }

  lemma ChildOfStored(nodes: Nodes, parent: Id, name: string)
    requires Linked(nodes) && Live(nodes, parent) && CleanSegment(name)
    ensures JoinVirtualPath(nodes[parent].path, name) == ChildPath(nodes[parent].path, name)
    ensures IsClean(ChildPath(nodes[parent].path, name)) && ChildPath(nodes[parent].path, name) != "/"
  {
    StoredPathIsClean(nodes, parent);
    assert NodeOk(nodes, parent);
    ChildPathIsJoin(nodes[parent].path, name);
    ChildPathShape(nodes[parent].path, name);
    JoinIsRender(nodes[parent].path, name);
  }

  lemma ShortestExists(nodes: Nodes, ids: set<Id>)
    requires ids <= nodes.Keys && ids != {}
    ensures exists m | m in ids :: forall k | k in ids :: |nodes[m].path| <= |nodes[k].path|
    decreases |ids|
  {
    var x :| x in ids;
    var rest := ids - {x};
    if rest == {} {
      assert ids == {x};
    } else {
      ShortestExists(nodes, rest);
      var m :| m in rest && forall k | k in rest :: |nodes[m].path| <= |nodes[k].path|;
      var top := if |nodes[x].path| <= |nodes[m].path| then x else m;
      assert top in ids && forall k | k in ids :: |nodes[top].path| <= |nodes[k].path|;
    }
  }

  ghost predicate EnsuresRoot(nodes: Nodes, nodes': Nodes, id: Id) {
    nodes' == nodes[id := RootNode()] && UpsertTarget(nodes, id, "/")
  }
}
