/** Path-based storage objects: the locator column that must follow the path of the file node. */
module Locators {
  import opened Common
  import opened Text
  import opened Paths
  import opened Store
  import opened Tree
  import opened Rewrite
  import Mounts

  type Sources = map<Id, Mounts.Source>

  /** `metadataNodeInnerPath`: where the source keeps what the tree shows at `virtualPath`. */
  function MetadataNodeInnerPath(sources: Sources, sourceID: Id, virtualPath: string): Result<string> {
    if sourceID !in sources then Err(FileNotFound)
    else if TrimSpace(sources[sourceID].mountPath) == "" then NormalizeVirtualPath(virtualPath)
    else
      match (NormalizeVirtualPath(sources[sourceID].mountPath), NormalizeVirtualPath(virtualPath))
      case (Err(e), _) => Err(e)
      case (_, Err(e)) => Err(e)
      case (Ok(mountPath), Ok(path)) =>
        if !IsSubPath(mountPath, path) then Err(PathInvalid)
        else NormalizeVirtualPath(Mounts.InnerPathUnder(mountPath, path))
  }

  /** Two stored paths with the same inner path under the same source are the same. */
  lemma InnerPathInjective(sources: Sources, sourceID: Id, a: string, b: string)
    requires IsClean(a) && IsClean(b)
    requires MetadataNodeInnerPath(sources, sourceID, a).Ok?
    requires MetadataNodeInnerPath(sources, sourceID, a) == MetadataNodeInnerPath(sources, sourceID, b)
    ensures a == b
  {
    CleanIsNormal(a);
    CleanIsNormal(b);
    hide NormalizeVirtualPath, IsSubPath, IsClean;
    if TrimSpace(sources[sourceID].mountPath) != "" {
      var mount := NormalizeVirtualPath(sources[sourceID].mountPath).value;
      Mounts.InnerOfSubPath(mount, a);
      Mounts.InnerOfSubPath(mount, b);
      CanonicalIsFixpoint(Mounts.InnerPathUnder(mount, a));
      CanonicalIsFixpoint(Mounts.InnerPathUnder(mount, b));
    }
  }

  lemma CleanIsNormal(path: string)
    requires IsClean(path)
    ensures NormalizeVirtualPath(path) == if HasDotDot(path) then Err(PathInvalid) else Ok(path)
    ensures !HasDotDot(path) ==> IsCanonical(path)
  {
  }

  predicate PathBased(obj: StorageObject) {
    TrimSpace(obj.locatorType) in {"local_path", "driver_path", "provider_path"}
  }

  /** The node is a file whose object's locator is derived from its path. */
  predicate Syncs(node: Node, objects: Objects) {
    && node.kind == File && node.objectID.Some? && node.sourceID.Some?
    && node.objectID.value in objects && PathBased(objects[node.objectID.value])
  }

  function PathLocator(innerPath: string): Json {
    map["path" := innerPath]
  }

  /** The locator column of the node's object names the node's inner path. */
  ghost predicate LocatorAgrees(node: Node, objects: Objects, sources: Sources)
    requires Syncs(node, objects)
  {
    var obj := objects[node.objectID.value];
    && obj.sourceID == node.sourceID.value
    && "path" in obj.locator
    && MetadataNodeInnerPath(sources, node.sourceID.value, node.path) == Ok(obj.locator["path"])
  }

  ghost predicate LocatorsAgree(nodes: Nodes, objects: Objects, sources: Sources) {
    forall k | Live(nodes, k) && Syncs(nodes[k], objects) :: LocatorAgrees(nodes[k], objects, sources)
  }

  /** What `ObjectsFollow` asks of one object. */
  ghost predicate FollowsAt(before: Nodes, after: Nodes, moved: set<Id>, objects: Objects, objects': Objects,
                            sources: Sources, o: Id)
    requires moved <= before.Keys && moved <= after.Keys && o in objects && o in objects'
  {
    || (objects'[o] == objects[o] && forall k | k in moved :: !References(before[k], objects, o))
    || exists k ::
         && k in moved && References(before[k], objects, o)
         && objects'[o] == Relocated(objects[o], sources, before[k].sourceID.value, after[k].path)
  }

  /** What writing a set of moved rows does to the objects: those of the synced files get the locator of
      a moved path, all others stay. */
  ghost predicate ObjectsFollow(before: Nodes, after: Nodes, moved: set<Id>, objects: Objects, objects': Objects,
                                sources: Sources)
    requires moved <= before.Keys && moved <= after.Keys
  {
    && objects'.Keys == objects.Keys
    && (forall k | k in moved && Syncs(before[k], objects) ::
          MetadataNodeInnerPath(sources, before[k].sourceID.value, after[k].path).Ok?)
    && (forall o | o in objects :: FollowsAt(before, after, moved, objects, objects', sources, o))
  }

  ghost predicate References(node: Node, objects: Objects, o: Id) {
    Syncs(node, objects) && node.objectID.value == o
  }

  /** The object with its locator pointing at the inner path of `path`. */
  function Relocated(obj: StorageObject, sources: Sources, sourceID: Id, path: string): StorageObject {
    match MetadataNodeInnerPath(sources, sourceID, path)
    case Ok(inner) => obj.(locator := PathLocator(inner))
    case Err(_) => obj
  }

  lemma RelocatedKeepsType(objects: Objects, objects': Objects, before: Nodes, after: Nodes, moved: set<Id>,
                           sources: Sources)
    requires moved <= before.Keys && moved <= after.Keys
    requires ObjectsFollow(before, after, moved, objects, objects', sources)
    ensures forall o | o in objects :: objects'[o] == objects[o].(locator := objects'[o].locator)
  {
  }

  /** The rows `updateMetadataSubtreePath` writes. */
  ghost function MovedRows(nodes: Nodes, id: Id): set<Id>
    requires id in nodes
  {
    set k | k in nodes && Selected(nodes, nodes[id].path, k)
  }

  /** Agreement survives a rewrite. */
  lemma RewriteKeepsLocators(nodes: Nodes, objects: Objects, objects': Objects, sources: Sources,
                             id: Id, newParent: Id, newName: string, newPath: string)
    requires CanRewrite(nodes, id, newParent, newName, newPath)
    requires LocatorsAgree(nodes, objects, sources)
    requires ObjectsFollow(nodes, RewriteNodes(nodes, id, newParent, newName, newPath), MovedRows(nodes, id),
                           objects, objects', sources)
    ensures LocatorsAgree(RewriteNodes(nodes, id, newParent, newName, newPath), objects', sources)
  {
    var after := RewriteNodes(nodes, id, newParent, newName, newPath);
    var moved := MovedRows(nodes, id);
    RelocatedKeepsType(objects, objects', nodes, after, moved, sources);
    forall k | Live(after, k) && Syncs(after[k], objects')
      ensures LocatorAgrees(after[k], objects', sources)
    {
      var o := after[k].objectID.value;
      assert Live(nodes, k) && References(nodes[k], objects, o);
      assert LocatorAgrees(nodes[k], objects, sources);
      if objects'[o] == objects[o] && forall j | j in moved :: !References(nodes[j], objects, o) {
        assert k !in moved;
      } else {
        var j :| j in moved && References(nodes[j], objects, o)
                 && objects'[o] == Relocated(objects[o], sources, nodes[j].sourceID.value, after[j].path);
        OneFilePerLocator(nodes, objects, sources, o, j, k);
      }
    }
  }

  /** Under agreement no two live files share a path-based object. */
  lemma OneFilePerLocator(nodes: Nodes, objects: Objects, sources: Sources, o: Id, j: Id, k: Id)
    requires Linked(nodes) && LocatorsAgree(nodes, objects, sources)
    requires Live(nodes, j) && Live(nodes, k)
    requires References(nodes[j], objects, o) && References(nodes[k], objects, o)
    ensures j == k
  {
    assert LocatorAgrees(nodes[j], objects, sources) && LocatorAgrees(nodes[k], objects, sources);
    StoredPathIsClean(nodes, j);
    StoredPathIsClean(nodes, k);
    InnerPathInjective(sources, nodes[j].sourceID.value, nodes[j].path, nodes[k].path);
  }

  // ---- When the object table accepts the new locators -----------------------------------------

  /** The key the object of a synced file will have at `path`. */
  function NewKey(node: Node, objects: Objects, sources: Sources, path: string): ObjectKey
    requires Syncs(node, objects)
  {
    KeyOf(Relocated(objects[node.objectID.value], sources, node.sourceID.value, path))
  }

  /** Every moved file has an inner path at its new place, and no other object holds its new key. */
  ghost predicate LocatorsFree(nodes: Nodes, after: Nodes, moved: set<Id>, objects: Objects, sources: Sources)
    requires moved <= nodes.Keys && moved <= after.Keys
  {
    forall k | k in moved :: LocatorAdmitted(nodes[k], after[k].path, objects, sources)
  }

  /** The object table accepts the locator of this file at `path`. */
  predicate LocatorAdmitted(node: Node, path: string, objects: Objects, sources: Sources) {
    Syncs(node, objects) ==>
      && MetadataNodeInnerPath(sources, node.sourceID.value, path).Ok?
      && KeyIsFree(objects, node.objectID.value, NewKey(node, objects, sources, path))
  }

  /** The objects after `syncPathBasedObjectLocator` for this file at `path`. */
  function SyncedObjects(node: Node, path: string, objects: Objects, sources: Sources): Objects {
    if Syncs(node, objects)
    then objects[node.objectID.value :=
                 Relocated(objects[node.objectID.value], sources, node.sourceID.value, path)]
    else objects
  }

  /** No two of these rows get the same path. */
  ghost predicate PathsApart(after: Nodes, moved: set<Id>)
    requires moved <= after.Keys
  {
    forall k, j | k in moved && j in moved && k != j :: after[k].path != after[j].path
  }

  /** Two files whose locators follow their paths get different keys. */
  ghost predicate KeysDiffer(nodes: Nodes, after: Nodes, objects: Objects, sources: Sources, k: Id, j: Id)
    requires k in nodes && j in nodes && k in after && j in after
  {
    Syncs(nodes[k], objects) && Syncs(nodes[j], objects) ==>
      NewKey(nodes[k], objects, sources, after[k].path) != NewKey(nodes[j], objects, sources, after[j].path)
  }

  ghost predicate KeysApart(nodes: Nodes, after: Nodes, moved: set<Id>, objects: Objects, sources: Sources)
    requires moved <= nodes.Keys && moved <= after.Keys
  {
    forall k, j | k in moved && j in moved && k != j :: KeysDiffer(nodes, after, objects, sources, k, j)
  }

  /** The moved rows find their new paths and locators free, of others and of each other. */
  ghost predicate PlacesFree(nodes: Nodes, after: Nodes, moved: set<Id>, objects: Objects, sources: Sources)
    requires moved <= nodes.Keys && moved <= after.Keys
  {
    && PathsApart(after, moved)
    && LocatorsFree(nodes, after, moved, objects, sources)
    && KeysApart(nodes, after, moved, objects, sources)
  }

  lemma PlacesOfFewer(nodes: Nodes, after: Nodes, some: set<Id>, moved: set<Id>, objects: Objects, sources: Sources)
    requires some <= moved <= nodes.Keys && moved <= after.Keys && PlacesFree(nodes, after, moved, objects, sources)
    ensures PlacesFree(nodes, after, some, objects, sources)
  {
    hide LocatorAdmitted, KeysDiffer;
  }

  lemma PlacesOneMore(nodes: Nodes, after: Nodes, done: set<Id>, objects: Objects, sources: Sources, k: Id)
    requires done <= nodes.Keys && done <= after.Keys && k in nodes && k in after && k !in done
    requires PlacesFree(nodes, after, done, objects, sources)
    ensures PlacesFree(nodes, after, done + {k}, objects, sources) <==>
              && (forall j | j in done :: after[j].path != after[k].path)
              && LocatorAdmitted(nodes[k], after[k].path, objects, sources)
              && (forall j | j in done :: KeysDiffer(nodes, after, objects, sources, k, j))
  {
    assert k in done + {k};
    assert forall j | j in done ::
        KeysDiffer(nodes, after, objects, sources, k, j) <==> KeysDiffer(nodes, after, objects, sources, j, k);
    hide LocatorAdmitted, KeysDiffer;
  }

  /** In the middle of the loop (`done` already written) the key of the next file is free exactly when it was free at
      the start and is not the new key of a file in `done`. */
  lemma KeyIsFreeMidway(nodes: Nodes, objects: Objects, now: Objects, sources: Sources, done: set<Id>,
                        id: Id, newParent: Id, newName: string, newPath: string, k: Id)
    requires CanRewrite(nodes, id, newParent, newName, newPath) && LocatorsAgree(nodes, objects, sources)
    requires done <= MovedRows(nodes, id) && k in MovedRows(nodes, id) && k !in done
    requires Syncs(nodes[k], objects)
    requires
      var after := RewriteNodes(nodes, id, newParent, newName, newPath);
      && MetadataNodeInnerPath(sources, nodes[k].sourceID.value, after[k].path).Ok?
      && ObjectsFollow(nodes, after, done, objects, now, sources)
    ensures
      var after := RewriteNodes(nodes, id, newParent, newName, newPath);
      var key := NewKey(nodes[k], objects, sources, after[k].path);
      KeyIsFree(now, nodes[k].objectID.value, key) <==>
      && KeyIsFree(objects, nodes[k].objectID.value, key)
      && forall j | j in done :: KeysDiffer(nodes, after, objects, sources, k, j)
  {
    var after := RewriteNodes(nodes, id, newParent, newName, newPath);
    var o := nodes[k].objectID.value;
    var key := NewKey(nodes[k], objects, sources, after[k].path);
    forall j | j in done && Syncs(nodes[j], objects)
      ensures nodes[j].objectID.value != o && key != KeyOf(objects[nodes[j].objectID.value])
      ensures now[nodes[j].objectID.value] ==
              Relocated(objects[nodes[j].objectID.value], sources, nodes[j].sourceID.value, after[j].path)
    {
      NewKeyIsNew(nodes, objects, sources, id, newParent, newName, newPath, k, j);
      FollowedObject(nodes, objects, now, sources, done, after, j);
      if nodes[j].objectID.value == o { OneFilePerLocator(nodes, objects, sources, o, j, k); }
    }
    hide CanRewrite, RewriteNodes, LocatorsAgree, Relocated, PathBased, KeyOf, MetadataNodeInnerPath;
    forall o' | o' in objects && o' != o
      ensures now[o'] == objects[o']
              || exists j | j in done && Syncs(nodes[j], objects) :: nodes[j].objectID.value == o'
    {
      assert FollowsAt(nodes, after, done, objects, now, sources, o');
    }
  }

  /** The object of a file that has been written. */
  lemma FollowedObject(nodes: Nodes, objects: Objects, now: Objects, sources: Sources, done: set<Id>, after: Nodes,
                       j: Id)
    requires Linked(nodes) && LocatorsAgree(nodes, objects, sources) && done <= nodes.Keys && done <= after.Keys
    requires forall k | k in done :: Live(nodes, k)
    requires ObjectsFollow(nodes, after, done, objects, now, sources) && j in done && Syncs(nodes[j], objects)
    ensures now[nodes[j].objectID.value] ==
            Relocated(objects[nodes[j].objectID.value], sources, nodes[j].sourceID.value, after[j].path)
  {
    var o := nodes[j].objectID.value;
    assert FollowsAt(nodes, after, done, objects, now, sources, o) && References(nodes[j], objects, o);
    var i :| i in done && References(nodes[i], objects, o)
             && now[o] == Relocated(objects[o], sources, nodes[i].sourceID.value, after[i].path);
    OneFilePerLocator(nodes, objects, sources, o, i, j);
  }

  /** The new key of a moved file is nobody's old key among the live files. */
  lemma NewKeyIsNew(nodes: Nodes, objects: Objects, sources: Sources,
                    id: Id, newParent: Id, newName: string, newPath: string, k: Id, j: Id)
    requires CanRewrite(nodes, id, newParent, newName, newPath) && LocatorsAgree(nodes, objects, sources)
    requires k in MovedRows(nodes, id) && Live(nodes, j) && Syncs(nodes[k], objects) && Syncs(nodes[j], objects)
    requires
      var after := RewriteNodes(nodes, id, newParent, newName, newPath);
      MetadataNodeInnerPath(sources, nodes[k].sourceID.value, after[k].path).Ok?
    ensures
      var after := RewriteNodes(nodes, id, newParent, newName, newPath);
      NewKey(nodes[k], objects, sources, after[k].path) != KeyOf(objects[nodes[j].objectID.value])
  {
    var after := RewriteNodes(nodes, id, newParent, newName, newPath);
    assert LocatorAgrees(nodes[k], objects, sources) && LocatorAgrees(nodes[j], objects, sources);
    var s, y := nodes[k].sourceID.value, after[k].path;
    InnerOfCleaned(sources, s, y);
    CleanedIsNew(nodes, sources, s, id, newParent, newName, newPath, k, j);
    StoredPathIsClean(nodes, j);
    CleanIsIdempotent(y);
    hide CanRewrite, RewriteNodes, Clean, IsClean, Linked, MetadataNodeInnerPath;
    if NewKey(nodes[k], objects, sources, y) == KeyOf(objects[nodes[j].objectID.value]) {
      InnerPathInjective(sources, s, Clean(y), nodes[j].path);
    }
  }

  /** The inner path does not depend on how the virtual path is written. */
  lemma InnerOfCleaned(sources: Sources, sourceID: Id, path: string)
    requires MetadataNodeInnerPath(sources, sourceID, path).Ok? && HasPrefix(path, "/")
    ensures NormalizeVirtualPath(path) == Ok(Clean(path))
    ensures MetadataNodeInnerPath(sources, sourceID, Clean(path)) == MetadataNodeInnerPath(sources, sourceID, path)
  {
    assert NormalizeVirtualPath(path).Ok?;
    NormalizeIsIdempotent(path);
    hide IsSubPath, Clean;
  }

  /** Cleaned, the new path of a moved file is still nobody's path. */
  lemma CleanedIsNew(nodes: Nodes, sources: Sources, sourceID: Id,
                     id: Id, newParent: Id, newName: string, newPath: string, k: Id, j: Id)
    requires CanRewrite(nodes, id, newParent, newName, newPath) && k in MovedRows(nodes, id) && Live(nodes, j)
    requires MetadataNodeInnerPath(sources, sourceID, nodes[k].path).Ok?
    ensures
      var y := RewriteNodes(nodes, id, newParent, newName, newPath)[k].path;
      HasPrefix(y, "/") && Clean(y) != nodes[j].path
  {
    StoredPathIsClean(nodes, k);
    NewPathIsClean(nodes, id, newParent, newName, newPath);
    LandsBelow(nodes, id, newParent, newName, newPath, k);
    NewPathIsRooted(nodes, id, newParent, newName, newPath);
    NothingBelowFreePath(nodes, newPath);
    assert Live(nodes, k) && id in nodes;
    hide CanRewrite, Clean, IsClean, Linked, RewrittenNode, Live, HasDotDot, Rooted, AtOrBelow;
    CleanIsNormal(nodes[k].path);
    NormalOfInner(sources, sourceID, nodes[k].path);
    var y := RewrittenNode(nodes, id, newParent, newName, newPath, k).path;
    CleanedStaysBelow(newPath, y);
    RootedStart(newPath, y);
  }

  lemma NormalOfInner(sources: Sources, sourceID: Id, path: string)
    requires MetadataNodeInnerPath(sources, sourceID, path).Ok?
    ensures NormalizeVirtualPath(path).Ok?
  {
  }

  lemma RootedStart(base: string, path: string)
    requires Rooted(base) && AtOrBelow(base, path)
    ensures HasPrefix(path, "/")
  {
  }

  lemma NewPathIsClean(nodes: Nodes, id: Id, newParent: Id, newName: string, newPath: string)
    requires CanRewrite(nodes, id, newParent, newName, newPath)
    ensures IsClean(newPath)
  {
    StoredPathIsClean(nodes, newParent);
    assert NodeOk(nodes, newParent);
    ChildPathIsJoin(nodes[newParent].path, newName);
    JoinIsRender(nodes[newParent].path, newName);
  }

  /** A name that is not all white space: the moved rows never get in each other's way. */
  lemma PlacesFreeIff(nodes: Nodes, objects: Objects, sources: Sources,
                      id: Id, newParent: Id, newName: string, newPath: string)
    requires CanRewrite(nodes, id, newParent, newName, newPath) && !IsBlank(nodes[id].name)
    requires LocatorsAgree(nodes, objects, sources)
    ensures
      var after := RewriteNodes(nodes, id, newParent, newName, newPath);
      PlacesFree(nodes, after, MovedRows(nodes, id), objects, sources) <==>
      LocatorsFree(nodes, after, MovedRows(nodes, id), objects, sources)
  {
    var after, moved := RewriteNodes(nodes, id, newParent, newName, newPath), MovedRows(nodes, id);
    forall k, j | k in moved && j in moved && k != j ensures after[k].path != after[j].path {
      SelectedPathIsNew(nodes, id, newParent, newName, newPath, k, j);
    }
    if LocatorsFree(nodes, after, moved, objects, sources) {
      forall k, j | k in moved && j in moved && k != j ensures KeysDiffer(nodes, after, objects, sources, k, j) {
        assert LocatorAdmitted(nodes[k], after[k].path, objects, sources);
        assert LocatorAdmitted(nodes[j], after[j].path, objects, sources);
        if Syncs(nodes[k], objects) && Syncs(nodes[j], objects) {
          MovedKeysDiffer(nodes, objects, sources, id, newParent, newName, newPath, k, j);
        }
      }
    }
  }

  /** The new key of one moved file is neither the old nor the new key of another. */
  lemma MovedKeysDiffer(nodes: Nodes, objects: Objects, sources: Sources,
                        id: Id, newParent: Id, newName: string, newPath: string, k: Id, j: Id)
    requires CanRewrite(nodes, id, newParent, newName, newPath) && !IsBlank(nodes[id].name)
    requires LocatorsAgree(nodes, objects, sources)
    requires k in MovedRows(nodes, id) && j in MovedRows(nodes, id) && k != j
    requires Syncs(nodes[k], objects) && Syncs(nodes[j], objects)
    requires
      var after := RewriteNodes(nodes, id, newParent, newName, newPath);
      && MetadataNodeInnerPath(sources, nodes[k].sourceID.value, after[k].path).Ok?
      && MetadataNodeInnerPath(sources, nodes[j].sourceID.value, after[j].path).Ok?
    ensures
      var after := RewriteNodes(nodes, id, newParent, newName, newPath);
      var key := NewKey(nodes[k], objects, sources, after[k].path);
      && key != NewKey(nodes[j], objects, sources, after[j].path)
      && key != KeyOf(objects[nodes[j].objectID.value])
  {
    var after := RewriteNodes(nodes, id, newParent, newName, newPath);
    assert LocatorAgrees(nodes[k], objects, sources) && LocatorAgrees(nodes[j], objects, sources);
    SelectedPathIsClean(nodes, id, newParent, newName, newPath, k);
    SelectedPathIsClean(nodes, id, newParent, newName, newPath, j);
    StoredPathIsClean(nodes, j);
    SelectedPathIsNew(nodes, id, newParent, newName, newPath, k, j);
    hide CanRewrite, RewriteNodes, IsClean, Linked;
    var s := nodes[k].sourceID.value;
    var key := NewKey(nodes[k], objects, sources, after[k].path);
    assert key.locator["path"] == MetadataNodeInnerPath(sources, s, after[k].path).value;
    if key == NewKey(nodes[j], objects, sources, after[j].path) {
      assert key.locator["path"] == MetadataNodeInnerPath(sources, nodes[j].sourceID.value, after[j].path).value;
      InnerPathInjective(sources, s, after[k].path, after[j].path);
    }
    if key == KeyOf(objects[nodes[j].objectID.value]) {
      InnerPathInjective(sources, s, after[k].path, nodes[j].path);
    }
  }
}
