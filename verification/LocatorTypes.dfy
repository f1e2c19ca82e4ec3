/** Which objects follow their files: renames and moves by locator type, and next to a commit at the new place. */
module LocatorTypes {
  import opened Common
  import opened Text
  import opened Paths
  import opened Store
  import opened Tree
  import opened Rewrite
  import opened Locators
  import opened LocatorSteps
  import opened Repositories
  import opened DirChains
  import opened Commit
  import InnerPaths
  import MetadataVfs
  import Mounts

  // ---- Renames and moves ----------------------------------------------------------------------

  /** The inner path of a path is the one that merges with the mount to the path as normalized. */
  lemma InnerMerges(sources: Sources, sourceID: Id, path: string, inner: string)
    requires HasPrefix(path, "/") && MetadataNodeInnerPath(sources, sourceID, path) == Ok(inner)
    ensures sourceID in sources && NormalizeVirtualPath(path).Ok? && MountOf(sources[sourceID]).Ok?
    ensures IsCanonical(inner)
    ensures MergeMountAndInnerPath(MountOf(sources[sourceID]).value, inner) == NormalizeVirtualPath(path).value
  {
    InnerOfCleaned(sources, sourceID, path);
    SourceOfInner(sources, sourceID, path);
    assert IsCanonical(NormalizeVirtualPath(path).value);
    InnerByMount(sources, sourceID, NormalizeVirtualPath(path).value, inner);
    hide *;
  }

  lemma SourceOfInner(sources: Sources, sourceID: Id, path: string)
    requires MetadataNodeInnerPath(sources, sourceID, path).Ok?
    ensures sourceID in sources
  {
  }

  /** What a rewrite makes of the object of a moved file, by the type of its locator. */
  ghost predicate FollowsByType(node: Node, obj: StorageObject, obj': StorageObject, sources: Sources, path: string)
    requires node.sourceID.Some?
  {
    var kind, sourceID := TrimSpace(obj.locatorType), node.sourceID.value;
    if kind == "local_path" || kind == "driver_path" || kind == "provider_path" then
      && sourceID in sources && MountOf(sources[sourceID]).Ok? && NormalizeVirtualPath(path).Ok?
      && exists inner: string ::
           && IsCanonical(inner) && obj' == obj.(locator := map["path" := inner])
           && MergeMountAndInnerPath(MountOf(sources[sourceID]).value, inner) == NormalizeVirtualPath(path).value
    else obj' == obj
  }

  lemma FollowsItsType(node: Node, objects: Objects, obj': StorageObject, sources: Sources, path: string)
    requires node.kind == File && node.objectID.Some? && node.sourceID.Some? && node.objectID.value in objects
    requires HasPrefix(path, "/")
    requires Syncs(node, objects) ==> MetadataNodeInnerPath(sources, node.sourceID.value, path).Ok?
    requires
      var obj := objects[node.objectID.value];
      obj' == if Syncs(node, objects) then Relocated(obj, sources, node.sourceID.value, path) else obj
    ensures FollowsByType(node, objects[node.objectID.value], obj', sources, path)
  {
    hide NormalizeVirtualPath, MetadataNodeInnerPath, MountOf, MergeMountAndInnerPath, IsCanonical, TrimSpace;
    if Syncs(node, objects) {
      InnerMerges(sources, node.sourceID.value, path,
                  MetadataNodeInnerPath(sources, node.sourceID.value, path).value);
    }
  }

  /** The new path of a moved row starts at the root, and is clean unless the moved node has a blank name. */
  lemma NewPathStarts(nodes: Nodes, id: Id, newParent: Id, newName: string, newPath: string, k: Id)
    requires CanRewrite(nodes, id, newParent, newName, newPath) && k in MovedRows(nodes, id)
    ensures
      var path := RewriteNodes(nodes, id, newParent, newName, newPath)[k].path;
      && HasPrefix(path, "/")
      && (!IsBlank(nodes[id].name) ==> IsClean(path))
  {
    LandsBelow(nodes, id, newParent, newName, newPath, k);
    NewPathIsRooted(nodes, id, newParent, newName, newPath);
    if !IsBlank(nodes[id].name) { SelectedPathIsClean(nodes, id, newParent, newName, newPath, k); }
    hide CanRewrite, RewrittenNode, IsClean, AtOrBelow;
    RootedStart(newPath, RewrittenNode(nodes, id, newParent, newName, newPath, k).path);
  }

  /** A moved file that is of no path-based type lends its object to no file that is. */
  lemma NoOtherReference(nodes: Nodes, objects: Objects, objects': Objects, sources: Sources, after: Nodes,
                         moved: set<Id>, k: Id)
    requires moved <= nodes.Keys && moved <= after.Keys && k in moved
    requires ObjectsFollow(nodes, after, moved, objects, objects', sources)
    requires nodes[k].kind == File && nodes[k].objectID.Some? && nodes[k].sourceID.Some?
    requires nodes[k].objectID.value in objects && !Syncs(nodes[k], objects)
    ensures objects'[nodes[k].objectID.value] == objects[nodes[k].objectID.value]
  {
    hide PathBased, Relocated, MetadataNodeInnerPath;
    assert FollowsAt(nodes, after, moved, objects, objects', sources, nodes[k].objectID.value);
  }

  /** After any rewrite the object of a moved file follows it if its type is one of the three path-based ones, and stays
      as it was otherwise. */
  lemma MovedFileFollows(nodes: Nodes, objects: Objects, nodes': Nodes, objects': Objects, sources: Sources, id: Id,
                         newParent: Id, newName: string, newPath: string, k: Id)
    requires CanRewrite(nodes, id, newParent, newName, newPath) && LocatorsAgree(nodes, objects, sources)
    requires MetadataVfs.Rewritten(nodes, objects, nodes', objects', sources, id, newParent, newName, newPath)
    requires k in MovedRows(nodes, id) && nodes[k].kind == File && nodes[k].objectID.Some? && nodes[k].sourceID.Some?
    requires nodes[k].objectID.value in objects
    ensures k in nodes' && nodes[k].objectID.value in objects'
    ensures FollowsByType(nodes[k], objects[nodes[k].objectID.value], objects'[nodes[k].objectID.value], sources,
                          nodes'[k].path)
    ensures !IsBlank(nodes[id].name) && NormalizeVirtualPath(nodes'[k].path).Ok? ==>
              NormalizeVirtualPath(nodes'[k].path).value == nodes'[k].path
  {
    var moved := MovedRows(nodes, id);
    NewPathStarts(nodes, id, newParent, newName, newPath, k);
    if IsClean(nodes'[k].path) { CleanIsNormal(nodes'[k].path); }
    if Syncs(nodes[k], objects) {
      FollowedObject(nodes, objects, objects', sources, moved, nodes', k);
    } else {
      NoOtherReference(nodes, objects, objects', sources, nodes', moved, k);
    }
    hide CanRewrite, LocatorsAgree, Relocated, FollowsByType, IsClean, NormalizeVirtualPath, Syncs;
    FollowsItsType(nodes[k], objects, objects'[nodes[k].objectID.value], sources, nodes'[k].path);
  }

  /** Objects of every other type stay, whoever uses them. */
  lemma OtherTypesStay(nodes: Nodes, objects: Objects, nodes': Nodes, objects': Objects, sources: Sources, id: Id,
                       newParent: Id, newName: string, newPath: string, o: Id)
    requires id in nodes && o in objects
    requires MetadataVfs.Rewritten(nodes, objects, nodes', objects', sources, id, newParent, newName, newPath)
    requires
      var kind := TrimSpace(objects[o].locatorType);
      kind != "local_path" && kind != "driver_path" && kind != "provider_path"
    ensures o in objects' && objects'[o] == objects[o]
  {
    hide TrimSpace, Relocated, MetadataNodeInnerPath, Selected;
    assert FollowsAt(nodes, nodes', MovedRows(nodes, id), objects, objects', sources, o);
  }

  /** Every live file the request took along has an object that followed by its type, and every object of another type
      stayed. */
  ghost predicate ObjectsFollowTypes(nodes: Nodes, objects: Objects, nodes': Nodes, objects': Objects,
                                     sources: Sources, id: Id)
    requires id in nodes && nodes.Keys <= nodes'.Keys && objects.Keys <= objects'.Keys
  {
    && (forall k | Selected(nodes, nodes[id].path, k) && nodes[k].kind == File && nodes[k].objectID.Some?
                   && nodes[k].sourceID.Some? && nodes[k].objectID.value in objects ::
          && FollowsByType(nodes[k], objects[nodes[k].objectID.value], objects'[nodes[k].objectID.value], sources,
                           nodes'[k].path)
          && (!IsBlank(nodes[id].name) && NormalizeVirtualPath(nodes'[k].path).Ok? ==>
                NormalizeVirtualPath(nodes'[k].path).value == nodes'[k].path))
    && (forall o | o in objects && TrimSpace(objects[o].locatorType) !in {"local_path", "driver_path", "provider_path"}
          :: objects'[o] == objects[o])
  }

  lemma RewriteFollowsTypes(nodes: Nodes, objects: Objects, nodes': Nodes, objects': Objects, sources: Sources,
                            id: Id, newParent: Id, newName: string, newPath: string)
    requires CanRewrite(nodes, id, newParent, newName, newPath) && LocatorsAgree(nodes, objects, sources)
    requires MetadataVfs.Rewritten(nodes, objects, nodes', objects', sources, id, newParent, newName, newPath)
    ensures id in nodes && nodes.Keys == nodes'.Keys && objects.Keys == objects'.Keys
    ensures ObjectsFollowTypes(nodes, objects, nodes', objects', sources, id)
  {
    assert id in nodes && nodes'.Keys == nodes.Keys && objects'.Keys == objects.Keys;
    assert forall k :: k in MovedRows(nodes, id) <==> Selected(nodes, nodes[id].path, k);
    hide CanRewrite, LocatorsAgree, MetadataVfs.Rewritten, FollowsByType, Selected, TrimSpace, NormalizeVirtualPath,
         MovedRows;
    forall k | Selected(nodes, nodes[id].path, k) && nodes[k].kind == File && nodes[k].objectID.Some?
               && nodes[k].sourceID.Some? && nodes[k].objectID.value in objects
      ensures FollowsByType(nodes[k], objects[nodes[k].objectID.value], objects'[nodes[k].objectID.value], sources,
                            nodes'[k].path)
      ensures !IsBlank(nodes[id].name) && NormalizeVirtualPath(nodes'[k].path).Ok? ==>
                NormalizeVirtualPath(nodes'[k].path).value == nodes'[k].path
    {
      MovedFileFollows(nodes, objects, nodes', objects', sources, id, newParent, newName, newPath, k);
    }
    forall o | o in objects && TrimSpace(objects[o].locatorType) !in {"local_path", "driver_path", "provider_path"}
      ensures objects'[o] == objects[o]
    {
      OtherTypesStay(nodes, objects, nodes', objects', sources, id, newParent, newName, newPath, o);
    }
  }

  /** `Rename` as the service runs it. */
  method RenameFollows(vfs: MetadataVfs.MetadataVFSService, path: string, newName: string)
    returns (r: Result<(string, Id)>)
    requires Ready(vfs.store.nodes) && LocatorsAgree(vfs.store.nodes, vfs.store.objects, vfs.sources)
    modifies vfs.store`nodes, vfs.store`objects
    ensures r.Ok? ==>
              && r.value.1 in old(vfs.store.nodes)
              && old(vfs.store.nodes).Keys == vfs.store.nodes.Keys
              && old(vfs.store.objects).Keys == vfs.store.objects.Keys
              && (vfs.store.nodes != old(vfs.store.nodes) ==>
                    ObjectsFollowTypes(old(vfs.store.nodes), old(vfs.store.objects), vfs.store.nodes, vfs.store.objects,
                                       vfs.sources, r.value.1))
  {
    hide LocatorsAgree, Ready, MetadataVfs.Resolves, MetadataVfs.RenamePlan, ObjectsFollowTypes, MetadataVfs.Renamed;
    ghost var nodes, objects := vfs.store.nodes, vfs.store.objects;
    r := vfs.Rename(path, newName);
    if r.Ok? {
      ResolvedIsStored(nodes, path, r.value.1);
      if MetadataVfs.Renamed(nodes, objects, vfs.store.nodes, vfs.store.objects, vfs.sources, path, newName,
                             r.value.1) {
        RenamedFollowsTypes(nodes, objects, vfs.store.nodes, vfs.store.objects, vfs.sources, path, newName, r.value.1);
      }
    }
  }

  lemma ResolvedIsStored(nodes: Nodes, path: string, id: Id)
    requires MetadataVfs.Resolves(nodes, path, id)
    ensures id in nodes
  {
  }

  lemma RenamedFollowsTypes(nodes: Nodes, objects: Objects, nodes': Nodes, objects': Objects, sources: Sources,
                            path: string, newName: string, id: Id)
    requires Ready(nodes) && LocatorsAgree(nodes, objects, sources)
    requires MetadataVfs.Renamed(nodes, objects, nodes', objects', sources, path, newName, id)
    ensures id in nodes && nodes.Keys == nodes'.Keys && objects.Keys == objects'.Keys
    ensures ObjectsFollowTypes(nodes, objects, nodes', objects', sources, id)
  {
    MetadataVfs.ResolvedInLinked(nodes, path, id);
    hide LocatorsAgree, MetadataVfs.Rewritten, MetadataVfs.Resolves, ValidName, ObjectsFollowTypes, Ready, Linked,
         MetadataVfs.NameIsFree, ChildPath, CanRewrite, MetadataVfs.RenamePlan;
    MetadataVfs.RenamePlanCanRewrite(nodes, path, newName, id);
    var parent := nodes[id].parentID.value;
    RewriteFollowsTypes(nodes, objects, nodes', objects', sources, id, parent, newName,
                        ChildPath(nodes[parent].path, newName));
  }

  /** `Move` as the service runs it. */
  method MoveFollows(vfs: MetadataVfs.MetadataVFSService, path: string, targetParentPath: string)
    returns (r: Result<(string, Id)>)
    requires Ready(vfs.store.nodes) && LocatorsAgree(vfs.store.nodes, vfs.store.objects, vfs.sources)
    modifies vfs.store`nodes, vfs.store`objects
    ensures r.Ok? ==>
              && r.value.1 in old(vfs.store.nodes)
              && old(vfs.store.nodes).Keys == vfs.store.nodes.Keys
              && old(vfs.store.objects).Keys == vfs.store.objects.Keys
              && (vfs.store.nodes != old(vfs.store.nodes) ==>
                    ObjectsFollowTypes(old(vfs.store.nodes), old(vfs.store.objects), vfs.store.nodes, vfs.store.objects,
                                       vfs.sources, r.value.1))
  {
    hide *;
    ghost var nodes, objects := vfs.store.nodes, vfs.store.objects;
    r := vfs.Move(path, targetParentPath);
    if r.Ok? {
      MovedFollowsTypes(nodes, objects, vfs.store.nodes, vfs.store.objects, vfs.sources, path, targetParentPath,
                        r.value);
    }
  }

  lemma MovedFollowsTypes(nodes: Nodes, objects: Objects, nodes': Nodes, objects': Objects, sources: Sources,
                          path: string, targetParentPath: string, answer: (string, Id))
    requires Ready(nodes) && LocatorsAgree(nodes, objects, sources)
    requires MetadataVfs.MoveAnswers(nodes, objects, nodes', objects', sources, path, targetParentPath, answer)
    ensures answer.1 in nodes && nodes.Keys == nodes'.Keys && objects.Keys == objects'.Keys
    ensures nodes' != nodes ==> ObjectsFollowTypes(nodes, objects, nodes', objects', sources, answer.1)
  {
    MetadataVfs.ResolvedInLinked(nodes, path, answer.1);
    hide LocatorsAgree, MetadataVfs.Rewritten, MetadataVfs.Resolves, ObjectsFollowTypes, Ready, Linked,
         ChildPath, CanRewrite, MetadataVfs.MovePlan;
    ResolvedIsStored(nodes, path, answer.1);
    var id := answer.1;
    var target: Id :| && MetadataVfs.Resolves(nodes, targetParentPath, target)
                      && if nodes[id].parentID == Some(target) then nodes' == nodes && objects' == objects
                         else MetadataVfs.Moved(nodes, objects, nodes', objects', sources, path, targetParentPath, id,
                                                target);
    if nodes[id].parentID != Some(target) {
      ResolvedIsStored(nodes, targetParentPath, target);
      MetadataVfs.MovePlanCanRewrite(nodes, path, targetParentPath, id, target);
      RewriteFollowsTypes(nodes, objects, nodes', objects', sources, id, target, nodes[id].name,
                          ChildPath(nodes[target].path, nodes[id].name));
    }
  }

  // ---- Next to a commit at the new place ------------------------------------------------------

  /** The request names no locator type of its own. */
  predicate LeavesType(req: CommitRequest, sources: Sources) {
    LeavesLocator(req, sources) && TrimSpace(req.locatorType) == ""
  }

  /** The same request for another place. */
  function At(req: CommitRequest, parent: string, name: string): CommitRequest {
    req.(virtualParentPath := parent, filename := name)
  }

  lemma PathIsNotBlank(path: string)
    requires HasPrefix(path, "/")
    ensures TrimSpace(path) != ""
  {
    TrimRightFixed(path);
  }

  lemma PlannedInside(req: CommitRequest, sanitize: Json -> Json, guessMime: string -> string, sources: Sources,
                      parent: string, name: string)
    requires LeavesType(req, sources) && PlanOf(req, sanitize, guessMime).Ok?
    requires IsCanonical(parent) && ValidName(name) && !HasDotDot(name)
    requires IsSubPath(NormalizeVirtualPath(req.source.value.mountPath).value, parent)
    ensures LeavesLocator(At(req, parent, name), sources) && PlanOf(At(req, parent, name), sanitize, guessMime).Ok?
    ensures
      var plan, first := PlanOf(At(req, parent, name), sanitize, guessMime).value,
        PlanOf(req, sanitize, guessMime).value;
      && plan.virtualParentPath == parent && plan.filename == name
      && plan.obj == first.obj.(mimeType := plan.obj.mimeType, locator := plan.obj.locator)
  {
    PathIsNotBlank(parent);
    CanonicalIsFixpoint(parent);
    InsideMount(req.source.value, sources, parent);
    var inner := Mounts.InnerPathUnder(NormalizeVirtualPath(req.source.value.mountPath).value, parent);
    CanonicalChild(inner, name);
    BlankInnerParent(req.resolvedInnerParentPath, req.source.value.mountPath, parent);
    hide NormalizeVirtualPath, TrimSpace, IsSubPath, JoinVirtualPath, MergeMountAndInnerPath, ValidName, IsCanonical,
         Mounts.InnerPathUnder, HasDotDot, InnerPaths.CommitInnerParentPath;
  }

  lemma BlankInnerParent(resolved: string, mountPath: string, parent: string)
    requires TrimSpace(resolved) == ""
    ensures InnerPaths.CommitInnerParentPath(resolved, mountPath, parent)
            == InnerPaths.CommitInnerParentPath("", mountPath, parent)
  {
    assert TrimSpace("") == "";
    hide TrimSpace, NormalizeVirtualPath, IsSubPath;
  }

  /** The plan of such a request at a place inside the mount. */
  lemma PlanInside(req: CommitRequest, sanitize: Json -> Json, guessMime: string -> string, sources: Sources,
                   parent: string, name: string)
    requires LeavesType(req, sources) && PlanOf(req, sanitize, guessMime).Ok?
    requires IsCanonical(parent) && ValidName(name) && !HasDotDot(name)
    requires IsSubPath(NormalizeVirtualPath(req.source.value.mountPath).value, parent)
    ensures
      var plan := PlanOf(At(req, parent, name), sanitize, guessMime);
      && plan.Ok? && plan.value.virtualParentPath == parent && plan.value.filename == name
      && MetadataNodeInnerPath(sources, req.source.value.id, JoinVirtualPath(parent, name)).Ok?
      && plan.value.obj
         == PlanOf(req, sanitize, guessMime).value.obj.(
              mimeType := plan.value.obj.mimeType,
              locator := map["path" := MetadataNodeInnerPath(sources, req.source.value.id,
                                                             JoinVirtualPath(parent, name)).value])
  {
    PlannedInside(req, sanitize, guessMime, sources, parent, name);
    hide PlanOf, LeavesLocator, IsCanonical, ValidName, IsSubPath, NormalizeVirtualPath, JoinVirtualPath,
         MetadataNodeInnerPath, HasDotDot;
    var again := At(req, parent, name);
    var plan := PlanOf(again, sanitize, guessMime).value;
    PlanWithoutLocator(again, sanitize, guessMime, sources);
    PlacedLocator(req.source.value, sources, parent, name);
  }

  /** Without a type of its own a commit writes one of the two default types. */
  lemma DefaultType(req: CommitRequest, sanitize: Json -> Json, guessMime: string -> string)
    requires PlanOf(req, sanitize, guessMime).Ok? && TrimSpace(req.locatorType) == ""
    ensures
      var obj := PlanOf(req, sanitize, guessMime).value.obj;
      && obj.locatorType == (if obj.driverType == "local" then "local_path" else "driver_path")
      && TrimSpace(obj.locatorType) == obj.locatorType
  {
    Literals();
    hide TrimSpace, NormalizeVirtualPath, VirtualParentPath, ValidName, InnerPaths.CommitInnerParentPath;
  }

  lemma Literals()
    ensures TrimSpace("local_path") == "local_path" && TrimSpace("driver_path") == "driver_path"
  {
    var a, b := "local_path", "driver_path";
    assert TrimLeftSpace(a) == a && TrimLeftSpace(b) == b;
    assert TrimRightSpace(a) == a && TrimRightSpace(b) == b;
  }

  /** What a default commit leaves: locators agree, and the file stands at its place below the mount. */
  lemma DefaultCommit(nodes: Nodes, objects: Objects, nodes1: Nodes, objects1: Objects, req: CommitRequest,
                      sanitize: Json -> Json, guessMime: string -> string, sources: Sources,
                      root: Id, fileID: Id, objectID: Id)
    requires LeavesType(req, sources) && PlanOf(req, sanitize, guessMime).Ok?
    requires Ready(nodes) && LocatorsAgree(nodes, objects, sources) && FileObjectsExist(nodes, objects)
    requires Committed(nodes, objects, nodes1, objects1, PlanOf(req, sanitize, guessMime).value, root, fileID, objectID)
    requires IsSubPath(NormalizeVirtualPath(req.source.value.mountPath).value,
                       PlanOf(req, sanitize, guessMime).value.virtualParentPath)
    ensures LocatorsAgree(nodes1, objects1, sources)
    ensures
      var plan := PlanOf(req, sanitize, guessMime).value;
      && IsCanonical(plan.virtualParentPath) && ValidName(plan.filename)
      && LiveAt(nodes1, fileID, JoinVirtualPath(plan.virtualParentPath, plan.filename))
      && nodes1[fileID].kind == File && nodes1[fileID].objectID == Some(objectID)
      && nodes1[fileID].sourceID == Some(req.source.value.id) && plan.obj.sourceID == req.source.value.id
      && objectID in objects1 && objects1[objectID] == plan.obj
  {
    var plan := PlanOf(req, sanitize, guessMime).value;
    PlanWithoutLocator(req, sanitize, guessMime, sources);
    PlanIsValid(req, sanitize, guessMime);
    DefaultCommitAgreesIff(req, sanitize, guessMime, sources);
    hide PlanOf, LeavesLocator, Ready, LocatorsAgree, FileObjectsExist, Committed, ValidPlan, IsSubPath,
         NormalizeVirtualPath,
         PlanAgrees, IsCanonical, ValidName, JoinVirtualPath, InnerPaths.CommitInnerParentPath, PathBased;
    CommitKeepsLocatorsIff(nodes, objects, nodes1, objects1, plan, root, fileID, objectID, sources);
    CommitPlacesTheFile(nodes, objects, nodes1, objects1, plan, root, fileID, objectID);
    SourceOfFile(nodes, objects, nodes1, objects1, plan, root, fileID, objectID);
  }

  lemma SourceOfFile(nodes: Nodes, objects: Objects, nodes1: Nodes, objects1: Objects, plan: CommitPlan,
                     root: Id, fileID: Id, objectID: Id)
    requires Committed(nodes, objects, nodes1, objects1, plan, root, fileID, objectID)
    ensures fileID in nodes1 && nodes1[fileID].sourceID == Some(plan.obj.sourceID)
  {
    hide Prepared, UpsertTarget, KeyTarget, ChildPath;
  }

  /** A committed file carried along is never carried to the mount itself, so its new directory lies in the mount. */
  lemma NewParentInMount(nodes: Nodes, id: Id, newParent: Id, newName: string, newPath: string, k: Id, mount: string,
                         parent: string, name: string)
    requires CanRewrite(nodes, id, newParent, newName, newPath) && k in MovedRows(nodes, id)
    requires IsCanonical(mount) && IsSubPath(mount, nodes[k].path) && IsCanonical(parent) && ValidName(name)
    requires
      var path := RewriteNodes(nodes, id, newParent, newName, newPath)[k].path;
      path == JoinVirtualPath(parent, name) && IsSubPath(mount, path)
    ensures IsSubPath(mount, parent)
  {
    NotTheMount(nodes, id, newParent, newName, newPath, k, mount);
    hide *;
    InsideParent(mount, parent, name);
  }

  lemma NotTheMount(nodes: Nodes, id: Id, newParent: Id, newName: string, newPath: string, k: Id, mount: string)
    requires CanRewrite(nodes, id, newParent, newName, newPath) && k in MovedRows(nodes, id)
    requires IsCanonical(mount) && IsSubPath(mount, nodes[k].path)
    ensures RewriteNodes(nodes, id, newParent, newName, newPath)[k].path != mount
  {
    hide RewrittenNode, IsSubPath, IsCanonical;
    MountIsLive(nodes, k, mount);
    var j :| LiveAt(nodes, j, mount);
    LandsOnNobody(nodes, id, newParent, newName, newPath, k, j);
  }

  lemma InsideParent(mount: string, parent: string, name: string)
    requires IsCanonical(mount) && IsCanonical(parent) && ValidName(name)
    requires IsSubPath(mount, JoinVirtualPath(parent, name)) && JoinVirtualPath(parent, name) != mount
    ensures IsSubPath(mount, parent)
  {
    hide IsSubPath, Segments, Render, JoinVirtualPath, Clean;
    JoinIsRender(parent, name);
    CanonicalSegments(mount);
    SubPathIsSegmentPrefix(mount, JoinVirtualPath(parent, name));
    SubPathIsSegmentPrefix(mount, parent);
    var m, p := Segments(mount), Segments(parent);
    assert |m| > |p| ==> m == p + [name];
    assert m == (p + [name])[..|m|] == p[..|m|];
  }

  lemma MountIsLive(nodes: Nodes, k: Id, mount: string)
    requires Linked(nodes) && Live(nodes, k) && IsCanonical(mount) && IsSubPath(mount, nodes[k].path)
    ensures exists j :: LiveAt(nodes, j, mount)
  {
    StoredPathIsClean(nodes, k);
    SubPathIsSegmentPrefix(mount, nodes[k].path);
    CanonicalIsRooted(mount);
    hide IsSubPath, IsCanonical, Linked, Rooted, AtOrBelow;
    AncestorIsLive(nodes, k, mount);
  }

  /** The inner path of a moved file's new path is the one its locator holds. */
  lemma LocatorIsInner(node: Node, obj: StorageObject, obj': StorageObject, sources: Sources, path: string)
    requires node.sourceID.Some? && FollowsByType(node, obj, obj', sources, path)
    requires TrimSpace(obj.locatorType) == "local_path" || TrimSpace(obj.locatorType) == "driver_path"
    requires IsClean(path)
    ensures node.sourceID.value in sources && IsCanonical(path)
    ensures MetadataNodeInnerPath(sources, node.sourceID.value, path).Ok?
    ensures obj' == obj.(locator := map["path" := MetadataNodeInnerPath(sources, node.sourceID.value, path).value])
  {
    CleanIsNormal(path);
    hide TrimSpace, NormalizeVirtualPath, IsClean, HasDotDot, MetadataNodeInnerPath, MountOf, MergeMountAndInnerPath,
         IsCanonical;
    var inner: string :| && IsCanonical(inner) && obj' == obj.(locator := map["path" := inner])
                         && MergeMountAndInnerPath(MountOf(sources[node.sourceID.value]).value, inner) == path;
    InnerByMount(sources, node.sourceID.value, path, inner);
  }

  lemma DotlessName(parent: string, name: string)
    requires IsCanonical(parent) && ValidName(name) && IsCanonical(JoinVirtualPath(parent, name))
    ensures !HasDotDot(name)
  {
    hide *;
    CanonicalChild(parent, name);
  }

  /** The source's mount encloses every path it has an inner path for. */
  lemma EnclosedByMount(req: CommitRequest, sources: Sources, path: string)
    requires LeavesLocator(req, sources) && IsCanonical(path)
    requires MetadataNodeInnerPath(sources, req.source.value.id, path).Ok?
    ensures IsSubPath(NormalizeVirtualPath(req.source.value.mountPath).value, path)
    ensures IsCanonical(NormalizeVirtualPath(req.source.value.mountPath).value)
  {
    hide IsSubPath, IsCanonical, MetadataNodeInnerPath, TrimSpace;
    if !IsSubPath(NormalizeVirtualPath(req.source.value.mountPath).value, path) {
      OutsideMount(req.source.value, sources, path);
    }
  }

  lemma LeavesBoth(req: CommitRequest, sources: Sources)
    requires LeavesType(req, sources)
    ensures LeavesLocator(req, sources) && TrimSpace(req.locatorType) == ""
  {
  }

  lemma LinkedNow(nodes: Nodes, id: Id, newParent: Id, newName: string, newPath: string)
    requires CanRewrite(nodes, id, newParent, newName, newPath)
    ensures Linked(nodes)
  {
  }

  lemma FileInMount(nodes: Nodes, objects: Objects, req: CommitRequest, sources: Sources, k: Id)
    requires LeavesLocator(req, sources) && Linked(nodes) && LocatorsAgree(nodes, objects, sources)
    requires Live(nodes, k) && nodes[k].kind == File && nodes[k].sourceID == Some(req.source.value.id)
    requires nodes[k].objectID.Some? && nodes[k].objectID.value in objects
    requires
      var kind := TrimSpace(objects[nodes[k].objectID.value].locatorType);
      kind == "local_path" || kind == "driver_path"
    ensures IsSubPath(NormalizeVirtualPath(req.source.value.mountPath).value, nodes[k].path)
  {
    assert LocatorAgrees(nodes[k], objects, sources);
    StoredPathIsClean(nodes, k);
    PathOfLocator(nodes[k], objects, sources);
    CleanIsNormal(nodes[k].path);
    hide IsSubPath, IsClean, MetadataNodeInnerPath, TrimSpace, LeavesLocator, NormalizeVirtualPath, Linked;
    EnclosedByMount(req, sources, nodes[k].path);
  }

  /** The second half: from the committed file to its new place. */
  lemma CommittedFileMoves(nodes1: Nodes, objects1: Objects, nodes2: Nodes, objects2: Objects, req: CommitRequest,
                           sanitize: Json -> Json, guessMime: string -> string, sources: Sources, fileID: Id,
                           objectID: Id, id: Id, newParent: Id, newName: string, newPath: string, parent: string,
                           name: string)
    requires LeavesType(req, sources) && PlanOf(req, sanitize, guessMime).Ok?
    requires Live(nodes1, fileID) && nodes1[fileID].kind == File && nodes1[fileID].objectID == Some(objectID)
    requires nodes1[fileID].sourceID == Some(req.source.value.id)
    requires objectID in objects1 && objects1[objectID] == PlanOf(req, sanitize, guessMime).value.obj
    requires LocatorsAgree(nodes1, objects1, sources)
    requires CanRewrite(nodes1, id, newParent, newName, newPath)
    requires MetadataVfs.Rewritten(nodes1, objects1, nodes2, objects2, sources, id, newParent, newName, newPath)
    requires fileID in nodes2 && Selected(nodes1, nodes1[id].path, fileID)
    requires IsCanonical(parent) && ValidName(name) && nodes2[fileID].path == JoinVirtualPath(parent, name)
    ensures
      var plan := PlanOf(At(req, parent, name), sanitize, guessMime);
      plan.Ok? && objectID in objects2
      && objects2[objectID] == plan.value.obj.(mimeType := objects2[objectID].mimeType)
  {
    var path, mount := JoinVirtualPath(parent, name), NormalizeVirtualPath(req.source.value.mountPath).value;
    assert fileID in MovedRows(nodes1, id) && nodes2 == RewriteNodes(nodes1, id, newParent, newName, newPath);
    hide *;
    MovedFileFollows(nodes1, objects1, nodes2, objects2, sources, id, newParent, newName, newPath, fileID);
    DefaultType(req, sanitize, guessMime);
    CanonicalChild(parent, name);
    LocatorIsInner(nodes1[fileID], objects1[objectID], objects2[objectID], sources, path);
    DotlessName(parent, name);
    LeavesBoth(req, sources);
    EnclosedByMount(req, sources, path);
    FileInMount(nodes1, objects1, req, sources, fileID) by { LinkedNow(nodes1, id, newParent, newName, newPath); }
    NewParentInMount(nodes1, id, newParent, newName, newPath, fileID, mount, parent, name);
    PlanInside(req, sanitize, guessMime, sources, parent, name);
  }

  /** A file committed by default below its mount and then renamed or moved, itself or with a directory above it, has
      the object that the same commit would have written at the new place. */
  lemma CommitThenRewrite(nodes: Nodes, objects: Objects, nodes1: Nodes, objects1: Objects, nodes2: Nodes,
                          objects2: Objects, req: CommitRequest, sanitize: Json -> Json, guessMime: string -> string,
                          sources: Sources, root: Id, fileID: Id, objectID: Id,
                          id: Id, newParent: Id, newName: string, newPath: string, parent: string, name: string)
    requires LeavesType(req, sources) && PlanOf(req, sanitize, guessMime).Ok?
    requires Ready(nodes) && LocatorsAgree(nodes, objects, sources) && FileObjectsExist(nodes, objects)
    requires Committed(nodes, objects, nodes1, objects1, PlanOf(req, sanitize, guessMime).value, root, fileID, objectID)
    requires IsSubPath(NormalizeVirtualPath(req.source.value.mountPath).value,
                       PlanOf(req, sanitize, guessMime).value.virtualParentPath)
    requires CanRewrite(nodes1, id, newParent, newName, newPath)
    requires MetadataVfs.Rewritten(nodes1, objects1, nodes2, objects2, sources, id, newParent, newName, newPath)
    requires Selected(nodes1, nodes1[id].path, fileID)
    requires IsCanonical(parent) && ValidName(name) && nodes2[fileID].path == JoinVirtualPath(parent, name)
    ensures
      var plan := PlanOf(At(req, parent, name), sanitize, guessMime);
      plan.Ok? && objectID in objects2
      && objects2[objectID] == plan.value.obj.(mimeType := objects2[objectID].mimeType)
  {
    assert Live(nodes1, fileID) && fileID in nodes2;
    hide *;
    DefaultCommit(nodes, objects, nodes1, objects1, req, sanitize, guessMime, sources, root, fileID, objectID);
    CommittedFileMoves(nodes1, objects1, nodes2, objects2, req, sanitize, guessMime, sources, fileID, objectID,
                       id, newParent, newName, newPath, parent, name);
  }
}
