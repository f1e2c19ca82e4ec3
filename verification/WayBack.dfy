/** Renaming or moving back: when it is admitted, and what it restores. */
module WayBack {
  import opened Common
  import opened Text
  import opened Paths
  import opened Store
  import opened Tree
  import opened Rewrite
  import opened Locators
  import opened MetadataVfs

  // ---- Objects --------------------------------------------------------------------------------

  /** The locators of the files to be moved hold the path and nothing else. */
  ghost predicate PureLocators(nodes: Nodes, objects: Objects, sources: Sources, moved: set<Id>)
    requires moved <= nodes.Keys
  {
    forall k | k in moved && Syncs(nodes[k], objects) ::
      objects[nodes[k].objectID.value]
        == Relocated(objects[nodes[k].objectID.value], sources, nodes[k].sourceID.value, nodes[k].path)
  }

  /** No other object has the key a moved file would have with such a locator. */
  ghost predicate ReturnKeysFree(nodes: Nodes, objects: Objects, sources: Sources, moved: set<Id>)
    requires moved <= nodes.Keys
  {
    forall k | k in moved && Syncs(nodes[k], objects) ::
      KeyIsFree(objects, nodes[k].objectID.value, NewKey(nodes[k], objects, sources, nodes[k].path))
  }

  lemma PureKeysAreFree(nodes: Nodes, objects: Objects, sources: Sources, moved: set<Id>)
    requires moved <= nodes.Keys && PureLocators(nodes, objects, sources, moved) && UniqueKeys(objects)
    ensures ReturnKeysFree(nodes, objects, sources, moved)
  {
  }

  /** There and back again: `after` is the table in between. */
  ghost predicate Trip(nodes: Nodes, objects: Objects, after: Nodes, objects1: Objects, sources: Sources,
                       id: Id, newParent: Id, newName: string, newPath: string) {
    && CanRewrite(nodes, id, newParent, newName, newPath) && Tidy(nodes[id].path) && Tidy(newPath)
    && LocatorsAgree(nodes, objects, sources)
    && after == RewriteNodes(nodes, id, newParent, newName, newPath)
    && ObjectsFollow(nodes, after, MovedRows(nodes, id), objects, objects1, sources)
  }

  lemma TripBack(nodes: Nodes, objects: Objects, after: Nodes, objects1: Objects, sources: Sources,
                 id: Id, newParent: Id, newName: string, newPath: string)
    requires Trip(nodes, objects, after, objects1, sources, id, newParent, newName, newPath)
    ensures Live(nodes, id) && nodes[id].parentID.Some? && id in after && after.Keys == nodes.Keys
            && after[id].path == newPath
    ensures CanRewrite(after, id, nodes[id].parentID.value, nodes[id].name, nodes[id].path)
    ensures RewriteNodes(after, id, nodes[id].parentID.value, nodes[id].name, nodes[id].path) == nodes
    ensures MovedRows(after, id) == MovedRows(nodes, id) && LocatorsAgree(after, objects1, sources)
    ensures forall k | k in nodes :: SameButPlace(nodes[k], after[k])
  {
    RewriteBackRestores(nodes, id, newParent, newName, newPath);
    MovedRootPath(nodes, id, newParent, newName, newPath);
    RewriteKeepsLocators(nodes, objects, objects1, sources, id, newParent, newName, newPath);
    TidySelection(nodes, id);
    TidySelection(after, id);
    TidyRewrite(nodes, id, newParent, newName, newPath);
    SameMoved(nodes, after, id, newParent, newName, newPath);
  }

  lemma SameMoved(nodes: Nodes, after: Nodes, id: Id, newParent: Id, newName: string, newPath: string)
    requires CanRewrite(nodes, id, newParent, newName, newPath) && Tidy(nodes[id].path)
    requires after == RewriteNodes(nodes, id, newParent, newName, newPath)
    ensures id in after && forall k | k in nodes :: k in after && (Moves(nodes, id, k) <==> Moves(after, id, k))
  {
    TidyRewrite(nodes, id, newParent, newName, newPath);
    MovedRootPath(nodes, id, newParent, newName, newPath);
    NewPathIsRooted(nodes, id, newParent, newName, newPath);
    assert Linked(nodes) && forall k :: !LiveAt(nodes, k, newPath);
    NothingBelowFreePath(nodes, newPath);
    hide Linked, AtOrBelow, Rooted, RewrittenNode;
    forall k | k in nodes ensures Moves(nodes, id, k) <==> Moves(after, id, k) {
      if Moves(nodes, id, k) { MovedPath(nodes, id, newParent, newName, newPath, k); }
    }
  }

  /** The object of a moved file, in between. */
  lemma ObjectInBetween(nodes: Nodes, objects: Objects, after: Nodes, objects1: Objects, sources: Sources,
                        id: Id, newParent: Id, newName: string, newPath: string, k: Id)
    requires Trip(nodes, objects, after, objects1, sources, id, newParent, newName, newPath)
    requires k in MovedRows(nodes, id) && Syncs(nodes[k], objects)
    ensures
      var o := nodes[k].objectID.value;
      && o in objects1 && k in after && Syncs(after[k], objects1)
      && objects1[o] == Relocated(objects[o], sources, nodes[k].sourceID.value, after[k].path)
      && MetadataNodeInnerPath(sources, nodes[k].sourceID.value, nodes[k].path).Ok?
      && NewKey(after[k], objects1, sources, nodes[k].path) == NewKey(nodes[k], objects, sources, nodes[k].path)
  {
    var o := nodes[k].objectID.value;
    var moved := MovedRows(nodes, id);
    RelocatedKeepsType(objects, objects1, nodes, after, moved, sources);
    TripBack(nodes, objects, after, objects1, sources, id, newParent, newName, newPath);
    hide CanRewrite, RewriteNodes, MetadataNodeInnerPath, Linked;
    assert SameButPlace(nodes[k], after[k]);
    assert Live(nodes, k) && References(nodes[k], objects, o);
    assert LocatorAgrees(nodes[k], objects, sources);
    assert FollowsAt(nodes, after, moved, objects, objects1, sources, o);
    var j :| j in moved && References(nodes[j], objects, o)
             && objects1[o] == Relocated(objects[o], sources, nodes[j].sourceID.value, after[j].path);
    LinkedOfTrip(nodes, id, newParent, newName, newPath);
    OneFilePerLocator(nodes, objects, sources, o, j, k);
  }

  lemma LinkedOfTrip(nodes: Nodes, id: Id, newParent: Id, newName: string, newPath: string)
    requires CanRewrite(nodes, id, newParent, newName, newPath)
    ensures Linked(nodes)
  {
  }

  /** The old key of a moved file is free in between exactly when it was free before. */
  lemma KeyFreeInBetween(nodes: Nodes, objects: Objects, after: Nodes, objects1: Objects, sources: Sources,
                         id: Id, newParent: Id, newName: string, newPath: string, k: Id)
    requires Trip(nodes, objects, after, objects1, sources, id, newParent, newName, newPath)
    requires k in MovedRows(nodes, id) && Syncs(nodes[k], objects)
    ensures
      var o, key := nodes[k].objectID.value, NewKey(nodes[k], objects, sources, nodes[k].path);
      KeyIsFree(objects1, o, key) <==> KeyIsFree(objects, o, key)
  {
    var o, key := nodes[k].objectID.value, NewKey(nodes[k], objects, sources, nodes[k].path);
    var moved := MovedRows(nodes, id);
    TripBack(nodes, objects, after, objects1, sources, id, newParent, newName, newPath);
    ObjectInBetween(nodes, objects, after, objects1, sources, id, newParent, newName, newPath, k);
    assert objects1.Keys == objects.Keys;
    hide CanRewrite, RewriteNodes, MetadataNodeInnerPath, Relocated, NewKey, LocatorsAgree, Syncs;
    forall o' | o' in objects && o' != o ensures KeyOf(objects1[o']) == key <==> KeyOf(objects[o']) == key {
      assert FollowsAt(nodes, after, moved, objects, objects1, sources, o');
      if j :| j in moved && References(nodes[j], objects, o') {
        NeitherKey(nodes, objects, after, objects1, sources, id, newParent, newName, newPath, k, j, o');
      }
    }
  }

  lemma NeitherKey(nodes: Nodes, objects: Objects, after: Nodes, objects1: Objects, sources: Sources,
                   id: Id, newParent: Id, newName: string, newPath: string, k: Id, j: Id, o': Id)
    requires Trip(nodes, objects, after, objects1, sources, id, newParent, newName, newPath)
    requires k in MovedRows(nodes, id) && Syncs(nodes[k], objects)
    requires j in MovedRows(nodes, id) && References(nodes[j], objects, o') && o' != nodes[k].objectID.value
    ensures o' in objects1 && KeyOf(objects1[o']) != NewKey(nodes[k], objects, sources, nodes[k].path)
    ensures KeyOf(objects[o']) != NewKey(nodes[k], objects, sources, nodes[k].path)
  {
    TripBack(nodes, objects, after, objects1, sources, id, newParent, newName, newPath);
    ObjectInBetween(nodes, objects, after, objects1, sources, id, newParent, newName, newPath, k);
    ObjectInBetween(nodes, objects, after, objects1, sources, id, newParent, newName, newPath, j);
    assert SameButPlace(nodes[k], after[k]) && SameButPlace(nodes[j], after[j]);
    OldKeysDiffer(nodes, objects, sources, id, newParent, newName, newPath, k, j);
    assert Live(after, id) && after[id].parentID.Some?;
    TidyFindsItself(after, id);
    hide CanRewrite, RewriteNodes, MetadataNodeInnerPath, Relocated, NewKey, LocatorsAgree, Syncs;
    MovedKeysDiffer(after, objects1, sources, id, nodes[id].parentID.value, nodes[id].name, nodes[id].path, k, j);
  }

  lemma OldKeysDiffer(nodes: Nodes, objects: Objects, sources: Sources,
                      id: Id, newParent: Id, newName: string, newPath: string, k: Id, j: Id)
    requires CanRewrite(nodes, id, newParent, newName, newPath) && LocatorsAgree(nodes, objects, sources)
    requires Live(nodes, k) && Live(nodes, j) && Syncs(nodes[k], objects) && Syncs(nodes[j], objects)
    requires nodes[j].objectID != nodes[k].objectID
    ensures KeyOf(objects[nodes[j].objectID.value]) != NewKey(nodes[k], objects, sources, nodes[k].path)
  {
    assert LocatorAgrees(nodes[k], objects, sources) && LocatorAgrees(nodes[j], objects, sources);
    StoredPathIsClean(nodes, k);
    StoredPathIsClean(nodes, j);
    hide IsClean, MetadataNodeInnerPath;
    var key := NewKey(nodes[k], objects, sources, nodes[k].path);
    assert key.locator["path"] == MetadataNodeInnerPath(sources, nodes[k].sourceID.value, nodes[k].path).value;
    if key == KeyOf(objects[nodes[j].objectID.value]) {
      InnerPathInjective(sources, nodes[k].sourceID.value, nodes[k].path, nodes[j].path);
    }
  }

  /** The object table admits the locators of the way back exactly when the keys were free before. */
  lemma WayBackIsFreeIff(nodes: Nodes, objects: Objects, after: Nodes, objects1: Objects, sources: Sources,
                         id: Id, newParent: Id, newName: string, newPath: string)
    requires Trip(nodes, objects, after, objects1, sources, id, newParent, newName, newPath)
    ensures after.Keys == nodes.Keys && id in after
    ensures LocatorsFree(after, nodes, MovedRows(after, id), objects1, sources)
            <==> ReturnKeysFree(nodes, objects, sources, MovedRows(nodes, id))
  {
    var moved := MovedRows(nodes, id);
    TripBack(nodes, objects, after, objects1, sources, id, newParent, newName, newPath);
    RelocatedKeepsType(objects, objects1, nodes, after, moved, sources);
    forall k | k in moved
      ensures LocatorAdmitted(after[k], nodes[k].path, objects1, sources) <==>
              (Syncs(nodes[k], objects) ==> KeyIsFree(objects, nodes[k].objectID.value,
                                                      NewKey(nodes[k], objects, sources, nodes[k].path)))
    {
      assert SameButPlace(nodes[k], after[k]);
      if Syncs(nodes[k], objects) {
        ObjectInBetween(nodes, objects, after, objects1, sources, id, newParent, newName, newPath, k);
        KeyFreeInBetween(nodes, objects, after, objects1, sources, id, newParent, newName, newPath, k);
      }
    }
    hide CanRewrite, RewriteNodes, Trip, LocatorAdmitted, KeyIsFree, NewKey, Syncs;
  }

  /** After the way back an object is as it was, except that the locator of a moved file holds its path and nothing
      else; so all objects are restored exactly when those locators did before. */
  lemma ObjectsComeBackIff(nodes: Nodes, objects: Objects, after: Nodes, objects1: Objects, objects2: Objects,
                           sources: Sources,
                           id: Id, newParent: Id, newName: string, newPath: string)
    requires Trip(nodes, objects, after, objects1, sources, id, newParent, newName, newPath)
    requires id in after && after.Keys == nodes.Keys
    requires ObjectsFollow(after, nodes, MovedRows(after, id), objects1, objects2, sources)
    ensures objects2.Keys == objects.Keys
    ensures forall k | k in MovedRows(nodes, id) && Syncs(nodes[k], objects) ::
              var o := nodes[k].objectID.value;
              objects2[o] == Relocated(objects[o], sources, nodes[k].sourceID.value, nodes[k].path)
    ensures forall o | o in objects && (forall k | k in MovedRows(nodes, id) :: !References(nodes[k], objects, o)) ::
            objects2[o] == objects[o]
    ensures objects2 == objects <==> PureLocators(nodes, objects, sources, MovedRows(nodes, id))
  {
    var moved := MovedRows(nodes, id);
    TripBack(nodes, objects, after, objects1, sources, id, newParent, newName, newPath);
    forall k | k in moved && Syncs(nodes[k], objects)
      ensures objects2[nodes[k].objectID.value]
              == Relocated(objects[nodes[k].objectID.value], sources, nodes[k].sourceID.value, nodes[k].path)
    {
      ObjectIsBack(nodes, objects, after, objects1, objects2, sources, id, newParent, newName, newPath, k);
    }
    forall o | o in objects && (forall k | k in moved :: !References(nodes[k], objects, o))
      ensures objects2[o] == objects[o] {
      OtherObjectStays(nodes, objects, after, objects1, objects2, sources, id, newParent, newName, newPath, o);
    }
    hide CanRewrite, RewriteNodes, Trip, Relocated, ObjectsFollow;
    if PureLocators(nodes, objects, sources, moved) {
      forall o | o in objects ensures objects2[o] == objects[o] {
        if k :| k in moved && References(nodes[k], objects, o) {
          assert Syncs(nodes[k], objects);
        }
      }
      assert objects2 == objects;
    }
  }

  lemma ObjectIsBack(nodes: Nodes, objects: Objects, after: Nodes, objects1: Objects, objects2: Objects,
                     sources: Sources,
                     id: Id, newParent: Id, newName: string, newPath: string, k: Id)
    requires Trip(nodes, objects, after, objects1, sources, id, newParent, newName, newPath)
    requires id in after && after.Keys == nodes.Keys && MovedRows(after, id) == MovedRows(nodes, id)
    requires ObjectsFollow(after, nodes, MovedRows(after, id), objects1, objects2, sources)
    requires k in MovedRows(nodes, id) && Syncs(nodes[k], objects)
    ensures nodes[k].objectID.value in objects2
    ensures objects2[nodes[k].objectID.value]
            == Relocated(objects[nodes[k].objectID.value], sources, nodes[k].sourceID.value, nodes[k].path)
  {
    TripBack(nodes, objects, after, objects1, sources, id, newParent, newName, newPath);
    ObjectInBetween(nodes, objects, after, objects1, sources, id, newParent, newName, newPath, k);
    hide Trip, CanRewrite, RewriteNodes, MetadataNodeInnerPath, Linked, MovedRows;
    var o := nodes[k].objectID.value;
    assert SameButPlace(nodes[k], after[k]);
    assert FollowsAt(after, nodes, MovedRows(after, id), objects1, objects2, sources, o);
    assert References(after[k], objects1, o);
    var j :| j in MovedRows(after, id) && References(after[j], objects1, o)
             && objects2[o] == Relocated(objects1[o], sources, after[j].sourceID.value, nodes[j].path);
    LinkedOfTrip(after, id, nodes[id].parentID.value, nodes[id].name, nodes[id].path);
    MovedAreLive(after, id, j);
    MovedAreLive(after, id, k);
    OneFilePerLocator(after, objects1, sources, o, j, k);
  }

  lemma MovedAreLive(nodes: Nodes, id: Id, k: Id)
    requires id in nodes && k in MovedRows(nodes, id)
    ensures Live(nodes, k)
  {
  }

  lemma OtherObjectStays(nodes: Nodes, objects: Objects, after: Nodes, objects1: Objects, objects2: Objects,
                         sources: Sources,
                         id: Id, newParent: Id, newName: string, newPath: string, o: Id)
    requires Trip(nodes, objects, after, objects1, sources, id, newParent, newName, newPath)
    requires id in after && after.Keys == nodes.Keys && MovedRows(after, id) == MovedRows(nodes, id)
    requires ObjectsFollow(after, nodes, MovedRows(after, id), objects1, objects2, sources)
    requires o in objects && forall k | k in MovedRows(nodes, id) :: !References(nodes[k], objects, o)
    ensures o in objects2 && objects2[o] == objects[o]
  {
    var moved := MovedRows(nodes, id);
    TripBack(nodes, objects, after, objects1, sources, id, newParent, newName, newPath);
    RelocatedKeepsType(objects, objects1, nodes, after, moved, sources);
    hide CanRewrite, RewriteNodes, MetadataNodeInnerPath, Linked, MovedRows, LocatorsAgree, Relocated;
    assert FollowsAt(nodes, after, moved, objects, objects1, sources, o);
    assert FollowsAt(after, nodes, moved, objects1, objects2, sources, o);
    forall k | k in moved ensures !References(after[k], objects1, o) {
      assert SameButPlace(nodes[k], after[k]) && !References(nodes[k], objects, o);
    }
  }

  // ---- Renaming back --------------------------------------------------------------------------

  lemma RenameIsTrip(nodes: Nodes, objects: Objects, nodes1: Nodes, objects1: Objects, sources: Sources,
                     path: string, newName: string, id: Id)
    requires Linked(nodes) && LocatorsAgree(nodes, objects, sources) && TidyRequest(path)
    requires Renamed(nodes, objects, nodes1, objects1, sources, path, newName, id)
    requires TidyRequest(ChildPath(nodes[nodes[id].parentID.value].path, newName))
    ensures
      var parent := nodes[id].parentID.value;
      var back := ChildPath(nodes[parent].path, newName);
      && Trip(nodes, objects, nodes1, objects1, sources, id, parent, newName, back)
      && NormalizeVirtualPath(back) == Ok(back) && nodes[id].path == ChildPath(nodes[parent].path, nodes[id].name)
      && !HasDotDot(nodes[id].path)
  {
    var parent := nodes[id].parentID.value;
    var back := ChildPath(nodes[parent].path, newName);
    assert Live(nodes, id) && NodeOk(nodes, id);
    RenamePlanCanRewrite(nodes, path, newName, id);
    ChildOfStored(nodes, parent, newName);
    CleanIsNormal(back);
  }

  /** After a rename: the rename back is planned exactly when the old name is one `validateFileName` accepts (a
      committed or mounted name may hold a backslash), it goes through exactly when the old keys of the moved files are
      free, and it restores every row, and every object if the moved locators held a path and nothing else. */
  lemma RenameBackRestores(nodes: Nodes, objects: Objects, nodes1: Nodes, objects1: Objects, sources: Sources,
                           path: string, newName: string, id: Id)
    requires Linked(nodes) && LocatorsAgree(nodes, objects, sources) && TidyRequest(path)
    requires Renamed(nodes, objects, nodes1, objects1, sources, path, newName, id)
    requires TidyRequest(ChildPath(nodes[nodes[id].parentID.value].path, newName))
    ensures Linked(nodes1) && LocatorsAgree(nodes1, objects1, sources)
    ensures
      var parent := nodes[id].parentID.value;
      var back, moved := ChildPath(nodes[parent].path, newName), MovedRows(nodes, id);
      && (RenamePlan(nodes1, back, nodes[id].name, id) <==> ValidName(nodes[id].name))
      && (ValidName(nodes[id].name) ==>
            (RenameLocatorsFree(nodes1, objects1, sources, nodes[id].name, id)
             <==> ReturnKeysFree(nodes, objects, sources, moved)))
      && (UniqueKeys(objects) && PureLocators(nodes, objects, sources, moved)
          ==> ReturnKeysFree(nodes, objects, sources, moved))
    ensures
      var back := ChildPath(nodes[nodes[id].parentID.value].path, newName);
      forall nodes2, objects2 | Renamed(nodes1, objects1, nodes2, objects2, sources, back, nodes[id].name, id) ::
        nodes2 == nodes && (objects2 == objects <==> PureLocators(nodes, objects, sources, MovedRows(nodes, id)))
  {
    var parent := nodes[id].parentID.value;
    var back := ChildPath(nodes[parent].path, newName);
    RenameIsTrip(nodes, objects, nodes1, objects1, sources, path, newName, id);
    TripBack(nodes, objects, nodes1, objects1, sources, id, parent, newName, back);
    WayBackIsFreeIff(nodes, objects, nodes1, objects1, sources, id, parent, newName, back);
    BackPlan(nodes, path, nodes1, newName, id);
    LinkedOfTrip(nodes1, id, parent, nodes[id].name, nodes[id].path);
    hide Trip, CanRewrite, RewriteNodes, LocatorsAgree, Linked, LocatorsFree, RenamePlan, PureLocators, ReturnKeysFree,
         ChildPath, TidyRequest,
         NormalizeVirtualPath, MovedRows, ObjectsFollow;
    if UniqueKeys(objects) && PureLocators(nodes, objects, sources, MovedRows(nodes, id)) {
      PureKeysAreFree(nodes, objects, sources, MovedRows(nodes, id));
    }
    forall nodes2, objects2 | Renamed(nodes1, objects1, nodes2, objects2, sources, back, nodes[id].name, id)
      ensures nodes2 == nodes && (objects2 == objects <==> PureLocators(nodes, objects, sources, MovedRows(nodes, id)))
    {
      ObjectsComeBackIff(nodes, objects, nodes1, objects1, objects2, sources, id, parent, newName, back);
    }
  }

  lemma BackPlan(nodes: Nodes, path: string, nodes1: Nodes, newName: string, id: Id)
    requires Linked(nodes) && TidyRequest(path) && RenamePlan(nodes, path, newName, id)
    requires
      var parent := nodes[id].parentID.value;
      var back := ChildPath(nodes[parent].path, newName);
      nodes1 == RewriteNodes(nodes, id, parent, newName, back) && NormalizeVirtualPath(back) == Ok(back)
    ensures ParentIsKept(nodes, nodes1, id)
    ensures
      var parent := nodes[id].parentID.value;
      RenamePlan(nodes1, ChildPath(nodes[parent].path, newName), nodes[id].name, id) <==> ValidName(nodes[id].name)
  {
    var parent := nodes[id].parentID.value;
    var back := ChildPath(nodes[parent].path, newName);
    assert Live(nodes, id) && NodeOk(nodes, id);
    RenamePlanCanRewrite(nodes, path, newName, id);
    MovedRootPath(nodes, id, parent, newName, back);
    CanRewriteBack(nodes, id, parent, newName, back);
    TidyRewrite(nodes, id, parent, newName, back);
    ParentIsShorter(nodes, id);
    LiveIsRooted(nodes, parent);
    ShorterIsNotBelow(nodes[id].path, nodes[parent].path);
    assert nodes1[parent] == nodes[parent];
    assert LiveAt(nodes1, id, back);
    hide NormalizeVirtualPath, RewriteNodes;
  }

  ghost predicate ParentIsKept(nodes: Nodes, nodes1: Nodes, id: Id) {
    && id in nodes && id in nodes1 && nodes[id].parentID.Some? && nodes1[id].parentID == nodes[id].parentID
    && nodes[id].parentID.value in nodes && nodes[id].parentID.value in nodes1
    && nodes1[nodes[id].parentID.value] == nodes[nodes[id].parentID.value]
  }

  /** Whatever the new name: rewriting back to the old place restores the rows if and only if the new path does not end
      in white space. */
  lemma RowsComeBackIff(nodes: Nodes, id: Id, newParent: Id, newName: string, newPath: string)
    requires CanRewrite(nodes, id, newParent, newName, newPath) && Tidy(nodes[id].path)
    ensures
      var after := RewriteNodes(nodes, id, newParent, newName, newPath);
      var oldParent, oldName, oldPath := nodes[id].parentID.value, nodes[id].name, nodes[id].path;
      && CanRewrite(after, id, oldParent, oldName, oldPath)
      && (RewriteNodes(after, id, oldParent, oldName, oldPath) == nodes <==> !EndsInSpace(newPath))
  {
    var after := RewriteNodes(nodes, id, newParent, newName, newPath);
    var oldParent, oldName, oldPath := nodes[id].parentID.value, nodes[id].name, nodes[id].path;
    CanRewriteBack(nodes, id, newParent, newName, newPath);
    NewPathIsRooted(nodes, id, newParent, newName, newPath);
    TrimShrinks(newPath);
    if EndsInSpace(newPath) {
      MovedRootPath(nodes, id, newParent, newName, newPath);
      TidyRewrite(nodes, id, newParent, newName, newPath);
      assert after[newParent] == nodes[newParent] && Live(after, id) && Live(after, newParent) && Live(nodes, id);
      hide RewriteNodes, Tidy, Moves, RewrittenNode;
      SomeRowStaysAway(nodes, after, id, newParent, oldParent, oldName, oldPath);
    } else {
      RewriteBackRestores(nodes, id, newParent, newName, newPath);
    }
  }

  /** The way back takes the parent along if the name is all white space, else it leaves the node where it is. */
  lemma SomeRowStaysAway(nodes: Nodes, after: Nodes, id: Id, newParent: Id, oldParent: Id, oldName: string,
                         oldPath: string)
    requires CanRewrite(after, id, oldParent, oldName, oldPath) && EndsInSpace(after[id].path)
    requires after[id].parentID == Some(newParent) && Live(after, newParent)
    requires newParent in nodes && after[newParent] == nodes[newParent] && id in nodes && nodes[id].path == oldPath
    ensures RewriteNodes(after, id, oldParent, oldName, oldPath) != nodes
  {
    QueryOfNode(after, id);
    var back := RewriteNodes(after, id, oldParent, oldName, oldPath);
    if IsBlank(after[id].name) {
      assert Selected(after, after[id].path, newParent);
      OnlyItself(after, id, oldParent, oldName, oldPath, newParent);
      assert back[newParent].path != nodes[newParent].path;
    } else {
      OnlyItself(after, id, oldParent, oldName, oldPath, id);
      assert back[id].path == after[id].path != oldPath;
    }
  }

  // ---- Moving back ----------------------------------------------------------------------------

  /** The node may return below its old parent: that is a directory, of the node's mount and source. */
  ghost predicate MayReturn(nodes: Nodes, id: Id) {
    && id in nodes && nodes[id].parentID.Some? && nodes[id].parentID.value in nodes
    && var parent := nodes[nodes[id].parentID.value];
       IsDirectory(parent) && nodes[id].mountID == parent.mountID && nodes[id].sourceID == parent.sourceID
  }

  /** A moved path ends as it did before. */
  lemma SameEnding(nodes: Nodes, id: Id, target: Id)
    requires Linked(nodes) && Live(nodes, id) && nodes[id].parentID.Some? && Live(nodes, target) && Tidy(nodes[id].path)
    ensures Tidy(ChildPath(nodes[target].path, nodes[id].name))
  {
    assert NodeOk(nodes, id) && NodeOk(nodes, target) && NodeOk(nodes, nodes[id].parentID.value);
    ChildPathShape(nodes[target].path, nodes[id].name);
    ChildPathShape(nodes[nodes[id].parentID.value].path, nodes[id].name);
    TrimShrinks(nodes[id].path);
    TrimShrinks(ChildPath(nodes[target].path, nodes[id].name));
  }

  lemma MoveIsTrip(nodes: Nodes, objects: Objects, nodes1: Nodes, objects1: Objects, sources: Sources,
                   path: string, targetParentPath: string, id: Id, target: Id)
    requires Linked(nodes) && LocatorsAgree(nodes, objects, sources) && TidyRequest(path)
    requires Moved(nodes, objects, nodes1, objects1, sources, path, targetParentPath, id, target)
    ensures
      var back := ChildPath(nodes[target].path, nodes[id].name);
      && Trip(nodes, objects, nodes1, objects1, sources, id, target, nodes[id].name, back)
      && NormalizeVirtualPath(back) == Ok(back) && nodes[id].parentID.value in nodes
      && nodes[id].path == ChildPath(nodes[nodes[id].parentID.value].path, nodes[id].name) && !HasDotDot(nodes[id].path)
  {
    var back := ChildPath(nodes[target].path, nodes[id].name);
    assert Live(nodes, id) && NodeOk(nodes, id);
    MovePlanCanRewrite(nodes, path, targetParentPath, id, target);
    SameEnding(nodes, id, target);
    ChildOfStored(nodes, target, nodes[id].name);
    CleanIsNormal(back);
  }

  /** After a move: moving back below the old parent is planned exactly when that parent is a directory of the node's
      mount and source, it goes through exactly when the old keys of the moved files are free, and it restores every
      row, and every object if the moved locators held a path and nothing else. */
  lemma MoveBackRestores(nodes: Nodes, objects: Objects, nodes1: Nodes, objects1: Objects, sources: Sources,
                         path: string, targetParentPath: string, id: Id, target: Id)
    requires Linked(nodes) && LocatorsAgree(nodes, objects, sources) && TidyRequest(path)
    requires Moved(nodes, objects, nodes1, objects1, sources, path, targetParentPath, id, target)
    ensures Linked(nodes1) && LocatorsAgree(nodes1, objects1, sources) && id in nodes1
    ensures nodes[id].parentID.Some? && nodes[id].parentID.value in nodes && nodes[id].parentID.value in nodes1
    ensures
      var parent := nodes[id].parentID.value;
      var back, moved := ChildPath(nodes[target].path, nodes[id].name), MovedRows(nodes, id);
      && TidyRequest(back)
      && (MovePlan(nodes1, back, nodes[parent].path, id, parent) <==> MayReturn(nodes, id))
      && (MoveLocatorsFree(nodes1, objects1, sources, id, parent) <==> ReturnKeysFree(nodes, objects, sources, moved))
      && (UniqueKeys(objects) && PureLocators(nodes, objects, sources, moved)
          ==> ReturnKeysFree(nodes, objects, sources, moved))
    ensures
      var parent := nodes[id].parentID.value;
      var back := ChildPath(nodes[target].path, nodes[id].name);
      forall nodes2, objects2 | Moved(nodes1, objects1, nodes2, objects2, sources, back, nodes[parent].path, id,
                                      parent) ::
        nodes2 == nodes && (objects2 == objects <==> PureLocators(nodes, objects, sources, MovedRows(nodes, id)))
  {
    var parent := nodes[id].parentID.value;
    var back, name := ChildPath(nodes[target].path, nodes[id].name), nodes[id].name;
    MoveIsTrip(nodes, objects, nodes1, objects1, sources, path, targetParentPath, id, target);
    TripBack(nodes, objects, nodes1, objects1, sources, id, target, name, back);
    WayBackIsFreeIff(nodes, objects, nodes1, objects1, sources, id, target, name, back);
    MoveBackPlan(nodes, path, targetParentPath, nodes1, id, target);
    LinkedOfTrip(nodes1, id, parent, nodes[id].name, nodes[id].path);
    assert TidyRequest(back) by { SameEnding(nodes, id, target) by { LinkedOfTrip(nodes, id, target, name, back); } }
    hide Trip, CanRewrite, RewriteNodes, LocatorsAgree, Linked, LocatorsFree, MovePlan, PureLocators, ReturnKeysFree,
         ChildPath, TidyRequest,
         NormalizeVirtualPath, MovedRows, ObjectsFollow, MayReturn;
    if UniqueKeys(objects) && PureLocators(nodes, objects, sources, MovedRows(nodes, id)) {
      PureKeysAreFree(nodes, objects, sources, MovedRows(nodes, id));
    }
    forall nodes2, objects2 | Moved(nodes1, objects1, nodes2, objects2, sources, back, nodes[parent].path, id, parent)
      ensures nodes2 == nodes && (objects2 == objects <==> PureLocators(nodes, objects, sources, MovedRows(nodes, id)))
    {
      ObjectsComeBackIff(nodes, objects, nodes1, objects1, objects2, sources, id, target, name, back);
    }
  }

  lemma MoveBackPlan(nodes: Nodes, path: string, targetParentPath: string, nodes1: Nodes, id: Id, target: Id)
    requires Linked(nodes) && TidyRequest(path) && MovePlan(nodes, path, targetParentPath, id, target)
    requires
      var back := ChildPath(nodes[target].path, nodes[id].name);
      nodes1 == RewriteNodes(nodes, id, target, nodes[id].name, back) && NormalizeVirtualPath(back) == Ok(back)
    requires nodes[id].parentID.value in nodes
    ensures
      var parent := nodes[id].parentID.value;
      && parent in nodes1 && nodes1[parent] == nodes[parent]
      && (MovePlan(nodes1, ChildPath(nodes[target].path, nodes[id].name), nodes[parent].path, id, parent)
          <==> MayReturn(nodes, id))
  {
    var parent := nodes[id].parentID.value;
    var back := ChildPath(nodes[target].path, nodes[id].name);
    assert Live(nodes, id) && NodeOk(nodes, id);
    MovePlanCanRewrite(nodes, path, targetParentPath, id, target);
    MovedRootPath(nodes, id, target, nodes[id].name, back);
    CanRewriteBack(nodes, id, target, nodes[id].name, back);
    TidyRewrite(nodes, id, target, nodes[id].name, back);
    ParentIsShorter(nodes, id);
    LiveIsRooted(nodes, parent);
    ShorterIsNotBelow(nodes[id].path, nodes[parent].path);
    assert nodes1[parent] == nodes[parent];
    assert LiveAt(nodes1, id, back);
    ParentIsNormal(nodes, id);
    hide NormalizeVirtualPath, RewriteNodes;
  }

  /** Above a path without ".." there is none either. */
  lemma ParentIsNormal(nodes: Nodes, id: Id)
    requires Linked(nodes) && Live(nodes, id) && nodes[id].parentID.Some? && !HasDotDot(nodes[id].path)
    ensures var parent := nodes[id].parentID.value;
            parent in nodes && NormalizeVirtualPath(nodes[parent].path) == Ok(nodes[parent].path)
  {
    var parent := nodes[id].parentID.value;
    ParentIsShorter(nodes, id);
    StoredPathIsClean(nodes, parent);
    assert NodeOk(nodes, id);
    hide Linked, IsClean, NodeOk;
    NoDotsAbove(nodes[parent].path, nodes[id].name);
    CleanIsNormal(nodes[parent].path);
  }

  // ---- The service, twice ---------------------------------------------------------------------

  /** A rename of tidy paths to a new name, of files whose locators hold a path only. */
  ghost predicate Reversible(nodes: Nodes, objects: Objects, sources: Sources, path: string, newName: string, id: Id) {
    && TidyRequest(path) && RenamePlan(nodes, path, newName, id) && ValidName(nodes[id].name)
    && TidyRequest(ChildPath(nodes[nodes[id].parentID.value].path, newName))
    && PureLocators(nodes, objects, sources, MovedRows(nodes, id))
  }

  /** Renamed and renamed back, the tables are as they were. */
  method RenameThereAndBack(service: MetadataVFSService, path: string, newName: string)
    returns (there: Result<(string, Id)>, back: Result<(string, Id)>, ghost nodes1: Nodes, ghost objects1: Objects)
    requires Linked(service.store.nodes) && UniqueKeys(service.store.objects)
    requires LocatorsAgree(service.store.nodes, service.store.objects, service.sources)
    requires exists id :: Reversible(service.store.nodes, service.store.objects, service.sources, path, newName, id)
    modifies service.store
    ensures service.store.nodes == old(service.store.nodes) && service.store.objects == old(service.store.objects)
    ensures there.Ok? ==>
              && back.Ok? && there.value.1 in old(service.store.nodes)
              && Renamed(old(service.store.nodes), old(service.store.objects), nodes1, objects1, service.sources, path,
                         newName, there.value.1)
  {
    hide Linked, LocatorsAgree, UniqueKeys, PureLocators, TidyRequest, RenameLocatorsFree, RenamePlacesFree,
         ReturnKeysFree, ChildPath, MovedRows, Rewritten, NormalizeVirtualPath, Selected, Ready, IsBlank, EndsInSpace,
         MissesItself;
    ghost var nodes, objects := service.store.nodes, service.store.objects;
    ghost var id: Id :| Reversible(nodes, objects, service.sources, path, newName, id);
    var names := service.store.nodes;
    LinkedMeansReady(nodes);
    ResolvedFindsItself(nodes, path, id);
    OnlyOneResolves(nodes, path, id);
    there := service.Rename(path, newName);
    if there.Err? { return there, there, nodes, objects; }
    assert there.value.1 == id;
    RenameBackRestores(nodes, objects, service.store.nodes, service.store.objects, service.sources, path, newName, id);
    NewPathOf(nodes, objects, service.store.nodes, service.store.objects, service.sources, path, newName, id);
    LinkedMeansReady(service.store.nodes);
    nodes1, objects1 := service.store.nodes, service.store.objects;
    var newPath := service.store.nodes[there.value.1].path;
    ResolvedFindsItself(nodes1, newPath, id);
    OnlyOneResolves(nodes1, newPath, id);
    RenameNeedsLocators(nodes1, objects1, service.sources, newPath, nodes[id].name, id);
    back := service.Rename(newPath, names[there.value.1].name);
    assert back.Ok? && back.value.1 == id;
    assert Renamed(nodes1, objects1, service.store.nodes, service.store.objects, service.sources, newPath,
                   nodes[id].name, id);
  }

  lemma ResolvedFindsItself(nodes: Nodes, path: string, id: Id)
    requires Linked(nodes) && Resolves(nodes, path, id) && Movable(nodes[id]) && TidyRequest(path)
    ensures !EndsInSpace(nodes[id].path) && !IsBlank(nodes[id].name) && !MissesItself(nodes[id])
  {
    assert NormalizeVirtualPath(path) == Ok(nodes[id].path);
    TidyFindsItself(nodes, id);
  }

  lemma LinkedMeansReady(nodes: Nodes)
    requires Linked(nodes)
    ensures Ready(nodes)
  {
  }

  lemma NewPathOf(nodes: Nodes, objects: Objects, nodes1: Nodes, objects1: Objects, sources: Sources,
                  path: string, newName: string, id: Id)
    requires Linked(nodes) && LocatorsAgree(nodes, objects, sources) && TidyRequest(path)
    requires Renamed(nodes, objects, nodes1, objects1, sources, path, newName, id)
    ensures id in nodes1 && nodes1[id].path == ChildPath(nodes[nodes[id].parentID.value].path, newName)
            && nodes1[id].name == newName
    ensures nodes[id].name != newName
  {
    var parent := nodes[id].parentID.value;
    RenamePlanCanRewrite(nodes, path, newName, id);
    MovedRootPath(nodes, id, parent, newName, ChildPath(nodes[parent].path, newName));
  }

  /** A move of a tidy path, of files whose locators hold a path only, from a parent the node may return to. */
  ghost predicate ReversibleMove(nodes: Nodes, objects: Objects, sources: Sources, path: string,
                                 targetParentPath: string,
                                 id: Id, target: Id) {
    && TidyRequest(path) && MovePlan(nodes, path, targetParentPath, id, target) && MayReturn(nodes, id)
    && PureLocators(nodes, objects, sources, MovedRows(nodes, id))
  }

  /** Moved and moved back, the tables are as they were. */
  method MoveThereAndBack(service: MetadataVFSService, path: string, targetParentPath: string)
    returns (there: Result<(string, Id)>, back: Result<(string, Id)>, ghost nodes1: Nodes, ghost objects1: Objects)
    requires Linked(service.store.nodes) && UniqueKeys(service.store.objects)
    requires LocatorsAgree(service.store.nodes, service.store.objects, service.sources)
    requires exists id, target ::
               ReversibleMove(service.store.nodes, service.store.objects, service.sources, path, targetParentPath, id,
                              target)
    modifies service.store
    ensures service.store.nodes == old(service.store.nodes) && service.store.objects == old(service.store.objects)
    ensures there.Ok? ==>
              && back.Ok?
              && exists target ::
                   Moved(old(service.store.nodes), old(service.store.objects), nodes1, objects1, service.sources, path,
                         targetParentPath,
                         there.value.1, target)
  {
    hide Linked, LocatorsAgree, UniqueKeys, PureLocators, TidyRequest, MoveLocatorsFree, MovePlacesFree, ReturnKeysFree,
         ChildPath, MovedRows, Rewritten, NormalizeVirtualPath, Selected, Ready, IsBlank, EndsInSpace, MissesItself;
    ghost var nodes, objects := service.store.nodes, service.store.objects;
    ghost var id: Id, target: Id :| ReversibleMove(nodes, objects, service.sources, path, targetParentPath, id, target);
    var rows := service.store.nodes;
    LinkedMeansReady(nodes);
    ResolvedFindsItself(nodes, path, id);
    OnlyOneResolves(nodes, path, id);
    OnlyOneResolves(nodes, targetParentPath, target);
    there := service.Move(path, targetParentPath);
    if there.Err? { return there, there, nodes, objects; }
    assert there.value.1 == id;
    MoveBackRestores(nodes, objects, service.store.nodes, service.store.objects, service.sources, path,
                     targetParentPath, id, target);
    MovedPathOf(nodes, objects, service.store.nodes, service.store.objects, service.sources, path, targetParentPath, id,
                target);
    LinkedMeansReady(service.store.nodes);
    nodes1, objects1 := service.store.nodes, service.store.objects;
    var newPath, parent := service.store.nodes[there.value.1].path, rows[there.value.1].parentID.value;
    ResolvedFindsItself(nodes1, newPath, id);
    OnlyOneResolves(nodes1, newPath, id);
    OnlyOneResolves(nodes1, nodes[parent].path, parent);
    MoveNeedsLocators(nodes1, objects1, service.sources, newPath, nodes[parent].path, id, parent);
    back := service.Move(newPath, rows[parent].path);
    assert back.Ok? && back.value.1 == id;
    assert Moved(nodes1, objects1, service.store.nodes, service.store.objects, service.sources, newPath,
                 nodes[parent].path, id, parent);
  }

  lemma MovedPathOf(nodes: Nodes, objects: Objects, nodes1: Nodes, objects1: Objects, sources: Sources,
                    path: string, targetParentPath: string, id: Id, target: Id)
    requires Linked(nodes) && LocatorsAgree(nodes, objects, sources) && TidyRequest(path)
    requires Moved(nodes, objects, nodes1, objects1, sources, path, targetParentPath, id, target)
    ensures id in nodes1 && nodes1[id].path == ChildPath(nodes[target].path, nodes[id].name)
    ensures nodes1[id].parentID == Some(target) && nodes[id].parentID != Some(target)
  {
    MovePlanCanRewrite(nodes, path, targetParentPath, id, target);
    MovedRootPath(nodes, id, target, nodes[id].name, ChildPath(nodes[target].path, nodes[id].name));
  }
}
