/** Which rows may be made, renamed, moved and deleted, by kind and place; and that making a directory and committing
    below it agree on what the directory is. */
module DirectoryKinds {
  import opened Common
  import opened Text
  import opened Paths
  import opened Store
  import opened Tree
  import opened Rewrite
  import opened Commit
  import opened MetadataVfs
  import Mounts

  // ---- Which requests have a plan -------------------------------------------------------------

  /** The row is neither the root nor a mount point. */
  predicate Ordinary(node: Node) {
    node.kind == VirtualDir || node.kind == Dir || node.kind == File
  }

  /** Nothing live stands at the path, and no ".." hides it. */
  ghost predicate Vacant(nodes: Nodes, path: string) {
    !HasDotDot(path) && forall k :: Live(nodes, k) ==> nodes[k].path != path
  }

  lemma OrdinaryHasParent(nodes: Nodes, id: Id)
    requires Linked(nodes) && Live(nodes, id)
    ensures Ordinary(nodes[id]) <==> Movable(nodes[id])
    ensures Ordinary(nodes[id]) ==> Live(nodes, nodes[id].parentID.value)
    ensures nodes[id].parentID.Some? ==>
              DirOf(nodes[id].path) == nodes[nodes[id].parentID.value].path && CleanSegment(nodes[id].name)
  {
    assert NodeOk(nodes, id);
    if nodes[id].parentID.Some? { DirIsParentPath(nodes, id); }
  }

  lemma VacantIsFree(nodes: Nodes, path: string)
    ensures Vacant(nodes, path) <==> NameIsFree(nodes, path)
  {
    hide HasDotDot;
    if Vacant(nodes, path) {
      forall k ensures !LiveAt(nodes, k, path) {
      }
    }
    forall k ensures LiveAt(nodes, k, path) <==> Live(nodes, k) && nodes[k].path == path {
    }
  }

  /** A rename is planned exactly for an ordinary row, a valid and different name, and a vacant place beside the old
      one. */
  lemma RenamePlannedIff(nodes: Nodes, path: string, newName: string, id: Id)
    requires Linked(nodes)
    ensures RenamePlan(nodes, path, newName, id) <==>
              && ValidName(newName) && Resolves(nodes, path, id) && Ordinary(nodes[id]) && nodes[id].name != newName
              && Vacant(nodes, JoinVirtualPath(DirOf(nodes[id].path), newName))
  {
    hide Linked, NormalizeVirtualPath, DirOf, ChildPath, JoinVirtualPath, HasDotDot, Vacant, NameIsFree;
    if Resolves(nodes, path, id) && ValidName(newName) {
      OrdinaryHasParent(nodes, id);
      if Ordinary(nodes[id]) { ChildOfStored(nodes, nodes[id].parentID.value, newName); }
      VacantIsFree(nodes, JoinVirtualPath(DirOf(nodes[id].path), newName));
    }
  }

  /** A move is planned exactly for an ordinary row and a directory elsewhere, on the same source and mount and not in
      the row's own subtree, with a vacant place for the name. */
  lemma MovePlannedIff(nodes: Nodes, path: string, targetParentPath: string, id: Id, target: Id)
    requires Linked(nodes)
    ensures MovePlan(nodes, path, targetParentPath, id, target) <==>
              && Resolves(nodes, path, id) && Ordinary(nodes[id])
              && Resolves(nodes, targetParentPath, target) && nodes[target].kind != File
              && !InSubtree(nodes, id, target) && nodes[id].parentID != Some(target)
              && nodes[id].mountID == nodes[target].mountID && nodes[id].sourceID == nodes[target].sourceID
              && Vacant(nodes, JoinVirtualPath(nodes[target].path, nodes[id].name))
  {
    hide Linked, NormalizeVirtualPath, DirOf, ChildPath, JoinVirtualPath, HasDotDot, InSubtree, AtOrBelow, Vacant,
         NameIsFree;
    if Resolves(nodes, path, id) && Resolves(nodes, targetParentPath, target) {
      OrdinaryHasParent(nodes, id);
      PathIndexAgrees(nodes, id, target);
      if Ordinary(nodes[id]) { ChildOfStored(nodes, target, nodes[id].name); }
      VacantIsFree(nodes, JoinVirtualPath(nodes[target].path, nodes[id].name));
    }
  }

  /** A directory may be made exactly below any row that is no file, under a valid name, at a vacant place. */
  lemma MkdirPlannedIff(nodes: Nodes, parentPath: string, name: string, parent: Id)
    requires Linked(nodes)
    ensures MkdirPlan(nodes, parentPath, name, parent) <==>
              && ValidName(name) && Resolves(nodes, parentPath, parent) && nodes[parent].kind != File
              && Vacant(nodes, JoinVirtualPath(nodes[parent].path, name))
  {
    hide Linked, NormalizeVirtualPath, ChildPath, JoinVirtualPath, HasDotDot, Vacant, NameIsFree;
    if Resolves(nodes, parentPath, parent) && ValidName(name) {
      ChildOfStored(nodes, parent, name);
      VacantIsFree(nodes, JoinVirtualPath(nodes[parent].path, name));
    }
  }

  /** Every ordinary row may be deleted. */
  lemma DeletePlannedIff(nodes: Nodes, path: string, id: Id)
    ensures DeletePlan(nodes, path, id) <==> Resolves(nodes, path, id) && Ordinary(nodes[id])
  {
    hide NormalizeVirtualPath;
  }

  // ---- Directories as made and as committed ---------------------------------------------------

  /** The directory has the source a commit of this source gives it, and without one it is on no mount. */
  predicate AsCommitted(source: Mounts.Source, node: Node) {
    && node.sourceID == DirectorySource(Some(source), source.id, node.path)
    && (node.sourceID.None? ==> node.kind != Mount && node.mountID.None?)
  }

  /** Below such a directory `Mkdir` makes the directory, of the kind and source, that a commit would make on its way,
      unless it is the mount point itself. */
  lemma MkdirAgreesWithCommit(source: Mounts.Source, mount: string, parentID: Id, parent: Node, name: string)
    requires TrimSpace(source.mountPath) != "" && NormalizeVirtualPath(source.mountPath) == Ok(mount)
    requires IsCanonical(mount) && IsCanonical(parent.path) && CleanSegment(name) && !HasDotDot(name)
    requires AsCommitted(source, parent)
    ensures
      var made := NewDirectory(parentID, parent, name);
      && made.path == JoinVirtualPath(parent.path, name)
      && (made.path != mount ==>
            && made.kind == DirectoryKind(Some(source), made.path)
            && made.sourceID == DirectorySource(Some(source), source.id, made.path)
            && AsCommitted(source, made))
  {
    var path := JoinVirtualPath(parent.path, name);
    ChildPathIsJoin(parent.path, name);
    CanonicalJoin(parent.path, name);
    hide NormalizeVirtualPath, TrimSpace, IsCanonical, Segments, DirectoryKind, DirectorySource, ChildPath,
         JoinVirtualPath, HasDotDot;
    KindsOnTheWay(source, source.id, mount, path);
    KindsOnTheWay(source, source.id, mount, parent.path);
    OneSegmentFurther(mount, parent.path, name);
  }

  lemma CanonicalJoin(parent: string, name: string)
    requires IsCanonical(parent) && CleanSegment(name) && !HasDotDot(name)
    ensures IsCanonical(JoinVirtualPath(parent, name))
  {
    JoinIsRender(parent, name);
    CanonicalSegments(parent);
    var segs := Segments(parent) + [name];
    assert forall i | 0 <= i < |segs| - 1 :: segs[i] == Segments(parent)[i];
    DotDotOfRender(segs);
  }

  /** One segment further a path enters a mount only at the mount point. */
  lemma OneSegmentFurther(mount: string, parent: string, name: string)
    requires IsCanonical(mount) && IsCanonical(parent) && CleanSegment(name)
    ensures Segments(mount) <= Segments(JoinVirtualPath(parent, name)) <==>
              Segments(mount) <= Segments(parent) || JoinVirtualPath(parent, name) == mount
  {
    JoinIsRender(parent, name);
    CanonicalSegments(mount);
    hide Segments, Render, JoinVirtualPath, IsCanonical, CleanSegment;
    var m, p := Segments(mount), Segments(parent);
    if m <= p + [name] {
      assert |m| <= |p| ==> m == (p + [name])[..|m|] == p[..|m|];
      assert |m| == |p| + 1 ==> m == p + [name];
    }
  }
}
