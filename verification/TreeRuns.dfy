/** Runs of the metadata service: what every sequence of operations keeps. */
module TreeRuns {
  import opened Common
  import opened Text
  import opened Paths
  import opened Store
  import opened Tree
  import opened Rewrite
  import opened Locators
  import opened MetadataVfs

  datatype Tables = Tables(nodes: Nodes, objects: Objects)

  datatype Request =
    | EnsureRoot
    | Mkdir(parentPath: string, name: string)
    | Rename(path: string, newName: string)
    | Move(path: string, targetParentPath: string)
    | Delete(path: string)

  /** What one request does, as `Serve` below shows of the service. */
  ghost predicate Step(t: Tables, req: Request, t': Tables, sources: Sources) {
    match req
    case EnsureRoot => t'.objects == t.objects && exists r :: EnsuresRoot(t.nodes, t'.nodes, r)
    case Mkdir(parentPath, name) =>
      && t'.objects == t.objects
      && (t'.nodes == t.nodes ||
          exists parent: Id, id: Id ::
            && MkdirPlan(t.nodes, parentPath, name, parent) && id !in t.nodes
            && t'.nodes == t.nodes[id := NewDirectory(parent, t.nodes[parent], name)])
    case Rename(path, newName) =>
      t' == t || exists id, k ::
        && Renamed(t.nodes, t.objects, t'.nodes, t'.objects, sources, path, newName, id)
        && Selected(t.nodes, t.nodes[id].path, k)
    case Move(path, targetParentPath) =>
      t' == t || exists id, target, k ::
        && Moved(t.nodes, t.objects, t'.nodes, t'.objects, sources, path, targetParentPath, id, target)
        && Selected(t.nodes, t.nodes[id].path, k)
    case Delete(path) =>
      && t'.objects == t.objects
      && (t'.nodes == t.nodes ||
          exists id :: DeletePlan(t.nodes, path, id) && t'.nodes == DeleteNodes(t.nodes, t.nodes[id].path))
  }

  /** One request, handed to the service. */
  method Serve(service: MetadataVFSService, req: Request)
    requires Ready(service.store.nodes)
    modifies service.store
    ensures Step(Tables(old(service.store.nodes), old(service.store.objects)), req,
                 Tables(service.store.nodes, service.store.objects), service.sources)
  {
    hide Renamed, Moved, Selected, Linked, DeleteNodes, MkdirPlan, DeletePlan, UniqueLive, Ready, EnsuresRoot;
    match req
    case EnsureRoot =>
      ReadyIsUnique(service.store.nodes);
      var id := service.EnsureRoot();
    case Mkdir(parentPath, name) => var made := service.Mkdir(parentPath, name);
    case Rename(path, newName) => var renamed := service.Rename(path, newName);
    case Move(path, targetParentPath) => var moved := service.Move(path, targetParentPath);
    case Delete(path) => var failed := service.Delete(path);
  }

  /** The request does not meet the trimmed prefix of the repository: a renamed or moved path does not end in white
      space, and deleting leaves no orphan. */
  ghost predicate Careful(nodes: Nodes, req: Request) {
    match req
    case Rename(path, _) => TidyRequest(path)
    case Move(path, _) => TidyRequest(path)
    case Delete(path) => forall id :: DeletePlan(nodes, path, id) ==> LeavesNoOrphan(nodes, id)
    case _ => true
  }

  /** The query of a delete takes everything, or the node's own subtree lies in what it takes, or the node has no
      child. */
  ghost predicate LeavesNoOrphan(nodes: Nodes, id: Id)
    requires id in nodes
  {
    var q := QueryPrefix(nodes[id].path);
    q == "/" || AtOrBelow(q, nodes[id].path) || forall k | Live(nodes, k) :: nodes[k].parentID != Some(id)
  }

  /** The tables are empty of live rows, or hold a well-formed tree; locators agree with paths. */
  ghost predicate Inv(t: Tables, sources: Sources) {
    WellFormedOrEmpty(t.nodes) && LocatorsAgree(t.nodes, t.objects, sources)
  }

  // ---- Each step ------------------------------------------------------------------------------

  lemma RootStepKeeps(t: Tables, t': Tables, sources: Sources, r: Id)
    requires Inv(t, sources) && t'.objects == t.objects && EnsuresRoot(t.nodes, t'.nodes, r)
    ensures Inv(t', sources) && WellFormed(t'.nodes)
  {
    if WellFormed(t.nodes) {
      var root :| Live(t.nodes, root) && t.nodes[root].parentID == None;
      assert NodeOk(t.nodes, root) && LiveAt(t.nodes, root, "/");
      OverwritingTheRoot(t.nodes, r);
    } else {
      OnlyTheRoot(t.nodes, r);
    }
    RootIsNoFile(t.nodes, t.objects, sources, r);
  }

  lemma OverwritingTheRoot(nodes: Nodes, r: Id)
    requires Linked(nodes) && LiveAt(nodes, r, "/")
    ensures Linked(nodes[r := RootNode()]) && (WellFormed(nodes) ==> WellFormed(nodes[r := RootNode()]))
  {
    var after := nodes[r := RootNode()];
    assert NodeOk(nodes, r);
    forall k | Live(after, k) ensures NodeOk(after, k) {
      assert Live(nodes, k) && NodeOk(nodes, k);
    }
    assert Live(after, r) && after[r].parentID == None;
  }

  lemma OnlyTheRoot(nodes: Nodes, r: Id)
    requires forall k :: !Live(nodes, k)
    ensures WellFormed(nodes[r := RootNode()])
  {
    var after := nodes[r := RootNode()];
    assert forall k | k != r :: Live(after, k) ==> Live(nodes, k);
    assert Live(after, r) && after[r].parentID == None;
  }

  lemma RootIsNoFile(nodes: Nodes, objects: Objects, sources: Sources, r: Id)
    requires LocatorsAgree(nodes, objects, sources)
    ensures LocatorsAgree(nodes[r := RootNode()], objects, sources)
  {
    var after := nodes[r := RootNode()];
    forall k | Live(after, k) && Syncs(after[k], objects) ensures LocatorAgrees(after[k], objects, sources) {
      assert Live(nodes, k);
    }
  }

  lemma MkdirStepKeeps(t: Tables, t': Tables, sources: Sources, parentPath: string, name: string, parent: Id, id: Id)
    requires Inv(t, sources) && t'.objects == t.objects
    requires MkdirPlan(t.nodes, parentPath, name, parent) && id !in t.nodes
    requires t'.nodes == t.nodes[id := NewDirectory(parent, t.nodes[parent], name)]
    ensures Inv(t', sources) && WellFormed(t'.nodes)
  {
    var node := NewDirectory(parent, t.nodes[parent], name);
    assert IsChildRow(t.nodes, parent, node) && UpsertTarget(t.nodes, id, node.path);
    PutChildKeepsWellFormed(t.nodes, parent, id, node);
  }

  lemma RewriteStepKeeps(t: Tables, t': Tables, sources: Sources,
                         id: Id, newParent: Id, newName: string, newPath: string)
    requires Inv(t, sources)
    requires CanRewrite(t.nodes, id, newParent, newName, newPath) && Tidy(t.nodes[id].path)
    requires IsDirectory(t.nodes[newParent])
    requires Rewritten(t.nodes, t.objects, t'.nodes, t'.objects, sources, id, newParent, newName, newPath)
    ensures Inv(t', sources) && WellFormed(t'.nodes)
  {
    assert Live(t.nodes, id);
    RewriteKeepsWellFormed(t.nodes, id, newParent, newName, newPath);
    RewriteKeepsLocators(t.nodes, t.objects, t'.objects, sources, id, newParent, newName, newPath);
  }

  // ---- Deleting -------------------------------------------------------------------------------

  predicate StrictlyBelow(base: string, path: string) {
    AtOrBelow(base, path) && path != base
  }

  /** What a delete leaves: everything but the node and what lies below the trimmed prefix. */
  lemma DeleteLeaves(nodes: Nodes, id: Id)
    requires Linked(nodes) && Live(nodes, id) && nodes[id].path != "/"
    ensures
      var after, q := DeleteNodes(nodes, nodes[id].path), QueryPrefix(nodes[id].path);
      && after.Keys == nodes.Keys && Rooted(q) && q <= nodes[id].path
      && forall k :: Live(after, k) <==>
           Live(nodes, k) && k != id && (if q == "/" then false else !StrictlyBelow(q, nodes[k].path))
    ensures forall k | Live(DeleteNodes(nodes, nodes[id].path), k) :: DeleteNodes(nodes, nodes[id].path)[k] == nodes[k]
  {
    var p := nodes[id].path;
    var after, q := DeleteNodes(nodes, p), QueryPrefix(p);
    LiveIsRooted(nodes, id);
    TrimShrinks(p);
    forall k ensures Live(after, k) <==>
                       Live(nodes, k) && k != id && (if q == "/" then false else !StrictlyBelow(q, nodes[k].path))
    {
      if Live(nodes, k) {
        LiveIsRooted(nodes, k);
        assert nodes[k].path == p ==> k == id;
      }
    }
  }

  /** Deleting takes exactly the nodes whose chain of parents runs through the node if and only if the path does not end
      in white space or the trimmed prefix happens to select the same rows. */
  lemma DeleteTakesTheSubtree(nodes: Nodes, path: string, id: Id)
    requires Linked(nodes) && DeletePlan(nodes, path, id)
    ensures
      (forall k | Live(nodes, k) :: Live(DeleteNodes(nodes, nodes[id].path), k) <==> !InSubtree(nodes, id, k))
      <==> TidyRequest(path) || SameRowsBelow(nodes, id)
  {
    var p := nodes[id].path;
    NotTheRoot(nodes, id);
    DeleteLeaves(nodes, id);
    LiveIsRooted(nodes, id);
    TrimShrinks(p);
    hide DeleteNodes, Linked, QueryPrefix;
    forall k | Live(nodes, k) ensures InSubtree(nodes, id, k) <==> AtOrBelow(p, nodes[k].path) {
      PathIndexAgrees(nodes, id, k);
    }
    forall k | Live(nodes, k) && k != id ensures nodes[k].path != p { NotAlsoAt(nodes, id, k); }
    assert NormalizeVirtualPath(path) == Ok(p);
    forall k | Live(nodes, k) ensures Rooted(nodes[k].path) { LiveIsRooted(nodes, k); }
  }

  lemma NotAlsoAt(nodes: Nodes, id: Id, k: Id)
    requires Linked(nodes) && Live(nodes, id) && Live(nodes, k) && k != id
    ensures nodes[k].path != nodes[id].path
  {
  }

  lemma NotTheRoot(nodes: Nodes, id: Id)
    requires Linked(nodes) && Live(nodes, id) && nodes[id].kind != Root
    ensures nodes[id].path != "/" && nodes[id].parentID.Some?
  {
    assert NodeOk(nodes, id);
    ParentIsShorter(nodes, id);
    assert NodeOk(nodes, nodes[id].parentID.value);
  }

  /** The node's path and its trimmed form have the same live rows below them. */
  ghost predicate SameRowsBelow(nodes: Nodes, id: Id)
    requires id in nodes
  {
    var q := QueryPrefix(nodes[id].path);
    && q != "/"
    && forall k | Live(nodes, k) && k != id ::
         StrictlyBelow(q, nodes[k].path) <==> StrictlyBelow(nodes[id].path, nodes[k].path)
  }

  /** When the trimmed form has the same rows below it: for a name that is all white space, if the node is an only child
      of a parent other than the root; for another name that ends in white space, if nothing lies below the node or its
      trimmed form. */
  lemma SameRowsBelowIff(nodes: Nodes, id: Id)
    requires Linked(nodes) && Live(nodes, id) && nodes[id].parentID.Some? && EndsInSpace(nodes[id].path)
    ensures nodes[id].parentID.value in nodes
    ensures SameRowsBelow(nodes, id) <==>
              if IsBlank(nodes[id].name)
              then nodes[nodes[id].parentID.value].path != "/"
                   && forall k | Live(nodes, k) && k != id :: nodes[k].parentID != nodes[id].parentID
              else (forall k | Live(nodes, k) :: nodes[k].parentID != Some(id))
                   && forall k | Live(nodes, k) :: !StrictlyBelow(QueryPrefix(nodes[id].path), nodes[k].path)
  {
    QueryOfNode(nodes, id);
    LiveIsRooted(nodes, id);
    if IsBlank(nodes[id].name) {
      if nodes[nodes[id].parentID.value].path != "/" { OnlyChildIff(nodes, id); }
    } else {
      BesideIff(nodes, id);
    }
  }

  /** Strictly below a parent lies what lies at or below one of its children. */
  lemma {:induction false} BelowAChild(nodes: Nodes, u: Id, k: Id) returns (c: Id)
    requires Linked(nodes) && Live(nodes, u) && Live(nodes, k) && StrictlyBelow(nodes[u].path, nodes[k].path)
    ensures Live(nodes, c) && nodes[c].parentID == Some(u) && AtOrBelow(nodes[c].path, nodes[k].path)
    decreases |nodes[k].path|
  {
    PathIndexAgrees(nodes, u, k);
    var p := nodes[k].parentID.value;
    ParentIsShorter(nodes, k);
    LiveIsRooted(nodes, k);
    if p == u {
      return k;
    }
    PathIndexAgrees(nodes, u, p);
    NotAlsoAt(nodes, u, p);
    LiveIsRooted(nodes, p);
    c := BelowAChild(nodes, u, p);
    LiveIsRooted(nodes, c);
    assert NodeOk(nodes, k);
    AtOrBelowChild(nodes[c].path, nodes[p].path, nodes[k].name);
  }

  lemma ChildIsBelow(nodes: Nodes, k: Id)
    requires Linked(nodes) && Live(nodes, k) && nodes[k].parentID.Some?
    ensures var u := nodes[k].parentID.value; Live(nodes, u) && StrictlyBelow(nodes[u].path, nodes[k].path)
  {
    var u := nodes[k].parentID.value;
    ParentIsShorter(nodes, k);
    assert NodeOk(nodes, k) && NodeOk(nodes, u);
    AtOrBelowChild(nodes[u].path, nodes[u].path, nodes[k].name);
  }

  lemma OnlyChildIff(nodes: Nodes, id: Id)
    requires Linked(nodes) && Live(nodes, id) && nodes[id].parentID.Some? && Live(nodes, nodes[id].parentID.value)
    requires
      var parent := nodes[nodes[id].parentID.value].path;
      QueryPrefix(nodes[id].path) == parent != "/" && AtOrBelow(parent, nodes[id].path)
    ensures SameRowsBelow(nodes, id)
            <==> forall k | Live(nodes, k) && k != id :: nodes[k].parentID != nodes[id].parentID
  {
    var u := nodes[id].parentID.value;
    var parent, p := nodes[u].path, nodes[id].path;
    LiveIsRooted(nodes, id);
    LiveIsRooted(nodes, u);
    ParentIsShorter(nodes, id);
    if k :| Live(nodes, k) && k != id && nodes[k].parentID == Some(u) {
      ChildIsBelow(nodes, k);
      SiblingIsNotBelow(nodes, id, k);
    } else {
      forall k | Live(nodes, k) && k != id
        ensures StrictlyBelow(parent, nodes[k].path) <==> StrictlyBelow(p, nodes[k].path) {
        LiveIsRooted(nodes, k);
        NotAlsoAt(nodes, id, k);
        if StrictlyBelow(parent, nodes[k].path) {
          var c := BelowAChild(nodes, u, k);
          assert c == id;
        }
        if StrictlyBelow(p, nodes[k].path) {
          AtOrBelowTransitive(parent, p, nodes[k].path);
          AtOrBelowIsLonger(p, nodes[k].path);
        }
      }
    }
  }

  lemma SiblingIsNotBelow(nodes: Nodes, id: Id, k: Id)
    requires Linked(nodes) && Live(nodes, id) && Live(nodes, k) && k != id && nodes[id].parentID.Some?
    requires nodes[k].parentID == nodes[id].parentID
    ensures !AtOrBelow(nodes[id].path, nodes[k].path)
  {
    var u := nodes[id].parentID.value;
    NotAlsoAt(nodes, id, k);
    ParentIsShorter(nodes, id);
    assert NodeOk(nodes, id) && NodeOk(nodes, k) && NodeOk(nodes, u);
    AtOrBelowChild(nodes[id].path, nodes[u].path, nodes[k].name);
    ShorterIsNotBelow(nodes[id].path, nodes[u].path);
  }

  lemma BesideIff(nodes: Nodes, id: Id)
    requires Linked(nodes) && Live(nodes, id) && nodes[id].parentID.Some? && MissesItself(nodes[id])
    ensures SameRowsBelow(nodes, id) <==>
              && (forall k | Live(nodes, k) :: nodes[k].parentID != Some(id))
              && forall k | Live(nodes, k) :: !StrictlyBelow(QueryPrefix(nodes[id].path), nodes[k].path)
  {
    var p, q := nodes[id].path, QueryPrefix(nodes[id].path);
    QueryOfNode(nodes, id);
    LiveIsRooted(nodes, id);
    forall k | Live(nodes, k) && StrictlyBelow(p, nodes[k].path) ensures !StrictlyBelow(q, nodes[k].path) {
      LiveIsRooted(nodes, k);
      Apart(p, q, nodes[k].path);
    }
    if k :| Live(nodes, k) && nodes[k].parentID == Some(id) {
      ChildIsBelow(nodes, k);
      assert StrictlyBelow(p, nodes[k].path) && k != id;
    } else {
      forall k | Live(nodes, k) ensures !StrictlyBelow(p, nodes[k].path) {
        if StrictlyBelow(p, nodes[k].path) { var c := BelowAChild(nodes, id, k); }
      }
    }
  }

  /** What lies below a path does not lie below its beginning, if the path itself does not. */
  lemma Apart(p: string, q: string, x: string)
    requires Rooted(p) && Rooted(q) && Rooted(x) && q <= p && !AtOrBelow(q, p) && AtOrBelow(p, x)
    ensures !AtOrBelow(q, x)
  {
    if AtOrBelow(q, x) { Comparable(p, q, x); }
    OneOfTheTwo(q, p);
  }

  lemma OneOfTheTwo(q: string, p: string)
    requires Rooted(p) && Rooted(q) && q <= p
    ensures AtOrBelow(p, q) ==> p == q
  {
  }

  /** A delete leaves a linked tree, or nothing at all, if and only if it leaves no orphan. */
  lemma DeleteIsSoundIff(nodes: Nodes, path: string, id: Id)
    requires Linked(nodes) && DeletePlan(nodes, path, id)
    ensures Ready(DeleteNodes(nodes, nodes[id].path)) <==> LeavesNoOrphan(nodes, id)
    ensures LeavesNoOrphan(nodes, id) && WellFormed(nodes) ==> WellFormedOrEmpty(DeleteNodes(nodes, nodes[id].path))
    ensures TidyRequest(path) ==> LeavesNoOrphan(nodes, id)
  {
    NotTheRoot(nodes, id);
    DeleteLeaves(nodes, id);
    TidyLeavesNoOrphan(nodes, path, id);
    hide DeleteNodes, Linked, TidyRequest, QueryPrefix, DeletePlan;
    if QueryPrefix(nodes[id].path) != "/" {
      if LeavesNoOrphan(nodes, id) {
        LeftIsLinked(nodes, id);
      } else {
        var k :| Live(nodes, k) && nodes[k].parentID == Some(id);
        OrphanIsNotReady(nodes, id, k);
      }
    }
  }

  lemma TidyLeavesNoOrphan(nodes: Nodes, path: string, id: Id)
    requires Linked(nodes) && DeletePlan(nodes, path, id)
    ensures TidyRequest(path) ==> LeavesNoOrphan(nodes, id)
  {
  }

  lemma LeftIsLinked(nodes: Nodes, id: Id)
    requires Linked(nodes) && Live(nodes, id) && nodes[id].path != "/" && QueryPrefix(nodes[id].path) != "/"
    requires LeavesNoOrphan(nodes, id)
    ensures Linked(DeleteNodes(nodes, nodes[id].path))
    ensures WellFormed(nodes) ==> WellFormed(DeleteNodes(nodes, nodes[id].path))
  {
    RootIsLeft(nodes, id);
    DeleteLeaves(nodes, id);
    var after := DeleteNodes(nodes, nodes[id].path);
    forall k | Live(after, k) ensures NodeOk(after, k) { LeftIsOk(nodes, id, k); }
    hide DeleteNodes, LeavesNoOrphan, QueryPrefix, StrictlyBelow;
  }

  lemma OrphanIsNotReady(nodes: Nodes, id: Id, k: Id)
    requires Linked(nodes) && Live(nodes, id) && nodes[id].path != "/" && QueryPrefix(nodes[id].path) != "/"
    requires !AtOrBelow(QueryPrefix(nodes[id].path), nodes[id].path) && Live(nodes, k) && nodes[k].parentID == Some(id)
    ensures !Ready(DeleteNodes(nodes, nodes[id].path))
  {
    Orphaned(nodes, id, k);
    var after := DeleteNodes(nodes, nodes[id].path);
    hide DeleteNodes;
    assert !NodeOk(after, k);
  }

  lemma RootIsLeft(nodes: Nodes, id: Id)
    requires Linked(nodes) && Live(nodes, id) && nodes[id].path != "/" && QueryPrefix(nodes[id].path) != "/"
    ensures HasRoot(DeleteNodes(nodes, nodes[id].path))
  {
    DeleteLeaves(nodes, id);
    var root :| Live(nodes, root) && nodes[root].parentID == None;
    assert NodeOk(nodes, root);
    var after := DeleteNodes(nodes, nodes[id].path);
    assert Live(after, root) && after[root].parentID == None;
  }

  /** A row that is left keeps its parent. */
  lemma LeftIsOk(nodes: Nodes, id: Id, k: Id)
    requires Linked(nodes) && Live(nodes, id) && nodes[id].path != "/" && QueryPrefix(nodes[id].path) != "/"
    requires LeavesNoOrphan(nodes, id) && Live(DeleteNodes(nodes, nodes[id].path), k)
    ensures NodeOk(DeleteNodes(nodes, nodes[id].path), k)
  {
    var p := nodes[id].path;
    var after, q := DeleteNodes(nodes, p), QueryPrefix(p);
    DeleteLeaves(nodes, id);
    assert NodeOk(nodes, k) && NodeOk(nodes, id);
    hide DeleteNodes, QueryPrefix;
    if nodes[k].parentID.Some? {
      var u := nodes[k].parentID.value;
      assert NodeOk(nodes, u);
      AtOrBelowChild(q, nodes[u].path, nodes[k].name);
      ChildPathShape(nodes[u].path, nodes[k].name);
      assert nodes[k].path == ChildPath(nodes[u].path, nodes[k].name);
      if AtOrBelow(q, nodes[u].path) { AtOrBelowIsLonger(q, nodes[u].path); }
      assert Live(after, u);
    }
  }

  lemma AtOrBelowIsLonger(q: string, path: string)
    requires Rooted(q) && Rooted(path) && AtOrBelow(q, path)
    ensures |q| <= |path|
  {
  }

  /** A child of the node that is not below the trimmed prefix stays, without its parent. */
  lemma Orphaned(nodes: Nodes, id: Id, k: Id)
    requires Linked(nodes) && Live(nodes, id) && nodes[id].path != "/" && QueryPrefix(nodes[id].path) != "/"
    requires !AtOrBelow(QueryPrefix(nodes[id].path), nodes[id].path) && Live(nodes, k) && nodes[k].parentID == Some(id)
    ensures Live(DeleteNodes(nodes, nodes[id].path), k) && !Live(DeleteNodes(nodes, nodes[id].path), id)
    ensures DeleteNodes(nodes, nodes[id].path)[k] == nodes[k]
  {
    var q := QueryPrefix(nodes[id].path);
    DeleteLeaves(nodes, id);
    assert NodeOk(nodes, k) && NodeOk(nodes, id);
    ParentIsShorter(nodes, k);
    AtOrBelowChild(q, nodes[id].path, nodes[k].name);
    ChildPathShape(nodes[id].path, nodes[k].name);
    assert q != nodes[k].path;
  }

  lemma DeleteStepKeeps(t: Tables, t': Tables, sources: Sources, path: string, id: Id)
    requires Inv(t, sources) && t'.objects == t.objects && DeletePlan(t.nodes, path, id) && LeavesNoOrphan(t.nodes, id)
    requires t'.nodes == DeleteNodes(t.nodes, t.nodes[id].path)
    ensures Inv(t', sources)
  {
    assert Live(t.nodes, id);
    DeleteIsSoundIff(t.nodes, path, id);
    NotTheRoot(t.nodes, id);
    DeleteLeaves(t.nodes, id);
  }

  // ---- One request ----------------------------------------------------------------------------

  lemma RenameStepKeeps(t: Tables, path: string, newName: string, t': Tables, sources: Sources)
    requires Inv(t, sources) && Step(t, Rename(path, newName), t', sources) && t' != t && TidyRequest(path)
    ensures Inv(t', sources)
  {
    hide RewriteNodes, ObjectsFollow, Selected, UniqueKeys, LocatorsAgree, ChildPath;
    var id, k :| Renamed(t.nodes, t.objects, t'.nodes, t'.objects, sources, path, newName, id)
                 && Selected(t.nodes, t.nodes[id].path, k);
    assert Live(t.nodes, id);
    RenamePlanCanRewrite(t.nodes, path, newName, id);
    var parent := t.nodes[id].parentID.value;
    RewriteStepKeeps(t, t', sources, id, parent, newName, ChildPath(t.nodes[parent].path, newName));
  }

  lemma MoveStepKeeps(t: Tables, path: string, targetParentPath: string, t': Tables, sources: Sources)
    requires Inv(t, sources) && Step(t, Move(path, targetParentPath), t', sources) && t' != t && TidyRequest(path)
    ensures Inv(t', sources)
  {
    hide RewriteNodes, ObjectsFollow, Selected, UniqueKeys, LocatorsAgree, ChildPath;
    var id, target, k :| Moved(t.nodes, t.objects, t'.nodes, t'.objects, sources, path, targetParentPath, id, target)
                         && Selected(t.nodes, t.nodes[id].path, k);
    assert Live(t.nodes, id);
    MovePlanCanRewrite(t.nodes, path, targetParentPath, id, target);
    RewriteStepKeeps(t, t', sources, id, target, t.nodes[id].name, ChildPath(t.nodes[target].path, t.nodes[id].name));
  }

  lemma StepKeeps(t: Tables, req: Request, t': Tables, sources: Sources)
    requires Inv(t, sources) && Step(t, req, t', sources) && (t' == t || Careful(t.nodes, req))
    ensures Inv(t', sources)
  {
    match req
    case EnsureRoot =>
      var r :| EnsuresRoot(t.nodes, t'.nodes, r);
      RootStepKeeps(t, t', sources, r);
    case Mkdir(parentPath, name) =>
      if t'.nodes != t.nodes {
        var parent: Id, id: Id :| && MkdirPlan(t.nodes, parentPath, name, parent) && id !in t.nodes
                          && t'.nodes == t.nodes[id := NewDirectory(parent, t.nodes[parent], name)];
        MkdirStepKeeps(t, t', sources, parentPath, name, parent, id);
      }
    case Rename(path, newName) => if t' != t { RenameStepKeeps(t, path, newName, t', sources); }
    case Move(path, targetParentPath) => if t' != t { MoveStepKeeps(t, path, targetParentPath, t', sources); }
    case Delete(path) =>
      if t'.nodes != t.nodes {
        var id :| DeletePlan(t.nodes, path, id) && t'.nodes == DeleteNodes(t.nodes, t.nodes[id].path);
        DeleteStepKeeps(t, t', sources, path, id);
      }
  }

  /** A request that changes anything leaves a linked tree, or nothing, if and only if it is careful. */
  lemma StepIsSoundIffCareful(t: Tables, req: Request, t': Tables, sources: Sources)
    requires Ready(t.nodes) && Step(t, req, t', sources) && t' != t
    ensures Ready(t'.nodes) <==> Careful(t.nodes, req)
  {
    hide Ready, DeleteNodes, Renamed, Moved, NameIsFree, NormalizeVirtualPath, Selected, LeavesNoOrphan, TidyRequest,
         ChildPath;
    match req
    case EnsureRoot =>
      var r :| EnsuresRoot(t.nodes, t'.nodes, r);
      RootIsReady(t.nodes, r);
    case Mkdir(parentPath, name) =>
      var parent: Id, id: Id :| && MkdirPlan(t.nodes, parentPath, name, parent) && id !in t.nodes
                        && t'.nodes == t.nodes[id := NewDirectory(parent, t.nodes[parent], name)];
      MkdirIsReady(t.nodes, parentPath, name, parent, id);
    case Rename(path, newName) =>
      RenameIsReadyIff(t, path, newName, t', sources);
    case Move(path, targetParentPath) =>
      MoveIsReadyIff(t, path, targetParentPath, t', sources);
    case Delete(path) =>
      var id :| DeletePlan(t.nodes, path, id) && t'.nodes == DeleteNodes(t.nodes, t.nodes[id].path);
      DeleteIsReadyIff(t, path, id);
  }

  lemma RenameIsReadyIff(t: Tables, path: string, newName: string, t': Tables, sources: Sources)
    requires Ready(t.nodes) && Step(t, Rename(path, newName), t', sources) && t' != t
    ensures Ready(t'.nodes) <==> TidyRequest(path)
  {
    hide RewriteNodes, TidyRequest, NormalizeVirtualPath, ObjectsFollow, Selected, UniqueKeys;
    var id, k :| Renamed(t.nodes, t.objects, t'.nodes, t'.objects, sources, path, newName, id)
                 && Selected(t.nodes, t.nodes[id].path, k);
    ResolvedInLinked(t.nodes, path, id);
    RenamePlanCanRewrite(t.nodes, path, newName, id);
    var parent := t.nodes[id].parentID.value;
    RewriteIsReadyIff(t.nodes, path, id, parent, newName, ChildPath(t.nodes[parent].path, newName));
  }

  lemma MoveIsReadyIff(t: Tables, path: string, targetParentPath: string, t': Tables, sources: Sources)
    requires Ready(t.nodes) && Step(t, Move(path, targetParentPath), t', sources) && t' != t
    ensures Ready(t'.nodes) <==> TidyRequest(path)
  {
    hide RewriteNodes, TidyRequest, NormalizeVirtualPath, ObjectsFollow, Selected, UniqueKeys;
    var id, target, k :| Moved(t.nodes, t.objects, t'.nodes, t'.objects, sources, path, targetParentPath, id, target)
                         && Selected(t.nodes, t.nodes[id].path, k);
    ResolvedInLinked(t.nodes, path, id);
    MovePlanCanRewrite(t.nodes, path, targetParentPath, id, target);
    RewriteIsReadyIff(t.nodes, path, id, target, t.nodes[id].name, ChildPath(t.nodes[target].path, t.nodes[id].name));
  }

  lemma DeleteIsReadyIff(t: Tables, path: string, id: Id)
    requires Ready(t.nodes) && DeletePlan(t.nodes, path, id)
    ensures Ready(DeleteNodes(t.nodes, t.nodes[id].path)) <==> Careful(t.nodes, Delete(path))
  {
    ResolvedInLinked(t.nodes, path, id);
    OnlyOneResolves(t.nodes, path, id);
    DeleteIsSoundIff(t.nodes, path, id);
    hide DeleteNodes, LeavesNoOrphan, Linked, NormalizeVirtualPath;
  }

  lemma MkdirIsReady(nodes: Nodes, parentPath: string, name: string, parent: Id, id: Id)
    requires Ready(nodes) && MkdirPlan(nodes, parentPath, name, parent) && id !in nodes
    ensures Ready(nodes[id := NewDirectory(parent, nodes[parent], name)])
  {
    PutChildKeepsLinked(nodes, parent, id, NewDirectory(parent, nodes[parent], name));
  }

  lemma RootIsReady(nodes: Nodes, r: Id)
    requires Ready(nodes) && UpsertTarget(nodes, r, "/")
    ensures Ready(nodes[r := RootNode()])
  {
    if Linked(nodes) {
      var root :| Live(nodes, root) && nodes[root].parentID == None;
      assert NodeOk(nodes, root) && LiveAt(nodes, root, "/");
      OverwritingTheRoot(nodes, r);
    } else {
      OnlyTheRoot(nodes, r);
    }
  }

  lemma RewriteIsReadyIff(nodes: Nodes, path: string, id: Id, newParent: Id, newName: string, newPath: string)
    requires CanRewrite(nodes, id, newParent, newName, newPath) && Resolves(nodes, path, id)
    requires exists k :: Selected(nodes, nodes[id].path, k)
    ensures Ready(RewriteNodes(nodes, id, newParent, newName, newPath)) <==> TidyRequest(path)
  {
    LiveIsRooted(nodes, id);
    TrimShrinks(nodes[id].path);
    RewriteIsSoundIffTidy(nodes, id, newParent, newName, newPath);
    LiveAfterRewrite(nodes, id, newParent, newName, newPath);
    hide RewriteNodes, Linked, NormalizeVirtualPath;
    assert Live(RewriteNodes(nodes, id, newParent, newName, newPath), id);
  }

  // ---- Whole runs -----------------------------------------------------------------------------

  /** `states` are the tables between the requests of a run. */
  ghost predicate IsRun(states: seq<Tables>, reqs: seq<Request>, sources: Sources) {
    |states| == |reqs| + 1 && forall i | 0 <= i < |reqs| :: Step(states[i], reqs[i], states[i + 1], sources)
  }

  ghost predicate CarefulUpTo(states: seq<Tables>, reqs: seq<Request>, n: nat)
    requires n <= |reqs| && |states| == |reqs| + 1
  {
    forall i | 0 <= i < n :: states[i + 1] == states[i] || Careful(states[i].nodes, reqs[i])
  }

  lemma EmptyTablesWillDo(sources: Sources)
    ensures Inv(Tables(map[], map[]), sources)
  {
  }

  /** From any tables that hold a well-formed tree or nothing, with locators that agree, careful requests keep them
      so. */
  lemma {:induction false} EveryRunKeepsTheTree(states: seq<Tables>, reqs: seq<Request>, sources: Sources, n: nat)
    requires IsRun(states, reqs, sources) && n <= |reqs| && Inv(states[0], sources) && CarefulUpTo(states, reqs, n)
    ensures Inv(states[n], sources)
  {
    if n > 0 {
      EveryRunKeepsTheTree(states, reqs, sources, n - 1);
      StepKeeps(states[n - 1], reqs[n - 1], states[n], sources);
    }
  }

  /** A run keeps the tree linked throughout if and only if every request that changed something was careful. */
  lemma {:induction false} RunIsSoundIffCareful(states: seq<Tables>, reqs: seq<Request>, sources: Sources, n: nat)
    requires IsRun(states, reqs, sources) && n <= |reqs| && Ready(states[0].nodes)
    ensures (forall i | 0 <= i <= n :: Ready(states[i].nodes)) <==> CarefulUpTo(states, reqs, n)
  {
    hide Ready, Step, Careful;
    if n > 0 {
      RunIsSoundIffCareful(states, reqs, sources, n - 1);
      assert Step(states[n - 1], reqs[n - 1], states[n - 1 + 1], sources);
      if CarefulUpTo(states, reqs, n - 1) {
        if states[n] != states[n - 1] { StepIsSoundIffCareful(states[n - 1], reqs[n - 1], states[n], sources); }
      }
    }
  }
}
