/** The metadata tree: parent pointers and the path index kept beside them. */
module Tree {
  import opened Common
  import opened Text
  import opened Paths
  import opened Store

  /** `joinVirtualPath` for a name without a leading slash. */
  function ChildPath(parent: string, name: string): string {
    if parent == "/" then "/" + name else parent + "/" + name
  }

  lemma ChildPathIsJoin(parent: string, name: string)
    requires '/' !in name
    ensures ChildPath(parent, name) == JoinVirtualPath(parent, name)
  {
    assert name == "" || name[0] in name;
    assert TrimPrefix(name, "/") == name;
  }

  // ---- The invariant --------------------------------------------------------------------------

  /** Row `id` is the root, or hangs below a live parent under the path its name dictates. */
  ghost predicate NodeOk(nodes: Nodes, id: Id)
    requires Live(nodes, id)
  {
    var n := nodes[id];
    && Rooted(n.path)
    && (n.kind == Root <==> n.parentID == None)
    && (n.parentID == None ==> n.path == "/" && n.name == "")
    && (n.parentID.Some? ==>
          && Live(nodes, n.parentID.value)
          && CleanSegment(n.name)
          && n.path == ChildPath(nodes[n.parentID.value].path, n.name))
  }

  ghost predicate DistinctPaths(nodes: Nodes) {
    forall a, b | Live(nodes, a) && Live(nodes, b) && nodes[a].path == nodes[b].path :: a == b
  }

  ghost predicate HasRoot(nodes: Nodes) {
    exists r :: Live(nodes, r) && nodes[r].parentID == None
  }

  /** The path column of every live row agrees with its parent pointer. */
  ghost predicate Linked(nodes: Nodes) {
    HasRoot(nodes) && DistinctPaths(nodes) && forall id | Live(nodes, id) :: NodeOk(nodes, id)
  }

  /** Moreover only directories have children. */
  ghost predicate WellFormed(nodes: Nodes) {
    && Linked(nodes)
    && forall id | Live(nodes, id) && nodes[id].parentID.Some? :: IsDirectory(nodes[nodes[id].parentID.value])
  }

  /** A linked tree, or no live row yet. */
  ghost predicate Ready(nodes: Nodes) {
    (forall k :: !Live(nodes, k)) || Linked(nodes)
  }

  ghost predicate WellFormedOrEmpty(nodes: Nodes) {
    (forall k :: !Live(nodes, k)) || WellFormed(nodes)
  }

  // ---- Strings --------------------------------------------------------------------------------

  lemma ChildPathShape(parent: string, name: string)
    requires Rooted(parent) && CleanSegment(name)
    ensures Rooted(ChildPath(parent, name)) && ChildPath(parent, name) != "/"
    ensures |parent| < |ChildPath(parent, name)|
  {
    var p := ChildPath(parent, name);
    assert p[|p| - 1] == name[|name| - 1];
    assert name[|name| - 1] in name;
  }

  lemma ChildPathInjective(p: string, a: string, q: string, b: string)
    requires Rooted(p) && Rooted(q) && CleanSegment(a) && CleanSegment(b)
    requires ChildPath(p, a) == ChildPath(q, b)
    ensures p == q && a == b
  {
    var c := ChildPath(p, a);
    var before, before' := if p == "/" then "" else p, if q == "/" then "" else q;
    assert c == before + "/" + a && c == before' + "/" + b;
    LastSlashOf(before, a);
    LastSlashOf(before', b);
    assert c[..|before|] == before && c[..|before'|] == before';
    assert c[|before| + 1..] == a && c[|before'| + 1..] == b;
  }

  /** A child path lies at or below `x` exactly when it is `x` or its parent does, whatever the name. */
  lemma AboveChild(x: string, parent: string, name: string)
    requires Rooted(x) && Rooted(parent) && name != "" && '/' !in name
    ensures AtOrBelow(x, ChildPath(parent, name)) <==> x == ChildPath(parent, name) || AtOrBelow(x, parent)
  {
    var c := ChildPath(parent, name);
    var i := |c| - |name| - 1;
    assert c[i] == '/' && c[i + 1..] == name;
    assert c[..i] == if parent == "/" then "" else parent;
    if x != "/" && x + "/" <= c {
      assert c[|x|] == '/' && c[..|x|] == x;
      assert forall k | i < k < |c| :: c[k] == name[k - i - 1] && c[k] in name;
      assert |x| <= i;
      if |x| < i { assert c[..i][..|x| + 1] == x + "/"; }
    }
    if x != "/" && x + "/" <= parent { assert c[..|x| + 1] == x + "/"; }
    if x == parent && x != "/" { assert c[..|x| + 1] == x + "/"; }
  }

  /** A child path lies at or below `base` exactly when it is `base` or its parent does. */
  lemma AtOrBelowChild(base: string, parent: string, name: string)
    requires Rooted(base) && Rooted(parent) && CleanSegment(name)
    ensures AtOrBelow(base, ChildPath(parent, name)) <==>
            base == ChildPath(parent, name) || AtOrBelow(base, parent)
  {
    AboveChild(base, parent, name);
  }

  lemma AtOrBelowTransitive(a: string, b: string, c: string)
    requires Rooted(a) && Rooted(b) && Rooted(c)
    requires AtOrBelow(a, b) && AtOrBelow(b, c)
    ensures AtOrBelow(a, c)
  {
    if a != "/" && b != "/" && a != b && b != c {
      assert c[..|b|] == b;
    }
  }

  // ---- The path index agrees with the parent pointers -----------------------------------------

  /** `b` is `a` or reaches it along parent pointers. */
  ghost predicate InSubtree(nodes: Nodes, a: Id, b: Id)
    requires Linked(nodes) && Live(nodes, b)
    decreases |nodes[b].path|
  {
    a == b ||
    (nodes[b].parentID.Some? &&
     (ParentIsShorter(nodes, b); InSubtree(nodes, a, nodes[b].parentID.value)))
  }

  lemma ParentIsShorter(nodes: Nodes, id: Id)
    requires Linked(nodes) && Live(nodes, id) && nodes[id].parentID.Some?
    ensures Live(nodes, nodes[id].parentID.value)
    ensures |nodes[nodes[id].parentID.value].path| < |nodes[id].path|
  {
    assert NodeOk(nodes, id) && NodeOk(nodes, nodes[id].parentID.value);
    ChildPathShape(nodes[nodes[id].parentID.value].path, nodes[id].name);
  }

  /** A node lies below another by path exactly when its chain of parents runs through it. */
  lemma {:induction false} PathIndexAgrees(nodes: Nodes, a: Id, b: Id)
    requires Linked(nodes) && Live(nodes, a) && Live(nodes, b)
    ensures InSubtree(nodes, a, b) <==> AtOrBelow(nodes[a].path, nodes[b].path)
    decreases |nodes[b].path|
  {
    assert NodeOk(nodes, a) && NodeOk(nodes, b);
    if nodes[b].parentID.Some? {
      var p := nodes[b].parentID.value;
      ParentIsShorter(nodes, b);
      assert NodeOk(nodes, p);
      PathIndexAgrees(nodes, a, p);
      AtOrBelowChild(nodes[a].path, nodes[p].path, nodes[b].name);
    } else if nodes[a].path != nodes[b].path {
      assert !AtOrBelow(nodes[a].path, "/");
    }
  }

  /** Above every live node all its path prefixes are live. */
  lemma {:induction false} AncestorIsLive(nodes: Nodes, id: Id, path: string)
    requires Linked(nodes) && Live(nodes, id)
    requires Rooted(path) && AtOrBelow(path, nodes[id].path)
    ensures exists k :: LiveAt(nodes, k, path)
    decreases |nodes[id].path|
  {
    assert NodeOk(nodes, id);
    assert nodes[id].parentID.None? ==> nodes[id].path == "/" && path == "/";
    if nodes[id].path == path {
      assert LiveAt(nodes, id, path);
    } else if nodes[id].parentID.Some? {
      var p := nodes[id].parentID.value;
      ParentIsShorter(nodes, id);
      assert NodeOk(nodes, p);
      AtOrBelowChild(path, nodes[p].path, nodes[id].name);
      AncestorIsLive(nodes, p, path);
    }
  }

  /** Live rows of a linked tree never clash on the unique indexes. */
  lemma LinkedIsUnique(nodes: Nodes)
    requires Linked(nodes)
    ensures UniqueLive(nodes)
  {
    forall a, b | Live(nodes, a) && Live(nodes, b) && a != b ensures !Clash(nodes[a], nodes[b]) {
      assert NodeOk(nodes, a) && NodeOk(nodes, b);
    }
  }

  lemma ReadyIsUnique(nodes: Nodes)
    requires Ready(nodes)
    ensures UniqueLive(nodes)
  {
    if Linked(nodes) { LinkedIsUnique(nodes); }
  }

  /** The live child of `parent` with a given path is the one with the given name. */
  lemma ChildAtPath(nodes: Nodes, parent: Id, id: Id, name: string)
    requires Linked(nodes) && Live(nodes, parent) && CleanSegment(name)
    requires LiveAt(nodes, id, ChildPath(nodes[parent].path, name))
    ensures nodes[id].parentID == Some(parent) && nodes[id].name == name
  {
    assert NodeOk(nodes, parent) && NodeOk(nodes, id);
    ChildPathShape(nodes[parent].path, name);
    var p := nodes[id].parentID.value;
    assert NodeOk(nodes, p);
    ChildPathInjective(nodes[parent].path, name, nodes[p].path, nodes[id].name);
  }

  // ---- Writing one row ------------------------------------------------------------------------

  /** The row to be written hangs below `parent` under the path its name dictates. */
  predicate IsChildRow(nodes: Nodes, parent: Id, node: Node) {
    && Live(nodes, parent) && CleanSegment(node.name) && node.kind != Root && !node.isDeleted
    && node.parentID == Some(parent) && node.path == ChildPath(nodes[parent].path, node.name)
  }

  /** `id` is the row an upsert by path writes. */
  ghost predicate UpsertTarget(nodes: Nodes, id: Id, path: string) {
    LiveAt(nodes, id, path) || (id !in nodes && forall k :: !LiveAt(nodes, k, path))
  }

  lemma PutChildKeepsNodeOk(nodes: Nodes, parent: Id, id: Id, node: Node, k: Id)
    requires Linked(nodes) && IsChildRow(nodes, parent, node) && UpsertTarget(nodes, id, node.path)
    requires Live(nodes[id := node], k)
    ensures NodeOk(nodes[id := node], k)
  {
    assert NodeOk(nodes, parent);
    ChildPathShape(nodes[parent].path, node.name);
    if k != id {
      assert NodeOk(nodes, k);
      if nodes[k].parentID == Some(id) { assert nodes[id].path == node.path; }
    }
  }

  /** Inserting a child row at a free path, or overwriting the row at its path, keeps the tree linked. */
  lemma PutChildKeepsLinked(nodes: Nodes, parent: Id, id: Id, node: Node)
    requires Linked(nodes) && IsChildRow(nodes, parent, node) && UpsertTarget(nodes, id, node.path)
    ensures Linked(nodes[id := node])
  {
    var after := nodes[id := node];
    assert NodeOk(nodes, parent);
    ChildPathShape(nodes[parent].path, node.name);
    forall k | Live(after, k) ensures NodeOk(after, k) {
      PutChildKeepsNodeOk(nodes, parent, id, node, k);
    }
    forall k | Live(nodes, k) && k != id ensures nodes[k].path != node.path {
      assert !LiveAt(nodes, id, node.path) ==> !LiveAt(nodes, k, node.path);
    }
    var root :| Live(nodes, root) && nodes[root].parentID == None;
    assert NodeOk(nodes, root);
    assert root != id by { assert node.path != "/"; }
    assert Live(after, root) && after[root].parentID == None;
  }

  /** The unique indexes admit such a row. */
  lemma FreshChildIsAdmitted(nodes: Nodes, parent: Id, id: Id, node: Node)
    requires Linked(nodes) && IsChildRow(nodes, parent, node) && UpsertTarget(nodes, id, node.path)
    ensures Admits(nodes, id, node)
  {
    PutChildKeepsLinked(nodes, parent, id, node);
    LinkedIsUnique(nodes[id := node]);
    forall j | j in nodes && Live(nodes, j) && j != id ensures !Clash(node, nodes[j]) {
      assert Live(nodes[id := node], j) && Live(nodes[id := node], id);
    }
  }

  /** A directory row may be overwritten by a directory row, or a childless one by anything. */
  lemma PutChildKeepsWellFormed(nodes: Nodes, parent: Id, id: Id, node: Node)
    requires WellFormed(nodes) && IsChildRow(nodes, parent, node) && UpsertTarget(nodes, id, node.path)
    requires IsDirectory(nodes[parent])
    requires IsDirectory(node) || (id in nodes ==> !IsDirectory(nodes[id]))
    ensures WellFormed(nodes[id := node])
  {
    PutChildKeepsLinked(nodes, parent, id, node);
    var after := nodes[id := node];
    forall k: Id | Live(after, k) && after[k].parentID.Some?
      ensures IsDirectory(after[after[k].parentID.value])
    {
      PutChildKeepsNodeOk(nodes, parent, id, node, k);
      if k != id {
        assert Live(nodes, k) && NodeOk(nodes, k);
      } else {
        ChildPathShape(nodes[parent].path, node.name) by { assert NodeOk(nodes, parent); }
      }
    }
  }

  // ---- Stored paths are clean -----------------------------------------------------------------

  lemma {:induction false} StoredPathIsClean(nodes: Nodes, id: Id)
    requires Linked(nodes) && Live(nodes, id)
    ensures IsClean(nodes[id].path)
    decreases |nodes[id].path|
  {
    assert NodeOk(nodes, id);
    if nodes[id].parentID.Some? {
      var p := nodes[id].parentID.value;
      ParentIsShorter(nodes, id);
      StoredPathIsClean(nodes, p);
      JoinIsRender(nodes[p].path, nodes[id].name);
      ChildPathIsJoin(nodes[p].path, nodes[id].name);
    } else {
      SegmentsOfRender([]);
    }
  }

  /** The parent path `Rename` computes with `path.Dir` is the parent's stored path. */
  lemma DirIsParentPath(nodes: Nodes, id: Id)
    requires Linked(nodes) && Live(nodes, id) && nodes[id].parentID.Some?
    ensures DirOf(nodes[id].path) == nodes[nodes[id].parentID.value].path
  {
    var p := nodes[id].parentID.value;
    assert NodeOk(nodes, id);
    StoredPathIsClean(nodes, p);
    ChildPathIsJoin(nodes[p].path, nodes[id].name);
    DirOfJoin(nodes[p].path, nodes[id].name);
  }

  // ---- Rewriting a subtree --------------------------------------------------------------------

  function RewriteSubtreePath(currentPath: string, oldPrefix: string, newPrefix: string): string {
    if currentPath == oldPrefix then newPrefix
    else
      var suffix := TrimPrefix(currentPath, oldPrefix);
      if suffix == "" then newPrefix
      else newPrefix + (if HasPrefix(suffix, "/") then suffix else "/" + suffix)
  }

  /** The live rows `ListByPathPrefix` returns. */
  predicate Selected(nodes: Nodes, prefix: string, id: Id) {
    Live(nodes, id) && MatchesPrefixQuery(prefix, nodes[id].path)
  }

  /** Row `k` after node `id` went from its path to `newPath`. */
  function RewrittenNode(nodes: Nodes, id: Id, newParent: Id, newName: string, newPath: string, k: Id): Node
    requires id in nodes && k in nodes
  {
    if k == id then nodes[k].(parentID := Some(newParent), name := newName, path := newPath)
    else nodes[k].(path := RewriteSubtreePath(nodes[k].path, nodes[id].path, newPath))
  }

  function RewriteNodes(nodes: Nodes, id: Id, newParent: Id, newName: string, newPath: string): Nodes
    requires id in nodes
  {
    map k | k in nodes :: if Selected(nodes, nodes[id].path, k)
                          then RewrittenNode(nodes, id, newParent, newName, newPath, k) else nodes[k]
  }

  /** The conditions under which the service starts to rewrite. */
  ghost predicate CanRewrite(nodes: Nodes, id: Id, newParent: Id, newName: string, newPath: string) {
    && Linked(nodes) && Live(nodes, id) && nodes[id].parentID.Some?
    && Live(nodes, newParent) && !AtOrBelow(nodes[id].path, nodes[newParent].path)
    && CleanSegment(newName) && newPath == ChildPath(nodes[newParent].path, newName)
    && (forall k :: !LiveAt(nodes, k, newPath))
  }

  lemma RewriteIsShift(current: string, old': string, new': string)
    requires Rooted(old') && old' != "/" && AtOrBelow(old', current)
    ensures RewriteSubtreePath(current, old', new') == new' + current[|old'|..]
    ensures current == old' + current[|old'|..]
    ensures current[|old'|..] == "" || current[|old'|] == '/'
  {
  }

  lemma TidySelection(nodes: Nodes, id: Id)
    requires Linked(nodes) && Live(nodes, id) && Tidy(nodes[id].path)
    ensures forall k :: Selected(nodes, nodes[id].path, k) <==>
                        Live(nodes, k) && AtOrBelow(nodes[id].path, nodes[k].path)
  {
    assert NodeOk(nodes, id);
    PrefixQueryIsExact(nodes[id].path);
    forall k | Live(nodes, k)
      ensures MatchesPrefixQuery(nodes[id].path, nodes[k].path) <==> AtOrBelow(nodes[id].path, nodes[k].path)
    {
      assert NodeOk(nodes, k);
    }
  }

  /** Nothing is live at or below a free path. */
  lemma NothingBelowFreePath(nodes: Nodes, path: string)
    requires Linked(nodes) && Rooted(path) && forall k :: !LiveAt(nodes, k, path)
    ensures forall k | Live(nodes, k) :: !AtOrBelow(path, nodes[k].path)
  {
    forall k | Live(nodes, k) ensures !AtOrBelow(path, nodes[k].path) {
      if AtOrBelow(path, nodes[k].path) { AncestorIsLive(nodes, k, path); }
    }
  }

  /** Paths in the moved subtree are the new path plus the old relative position. */
  lemma MovedPath(nodes: Nodes, id: Id, newParent: Id, newName: string, newPath: string, k: Id)
    requires CanRewrite(nodes, id, newParent, newName, newPath)
    requires Live(nodes, k) && AtOrBelow(nodes[id].path, nodes[k].path)
    ensures
      var old', moved := nodes[id].path, RewrittenNode(nodes, id, newParent, newName, newPath, k).path;
      && nodes[k].path == old' + nodes[k].path[|old'|..]
      && moved == newPath + nodes[k].path[|old'|..]
      && (nodes[k].path[|old'|..] == "" || nodes[k].path[|old'|..][0] == '/')
      && Rooted(moved) && AtOrBelow(newPath, moved)
    ensures nodes[id].path != "/" && Rooted(nodes[id].path) && Rooted(newPath) && newPath != "/"
  {
    assert NodeOk(nodes, id) && NodeOk(nodes, k) && NodeOk(nodes, newParent);
    assert NodeOk(nodes, nodes[id].parentID.value);
    ChildPathShape(nodes[newParent].path, newName);
    ChildPathShape(nodes[nodes[id].parentID.value].path, nodes[id].name);
    RewriteIsShift(nodes[k].path, nodes[id].path, newPath);
    var suffix := nodes[k].path[|nodes[id].path|..];
    var moved := newPath + suffix;
    if suffix != "" {
      assert moved[|moved| - 1] == nodes[k].path[|nodes[k].path| - 1];
      assert moved[..|newPath| + 1] == newPath + "/";
    }
  }
}
