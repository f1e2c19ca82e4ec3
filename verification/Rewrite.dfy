/** Moving a subtree: what rewriting the path column of a subtree keeps, changes and undoes. */
module Rewrite {
  import opened Common
  import opened Text
  import opened Paths
  import opened Store
  import opened Tree

  /** Row `k` is at or below the node being moved. */
  predicate Moves(nodes: Nodes, id: Id, k: Id)
    requires id in nodes
  {
    Live(nodes, k) && AtOrBelow(nodes[id].path, nodes[k].path)
  }

  /** With a tidy path the query selects the moved subtree, so this is the new table. */
  lemma TidyRewrite(nodes: Nodes, id: Id, newParent: Id, newName: string, newPath: string)
    requires CanRewrite(nodes, id, newParent, newName, newPath) && Tidy(nodes[id].path)
    ensures RewriteNodes(nodes, id, newParent, newName, newPath) ==
            map k | k in nodes :: if Moves(nodes, id, k)
                                  then RewrittenNode(nodes, id, newParent, newName, newPath, k) else nodes[k]
  {
    TidySelection(nodes, id);
  }

  /** The new path of a moved row is not the path of any row that stays, nor of any other moved row. */
  lemma MovedPathIsNew(nodes: Nodes, id: Id, newParent: Id, newName: string, newPath: string, k: Id, j: Id)
    requires CanRewrite(nodes, id, newParent, newName, newPath)
    requires Moves(nodes, id, k) && Live(nodes, j)
    ensures RewrittenNode(nodes, id, newParent, newName, newPath, k).path != nodes[j].path
    ensures Moves(nodes, id, j) && j != k ==>
              RewrittenNode(nodes, id, newParent, newName, newPath, k).path !=
              RewrittenNode(nodes, id, newParent, newName, newPath, j).path
  {
    MovedPath(nodes, id, newParent, newName, newPath, k);
    NothingBelowFreePath(nodes, newPath);
    if Moves(nodes, id, j) && j != k {
      MovedPath(nodes, id, newParent, newName, newPath, j);
      hide AtOrBelow, Rooted, NodeOk, RewrittenNode, Live, CleanSegment, ChildPath;
      DifferentSuffixes(nodes[id].path, newPath, nodes[k].path, nodes[j].path);
    }
  }

  lemma DifferentSuffixes(old': string, new': string, a: string, b: string)
    requires |old'| <= |a| && |old'| <= |b|
    requires a == old' + a[|old'|..] && b == old' + b[|old'|..] && a != b
    ensures new' + a[|old'|..] != new' + b[|old'|..]
  {
    var x, y := a[|old'|..], b[|old'|..];
    assert (new' + x)[|new'|..] == x && (new' + y)[|new'|..] == y;
  }

  lemma {:induction false} ShiftedChild(old': string, new': string, parent: string, name: string)
    requires Rooted(old') && old' != "/" && Rooted(new') && new' != "/"
    requires Rooted(parent) && AtOrBelow(old', parent)
    ensures new' + ChildPath(parent, name)[|old'|..] == ChildPath(new' + parent[|old'|..], name)
    ensures AtOrBelow(old', ChildPath(parent, name))
  {
    var c := ChildPath(parent, name);
    assert parent != "/";
    assert c == parent + "/" + name;
    assert c[|old'|..] == parent[|old'|..] + "/" + name;
    assert new' + (parent[|old'|..] + "/" + name) == new' + parent[|old'|..] + "/" + name;
    if old' != parent { assert c[..|old'| + 1] == parent[..|old'| + 1] == old' + "/"; }
    else { assert c[..|old'| + 1] == old' + "/"; }
  }

  lemma RewrittenNodeIsOk(nodes: Nodes, id: Id, newParent: Id, newName: string, newPath: string, k: Id)
    requires CanRewrite(nodes, id, newParent, newName, newPath) && Tidy(nodes[id].path) && Live(nodes, k)
    ensures NodeOk(RewriteNodes(nodes, id, newParent, newName, newPath), k)
  {
    var after := RewriteNodes(nodes, id, newParent, newName, newPath);
    TidyRewrite(nodes, id, newParent, newName, newPath);
    assert NodeOk(nodes, k) && NodeOk(nodes, id) && NodeOk(nodes, newParent);
    MovedPath(nodes, id, newParent, newName, newPath, id);
    if Moves(nodes, id, k) { MovedPath(nodes, id, newParent, newName, newPath, k); }
    if k == id {
      assert after[newParent] == nodes[newParent];
    } else if nodes[k].parentID.Some? {
      var p := nodes[k].parentID.value;
      assert NodeOk(nodes, p);
      AtOrBelowChild(nodes[id].path, nodes[p].path, nodes[k].name);
      assert nodes[k].path != nodes[id].path;
      assert Moves(nodes, id, k) <==> Moves(nodes, id, p);
      if Moves(nodes, id, p) {
        MovedPath(nodes, id, newParent, newName, newPath, p);
        ShiftedChild(nodes[id].path, newPath, nodes[p].path, nodes[k].name);
      }
    } else {
      assert !AtOrBelow(nodes[id].path, "/");
    }
  }

  /** A rewrite of a tidy path keeps the index and the pointers in agreement. */
  lemma RewriteKeepsLinked(nodes: Nodes, id: Id, newParent: Id, newName: string, newPath: string)
    requires CanRewrite(nodes, id, newParent, newName, newPath) && Tidy(nodes[id].path)
    ensures Linked(RewriteNodes(nodes, id, newParent, newName, newPath))
  {
    var after := RewriteNodes(nodes, id, newParent, newName, newPath);
    TidyRewrite(nodes, id, newParent, newName, newPath);
    forall k | Live(after, k) ensures NodeOk(after, k) {
      RewrittenNodeIsOk(nodes, id, newParent, newName, newPath, k);
    }
    forall a, b | Live(after, a) && Live(after, b) && after[a].path == after[b].path ensures a == b {
      if Moves(nodes, id, a) {
        MovedPathIsNew(nodes, id, newParent, newName, newPath, a, b);
      } else if Moves(nodes, id, b) {
        MovedPathIsNew(nodes, id, newParent, newName, newPath, b, a);
      }
    }
    var r :| Live(nodes, r) && nodes[r].parentID == None;
    assert Live(after, r) && after[r].parentID == None;
  }

  lemma RewriteKeepsWellFormed(nodes: Nodes, id: Id, newParent: Id, newName: string, newPath: string)
    requires CanRewrite(nodes, id, newParent, newName, newPath) && Tidy(nodes[id].path)
    requires WellFormed(nodes) && IsDirectory(nodes[newParent])
    ensures WellFormed(RewriteNodes(nodes, id, newParent, newName, newPath))
  {
    RewriteKeepsLinked(nodes, id, newParent, newName, newPath);
  }

  // ---- The repository's trimmed prefix --------------------------------------------------------

  /** When the path of the node ends in white space, the query selects another node's subtree, and
      writing it breaks the index. */
  lemma UntidyRewriteBreaksTheIndex(nodes: Nodes, id: Id, newParent: Id, newName: string, newPath: string)
    requires CanRewrite(nodes, id, newParent, newName, newPath) && !Tidy(nodes[id].path)
    requires exists k :: Selected(nodes, nodes[id].path, k)
    ensures !Linked(RewriteNodes(nodes, id, newParent, newName, newPath))
  {
    var p := nodes[id].path;
    var q := QueryPrefix(p);
    var after := RewriteNodes(nodes, id, newParent, newName, newPath);
    assert NodeOk(nodes, id);
    TrimShrinks(p);
    var k :| Selected(nodes, p, k);
    assert NodeOk(nodes, k);
    AncestorIsLive(nodes, k, q);
    var v :| LiveAt(nodes, v, q);
    assert NodeOk(nodes, v) && NodeOk(nodes, newParent);
    ChildPathShape(nodes[newParent].path, newName);
    assert v != id && Selected(nodes, p, v);
    assert after[v].path == newPath + q;
    if nodes[v].parentID == None {
      assert !NodeOk(after, v);
    } else {
      var u := nodes[v].parentID.value;
      ParentIsShorter(nodes, v);
      assert NodeOk(nodes, u);
      assert !MatchesPrefixQuery(p, nodes[u].path);
      assert u in after && after[u] == nodes[u];
      assert ChildPath(after[u].path, after[v].name) == q;
      assert !NodeOk(after, v);
    }
    assert Live(after, v);
  }

  /** A rewrite that selects anything keeps the tree linked exactly when the node's path does not end
      in white space. */
  lemma RewriteIsSoundIffTidy(nodes: Nodes, id: Id, newParent: Id, newName: string, newPath: string)
    requires CanRewrite(nodes, id, newParent, newName, newPath)
    requires exists k :: Selected(nodes, nodes[id].path, k)
    ensures Linked(RewriteNodes(nodes, id, newParent, newName, newPath)) <==> !EndsInSpace(nodes[id].path)
  {
    LiveIsRooted(nodes, id);
    hide Linked, RewriteNodes, NodeOk, Selected;
    PrefixQueryIsExact(nodes[id].path);
    if Tidy(nodes[id].path) {
      RewriteKeepsLinked(nodes, id, newParent, newName, newPath);
    } else {
      UntidyRewriteBreaksTheIndex(nodes, id, newParent, newName, newPath);
    }
  }

  lemma LiveIsRooted(nodes: Nodes, id: Id)
    requires Linked(nodes) && Live(nodes, id)
    ensures Rooted(nodes[id].path)
  {
    assert NodeOk(nodes, id);
  }

  // ---- What the trimmed prefix of a child's path selects --------------------------------------

  lemma {:induction false} TrimRightOfBlank(s: string)
    requires IsBlank(s)
    ensures TrimRightSpace(s) == ""
  {
    if s != "" { TrimRightOfBlank(s[..|s| - 1]); }
  }

  /** Trimming a name that is not all white space leaves a beginning of it. */
  lemma {:induction false} TrimmedName(name: string)
    requires !IsBlank(name)
    ensures TrimRightSpace(name) != "" && TrimRightSpace(name) <= name
    ensures TrimRightSpace(name) != name <==> IsSpace(name[|name| - 1])
  {
    TrimRightSpaceShape(name);
    if IsSpace(name[|name| - 1]) {
      var shorter := name[..|name| - 1];
      assert !IsBlank(shorter) by {
        var i :| 0 <= i < |name| && !IsSpace(name[i]);
        assert shorter[i] == name[i];
      }
      TrimmedName(shorter);
    }
  }

  /** The path of a child is queried as the parent's path if the name is all white space, else as the path of the
      trimmed name. */
  lemma QueryOfChild(parent: string, name: string)
    requires Rooted(parent) && CleanSegment(name)
    ensures IsBlank(name) ==> QueryPrefix(ChildPath(parent, name)) == parent && EndsInSpace(ChildPath(parent, name))
    ensures !IsBlank(name) ==> QueryPrefix(ChildPath(parent, name)) == ChildPath(parent, TrimRightSpace(name))
  {
    TrimmedChild(parent, name);
    if IsBlank(name) { assert ChildPath(parent, name)[|ChildPath(parent, name)| - 1] == name[|name| - 1]; }
    hide TrimSpace, CleanSegment, IsSpace, IsBlank;
    if IsBlank(name) {
      var before := if parent == "/" then "" else parent;
      assert (before + "/")[..|before|] == before;
      assert TrimRightSlash(before) == before;
    } else {
      var p := ChildPath(parent, TrimRightSpace(name));
      assert p[|p| - 1] != '/';
    }
  }

  lemma TrimmedChild(parent: string, name: string)
    requires Rooted(parent) && CleanSegment(name)
    ensures IsBlank(name) ==> TrimSpace(ChildPath(parent, name)) == (if parent == "/" then "" else parent) + "/"
    ensures !IsBlank(name) ==>
              && TrimSpace(ChildPath(parent, name)) == ChildPath(parent, TrimRightSpace(name))
              && TrimRightSpace(name) != "" && TrimRightSpace(name)[|TrimRightSpace(name)| - 1] != '/'
  {
    hide TrimRightSpace, TrimLeftSpace, TrimSpace, IsSpace, IsBlank, Rooted;
    var before := if parent == "/" then "" else parent;
    TrimmedTail(parent, name);
    if IsBlank(name) {
      SlashThenBlank(name);
    } else {
      TrimmedName(name);
      SlashThenName(name);
      var trimmed := TrimRightSpace(name);
      assert before + ("/" + trimmed) == before + "/" + trimmed == ChildPath(parent, trimmed);
      LastOfPrefix(trimmed, name);
    }
  }

  lemma LastOfPrefix(trimmed: string, name: string)
    requires trimmed <= name && trimmed != "" && '/' !in name
    ensures trimmed[|trimmed| - 1] != '/'
  {
    assert trimmed[|trimmed| - 1] == name[|trimmed| - 1] && name[|trimmed| - 1] in name;
  }

  lemma TrimmedTail(parent: string, name: string)
    requires Rooted(parent)
    ensures TrimSpace(ChildPath(parent, name)) == (if parent == "/" then "" else parent) + TrimRightSpace("/" + name)
  {
    var before, p := if parent == "/" then "" else parent, ChildPath(parent, name);
    assert p == before + ("/" + name);
    assert p[0] == '/' && !IsSpace('/');
    assert TrimLeftSpace(p) == p;
    TrimRightOfConcat(before, "/" + name);
  }

  lemma {:induction false} SlashThenBlank(name: string)
    requires IsBlank(name)
    ensures TrimRightSpace("/" + name) == "/"
  {
    if name == "" {
      assert "/" + name == "/";
    } else {
      assert ("/" + name)[..|name|] == "/" + name[..|name| - 1];
      SlashThenBlank(name[..|name| - 1]);
    }
  }

  lemma {:induction false} SlashThenName(name: string)
    requires !IsBlank(name)
    ensures TrimRightSpace("/" + name) == "/" + TrimRightSpace(name)
  {
    if IsSpace(name[|name| - 1]) {
      TrimmedName(name);
      assert ("/" + name)[..|name|] == "/" + name[..|name| - 1];
      assert !IsBlank(name[..|name| - 1]) by {
        var i :| 0 <= i < |name| && !IsSpace(name[i]);
        assert name[..|name| - 1][i] == name[i];
      }
      SlashThenName(name[..|name| - 1]);
    }
  }

  /** The trimmed prefix of the node's path does not match the node's own row. */
  predicate MissesItself(n: Node) {
    EndsInSpace(n.path) && !IsBlank(n.name)
  }

  /** The queried prefix of a node below a parent, and when the query finds the node itself. */
  lemma QueryOfNode(nodes: Nodes, id: Id)
    requires Linked(nodes) && Live(nodes, id) && nodes[id].parentID.Some?
    ensures Live(nodes, nodes[id].parentID.value)
    ensures
      var n, parent, q := nodes[id], nodes[nodes[id].parentID.value], QueryPrefix(nodes[id].path);
      && Rooted(q) && Rooted(parent.path) && AtOrBelow(parent.path, q)
      && (IsBlank(n.name) ==> q == parent.path && EndsInSpace(n.path))
      && (!IsBlank(n.name) ==> q != parent.path && q != "/" && |parent.path| < |q| && q <= n.path)
      && (MissesItself(n) ==> !AtOrBelow(q, n.path) && q != n.path)
      && (!EndsInSpace(n.path) ==> q == n.path)
      && (!IsBlank(n.name) ==> forall x | Rooted(x) :: AtOrBelow(x, q) <==> x == q || AtOrBelow(x, parent.path))
    ensures Selected(nodes, nodes[id].path, id) <==> !MissesItself(nodes[id])
  {
    var n := nodes[id];
    ParentIsShorter(nodes, id);
    var parent := nodes[n.parentID.value];
    assert NodeOk(nodes, id) && NodeOk(nodes, n.parentID.value);
    TrimShrinks(n.path);
    QueryOfChild(parent.path, n.name);
    hide QueryPrefix, Linked, NodeOk;
    if IsBlank(n.name) {
      AtOrBelowChild(parent.path, parent.path, n.name);
    } else {
      TrimmedName(n.name);
      NotItself(parent.path, n.name);
      forall x | Rooted(x) ensures AtOrBelow(x, QueryPrefix(n.path))
        <==> x == QueryPrefix(n.path) || AtOrBelow(x, parent.path) {
        AboveTrimmed(x, parent.path, n.name);
      }
    }
  }

  lemma NotItself(parent: string, name: string)
    requires Rooted(parent) && CleanSegment(name) && !IsBlank(name)
    ensures
      var q, p := ChildPath(parent, TrimRightSpace(name)), ChildPath(parent, name);
      && q <= p && |parent| < |q| && q != "/" && AtOrBelow(parent, q)
      && (EndsInSpace(p) ==> q != p && !AtOrBelow(q, p))
  {
    TrimmedName(name);
    LastOfChild(parent, name);
    hide TrimRightSpace, IsBlank, IsSpace;
    Shortened(parent, name, TrimRightSpace(name));
  }

  lemma LastOfChild(parent: string, name: string)
    requires name != ""
    ensures EndsInSpace(ChildPath(parent, name)) <==> IsSpace(name[|name| - 1])
  {
    assert ChildPath(parent, name)[|ChildPath(parent, name)| - 1] == name[|name| - 1];
  }

  lemma Shortened(parent: string, name: string, trimmed: string)
    requires Rooted(parent) && CleanSegment(name) && trimmed != "" && trimmed <= name
    ensures
      var q, p := ChildPath(parent, trimmed), ChildPath(parent, name);
      && q <= p && |parent| < |q| && q != "/" && AtOrBelow(parent, q)
      && (trimmed != name ==> q != p && !AtOrBelow(q, p))
  {
    var q, p := ChildPath(parent, trimmed), ChildPath(parent, name);
    assert p == q + name[|trimmed|..] by { assert name == trimmed + name[|trimmed|..]; }
    if trimmed != name {
      assert p[|q|] == name[|trimmed|] && name[|trimmed|] in name;
    }
    assert parent != "/" ==> q[..|parent| + 1] == parent + "/";
  }

  /** What lies above the path of the trimmed name is that path or lies above the parent. */
  lemma AboveTrimmed(x: string, parent: string, name: string)
    requires Rooted(x) && Rooted(parent) && CleanSegment(name) && !IsBlank(name)
    ensures
      var q := ChildPath(parent, TrimRightSpace(name));
      AtOrBelow(x, q) <==> x == q || AtOrBelow(x, parent)
  {
    TrimmedName(name);
    var trimmed := TrimRightSpace(name);
    assert '/' !in trimmed by {
      forall i | 0 <= i < |trimmed| ensures trimmed[i] != '/' { assert trimmed[i] == name[i] && name[i] in name; }
    }
    AboveChild(x, parent, trimmed);
  }

  /** A tidy path does not end in white space, so its last name is not blank and the query finds the node. */
  lemma TidyFindsItself(nodes: Nodes, id: Id)
    requires Linked(nodes) && Live(nodes, id) && nodes[id].parentID.Some? && Tidy(nodes[id].path)
    ensures !EndsInSpace(nodes[id].path) && !IsBlank(nodes[id].name) && !MissesItself(nodes[id])
  {
    LiveIsRooted(nodes, id);
    TrimShrinks(nodes[id].path);
    QueryOfNode(nodes, id);
  }

  // ---- Rewriting what the query selects -------------------------------------------------------

  /** Where the new path of a selected row takes up its old one: behind the node's path if the query finds the node,
      else at the start. */
  function TakesUpAt(n: Node): nat {
    if MissesItself(n) then 0 else |n.path|
  }

  /** A name that is not all white space: every selected row gets the new path followed by what is left of its own. */
  lemma SelectedPath(nodes: Nodes, id: Id, newParent: Id, newName: string, newPath: string, k: Id)
    requires CanRewrite(nodes, id, newParent, newName, newPath) && !IsBlank(nodes[id].name)
    requires Selected(nodes, nodes[id].path, k)
    ensures
      var p, x, cut := nodes[id].path, nodes[k].path, TakesUpAt(nodes[id]);
      && cut <= |x| && cut <= |p| && x[..cut] == p[..cut]
      && RewrittenNode(nodes, id, newParent, newName, newPath, k).path == newPath + x[cut..]
      && (x[cut..] == "" || x[cut..][0] == '/') && Rooted(newPath + x[cut..]) && AtOrBelow(newPath, newPath + x[cut..])
    ensures Rooted(newPath) && newPath != "/"
    ensures MissesItself(nodes[id]) ==> k != id && nodes[k].path != "/"
  {
    assert NodeOk(nodes, id) && NodeOk(nodes, k) && NodeOk(nodes, newParent);
    QueryOfNode(nodes, id);
    ChildPathShape(nodes[newParent].path, newName);
    if MissesItself(nodes[id]) {
      hide Linked, NodeOk, QueryPrefix, EndsInSpace, IsBlank;
      MissedSuffix(nodes[id].path, nodes[k].path, QueryPrefix(nodes[id].path), newPath);
    } else {
      TrimShrinks(nodes[id].path);
      TidySelection(nodes, id);
      MovedPath(nodes, id, newParent, newName, newPath, k);
    }
  }

  lemma MissedSuffix(p: string, x: string, q: string, newPath: string)
    requires Rooted(q) && Rooted(p) && Rooted(x) && Rooted(newPath) && newPath != "/" && q != "/" && q <= p
             && !AtOrBelow(q, p)
    requires x == q || HasPrefix(x, q + "/")
    ensures x != p && x != "/" && RewriteSubtreePath(x, p, newPath) == newPath + x
    ensures Rooted(newPath + x) && AtOrBelow(newPath, newPath + x)
  {
    assert p[..|q|] == q && p[..|q| + 1] == p[..|q|] + [p[|q|]];
    assert p[|q|] != '/';
    assert !HasPrefix(x, p) by {
      if x != q { assert x[|q|] == (q + "/")[|q|] == '/'; }
    }
    assert (newPath + x)[..|newPath| + 1] == newPath + "/";
    assert (newPath + x)[|newPath + x| - 1] == x[|x| - 1];
  }

  /** Its new path is nobody's path, and nobody else's new path. */
  lemma SelectedPathIsNew(nodes: Nodes, id: Id, newParent: Id, newName: string, newPath: string, k: Id, j: Id)
    requires CanRewrite(nodes, id, newParent, newName, newPath) && !IsBlank(nodes[id].name)
    requires Selected(nodes, nodes[id].path, k) && Live(nodes, j)
    ensures RewrittenNode(nodes, id, newParent, newName, newPath, k).path != nodes[j].path
    ensures Selected(nodes, nodes[id].path, j) && j != k ==>
              RewrittenNode(nodes, id, newParent, newName, newPath, k).path !=
              RewrittenNode(nodes, id, newParent, newName, newPath, j).path
  {
    SelectedPath(nodes, id, newParent, newName, newPath, k);
    assert Linked(nodes) && Live(nodes, k);
    hide RewrittenNode, AtOrBelow, Rooted, Linked, MatchesPrefixQuery, TakesUpAt;
    NothingBelowFreePath(nodes, newPath);
    if Selected(nodes, nodes[id].path, j) && j != k {
      SelectedPath(nodes, id, newParent, newName, newPath, j);
      PathsDiffer(nodes, j, k);
      OneCut(nodes[id].path, newPath, nodes[k].path, nodes[j].path, TakesUpAt(nodes[id]));
    }
  }

  lemma OneCut(p: string, newPath: string, a: string, b: string, cut: nat)
    requires cut <= |p| && cut <= |a| && cut <= |b| && a[..cut] == p[..cut] && b[..cut] == p[..cut] && a != b
    ensures newPath + a[cut..] != newPath + b[cut..]
  {
    var old' := p[..cut];
    assert |old'| == cut && a == old' + a[cut..] && b == old' + b[cut..];
    DifferentSuffixes(old', newPath, a, b);
  }

  lemma PathsDiffer(nodes: Nodes, j: Id, k: Id)
    requires Linked(nodes) && Live(nodes, j) && Live(nodes, k) && j != k
    ensures nodes[j].path != nodes[k].path
  {
  }

  lemma NewPathIsRooted(nodes: Nodes, id: Id, newParent: Id, newName: string, newPath: string)
    requires CanRewrite(nodes, id, newParent, newName, newPath)
    ensures Rooted(newPath) && newPath != "/"
  {
    assert NodeOk(nodes, newParent);
    ChildPathShape(nodes[newParent].path, newName);
  }

  /** Whatever the query selects: the new path of a row other than the node is below the wanted path, and what comes
      after that is the end of the old path. */
  lemma LandsBelow(nodes: Nodes, id: Id, newParent: Id, newName: string, newPath: string, k: Id)
    requires CanRewrite(nodes, id, newParent, newName, newPath) && Live(nodes, k)
    ensures
      var y := RewrittenNode(nodes, id, newParent, newName, newPath, k).path;
      && AtOrBelow(newPath, y)
      && (k == id ==> y == newPath)
      && (k != id ==> HasPrefix(y, newPath + "/") && (!HasDotDot(nodes[k].path) ==> !HasDotDot(y[|newPath| + 1..])))
  {
    NewPathIsRooted(nodes, id, newParent, newName, newPath);
    if k != id {
      LiveIsRooted(nodes, k);
      PathsDiffer(nodes, id, k);
      var x, p := nodes[k].path, nodes[id].path;
      hide CanRewrite, Rooted, HasDotDot;
      ShiftedTail(x, p, newPath);
    }
  }

  lemma ShiftedTail(x: string, p: string, newPath: string)
    requires x != p && x != "" && newPath != "/"
    ensures
      var y := RewriteSubtreePath(x, p, newPath);
      && HasPrefix(y, newPath + "/") && AtOrBelow(newPath, y)
      && (!HasDotDot(x) ==> !HasDotDot(y[|newPath| + 1..]))
  {
    hide HasDotDot;
    var cut := if p <= x then |p| else 0;
    var suffix := x[cut..];
    assert suffix == TrimPrefix(x, p) != "";
    assert HasPrefix(suffix, "/") <==> suffix[0] == '/';
    var from := if suffix[0] == '/' then cut + 1 else cut;
    var y := newPath + "/" + x[from..];
    assert RewriteSubtreePath(x, p, newPath) == y by {
      if suffix[0] == '/' { assert suffix == "/" + x[from..]; }
    }
    hide RewriteSubtreePath, TrimPrefix;
    assert y[..|newPath| + 1] == newPath + "/" && y[|newPath| + 1..] == x[from..];
    assert x == x[..from] + x[from..];
    DotDotOfConcat(x[..from], x[from..]);
  }

  /** So nobody has that path before the rewrite. */
  lemma LandsOnNobody(nodes: Nodes, id: Id, newParent: Id, newName: string, newPath: string, k: Id, j: Id)
    requires CanRewrite(nodes, id, newParent, newName, newPath) && Live(nodes, k) && Live(nodes, j)
    ensures RewrittenNode(nodes, id, newParent, newName, newPath, k).path != nodes[j].path
  {
    NewPathIsRooted(nodes, id, newParent, newName, newPath);
    LandsBelow(nodes, id, newParent, newName, newPath, k);
    hide RewrittenNode, AtOrBelow, Rooted;
    NothingBelowFreePath(nodes, newPath);
  }

  /** However many of the selected rows have been written, the unique indexes admit the next one exactly when none of
      those has its new path. */
  lemma SelectedRowIsAdmitted(nodes: Nodes, now: Nodes, done: set<Id>,
                              id: Id, newParent: Id, newName: string, newPath: string, k: Id)
    requires id in nodes && k in nodes && k !in done && done <= nodes.Keys == now.Keys
    requires CanRewrite(nodes, id, newParent, newName, newPath) && Selected(nodes, nodes[id].path, k)
    requires forall j | j in done :: Selected(nodes, nodes[id].path, j)
    requires forall j | j in now ::
               now[j] == if j in done then RewrittenNode(nodes, id, newParent, newName, newPath, j) else nodes[j]
    ensures
      var row := RewrittenNode(nodes, id, newParent, newName, newPath, k);
      Admits(now, k, row) <==>
      forall j | j in done :: RewrittenNode(nodes, id, newParent, newName, newPath, j).path != row.path
  {
    hide CanRewrite, RewrittenNode, Clash, MatchesPrefixQuery;
    StaysLive(nodes, id, newParent, newName, newPath, k);
    forall j | j in nodes && j != k && Live(nodes, j)
      ensures Live(now, j)
      ensures Clash(RewrittenNode(nodes, id, newParent, newName, newPath, k), now[j]) <==>
              j in done && RewrittenNode(nodes, id, newParent, newName, newPath, k).path == now[j].path
    {
      StaysLive(nodes, id, newParent, newName, newPath, j);
      ClashesByPath(nodes, id, newParent, newName, newPath, k, j);
    }
    forall j | j in nodes && Live(now, j) ensures Live(nodes, j) {
    }
  }

  /** A row to be written clashes with no row as it was, and with another one written only if the paths are the same. */
  lemma ClashesByPath(nodes: Nodes, id: Id, newParent: Id, newName: string, newPath: string, k: Id, j: Id)
    requires CanRewrite(nodes, id, newParent, newName, newPath) && Live(nodes, k) && Live(nodes, j) && j != k
    ensures
      var row, other := RewrittenNode(nodes, id, newParent, newName, newPath, k),
                        RewrittenNode(nodes, id, newParent, newName, newPath, j);
      !Clash(row, nodes[j]) && (Clash(row, other) <==> row.path == other.path)
  {
    LandsOnNobody(nodes, id, newParent, newName, newPath, k, j);
    SameNameNoClash(nodes, id, newParent, newName, newPath, k, j);
    hide CanRewrite, RewrittenNode;
  }

  lemma StaysLive(nodes: Nodes, id: Id, newParent: Id, newName: string, newPath: string, k: Id)
    requires CanRewrite(nodes, id, newParent, newName, newPath) && Live(nodes, k)
    ensures !RewrittenNode(nodes, id, newParent, newName, newPath, k).isDeleted
  {
  }

  /** No two rows get the same parent and name. */
  lemma SameNameNoClash(nodes: Nodes, id: Id, newParent: Id, newName: string, newPath: string, k: Id, j: Id)
    requires CanRewrite(nodes, id, newParent, newName, newPath) && Live(nodes, k) && Live(nodes, j) && j != k
    ensures
      var row, one, other := RewrittenNode(nodes, id, newParent, newName, newPath, k), nodes[j],
                             RewrittenNode(nodes, id, newParent, newName, newPath, j);
      && !(row.parentID.Some? && row.parentID == one.parentID && row.name == one.name)
      && !(row.parentID.Some? && row.parentID == other.parentID && row.name == other.name)
  {
    assert NodeOk(nodes, j) && NodeOk(nodes, k);
    assert !LiveAt(nodes, j, newPath) && !LiveAt(nodes, k, newPath);
  }

  /** The new path of a selected row is clean. */
  lemma SelectedPathIsClean(nodes: Nodes, id: Id, newParent: Id, newName: string, newPath: string, k: Id)
    requires CanRewrite(nodes, id, newParent, newName, newPath) && !IsBlank(nodes[id].name)
    requires Selected(nodes, nodes[id].path, k)
    ensures IsClean(RewrittenNode(nodes, id, newParent, newName, newPath, k).path)
  {
    SelectedPath(nodes, id, newParent, newName, newPath, k);
    if MissesItself(nodes[id]) {
      StoredPathIsClean(nodes, k);
      StoredPathIsClean(nodes, newParent);
      assert NodeOk(nodes, newParent);
      ChildPathIsJoin(nodes[newParent].path, newName);
      JoinIsRender(nodes[newParent].path, newName);
      CleanConcat(newPath, nodes[k].path);
      assert nodes[k].path[0..] == nodes[k].path;
    } else {
      QueryOfNode(nodes, id);
      TrimShrinks(nodes[id].path) by { assert NodeOk(nodes, id); }
      var after := RewriteNodes(nodes, id, newParent, newName, newPath);
      RewriteKeepsLinked(nodes, id, newParent, newName, newPath);
      assert Live(after, k);
      StoredPathIsClean(after, k);
    }
  }

  lemma CleanConcat(a: string, b: string)
    requires IsClean(a) && IsClean(b) && a != "/" && b != "/"
    ensures IsClean(a + b)
  {
    RootOrSlashed(a);
    RootOrSlashed(b);
    SegmentsAreClean(a);
    SegmentsAreClean(b);
    var segs := Segments(a) + Segments(b);
    SlashedConcat(Segments(a), Segments(b));
    assert Render(segs) == a + b;
    SegmentsOfRender(segs);
  }

  // ---- Relative positions ---------------------------------------------------------------------

  /** After the rewrite a node lies below another exactly if it did before, except possibly for a moved
      node below one that stayed. */
  lemma ContainmentIsKept(nodes: Nodes, id: Id, newParent: Id, newName: string, newPath: string, a: Id, b: Id)
    requires CanRewrite(nodes, id, newParent, newName, newPath) && Tidy(nodes[id].path)
    requires Live(nodes, a) && Live(nodes, b)
    requires Moves(nodes, id, a) || !Moves(nodes, id, b)
             || nodes[id].parentID == Some(newParent)
    ensures
      var after := RewriteNodes(nodes, id, newParent, newName, newPath);
      AtOrBelow(after[a].path, after[b].path) <==> AtOrBelow(nodes[a].path, nodes[b].path)
  {
    var after := RewriteNodes(nodes, id, newParent, newName, newPath);
    TidyRewrite(nodes, id, newParent, newName, newPath);
    assert NodeOk(nodes, a) && NodeOk(nodes, b) && NodeOk(nodes, id) && NodeOk(nodes, newParent);
    if Moves(nodes, id, a) {
      MovedPath(nodes, id, newParent, newName, newPath, a);
      if Moves(nodes, id, b) {
        MovedPath(nodes, id, newParent, newName, newPath, b);
        CommonPrefix(nodes[id].path, newPath, nodes[a].path, nodes[b].path);
      } else {
        NothingBelowFreePath(nodes, newPath);
        if AtOrBelow(after[a].path, nodes[b].path) {
          AtOrBelowTransitive(newPath, after[a].path, nodes[b].path);
        }
        if AtOrBelow(nodes[a].path, nodes[b].path) {
          AtOrBelowTransitive(nodes[id].path, nodes[a].path, nodes[b].path);
        }
      }
    } else if Moves(nodes, id, b) {
      StayerAboveMoved(nodes, id, newParent, newName, newPath, a, b);
    }
  }

  lemma CommonPrefix(old': string, new': string, a: string, b: string)
    requires Rooted(old') && old' != "/" && Rooted(new') && new' != "/" && Rooted(a) && Rooted(b)
    requires AtOrBelow(old', a) && AtOrBelow(old', b)
    ensures AtOrBelow(new' + a[|old'|..], new' + b[|old'|..]) <==> AtOrBelow(a, b)
  {
    var x, y := a[|old'|..], b[|old'|..];
    assert a == old' + x && b == old' + y;
    PrefixOfConcat(old', x + "/", y);
    PrefixOfConcat(new', x + "/", y);
    assert old' + (x + "/") == a + "/";
    assert new' + (x + "/") == new' + x + "/";
    assert |a| >= 2 && |new' + x| >= 2;
    if a != b { DifferentSuffixes(old', new', a, b); }
  }

  lemma PrefixOfConcat(s: string, x: string, y: string)
    ensures s + x <= s + y <==> x <= y
  {
    if s + x <= s + y {
      assert (s + y)[..|s + x|] == s + x;
      assert (s + y)[|s|..][..|x|] == x;
    }
  }

  /** Renaming below the same parent keeps every stayer's position relative to the moved rows. */
  lemma StayerAboveMoved(nodes: Nodes, id: Id, newParent: Id, newName: string, newPath: string, a: Id, b: Id)
    requires CanRewrite(nodes, id, newParent, newName, newPath) && Tidy(nodes[id].path)
    requires nodes[id].parentID == Some(newParent)
    requires Live(nodes, a) && !Moves(nodes, id, a) && Moves(nodes, id, b)
    ensures
      var after := RewriteNodes(nodes, id, newParent, newName, newPath);
      AtOrBelow(after[a].path, after[b].path) <==> AtOrBelow(nodes[a].path, nodes[b].path)
  {
    var after := RewriteNodes(nodes, id, newParent, newName, newPath);
    TidyRewrite(nodes, id, newParent, newName, newPath);
    assert NodeOk(nodes, a) && NodeOk(nodes, b) && NodeOk(nodes, id) && NodeOk(nodes, newParent);
    MovedPath(nodes, id, newParent, newName, newPath, b);
    MovedPathIsNew(nodes, id, newParent, newName, newPath, id, a);
    StayerAbove(nodes[a].path, nodes[newParent].path, nodes[id].name, nodes[b].path);
    NothingBelowFreePath(nodes, newPath);
    assert !AtOrBelow(newPath, nodes[a].path);
    StayerAbove(nodes[a].path, nodes[newParent].path, newName, after[b].path);
  }

  /** Of the paths not at or below a child, those above anything in it are those above its parent. */
  lemma StayerAbove(a: string, parent: string, name: string, b: string)
    requires Rooted(a) && Rooted(parent) && CleanSegment(name) && Rooted(b)
    requires AtOrBelow(ChildPath(parent, name), b) && !AtOrBelow(ChildPath(parent, name), a)
    ensures AtOrBelow(a, b) <==> AtOrBelow(a, parent)
  {
    var c := ChildPath(parent, name);
    ChildPathShape(parent, name);
    AtOrBelowChild(a, parent, name);
    if AtOrBelow(a, parent) { AtOrBelowTransitive(a, c, b); }
    if AtOrBelow(a, b) { Comparable(a, c, b); }
  }

  lemma Comparable(a: string, b: string, c: string)
    requires Rooted(a) && Rooted(b) && Rooted(c)
    requires AtOrBelow(a, c) && AtOrBelow(b, c)
    ensures AtOrBelow(a, b) || AtOrBelow(b, a)
  {
    if a != "/" && b != "/" && a != c && b != c {
      assert c[..|a| + 1] == a + "/" && c[..|b| + 1] == b + "/";
      assert c[..|a| + 1][..|a|] == a && c[..|b| + 1][..|b|] == b;
      assert a == c[..|a|] && b == c[..|b|];
      if |a| < |b| {
        assert b[..|a| + 1] == a + "/";
      } else if |b| < |a| {
        assert a[..|b| + 1] == b + "/";
      }
    }
  }

  // ---- Relative positions, whatever the query selects -----------------------------------------

  /** If the query misses the node, it selects what lies at or below the trimmed prefix. */
  lemma MissedSelection(nodes: Nodes, id: Id)
    requires Linked(nodes) && Live(nodes, id) && nodes[id].parentID.Some? && MissesItself(nodes[id])
    ensures
      var q := QueryPrefix(nodes[id].path);
      && q != "/" && Rooted(q)
      && forall k | Live(nodes, k) :: Selected(nodes, nodes[id].path, k) <==> AtOrBelow(q, nodes[k].path)
  {
    QueryOfNode(nodes, id);
  }

  lemma LiftedPrefix(new': string, a: string, b: string)
    requires Rooted(new') && new' != "/" && Rooted(a) && Rooted(b) && a != "/" && b != "/"
    ensures AtOrBelow(new' + a, new' + b) <==> AtOrBelow(a, b)
  {
    PrefixOfConcat(new', a + "/", b);
    assert new' + (a + "/") == new' + a + "/";
    if a != b { OneCut("", new', a, b, 0); }
    assert a[0..] == a && b[0..] == b;
  }

  /** A row that stays lies above a moved one exactly if it lies above the old parent; after the rewrite, exactly if it
      lies above the new one. */
  lemma StayerAboveMissed(nodes: Nodes, id: Id, newParent: Id, newName: string, newPath: string, a: Id, b: Id)
    requires CanRewrite(nodes, id, newParent, newName, newPath) && MissesItself(nodes[id])
    requires Live(nodes, a) && !Selected(nodes, nodes[id].path, a) && Live(nodes, b)
             && Selected(nodes, nodes[id].path, b)
    ensures Live(nodes, nodes[id].parentID.value)
    ensures AtOrBelow(nodes[a].path, nodes[b].path) <==> AtOrBelow(nodes[a].path, nodes[nodes[id].parentID.value].path)
    ensures AtOrBelow(nodes[a].path, newPath + nodes[b].path) <==> AtOrBelow(nodes[a].path, nodes[newParent].path)
    ensures RewriteNodes(nodes, id, newParent, newName, newPath)[b].path == newPath + nodes[b].path
    ensures AtOrBelow(newPath, newPath + nodes[b].path) && Rooted(newPath + nodes[b].path)
  {
    var q, x, y := QueryPrefix(nodes[id].path), nodes[a].path, nodes[b].path;
    QueryOfNode(nodes, id);
    MissedSelection(nodes, id);
    SelectedPath(nodes, id, newParent, newName, newPath, b);
    assert y[0..] == y;
    LiveIsRooted(nodes, a);
    LiveIsRooted(nodes, b);
    LiveIsRooted(nodes, newParent);
    NothingBelowFreePath(nodes, newPath);
    AtOrBelowChild(x, nodes[newParent].path, newName);
    assert !LiveAt(nodes, a, newPath);
    hide CanRewrite, QueryPrefix, Rooted, Selected, AtOrBelow, Linked, RewriteSubtreePath, IsBlank, EndsInSpace,
         ChildPath, CleanSegment;
    AboveByWay(x, nodes[nodes[id].parentID.value].path, q, y);
    AboveByWay(x, nodes[newParent].path, newPath, newPath + y);
  }

  /** Of paths not at or below `way`, those above something in it are those above what it hangs below. */
  lemma AboveByWay(x: string, parent: string, way: string, y: string)
    requires Rooted(x) && Rooted(parent) && Rooted(way) && Rooted(y)
    requires AtOrBelow(way, y) && !AtOrBelow(way, x) && (AtOrBelow(x, way) <==> x == way || AtOrBelow(x, parent))
    requires AtOrBelow(parent, way)
    ensures AtOrBelow(x, y) <==> AtOrBelow(x, parent)
  {
    assert AtOrBelow(way, way);
    hide AtOrBelow, Rooted;
    if AtOrBelow(x, y) { Comparable(x, way, y); }
    if AtOrBelow(x, parent) { AtOrBelowTransitive(x, way, y); }
  }

  /** For a name that is not all white space: one row lies above another after the rewrite exactly if it did before,
      unless the other is moved, the one is not, and they come below another parent that is not itself moved. */
  lemma SelectedContainment(nodes: Nodes, id: Id, newParent: Id, newName: string, newPath: string, a: Id, b: Id)
    requires CanRewrite(nodes, id, newParent, newName, newPath) && !IsBlank(nodes[id].name)
    requires Live(nodes, a) && Live(nodes, b)
    requires Selected(nodes, nodes[id].path, a) || !Selected(nodes, nodes[id].path, b)
             || nodes[id].parentID == Some(newParent) || Selected(nodes, nodes[id].path, newParent)
    ensures
      var after := RewriteNodes(nodes, id, newParent, newName, newPath);
      AtOrBelow(after[a].path, after[b].path) <==> AtOrBelow(nodes[a].path, nodes[b].path)
  {
    if MissesItself(nodes[id]) {
      MissedContainment(nodes, id, newParent, newName, newPath, a, b);
    } else {
      QueryOfNode(nodes, id);
      TidySelection(nodes, id);
      ContainmentIsKept(nodes, id, newParent, newName, newPath, a, b);
    }
  }

  lemma MissedContainment(nodes: Nodes, id: Id, newParent: Id, newName: string, newPath: string, a: Id, b: Id)
    requires CanRewrite(nodes, id, newParent, newName, newPath) && MissesItself(nodes[id])
    requires Live(nodes, a) && Live(nodes, b)
    requires Selected(nodes, nodes[id].path, a) || !Selected(nodes, nodes[id].path, b)
             || nodes[id].parentID == Some(newParent) || Selected(nodes, nodes[id].path, newParent)
    ensures
      var after := RewriteNodes(nodes, id, newParent, newName, newPath);
      AtOrBelow(after[a].path, after[b].path) <==> AtOrBelow(nodes[a].path, nodes[b].path)
  {
    var p, q := nodes[id].path, QueryPrefix(nodes[id].path);
    LinkedOf(nodes, id, newParent, newName, newPath);
    MissedSelection(nodes, id);
    LiveIsRooted(nodes, a);
    LiveIsRooted(nodes, b);
    if Selected(nodes, p, a) {
      SelectedPath(nodes, id, newParent, newName, newPath, a);
      assert nodes[a].path[0..] == nodes[a].path;
      if Selected(nodes, p, b) {
        SelectedPath(nodes, id, newParent, newName, newPath, b);
        assert nodes[b].path[0..] == nodes[b].path;
        hide CanRewrite, Selected, AtOrBelow, Linked, Rooted, QueryPrefix, EndsInSpace, IsBlank, RewriteSubtreePath;
        LiftedPrefix(newPath, nodes[a].path, nodes[b].path);
      } else {
        NothingBelowFreePath(nodes, newPath);
        hide CanRewrite, Selected, AtOrBelow, Linked, Rooted, QueryPrefix, EndsInSpace, IsBlank, RewriteSubtreePath;
        if AtOrBelow(nodes[a].path, nodes[b].path) { AtOrBelowTransitive(q, nodes[a].path, nodes[b].path); }
        if AtOrBelow(newPath + nodes[a].path, nodes[b].path) {
          AtOrBelowTransitive(newPath, newPath + nodes[a].path, nodes[b].path);
        }
      }
    } else if Selected(nodes, p, b) {
      StayerAboveMissed(nodes, id, newParent, newName, newPath, a, b);
      if Selected(nodes, p, newParent) {
        StayerAboveMissed(nodes, id, newParent, newName, newPath, a, newParent);
      }
      hide CanRewrite, AtOrBelow, Linked, Rooted, QueryPrefix, EndsInSpace, IsBlank, RewriteSubtreePath,
           MatchesPrefixQuery;
    }
  }

  lemma LinkedOf(nodes: Nodes, id: Id, newParent: Id, newName: string, newPath: string)
    requires CanRewrite(nodes, id, newParent, newName, newPath)
    ensures Linked(nodes) && Live(nodes, id) && nodes[id].parentID.Some? && Live(nodes, newParent)
  {
  }

  // ---- Moving back ----------------------------------------------------------------------------

  /** Rewriting back to the old parent and name is possible, and restores the table row by row. */
  lemma RewriteBackRestores(nodes: Nodes, id: Id, newParent: Id, newName: string, newPath: string)
    requires CanRewrite(nodes, id, newParent, newName, newPath)
    requires Tidy(nodes[id].path) && Tidy(newPath)
    ensures
      var after := RewriteNodes(nodes, id, newParent, newName, newPath);
      var oldParent, oldName, oldPath := nodes[id].parentID.value, nodes[id].name, nodes[id].path;
      && CanRewrite(after, id, oldParent, oldName, oldPath)
      && RewriteNodes(after, id, oldParent, oldName, oldPath) == nodes
  {
    var after := RewriteNodes(nodes, id, newParent, newName, newPath);
    var oldParent, oldName, oldPath := nodes[id].parentID.value, nodes[id].name, nodes[id].path;
    CanRewriteBack(nodes, id, newParent, newName, newPath);
    MovedRootPath(nodes, id, newParent, newName, newPath);
    forall k | k in nodes
      ensures nodes[k] == if Moves(after, id, k) then RewrittenNode(after, id, oldParent, oldName, oldPath, k)
                          else after[k]
    {
      RowIsRestored(nodes, after, id, newParent, newName, newPath, k);
    }
    TidyRewrite(after, id, oldParent, oldName, oldPath);
    assert after.Keys == nodes.Keys;
  }

  lemma MovedRootPath(nodes: Nodes, id: Id, newParent: Id, newName: string, newPath: string)
    requires CanRewrite(nodes, id, newParent, newName, newPath) && Tidy(nodes[id].path)
    ensures
      var after := RewriteNodes(nodes, id, newParent, newName, newPath);
      after[id].path == newPath && after[id].parentID == Some(newParent) && after[id].name == newName
  {
    LiveIsRooted(nodes, id);
    TidyRewrite(nodes, id, newParent, newName, newPath);
  }

  lemma CanRewriteBack(nodes: Nodes, id: Id, newParent: Id, newName: string, newPath: string)
    requires CanRewrite(nodes, id, newParent, newName, newPath) && Tidy(nodes[id].path)
    ensures CanRewrite(RewriteNodes(nodes, id, newParent, newName, newPath), id,
                       nodes[id].parentID.value, nodes[id].name, nodes[id].path)
  {
    var after := RewriteNodes(nodes, id, newParent, newName, newPath);
    var oldParent, oldPath := nodes[id].parentID.value, nodes[id].path;
    RewriteKeepsLinked(nodes, id, newParent, newName, newPath);
    MovedRootPath(nodes, id, newParent, newName, newPath);
    TidyRewrite(nodes, id, newParent, newName, newPath);
    assert NodeOk(nodes, id) && NodeOk(nodes, oldParent);
    ParentIsShorter(nodes, id);
    ShorterIsNotBelow(oldPath, nodes[oldParent].path);
    assert after[oldParent] == nodes[oldParent];
    MovedPath(nodes, id, newParent, newName, newPath, id);
    NothingBelowFreePath(nodes, newPath);
    forall k ensures !LiveAt(after, k, oldPath) {
      if Live(after, k) && Moves(nodes, id, k) {
        MovedPathIsNew(nodes, id, newParent, newName, newPath, k, id);
      }
    }
  }

  lemma ShorterIsNotBelow(a: string, b: string)
    requires Rooted(a) && Rooted(b) && |b| < |a|
    ensures !AtOrBelow(a, b)
  {
  }

  lemma RowIsRestored(nodes: Nodes, after: Nodes, id: Id, newParent: Id, newName: string, newPath: string, k: Id)
    requires CanRewrite(nodes, id, newParent, newName, newPath) && Tidy(nodes[id].path)
    requires after == RewriteNodes(nodes, id, newParent, newName, newPath) && k in nodes
    requires CanRewrite(after, id, nodes[id].parentID.value, nodes[id].name, nodes[id].path)
    ensures
      var oldParent, oldName, oldPath := nodes[id].parentID.value, nodes[id].name, nodes[id].path;
      nodes[k] == if Moves(after, id, k) then RewrittenNode(after, id, oldParent, oldName, oldPath, k)
                  else after[k]
  {
    var oldParent, oldName, oldPath := nodes[id].parentID.value, nodes[id].name, nodes[id].path;
    TidyRewrite(nodes, id, newParent, newName, newPath);
    if Live(nodes, k) {
      if Moves(nodes, id, k) {
        MovedPath(nodes, id, newParent, newName, newPath, k);
        MovedPath(after, id, oldParent, oldName, oldPath, k);
        assert after[k].path[|newPath|..] == nodes[k].path[|oldPath|..];
      } else {
        NothingBelowFreePath(nodes, newPath) by { MovedPath(nodes, id, newParent, newName, newPath, id); }
      }
    }
  }
}
