/** Directory chains: walking down a path, creating or adjusting one directory row for each segment. */
module DirChains {
  import opened Common
  import opened Paths
  import opened Store
  import opened Tree
  import opened Repositories

  /** What a service wants of the directories on its way: which rows it refuses, how it adjusts an existing
      row at a path, and the row it creates below a parent. */
  datatype Policy = Policy(refuses: (Id, Node, string) -> bool, adjust: (Node, string) -> Node,
                           create: (Id, Node, string, string) -> Node)

  /** Adjusting keeps the place of a row, creating puts it where it belongs; both leave directories that
      the policy accepts as they are. */
  ghost predicate Sound(p: Policy) {
    && (forall n: Node, path: string :: IsDirectory(n) ==> AdjustsWell(p, n, path))
    && (forall id: Id, n: Node, path: string :: !p.refuses(id, n, path) ==> !p.refuses(id, p.adjust(n, path), path))
    && (forall id: Id, n: Node, seg: string, path: string :: CreatesWell(p, id, n, seg, path))
  }

  ghost predicate AdjustsWell(p: Policy, n: Node, path: string) {
    var u := p.adjust(n, path);
    && IsDirectory(u) && u.kind != Root && u.parentID == n.parentID && u.name == n.name && u.path == n.path
    && u.isDeleted == n.isDeleted && u.mountID == n.mountID && p.adjust(u, path) == u
  }

  ghost predicate CreatesWell(p: Policy, id: Id, n: Node, seg: string, path: string) {
    var c := p.create(id, n, seg, path);
    && IsDirectory(c) && c.kind != Root && c.parentID == Some(id) && c.name == seg && c.path == path && !c.isDeleted
    && p.adjust(c, path) == c && forall k: Id :: !p.refuses(k, c, path)
  }

  ghost function RowAt(nodes: Nodes, path: string): Option<Id>
    ensures RowAt(nodes, path).Some? ==> LiveAt(nodes, RowAt(nodes, path).value, path)
    ensures RowAt(nodes, path).None? ==> forall k :: !LiveAt(nodes, k, path)
  {
    if k :| LiveAt(nodes, k, path) then Some(k) else None
  }

  lemma RowAtIs(nodes: Nodes, k: Id, path: string)
    requires DistinctPaths(nodes) && LiveAt(nodes, k, path)
    ensures RowAt(nodes, path) == Some(k)
  {
  }

  predicate Unfit(p: Policy, id: Id, n: Node, path: string) {
    !IsDirectory(n) || p.refuses(id, n, path)
  }

  /** One segment: the tables and the directory reached, or `None` where the service gives up. */
  ghost function EnsureDir(p: Policy, nodes: Nodes, parent: Id, seg: string): Option<(Nodes, Id)>
    requires parent in nodes
  {
    var path := ChildPath(nodes[parent].path, seg);
    match RowAt(nodes, path)
    case Some(k) =>
      if Unfit(p, k, nodes[k], path) then None else Some((nodes[k := p.adjust(nodes[k], path)], k))
    case None =>
      var id := FreshId(nodes);
      Some((nodes[id := p.create(parent, nodes[parent], seg, path)], id))
  }

  ghost function Chain(p: Policy, nodes: Nodes, parent: Id, segs: seq<string>): Option<(Nodes, Id)>
    requires parent in nodes
    decreases |segs|
  {
    if segs == [] then Some((nodes, parent))
    else
      match EnsureDir(p, nodes, parent, segs[0])
      case None => None
      case Some(step) => if step.1 in step.0 then Chain(p, step.0, step.1, segs[1..]) else None
  }

  /** The path reached below `path` by the segments. */
  function PathBelow(path: string, segs: seq<string>): string
    decreases |segs|
  {
    if segs == [] then path else PathBelow(ChildPath(path, segs[0]), segs[1..])
  }

  // ---- One segment ----------------------------------------------------------------------------

  /** A directory the walk may stand on. */
  ghost predicate Standing(p: Policy, nodes: Nodes, parent: Id) {
    Sound(p) && Linked(nodes) && Live(nodes, parent) && IsDirectory(nodes[parent])
  }

  /** What one segment changes: the row at its path, if any, is adjusted, or one row is new. */
  ghost predicate OneDir(p: Policy, nodes: Nodes, parent: Id, seg: string, nodes': Nodes, id: Id)
    requires parent in nodes
  {
    var path := ChildPath(nodes[parent].path, seg);
    && id in nodes' && nodes' == nodes[id := nodes'[id]] && LiveAt(nodes', id, path)
    && nodes'[id].parentID == Some(parent)
    && IsDirectory(nodes'[id]) && !p.refuses(id, nodes'[id], path) && p.adjust(nodes'[id], path) == nodes'[id]
    && (id in nodes ==> LiveAt(nodes, id, path) && nodes'[id].mountID == nodes[id].mountID
                        && nodes'[id].parentID == nodes[id].parentID)
    && id != parent
  }

  lemma EnsureDirIsOneDir(p: Policy, nodes: Nodes, parent: Id, seg: string)
    requires Standing(p, nodes, parent) && CleanSegment(seg)
    ensures EnsureDir(p, nodes, parent, seg).Some? ==>
              var step := EnsureDir(p, nodes, parent, seg).value;
              && OneDir(p, nodes, parent, seg, step.0, step.1) && Standing(p, step.0, step.1)
              && (WellFormed(nodes) ==> WellFormed(step.0))
  {
    var path := ChildPath(nodes[parent].path, seg);
    assert NodeOk(nodes, parent);
    ChildPathShape(nodes[parent].path, seg);
    match RowAt(nodes, path)
    case Some(k) =>
      if !Unfit(p, k, nodes[k], path) {
        ChildAtPath(nodes, parent, k, seg);
        assert AdjustsWell(p, nodes[k], path);
        KeepsPlace(p, nodes, parent, k, p.adjust(nodes[k], path));
      }
    case None =>
      var id := FreshId(nodes);
      assert CreatesWell(p, parent, nodes[parent], seg, path);
      KeepsPlace(p, nodes, parent, id, p.create(parent, nodes[parent], seg, path));
  }

  lemma KeepsPlace(p: Policy, nodes: Nodes, parent: Id, id: Id, row: Node)
    requires Standing(p, nodes, parent) && IsChildRow(nodes, parent, row) && UpsertTarget(nodes, id, row.path)
    requires IsDirectory(row) && CleanSegment(row.name)
    ensures Standing(p, nodes[id := row], id)
    ensures WellFormed(nodes) ==> WellFormed(nodes[id := row])
  {
    hide Sound, NodeOk, Linked, CleanSegment;
    PutChildKeepsLinked(nodes, parent, id, row);
    if WellFormed(nodes) { PutChildKeepsWellFormed(nodes, parent, id, row); }
  }

  // ---- The whole chain ------------------------------------------------------------------------

  /** Rows change only on the way: strictly below the start and at or above the end. */
  ghost predicate OnlyOnTheWay(nodes: Nodes, nodes': Nodes, from: string, to: string) {
    && nodes.Keys <= nodes'.Keys
    && (forall k | k in nodes' && (k !in nodes || nodes'[k] != nodes[k]) ::
          && Live(nodes', k) && |nodes'[k].path| > |from| && AtOrBelow(nodes'[k].path, to)
          && (k in nodes ==> Live(nodes, k) && nodes'[k].path == nodes[k].path
                             && nodes'[k].parentID == nodes[k].parentID
                             && nodes'[k].mountID == nodes[k].mountID))
  }

  /** Every directory of the chain stands as the policy wants it. */
  ghost predicate Settled(p: Policy, nodes: Nodes, path: string, segs: seq<string>)
    decreases |segs|
  {
    segs == [] ||
    (var next := ChildPath(path, segs[0]);
     && (exists k :: LiveAt(nodes, k, next) && !Unfit(p, k, nodes[k], next) && p.adjust(nodes[k], next) == nodes[k])
     && Settled(p, nodes, next, segs[1..]))
  }

  lemma PathBelowShape(path: string, segs: seq<string>)
    requires Rooted(path) && CleanSegments(segs)
    ensures Rooted(PathBelow(path, segs)) && |path| <= |PathBelow(path, segs)| && AtOrBelow(path, PathBelow(path, segs))
    decreases |segs|
  {
    if segs != [] {
      ChildPathShape(path, segs[0]);
      PathBelowShape(ChildPath(path, segs[0]), segs[1..]);
      AtOrBelowChild(path, path, segs[0]);
      AtOrBelowTransitive(path, ChildPath(path, segs[0]), PathBelow(path, segs));
    }
  }

  /** Rows at paths no longer than the start do not matter to a settled chain. */
  lemma SettledSurvives(p: Policy, nodes: Nodes, nodes': Nodes, path: string, segs: seq<string>)
    requires Settled(p, nodes, path, segs) && Rooted(path) && CleanSegments(segs)
    requires forall k | Live(nodes, k) && |nodes[k].path| > |path| :: k in nodes' && nodes'[k] == nodes[k]
    ensures Settled(p, nodes', path, segs)
    decreases |segs|
  {
    if segs != [] {
      var next := ChildPath(path, segs[0]);
      ChildPathShape(path, segs[0]);
      var k :| LiveAt(nodes, k, next) && !Unfit(p, k, nodes[k], next) && p.adjust(nodes[k], next) == nodes[k];
      assert LiveAt(nodes', k, next);
      SettledSurvives(p, nodes, nodes', next, segs[1..]);
    }
  }

  lemma StandsOn(p: Policy, nodes: Nodes, parent: Id)
    requires Standing(p, nodes, parent)
    ensures Live(nodes, parent) && Rooted(nodes[parent].path) && DistinctPaths(nodes)
  {
    assert NodeOk(nodes, parent);
  }

  /** Walking down keeps the tree, changes rows only on the way, and ends with every directory settled. */
  lemma {:induction false} ChainKeeps(p: Policy, nodes: Nodes, parent: Id, segs: seq<string>)
    requires Standing(p, nodes, parent) && CleanSegments(segs)
    ensures Chain(p, nodes, parent, segs).Some? ==>
              var (nodes', last) := Chain(p, nodes, parent, segs).value;
              var path := nodes[parent].path;
              && Standing(p, nodes', last) && LiveAt(nodes', last, PathBelow(path, segs))
              && OnlyOnTheWay(nodes, nodes', path, PathBelow(path, segs))
              && Settled(p, nodes', path, segs)
              && (WellFormed(nodes) ==> WellFormed(nodes'))
    decreases |segs|
  {
    hide Standing, EnsureDir, OnlyOnTheWay, Settled, NodeOk, Rooted, CleanSegment, Unfit, WellFormed, Linked, ChildPath,
         DistinctPaths;
    StandsOn(p, nodes, parent);
    var path := nodes[parent].path;
    if segs == [] {
      NothingOnTheWay(p, nodes, path);
    } else if EnsureDir(p, nodes, parent, segs[0]).Some? {
      var (mid, k) := EnsureDir(p, nodes, parent, segs[0]).value;
      EnsureDirIsOneDir(p, nodes, parent, segs[0]);
      ChildPathShape(path, segs[0]);
      ChainKeeps(p, mid, k, segs[1..]);
      if Chain(p, mid, k, segs[1..]).Some? {
        var (nodes', last) := Chain(p, mid, k, segs[1..]).value;
        WayJoins(p, nodes, parent, segs, mid, k, nodes');
      }
    }
  }

  lemma NothingOnTheWay(p: Policy, nodes: Nodes, path: string)
    requires Rooted(path)
    ensures OnlyOnTheWay(nodes, nodes, path, path) && Settled(p, nodes, path, []) && PathBelow(path, []) == path
  {
  }

  lemma WayJoins(p: Policy, nodes: Nodes, parent: Id, segs: seq<string>, mid: Nodes, k: Id, nodes': Nodes)
    requires segs != [] && CleanSegments(segs) && Live(nodes, parent) && Rooted(nodes[parent].path)
    requires OneDir(p, nodes, parent, segs[0], mid, k)
    requires
      var next := ChildPath(nodes[parent].path, segs[0]);
      && OnlyOnTheWay(mid, nodes', next, PathBelow(next, segs[1..]))
      && Settled(p, nodes', next, segs[1..])
    ensures OnlyOnTheWay(nodes, nodes', nodes[parent].path, PathBelow(nodes[parent].path, segs))
    ensures Settled(p, nodes', nodes[parent].path, segs)
  {
    var path := nodes[parent].path;
    var next := ChildPath(path, segs[0]);
    ChildPathShape(path, segs[0]);
    PathBelowShape(next, segs[1..]);
    var to := PathBelow(path, segs);
    hide ChildPath, PathBelow, Rooted, CleanSegments, Settled, AtOrBelow;
    assert k in nodes' && nodes'[k] == mid[k];
    StepOnTheWay(p, nodes, parent, segs[0], mid, k, nodes', to);
    assert LiveAt(nodes', k, next) && !Unfit(p, k, nodes'[k], next) && p.adjust(nodes'[k], next) == nodes'[k];
    SettledOneMore(p, nodes', path, segs, k);
  }

  lemma SettledOneMore(p: Policy, nodes: Nodes, path: string, segs: seq<string>, k: Id)
    requires segs != [] && Settled(p, nodes, ChildPath(path, segs[0]), segs[1..])
    requires LiveAt(nodes, k, ChildPath(path, segs[0])) && !Unfit(p, k, nodes[k], ChildPath(path, segs[0]))
    requires p.adjust(nodes[k], ChildPath(path, segs[0])) == nodes[k]
    ensures Settled(p, nodes, path, segs)
  {
  }

  lemma StepOnTheWay(p: Policy, nodes: Nodes, parent: Id, seg: string, mid: Nodes, k: Id, nodes': Nodes, to: string)
    requires Live(nodes, parent) && OneDir(p, nodes, parent, seg, mid, k)
    requires OnlyOnTheWay(mid, nodes', ChildPath(nodes[parent].path, seg), to)
    requires |nodes[parent].path| < |ChildPath(nodes[parent].path, seg)|
             && AtOrBelow(ChildPath(nodes[parent].path, seg), to)
    ensures OnlyOnTheWay(nodes, nodes', nodes[parent].path, to)
  {
    hide ChildPath, AtOrBelow;
    var next := ChildPath(nodes[parent].path, seg);
    assert nodes'[k] == mid[k];
    assert forall j: Id | j != k :: (j in mid <==> j in nodes) && (j in mid ==> mid[j] == nodes[j]);
  }

  /** Walking down a settled chain changes nothing. */
  lemma {:induction false} SettledChainStands(p: Policy, nodes: Nodes, parent: Id, segs: seq<string>, last: Id)
    requires Standing(p, nodes, parent) && CleanSegments(segs)
    requires Settled(p, nodes, nodes[parent].path, segs) && LiveAt(nodes, last, PathBelow(nodes[parent].path, segs))
    ensures Chain(p, nodes, parent, segs) == Some((nodes, last))
    decreases |segs|
  {
    if segs != [] {
      var next := ChildPath(nodes[parent].path, segs[0]);
      var k :| LiveAt(nodes, k, next) && !Unfit(p, k, nodes[k], next) && p.adjust(nodes[k], next) == nodes[k];
      RowAtIs(nodes, k, next);
      assert nodes[k := nodes[k]] == nodes;
      assert EnsureDir(p, nodes, parent, segs[0]) == Some((nodes, k));
      SettledChainStands(p, nodes, k, segs[1..], last);
    }
  }

  // ---- When the walk fails --------------------------------------------------------------------

  /** Some row on the way is not a directory, or one the policy refuses. */
  ghost predicate Blocked(p: Policy, nodes: Nodes, path: string, segs: seq<string>)
    decreases |segs|
  {
    segs != [] &&
    (var next := ChildPath(path, segs[0]);
     || (exists k :: LiveAt(nodes, k, next) && Unfit(p, k, nodes[k], next))
     || Blocked(p, nodes, next, segs[1..]))
  }

  lemma {:induction false} BlockedIgnoresShorter(p: Policy, nodes: Nodes, nodes': Nodes, path: string,
                                                 segs: seq<string>)
    requires Rooted(path) && CleanSegments(segs)
    requires forall k: Id | Live(nodes, k) && |nodes[k].path| > |path| :: k in nodes' && nodes'[k] == nodes[k]
    requires forall k: Id | Live(nodes', k) && |nodes'[k].path| > |path| :: k in nodes && nodes'[k] == nodes[k]
    ensures Blocked(p, nodes', path, segs) <==> Blocked(p, nodes, path, segs)
    decreases |segs|
  {
    if segs != [] {
      var next := ChildPath(path, segs[0]);
      ChildPathShape(path, segs[0]);
      BlockedIgnoresShorter(p, nodes, nodes', next, segs[1..]);
      hide ChildPath, Rooted, CleanSegments, Blocked, Unfit;
      forall k: Id ensures LiveAt(nodes, k, next) && Unfit(p, k, nodes[k], next)
        <==> LiveAt(nodes', k, next) && Unfit(p, k, nodes'[k], next) {
      }
    }
  }

  /** The walk gives up exactly when some row of the original table is in its way. */
  lemma {:induction false} ChainFailsIffBlocked(p: Policy, nodes: Nodes, parent: Id, segs: seq<string>)
    requires Standing(p, nodes, parent) && CleanSegments(segs)
    ensures Chain(p, nodes, parent, segs).None? <==> Blocked(p, nodes, nodes[parent].path, segs)
    decreases |segs|
  {
    hide Standing, EnsureDir, NodeOk, Unfit, ChildPath, Rooted, WellFormed, Linked, CleanSegment, DistinctPaths;
    StandsOn(p, nodes, parent);
    if segs != [] {
      var path := nodes[parent].path;
      var next := ChildPath(path, segs[0]);
      ChildPathShape(path, segs[0]);
      EnsureDirIsOneDir(p, nodes, parent, segs[0]);
      FailsHere(p, nodes, parent, segs[0]);
      if EnsureDir(p, nodes, parent, segs[0]).Some? {
        var (mid, k) := EnsureDir(p, nodes, parent, segs[0]).value;
        ChainFailsIffBlocked(p, mid, k, segs[1..]);
        BlockedBelow(p, nodes, parent, segs, mid, k);
      }
    }
  }

  /** What one segment changes is not in the way of the others. */
  lemma BlockedBelow(p: Policy, nodes: Nodes, parent: Id, segs: seq<string>, mid: Nodes, k: Id)
    requires segs != [] && CleanSegments(segs) && parent in nodes && Rooted(nodes[parent].path)
    requires OneDir(p, nodes, parent, segs[0], mid, k)
    ensures
      var next := ChildPath(nodes[parent].path, segs[0]);
      k in mid && mid[k].path == next && (Blocked(p, mid, next, segs[1..]) <==> Blocked(p, nodes, next, segs[1..]))
  {
    var next := ChildPath(nodes[parent].path, segs[0]);
    ChildPathShape(nodes[parent].path, segs[0]);
    hide ChildPath, Rooted, Unfit, Blocked;
    assert forall j: Id | j != k :: j in mid <==> j in nodes;
    BlockedIgnoresShorter(p, nodes, mid, next, segs[1..]);
  }

  lemma FailsHere(p: Policy, nodes: Nodes, parent: Id, seg: string)
    requires DistinctPaths(nodes) && parent in nodes
    ensures
      var next := ChildPath(nodes[parent].path, seg);
      EnsureDir(p, nodes, parent, seg).None? <==> exists k :: LiveAt(nodes, k, next) && Unfit(p, k, nodes[k], next)
  {
    var next := ChildPath(nodes[parent].path, seg);
    if k :| LiveAt(nodes, k, next) { RowAtIs(nodes, k, next); }
  }

  // ---- Paths ----------------------------------------------------------------------------------

  /** Below the root the segments of a path lead to the path. */
  lemma {:induction false} PathBelowRoot(done: seq<string>, segs: seq<string>)
    requires CleanSegments(done + segs)
    ensures PathBelow(Render(done), segs) == Render(done + segs)
    decreases |segs|
  {
    if segs == [] {
      assert done + segs == done;
    } else {
      var all := done + segs;
      assert all[|done|] == segs[0];
      assert forall i | 0 <= i < |done| :: all[i] == done[i];
      SegmentsOfRender(done);
      JoinIsRender(Render(done), segs[0]);
      ChildPathIsJoin(Render(done), segs[0]);
      assert done + segs == done + [segs[0]] + segs[1..];
      PathBelowRoot(done + [segs[0]], segs[1..]);
    }
  }

  /** In a settled chain every path on the way has a fitting directory. */
  lemma {:induction false} SettledAt(p: Policy, nodes: Nodes, path: string, segs: seq<string>, n: nat)
    requires Settled(p, nodes, path, segs) && 0 < n <= |segs|
    ensures exists k :: LiveAt(nodes, k, PathBelow(path, segs[..n])) && IsDirectory(nodes[k])
                        && p.adjust(nodes[k], PathBelow(path, segs[..n])) == nodes[k]
    decreases |segs|
  {
    var next := ChildPath(path, segs[0]);
    assert segs[..n][0] == segs[0] && segs[..n][1..] == segs[1..][..n - 1];
    if n == 1 {
      assert PathBelow(path, segs[..n]) == PathBelow(next, []) == next;
    } else {
      SettledAt(p, nodes, next, segs[1..], n - 1);
    }
  }

  lemma CanonicalIsRooted(path: string)
    requires IsCanonical(path)
    ensures Rooted(path)
  {
    CanonicalSegments(path);
    assert [] + Segments(path) == Segments(path);
    PathBelowRoot([], Segments(path));
    PathBelowShape("/", Segments(path));
  }
}
