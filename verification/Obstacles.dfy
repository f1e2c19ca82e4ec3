/** What stands in the way of a commit or a mount, row by row. */
module Obstacles {
  import opened Common
  import opened Text
  import opened Paths
  import opened Store
  import opened Tree
  import opened Repositories
  import opened DirChains
  import opened Commit
  import opened CommitService
  import opened MountSync
  import opened MountService
  import Mounts

  // ---- Walking down a path --------------------------------------------------------------------

  /** Row `k` stands on the way, `n` segments down, and the walk does not accept it. */
  ghost predicate StandsAt(p: Policy, nodes: Nodes, path: string, segs: seq<string>, n: nat, k: Id) {
    && 0 < n <= |segs| && LiveAt(nodes, k, PathBelow(path, segs[..n]))
    && Unfit(p, k, nodes[k], PathBelow(path, segs[..n]))
  }

  lemma {:induction false} BlockedBySomeRow(p: Policy, nodes: Nodes, path: string, segs: seq<string>)
    ensures Blocked(p, nodes, path, segs) <==> exists n: nat, k: Id :: StandsAt(p, nodes, path, segs, n, k)
    decreases |segs|
  {
    if segs != [] {
      var next := ChildPath(path, segs[0]);
      BlockedBySomeRow(p, nodes, next, segs[1..]);
      forall n: nat, k: Id ensures StandsAt(p, nodes, path, segs, n, k) <==>
                                   (n == 1 && LiveAt(nodes, k, next) && Unfit(p, k, nodes[k], next))
                                   || (n > 1 && StandsAt(p, nodes, next, segs[1..], n - 1, k))
      {
        OneFurther(path, segs, n);
      }
      hide StandsAt, LiveAt, Unfit, ChildPath;
      if k: Id :| LiveAt(nodes, k, next) && Unfit(p, k, nodes[k], next) { assert StandsAt(p, nodes, path, segs, 1, k); }
      if n: nat, k: Id :| StandsAt(p, nodes, next, segs[1..], n, k) {
        AtLeastOne(p, nodes, next, segs[1..], n, k);
        assert StandsAt(p, nodes, path, segs, n + 1, k);
      }
    }
  }

  lemma AtLeastOne(p: Policy, nodes: Nodes, path: string, segs: seq<string>, n: nat, k: Id)
    requires StandsAt(p, nodes, path, segs, n, k)
    ensures n > 0
  {
  }

  lemma OneFurther(path: string, segs: seq<string>, n: nat)
    requires segs != []
    ensures 0 < n <= |segs| ==> PathBelow(path, segs[..n]) == PathBelow(ChildPath(path, segs[0]), segs[1..][..n - 1])
  {
    if 0 < n <= |segs| { assert segs[..n][0] == segs[0] && segs[..n][1..] == segs[1..][..n - 1]; }
  }

  lemma PlaceOnTheWay(segs: seq<string>, n: nat)
    requires CleanSegments(segs) && n <= |segs|
    ensures PathBelow("/", segs[..n]) == Render(segs[..n])
  {
    assert [] + segs[..n] == segs[..n];
    PathBelowRoot([], segs[..n]);
  }

  // ---- Commits --------------------------------------------------------------------------------

  /** The source owns the directory at this path: it has no mount, or one that encloses it. */
  predicate Owns(source: Option<Mounts.Source>, path: string) {
    || source.None? || TrimSpace(source.value.mountPath) == ""
    || (NormalizeVirtualPath(source.value.mountPath).Ok?
        && IsSubPath(NormalizeVirtualPath(source.value.mountPath).value, path))
  }

  /** A live file on the way, or a directory of another source where this one owns the place. */
  ghost predicate BarsCommit(plan: CommitPlan, nodes: Nodes, n: nat, k: Id) {
    var segs := Segments(plan.virtualParentPath);
    && 0 < n <= |segs| && LiveAt(nodes, k, Render(segs[..n]))
    && (nodes[k].kind == File
        || (nodes[k].sourceID.Some? && nodes[k].sourceID.value != plan.obj.sourceID
            && Owns(plan.source, Render(segs[..n]))))
  }

  /** A commit is refused on its way exactly by such a row. */
  lemma WayBlockedBySomeRow(plan: CommitPlan, nodes: Nodes)
    requires ValidPlan(plan)
    ensures WayBlocked(plan, nodes) <==> exists n: nat, k: Id :: BarsCommit(plan, nodes, n, k)
  {
    var p, segs := CommitPolicy(plan.source, plan.obj.sourceID), Segments(plan.virtualParentPath);
    BlockedBySomeRow(p, nodes, "/", segs);
    PlanSegments(plan);
    hide Segments, Render, PathBelow, IsSubPath, NormalizeVirtualPath, TrimSpace, IsCanonical, Blocked, ValidPlan;
    forall n: nat, k: Id ensures StandsAt(p, nodes, "/", segs, n, k) <==> BarsCommit(plan, nodes, n, k) {
      if n <= |segs| { PlaceOnTheWay(segs, n); }
    }
    hide StandsAt, BarsCommit;
  }

  // ---- Mounts ---------------------------------------------------------------------------------

  /** A live file on the way to the mount path. */
  ghost predicate BarsMount(nodes: Nodes, mountPath: string, n: nat, k: Id) {
    var segs := Segments(mountPath);
    0 < n <= |segs| && LiveAt(nodes, k, Render(segs[..n])) && nodes[k].kind == File
  }

  /** Mount row `m` of another source, enabled, at the path or on the mount node there. */
  predicate HoldsMount(nodes: Nodes, mounts: MountRows, sourceID: Id, mountPath: string, m: Id) {
    && m in mounts && mounts[m].isEnabled && mounts[m].sourceID != sourceID
    && (mounts[m].mountPath == mountPath
        || (mountPath != "/" && LiveAt(nodes, mounts[m].nodeID, mountPath) && nodes[mounts[m].nodeID].kind == Mount
            && nodes[mounts[m].nodeID].sourceID.Some? && nodes[mounts[m].nodeID].sourceID.value != sourceID))
  }

  /** A Mount row of another source stands at the path, and that source's mount on it is enabled. */
  ghost predicate HeldAt(nodes: Nodes, mounts: MountRows, sourceID: Id, mountPath: string, m: Id) {
    && m in mounts && mounts[m].isEnabled && mounts[m].sourceID != sourceID && mountPath != "/"
    && LiveAt(nodes, mounts[m].nodeID, mountPath) && nodes[mounts[m].nodeID].kind == Mount
    && nodes[mounts[m].nodeID].sourceID.Some? && nodes[mounts[m].nodeID].sourceID.value != sourceID
  }

  lemma MountWayBlocked(nodes: Nodes, mounts: MountRows, sourceID: Id, mountPath: string)
    requires IsCanonical(mountPath) && mountPath != "/"
    ensures Blocked(MountPolicy(sourceID, mountPath, mounts), nodes, "/", Segments(mountPath)) <==>
              || (exists n: nat, k: Id :: BarsMount(nodes, mountPath, n, k))
              || (exists m: Id :: HeldAt(nodes, mounts, sourceID, mountPath, m))
  {
    var p, segs := MountPolicy(sourceID, mountPath, mounts), Segments(mountPath);
    BlockedBySomeRow(p, nodes, "/", segs);
    CanonicalSegments(mountPath);
    hide Segments, Render, PathBelow, IsCanonical, Blocked;
    assert segs[..|segs|] == segs && Render(segs) == mountPath;
    forall n: nat, k: Id ensures StandsAt(p, nodes, "/", segs, n, k) <==>
                                 || BarsMount(nodes, mountPath, n, k)
                                 || (&& 0 < n <= |segs| && LiveAt(nodes, k, mountPath)
                                     && Render(segs[..n]) == mountPath && nodes[k].kind == Mount
                                     && nodes[k].sourceID.Some? && nodes[k].sourceID.value != sourceID
                                     && !NodeReusable(mounts, k, sourceID))
    {
      if n <= |segs| { PlaceOnTheWay(segs, n); }
    }
    hide StandsAt, BarsMount;
    if m: Id :| HeldAt(nodes, mounts, sourceID, mountPath, m) {
      assert StandsAt(p, nodes, "/", segs, |segs|, mounts[m].nodeID);
    }
    if k: Id :| LiveAt(nodes, k, mountPath) && nodes[k].kind == Mount && nodes[k].sourceID.Some?
                && nodes[k].sourceID.value != sourceID && !NodeReusable(mounts, k, sourceID) {
      var m: Id :| m in mounts && mounts[m].nodeID == k && mounts[m].sourceID != sourceID && mounts[m].isEnabled;
      assert HeldAt(nodes, mounts, sourceID, mountPath, m);
    }
  }

  lemma MountWayFails(nodes: Nodes, mounts: MountRows, sourceID: Id, mountPath: string)
    requires Ready(nodes) && IsCanonical(mountPath) && mountPath != "/"
    ensures MountPrepared(nodes, mounts, sourceID, mountPath).None? <==>
              Blocked(MountPolicy(sourceID, mountPath, mounts), nodes, "/", Segments(mountPath))
  {
    var p, segs := MountPolicy(sourceID, mountPath, mounts), Segments(mountPath);
    MountPolicyIsSound(sourceID, mountPath, mounts);
    RootedStands(nodes, p);
    OnlyTheRootIsNew(nodes);
    var (start, root) := RootedNodes(nodes);
    CanonicalSegments(mountPath);
    hide Segments, MountPolicy, Standing, Blocked, Ready, IsCanonical, WellFormed, WellFormedOrEmpty, Linked,
         CleanSegments, RootedNodes;
    BlockedIgnoresShorter(p, nodes, start, "/", segs);
    ChainFailsIffBlocked(p, start, root, segs);
    StandingLive(p, start, root);
  }

  lemma StandingLive(p: Policy, nodes: Nodes, k: Id)
    requires Standing(p, nodes, k)
    ensures k in nodes
  {
  }

  lemma OnlyTheRootIsNew(nodes: Nodes)
    requires Ready(nodes)
    ensures
      var (start, root) := RootedNodes(nodes);
      && root in start && (root in nodes ==> LiveAt(nodes, root, "/") && start == nodes)
      && (root !in nodes ==> start == nodes[root := start[root]] && start[root].path == "/")
      && (forall k: Id | Live(start, k) && |start[k].path| > 1 :: k in nodes && start[k] == nodes[k])
  {
    hide Ready;
  }

  /** The mount node is the live row at the mount path, or a new one if there is none. */
  lemma MountNodeIs(nodes: Nodes, mounts: MountRows, sourceID: Id, mountPath: string)
    requires Ready(nodes) && IsCanonical(mountPath) && MountPrepared(nodes, mounts, sourceID, mountPath).Some?
    ensures
      var node := MountPrepared(nodes, mounts, sourceID, mountPath).value.1;
      && (node in nodes ==> LiveAt(nodes, node, mountPath))
      && (forall k | LiveAt(nodes, k, mountPath) :: k == node)
  {
    var p := MountPolicy(sourceID, mountPath, mounts);
    MountPolicyIsSound(sourceID, mountPath, mounts);
    RootedStands(nodes, p);
    OnlyTheRootIsNew(nodes);
    MountNodeStands(nodes, mounts, sourceID, mountPath);
    WalkKeepsRows(nodes, mounts, sourceID, mountPath);
    var (start, root) := RootedNodes(nodes);
    var (mid, node) := MountPrepared(nodes, mounts, sourceID, mountPath).value;
    DistinctOf(mid);
    if mountPath != "/" {
      CanonicalSegments(mountPath);
      hide Segments, IsCanonical, Standing, MountPolicy, Settled, Sound, Render, WellFormed, WellFormedOrEmpty, Linked,
           Ready, RootedNodes, CleanSegments, PathBelow, AtOrBelow, DistinctPaths;
      ChainKeeps(p, start, root, Segments(mountPath));
      RootIsShorter(mountPath);
    }
  }

  lemma RootIsShorter(path: string)
    requires IsCanonical(path) && path != "/"
    ensures |path| > 1
  {
    CanonicalIsRooted(path);
  }

  /** With every mount hanging on a stored node, a source may be mounted at a path if and only if no other source holds
      it, no file stands on the way, and the node there carries no other mount. */
  lemma MayMountIffNothingBars(nodes: Nodes, mounts: MountRows, sourceID: Id, mountPath: string)
    requires Ready(nodes) && IsCanonical(mountPath) && forall m | m in mounts :: mounts[m].nodeID in nodes
    ensures MayMount(nodes, mounts, sourceID, mountPath) <==>
              && (forall m: Id :: !HoldsMount(nodes, mounts, sourceID, mountPath, m))
              && (forall n: nat, k: Id :: !BarsMount(nodes, mountPath, n, k))
              && (forall m | m in mounts && mounts[m].mountPath != mountPath ::
                    !LiveAt(nodes, mounts[m].nodeID, mountPath))
  {
    NodeIsFreeIff(nodes, mounts, sourceID, mountPath);
    WayIsFreeIff(nodes, mounts, sourceID, mountPath);
    hide *;
    HoldersAre(nodes, mounts, sourceID, mountPath);
    MayMountIs(nodes, mounts, sourceID, mountPath);
  }

  lemma MayMountIs(nodes: Nodes, mounts: MountRows, sourceID: Id, mountPath: string)
    ensures MayMount(nodes, mounts, sourceID, mountPath) <==>
              && PathReusable(mounts, sourceID, mountPath) && MountPrepared(nodes, mounts, sourceID, mountPath).Some?
              && OwnNode(nodes, mounts, sourceID, mountPath)
  {
    hide MountPrepared, PathReusable;
  }

  /** The node of the walk carries no mount with another path. */
  ghost predicate OwnNode(nodes: Nodes, mounts: MountRows, sourceID: Id, mountPath: string) {
    MountPrepared(nodes, mounts, sourceID, mountPath).Some? ==>
      forall m | m in mounts && mounts[m].mountPath != mountPath ::
        mounts[m].nodeID != MountPrepared(nodes, mounts, sourceID, mountPath).value.1
  }

  lemma NodeIsFreeIff(nodes: Nodes, mounts: MountRows, sourceID: Id, mountPath: string)
    requires Ready(nodes) && IsCanonical(mountPath) && forall m | m in mounts :: mounts[m].nodeID in nodes
    ensures MountPrepared(nodes, mounts, sourceID, mountPath).Some? ==>
              (OwnNode(nodes, mounts, sourceID, mountPath) <==>
                 forall m | m in mounts && mounts[m].mountPath != mountPath ::
                   !LiveAt(nodes, mounts[m].nodeID, mountPath))
  {
    hide MountPrepared, IsCanonical, Ready, LiveAt;
    if MountPrepared(nodes, mounts, sourceID, mountPath).Some? {
      MountNodeIs(nodes, mounts, sourceID, mountPath);
    }
  }

  lemma HoldersAre(nodes: Nodes, mounts: MountRows, sourceID: Id, mountPath: string)
    ensures (forall m: Id :: !HoldsMount(nodes, mounts, sourceID, mountPath, m)) <==>
              PathReusable(mounts, sourceID, mountPath)
              && forall m: Id :: !HeldAt(nodes, mounts, sourceID, mountPath, m)
  {
    hide LiveAt;
    forall m: Id ensures HoldsMount(nodes, mounts, sourceID, mountPath, m) <==>
                         || HeldAt(nodes, mounts, sourceID, mountPath, m)
                         || (m in mounts && mounts[m].isEnabled && mounts[m].sourceID != sourceID
                             && mounts[m].mountPath == mountPath)
    {
    }
    hide HoldsMount, HeldAt;
  }

  lemma WayIsFreeIff(nodes: Nodes, mounts: MountRows, sourceID: Id, mountPath: string)
    requires Ready(nodes) && IsCanonical(mountPath)
    ensures MountPrepared(nodes, mounts, sourceID, mountPath).Some? <==>
              && (forall n: nat, k: Id :: !BarsMount(nodes, mountPath, n, k))
              && (forall m: Id :: !HeldAt(nodes, mounts, sourceID, mountPath, m))
  {
    hide MountPrepared, BarsMount, IsCanonical, Ready, Blocked, MountPolicy, LiveAt;
    if mountPath == "/" {
      RootMayBeMounted(nodes, mounts, sourceID);
    } else {
      MountWayFails(nodes, mounts, sourceID, mountPath);
      MountWayBlocked(nodes, mounts, sourceID, mountPath);
    }
  }

  lemma RootMayBeMounted(nodes: Nodes, mounts: MountRows, sourceID: Id)
    requires Ready(nodes)
    ensures MountPrepared(nodes, mounts, sourceID, "/").Some?
    ensures forall n: nat, k: Id :: !BarsMount(nodes, "/", n, k)
  {
    OnlyTheRootIsNew(nodes);
    SegmentsOfRender([]);
    hide Ready;
  }

  // ---- What a mount leaves --------------------------------------------------------------------

  /** The other mounts of the source are disabled and nothing else about any other mount changes. */
  lemma SyncMountRows(nodes: Nodes, mounts: MountRows, nodes': Nodes, mounts': MountRows, sourceID: Id, enabled: bool,
                      mountPath: string, locator: Json, node: Id, mountID: Id)
    requires Ready(nodes) && IsCanonical(mountPath) && UniqueMounts(mounts)
    requires Synced(nodes, mounts, nodes', mounts', sourceID, enabled, mountPath, locator, node, mountID)
    ensures mounts'.Keys == mounts.Keys + {mountID}
    ensures forall m | m in mounts && m != mountID ::
              mounts'[m] == if mounts[m].sourceID == sourceID then mounts[m].(isEnabled := false) else mounts[m]
    ensures mountID in mounts' && mounts'[mountID] == MountRow(sourceID, node, mountPath, locator, enabled)
  {
    hide MountPrepared, IsCanonical, Ready, PathReusable, StaleNodes;
    if mountID in mounts {
      assert forall m | m in mounts && m != mountID :: mounts[m].mountPath != mounts[mountID].mountPath;
    }
  }

  /** Every mount goes on hanging on a stored node. */
  lemma SyncKeepsNodes(nodes: Nodes, mounts: MountRows, nodes': Nodes, mounts': MountRows, sourceID: Id, enabled: bool,
                       mountPath: string, locator: Json, node: Id, mountID: Id)
    requires Ready(nodes) && IsCanonical(mountPath) && UniqueMounts(mounts)
    requires Synced(nodes, mounts, nodes', mounts', sourceID, enabled, mountPath, locator, node, mountID)
    requires forall m | m in mounts :: mounts[m].nodeID in nodes
    ensures forall m | m in mounts' :: mounts'[m].nodeID in nodes'
  {
    MountNodeStands(nodes, mounts, sourceID, mountPath);
    SyncMountRows(nodes, mounts, nodes', mounts', sourceID, enabled, mountPath, locator, node, mountID);
    hide MountPrepared, IsCanonical, Ready, PathReusable, WellFormed, WellFormedOrEmpty, Linked, LiveAt, UniqueMounts,
         DisabledMounts, NodeIsFree, MountTarget;
  }

  /** Row `k` carries a mount of the source other than the given one. */
  predicate CarriesOther(mounts: MountRows, sourceID: Id, mountPath: string, k: Id) {
    exists m | m in mounts :: mounts[m].nodeID == k && mounts[m].sourceID == sourceID
                              && mounts[m].mountPath != mountPath
  }

  /** Off the way to the mount path only the nodes of the source's other mounts change, and they become stale. */
  lemma SyncLeavesTheRest(nodes: Nodes, mounts: MountRows, nodes': Nodes, mounts': MountRows, sourceID: Id,
                          enabled: bool, mountPath: string, locator: Json, node: Id, mountID: Id, k: Id)
    requires Ready(nodes) && IsCanonical(mountPath) && UniqueMounts(mounts)
    requires Synced(nodes, mounts, nodes', mounts', sourceID, enabled, mountPath, locator, node, mountID)
    requires k in nodes && (Live(nodes, k) ==> !AtOrBelow(nodes[k].path, mountPath))
    ensures k in nodes' && nodes'[k] == if Live(nodes, k) && CarriesOther(mounts, sourceID, mountPath, k)
                                        then nodes[k].(syncState := Stale) else nodes[k]
  {
    MountNodeIs(nodes, mounts, sourceID, mountPath);
    OffTheWay(nodes, mounts, sourceID, mountPath, k);
    OnItself(mountPath);
    hide MountPrepared, IsCanonical, Ready, PathReusable, AtOrBelow;
    var (mid, n) := MountPrepared(nodes, mounts, sourceID, mountPath).value;
    var rows := mounts[mountID := MountRow(sourceID, node, mountPath, locator, enabled)];
    StaleOrNot(mid[node := MountNodeRow(mid[node], mountID)], mounts, rows, sourceID, mountPath, mountID, k);
  }

  lemma StaleOrNot(nodes: Nodes, mounts: MountRows, rows: MountRows, sourceID: Id, mountPath: string, mountID: Id,
                   k: Id)
    requires k in nodes && rows.Keys == mounts.Keys + {mountID} && rows[mountID].mountPath == mountPath
    requires mountID in mounts ==> mounts[mountID].mountPath == mountPath
    requires forall m | m in mounts && m != mountID :: rows[m] == mounts[m]
    ensures StaleNodes(nodes, rows, sourceID, mountPath)[k] ==
            if Live(nodes, k) && CarriesOther(mounts, sourceID, mountPath, k)
            then nodes[k].(syncState := Stale) else nodes[k]
  {
    if m :| m in mounts && mounts[m].nodeID == k && mounts[m].sourceID == sourceID && mounts[m].mountPath != mountPath {
      assert m in rows && IsDropped(rows[m], sourceID, mountPath) && rows[m].nodeID == k;
    }
  }

  lemma OnItself(path: string)
    requires IsCanonical(path)
    ensures AtOrBelow(path, path)
  {
  }

  lemma OffTheWay(nodes: Nodes, mounts: MountRows, sourceID: Id, mountPath: string, k: Id)
    requires Ready(nodes) && IsCanonical(mountPath) && MountPrepared(nodes, mounts, sourceID, mountPath).Some?
    requires k in nodes && (Live(nodes, k) ==> !AtOrBelow(nodes[k].path, mountPath))
    ensures
      var mid := MountPrepared(nodes, mounts, sourceID, mountPath).value.0;
      k in mid && mid[k] == nodes[k]
  {
    var p := MountPolicy(sourceID, mountPath, mounts);
    MountPolicyIsSound(sourceID, mountPath, mounts);
    RootedStands(nodes, p);
    OnlyTheRootIsNew(nodes);
    CanonicalIsRooted(mountPath);
    CanonicalSegments(mountPath);
    PlaceOnTheWay(Segments(mountPath), |Segments(mountPath)|);
    assert Segments(mountPath)[..|Segments(mountPath)|] == Segments(mountPath);
    var (start, root) := RootedNodes(nodes);
    assert AtOrBelow("/", mountPath);
    if mountPath != "/" {
      hide Segments, IsCanonical, Standing, MountPolicy, Settled, Sound, Render, WellFormed, WellFormedOrEmpty, Linked,
           Ready, RootedNodes, CleanSegments, PathBelow, AtOrBelow;
      ChainKeeps(p, start, root, Segments(mountPath));
    }
  }

  /** Above the mount stand virtual directories without a source. */
  lemma SyncSettlesTheAncestors(nodes: Nodes, mounts: MountRows, nodes': Nodes, mounts': MountRows, sourceID: Id,
                                enabled: bool, mountPath: string, locator: Json, node: Id, mountID: Id, n: nat)
    requires Ready(nodes) && IsCanonical(mountPath) && UniqueMounts(mounts)
    requires Synced(nodes, mounts, nodes', mounts', sourceID, enabled, mountPath, locator, node, mountID)
    requires 0 < n < |Segments(mountPath)|
    ensures exists k ::
              && LiveAt(nodes', k, Render(Segments(mountPath)[..n]))
              && nodes'[k].kind == VirtualDir && nodes'[k].sourceID == None
              && (nodes'[k].syncState == Indexed || nodes'[k].syncState == Stale)
  {
    MountNodeStands(nodes, mounts, sourceID, mountPath);
    AncestorsSettled(nodes, mounts, sourceID, mountPath, n);
    StatesOnly(nodes, mounts, nodes', mounts', sourceID, enabled, mountPath, locator, node, mountID);
    var path := Render(Segments(mountPath)[..n]);
    hide MountPrepared, IsCanonical, Ready, Segments, Render, WellFormed, WellFormedOrEmpty, Linked, Synced;
    var mid := MountPrepared(nodes, mounts, sourceID, mountPath).value.0;
    var k :| && LiveAt(mid, k, path) && mid[k].kind == VirtualDir && mid[k].sourceID == None
             && mid[k].syncState == Indexed;
    assert LiveAt(nodes', k, path);
  }

  /** After the walk a sync changes nothing but sync states and the mount of the mount node. */
  lemma StatesOnly(nodes: Nodes, mounts: MountRows, nodes': Nodes, mounts': MountRows, sourceID: Id,
                   enabled: bool, mountPath: string, locator: Json, node: Id, mountID: Id)
    requires Synced(nodes, mounts, nodes', mounts', sourceID, enabled, mountPath, locator, node, mountID)
    ensures
      var mid := MountPrepared(nodes, mounts, sourceID, mountPath).value.0;
      forall k | k in mid ::
        && k in nodes' && nodes'[k] == mid[k].(mountID := nodes'[k].mountID, syncState := nodes'[k].syncState)
        && (mid[k].syncState == Indexed ==> nodes'[k].syncState == Indexed || nodes'[k].syncState == Stale)
  {
    hide MountPrepared, PathReusable, IsDropped;
  }

  lemma AncestorsSettled(nodes: Nodes, mounts: MountRows, sourceID: Id, mountPath: string, n: nat)
    requires Ready(nodes) && IsCanonical(mountPath) && MountPrepared(nodes, mounts, sourceID, mountPath).Some?
    requires 0 < n < |Segments(mountPath)|
    ensures
      var mid := MountPrepared(nodes, mounts, sourceID, mountPath).value.0;
      exists k ::
        && LiveAt(mid, k, Render(Segments(mountPath)[..n])) && mid[k].kind == VirtualDir
        && mid[k].sourceID == None && mid[k].syncState == Indexed
  {
    var p, segs := MountPolicy(sourceID, mountPath, mounts), Segments(mountPath);
    MountPolicyIsSound(sourceID, mountPath, mounts);
    RootedStands(nodes, p);
    var (start, root) := RootedNodes(nodes);
    CanonicalSegments(mountPath);
    RootHasNoSegments(mountPath);
    PlaceOnTheWay(segs, n);
    ShorterPlace(segs, n);
    hide Segments, IsCanonical, Standing, MountPolicy, Settled, Sound, Render, WellFormed, WellFormedOrEmpty, Linked,
         Ready, RootedNodes, CleanSegments, PathBelow, AtOrBelow;
    ChainKeeps(p, start, root, segs);
    SettledAt(p, MountPrepared(nodes, mounts, sourceID, mountPath).value.0, "/", segs, n);
    SettledAbove(sourceID, mountPath, mounts, Render(segs[..n]));
  }

  lemma RootHasNoSegments(path: string)
    requires IsCanonical(path) && |Segments(path)| > 0
    ensures path != "/"
  {
    SegmentsOfRender([]);
  }

  lemma ShorterPlace(segs: seq<string>, n: nat)
    requires CleanSegments(segs) && n < |segs|
    ensures Render(segs[..n]) != Render(segs)
  {
    assert CleanSegments(segs[..n]);
    SegmentsOfRender(segs);
    SegmentsOfRender(segs[..n]);
  }

  lemma SettledAbove(sourceID: Id, mountPath: string, mounts: MountRows, path: string)
    requires path != mountPath
    ensures forall n: Node | MountPolicy(sourceID, mountPath, mounts).adjust(n, path) == n ::
              n.kind == VirtualDir && n.sourceID == None && n.syncState == Indexed
  {
    hide NodeReusable;
  }

  // ---- The services ---------------------------------------------------------------------------

  /** `SyncSourceMount`, with its success in terms of the tables. */
  method SyncUnbarred(service: MetadataVFSMountService, source: Mounts.Source) returns (r: Result<(Id, Id)>)
    requires Ready(service.store.nodes) && UniqueMounts(service.table.mounts)
    requires forall m | m in service.table.mounts :: service.table.mounts[m].nodeID in service.store.nodes
    modifies service.store`nodes, service.table
    ensures r.Ok? <==>
              && source.id != 0 && NormalizeVirtualPath(source.mountPath).Ok?
              && NormalizeVirtualPath(source.rootPath).Ok?
              && var mountPath := NormalizeVirtualPath(source.mountPath).value;
                 && (forall m: Id :: !HoldsMount(old(service.store.nodes), old(service.table.mounts), source.id,
                                                 mountPath, m))
                 && (forall n: nat, k: Id :: !BarsMount(old(service.store.nodes), mountPath, n, k))
                 && (forall m | m in old(service.table.mounts) && old(service.table.mounts)[m].mountPath != mountPath ::
                       !LiveAt(old(service.store.nodes), old(service.table.mounts)[m].nodeID, mountPath))
    ensures forall m | m in service.table.mounts :: service.table.mounts[m].nodeID in service.store.nodes
    ensures r.Err? ==> service.store.nodes == old(service.store.nodes)
                       && service.table.mounts == old(service.table.mounts)
  {
    hide MayMount, Ready, UniqueMounts, Synced, PathReusable, HoldsMount, BarsMount, LiveAt, NormalizeVirtualPath,
         IsCanonical;
    ghost var nodes, mounts := service.store.nodes, service.table.mounts;
    if NormalizeVirtualPath(source.mountPath).Ok? {
      MayMountIffNothingBars(nodes, mounts, source.id, NormalizeVirtualPath(source.mountPath).value);
    }
    r := service.SyncSourceMount(source);
    if r.Ok? {
      var mountPath, rootPath := NormalizeVirtualPath(source.mountPath).value,
        NormalizeVirtualPath(source.rootPath).value;
      SyncKeepsNodes(nodes, mounts, service.store.nodes, service.table.mounts, source.id, source.isEnabled, mountPath,
                     service.rootLocator(source, mountPath, rootPath), r.value.0, r.value.1);
    }
  }
}
