/** Source mounts: the mount table, and the node each mount hangs on. */
module MountSync {
  import opened Common
  import opened Paths
  import opened Store
  import opened Tree
  import opened Repositories
  import opened DirChains
  import opened Commit
  import MetadataVfs
  import Mounts

  /** A row of `vfs_mounts`. */
  datatype MountRow = MountRow(sourceID: Id, nodeID: Id, mountPath: string, rootLocator: Json, isEnabled: bool)

  type MountRows = map<Id, MountRow>

  // ---- The mount table ------------------------------------------------------------------------

  /** The unique indexes of the mount table. */
  ghost predicate UniqueMounts(mounts: MountRows) {
    forall a, b | a in mounts && b in mounts && a != b ::
      mounts[a].mountPath != mounts[b].mountPath && mounts[a].nodeID != mounts[b].nodeID
  }

  /** No source has two enabled mounts. */
  ghost predicate OneEnabledMount(mounts: MountRows) {
    forall a, b | a in mounts && b in mounts && mounts[a].isEnabled && mounts[b].isEnabled
                  && mounts[a].sourceID == mounts[b].sourceID :: a == b
  }

  /** `id` is the row an upsert by mount path writes. */
  predicate MountTarget(mounts: MountRows, id: Id, mountPath: string) {
    if id in mounts then mounts[id].mountPath == mountPath
    else forall m | m in mounts :: mounts[m].mountPath != mountPath
  }

  predicate NodeIsFree(mounts: MountRows, id: Id, nodeID: Id) {
    forall m | m in mounts && m != id :: mounts[m].nodeID != nodeID
  }

  /** Rows of the source other than the kept one, disabled. */
  predicate IsDropped(row: MountRow, sourceID: Id, keep: string) {
    row.sourceID == sourceID && row.mountPath != keep
  }

  function DisabledMounts(mounts: MountRows, sourceID: Id, keep: string): MountRows {
    map m | m in mounts :: if IsDropped(mounts[m], sourceID, keep) then mounts[m].(isEnabled := false) else mounts[m]
  }

  /** The live nodes of dropped mounts become stale. */
  function StaleNodes(nodes: Nodes, mounts: MountRows, sourceID: Id, keep: string): Nodes {
    map k | k in nodes ::
      if Live(nodes, k) && exists m | m in mounts :: IsDropped(mounts[m], sourceID, keep) && mounts[m].nodeID == k
      then nodes[k].(syncState := Stale) else nodes[k]
  }

  /** The mount path is not another source's enabled mount. */
  predicate PathReusable(mounts: MountRows, sourceID: Id, mountPath: string) {
    forall m | m in mounts && mounts[m].mountPath == mountPath :: mounts[m].sourceID == sourceID || !mounts[m].isEnabled
  }

  /** A node of another source may be taken over unless that source's mount on it is enabled. */
  predicate NodeReusable(mounts: MountRows, nodeID: Id, sourceID: Id) {
    forall m | m in mounts && mounts[m].nodeID == nodeID :: mounts[m].sourceID == sourceID || !mounts[m].isEnabled
  }

  ghost function MountOn(mounts: MountRows, nodeID: Id): Option<Id> {
    if m :| m in mounts && mounts[m].nodeID == nodeID then Some(m) else None
  }

  /** `findMountForSyncTarget`: the mount a node names, or for a mount node that names none the mount that hangs on
      it. */
  ghost function MountOfTarget(mounts: MountRows, id: Id, target: Node): Option<Id> {
    if target.mountID.Some? then (if target.mountID.value in mounts then target.mountID else None)
    else if target.kind == Mount then MountOn(mounts, id)
    else None
  }

  /** The mount path a refresh of this row finds in the mount table. */
  ghost function MountPathFor(mounts: MountRows, id: Id, target: Node): Option<string> {
    match MountOfTarget(mounts, id, target)
    case Some(m) => if m in mounts then Some(mounts[m].mountPath) else None
    case None => None
  }

  // ---- The mount node -------------------------------------------------------------------------

  function WantedKind(path: string, mountPath: string): Kind { if path == mountPath then Mount else VirtualDir }

  function WantedSource(path: string, mountPath: string, sourceID: Id): Option<Id> {
    if path == mountPath then Some(sourceID) else None
  }

  predicate MountNeedsUpdate(n: Node, kind: Kind, sourceID: Option<Id>) {
    n.kind != kind || n.sourceID != sourceID || n.syncState != Indexed
  }

  function MountPolicy(sourceID: Id, mountPath: string, mounts: MountRows): Policy {
    Policy((id: Id, n: Node, path: string) =>
             path == mountPath && n.kind == Mount && n.sourceID.Some? && n.sourceID != Some(sourceID)
             && !NodeReusable(mounts, id, sourceID),
           (n: Node, path: string) =>
             var kind, source := WantedKind(path, mountPath), WantedSource(path, mountPath, sourceID);
             if MountNeedsUpdate(n, kind, source)
             then n.(kind := kind, sourceID := source, syncState := Indexed, mimeType := "inode/directory") else n,
           (id: Id, parent: Node, seg: string, path: string) =>
             Node(Some(id), seg, path, WantedKind(path, mountPath), None, None, WantedSource(path, mountPath, sourceID),
                  None, None, 0, "inode/directory", "", "", Indexed, false))
  }

  lemma MountPolicyIsSound(sourceID: Id, mountPath: string, mounts: MountRows)
    ensures Sound(MountPolicy(sourceID, mountPath, mounts))
  {
    hide NodeReusable;
  }

  /** `ensureMountRoot`. */
  ghost function RootedNodes(nodes: Nodes): (Nodes, Id) {
    match RowAt(nodes, "/")
    case Some(k) => (nodes, k)
    case None => (nodes[FreshId(nodes) := MetadataVfs.RootNode()], FreshId(nodes))
  }

  /** `ensureSourceMountNode`. */
  ghost function MountPrepared(nodes: Nodes, mounts: MountRows, sourceID: Id, mountPath: string): Option<(Nodes, Id)> {
    var (start, root) := RootedNodes(nodes);
    if root !in start then None
    else if mountPath == "/" then Some((start[root := start[root].(sourceID := Some(sourceID), syncState := Indexed)],
                                        root))
    else Chain(MountPolicy(sourceID, mountPath, mounts), start, root, Segments(mountPath))
  }

  lemma RootedStands(nodes: Nodes, p: Policy)
    requires Ready(nodes) && Sound(p)
    ensures var (start, root) := RootedNodes(nodes);
            Standing(p, start, root) && LiveAt(start, root, "/") && nodes.Keys <= start.Keys
            && (forall k | k in nodes :: start[k] == nodes[k]) && (WellFormedOrEmpty(nodes) ==> WellFormed(start))
  {
    hide Sound;
    match RowAt(nodes, "/")
    case Some(k) =>
      assert NodeOk(nodes, k);
    case None =>
      RootStands(nodes, FreshId(nodes), p);
  }

  /** The mount node is live at the mount path, a mount of the source (the root keeps its kind). */
  lemma MountNodeStands(nodes: Nodes, mounts: MountRows, sourceID: Id, mountPath: string)
    requires Ready(nodes) && IsCanonical(mountPath) && MountPrepared(nodes, mounts, sourceID, mountPath).Some?
    ensures
      var (mid, node) := MountPrepared(nodes, mounts, sourceID, mountPath).value;
      && Linked(mid) && LiveAt(mid, node, mountPath) && mid[node].sourceID == Some(sourceID)
      && mid[node].syncState == Indexed && (mid[node].kind == Mount || mountPath == "/") && nodes.Keys <= mid.Keys
      && (WellFormedOrEmpty(nodes) ==> WellFormed(mid))
  {
    var p := MountPolicy(sourceID, mountPath, mounts);
    MountPolicyIsSound(sourceID, mountPath, mounts);
    RootedStands(nodes, p);
    var (start, root) := RootedNodes(nodes);
    if mountPath == "/" {
      hide Sound, NodeOk;
      RootKeepsPlace(start, root, sourceID);
    } else {
      RootOrSlashed(mountPath);
      CanonicalSegments(mountPath);
      var segs := Segments(mountPath);
      assert [] + segs == segs;
      PathBelowRoot([], segs);
      hide Segments, IsCanonical, Standing, MountPolicy, Settled, Sound, Render, WellFormed, WellFormedOrEmpty;
      ChainKeeps(p, start, root, segs);
      StandingShape(p, MountPrepared(nodes, mounts, sourceID, mountPath).value.0,
                    MountPrepared(nodes, mounts, sourceID, mountPath).value.1);
      SettledAt(p, MountPrepared(nodes, mounts, sourceID, mountPath).value.0, "/", segs, |segs|);
      assert segs[..|segs|] == segs;
      EndIsMount(nodes, mounts, sourceID, mountPath);
    }
  }

  /** The walk to the mount node leaves every live row at its place, naming the mount it named. */
  lemma WalkKeepsRows(nodes: Nodes, mounts: MountRows, sourceID: Id, mountPath: string)
    requires Ready(nodes) && IsCanonical(mountPath) && MountPrepared(nodes, mounts, sourceID, mountPath).Some?
    ensures
      var mid := MountPrepared(nodes, mounts, sourceID, mountPath).value.0;
      forall k | Live(nodes, k) :: Live(mid, k) && mid[k].path == nodes[k].path && mid[k].mountID == nodes[k].mountID
  {
    var p := MountPolicy(sourceID, mountPath, mounts);
    MountPolicyIsSound(sourceID, mountPath, mounts);
    RootedStands(nodes, p);
    var (start, root) := RootedNodes(nodes);
    if mountPath != "/" {
      CanonicalSegments(mountPath);
      hide Segments, IsCanonical, Standing, MountPolicy, Settled, Sound, Render, WellFormed, WellFormedOrEmpty;
      ChainKeeps(p, start, root, Segments(mountPath));
    }
  }

  lemma StandingShape(p: Policy, nodes: Nodes, k: Id)
    requires Standing(p, nodes, k)
    ensures Linked(nodes) && Live(nodes, k)
  {
  }

  lemma EndIsMount(nodes: Nodes, mounts: MountRows, sourceID: Id, mountPath: string)
    requires mountPath != "/" && MountPrepared(nodes, mounts, sourceID, mountPath).Some?
    requires
      var (mid, node) := MountPrepared(nodes, mounts, sourceID, mountPath).value;
      var p := MountPolicy(sourceID, mountPath, mounts);
      && Linked(mid) && LiveAt(mid, node, mountPath)
      && exists k :: LiveAt(mid, k, mountPath) && IsDirectory(mid[k]) && p.adjust(mid[k], mountPath) == mid[k]
    ensures
      var (mid, node) := MountPrepared(nodes, mounts, sourceID, mountPath).value;
      mid[node].sourceID == Some(sourceID) && mid[node].syncState == Indexed && mid[node].kind == Mount
  {
    hide MountPrepared, NodeOk;
    var (mid, node) := MountPrepared(nodes, mounts, sourceID, mountPath).value;
    var p := MountPolicy(sourceID, mountPath, mounts);
    var k :| LiveAt(mid, k, mountPath) && IsDirectory(mid[k]) && p.adjust(mid[k], mountPath) == mid[k];
    assert k == node;
  }

  lemma RootKeepsPlace(nodes: Nodes, root: Id, sourceID: Id)
    requires Linked(nodes) && LiveAt(nodes, root, "/")
    ensures Linked(nodes[root := nodes[root].(sourceID := Some(sourceID), syncState := Indexed)])
    ensures WellFormed(nodes) ==> WellFormed(nodes[root :=
                                                   nodes[root].(sourceID := Some(sourceID), syncState := Indexed)])
  {
    PlaceKept(nodes, nodes[root := nodes[root].(sourceID := Some(sourceID), syncState := Indexed)]);
  }

  /** Rows that keep their place and kind keep the tree. */
  lemma PlaceKept(nodes: Nodes, nodes': Nodes)
    requires Linked(nodes) && nodes'.Keys == nodes.Keys
    requires forall k | k in nodes ::
             nodes'[k] == nodes[k].(sourceID := nodes'[k].sourceID, mountID := nodes'[k].mountID,
                                                             syncState := nodes'[k].syncState)
    ensures Linked(nodes') && (WellFormed(nodes) ==> WellFormed(nodes'))
  {
    var root :| Live(nodes, root) && nodes[root].parentID == None;
    assert Live(nodes', root) && nodes'[root].parentID == None;
    assert forall k: Id :: Live(nodes', k) <==> Live(nodes, k);
    forall k: Id | Live(nodes', k) ensures NodeOk(nodes', k) {
      assert NodeOk(nodes, k);
    }
    hide NodeOk;
    assert forall a: Id | Live(nodes', a) :: nodes'[a].path == nodes[a].path;
  }

  // ---- The effect of a sync -------------------------------------------------------------------

  function MountNodeRow(n: Node, mountID: Id): Node {
    n.(mountID := Some(mountID), syncState := Indexed)
  }

  /** `SyncSourceMount` went through for the mount path, with node and mount row. */
  ghost predicate Synced(nodes: Nodes, mounts: MountRows, nodes': Nodes, mounts': MountRows, sourceID: Id,
                         enabled: bool,
                         mountPath: string, locator: Json, node: Id, mountID: Id) {
    && PathReusable(mounts, sourceID, mountPath) && MountPrepared(nodes, mounts, sourceID, mountPath).Some?
    && var (mid, n) := MountPrepared(nodes, mounts, sourceID, mountPath).value;
       && n == node && node in mid && MountTarget(mounts, mountID, mountPath) && NodeIsFree(mounts, mountID, node)
       && var rows := mounts[mountID := MountRow(sourceID, node, mountPath, locator, enabled)];
          && mounts' == DisabledMounts(rows, sourceID, mountPath)
          && nodes' == StaleNodes(mid[node := MountNodeRow(mid[node], mountID)], rows, sourceID, mountPath)
  }

  lemma StaleKeepsTree(nodes: Nodes, mounts: MountRows, sourceID: Id, keep: string)
    requires Linked(nodes)
    ensures Linked(StaleNodes(nodes, mounts, sourceID, keep))
    ensures WellFormed(nodes) ==> WellFormed(StaleNodes(nodes, mounts, sourceID, keep))
  {
    hide WellFormed, Linked;
    PlaceKept(nodes, StaleNodes(nodes, mounts, sourceID, keep));
  }

  lemma MountNodeRowKeepsTree(nodes: Nodes, node: Id, mountID: Id)
    requires Linked(nodes) && node in nodes
    ensures Linked(nodes[node := MountNodeRow(nodes[node], mountID)])
    ensures WellFormed(nodes) ==> WellFormed(nodes[node := MountNodeRow(nodes[node], mountID)])
  {
    hide WellFormed, Linked;
    PlaceKept(nodes, nodes[node := MountNodeRow(nodes[node], mountID)]);
  }

  /** After a sync: the tree stands, the mount node names its mount, and among the mounts of the source only
      this one can be enabled. */
  lemma SyncKeepsTheTables(nodes: Nodes, mounts: MountRows, nodes': Nodes, mounts': MountRows, sourceID: Id,
                           enabled: bool,
                           mountPath: string, locator: Json, node: Id, mountID: Id)
    requires Ready(nodes) && IsCanonical(mountPath) && UniqueMounts(mounts) && OneEnabledMount(mounts)
    requires Synced(nodes, mounts, nodes', mounts', sourceID, enabled, mountPath, locator, node, mountID)
    ensures Linked(nodes') && UniqueMounts(mounts') && OneEnabledMount(mounts')
    ensures WellFormedOrEmpty(nodes) ==> WellFormed(nodes')
    ensures LiveAt(nodes', node, mountPath) && nodes'[node].sourceID == Some(sourceID)
            && nodes'[node].mountID == Some(mountID)
    ensures nodes'[node].syncState == Indexed && (nodes'[node].kind == Mount || mountPath == "/")
    ensures mountID in mounts' && mounts'[mountID] == MountRow(sourceID, node, mountPath, locator, enabled)
    ensures forall m | m in mounts' && mounts'[m].sourceID == sourceID && mounts'[m].isEnabled :: m == mountID
  {
    hide MountPrepared, IsCanonical, WellFormed, Linked, WellFormedOrEmpty, Ready, PathReusable, StaleNodes,
         DisabledMounts, UniqueMounts, OneEnabledMount;
    MountNodeStands(nodes, mounts, sourceID, mountPath);
    var (mid, n) := MountPrepared(nodes, mounts, sourceID, mountPath).value;
    var row := MountRow(sourceID, node, mountPath, locator, enabled);
    MountRowsAfter(mounts, sourceID, mountPath, mountID, row);
    MountNodeRowKeepsTree(mid, node, mountID);
    StaleKeepsTree(mid[node := MountNodeRow(mid[node], mountID)], mounts[mountID := row], sourceID, mountPath);
    KeptNodeIsNotStale(mid[node := MountNodeRow(mid[node], mountID)], mounts[mountID := row], sourceID, mountPath,
                       mountID);
  }

  lemma MountRowsAfter(mounts: MountRows, sourceID: Id, mountPath: string, mountID: Id, row: MountRow)
    requires UniqueMounts(mounts) && OneEnabledMount(mounts) && MountTarget(mounts, mountID, mountPath)
    requires NodeIsFree(mounts, mountID, row.nodeID) && row.sourceID == sourceID && row.mountPath == mountPath
    ensures
      var rows := mounts[mountID := row];
      var mounts' := DisabledMounts(rows, sourceID, mountPath);
      && UniqueMounts(rows) && UniqueMounts(mounts') && OneEnabledMount(mounts')
      && mountID in mounts' && mounts'[mountID] == row
      && (forall m | m in mounts' && mounts'[m].sourceID == sourceID && mounts'[m].isEnabled :: m == mountID)
  {
    var rows := mounts[mountID := row];
    assert forall m | m in rows && m != mountID :: rows[m].mountPath != mountPath by {
      if mountID in mounts {
        assert forall m | m in mounts && m != mountID :: mounts[m].mountPath != mounts[mountID].mountPath;
      }
    }
  }

  lemma KeptNodeIsNotStale(nodes: Nodes, rows: MountRows, sourceID: Id, keep: string, mountID: Id)
    requires UniqueMounts(rows) && mountID in rows && rows[mountID].mountPath == keep && rows[mountID].nodeID in nodes
    ensures rows[mountID].nodeID in StaleNodes(nodes, rows, sourceID, keep)
    ensures StaleNodes(nodes, rows, sourceID, keep)[rows[mountID].nodeID] == nodes[rows[mountID].nodeID]
  {
    assert forall m | m in rows && IsDropped(rows[m], sourceID, keep) :: m != mountID;
  }

  /** No sync or disabling touches another source's enabled mount. */
  lemma NoTakeover(nodes: Nodes, mounts: MountRows, nodes': Nodes, mounts': MountRows, sourceID: Id, enabled: bool,
                   mountPath: string, locator: Json, node: Id, mountID: Id, m: Id)
    requires Synced(nodes, mounts, nodes', mounts', sourceID, enabled, mountPath, locator, node, mountID)
    requires m in mounts && mounts[m].sourceID != sourceID && mounts[m].isEnabled
    ensures m in mounts' && mounts'[m] == mounts[m]
  {
    hide MountPrepared;
  }

  // ---- Runs -----------------------------------------------------------------------------------

  datatype MountRequest = SyncMount(source: Mounts.Source, locator: Json) | DisableMounts(sourceID: Id)

  datatype MountTables = MountTables(nodes: Nodes, mounts: MountRows)

  /** What a request may do to the tables; an error does nothing. */
  ghost predicate MountStep(t: MountTables, req: MountRequest, t': MountTables) {
    t' == t ||
    match req
    case SyncMount(source, locator) =>
      && NormalizeVirtualPath(source.mountPath).Ok?
      && exists node: Id, mountID: Id ::
           Synced(t.nodes, t.mounts, t'.nodes, t'.mounts, source.id, source.isEnabled,
                  NormalizeVirtualPath(source.mountPath).value, locator, node, mountID)
    case DisableMounts(sourceID) =>
      && t'.mounts == DisabledMounts(t.mounts, sourceID, "")
      && t'.nodes == StaleNodes(t.nodes, t.mounts, sourceID, "")
  }

  ghost predicate MountInv(t: MountTables) {
    Ready(t.nodes) && UniqueMounts(t.mounts) && OneEnabledMount(t.mounts)
  }

  function RequestSource(req: MountRequest): Id {
    match req
    case SyncMount(source, _) => source.id
    case DisableMounts(sourceID) => sourceID
  }

  /** The mount is enabled and belongs to the source. */
  predicate Serves(t: MountTables, m: Id, sourceID: Id) {
    m in t.mounts && t.mounts[m].isEnabled && t.mounts[m].sourceID == sourceID
  }

  lemma MountStepKeeps(t: MountTables, req: MountRequest, t': MountTables)
    requires MountInv(t) && MountStep(t, req, t')
    ensures MountInv(t') && (WellFormedOrEmpty(t.nodes) ==> WellFormedOrEmpty(t'.nodes))
    ensures forall m: Id, s: Id | Serves(t, m, s) && s != RequestSource(req) ::
            m in t'.mounts && t'.mounts[m] == t.mounts[m]
  {
    hide Ready, WellFormed, WellFormedOrEmpty, Linked, MountPrepared, PathReusable;
    if t' != t {
      match req
      case SyncMount(source, locator) =>
        var mountPath := NormalizeVirtualPath(source.mountPath).value;
        var node: Id, mountID: Id :| Synced(t.nodes, t.mounts, t'.nodes, t'.mounts, source.id, source.isEnabled,
                                            mountPath, locator, node, mountID);
        hide Synced, NormalizeVirtualPath, UniqueMounts, OneEnabledMount;
        SyncKeepsTheTables(t.nodes, t.mounts, t'.nodes, t'.mounts, source.id, source.isEnabled, mountPath, locator,
                           node, mountID);
        LinkedIsReady(t'.nodes);
        forall m: Id, s: Id | Serves(t, m, s) && s != source.id ensures m in t'.mounts && t'.mounts[m] == t.mounts[m] {
          NoTakeover(t.nodes, t.mounts, t'.nodes, t'.mounts, source.id, source.isEnabled, mountPath, locator, node,
                     mountID, m);
        }
      case DisableMounts(sourceID) =>
        StaleKeepsReady(t.nodes, t.mounts, sourceID, "");
    }
  }

  lemma LinkedIsReady(nodes: Nodes)
    requires Linked(nodes)
    ensures Ready(nodes) && (WellFormed(nodes) ==> WellFormedOrEmpty(nodes))
  {
  }

  lemma StaleKeepsReady(nodes: Nodes, mounts: MountRows, sourceID: Id, keep: string)
    requires Ready(nodes)
    ensures Ready(StaleNodes(nodes, mounts, sourceID, keep))
    ensures WellFormedOrEmpty(nodes) ==> WellFormedOrEmpty(StaleNodes(nodes, mounts, sourceID, keep))
  {
    if Linked(nodes) {
      StaleKeepsTree(nodes, mounts, sourceID, keep);
    } else {
      assert forall k :: !Live(StaleNodes(nodes, mounts, sourceID, keep), k);
    }
  }

  ghost predicate IsMountRun(states: seq<MountTables>, reqs: seq<MountRequest>) {
    && |states| == |reqs| + 1 && MountInv(states[0])
    && forall i | 0 <= i < |reqs| :: MountStep(states[i], reqs[i], states[i + 1])
  }

  /** In every run each source has at most one enabled mount at any time, and a source's enabled mount
      stays its own until one of its own requests. */
  lemma {:induction false} EveryRunKeepsMounts(states: seq<MountTables>, reqs: seq<MountRequest>, first: nat, last: nat,
                                               m: Id, s: Id)
    requires IsMountRun(states, reqs) && first <= last <= |reqs|
    ensures MountInv(states[last])
    ensures Serves(states[first], m, s) && (forall i | first <= i < last :: RequestSource(reqs[i]) != s) ==>
              m in states[last].mounts && states[last].mounts[m] == states[first].mounts[m]
    decreases last
  {
    hide MountInv, MountStep;
    if last > 0 {
      if first < last {
        EveryRunKeepsMounts(states, reqs, first, last - 1, m, s);
      } else {
        EveryRunKeepsMounts(states, reqs, last - 1, last - 1, m, s);
      }
      MountStepKeeps(states[last - 1], reqs[last - 1], states[last]);
      if first < last && Serves(states[first], m, s) && (forall i | first <= i < last :: RequestSource(reqs[i]) != s) {
        assert Serves(states[last - 1], m, s);
      }
    }
  }
}
