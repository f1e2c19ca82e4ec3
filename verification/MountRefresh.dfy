/** Mounts and refreshes: a refresh leaves the nodes of mounts alone. */
module MountRefresh {
  import opened Common
  import opened Paths
  import opened Store
  import opened Tree
  import opened Repositories
  import opened Listing
  import opened RefreshSpec
  import opened RefreshKinds
  import opened MountSync

  /** A refresh, of whatever directory, leaves the node of every mount as it was whose row is still a mount, a virtual
      directory or the root, unless that row is the target itself or listed more than once. */
  lemma MountNodesStay(nodes: Nodes, objects: Objects, nodes': Nodes, objects': Objects, ctx: Context,
                       entries: seq<RemoteEntry>, r: RefreshResult, mounts: MountRows)
    requires Linked(nodes) && Live(nodes, ctx.targetID) && ctx.target == nodes[ctx.targetID]
    requires Refreshed(nodes, objects, nodes', objects', ctx, entries, r)
    ensures nodes.Keys <= nodes'.Keys
    ensures forall m | m in mounts && Live(nodes, mounts[m].nodeID) && mounts[m].nodeID != ctx.targetID
                       && nodes[mounts[m].nodeID].kind in {Mount, VirtualDir, Root}
                       && !NamedRepeatedly(nodes, ctx, entries, mounts[m].nodeID) ::
              nodes'[mounts[m].nodeID] == nodes[mounts[m].nodeID]
  {
    Reported(nodes, objects, nodes', objects', ctx, entries, r);
    hide Linked, Refreshed, NamedRepeatedly;
    forall m | m in mounts && Live(nodes, mounts[m].nodeID) && mounts[m].nodeID != ctx.targetID
               && nodes[mounts[m].nodeID].kind in {Mount, VirtualDir, Root}
               && !NamedRepeatedly(nodes, ctx, entries, mounts[m].nodeID)
      ensures nodes'[mounts[m].nodeID] == nodes[mounts[m].nodeID]
    {
      ControlRowStays(nodes, objects, nodes', objects', ctx, entries, r, mounts[m].nodeID);
    }
  }

  /** The node a source was just mounted on survives every refresh that does not list its name more than once: it stays
      live at the mount path, a mount of its source. */
  lemma MountSurvivesRefresh(nodes: Nodes, mounts: MountRows, nodes1: Nodes, mounts1: MountRows,
                             sourceID: Id, enabled: bool, mountPath: string, locator: Json, node: Id, mountID: Id,
                             objects1: Objects, nodes2: Nodes, objects2: Objects, ctx: Context,
                             entries: seq<RemoteEntry>, r: RefreshResult)
    requires Ready(nodes) && IsCanonical(mountPath)
    requires UniqueMounts(mounts) && OneEnabledMount(mounts)
    requires Synced(nodes, mounts, nodes1, mounts1, sourceID, enabled, mountPath, locator, node, mountID)
    requires Live(nodes1, ctx.targetID) && ctx.target == nodes1[ctx.targetID]
    requires Refreshed(nodes1, objects1, nodes2, objects2, ctx, entries, r)
    requires node in nodes1 && !NamedRepeatedly(nodes1, ctx, entries, node)
    ensures LiveAt(nodes2, node, mountPath) && nodes2[node].sourceID == Some(sourceID)
    ensures nodes2[node].mountID == Some(mountID) && (nodes2[node].kind == Mount || mountPath == "/")
    ensures node != ctx.targetID ==> nodes2[node] == nodes1[node]
  {
    hide *;
    SyncedNode(nodes, mounts, nodes1, mounts1, sourceID, enabled, mountPath, locator, node, mountID);
    TargetOrNot(nodes1, objects1, nodes2, objects2, ctx, entries, r, node);
  }

  lemma SyncedNode(nodes: Nodes, mounts: MountRows, nodes1: Nodes, mounts1: MountRows,
                   sourceID: Id, enabled: bool, mountPath: string, locator: Json, node: Id, mountID: Id)
    requires Ready(nodes) && IsCanonical(mountPath)
    requires UniqueMounts(mounts) && OneEnabledMount(mounts)
    requires Synced(nodes, mounts, nodes1, mounts1, sourceID, enabled, mountPath, locator, node, mountID)
    ensures Linked(nodes1) && node in nodes1 && LiveAt(nodes1, node, mountPath)
    ensures Live(nodes1, node) && nodes1[node].path == mountPath && !nodes1[node].isDeleted
    ensures nodes1[node].sourceID == Some(sourceID) && nodes1[node].mountID == Some(mountID)
    ensures nodes1[node].kind == Mount || (mountPath == "/" && nodes1[node].kind == Root)
  {
    hide Ready, IsCanonical, UniqueMounts, OneEnabledMount, Synced, Linked,
         WellFormedOrEmpty, WellFormed;
    SyncKeepsTheTables(nodes, mounts, nodes1, mounts1, sourceID, enabled, mountPath, locator, node, mountID);
    if mountPath == "/" { RowAtRoot(nodes1, node); }
  }

  lemma RowAtRoot(nodes: Nodes, k: Id)
    requires Linked(nodes) && LiveAt(nodes, k, "/")
    ensures nodes[k].kind == Root
  {
    assert NodeOk(nodes, k);
  }
}
