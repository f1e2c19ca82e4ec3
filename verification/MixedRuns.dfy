/** Runs in which all writers take part: the metadata service, commits, refreshes and mount synchronization. */
module MixedRuns {
  import opened Common
  import opened Paths
  import opened Store
  import opened Tree
  import opened Locators
  import opened MetadataVfs
  import opened TreeRuns
  import opened Commit
  import opened DirChains
  import opened CommitService
  import opened MountSync
  import opened MountService
  import opened RefreshSpec
  import opened RefreshSteps
  import opened RefreshService
  import Mounts

  datatype AllTables = AllTables(nodes: Nodes, objects: Objects, mounts: MountRows)

  datatype MixedRequest =
    | OnTree(req: Request)
    | CommitFile(file: CommitRequest)
    | RefreshAt(path: string)
    | SyncMounts(source: Mounts.Source)
    | DropMounts(sourceID: Id)

  /** The services, over the same tables. */
  datatype Services = Services(tree: MetadataVFSService, commit: MetadataVFSCommitService,
                               refresh: MetadataVFSSyncService,
                               mount: MetadataVFSMountService) {
    predicate Share() {
      commit.store == tree.store && refresh.store == tree.store && mount.store == tree.store
    }
  }

  /** A commit does nothing, or what its plan says. */
  ghost predicate CommitStep(commit: MetadataVFSCommitService, t: AllTables, file: CommitRequest, t': AllTables) {
    var plan := PlanOf(file, commit.sanitize, commit.guessMime);
    && t'.mounts == t.mounts
    && (|| (t'.nodes == t.nodes && t'.objects == t.objects)
        || (&& plan.Ok? && ValidPlan(plan.value)
            && exists root: Id, fileID: Id, objectID: Id ::
                 Committed(t.nodes, t.objects, t'.nodes, t'.objects, plan.value, root, fileID, objectID)))
  }

  /** The mount path a refresh of `path` finds in the mount table, if any. */
  ghost function MountPathAt(nodes: Nodes, mounts: MountRows, path: string): Option<string> {
    match NormalizeVirtualPath(path)
    case Err(_) => None
    case Ok(normal) =>
      match RowAt(nodes, normal)
      case None => None
      case Some(k) => if k in nodes then MountPathFor(mounts, k, nodes[k]) else None
  }

  /** A refresh, with the mount row of its target looked up. */
  method Refresh(services: Services, path: string) returns (r: Result<RefreshResult>)
    requires services.Share() && Ready(services.tree.store.nodes) && UniqueKeys(services.tree.store.objects)
    requires UniqueMounts(services.mount.table.mounts)
    modifies services.tree.store
    ensures services.refresh.RefreshOutcome(old(services.tree.store.nodes), old(services.tree.store.objects),
                                            services.tree.store.nodes, services.tree.store.objects, path,
                                            MountPathAt(old(services.tree.store.nodes),
                                                        services.mount.table.mounts, path), r)
  {
    hide Linked, UniqueKeys, NormalizeVirtualPath, UniqueMounts, Ready;
    var mountRow: Option<string> := None;
    var normal := NormalizeVirtualPath(path);
    if normal.Ok? {
      var found := services.tree.store.FindByPath(normal.value);
      if found.Some? {
        OneRowAt(services.tree.store.nodes, found.value, normal.value);
        var row := services.mount.table.FindMountForSyncTarget(found.value, services.tree.store.nodes[found.value]);
        if row.Some? { mountRow := Some(services.mount.table.mounts[row.value].mountPath); }
      }
    }
    r := services.refresh.RefreshPath(path, mountRow);
  }

  lemma OneRowAt(nodes: Nodes, k: Id, path: string)
    requires Ready(nodes) && LiveAt(nodes, k, path)
    ensures RowAt(nodes, path) == Some(k)
  {
    RowAtIs(nodes, k, path);
  }

  /** What a request may do to the tables. */
  ghost predicate MixedStep(services: Services, t: AllTables, req: MixedRequest, t': AllTables) {
    match req
    case OnTree(r) =>
      t'.mounts == t.mounts && Step(Tables(t.nodes, t.objects), r, Tables(t'.nodes, t'.objects), services.tree.sources)
    case CommitFile(file) => CommitStep(services.commit, t, file, t')
    case RefreshAt(path) =>
      t'.mounts == t.mounts
      && exists r :: services.refresh.RefreshOutcome(t.nodes, t.objects, t'.nodes, t'.objects, path,
                                                     MountPathAt(t.nodes, t.mounts, path), r)
    case SyncMounts(source) =>
      t'.objects == t.objects
      && exists locator: Json ::
           MountStep(MountTables(t.nodes, t.mounts), SyncMount(source, locator), MountTables(t'.nodes, t'.mounts))
    case DropMounts(sourceID) =>
      t'.objects == t.objects
      && MountStep(MountTables(t.nodes, t.mounts), DisableMounts(sourceID), MountTables(t'.nodes, t'.mounts))
  }

  /** One request, handed to the service that answers it. */
  method Handle(services: Services, req: MixedRequest)
    requires services.Share() && Ready(services.tree.store.nodes) && UniqueKeys(services.tree.store.objects)
    requires UniqueMounts(services.mount.table.mounts)
    modifies services.tree.store, services.mount.table
    ensures MixedStep(services,
                      AllTables(old(services.tree.store.nodes), old(services.tree.store.objects),
                                old(services.mount.table.mounts)),
                      req,
                      AllTables(services.tree.store.nodes, services.tree.store.objects, services.mount.table.mounts))
  {
    hide Step, Committed, Synced, Ready, UniqueLive, UniqueKeys, UniqueMounts, PlanOf, ValidPlan, WayBlocked,
         FileBlocked, PathReusable,
         MayMount, NormalizeVirtualPath, Linked, WellFormed, WellFormedOrEmpty, DisabledMounts, StaleNodes;
    ReadyIsUnique(services.tree.store.nodes);
    ghost var before := AllTables(services.tree.store.nodes, services.tree.store.objects, services.mount.table.mounts);
    match req
    case OnTree(r) => Serve(services.tree, r);
    case CommitFile(file) => var committed := services.commit.CommitFileObject(file);
    case RefreshAt(path) => var refreshed := Refresh(services, path);
    case SyncMounts(source) =>
      var synced := services.mount.SyncSourceMount(source);
      ghost var mountPath, rootPath := NormalizeVirtualPath(source.mountPath), NormalizeVirtualPath(source.rootPath);
      ghost var locator := if synced.Ok? then services.mount.rootLocator(source, mountPath.value, rootPath.value)
        else map[];
      ghost var after := AllTables(services.tree.store.nodes, services.tree.store.objects, services.mount.table.mounts);
      assert MountStep(MountTables(before.nodes, before.mounts), SyncMount(source, locator),
                       MountTables(after.nodes, after.mounts));
    case DropMounts(sourceID) => var dropped := services.mount.DisableSourceMount(sourceID);
  }

  /** The tree is linked, or there is none yet; object keys and mounts are unique, and no source has two enabled
      mounts. */
  ghost predicate MixedInv(t: AllTables) {
    Ready(t.nodes) && UniqueKeys(t.objects) && UniqueMounts(t.mounts) && OneEnabledMount(t.mounts)
  }

  /** Only the metadata service can be careless. */
  ghost predicate CarefulRequest(nodes: Nodes, req: MixedRequest) {
    req.OnTree? ==> Careful(nodes, req.req)
  }

  lemma TreeStepKeepsKeys(t: Tables, req: Request, t': Tables, sources: Sources)
    requires UniqueKeys(t.objects) && Step(t, req, t', sources)
    ensures UniqueKeys(t'.objects)
  {
    hide UniqueKeys, RenamePlan, MovePlan, RewriteNodes, ObjectsFollow, Selected;
  }

  lemma RefreshKeepsTables(refresh: MetadataVFSSyncService, t: AllTables, t': AllTables, path: string,
                           mountRow: Option<string>)
    requires Ready(t.nodes) && UniqueKeys(t.objects)
    requires exists r :: refresh.RefreshOutcome(t.nodes, t.objects, t'.nodes, t'.objects, path, mountRow, r)
    ensures Ready(t'.nodes) && UniqueKeys(t'.objects)
  {
    hide RefreshService.MetadataVFSSyncService.RefreshOutcome;
    var r :| refresh.RefreshOutcome(t.nodes, t.objects, t'.nodes, t'.objects, path, mountRow, r);
    OutcomeKeepsTables(refresh, t, t', path, mountRow, r);
  }

  lemma OutcomeKeepsTables(refresh: MetadataVFSSyncService, t: AllTables, t': AllTables, path: string,
                           mountRow: Option<string>,
                           r: Result<RefreshResult>)
    requires Ready(t.nodes) && UniqueKeys(t.objects)
    requires refresh.RefreshOutcome(t.nodes, t.objects, t'.nodes, t'.objects, path, mountRow, r)
    ensures Ready(t'.nodes) && UniqueKeys(t'.objects)
  {
    hide UniqueKeys, Linked, OldRow, NewRow, ObjectRows, LostObjects, MissingChildren, NewNames, UpdatedChildren,
         ConflictTotal;
    if t'.nodes != t.nodes || t'.objects != t.objects {
      var k: Id :| refresh.Refreshable(t.nodes, path, mountRow, k)
                   && refresh.ListedOutcome(t.nodes, t.objects, t'.nodes, t'.objects, mountRow, k, r);
      assert Live(t.nodes, k);
      StateIsAdmitted(t.nodes, k, SyncError);
    }
  }

  lemma CommitKeepsTables(commit: MetadataVFSCommitService, t: AllTables, file: CommitRequest, t': AllTables)
    requires Ready(t.nodes) && UniqueKeys(t.objects) && CommitStep(commit, t, file, t')
    ensures Ready(t'.nodes) && UniqueKeys(t'.objects) && t'.mounts == t.mounts
  {
    hide ValidPlan, Committed, UniqueKeys, Ready, PlanOf;
    if !(t'.nodes == t.nodes && t'.objects == t.objects) {
      var plan := PlanOf(file, commit.sanitize, commit.guessMime).value;
      var root: Id, fileID: Id, objectID: Id :|
        Committed(t.nodes, t.objects, t'.nodes, t'.objects, plan, root, fileID, objectID);
      CommitKeepsTheTree(t.nodes, t.objects, t'.nodes, t'.objects, plan, root, fileID, objectID);
      LinkedIsReady(t'.nodes);
    }
  }

  lemma MountKeepsTables(t: AllTables, t': AllTables, req: MountRequest)
    requires MixedInv(t) && t'.objects == t.objects
    requires MountStep(MountTables(t.nodes, t.mounts), req, MountTables(t'.nodes, t'.mounts))
    ensures MixedInv(t')
  {
    hide MountStep;
    MountStepKeeps(MountTables(t.nodes, t.mounts), req, MountTables(t'.nodes, t'.mounts));
  }

  /** Whatever the request: the tables keep the invariant if and only if it changed nothing or is careful. */
  lemma MixedStepKeepsIff(services: Services, t: AllTables, req: MixedRequest, t': AllTables)
    requires MixedInv(t) && MixedStep(services, t, req, t')
    ensures MixedInv(t') <==> t' == t || CarefulRequest(t.nodes, req)
  {
    hide Ready, UniqueKeys, UniqueMounts, OneEnabledMount, Step, Careful, CommitStep, MountStep;
    match req
    case OnTree(r) =>
      var before, after := Tables(t.nodes, t.objects), Tables(t'.nodes, t'.objects);
      TreeStepKeepsKeys(before, r, after, services.tree.sources);
      if after != before { StepIsSoundIffCareful(before, r, after, services.tree.sources); }
    case CommitFile(file) => CommitKeepsTables(services.commit, t, file, t');
    case RefreshAt(path) =>
      RefreshKeepsTables(services.refresh, t, t', path, MountPathAt(t.nodes, t.mounts, path));
    case SyncMounts(source) =>
      var locator: Json :| MountStep(MountTables(t.nodes, t.mounts), SyncMount(source, locator),
                                     MountTables(t'.nodes, t'.mounts));
      MountKeepsTables(t, t', SyncMount(source, locator));
    case DropMounts(sourceID) => MountKeepsTables(t, t', DisableMounts(sourceID));
  }

  ghost predicate IsMixedRun(services: Services, states: seq<AllTables>, reqs: seq<MixedRequest>) {
    |states| == |reqs| + 1 && forall i | 0 <= i < |reqs| :: MixedStep(services, states[i], reqs[i], states[i + 1])
  }

  ghost predicate CarefulThroughout(states: seq<AllTables>, reqs: seq<MixedRequest>, n: nat)
    requires n <= |reqs| && |states| == |reqs| + 1
  {
    forall i | 0 <= i < n :: states[i + 1] == states[i] || CarefulRequest(states[i].nodes, reqs[i])
  }

  /** However the writers take turns, the tree stays linked and keys and mounts unique throughout a run if and only if
      every request to the metadata service that changed something was careful. */
  lemma {:induction false} MixedRunIsSoundIffCareful(services: Services, states: seq<AllTables>,
                                                     reqs: seq<MixedRequest>, n: nat)
    requires IsMixedRun(services, states, reqs) && n <= |reqs| && MixedInv(states[0])
    ensures (forall i | 0 <= i <= n :: MixedInv(states[i])) <==> CarefulThroughout(states, reqs, n)
  {
    hide MixedInv, MixedStep, CarefulRequest;
    if n > 0 {
      MixedRunIsSoundIffCareful(services, states, reqs, n - 1);
      assert MixedStep(services, states[n - 1], reqs[n - 1], states[n - 1 + 1]);
      if CarefulThroughout(states, reqs, n - 1) {
        MixedStepKeepsIff(services, states[n - 1], reqs[n - 1], states[n]);
      }
    }
  }
}
