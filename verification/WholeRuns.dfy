/** Runs of all writers, and all that their tables should keep: the tree, its kinds, keys, mounts and locators. */
module WholeRuns {
  import opened Common
  import opened Paths
  import opened Store
  import opened Tree
  import opened Locators
  import opened MetadataVfs
  import opened TreeRuns
  import opened DirChains
  import opened Commit
  import opened CommitService
  import opened Listing
  import opened RefreshSpec
  import opened RefreshTheory
  import opened RefreshService
  import opened MountSync
  import opened LocatorSteps
  import opened MixedRuns

  /** Moreover only directories have children, locators agree with paths, and files name objects in the table. */
  ghost predicate WholeInv(services: Services, t: AllTables) {
    && MixedInv(t) && WellFormedOrEmpty(t.nodes)
    && LocatorsAgree(t.nodes, t.objects, services.tree.sources) && FileObjectsExist(t.nodes, t.objects)
  }

  /** What a refresh request is answered with by the provider, if it is asked. */
  ghost function ListingAt(services: Services, t: AllTables, path: string): Option<(Context, seq<RemoteEntry>)> {
    match NormalizeVirtualPath(path)
    case Err(_) => None
    case Ok(normal) =>
      match RowAt(t.nodes, normal)
      case None => None
      case Some(k) =>
        if k in t.nodes then services.refresh.ListingOf(t.nodes, MountPathAt(t.nodes, t.mounts, path), k) else None
  }

  /** A commit or a listing brings locators that agree. */
  ghost predicate BringsLocators(services: Services, t: AllTables, req: MixedRequest) {
    match req
    case CommitFile(file) =>
      var plan := PlanOf(file, services.commit.sanitize, services.commit.guessMime);
      plan.Ok? ==> PlanAgrees(plan.value, services.tree.sources)
    case RefreshAt(path) =>
      var listing := ListingAt(services, t, path);
      listing.Some? ==> ListingAgrees(t.nodes, listing.value.0, listing.value.1, services.tree.sources)
    case _ => true
  }

  /** A listing makes no file of a directory with children. */
  ghost predicate LeavesParents(services: Services, t: AllTables, req: MixedRequest) {
    match req
    case RefreshAt(path) =>
      var listing := ListingAt(services, t, path);
      listing.Some? ==> ParentsStay(t.nodes, listing.value.0, listing.value.1)
    case _ => true
  }

  // ---- The metadata service -------------------------------------------------------------------

  /** Its requests keep locators, careful or not. */
  lemma TreeStepKeepsLocators(t: Tables, req: Request, t': Tables, sources: Sources)
    requires Ready(t.nodes) && Step(t, req, t', sources)
    requires LocatorsAgree(t.nodes, t.objects, sources) && FileObjectsExist(t.nodes, t.objects)
    ensures LocatorsAgree(t'.nodes, t'.objects, sources) && FileObjectsExist(t'.nodes, t'.objects)
  {
    hide Ready, DeleteNodes, NameIsFree, NormalizeVirtualPath, Selected, ChildPath, SameFiles, LocatorsAgree,
         FileObjectsExist, RewriteNodes, ObjectsFollow, UniqueKeys;
    match req
    case EnsureRoot =>
      var r :| EnsuresRoot(t.nodes, t'.nodes, r);
      LocatorSteps.RootIsNoFile(t.nodes, r);
      SameFilesAgree(t.nodes, t'.nodes, t.objects, sources);
    case Mkdir(parentPath, name) =>
      if t'.nodes != t.nodes {
        var parent: Id, id: Id :| && MkdirPlan(t.nodes, parentPath, name, parent) && id !in t.nodes
                          && t'.nodes == t.nodes[id := NewDirectory(parent, t.nodes[parent], name)];
        PutDirectory(t.nodes, id, NewDirectory(parent, t.nodes[parent], name));
        SameFilesAgree(t.nodes, t'.nodes, t.objects, sources);
      }
    case Rename(path, newName) =>
      if t' != t {
        var id, k :| Renamed(t.nodes, t.objects, t'.nodes, t'.objects, sources, path, newName, id)
                     && Selected(t.nodes, t.nodes[id].path, k);
        RenameKeepsLocators(t, path, newName, t', sources, id);
      }
    case Move(path, targetParentPath) =>
      if t' != t {
        var id, target, k :| Moved(t.nodes, t.objects, t'.nodes, t'.objects, sources, path, targetParentPath, id,
                                   target)
                             && Selected(t.nodes, t.nodes[id].path, k);
        MoveKeepsLocators(t, path, targetParentPath, t', sources, id, target);
      }
    case Delete(path) =>
      if t'.nodes != t.nodes {
        var id :| DeletePlan(t.nodes, path, id) && t'.nodes == DeleteNodes(t.nodes, t.nodes[id].path);
        FewerRowsAgree(t.nodes, t.nodes[id].path, t.objects, sources);
      }
  }

  lemma FewerRowsAgree(nodes: Nodes, path: string, objects: Objects, sources: Sources)
    requires LocatorsAgree(nodes, objects, sources) && FileObjectsExist(nodes, objects)
    ensures LocatorsAgree(DeleteNodes(nodes, path), objects, sources)
    ensures FileObjectsExist(DeleteNodes(nodes, path), objects)
  {
    hide MatchesDeleteQuery, MetadataNodeInnerPath, PathBased;
  }

  lemma RenameKeepsLocators(t: Tables, path: string, newName: string, t': Tables, sources: Sources, id: Id)
    requires Ready(t.nodes) && Renamed(t.nodes, t.objects, t'.nodes, t'.objects, sources, path, newName, id)
    requires LocatorsAgree(t.nodes, t.objects, sources) && FileObjectsExist(t.nodes, t.objects)
    ensures LocatorsAgree(t'.nodes, t'.objects, sources) && FileObjectsExist(t'.nodes, t'.objects)
  {
    hide ObjectsFollow, RewriteNodes, LocatorsAgree, FileObjectsExist, Ready, Linked, NormalizeVirtualPath, ChildPath,
         UniqueKeys;
    ResolvedInLinked(t.nodes, path, id);
    RenamePlanCanRewrite(t.nodes, path, newName, id);
    var parent := t.nodes[id].parentID.value;
    RewriteStepKeepsLocators(t, t', sources, id, parent, newName, ChildPath(t.nodes[parent].path, newName));
  }

  lemma MoveKeepsLocators(t: Tables, path: string, targetParentPath: string, t': Tables, sources: Sources, id: Id,
                          target: Id)
    requires Ready(t.nodes)
    requires Moved(t.nodes, t.objects, t'.nodes, t'.objects, sources, path, targetParentPath, id, target)
    requires LocatorsAgree(t.nodes, t.objects, sources) && FileObjectsExist(t.nodes, t.objects)
    ensures LocatorsAgree(t'.nodes, t'.objects, sources) && FileObjectsExist(t'.nodes, t'.objects)
  {
    hide ObjectsFollow, RewriteNodes, LocatorsAgree, FileObjectsExist, Ready, Linked, NormalizeVirtualPath, ChildPath,
         UniqueKeys;
    ResolvedInLinked(t.nodes, path, id);
    MovePlanCanRewrite(t.nodes, path, targetParentPath, id, target);
    RewriteStepKeepsLocators(t, t', sources, id, target, t.nodes[id].name,
                             ChildPath(t.nodes[target].path, t.nodes[id].name));
  }

  lemma RewriteStepKeepsLocators(t: Tables, t': Tables, sources: Sources,
                                 id: Id, newParent: Id, newName: string, newPath: string)
    requires CanRewrite(t.nodes, id, newParent, newName, newPath)
    requires Rewritten(t.nodes, t.objects, t'.nodes, t'.objects, sources, id, newParent, newName, newPath)
    requires LocatorsAgree(t.nodes, t.objects, sources) && FileObjectsExist(t.nodes, t.objects)
    ensures LocatorsAgree(t'.nodes, t'.objects, sources) && FileObjectsExist(t'.nodes, t'.objects)
  {
    InTable(t.nodes, id, newParent, newName, newPath);
    RewriteKeepsLocators(t.nodes, t.objects, t'.objects, sources, id, newParent, newName, newPath);
    RewrittenRows(t.nodes, id, newParent, newName, newPath);
    hide CanRewrite, RewriteNodes, LocatorsAgree, UniqueKeys, FollowsAt;
    assert forall k | k in t.nodes :: SameButPlace(t.nodes[k], t'.nodes[k]);
  }

  // ---- Each request ---------------------------------------------------------------------------

  /** What a refresh did with its target: only the state, or what the listing says. */
  lemma ListedCases(refresh: MetadataVFSSyncService, nodes: Nodes, objects: Objects, nodes': Nodes, objects': Objects,
                    mountRow: Option<string>, k: Id, r: Result<RefreshResult>)
    requires Live(nodes, k) && nodes[k].sourceID.Some? && nodes[k].sourceID.value in refresh.sources
    requires refresh.ListedOutcome(nodes, objects, nodes', objects', mountRow, k, r)
    ensures match refresh.ListingOf(nodes, mountRow, k)
            case None => objects' == objects && nodes' == nodes[k := nodes[k].(syncState := SyncError)]
            case Some((ctx, entries)) =>
              ctx.targetID == k && ctx.target == nodes[k] &&
              exists result :: Refreshed(nodes, objects, nodes', objects', ctx, entries, result)
  {
    hide Refreshed, RemoteParentPath;
  }

  /** The table a request left is the old one but for one row's state. */
  ghost predicate StateChanged(t: AllTables, t': AllTables) {
    t'.objects == t.objects && t'.mounts == t.mounts
    && exists k: Id :: k in t.nodes && t'.nodes == t.nodes[k := t.nodes[k].(syncState := SyncError)]
  }

  ghost predicate ListingApplied(t: AllTables, t': AllTables, ctx: Context, entries: seq<RemoteEntry>) {
    IsDirectory(ctx.target) && t'.mounts == t.mounts
    && exists r :: RefreshedFrom(t.nodes, t.objects, t'.nodes, t'.objects, ctx, entries, r)
  }

  /** What a refresh did: nothing, or one state, or what the listing says. */
  lemma RefreshCases(services: Services, t: AllTables, path: string, t': AllTables)
    requires Ready(t.nodes) && MixedStep(services, t, RefreshAt(path), t')
    ensures || t' == t
            || match ListingAt(services, t, path)
               case None => StateChanged(t, t')
               case Some((ctx, entries)) => ListingApplied(t, t', ctx, entries)
  {
    hide MountPathAt, MetadataVFSSyncService.ListedOutcome, MetadataVFSSyncService.ListingOf, Refreshed, Linked, Ready,
         NormalizeVirtualPath, RemoteParentPath;
    var mountRow := MountPathAt(t.nodes, t.mounts, path);
    var r :| services.refresh.RefreshOutcome(t.nodes, t.objects, t'.nodes, t'.objects, path, mountRow, r);
    if t'.nodes != t.nodes || t'.objects != t.objects {
      var k: Id :| services.refresh.Refreshable(t.nodes, path, mountRow, k)
                   && services.refresh.ListedOutcome(t.nodes, t.objects, t'.nodes, t'.objects, mountRow, k, r);
      OneRowAt(t.nodes, k, NormalizeVirtualPath(path).value);
      ReadyMeansLinked(t.nodes, k);
      ListedCases(services.refresh, t.nodes, t.objects, t'.nodes, t'.objects, mountRow, k, r);
      assert ListingAt(services, t, path) == services.refresh.ListingOf(t.nodes, mountRow, k);
      match services.refresh.ListingOf(t.nodes, mountRow, k)
      case None =>
      case Some((ctx, entries)) =>
        var result :| Refreshed(t.nodes, t.objects, t'.nodes, t'.objects, ctx, entries, result);
        assert RefreshedFrom(t.nodes, t.objects, t'.nodes, t'.objects, ctx, entries, result);
    }
  }

  lemma ReadyMeansLinked(nodes: Nodes, k: Id)
    requires Ready(nodes) && Live(nodes, k)
    ensures Linked(nodes)
  {
  }

  /** Every request keeps locators in agreement if and only if it changed nothing or what it brought agrees. */
  lemma LocatorsKeptIff(services: Services, t: AllTables, req: MixedRequest, t': AllTables)
    requires MixedInv(t) && MixedStep(services, t, req, t')
    requires LocatorsAgree(t.nodes, t.objects, services.tree.sources) && FileObjectsExist(t.nodes, t.objects)
    ensures FileObjectsExist(t'.nodes, t'.objects)
    ensures LocatorsAgree(t'.nodes, t'.objects, services.tree.sources) <==>
            t' == t || BringsLocators(services, t, req)
  {
    hide MixedInv, Step, MountStep, Committed, PlanOf, ListingAt, ListingAgrees, PlanAgrees, LocatorsAgree,
         FileObjectsExist, RefreshedFrom, ListingApplied, StateChanged, SameFiles, ValidPlan;
    var sources := services.tree.sources;
    OfMixedInv(t);
    match req
    case OnTree(r) => TreeStepKeepsLocators(Tables(t.nodes, t.objects), r, Tables(t'.nodes, t'.objects), sources);
    case CommitFile(file) => CommitLocators(services, t, file, t');
    case RefreshAt(path) =>
      hide MixedStep;
      RefreshCases(services, t, path, t');
      if t' != t { RefreshLocators(services, t, path, t'); }
    case SyncMounts(source) =>
      var locator: Json :| MountStep(MountTables(t.nodes, t.mounts), SyncMount(source, locator),
                                     MountTables(t'.nodes, t'.mounts));
      MountStepTouchesNoFile(MountTables(t.nodes, t.mounts), SyncMount(source, locator),
                             MountTables(t'.nodes, t'.mounts));
      SameFilesAgree(t.nodes, t'.nodes, t.objects, sources);
    case DropMounts(sourceID) =>
      MountStepTouchesNoFile(MountTables(t.nodes, t.mounts), DisableMounts(sourceID),
                             MountTables(t'.nodes, t'.mounts));
      SameFilesAgree(t.nodes, t'.nodes, t.objects, sources);
  }

  lemma OfMixedInv(t: AllTables)
    requires MixedInv(t)
    ensures Ready(t.nodes) && UniqueKeys(t.objects)
  {
  }

  lemma CommitLocators(services: Services, t: AllTables, file: CommitRequest, t': AllTables)
    requires Ready(t.nodes) && CommitStep(services.commit, t, file, t')
    requires LocatorsAgree(t.nodes, t.objects, services.tree.sources) && FileObjectsExist(t.nodes, t.objects)
    ensures FileObjectsExist(t'.nodes, t'.objects)
    ensures LocatorsAgree(t'.nodes, t'.objects, services.tree.sources) <==>
            t' == t || BringsLocators(services, t, CommitFile(file))
  {
    hide PlanOf, Committed, PlanAgrees, LocatorsAgree, FileObjectsExist, ValidPlan, Ready;
    if t' != t {
      var plan := PlanOf(file, services.commit.sanitize, services.commit.guessMime).value;
      var root: Id, fileID: Id, objectID: Id :|
        Committed(t.nodes, t.objects, t'.nodes, t'.objects, plan, root, fileID, objectID);
      CommitKeepsLocatorsIff(t.nodes, t.objects, t'.nodes, t'.objects, plan, root, fileID, objectID,
                             services.tree.sources);
    }
  }

  lemma RefreshLocators(services: Services, t: AllTables, path: string, t': AllTables)
    requires LocatorsAgree(t.nodes, t.objects, services.tree.sources) && FileObjectsExist(t.nodes, t.objects)
    requires match ListingAt(services, t, path)
             case None => StateChanged(t, t')
             case Some((ctx, entries)) => ListingApplied(t, t', ctx, entries)
    ensures FileObjectsExist(t'.nodes, t'.objects)
    ensures LocatorsAgree(t'.nodes, t'.objects, services.tree.sources) <==>
            BringsLocators(services, t, RefreshAt(path))
  {
    hide ListingAt, ListingAgrees, LocatorsAgree, FileObjectsExist, RefreshedFrom;
    match ListingAt(services, t, path)
    case None =>
      var k: Id :| k in t.nodes && t'.nodes == t.nodes[k := t.nodes[k].(syncState := SyncError)];
      assert SameFiles(t.nodes, t'.nodes);
      SameFilesAgree(t.nodes, t'.nodes, t.objects, services.tree.sources);
    case Some((ctx, entries)) =>
      var r :| RefreshedFrom(t.nodes, t.objects, t'.nodes, t'.objects, ctx, entries, r);
      RefreshKeepsLocatorsIff(t.nodes, t.objects, t'.nodes, t'.objects, ctx, entries, r, services.tree.sources);
  }

  lemma StateKeepsKinds(t: AllTables, t': AllTables)
    requires WellFormedOrEmpty(t.nodes) && StateChanged(t, t')
    ensures WellFormedOrEmpty(t'.nodes)
  {
    hide WellFormed;
    if WellFormed(t.nodes) {
      WellFormedIsLinked(t.nodes);
      PlaceKept(t.nodes, t'.nodes);
    } else {
      assert forall k :: Live(t'.nodes, k) ==> Live(t.nodes, k);
    }
  }

  lemma WellFormedIsLinked(nodes: Nodes)
    requires WellFormed(nodes)
    ensures Linked(nodes)
  {
  }

  lemma RefreshKinds(services: Services, t: AllTables, path: string, t': AllTables)
    requires WellFormedOrEmpty(t.nodes)
    requires match ListingAt(services, t, path)
             case None => StateChanged(t, t')
             case Some((ctx, entries)) => ListingApplied(t, t', ctx, entries)
    ensures WellFormedOrEmpty(t'.nodes) <==> LeavesParents(services, t, RefreshAt(path))
  {
    hide ListingAt, WellFormed, StateChanged, ParentsStay, Refreshed, Linked;
    match ListingAt(services, t, path)
    case None => StateKeepsKinds(t, t');
    case Some((ctx, entries)) =>
      var r :| RefreshedFrom(t.nodes, t.objects, t'.nodes, t'.objects, ctx, entries, r);
      RefreshKeepsWellFormedIff(t.nodes, t.objects, t'.nodes, t'.objects, ctx, entries, r);
      OldRowAfter(t.nodes, t.objects, t'.nodes, t'.objects, ctx, entries, r, ctx.targetID);
      assert Live(t'.nodes, ctx.targetID);
  }

  lemma TreeKinds(t: Tables, req: Request, t': Tables, sources: Sources)
    requires WellFormedOrEmpty(t.nodes) && LocatorsAgree(t.nodes, t.objects, sources)
    requires Step(t, req, t', sources) && (t' == t || Careful(t.nodes, req))
    ensures WellFormedOrEmpty(t'.nodes)
  {
    hide WellFormedOrEmpty, LocatorsAgree, Step, Careful;
    StepKeeps(t, req, t', sources);
  }

  lemma CommitKinds(commit: MetadataVFSCommitService, t: AllTables, file: CommitRequest, t': AllTables)
    requires MixedInv(t) && WellFormedOrEmpty(t.nodes) && CommitStep(commit, t, file, t')
    ensures WellFormedOrEmpty(t'.nodes)
  {
    OfMixedInv(t);
    hide PlanOf, Committed, ValidPlan, Ready, WellFormed, MixedInv, UniqueKeys;
    if t' != t {
      var plan := PlanOf(file, commit.sanitize, commit.guessMime).value;
      var root: Id, fileID: Id, objectID: Id :|
        Committed(t.nodes, t.objects, t'.nodes, t'.objects, plan, root, fileID, objectID);
      CommitKeepsTheTree(t.nodes, t.objects, t'.nodes, t'.objects, plan, root, fileID, objectID);
    }
  }

  lemma MountKinds(t: AllTables, t': AllTables, req: MountRequest)
    requires MixedInv(t) && WellFormedOrEmpty(t.nodes)
    requires MountStep(MountTables(t.nodes, t.mounts), req, MountTables(t'.nodes, t'.mounts))
    ensures WellFormedOrEmpty(t'.nodes)
  {
    hide MountStep, WellFormedOrEmpty, Ready, UniqueMounts, OneEnabledMount;
    MountStepKeeps(MountTables(t.nodes, t.mounts), req, MountTables(t'.nodes, t'.mounts));
  }

  /** A careful request keeps parents directories if and only if it changed nothing or its listing leaves parents. */
  lemma KindsKeptIff(services: Services, t: AllTables, req: MixedRequest, t': AllTables)
    requires WholeInv(services, t) && MixedStep(services, t, req, t') && (t' == t || CarefulRequest(t.nodes, req))
    ensures WellFormedOrEmpty(t'.nodes) <==> t' == t || LeavesParents(services, t, req)
  {
    OfMixedInv(t);
    hide MixedInv, WellFormedOrEmpty, Step, MountStep, CommitStep, Careful, ListingAt, LocatorsAgree, FileObjectsExist,
         StateChanged, ListingApplied, Ready, UniqueKeys;
    match req
    case OnTree(r) =>
      TreeKinds(Tables(t.nodes, t.objects), r, Tables(t'.nodes, t'.objects), services.tree.sources);
    case CommitFile(file) => CommitKinds(services.commit, t, file, t');
    case RefreshAt(path) =>
      hide MixedStep;
      RefreshCases(services, t, path, t');
      if t' != t { RefreshKinds(services, t, path, t'); }
    case SyncMounts(source) =>
      var locator: Json :| MountStep(MountTables(t.nodes, t.mounts), SyncMount(source, locator),
                                     MountTables(t'.nodes, t'.mounts));
      MountKinds(t, t', SyncMount(source, locator));
    case DropMounts(sourceID) => MountKinds(t, t', DisableMounts(sourceID));
  }

  /** What a request has to see to. */
  ghost predicate Conscientious(services: Services, t: AllTables, req: MixedRequest) {
    CarefulRequest(t.nodes, req) && BringsLocators(services, t, req) && LeavesParents(services, t, req)
  }

  /** Whatever the request: the tables keep all of the invariant if and only if it changed nothing or saw to it. */
  lemma WholeStepKeepsIff(services: Services, t: AllTables, req: MixedRequest, t': AllTables)
    requires WholeInv(services, t) && MixedStep(services, t, req, t')
    ensures WholeInv(services, t') <==> t' == t || Conscientious(services, t, req)
  {
    hide MixedStep, MixedInv, WellFormedOrEmpty, CarefulRequest, BringsLocators, LeavesParents, LocatorsAgree,
         FileObjectsExist;
    MixedStepKeepsIff(services, t, req, t');
    LocatorsKeptIff(services, t, req, t');
    if t' == t || CarefulRequest(t.nodes, req) { KindsKeptIff(services, t, req, t'); }
  }

  lemma EmptyTablesAreWhole(services: Services)
    ensures WholeInv(services, AllTables(map[], map[], map[]))
  {
  }

  ghost predicate ConscientiousThroughout(services: Services, states: seq<AllTables>, reqs: seq<MixedRequest>, n: nat)
    requires n <= |reqs| && |states| == |reqs| + 1
  {
    forall i | 0 <= i < n :: states[i + 1] == states[i] || Conscientious(services, states[i], reqs[i])
  }

  /** However service calls, commits, refreshes and mount synchronization take turns: the tables keep the whole
      invariant throughout a run if and only if every request that changed something saw to it. */
  lemma {:induction false} WholeRunIsSoundIff(services: Services, states: seq<AllTables>, reqs: seq<MixedRequest>,
                                              n: nat)
    requires IsMixedRun(services, states, reqs) && n <= |reqs| && WholeInv(services, states[0])
    ensures (forall i | 0 <= i <= n :: WholeInv(services, states[i])) <==>
            ConscientiousThroughout(services, states, reqs, n)
  {
    hide WholeInv, MixedStep, Conscientious;
    if n > 0 {
      WholeRunIsSoundIff(services, states, reqs, n - 1);
      assert MixedStep(services, states[n - 1], reqs[n - 1], states[n - 1 + 1]);
      if ConscientiousThroughout(services, states, reqs, n - 1) {
        WholeStepKeepsIff(services, states[n - 1], reqs[n - 1], states[n]);
      }
    }
  }
}
