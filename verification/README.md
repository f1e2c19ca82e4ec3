# Verification of the metadata VFS control plane and its lifecycles

A Dafny model of Yunxia's metadata VFS and of the state machines that depend on it, with proofs. `dafny verify
dfyconfig.toml` checks all of it.

The metadata VFS keeps a tree of rows. A row stores its parent, its name and, denormalized, its absolute path; files
point at storage objects whose locators are derived from those paths. Services make, rename, move and delete
directories, refresh a directory against a provider's listing, commit files, and hang storage sources into the tree.
Access rules are bound to nodes or paths. RSS items create download tasks, retry them and take over their results;
uploads arrive in chunks. The proofs are about every input, every row table and every run.

## Modules

- `Common`, `Text`: results, errors, the string primitives.
- `Paths`, `Mounts`, `InnerPaths`, `TaskTargets`, `Shares`, `Projection`: virtual paths as strings and as segment lists,
  mount resolution, writable targets, the seven inner-path computations, the directories of imported downloads, share
  paths and breadcrumbs, projected directories.
- `Store`, `Repositories`: the tables with their unique indexes and keyed writes.
- `Tree`, `Rewrite`, `Locators`, `MetadataVfs`, `TreeRuns`, `WayBack`, `BlankPaths`, `Irreversible`: the tree
  invariant, subtree rewrites, locators, the service and its runs, renaming and moving back, and what white space at the
  end of a name does. `DirectoryKinds` says which rows the service takes, by kind, and `LocatorTypes` which objects follow
  their files, by type.
- `Acl`, `AclFlags`, `AclTree`: the evaluator, which rules count for which action and target, and what tree operations do
  to decisions.
- `Listing`, `RefreshSpec`, `RefreshTheory`, `RefreshSteps`, `RefreshLoop`, `RefreshKinds`, `RefreshService`: listings, the
  refresh as a relation on the tables, its consequences, what becomes of each child and object in terms of kinds and
  entries, and the service that meets all that.
- `DirChains`, `Commit`, `CommitPlaces`, `CommitService`, `MountSync`, `MountService`, `Obstacles`: walking down a path
  directory by directory, file commits in terms of plans and of requests, source mounts, and what stands in the way of
  both.
- `RssModel`, `RssTheory`, `RssMatching`, `RssService`, `RetryTurns`, `RetryCycles`, `DownloadTasks`, `RssTemplates`,
  `RssTokens`, `RssFilenames`, `RssDrives`: items and tasks as events on the tables, the invariant of every run, each event
  spelled out, who gets a turn in a retry cycle, the two services, and the templates that name download directories and
  files.
- `StaleMounts`, `MountRefresh`: what refreshes make of a source that was mounted elsewhere, and of the nodes of mounts.
- `LocatorSteps`, `MixedRuns`, `WholeRuns`: what each writer does to locators, runs in which all writers of the metadata
  tables take turns, and the whole invariant of such runs.
- `Upload`: chunked uploads.

Services are classes over the tables, one method for each operation, proved against a relation or function on the old
and the new tables; the theorems are lemmas about those. Each service call is one atomic step.

## What the code does not keep

Some promises fail, and the model says exactly when.

- The repository trims white space from a path before it queries the subtree below it
  (`backend/internal/infrastructure/persistence/gorm/vfs_metadata_repo_impl.go:61-88`, `127-141`, `661-667`), while
  names may end in white space. The prefix query is exact, and a subtree rewrite that selects anything keeps the tree
  linked, if and only if the node's path does not end in white space (`Store.PrefixQueryIsExact`,
  `Rewrite.RewriteIsSoundIffTidy`); a delete is sound under the condition of `TreeRuns.DeleteIsSoundIff`. The comment at
  `backend/internal/application/service/metadata_vfs_service.go:348` promises a subtree delete without a limit. Runs are
  sound if and only if their requests are careful in this sense (`TreeRuns.RunIsSoundIffCareful`,
  `MixedRuns.MixedRunIsSoundIffCareful`); `BlankPaths` shows a delete and a rename that are not.
- A rename or move can answer with an error although it changed the tables: the rewrite commits, and then the node is not
  found at its new path because the query missed its own row. So it is whenever the tables change, the path ends in white
  space and the name is not all white space, and only then (`MetadataVfs.MetadataVFSService.Rename`, `.Move`,
  `MetadataVfs.AnsweredIff`, `BlankPaths.RenameFailsAndChanges`).
- Decisions of rules bound to nodes survive a rename if and only if the old name is not all white space, and a move
  leaves decisions outside the moved subtree alone if and only if the query takes nothing else or the neighbours it takes
  come below themselves (`AclTree.RenameKeepsEveryDecisionIff`, `AclTree.MoveKeepsDecisionsIff`,
  `BlankPaths.RenameTakesAccess`, `BlankPaths.MoveGivesAccess`).
- Renaming or moving back is not always admitted and does not always restore the objects: a locator that held more than
  a path comes back with the path alone (`WayBack.RenameBackRestores`, `WayBack.MoveBackRestores`), and rows come back if
  and only if the new path does not end in white space (`WayBack.RowsComeBackIff`). `Irreversible` shows both failures.
- An accepted writable target owns what lies below it unless it is the root and some mount lies elsewhere
  (`Mounts.AcceptedTargetOwnsItsSubtree`, `Mounts.RootTargetDoesNotOwnItsSubtree`).
- The virtual directory of an imported download is trimmed before it is used, so a download into a mount point whose path
  ends in white space is committed elsewhere, and only such a one (`TaskTargets.CreatedTargetsRebase`,
  `TaskTargets.BlankMountDiverges`).
- Outside its mount a commit, and one of the two computations of the access evaluator, take the whole virtual path for
  an inner path (`InnerPaths.OutsideTheMount`).
- A refresh goes by the mount row its target names, not by the source. Nodes go on naming a mount row after the source
  was mounted elsewhere, and then a refresh asks for another inner path than the metadata service knows
  (`InnerPaths.AllInnerPathsAgree`, `InnerPaths.OutsideTheMount`, `StaleMounts.StaleRefresh`,
  `StaleMounts.RefreshAfterMove`).
- Locators do not always follow the tree: a commit outside its mount and a listing obtained under another mount bring
  locators that disagree, and a source mounted elsewhere leaves all its locators behind
  (`LocatorSteps.DefaultCommitAgreesIff`, `LocatorSteps.PlainEntryAgreesIff`, `LocatorSteps.RemountKeepsLocatorsIff`).
- A listing can make a file of a directory that has children (`RefreshTheory.RefreshKeepsWellFormedIff`,
  `RefreshTheory.ParentBecomesFile`). With that and the locators, whole runs are sound exactly under the conditions of
  `WholeRuns.WholeRunIsSoundIff`.
- A commit writes the root row afresh, so a source mounted at "/" loses source and mount on that row
  (`Commit.CommitPlacesTheFile`).
- The retry cycle hands the rest of its limit to the retry loop, which compares it with the running count, so
  reconciled items are subtracted twice. `RssService.RSSService.RunRetryCycle` says exactly when every waiting item has
  its turn all the same, and `RetryCycles.SettledRowTakesTwoPlaces` shows one that has none though there is room.
- A filename template is validated on the empty item after sanitizing, but rendered without; so an accepted one can fail
  for an item, exactly when the rendered text holds ".." or starts like a drive (`RssFilenames.FilenameFailsExactly`);
  seven items decide whether it renders for all (`RssDrives.SevenItemsDecide`).
- A chunk whose file was written but whose session row could not be saved is answered "already uploaded" ever after and
  never listed; a session can be completed if and only if there is no such chunk (`Upload.CompletableIffNothingLost`).
- A finish whose hash does not match leaves the assembled file at the target, so the next finish finds it there
  (`Upload.UploadService.FinishLocal`).
- Names with a backslash reach the tree through commits and mounts, though `validateFileName` refuses them; the tree
  invariant allows them.

## Model

| member | source | states |
|---|---|---|
| `Paths.NormalizeIsIdempotent` | backend/internal/application/service/local_storage_helpers.go:88-103 | normalizing a normalized path changes nothing, and its result is canonical: rooted, clean, without ".." |
| `Paths.CanonicalIsFixpoint` | backend/internal/application/service/local_storage_helpers.go:88-103 | the canonical paths are exactly those normalization accepts as they stand |
| `Paths.SegmentsOfRender` | backend/internal/application/service/local_storage_helpers.go:93-101 | rendering clean segments and reading the path back gives the same segments: canonical paths are segment lists |
| `Paths.SubPathIsSegmentPrefix` | backend/internal/application/service/vfs_path.go:54-68 | on clean paths `isSubPath` holds exactly when neither path contains ".." and the segments of the base are a prefix of the segments of the target, so "/a" is not above "/ab" |
| `Paths.SubPathIsPartialOrder` | backend/internal/application/service/vfs_path.go:54-68 | `isSubPath` is reflexive, antisymmetric and transitive on canonical paths, and the paths above a path form a chain |
| `Paths.DirOfJoin` | backend/internal/application/service/vfs_path.go:14-32 | `path.Dir` and `path.Base` undo a join |
| `Paths.JoinInjective` | backend/internal/application/service/vfs_path.go:27-32 | two joins of clean parents and valid names are equal only when parents and names are |
| `Paths.JoinIsRender` | backend/internal/application/service/vfs_path.go:27-32 | joining appends one segment |
| `Mounts.MergeIsConcat` | backend/internal/application/service/vfs_path.go:35-51 | merging a mount and an inner path concatenates their segments and stays canonical |
| `Mounts.InnerIsTheInverseOfMerge` | backend/internal/application/service/vfs_path.go:35-51 | the cut-off inner path of a path inside a mount is the one canonical path that merges back to it, and nothing outside the mount is a merge |
| `Mounts.ResolveVirtualPathByLongestPrefix` | backend/internal/application/service/vfs_path.go:71-122 | the length-comparing loop returns the first of the deepest enclosing mounts, with an inner path that merges back to the requested path; without one the path is purely virtual exactly when some mount lies below it |
| `Mounts.ResolutionIsUnique` | backend/internal/application/service/vfs_path.go:71-122 | the specification of resolution leaves no choice |
| `Mounts.ResolutionIgnoresOrder` | backend/internal/application/service/vfs_path.go:71-122 | two lists with the same mounts resolve every path to the same mount path and inner path, and to the same source when mount paths are distinct |
| `Mounts.ResolveWritableTarget` | backend/internal/application/service/vfs_service.go:178-196 | accepts exactly the targets that a mount serves, that no mount sits at or under and that do not exist yet; a mount in the way is a name conflict |
| `Mounts.AcceptedTargetOwnsItsSubtree` | backend/internal/application/service/vfs_conflict.go:5-61 | below an accepted target every path resolves to the same source, under the target's inner path extended by the same segments, if and only if the target is not "/" or no mount lies elsewhere |
| `Mounts.AcceptedInnerPathIsNotTheRoot` | backend/internal/application/service/vfs_conflict.go:5-61 | an accepted target has inner path "/" exactly when the target itself is "/" |
| `Mounts.RootTargetDoesNotOwnItsSubtree` | backend/internal/application/service/vfs_conflict.go:38-45 | such a case: "/" is accepted although another source is mounted at "/a", and "/a" resolves to that source |
| `Mounts.RecordedParentRecomposes` | backend/internal/application/service/task_service.go:379-407 | the inner parent that task creation records merges through the matched mount to the requested virtual parent, and the last segment is the requested name |
| `Mounts.NoConflictMeansNoMountBelow` | backend/internal/application/service/vfs_conflict.go:38-61 | the conflict search is true exactly when some mount lies at or below the target |
| `Store.PrefixQueryIsExact` | backend/internal/infrastructure/persistence/gorm/vfs_metadata_repo_impl.go:127-141 | `ListByPathPrefix` returns exactly what lies at or below the prefix if and only if the prefix does not end in white space, which the repository trims |
| `Store.DeleteQueryIsExact` | backend/internal/infrastructure/persistence/gorm/vfs_metadata_repo_impl.go:61-88 | the same for the rows the soft delete marks |
| `Repositories.MetadataStore.UpsertByPath` | backend/internal/infrastructure/persistence/gorm/vfs_metadata_repo_impl.go:143-169 | overwrites the live row at the path and keeps its id, or inserts one new row; refused only when the unique indexes clash with a row at another path |
| `Repositories.MetadataStore.UpsertObjectByLocator` | backend/internal/infrastructure/persistence/gorm/vfs_metadata_repo_impl.go:278-303 | overwrites the object with the same key and keeps its id, or inserts a new one; keys stay unique |
| `Tree.PathIndexAgrees` | backend/internal/application/service/metadata_vfs_service.go:422-458 | in a linked tree a node lies at or below another by path exactly when its chain of parents runs through it |
| `Tree.AncestorIsLive` | backend/internal/application/service/metadata_vfs_service.go:422-458 | every path prefix of a live node is the path of a live node |
| `Tree.StoredPathIsClean` | backend/internal/application/service/metadata_vfs_service.go:220-258 | every stored path is a clean path |
| `Tree.DirIsParentPath` | backend/internal/application/service/metadata_vfs_service.go:260-299 | the parent path `Rename` computes from the string is the stored path of the parent row |
| `Tree.PutChildKeepsWellFormed` | backend/internal/infrastructure/persistence/gorm/vfs_metadata_repo_impl.go:143-169 | upserting a child row at the path its name dictates keeps the tree well formed, unless a directory becomes a file |
| `Tree.MovedPath` | backend/internal/application/service/metadata_vfs_service.go:700-712 | inside the moved subtree the rewritten path is the new path plus the old relative position |
| `Tree.TidySelection` | backend/internal/application/service/metadata_vfs_service.go:422-433 | the rows selected for a rewrite are exactly the live rows at or below the node, if its path does not end in white space |
| `Rewrite.MovedPathIsNew` | backend/internal/application/service/metadata_vfs_service.go:532-552 | no rewritten path is the path of any live row, so every loop state keeps live paths distinct |
| `Rewrite.SelectedRowIsAdmitted` | backend/internal/application/service/metadata_vfs_service.go:438-456 | whatever the query selects and however many rows are already rewritten, the unique indexes admit the next one exactly when none of those has its new path |
| `Rewrite.SelectedPathIsNew` | backend/internal/application/service/metadata_vfs_service.go:700-712 | for a name that is not all white space, ending in white space or not, no selected row gets the path of a live row or the new path of another |
| `Rewrite.LandsOnNobody` | backend/internal/application/service/metadata_vfs_service.go:532-552 | whatever the query selects, no new path is the path of a live row, so the availability check never finds anything on a planned rewrite |
| `Rewrite.QueryOfNode` | backend/internal/infrastructure/persistence/gorm/vfs_metadata_repo_impl.go:661-667 | the prefix the repository queries for a node: its path, or its parent's when the name is all white space, or the path of the trimmed name; and the query finds the node itself if and only if its path does not end in white space or its name is all white space |
| `Rewrite.SelectedContainment` | backend/internal/application/service/metadata_vfs_service.go:422-458 | for a name that is not all white space, whatever the query selects: containment between two rows is kept unless the lower one is moved, the upper one is not, and the moved rows come below another parent that stays |
| `Rewrite.RewriteKeepsWellFormed` | backend/internal/application/service/metadata_vfs_service.go:422-458 | rewriting a subtree keeps the tree well formed |
| `Rewrite.RewriteIsSoundIffTidy` | backend/internal/application/service/metadata_vfs_service.go:422-458 | a rewrite whose query selects any row keeps the tree linked if and only if the node's path does not end in white space |
| `Rewrite.UntidyRewriteBreaksTheIndex` | backend/internal/infrastructure/persistence/gorm/vfs_metadata_repo_impl.go:661-667 | with trailing white space such a rewrite leaves a tree that is no longer linked |
| `Rewrite.ContainmentIsKept` | backend/internal/application/service/metadata_vfs_service.go:422-458 | containment between two nodes is unchanged unless exactly one of them moved |
| `Rewrite.RewriteBackRestores` | backend/internal/application/service/metadata_vfs_service.go:422-458 | rewriting back to the old parent and name is possible and restores every row; the objects are the matter of `WayBack.ObjectsComeBackIff` |
| `Locators.InnerPathInjective` | backend/internal/application/service/metadata_vfs_service.go:503-530 | two clean paths with the same inner path under a source are equal |
| `Locators.RewriteKeepsLocators` | backend/internal/application/service/metadata_vfs_service.go:438-489 | after a subtree rewrite the locator of every path-based object is again the inner path of its file node |
| `Locators.KeyIsFreeMidway` | backend/internal/application/service/metadata_vfs_service.go:438-456 | half way through the loop, whatever the query selects, the unique index on objects admits the next locator exactly when it did before the loop and no file written so far got the same key |
| `Locators.PlacesFreeIff` | backend/internal/application/service/metadata_vfs_service.go:438-456 | moved rows of a name that is not all white space never get in each other's way: the rewrite finds its places free exactly when each moved locator is free by itself |
| `Locators.NewKeyIsNew` | backend/internal/application/service/metadata_vfs_service.go:460-490 | the key a moved file gets is the old key of no live file |
| `LocatorTypes.MovedFileFollows` | backend/internal/application/service/metadata_vfs_service.go:460-501 | after any planned rewrite the object of a moved file with a source has, if its type is `local_path`, `driver_path` or `provider_path`, the inner path that merges with its source's mount to the new path as its locator, and stays otherwise |
| `LocatorTypes.OtherTypesStay` | backend/internal/application/service/metadata_vfs_service.go:460-501 | an object of any other type stays, whoever uses it |
| `LocatorTypes.RenameFollows` | backend/internal/application/service/metadata_vfs_service.go:260-299 | so it is for every object after the service renamed a path |
| `LocatorTypes.MoveFollows` | backend/internal/application/service/metadata_vfs_service.go:301-346 | and after it moved one |
| `LocatorTypes.CommitThenRewrite` | backend/internal/application/service/metadata_vfs_service.go:438-501 | a file committed by default below its mount and then renamed or moved, itself or with a directory above it, has the object that the same commit would have written at the new place |
| `LocatorTypes.DefaultType` | backend/internal/application/service/metadata_vfs_commit_service.go:367-387 | without a type of its own a commit writes `local_path` for a local driver, else `driver_path` |
| `MetadataVfs.MetadataVFSService.Mkdir` | backend/internal/application/service/metadata_vfs_service.go:220-258 | succeeds exactly when name, parent and target path allow it, and then inserts one row: a `dir` with the parent's source and mount below mounts and rows with a source or a mount, else a `virtual_dir`; a failure changes nothing, and the name is at fault exactly if it is empty, ".", ".." or holds a slash or backslash |
| `MetadataVfs.MetadataVFSService.Rename` | backend/internal/application/service/metadata_vfs_service.go:260-299 | a success rewrote the whole query result under the new name with its locators, or had nothing to do. Locators agreeing with the tree, a planned rename changes the tables exactly when the query selects anything and the new paths and locators are free, of others and of each other, and succeeds exactly when besides the query finds the node itself. In every case either nothing changed, or the rewrite took place and the answer is an error exactly when the path ends in white space and the name is not all white space; which objects follow, by the type of their locators, is said by `LocatorTypes.RenameFollows` |
| `MetadataVfs.MetadataVFSService.Move` | backend/internal/application/service/metadata_vfs_service.go:301-346 | the same for a new parent: refused into its own subtree, across mounts or sources, or onto a taken name; objects as in `LocatorTypes.MoveFollows` |
| `MetadataVfs.MetadataVFSService.PlanMove` | backend/internal/application/service/metadata_vfs_service.go:302-333 | the checks of a move accept exactly planned moves and moves to where the node is |
| `MetadataVfs.MetadataVFSService.RewriteAndResolve` | backend/internal/application/service/metadata_vfs_service.go:288-298 | the rewrite and the look-up after it: when the tables change, when the look-up misses the node, and that nothing else can fail after the commit |
| `MetadataVfs.MetadataVFSService.Delete` | backend/internal/application/service/metadata_vfs_service.go:349-366 | succeeds exactly on live nodes that are neither root nor mount, and then soft-deletes what the repository's query matches |
| `MetadataVfs.MetadataVFSService.UpdateMetadataSubtreePath` | backend/internal/application/service/metadata_vfs_service.go:422-458 | one transaction: all selected rows and locators are rewritten, or nothing is; on a planned rewrite, locators agreeing with the tree, it succeeds exactly when the query selects anything and the new paths and locators are free, of others and of each other |
| `MetadataVfs.MetadataVFSService.RewriteRows` | backend/internal/application/service/metadata_vfs_service.go:438-456 | the loop rewrites the selected rows and nothing else, ids kept; on a planned rewrite, locators agreeing, it gets through exactly when their new paths and locators are free, of others and of each other |
| `MetadataVfs.MetadataVFSService.EnsureSubtreeTargetAvailable` | backend/internal/application/service/metadata_vfs_service.go:532-552 | a conflict is reported only when a target path belongs to a row outside the subtree, and, live paths being distinct, always then |
| `MetadataVfs.MetadataVFSService.EnsureMetadataNameAvailable` | backend/internal/application/service/metadata_vfs_service.go:406-420 | available exactly when the path has no ".." and no live row |
| `MetadataVfs.MetadataVFSService.ResolveNode` | backend/internal/application/service/metadata_vfs_service.go:123-137 | finds the live row at the normalized path, or says why there is none |
| `MetadataVfs.MetadataVFSService.SyncPathBasedObjectLocator` | backend/internal/application/service/metadata_vfs_service.go:460-490 | the object of a file with a source gets the node's inner path, and nothing else, as locator if its type is `local_path`, `driver_path` or `provider_path`, and stays otherwise; a failure changes nothing |
| `MetadataVfs.MetadataVFSService.EnsureRoot` | backend/internal/application/service/metadata_vfs_service.go:101-121 | upserts the root row at "/" |
| `MetadataVfs.AnsweredIff` | backend/internal/application/service/metadata_vfs_service.go:288-296 | after a rewrite the new path resolves to the node exactly when the query had selected its own row, that is, unless the path ends in white space and the name is not all white space; it never resolves to another row |
| `DirectoryKinds.RenamePlannedIff` | backend/internal/application/service/metadata_vfs_service.go:260-290 | a rename gets past its checks exactly for a live row that is a virtual directory, directory or file, a valid and different name, and a vacant path without ".." beside the old one |
| `DirectoryKinds.MovePlannedIff` | backend/internal/application/service/metadata_vfs_service.go:301-340 | a move exactly for such a row and a live row that is no file, on the same source and mount, not its parent and not in its subtree by parent pointers, with the new path vacant |
| `DirectoryKinds.MkdirPlannedIff` | backend/internal/application/service/metadata_vfs_service.go:220-245 | a directory may be made exactly below any live row that is no file, under a valid name, at a vacant path |
| `DirectoryKinds.DeletePlannedIff` | backend/internal/application/service/metadata_vfs_service.go:349-366 | exactly virtual directories, directories and files may be deleted |
| `DirectoryKinds.MkdirAgreesWithCommit` | backend/internal/application/service/metadata_vfs_service.go:239-256 | below a directory as a commit leaves it, `Mkdir` makes the directory, of the kind and source, that a commit of the source would make there, except at the mount point itself |
| `TreeRuns.EmptyTablesWillDo` | backend/internal/application/service/metadata_vfs_service.go:101-121 | the run theorem may start from empty tables |
| `TreeRuns.EveryRunKeepsTheTree` | backend/internal/application/service/metadata_vfs_service.go:101-366 | in every run of EnsureRoot, Mkdir, Rename, Move and Delete from any tables that hold a well-formed tree or nothing, with files and objects whose locators agree, careful requests keep them so |
| `TreeRuns.StepKeeps` | backend/internal/application/service/metadata_vfs_service.go:101-366 | each single request that is careful or changes nothing keeps that invariant, whatever it answers |
| `TreeRuns.DeleteStepKeeps` | backend/internal/application/service/metadata_vfs_service.go:349-366 | a delete that leaves no orphan keeps the tree well formed and locators in agreement |
| `TreeRuns.Serve` | backend/internal/application/service/metadata_vfs_service.go:101-366 | a request handed to the service does what the runs take it to do |
| `TreeRuns.StepIsSoundIffCareful` | backend/internal/application/service/metadata_vfs_service.go:260-366 | a request that changed anything leaves a linked tree, or nothing, if and only if it is careful: a renamed or moved path does not end in white space, a delete leaves no orphan |
| `TreeRuns.RunIsSoundIffCareful` | backend/internal/application/service/metadata_vfs_service.go:101-366 | a run keeps the tree linked throughout if and only if every request that changed something was careful |
| `TreeRuns.DeleteIsSoundIff` | backend/internal/infrastructure/persistence/gorm/vfs_metadata_repo_impl.go:61-88 | a delete leaves a linked tree or nothing if and only if the trimmed prefix takes everything, or lies at or above the path, or the node has no child |
| `TreeRuns.DeleteTakesTheSubtree` | backend/internal/application/service/metadata_vfs_service.go:349-366 | a delete takes exactly the nodes whose chain of parents runs through the node if and only if the path does not end in white space or its trimmed form has the same rows below it |
| `TreeRuns.SameRowsBelowIff` | backend/internal/infrastructure/persistence/gorm/vfs_metadata_repo_impl.go:61-88 | when that is: for a name that is all white space, if the node is an only child below a parent other than the root; else, if it has no child and nothing lies below its trimmed form |
| `BlankPaths.DeleteLeavesAnOrphan` | backend/internal/infrastructure/persistence/gorm/vfs_metadata_repo_impl.go:61-88 | with "/a " and "/a" side by side, deleting "/a " leaves its child without a parent and takes the child of "/a" |
| `BlankPaths.RenameMovesTheNeighbour` | backend/internal/infrastructure/persistence/gorm/vfs_metadata_repo_impl.go:127-141 | there, a rename of "/a " to "b" is planned, and its rewrite leaves its own row as it is and puts "/a" at "/b/a"; the tree is not linked any more |
| `BlankPaths.RenameFailsAndChanges` | backend/internal/application/service/metadata_vfs_service.go:288-296 | the service itself, asked for that rename: it answers with an error, and the tables are the rewritten ones |
| `BlankPaths.BlankRenameIsRefused` | backend/internal/application/service/metadata_vfs_service.go:438-456 | a name of one blank: with "/x", "/x/ " and "/x/ /x", renaming "/x/ " to "b" would put two rows at "/x/b/x" and is refused |
| `BlankPaths.RenameTakesAccess` | backend/internal/application/service/acl_authorizer.go:448-472 | with "/x" and its child "/x/ ", renaming the child to "b" puts "/x" below it: a rule that allows everything below "/x" allowed the child before and does not afterwards |
| `BlankPaths.MoveGivesAccess` | backend/internal/application/service/acl_authorizer.go:448-472 | with "/a ", "/a" and "/t", moving "/a " below "/t" takes "/a" there: a rule that allows everything below "/t" now allows it |
| `WayBack.RenameBackRestores` | backend/internal/application/service/metadata_vfs_service.go:260-299 | after a rename, old and new path not ending in white space, the rename back is planned exactly when `validateFileName` accepts the old name, goes through exactly when the old keys of the moved files are free (as they are when keys are unique and locators hold a path only), and restores every row, and all objects exactly when those locators hold a path only |
| `WayBack.RowsComeBackIff` | backend/internal/application/service/metadata_vfs_service.go:422-458 | for any new name: rewriting back to the old place restores every row if and only if the new path does not end in white space |
| `Irreversible.ThereAndNotBack` | backend/internal/application/service/metadata_vfs_service.go:260-299 | the service renames a directory to a name that ends in white space, and refuses to rename it back |
| `Irreversible.SuchNames` | backend/internal/application/service/local_storage_helpers.go:105-116 | the names "x" and "b " are such a pair, "x" and "y" one for the next row |
| `Irreversible.MembersAreLost` | backend/internal/application/service/metadata_vfs_service.go:460-490 | the service renames a file and renames it back; the rows are as they were, but its locator, which held more than a path, is not |
| `WayBack.MoveBackRestores` | backend/internal/application/service/metadata_vfs_service.go:301-346 | the same for a move of a path that does not end in white space; moving back is planned exactly when the old parent is a directory of the node's mount and source |
| `WayBack.RenameThereAndBack` | backend/internal/application/service/metadata_vfs_service.go:260-299 | the service, asked for both, leaves the tables as they were; if the first rename succeeds so does the second |
| `WayBack.MoveThereAndBack` | backend/internal/application/service/metadata_vfs_service.go:301-346 | the same for two moves |
| `WayBack.ObjectsComeBackIff` | backend/internal/application/service/metadata_vfs_service.go:460-490 | after the way back the locator of every moved file holds its old inner path and nothing else, all other objects are as they were; so all are restored exactly when those locators held nothing else before |
| `WayBack.WayBackIsFreeIff` | backend/internal/application/service/metadata_vfs_service.go:460-490 | the object table admits the locators of the way back exactly when their keys were free at the start |
| `MixedRuns.Handle` | backend/internal/application/service/metadata_vfs_service.go:101-366 | each request, handed to the service that answers it, does what the mixed runs take it to do |
| `MixedRuns.MixedStepKeepsIff` | backend/internal/application/service/metadata_vfs_service.go:101-366 | a request to any of the four services keeps the tree linked, object keys and mounts unique and one enabled mount for each source, if and only if it changed nothing or is careful; only the metadata service can be careless |
| `MixedRuns.MixedRunIsSoundIffCareful` | backend/internal/application/service/metadata_vfs_service.go:101-366 | the same for whole runs in which service calls, commits, refreshes and mount synchronization take turns, whatever the listings |
| `MixedRuns.Refresh` | backend/internal/application/service/metadata_vfs_sync_service.go:115-128 | a refresh with the mount row of its target looked up does what the runs take it to do |
| `LocatorSteps.CommitKeepsLocatorsIff` | backend/internal/application/service/metadata_vfs_commit_service.go:133-193 | a commit keeps the locators of all live path-based files in agreement with the tree if and only if its own is the inner path the metadata service gives the new file; files go on naming objects in the table |
| `LocatorSteps.DefaultCommitAgreesIff` | backend/internal/application/service/metadata_vfs_commit_service.go:340-387 | a request that leaves inner path and locator to the service brings such a locator if and only if the source's mount encloses the virtual directory |
| `LocatorSteps.RefreshKeepsLocatorsIff` | backend/internal/application/service/metadata_vfs_sync_service.go:435-489 | a refresh keeps locators in agreement if and only if every entry it copies brings the inner path the metadata service gives its row |
| `LocatorSteps.PlainEntryAgreesIff` | backend/internal/application/service/metadata_vfs_sync_service.go:743-775 | a listed file without a locator of the driver's own brings such a locator if and only if the refresh asked for the inner path the metadata service gives the directory |
| `LocatorSteps.MountStepTouchesNoFile` | backend/internal/application/service/metadata_vfs_mount_service.go:93-207 | synchronizing and disabling mounts changes no file but for its sync state and mount |
| `LocatorSteps.RemountKeepsLocatorsIff` | backend/internal/application/service/metadata_vfs_service.go:503-530 | registering a source anew keeps locators in agreement if and only if no live path-based file is its own or its mount is the same |
| `WholeRuns.TreeStepKeepsLocators` | backend/internal/application/service/metadata_vfs_service.go:101-366 | every request to the metadata service, careful or not, keeps locators in agreement |
| `WholeRuns.LocatorsKeptIff` | backend/internal/application/service/metadata_vfs_service.go:460-490 | a request to any of the four services keeps locators in agreement if and only if it changed nothing or what it brought agrees |
| `WholeRuns.KindsKeptIff` | backend/internal/application/service/metadata_vfs_sync_service.go:289-433 | a careful request keeps parents directories if and only if it changed nothing or its listing makes no file of a directory with children |
| `WholeRuns.WholeStepKeepsIff` | backend/internal/application/service/metadata_vfs_service.go:101-366 | a request to any of the four services keeps tree, kinds, keys, mounts and locators together if and only if it changed nothing, or is careful, brings locators that agree, and lists no directory with children as a file |
| `WholeRuns.EmptyTablesAreWhole` | backend/internal/application/service/metadata_vfs_service.go:101-121 | such runs may start from empty tables |
| `WholeRuns.WholeRunIsSoundIff` | backend/internal/application/service/metadata_vfs_service.go:101-366 | the same for whole runs in which all writers take turns |
| `Acl.AclEvaluator.AllowTarget` | backend/internal/application/service/acl_authorizer.go:278-306 | on rules sorted by falling priority the early-exit loop decides: deny if any top-priority match denies, else allow if one allows; whatever is cached. In terms of the rules: allowed exactly if some rule of the user that matches the target and has the flag of the action says "allow", and every other such rule has a lower priority, or the same and does not say "deny" |
| `Acl.AclEvaluator.ResolveRuleNode` | backend/internal/application/service/acl_authorizer.go:346-360 | the node cache is transparent: the answer is what the read model says |
| `Acl.AclEvaluator.MatchRule` | backend/internal/application/service/acl_authorizer.go:308-326 | a rule bound to a node is matched by node, or by path when the target node is unknown; the others by their path snapshot |
| `Acl.AclEvaluator.AllowVirtualPathWithNodeID` | backend/internal/application/service/acl_authorizer.go:254-276 | outside the mount the answer is no; inside it is the decision about the node found by id or by path |
| `Acl.OrderIsIrrelevant` | backend/internal/application/service/acl_authorizer.go:278-306 | rules of equal priority may come in any order |
| `Acl.AddingADenyNeverGrants` | backend/internal/application/service/acl_authorizer.go:278-306 | one more deny rule never grants |
| `Acl.AddingAnAllowNeverRevokes` | backend/internal/application/service/acl_authorizer.go:278-306 | one more allow rule never revokes |
| `Acl.DecisionSpelledOut` | backend/internal/application/service/acl_authorizer.go:278-306 | the decision in terms of the rules: some rule about the user, target and action says "allow", and each other one has a lower priority, or the same and does not say "deny" |
| `AclFlags.NoFlagNoAccess` | backend/internal/application/service/acl_authorizer.go:495-508 | if no rule has the flag of the action (read, write, delete, share), the answer is no |
| `AclFlags.OtherFlagsDoNotMatter` | backend/internal/application/service/acl_authorizer.go:495-508 | two lists that differ only in the flags of the three other actions give the same answer |
| `AclFlags.OnlyRuleDecides` | backend/internal/application/service/acl_authorizer.go:278-306 | if one rule alone is about the user, target and action, the answer is yes exactly if it says "allow" |
| `AclFlags.OnlyTheUsersRulesCount` | backend/internal/application/service/acl_authorizer.go:280-284 | if every rule is about somebody else or a group, the answer is no |
| `AclFlags.PathRuleCovers` | backend/internal/application/service/acl_authorizer.go:474-493 | a rule without a node covers its path, and if it inherits every path whose segments its own are a prefix of: its virtual path if it has one, else its path in the source |
| `AclFlags.NodeRuleCovers` | backend/internal/application/service/acl_authorizer.go:308-326 | a rule bound to a live node covers that node, and if it inherits the descendants by parent pointer; bound to a row that is gone it covers nothing |
| `AclTree.NodeAndPathMatchingAgree` | backend/internal/application/service/acl_authorizer.go:448-472 | for live nodes matching by node and by stored path agree |
| `AclTree.BoundRuleCoversSubtree` | backend/internal/application/service/acl_authorizer.go:448-459 | a rule bound to a node covers that node, and with inheritance exactly its descendants along parent pointers |
| `AclTree.RenameKeepsEveryDecisionIff` | backend/internal/application/service/acl_authorizer.go:278-326 | a rename that rewrites anything changes no decision about any live node, under any rules bound to nodes, if and only if the old name is not all white space |
| `AclTree.MoveKeepsDecisionsIff` | backend/internal/application/service/acl_authorizer.go:278-326 | a move that rewrites anything changes no decision about nodes outside the moved subtree, under any rules bound to nodes, if and only if the path does not end in white space, or the name is not all white space and the query selects the new parent or nothing; and none at all under rules bound inside the subtree if and only if the name is not all white space |
| `AclTree.CoverageDecides` | backend/internal/application/service/acl_authorizer.go:278-326 | decisions depend on a tree only through which bound nodes cover the target |
| `AclTree.CoverageShows` | backend/internal/application/service/acl_authorizer.go:278-326 | where the coverage of one node differs, some rule bound to it decides differently |
| `RefreshService.MetadataVFSSyncService.ApplyRemoteEntries` | backend/internal/application/service/metadata_vfs_sync_service.go:289-433 | for any listing: control nodes not listed twice stay, single names become indexed copies with their objects, repeated names and identity clashes become conflicts, unlisted children and their objects become missing, and every counter is the size the listing dictates; each child becomes what its kind and the entries that name it say (`RefreshKinds.ChildBecomes`) |
| `RefreshService.MetadataVFSSyncService.RefreshPath` | backend/internal/application/service/metadata_vfs_sync_service.go:115-207 | a refused refresh changes nothing, a failed listing only puts the target in error, and a conflict is reported exactly when the listing had one |
| `RefreshService.MetadataVFSSyncService.TallyNames` | backend/internal/application/service/metadata_vfs_sync_service.go:311-323 | counts every valid name and remembers its first entry; the rest are invalid |
| `RefreshService.MetadataVFSSyncService.WriteDuplicates` | backend/internal/application/service/metadata_vfs_sync_service.go:325-337 | exactly the names listed more than once are written as conflict nodes, in whatever order |
| `RefreshService.MetadataVFSSyncService.IndexEntries` | backend/internal/application/service/metadata_vfs_sync_service.go:339-391 | the loop over the listing deals with each name once |
| `RefreshService.MetadataVFSSyncService.UpsertRemoteChild` | backend/internal/application/service/metadata_vfs_sync_service.go:435-489 | writes the entry's object and row, and says whether the row is new or changed |
| `RefreshService.MetadataVFSSyncService.MarkMissingChildren` | backend/internal/application/service/metadata_vfs_sync_service.go:393-415 | marks missing exactly the unlisted children that are neither `mount` nor `virtual_dir`, and their objects; every other row stays |
| `RefreshService.MetadataVFSSyncService.MarkObjectMissing` | backend/internal/application/service/metadata_vfs_sync_service.go:562-576 | marks an object missing; an unknown id is no error |
| `RefreshTheory.RefreshIsIdempotent` | backend/internal/application/service/metadata_vfs_sync_service.go:289-433 | refreshing again with the same listing leaves tree and objects, indexes and updates nothing, and reports the same seen, missing and conflicting numbers |
| `RefreshTheory.RefreshIsDeterministic` | backend/internal/application/service/metadata_vfs_sync_service.go:325-415 | two refreshes from the same tables report the same numbers and leave every old row and every listed child alike up to new object ids, so map order does not show |
| `RefreshTheory.ChildrenAreAccountedFor` | backend/internal/application/service/metadata_vfs_sync_service.go:289-433 | every child of a refreshed directory is of exactly one kind - untouched control node, indexed copy, conflict, missing - and the target is in conflict exactly when the conflict count is positive |
| `RefreshTheory.RefreshKeepsWellFormedIff` | backend/internal/application/service/metadata_vfs_sync_service.go:289-433 | a refresh keeps parents directories if and only if no child directory that has a live child is listed as a file, once and not as a control node, or several times and first as a file |
| `RefreshTheory.ParentBecomesFile` | backend/internal/application/service/metadata_vfs_sync_service.go:435-489 | such a case: "/d" holds a file and the provider lists "d" as a file |
| `RefreshTheory.ChangedAlike` | backend/internal/application/service/metadata_vfs_sync_service.go:814-829 | whether a child counts as updated does not depend on the ids new objects got |
| `RefreshKinds.ChildBecomes` | backend/internal/application/service/metadata_vfs_sync_service.go:325-415 | what becomes of each child, by its kind and the entries that name it: mounts and virtual directories named at most once are exactly as they were; other children become missing if no entry names them, a copy of the entry if one does, in conflict if it means another item, and a conflict row of the first entry if several do |
| `RefreshKinds.NewChildBecomes` | backend/internal/application/service/metadata_vfs_sync_service.go:325-391 | a listed name without a child gets one, a copy or a conflict row alike |
| `RefreshKinds.HowListed` | backend/internal/application/service/metadata_vfs_sync_service.go:301-323 | the counts the service keeps say whether a valid name is listed never, once or again |
| `RefreshKinds.ListedRow` | backend/internal/application/service/metadata_vfs_sync_service.go:435-489 | the row made from an entry, column by column |
| `RefreshKinds.ListedObject` | backend/internal/application/service/metadata_vfs_sync_service.go:743-775 | the locator of a listed file: the driver's own if there is one; else provider id, parent id and path, with the type they call for |
| `RefreshKinds.NameOfEntry` | backend/internal/application/service/metadata_vfs_sync_service.go:686-694 | the name of an entry is the one it carries, else the last segment of its path |
| `RefreshKinds.ConflictFreeIff` | backend/internal/application/service/metadata_vfs_sync_service.go:417-433 | a refresh reports no conflict, and leaves the target indexed, exactly if all names are valid, none is listed twice, and no child is listed as another item |
| `RefreshKinds.ReportCounts` | backend/internal/application/service/metadata_vfs_sync_service.go:289-433 | the numbers of the report; a child counts as updated exactly if its copied row differs from the old one in more than the mount |
| `RefreshKinds.ObjectAfter` | backend/internal/application/service/metadata_vfs_sync_service.go:538-576 | every object is that of a copied file, with its size, etag, checksum and MIME type, or as it was; and it is marked missing exactly if a child that goes missing has it |
| `RefreshKinds.ControlRowStays` | backend/internal/application/service/metadata_vfs_sync_service.go:809-812 | a mount or virtual directory stays as it was under every refresh, unless it is the target itself or listed more than once |
| `MountRefresh.MountNodesStay` | backend/internal/application/service/metadata_vfs_sync_service.go:809-812 | so does the node of every mount, as long as its row is a mount, a virtual directory or the root |
| `MountRefresh.MountSurvivesRefresh` | backend/internal/application/service/metadata_vfs_mount_service.go:140-158 | the node a source was just mounted on survives every refresh that does not list its name more than once: live at the mount path, with source and mount |
| `RefreshSteps.UpsertHitsTheChild` | backend/internal/application/service/metadata_vfs_sync_service.go:435-489 | an upsert at the child path hits the existing child of that name, or a new row |
| `RefreshSteps.RefreshIsDone` | backend/internal/application/service/metadata_vfs_sync_service.go:393-432 | dealing with all names, marking the unlisted children and writing the target's state add up to the specified refresh |
| `RefreshService.NeverRefused` | backend/internal/application/service/metadata_vfs_sync_service.go:367-380 | on a linked tree the unique indexes never refuse a listed child, so the name-conflict branch is not taken |
| `Listing.OnlyEntry` | backend/internal/application/service/metadata_vfs_sync_service.go:339-350 | the entry of a name listed once is its first entry, and nothing before it has the name |
| `CommitService.MetadataVFSCommitService.CommitFileObject` | backend/internal/application/service/metadata_vfs_commit_service.go:97-197 | succeeds exactly when no row on the way is a file or of another source and no directory stands at the file path; then the commit took place, the tree is linked, and well formed if it was, else nothing changed. In terms of the request: the file stands under its name in the virtual parent it names; without one, below the mount in the resolved inner parent, or in the directory of the object path; size, etag, checksum, MIME type, source, driver, locator type and locator are those of the request or their defaults |
| `CommitService.MetadataVFSCommitService.EnsureCommitParentPath` | backend/internal/application/service/metadata_vfs_commit_service.go:199-277 | the segment loop is the specified walk; it fails only when a row is in the way |
| `CommitService.MetadataVFSCommitService.EnsureDirectory` | backend/internal/application/service/metadata_vfs_commit_service.go:216-275 | one segment: adjusts the directory at its path, creates it, or refuses |
| `Commit.CommitIsIdempotent` | backend/internal/application/service/metadata_vfs_commit_service.go:97-197 | committing the same file again changes nothing and answers with the same node and object |
| `Commit.CommitPlacesTheFile` | backend/internal/application/service/metadata_vfs_commit_service.go:133-193 | the file is live at the virtual parent joined with its name, below the live parent, with its object; rows change only at or above it; the root row is written without source and mount |
| `Commit.CommitSettlesTheAncestors` | backend/internal/application/service/metadata_vfs_commit_service.go:216-275 | every directory on the way is live with the kind and source its place asks for |
| `Commit.KindsOnTheWay` | backend/internal/application/service/metadata_vfs_commit_service.go:463-495 | above the mount a `virtual_dir` without source, at the mount a `mount`, below it a `dir` of the source |
| `Commit.CommitKeepsTheTree` | backend/internal/application/service/metadata_vfs_commit_service.go:97-197 | a commit keeps the tree linked, well formed if it was, and object keys unique |
| `Commit.VirtualParentIsCanonical` | backend/internal/application/service/metadata_vfs_commit_service.go:319-338 | the virtual parent worked out from a request is canonical; which one it is, is the matter of `CommitPlaces.CommitDoesAsAsked` |
| `CommitPlaces.CommitDoesAsAsked` | backend/internal/application/service/metadata_vfs_commit_service.go:302-387 | a commit that went through, in terms of the request: where the file stands, and what row and object say of it |
| `CommitPlaces.PlannedIff` | backend/internal/application/service/metadata_vfs_commit_service.go:97-131 | a request gets past the checks before the transaction if and only if the name is valid, source and driver are known, it means a directory, and its paths in the source are valid |
| `CommitPlaces.NewRowsAreOnParentsMount` | backend/internal/application/service/metadata_vfs_commit_service.go:133-277 | every row a commit adds below the root is on the mount of its parent |
| `Obstacles.WayBlockedBySomeRow` | backend/internal/application/service/metadata_vfs_commit_service.go:199-277 | a commit is refused on its way exactly by a live file there, or by a directory of another source at a place this one owns |
| `DirChains.ChainKeeps` | backend/internal/application/service/metadata_vfs_commit_service.go:199-277 | walking down a path keeps the tree linked, and well formed if it was, changes rows only on the way, and leaves every directory as wanted |
| `DirChains.ChainFailsIffBlocked` | backend/internal/application/service/metadata_vfs_commit_service.go:226-232 | the walk gives up exactly when some row of the original table is in its way |
| `DirChains.SettledChainStands` | backend/internal/application/service/metadata_vfs_commit_service.go:226-251 | walking down a path whose directories are as wanted changes nothing |
| `MountService.MetadataVFSMountService.SyncSourceMount` | backend/internal/application/service/metadata_vfs_mount_service.go:93-167 | succeeds exactly when the path is reusable, the walk to the node is not blocked and the node carries no other mount; then node and mount row are written and the source's other mounts disabled; else nothing changed |
| `MountService.MetadataVFSMountService.DisableSourceMount` | backend/internal/application/service/metadata_vfs_mount_service.go:196-207 | disables every mount of the source and marks their nodes stale |
| `MountService.MetadataVFSMountService.DisableOtherSourceMounts` | backend/internal/application/service/metadata_vfs_mount_service.go:358-404 | exactly the other mounts of the source are disabled, their live nodes stale, and the ids that were enabled returned |
| `MountService.MetadataVFSMountService.EnsureSourceMountNode` | backend/internal/application/service/metadata_vfs_mount_service.go:209-305 | the segment loop is the specified walk to the mount node |
| `MountService.MetadataVFSMountService.EnsureMountPathReusable` | backend/internal/application/service/metadata_vfs_mount_service.go:330-342 | refuses exactly another source's enabled mount path |
| `MountService.MetadataVFSMountService.MountNodeReusableForSource` | backend/internal/application/service/metadata_vfs_mount_service.go:344-356 | a node may be taken over unless another source's enabled mount is on it |
| `MountService.MountStore.UpsertByMountPath` | backend/internal/infrastructure/persistence/gorm/vfs_metadata_repo_impl.go:414-434 | writes the row of the mount path and keeps its id; refused exactly when the node carries a mount with another path |
| `MountService.MountStore.FindMountForSyncTarget` | backend/internal/application/service/metadata_vfs_sync_service.go:276-288 | the mount the node names, or for a mount node that names none the mount that hangs on it |
| `MountSync.SyncKeepsTheTables` | backend/internal/application/service/metadata_vfs_mount_service.go:93-167 | after a sync the mount node is live at the mount path, names its mount and source, and only this mount of the source can be enabled |
| `MountSync.NoTakeover` | backend/internal/application/service/metadata_vfs_mount_service.go:330-385 | a sync leaves every enabled mount of another source as it was |
| `MountSync.EveryRunKeepsMounts` | backend/internal/application/service/metadata_vfs_mount_service.go:93-207 | in every run of syncs and disablings each source has at most one enabled mount at any time, and an enabled mount keeps its row until a request of its own source |
| `Obstacles.MayMountIffNothingBars` | backend/internal/application/service/metadata_vfs_mount_service.go:330-356 | a source may be mounted at a path if and only if no other source holds it by an enabled mount, no live file stands on the way, and the row there carries no mount with another path |
| `Obstacles.SyncUnbarred` | backend/internal/application/service/metadata_vfs_mount_service.go:93-158 | `SyncSourceMount` succeeds exactly then, for a source with an id and valid paths; every mount goes on hanging on a stored node |
| `Obstacles.SyncMountRows` | backend/internal/application/service/metadata_vfs_mount_service.go:358-385 | a sync disables the other mounts of the source and changes nothing else about any other mount |
| `Obstacles.SyncLeavesTheRest` | backend/internal/application/service/metadata_vfs_mount_service.go:358-404 | off the way to the mount path only the nodes of the source's other mounts change, and they become stale |
| `Obstacles.SyncSettlesTheAncestors` | backend/internal/application/service/metadata_vfs_mount_service.go:226-305 | above the mount stand virtual directories without a source |
| `InnerPaths.AllInnerPathsAgree` | backend/internal/application/service/legacy_file_facade.go:272-298 | for any mount path that normalizes, an empty one meaning "/": inside the mount the legacy facade, shares, ACL (both places), commit and metadata service compute the same inner path, the one that merges back; a refresh computes it too if and only if the mount path it goes by, from the mount row of its target or from a mount node, is the source's |
| `InnerPaths.OutsideTheMount` | backend/internal/application/service/share_service.go:1006-1032 | outside the mount four of the seven say so: no path, not found, denied or invalid; the commit and the evaluator's `innerPathForVirtualPath` answer with the whole virtual path; a refresh answers with an inner path exactly when the mount row of its target, or the mount node it is, has a mount path that encloses the target, and that is the path that merges back with it |
| `InnerPaths.RefreshAnswers` | backend/internal/application/service/metadata_vfs_sync_service.go:210-250 | for any target, mount row and source: a refresh asks its provider for the path that merges with the mount path it goes by to give the target's path back, and calls the path invalid if there is none |
| `StaleMounts.OldMountIsStillNamed` | backend/internal/application/service/metadata_vfs_mount_service.go:358-404 | after a source is mounted elsewhere its old mount row keeps its path, and the nodes that named it go on naming it |
| `StaleMounts.StaleRefresh` | backend/internal/application/service/metadata_vfs_sync_service.go:214-238 | so a refresh of such a node asks for the inner path below the old mount, and the metadata service, which goes by the source, never gives that answer |
| `StaleMounts.RefreshAfterMove` | backend/internal/application/service/metadata_vfs_sync_service.go:276-288 | the services themselves, with a source that went from "/m" to "/n": the sync goes through, a refresh of "/m/d" asks for "/d", and the metadata service finds the path invalid |
| `TaskTargets.RebaseIsMergeIff` | backend/internal/application/service/task_service.go:1245-1270 | whatever a task recorded, the rebased parent of an imported file is the merge through the mount exactly when the file is not below the recorded directory or the recorded virtual directory is the merge of the recorded inner one |
| `TaskTargets.CreatedTargetsRebase` | backend/internal/application/service/task_service.go:379-432 | for a task as it was created, rebasing equals merging through the mount if and only if the target is not the mount point itself or the mount path does not end in white space |
| `TaskTargets.BlankMountDiverges` | backend/internal/application/service/task_service.go:1249-1266 | such a case: the source at "/m " commits the directory "/x" of a download at "/m/x", not at "/m /x" |
| `Shares.ResolvedStaysInside` | backend/internal/application/service/share_service.go:968-1004 | a valid request resolves to the merge of share root and relative path, always at or below the root; the last check never fails |
| `Shares.RelativeOfResolved` | backend/internal/application/service/share_service.go:1186-1202 | the public path of a resolved request is the normalized request |
| `Shares.ResolvedOfRelative` | backend/internal/application/service/share_service.go:1186-1202 | resolving the public path of an item inside the share gives the item back |
| `Shares.BuildPublicShareBreadcrumbs` | backend/internal/application/service/share_service.go:1230-1252 | the loop builds the share itself and every ancestor of the path down to the path, with their names |
| `Shares.TrailIsTheAncestorChain` | backend/internal/application/service/share_service.go:1204-1252 | the parent path of each breadcrumb is the previous one, and the last is the path itself |
| `Projection.BuildMountEntries` | backend/internal/application/service/vfs_registry.go:142-164 | one entry for each source with a mount path, normalized; one invalid path fails the whole list |
| `Projection.HasMountPathConflict` | backend/internal/application/service/vfs_registry.go:47-69 | true exactly when a mount of another source has the normalized path |
| `Projection.ProjectVirtualDirsFromMounts` | backend/internal/application/service/vfs_registry.go:94-140 | sorted by name, one directory for each next segment on the way to a mount strictly below the prefix, flagged as mount point exactly when a mount sits at its path |
| `Projection.CutIsNextSegment` | backend/internal/application/service/vfs_registry.go:109-119 | cutting the prefix off a mount path and taking the part before the first slash yields the next segment |
| `Projection.EveryMountIsReached` | backend/internal/application/service/vfs_registry.go:94-140 | walking projections from "/" reaches every mount |
| `Projection.PureVirtualIsProjected` | backend/internal/application/service/vfs_path.go:97-121 | a path is purely virtual exactly when no mount encloses it and its projection is not empty |
| `RssService.RSSService.EnqueueItemWithAttempt` | backend/internal/application/service/rss_service.go:1360-1430 | the attempt as specified: nothing for active or completed items, the retry counted before the task is created, at most one new task |
| `RssService.RSSService.ProcessItem` | backend/internal/application/service/rss_service.go:1323-1354 | an item whose task is under way or that is completed stays; else it is tried with the subscription at the least place of the list that exists, is enabled, is of its source and matches: a task is created for it, or the failure recorded on its row; and it is ignored exactly if there is no such place |
| `RssService.RSSService.UpsertFetchedItem` | backend/internal/application/service/rss_service.go:1269-1321 | finds the item by source and key or creates it; only new, ignored and unsupported items change status |
| `RssService.RSSService.MarkItemRetryOrAttention` | backend/internal/application/service/rss_service.go:2118-2158 | keeps a completed result, else waits for a retry exactly when the error is retryable and retries are left |
| `RssService.RSSService.PreserveCompletedResult` | backend/internal/application/service/rss_service.go:3156-3172 | an item with a result is put back to completed |
| `RssService.RSSService.ApplyBacklink` | backend/internal/application/service/rss_service.go:1967-1995 | the item takes over what its task came to |
| `RssService.RSSService.ReconcileStatus` | backend/internal/application/service/rss_service.go:1910-1942 | exactly one backlink for each task-bound item of the status while the limit lasts; items not taken keep their rows |
| `RssService.RSSService.ReconcileTaskBacklinks` | backend/internal/application/service/rss_service.go:1904-1944 | one pass for each of three statuses, over the rows that are in it when the pass begins; counts exactly the rows with a finished or lost task; below the limit every item that is enqueued, waits for a retry or needs attention and names a task gets a backlink |
| `RssService.RSSService.RetryOne` | backend/internal/application/service/rss_service.go:2007-2050 | one turn of the retry loop as specified |
| `RssService.RSSService.RetryDueItems` | backend/internal/application/service/rss_service.go:1997-2053 | the items that wait get their retry event once, in the order they are listed, against the subscription their row names; each found room below the limit, and the loop stopped early only because there was none left |
| `RssService.RSSService.RunRetryCycle` | backend/internal/application/service/rss_service.go:661-677 | reconciliation then retries, within the limit; every waiting item has its turn if and only if twice the count of reconciled items and the due items before the last one in the list stay below the limit |
| `RssService.RSSService.OnTaskTerminalStatus` | backend/internal/application/service/rss_service.go:680-685 | exactly one backlink for each item that names the finished task, none for an unfinished one |
| `RssService.RSSService.RefreshSource` | backend/internal/application/service/rss_service.go:1208-1266 | entry after entry of the feed is stored under its key and then processed exactly when its link is supported, the row is open to automatic processing and no task of it is active |
| `RssService.RSSService.RunSubscription` | backend/internal/application/service/rss_service.go:901-924 | fails exactly for an unknown subscription; else processes each open item of the source once against this subscription, and no other; only items that fit it while it is enabled are tried with it |
| `RssService.RSSService.IgnoreItem` | backend/internal/application/service/rss_service.go:1855-1888 | refused exactly for items with an active task or completed |
| `RssService.RSSService.ReprocessItem` | backend/internal/application/service/rss_service.go:990-1032 | the user's reprocess command as specified |
| `RssService.RSSService.RetryItem` | backend/internal/application/service/rss_service.go:1035-1063 | the user's retry command as specified; nothing happens without a subscription. The answer is the row as it is afterwards, or not found, or why there is no subscription |
| `RssService.RSSService.DownloadItem` | backend/internal/application/service/rss_service.go:1143-1191 | the user's download command as specified; the answer is the row as it is afterwards, or the error of the failed attempt |
| `RetryTurns.EveryTurnTaken` | backend/internal/application/service/rss_service.go:2007-2050 | every waiting item had its turn exactly when those listed before the last one left room for it |
| `RetryTurns.TurnsInAnyOrder` | backend/internal/application/service/rss_service.go:1997-2053 | in whatever order items are listed: everybody has a turn when the running count plus the due items stays below the limit, somebody has none when it exceeds it, nobody has one without room |
| `RetryCycles.SettledRowTakesTwoPlaces` | backend/internal/application/service/rss_service.go:661-677 | on two concrete items a cycle of limit 2 reconciles the one, and the other, which is due, has no turn |
| `RetryCycles.DueItemLeftOut` | backend/internal/application/service/rss_service.go:661-677 | the service itself, run on them, counts one item and retries none |
| `RssTheory.EveryRunKeepsInv` | backend/internal/application/service/rss_service.go:1269-2158 | every run of all events keeps the invariant; finished tasks and completed items never change again |
| `RssTheory.AutomaticTaskBudget` | backend/internal/application/service/rss_service.go:1323-1430 | without user commands an item gets at most one download task plus the default three retries |
| `RssTheory.TaskBudget` | backend/internal/application/service/rss_service.go:1997-2158 | in any run an item gets at most 1 + its retry limit + the number of user commands given for it |
| `RssTheory.AtMostOneUnfinishedTask` | backend/internal/application/service/rss_service.go:1360-1430 | at any time at most one of the tasks ever created for an item is unfinished, and it is the one the item names |
| `RssTheory.CompletedIsForever` | backend/internal/application/service/rss_service.go:3152-3172 | a completed item keeps status, result and task through every later event |
| `RssTheory.CompletedMeansResult` | backend/internal/application/service/rss_service.go:1967-1995 | an item is completed exactly when it has a result, and the result is that of its completed task |
| `RssTheory.FinishedTasksAreFinal` | backend/internal/application/service/task_service.go:915-922 | in every run a finished task is never touched again, task changes being those the task service makes (`DownloadTasks.TaskService` is proved to make no others) |
| `RssService.TasksExistInEveryRun` | backend/internal/application/service/rss_service.go:1360-1430 | in every run the task an item names is in the table |
| `RssTheory.CompletedTasksHaveResults` | backend/internal/application/service/task_service.go:996-1100 | in every run with a committer a download task is completed only with a result node, task changes being those the task service makes; that a completed import has one is `DownloadTasks.ImportLeavesResult` |
| `RssTheory.RetryDueIsOk` | backend/internal/application/service/rss_service.go:1997-2053 | a due retry stays within the budget |
| `RssTheory.RowStep` | backend/internal/application/service/rss_service.go:2118-2158 | a change of the row alone keeps the invariant if it neither frees a settled item nor drops a result |
| `RssMatching.FirstMatchFits` | backend/internal/application/service/rss_service.go:1331-1337 | the chosen subscription is the one at the least place that exists, is enabled, is of the item's source and matches; there is none exactly if no place holds such a one |
| `RssMatching.ProcessIsSpelledOut` | backend/internal/application/service/rss_service.go:1323-1354 | what processing does, in terms of the list and the tables: the task created and the row it leaves, or the failure and when the item is tried again |
| `RssMatching.AutoProcessIsSpelledOut` | backend/internal/application/service/rss_service.go:3174-3187 | the workers process exactly items with a supported link that are blank, new, ignored or matched and have no task under way |
| `RssMatching.BacklinkIsSpelledOut` | backend/internal/application/service/rss_service.go:1967-1995 | what a task does to its item: a result completes it; a completion without one, a failure, a cancellation and a task that is gone are failures; a task under way does nothing |
| `RssMatching.FetchIsSpelledOut` | backend/internal/application/service/rss_service.go:1269-1321 | what a feed entry does: a new item, new or unsupported; an old one takes over what was fetched, and is new or unsupported again only if it was new, ignored or unsupported |
| `RssMatching.RetryIsSpelledOut` | backend/internal/application/service/rss_service.go:1997-2070 | what the turn of a waiting item does, with all its branches |
| `RssMatching.IgnoreIsSpelledOut` | backend/internal/application/service/rss_service.go:1855-1888 | ignoring: nothing for completed items and items whose task is under way, else the row is ignored and cleared |
| `RssMatching.ReprocessIsSpelledOut` | backend/internal/application/service/rss_service.go:991-1033 | reprocessing: an unsupported link needs attention; completed items and items whose task is under way stay; any other is processed like a new one |
| `RssMatching.RetryCommandIsSpelledOut` | backend/internal/application/service/rss_service.go:2099-2116 | a retry by hand: nothing for such items, else an attempt that counts, with the failure recorded on the row as the attempt left it |
| `RssMatching.DownloadIsSpelledOut` | backend/internal/application/service/rss_service.go:1143-1192 | a download by hand: nothing for such items, else a task, or, whatever the refusal, an item in need of attention |
| `RssMatching.RetryUses` | backend/internal/application/service/rss_service.go:2072-2097 | a retry uses the subscription asked for, else the one the item is bound to, which has to exist and be of the item's source |
| `RssMatching.AutomaticTasksFit` | backend/internal/application/service/rss_service.go:1323-1354 | in every run of the service a task that processing creates is the item's, and belongs to a subscription that exists, is enabled, is of the item's source and matches it |
| `RssMatching.EveryRunStaysBound` | backend/internal/application/service/rss_service.go:2072-2097 | in every run whoever has a task is bound to a subscription of its own source |
| `RssService.FeedStepIsSpelledOut` | backend/internal/application/service/rss_service.go:1269-1321 | one feed entry: stored under its key, and processed exactly if the row is open to the workers |
| `DownloadTasks.TaskService.ImportCompletedTask` | backend/internal/application/service/task_service.go:996-1088 | the import as specified, through staging area, existing target or direct commit, and exactly when it succeeds |
| `DownloadTasks.TaskService.ImportStagedFiles` | backend/internal/application/service/task_service.go:1052-1087 | goes through exactly if each file is there and is imported and committed, or was there already or could not be committed and an earlier result is found; else it stops at the first that is not, with its error; the first node brought is the result |
| `DownloadTasks.TaskService.RefreshTask` | backend/internal/application/service/task_service.go:915-989 | a finished task is left alone, an unfinished one takes the reported status, a completed one only after its import; then its items are told |
| `DownloadTasks.TaskService.Cancel` | backend/internal/application/service/task_service.go:654-732 | cancels exactly unfinished tasks; on a finished one it only answers |
| `DownloadTasks.TaskService.Pause` | backend/internal/application/service/task_service.go:750-830 | succeeds exactly on pending and running tasks the downloader pauses |
| `DownloadTasks.TaskService.Resume` | backend/internal/application/service/task_service.go:833-913 | succeeds exactly on paused tasks the downloader resumes |
| `DownloadTasks.TaskService.SyncAll` | backend/internal/application/service/task_service.go:616-633 | every task in the table becomes what the downloader and the import make of it, finished ones stay; the whole table is stated |
| `DownloadTasks.ImportLeavesResult` | backend/internal/application/service/task_service.go:996-1100 | with a committer an import that succeeds leaves a result node, whichever way it went |
| `DownloadTasks.FirstCommitDecides` | backend/internal/application/service/task_service.go:1058-1087 | the first committed file decides the result of the task |
| `DownloadTasks.FilesInTurn` | backend/internal/application/service/task_service.go:1052-1087 | which staged files end an import, with which error, and which node becomes the result |
| `DownloadTasks.ImportSucceedsIff` | backend/internal/application/service/task_service.go:996-1088 | an import succeeds if and only if the conditions of its route hold: staged files, existing target or direct commit |
| `DownloadTasks.SyncIsSpelledOut` | backend/internal/application/service/task_service.go:915-994 | the row after a sync: finished and silent tasks stay, others follow the report, and a completion whose import fails is a failure |
| `RssTemplates.OneItemIsEnough` | backend/internal/application/service/rss_service.go:2701-2714 | a directory template is accepted on the empty item exactly when it renders for every item |
| `RssTemplates.EveryItemLandsBelowTheBase` | backend/internal/application/service/rss_service.go:2770-2809 | an accepted template puts every item at the base's segments followed by the template's, at or below the base |
| `RssTemplates.DotsComeFromTheTemplate` | backend/internal/application/service/rss_service.go:2830-2853 | two dots meet in a rendered template only where they also meet with every placeholder empty |
| `RssTemplates.SanitizedIsClean` | backend/internal/application/service/rss_service.go:2878-2900 | a sanitized segment has no slash, no forbidden character, no "..", no double blank, and no blank or dot at its ends |
| `RssTemplates.SanitizeIsIdempotent` | backend/internal/application/service/rss_service.go:2878-2900 | sanitizing twice is sanitizing once, and leaves exactly the clean segments alone |
| `RssTemplates.SanitizeRSSPathSegment` | backend/internal/application/service/rss_service.go:2878-2900 | the loop that shrinks dots ends and leaves one dot of each run |
| `RssTemplates.ValidatePlaceholders` | backend/internal/application/service/rss_service.go:2738-2759 | accepts exactly the templates whose braces enclose allowed tokens |
| `RssTemplates.SanitizeRSSRelativePath` | backend/internal/application/service/rss_service.go:2855-2877 | the non-empty sanitized segments joined by slashes; fails exactly on a backslash or ".." |
| `RssTokens.SegmentLeftAloneIff` | backend/internal/application/service/rss_service.go:2878-2900 | the sanitizer leaves a segment alone exactly if it holds no slash, backslash, < > : " ? *, vertical bar or control character, no white space but single blanks, no two dots in a row, and no blank or dot at either end |
| `RssTokens.PlaceholderShows` | backend/internal/application/service/rss_service.go:2830-2876 | a placeholder is accepted exactly if it names one of six values, and shows that value sanitized; a blank series name gives way to the title |
| `RssTokens.TextShowsItself` | backend/internal/application/service/rss_service.go:2738-2764 | other text shows itself, and a stray brace is refused |
| `RssTokens.DirectoryByPieces` | backend/internal/application/service/rss_service.go:2854-2876 | a rendered directory has one segment for each piece between slashes, sanitized; a piece of which nothing is left is dropped |
| `RssTokens.FilenameIs` | backend/internal/application/service/rss_service.go:2811-2828 | a rendered file name is the sanitized text, cut to 240 characters and trimmed if it is longer |
| `RssTokens.DirectoryTemplateAcceptedIff` | backend/internal/application/service/rss_service.go:2701-2736 | a directory template is accepted exactly if it is blank, or relative, without backslash, "..", drive or broken placeholder, and shows no ".." for the empty item |
| `RssFilenames.FilenameFailsExactly` | backend/internal/application/service/rss_service.go:2811-2828 | an accepted filename template fails for an item exactly when the rendered text holds ".." or starts like a drive |
| `RssFilenames.OneItemIsEnoughWithoutColon` | backend/internal/application/service/rss_service.go:2716-2736 | an accepted filename template without a colon renders for every item exactly when no two dots meet with every placeholder empty |
| `RssDrives.SevenItemsDecide` | backend/internal/application/service/rss_service.go:2716-2736 | an accepted filename template, with a colon or without, renders for every item exactly when it renders for the empty item and for six items of which one token shows |
| `RssDrives.SomeSampleDrives` | backend/internal/application/service/rss_service.go:2811-2828 | if the rendered text starts like a drive for some item, it does so for one of those seven |
| `RssFilenames.DottedTemplateFails` | backend/internal/application/service/rss_service.go:2731-2734 | `a.{season}.b` is accepted and fails for the empty item it was tried on |
| `RssFilenames.DriveTemplateFails` | backend/internal/application/service/rss_service.go:2721-2734 | `{season}:x` is accepted, renders for the empty item and fails for season S |
| `RssFilenames.RenderedFilenameIsSafe` | backend/internal/application/service/task_service.go:1279-1292 | a rendered filename is empty exactly for a blank text, else a valid name without "..", at most 240 characters long |
| `RssFilenames.OrdinarySurvives` | backend/internal/application/service/rss_service.go:2878-2900 | sanitizing drops no character other than white space, dots and forbidden ones |
| `Upload.UploadService.UploadChunk` | backend/internal/application/service/upload_service.go:487-536 | a chunk outside the range or different from the stored one is refused, an equal one is acknowledged, and nothing changes; a new one is stored and listed in order, and only stored if the session row cannot be written |
| `Upload.UploadService.FinishLocal` | backend/internal/application/service/upload_service.go:650-716 | incomplete exactly when the list is shorter than expected; else the target is the concatenation of all chunks, and stays on disk when the hash does not match |
| `Upload.FullListCoversAll` | backend/internal/application/service/upload_service.go:650-653 | comparing lengths decides completeness: a list that is long enough holds every index, and every chunk is stored |
| `Upload.FinishRebuildsTheFile` | backend/internal/application/service/upload_service.go:675-684 | in whatever order and however often a faithful client sends its chunks, once the length test passes assembling gives the original file |
| `Upload.ChunksCoverTheFile` | backend/internal/application/service/upload_service.go:160-163 | the expected number of chunks is the least positive number that covers the file |
| `Upload.InsertIsSortedAppend` | backend/internal/application/service/upload_service.go:520-523 | listing a chunk is appending and sorting |
| `Upload.CompletableIffNothingLost` | backend/internal/application/service/upload_service.go:502-528 | a session can still be completed exactly when no stored chunk has gone unlisted |
| `Upload.UnsavedChunkIsLost` | backend/internal/application/service/upload_service.go:502-528 | how a chunk gets lost: its file is stored and the session row is not saved; from then on no arrivals fill the list |
| `Upload.LostChunkStaysLost` | backend/internal/application/service/upload_service.go:502-528 | a chunk whose file was stored but whose session row was not is never listed again |
| `Upload.FirstContentWins` | backend/internal/application/service/upload_service.go:500-515 | the first content stored for an index stays, whatever arrives afterwards; sent again it is acknowledged, and any other content is refused |
| `Upload.SmallFilesAreOneChunk` | backend/internal/application/service/upload_service.go:160-163 | a session expects one chunk exactly if the size is at most the chunk size |

## Left out

- Timestamps, actor attribution, tags, search, listing views, column length limits and notifications.
- MetadataVfs.MetadataVFSService.UpdateMetadataSubtreePath: when it succeeds is stated for tables whose locators agree with
  the tree, as every run keeps them; otherwise it depends on the order of the loop.
- MetadataVfs.MetadataVFSService.RewriteRows: the same.
- MetadataVfs.MetadataVFSService.Rename: the same; what a failure leaves behind is stated for all tables.
- MetadataVfs.MetadataVFSService.Move: the same as for a rename.
- Database failures, except the lost session update of an upload; a failed transaction restores the old tables.
- Interleavings inside a service call: item locks, row locks and stale writes of concurrent calls.
- Authorization around the services; the access evaluator itself is modelled, for users that do not bypass it.
- JSON text: a locator is a map of strings compared by content; redaction of sensitive members and the MIME table are
  function parameters.
- Providers, downloaders, the file system and the clock: their answers are parameters. The classification of retry
  errors, the title parser and subscription matching are function parameters, too.
- Unicode decoding of invalid bytes: strings are sequences of characters.
- `path.Clean`, `path.Join`, `path.Dir`, `path.Base`, `strings.Fields` and the like are written out for the arguments the
  services pass; the regular expression of placeholders is written out for validated templates.
- Whether a pending retry ever fires: reconciliation may push it forward; only bounds are proved.
- Deletion of RSS sources with their items: items and tasks stay in the model's tables.
- Multipart uploads through a driver and imports through a driver: the assembly loop is the same as for local uploads.
- The operation journal, WebDAV, HTTP handlers, the web client, users and roles.
- Fields of a mount row that do not take part in the invariants: mode and sort order.
- That an enabled mount's node stays of kind `mount` when another mount is nested below it: the walk makes it a
  `virtual_dir` again, and so does the model.
