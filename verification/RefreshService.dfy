/** The refresh of one metadata directory against a remote listing. */
module RefreshService {
  import opened Common
  import opened Paths
  import opened Store
  import opened Tree
  import opened Listing
  import opened RefreshSpec
  import opened RefreshSteps
  import opened RefreshLoop
  import opened RefreshKinds
  import opened Repositories
  import Mounts

  /** The maps the first loop fills: how often each valid name is listed, and its first entry. */
  ghost predicate Tallied(entries: seq<RemoteEntry>, nameCounts: map<string, nat>,
                          firstEntryByName: map<string, RemoteEntry>) {
    && firstEntryByName.Keys == nameCounts.Keys
    && (forall n :: n in nameCounts <==> ValidName(n) && Count(entries, n) > 0)
    && (forall n | n in nameCounts :: nameCounts[n] == Count(entries, n) && firstEntryByName[n] == First(entries, n))
  }

  /** The map of children by name, for the names still to come. */
  ghost predicate ChildrenKnown(before: Nodes, t: Id, childrenByName: map<string, (Id, Node)>, except: set<string>) {
    forall n | n !in except ::
      && (n in childrenByName <==> HasChild(before, t, n))
      && (n in childrenByName ==> childrenByName[n].0 == ChildOf(before, t, n)
                                  && childrenByName[n].0 in before
                                  && childrenByName[n].1 == before[childrenByName[n].0])
  }

  /** The mount path a refresh knows from the mount row of the target or from the target itself; empty for none. */
  function OwnMountPath(target: Node, mountRow: Option<string>): string {
    if mountRow.Some? then mountRow.value else if target.kind == Mount then target.path else ""
  }

  /** `buildRemoteListRequest`: the inner path the provider is asked to list. */
  function RemoteParentPath(target: Node, mountRow: Option<string>, source: Mounts.Source): Result<string> {
    var own := OwnMountPath(target, mountRow);
    var mountPath := if own == "" then source.mountPath else own;
    if mountPath != "" then
      match NormalizeVirtualPath(mountPath)
      case Err(e) => Err(e)
      case Ok(mount) =>
        if !IsSubPath(mount, target.path) then Err(PathInvalid) else Ok(Mounts.InnerPathUnder(mount, target.path))
    else if target.kind != Mount then NormalizeVirtualPath(target.path)
    else Ok("/")
  }

  class MetadataVFSSyncService {
    const store: MetadataStore
    const sources: map<Id, Mounts.Source>
    /** By driver type: what the provider answers when asked to list an inner path. */
    const indexers: map<string, (Mounts.Source, string) -> Result<seq<RemoteEntry>>>
    const guessMime: string -> string

    constructor (store: MetadataStore, sources: map<Id, Mounts.Source>,
                 indexers: map<string, (Mounts.Source, string) -> Result<seq<RemoteEntry>>>,
                   guessMime: string -> string)
      ensures this.store == store && this.sources == sources && this.indexers == indexers && this.guessMime == guessMime
    {
      this.store, this.sources, this.indexers, this.guessMime := store, sources, indexers, guessMime;
    }

    method TallyNames(entries: seq<RemoteEntry>)
      returns (nameCounts: map<string, nat>, firstEntryByName: map<string, RemoteEntry>, conflicts: nat)
      ensures Tallied(entries, nameCounts, firstEntryByName)
      ensures conflicts == InvalidCount(entries)
    {
      hide ValidName, EntryName, Tallied, Count, First;
      nameCounts, firstEntryByName, conflicts := map[], map[], 0;
      TallyStart();
      for i := 0 to |entries|
        invariant Tallied(entries[..i], nameCounts, firstEntryByName)
        invariant conflicts == InvalidCount(entries[..i])
      {
        assert entries[..i + 1][..i] == entries[..i];
        TallyStep(entries, i, nameCounts, firstEntryByName);
        var name := EntryName(entries[i]);
        if ValidName(name) {
          nameCounts := nameCounts[name := (if name in nameCounts then nameCounts[name] else 0) + 1];
          if name !in firstEntryByName { firstEntryByName := firstEntryByName[name := entries[i]]; }
        } else {
          conflicts := conflicts + 1;
        }
      }
      assert entries[..|entries|] == entries;
    }

    /** Upserts a listed child under its path; on a linked table the unique indexes never refuse it. */
    method UpsertListedChild(ctx: Context, e: RemoteEntry, objectID: Option<Id>, state: SyncState,
                             ghost before: Nodes, ghost entries: seq<RemoteEntry>, ghost done: set<string>)
      returns (id: Id)
      requires Start(before, ctx) && Partial(before, store.nodes, store.objects, ctx, entries, done)
      requires ValidName(EntryName(e)) && EntryName(e) !in done
      modifies store`nodes
      ensures store.nodes == old(store.nodes)[id := ListedNode(ctx, e, objectID, state)] && Linked(store.nodes)
      ensures HasChild(before, ctx.targetID, EntryName(e))
              ==> id in before && id == ChildOf(before, ctx.targetID, EntryName(e))
      ensures !HasChild(before, ctx.targetID, EntryName(e)) ==> id !in old(store.nodes)
    {
      hide Linked, Partial, ValidName, EntryName, Clash, UniqueLive, Admits, UpsertTarget, IsChildRow;
      ghost var nodes := store.nodes;
      var row := ListedNode(ctx, e, objectID, state);
      KeysOfPartial(before, nodes, store.objects, ctx, entries, done);
      ListedRowIsChildRow(before, nodes, store.objects, ctx, entries, done, e, objectID, state);
      LinkedIsUnique(nodes);
      NeverRefused(nodes, ctx.targetID, row);
      var upserted := store.UpsertByPath(row);
      id := upserted.value;
      PutChildKeepsLinked(nodes, ctx.targetID, id, row);
      UpsertHitsTheChild(before, nodes, store.objects, ctx, entries, done, EntryName(e), id);
    }

    /** `upsertConflictChild`. */
    method UpsertConflictChild(ctx: Context, e: RemoteEntry, ghost before: Nodes, ghost entries: seq<RemoteEntry>,
                               ghost done: set<string>, ghost name: string)
      requires Start(before, ctx) && Partial(before, store.nodes, store.objects, ctx, entries, done) && name !in done
      requires ValidName(name) && Count(entries, name) > 1 && e == First(entries, name)
      modifies store`nodes
      ensures Partial(before, store.nodes, store.objects, ctx, entries, done + {name})
    {
      hide Partial, Linked, ValidName, HasChild, ListedNode, Existing, EntryName;
      NamesAreCounted(entries, name);
      CountIsListed(entries, name);
      ghost var nodes := store.nodes;
      var id := UpsertListedChild(ctx, e, None, Conflict, before, entries, done);
      ManyIsConflict(ctx, entries, name, Existing(before, ctx, name), store.objects);
      DealWithName(before, nodes, store.objects, ctx, entries, done, name, id, ListedNode(ctx, e, None, Conflict));
    }

    /** Names listed more than once become conflict nodes, in whatever order the map yields them. */
    method WriteDuplicates(ctx: Context, nameCounts: map<string, nat>, firstEntryByName: map<string, RemoteEntry>,
                           ghost before: Nodes, ghost entries: seq<RemoteEntry>)
      returns (seenNames: set<string>, conflicts: nat)
      requires Start(before, ctx) && store.nodes == before && Tallied(entries, nameCounts, firstEntryByName)
      modifies store`nodes
      ensures seenNames == DuplicateNames(entries) && conflicts == |seenNames|
      ensures Partial(before, store.nodes, store.objects, ctx, entries, seenNames)
    {
      hide Partial, Linked, ValidName, Start, Count, First;
      seenNames, conflicts := {}, 0;
      PartialStart(before, store.objects, ctx, entries);
      var names := nameCounts.Keys;
      while names != {}
        invariant names <= nameCounts.Keys
        invariant seenNames == set n | n in nameCounts && n !in names && nameCounts[n] > 1
        invariant conflicts == |seenNames|
        invariant Partial(before, store.nodes, store.objects, ctx, entries, seenNames)
        decreases |names|
      {
        var name :| name in names;
        names := names - {name};
        if nameCounts[name] > 1 {
          UpsertConflictChild(ctx, firstEntryByName[name], before, entries, seenNames, name);
          seenNames := seenNames + {name};
          conflicts := conflicts + 1;
        }
      }
      TalliedDuplicates(entries, nameCounts, firstEntryByName);
    }

    /** `upsertRemoteChild` for a singly listed entry, the existing child given by id and row. */
    method UpsertRemoteChild(ctx: Context, e: RemoteEntry, existing: Option<(Id, Node)>,
                             ghost before: Nodes, ghost objectsBefore: Objects, ghost entries: seq<RemoteEntry>,
                             ghost i: nat, ghost seenNames: set<string>, ghost tally: Tally)
      returns (child: (Id, Node), created: bool, changed: bool)
      requires i < |entries| && e == entries[i] && EntryName(e) !in seenNames && ValidName(EntryName(e))
      requires AfterEntries(before, objectsBefore, store.nodes, store.objects, ctx, entries, i, seenNames, tally)
      requires Copies(before, ctx, entries, EntryName(e))
      requires existing == if HasChild(before, ctx.targetID, EntryName(e))
                           then Some((ChildOf(before, ctx.targetID, EntryName(e)),
                                      before[ChildOf(before, ctx.targetID, EntryName(e))])) else None
      modifies store`nodes, store`objects
      ensures created == existing.None?
      ensures AfterEntries(before, objectsBefore, store.nodes, store.objects, ctx, entries, i + 1,
                           seenNames + {EntryName(e)},
                           Tally(tally.seen + 1, tally.indexed + (if created then 1 else 0),
                                 tally.updated + (if !created && changed then 1 else 0), tally.conflicts))
    {
      hide Linked, ValidName, EntryName, ListedNode, ObjectRow, ChangedByRemote, ObjectsSynced, AfterEntries, Partial,
           RowFor, FateOf, KeyTarget, KeyOf, UniqueKeys, Copies;
      ghost var name := EntryName(e);
      NextIsSingle(before, objectsBefore, store.nodes, store.objects, ctx, entries, i, seenNames, tally);
      EntriesPartial(before, objectsBefore, store.nodes, store.objects, ctx, entries, i, seenNames, tally);
      var objectID: Option<Id> := None;
      ghost var objects, nodes := store.objects, store.nodes;
      SameKeysRefl(objects);
      if !e.isDir {
        var o := store.UpsertObjectByLocator(ObjectRow(ctx, e));
        UpsertOne(objectsBefore, objects, ObjectRows(before, ctx, entries, i), o, ObjectRow(ctx, e));
        PartialSurvivesObjects(before, nodes, objects, store.objects, ctx, entries, seenNames);
        objectID := Some(o);
      }
      OneMoreRow(before, ctx, entries, i);
      var row := IndexedNode(ctx, e, objectID);
      var id := UpsertListedChild(ctx, e, objectID, Indexed, before, entries, seenNames);
      created := existing.None?;
      changed := created || ChangedByRemote(existing.value.1, row);
      child := (id, row);
      CopiedRow(before, ctx, entries, name, e, objectID, store.objects);
      CopyIsNoClash(before, ctx, entries, name);
      DealWithEntry(before, objectsBefore, nodes, objects, store.objects, ctx, entries, i, seenNames, tally, id, row);
    }

    /** The loop over the listing. */
    method IndexEntries(ctx: Context, entries: seq<RemoteEntry>, nameCounts: map<string, nat>,
                        children: map<string, (Id, Node)>, duplicates: set<string>, invalid: nat, ghost before: Nodes)
      returns (seenNames: set<string>, tally: Tally)
      requires Start(before, ctx) && UniqueKeys(store.objects)
      requires duplicates == DuplicateNames(entries) && invalid == InvalidCount(entries)
      requires Partial(before, store.nodes, store.objects, ctx, entries, duplicates)
      requires forall n :: n in nameCounts <==> ValidName(n) && Count(entries, n) > 0
      requires ChildrenKnown(before, ctx.targetID, children, {})
      modifies store`nodes, store`objects
      ensures AfterEntries(before, old(store.objects), store.nodes, store.objects, ctx, entries, |entries|, seenNames,
                           tally)
    {
      hide Partial, Linked, ValidName, EntryName, ChangedByRemote, ObjectsSynced, AfterEntries, FateOf, RowFor,
           IsControl,
           IdentityConflicts, Existing, Copies, Clashes, UniqueKeys, SingleNames, HasChild, Start, Count, First,
             DuplicateNames,
           InvalidCount, Admits;
      ghost var objectsBefore := store.objects;
      var childrenByName := children;
      seenNames, tally := duplicates, Tally(0, 0, 0, invalid + |duplicates|);
      LoopStart(before, objectsBefore, store.nodes, ctx, entries);
      var i := 0;
      while i < |entries|
        invariant 0 <= i <= |entries|
        invariant AfterEntries(before, objectsBefore, store.nodes, store.objects, ctx, entries, i, seenNames, tally)
        invariant ChildrenKnown(before, ctx.targetID, childrenByName, seenNames)
      {
        var e := entries[i];
        var name := EntryName(e);
        CountAtLeast(entries, i);
        if name in seenNames || name !in nameCounts {
          SkipEntry(before, objectsBefore, store.nodes, store.objects, ctx, entries, i, seenNames, tally);
        } else {
          var existing := if name in childrenByName then Some(childrenByName[name]) else None;
          NextIsSingle(before, objectsBefore, store.nodes, store.objects, ctx, entries, i, seenNames, tally);
          FateOfNext(before, ctx, entries, name);
          EntriesPartial(before, objectsBefore, store.nodes, store.objects, ctx, entries, i, seenNames, tally);
          if existing.Some? && IsControl(existing.value.1) {
            KeepEntry(before, objectsBefore, store.nodes, store.objects, ctx, entries, i, seenNames, tally,
                      existing.value.0);
            tally := tally.(seen := tally.seen + 1);
          } else if existing.Some? && IdentityConflicts(existing.value.1, e) {
            ClashEntry(before, objectsBefore, store.nodes, store.objects, ctx, entries, i, seenNames, tally,
                       existing.value.0);
            var failed := store.UpdateNode(existing.value.0, existing.value.1.(syncState := Conflict));
            tally := tally.(seen := tally.seen + 1, conflicts := tally.conflicts + 1);
          } else {
            var child, created, changed :=
              UpsertRemoteChild(ctx, e, existing, before, objectsBefore, entries, i, seenNames, tally);
            childrenByName := childrenByName[name := child];
            tally := Tally(tally.seen + 1, tally.indexed + (if created then 1 else 0),
                           tally.updated + (if !created && changed then 1 else 0), tally.conflicts);
          }
          seenNames := seenNames + {name};
        }
        i := i + 1;
      }
    }

    /** Children the listing does not mention, control nodes apart, are missing, and so are their objects. */
    method MarkMissingChildren(ctx: Context, children: map<Id, Node>, seenNames: set<string>,
                               ghost before: Nodes, ghost objectsBefore: Objects, ghost entries: seq<RemoteEntry>)
      returns (missing: nat)
      requires Start(before, ctx) && seenNames == Names(entries)
      requires Partial(before, store.nodes, store.objects, ctx, entries, seenNames)
      requires ObjectsSynced(objectsBefore, store.objects, ObjectRows(before, ctx, entries, |entries|), {})
      requires children == map k | k in before && IsChild(before, ctx.targetID, k) :: before[k]
      modifies store`nodes, store`objects
      ensures Marked(old(store.nodes), store.nodes, MissingChildren(before, ctx, entries))
      ensures Partial(before, old(store.nodes), store.objects, ctx, entries, seenNames)
      ensures ObjectsSynced(objectsBefore, store.objects, ObjectRows(before, ctx, entries, |entries|),
                            LostObjects(before, MissingChildren(before, ctx, entries)))
      ensures missing == |MissingChildren(before, ctx, entries)|
      ensures store.nodes.Keys == old(store.nodes).Keys
      ensures forall k | k in old(store.nodes) ::
                store.nodes[k] == if k in before && GoesMissing(before, ctx, entries, k)
                                  then old(store.nodes)[k].(syncState := Missing) else old(store.nodes)[k]
    {
      hide GoesMissing;
      hide Linked, Partial, ObjectsSynced, ObjectRows, Names, Marked, KeyIsFree, Admits, SameKeys, IsControl;
      ghost var mid, rows := store.nodes, ObjectRows(before, ctx, entries, |entries|);
      ghost var marked: set<Id> := {};
      KeysOfPartial(before, mid, store.objects, ctx, entries, seenNames);
      MarkedStart(mid);
      assert LostObjects(before, marked) == {};
      missing := 0;
      var pending := children.Keys;
      while pending != {}
        invariant pending <= children.Keys
        invariant marked == set k | k in MissingChildren(before, ctx, entries) && k !in pending
        invariant missing == |marked|
        invariant Marked(mid, store.nodes, marked)
        invariant Partial(before, mid, store.objects, ctx, entries, seenNames)
        invariant ObjectsSynced(objectsBefore, store.objects, rows, LostObjects(before, marked))
        decreases |pending|
      {
        var k :| k in pending;
        pending := pending - {k};
        var child := children[k];
        if child.name !in seenNames && !IsControl(child) {
          MarkChildMissing(k, child, before, objectsBefore, rows, mid, marked, ctx, entries);
          marked := marked + {k};
          missing := missing + 1;
        }
      }
      assert marked == MissingChildren(before, ctx, entries);
      MarkedByKind(before, mid, store.nodes, ctx, entries);
    }

    method MarkChildMissing(k: Id, child: Node, ghost before: Nodes, ghost objectsBefore: Objects,
                            ghost rows: seq<StorageObject>, ghost mid: Nodes, ghost marked: set<Id>,
                            ghost ctx: Context, ghost entries: seq<RemoteEntry>)
      requires Start(before, ctx) && Partial(before, mid, store.objects, ctx, entries, Names(entries)) && Linked(mid)
      requires Marked(mid, store.nodes, marked)
      requires ObjectsSynced(objectsBefore, store.objects, rows, LostObjects(before, marked))
      requires k in before && IsChild(before, ctx.targetID, k) && child == before[k] && k !in marked
      requires child.name !in Names(entries)
      modifies store`nodes, store`objects
      ensures Marked(mid, store.nodes, marked + {k})
      ensures Partial(before, mid, store.objects, ctx, entries, Names(entries))
      ensures ObjectsSynced(objectsBefore, store.objects, rows, LostObjects(before, marked + {k}))
    {
      hide Linked, Partial, ObjectsSynced, Names, Marked, KeyIsFree, Admits, LostObjects;
      UnlistedStands(before, mid, store.objects, ctx, entries, k);
      MarkOne(mid, store.nodes, marked, k);
      var failed := store.UpdateNode(k, child.(syncState := Missing));
      LostOneMore(before, marked, k);
      if child.objectID.Some? {
        MarkObjectMissing(child.objectID.value, objectsBefore, rows, LostObjects(before, marked), before, mid, ctx,
                          entries);
      } else {
        assert LostObjects(before, marked) + {} == LostObjects(before, marked);
      }
    }

    /** `markObjectMissing`; an id the table does not have is no error. */
    method MarkObjectMissing(o: Id, ghost objectsBefore: Objects, ghost rows: seq<StorageObject>, ghost lost: set<Id>,
                             ghost before: Nodes, ghost mid: Nodes, ghost ctx: Context, ghost entries: seq<RemoteEntry>)
      requires ObjectsSynced(objectsBefore, store.objects, rows, lost)
      requires Partial(before, mid, store.objects, ctx, entries, Names(entries))
      modifies store`objects
      ensures ObjectsSynced(objectsBefore, store.objects, rows, lost + {o})
      ensures Partial(before, mid, store.objects, ctx, entries, Names(entries))
      ensures store.objects == if o in old(store.objects)
                               then old(store.objects)[o := old(store.objects)[o].(status := ObjectMissing)]
                               else old(store.objects)
    {
      hide Partial, ObjectsSynced, Names, KeyIsFree, SameKeys;
      if o in store.objects {
        LoseOne(objectsBefore, store.objects, rows, lost, o);
        ghost var objects := store.objects;
        var failed := store.UpdateObject(o, store.objects[o].(status := ObjectMissing));
        PartialSurvivesObjects(before, mid, objects, store.objects, ctx, entries, Names(entries));
      } else {
        LoseNone(objectsBefore, store.objects, rows, lost, o);
      }
    }

    /** `applyRemoteEntries`: one transaction that brings the target's children in line with the listing. */
    method ApplyRemoteEntries(ctx: Context, entries: seq<RemoteEntry>) returns (result: RefreshResult)
      requires Start(store.nodes, ctx) && UniqueKeys(store.objects)
      modifies store`nodes, store`objects
      ensures Refreshed(old(store.nodes), old(store.objects), store.nodes, store.objects, ctx, entries, result)
      ensures forall k | IsChild(old(store.nodes), ctx.targetID, k) ::
                && k in store.nodes
                && Becomes(ctx, entries, old(store.nodes)[k], store.nodes[k], store.objects)
    {
      hide Linked, Partial, ObjectsSynced, ObjectRows, Names, Marked, MissingChildren, LostObjects, ConflictTotal,
           InvalidCount, Refreshed, AfterEntries, UniqueKeys, UpdatedSoFar, DuplicateNames, Admits, HasChild,
           ChildrenKnown, Becomes;
      ghost var before, objectsBefore := store.nodes, store.objects;
      var children := map k | k in store.nodes && IsChild(store.nodes, ctx.targetID, k) :: store.nodes[k];
      var childrenByName := ChildrenByName(children, store.nodes, ctx.targetID);
      var nameCounts, firstEntryByName, invalid := TallyNames(entries);
      var duplicates, conflicts := WriteDuplicates(ctx, nameCounts, firstEntryByName, before, entries);
      var seenNames, tally := IndexEntries(ctx, entries, nameCounts, childrenByName, duplicates, invalid, before);
      EntriesPartial(before, objectsBefore, store.nodes, store.objects, ctx, entries, |entries|, seenNames, tally);
      LoopEnd(before, objectsBefore, store.nodes, store.objects, ctx, entries, seenNames, tally);
      ghost var mid := store.nodes;
      var missing := MarkMissingChildren(ctx, children, seenNames, before, objectsBefore, entries);
      ghost var marked := store.nodes;
      var state := if tally.conflicts > 0 then Conflict else Indexed;
      TargetAtTheEnd(before, mid, marked, store.objects, ctx, entries, state);
      var failed := store.UpdateNode(ctx.targetID, ctx.target.(syncState := state));
      result := RefreshResult(tally.seen, tally.indexed, tally.updated, missing, tally.conflicts, state);
      RefreshIsDone(before, mid, marked, objectsBefore, store.objects, ctx, entries, state, result);
      ChildrenBecome(before, objectsBefore, store.nodes, store.objects, ctx, entries, result);
    }

    /** `RefreshPath` and `RefreshNode`. `mountRow` is the mount path the mount table records for the
        target, if any. */
    method RefreshPath(targetPath: string, mountRow: Option<string>) returns (r: Result<RefreshResult>)
      requires Ready(store.nodes) && UniqueKeys(store.objects)
      modifies store`nodes, store`objects
      ensures RefreshOutcome(old(store.nodes), old(store.objects), store.nodes, store.objects, targetPath, mountRow, r)
    {
      hide Linked, Refreshed, UniqueKeys, NormalizeVirtualPath, RemoteParentPath, Admits;
      ghost var before := store.nodes;
      var normalized := NormalizeVirtualPath(targetPath);
      if normalized.Err? { return Err(normalized.error); }
      var found := store.FindByPath(normalized.value);
      if found.None? { return Err(FileNotFound); }
      var t := found.value;
      assert Linked(before);
      OnlyOneAt(before, t, normalized.value);
      var target := store.nodes[t];
      if !IsDirectory(target) { return Err(PathInvalid); }
      if target.sourceID.None? { return Err(NoBackingStorage); }
      if target.sourceID.value !in sources { return Err(FileNotFound); }
      var source := sources[target.sourceID.value];
      if source.driverType !in indexers {
        StateIsAdmitted(store.nodes, t, SyncError);
        var failed := store.UpdateNode(t, target.(syncState := SyncError));
        assert Refreshable(before, targetPath, mountRow, t);
        return Err(SourceDriverUnsupported);
      }
      var parentPath := RemoteParentPath(target, mountRow, source);
      if parentPath.Err? { return Err(parentPath.error); }
      var listing := indexers[source.driverType](source, parentPath.value);
      if listing.Err? {
        StateIsAdmitted(store.nodes, t, SyncError);
        var failed := store.UpdateNode(t, target.(syncState := SyncError));
        assert Refreshable(before, targetPath, mountRow, t);
        return Err(listing.error);
      }
      var ctx := Context(t, target, source, parentPath.value, guessMime);
      var result := ApplyRemoteEntries(ctx, listing.value);
      assert Refreshable(before, targetPath, mountRow, t);
      assert ListedOutcome(before, old(store.objects), store.nodes, store.objects, mountRow, t,
                           if result.conflicts > 0 then Err(VFSSyncConflict) else Ok(result));
      if result.conflicts > 0 { return Err(VFSSyncConflict); }
      return Ok(result);
    }

    /** What a refresh of a path may come to. */
    ghost predicate RefreshOutcome(nodes: Nodes, objects: Objects, nodes': Nodes, objects': Objects, targetPath: string,
                                   mountRow: Option<string>, r: Result<RefreshResult>)
    {
      || (nodes' == nodes && objects' == objects && r.Err? && forall t :: !Refreshable(nodes, targetPath, mountRow, t))
      || exists t: Id :: Refreshable(nodes, targetPath, mountRow, t)
                         && ListedOutcome(nodes, objects, nodes', objects', mountRow, t, r)
    }

    /** The provider can be asked, or at least the failure to ask it is recorded. */
    ghost predicate Refreshable(nodes: Nodes, targetPath: string, mountRow: Option<string>, t: Id) {
      && NormalizeVirtualPath(targetPath).Ok? && LiveAt(nodes, t, NormalizeVirtualPath(targetPath).value)
      && IsDirectory(nodes[t]) && nodes[t].sourceID.Some? && nodes[t].sourceID.value in sources
      && var source := sources[nodes[t].sourceID.value];
         source.driverType !in indexers || RemoteParentPath(nodes[t], mountRow, source).Ok?
    }

    /** Without a listing the target is in error; with one the children follow it, and a conflict is reported. */
    ghost predicate ListedOutcome(nodes: Nodes, objects: Objects, nodes': Nodes, objects': Objects,
                                  mountRow: Option<string>, t: Id, r: Result<RefreshResult>)
      requires t in nodes && nodes[t].sourceID.Some? && nodes[t].sourceID.value in sources
    {
      var source := sources[nodes[t].sourceID.value];
      var parentPath := RemoteParentPath(nodes[t], mountRow, source);
      if source.driverType !in indexers || parentPath.Err?
        || indexers[source.driverType](source, parentPath.value).Err? then
        nodes' == nodes[t := nodes[t].(syncState := SyncError)] && objects' == objects && r.Err?
      else
        var entries := indexers[source.driverType](source, parentPath.value).value;
        var ctx := Context(t, nodes[t], source, parentPath.value, guessMime);
        exists result ::
          && Refreshed(nodes, objects, nodes', objects', ctx, entries, result)
          && r == if result.conflicts > 0 then Err(VFSSyncConflict) else Ok(result)
    }

    /** What the provider lists for a target, and in which context; nothing if it is not or cannot be asked. */
    ghost function ListingOf(nodes: Nodes, mountRow: Option<string>, t: Id): Option<(Context, seq<RemoteEntry>)>
      requires t in nodes
    {
      if nodes[t].sourceID.None? || nodes[t].sourceID.value !in sources then None
      else
        var source := sources[nodes[t].sourceID.value];
        var parentPath := RemoteParentPath(nodes[t], mountRow, source);
        if source.driverType !in indexers || parentPath.Err?
           || indexers[source.driverType](source, parentPath.value).Err? then None
        else Some((Context(t, nodes[t], source, parentPath.value, guessMime),
                   indexers[source.driverType](source, parentPath.value).value))
    }

    method ChildrenByName(children: map<Id, Node>, nodes: Nodes, t: Id) returns (byName: map<string, (Id, Node)>)
      requires Linked(nodes) && children == map k | k in nodes && IsChild(nodes, t, k) :: nodes[k]
      ensures ChildrenKnown(nodes, t, byName, {})
    {
      hide Linked;
      byName := map[];
      var pending := children.Keys;
      while pending != {}
        invariant pending <= children.Keys
        invariant forall k | k in children && k !in pending :: children[k].name in byName
        invariant forall n | n in byName ::
                    byName[n].0 in children && children[byName[n].0] == byName[n].1 && byName[n].1.name == n
        decreases |pending|
      {
        var k :| k in pending;
        pending := pending - {k};
        byName := byName[children[k].name := (k, children[k])];
      }
      forall n | n in byName ensures HasChild(nodes, t, n) && byName[n].0 == ChildOf(nodes, t, n) {
        ChildIsUnique(nodes, t, byName[n].0);
      }
      forall n | HasChild(nodes, t, n) ensures n in byName {
        assert ChildOf(nodes, t, n) in children;
      }
    }
  }

  // ---- Steps of the methods -------------------------------------------------------------------

  lemma TallyStart()
    ensures Tallied([], map[], map[])
  {
  }

  lemma TallyStep(entries: seq<RemoteEntry>, i: nat, nameCounts: map<string, nat>,
                  firstEntryByName: map<string, RemoteEntry>)
    requires i < |entries| && Tallied(entries[..i], nameCounts, firstEntryByName)
    ensures
      var name := EntryName(entries[i]);
      if ValidName(name) then
        Tallied(entries[..i + 1], nameCounts[name := (if name in nameCounts then nameCounts[name] else 0) + 1],
                if name in firstEntryByName then firstEntryByName else firstEntryByName[name := entries[i]])
      else Tallied(entries[..i + 1], nameCounts, firstEntryByName)
  {
    hide ValidName, EntryName;
    assert entries[..i + 1][..i] == entries[..i];
    forall n
      ensures Count(entries[..i + 1], n) == Count(entries[..i], n) + (if EntryName(entries[i]) == n then 1 else 0)
    {
      CountOneMore(entries, i, n);
    }
  }

  lemma OnlyOneAt(nodes: Nodes, t: Id, path: string)
    requires Linked(nodes) && LiveAt(nodes, t, path)
    ensures forall k | LiveAt(nodes, k, path) :: k == t
  {
  }

  lemma NeverRefused(nodes: Nodes, t: Id, row: Node)
    requires Linked(nodes) && IsChildRow(nodes, t, row)
    ensures forall j | Live(nodes, j) && nodes[j].path != row.path :: !Clash(row, nodes[j])
  {
    forall j | Live(nodes, j) && nodes[j].path != row.path ensures !Clash(row, nodes[j]) {
      assert NodeOk(nodes, j) && NodeOk(nodes, t);
    }
  }

  lemma TalliedDuplicates(entries: seq<RemoteEntry>, nameCounts: map<string, nat>,
                          firstEntryByName: map<string, RemoteEntry>)
    requires Tallied(entries, nameCounts, firstEntryByName)
    ensures (set n | n in nameCounts && nameCounts[n] > 1) == DuplicateNames(entries)
  {
    hide ValidName, Count, Names;
    forall n ensures n in Names(entries) <==> n in nameCounts {
      NamesAreCounted(entries, n);
    }
  }

  lemma ManyIsConflict(ctx: Context, entries: seq<RemoteEntry>, name: string, existing: Option<Node>, objects: Objects)
    requires Count(entries, name) > 1
    ensures RowFor(ctx, entries, name, existing, ListedNode(ctx, First(entries, name), None, Conflict), objects)
  {
  }

  lemma EntriesPartial(before: Nodes, objectsBefore: Objects, nodes: Nodes, objects: Objects, ctx: Context,
                       entries: seq<RemoteEntry>, i: nat, seenNames: set<string>, tally: Tally)
    requires i <= |entries|
    requires AfterEntries(before, objectsBefore, nodes, objects, ctx, entries, i, seenNames, tally)
    ensures Start(before, ctx) && Partial(before, nodes, objects, ctx, entries, seenNames) && Linked(nodes)
    ensures ObjectsSynced(objectsBefore, objects, ObjectRows(before, ctx, entries, i), {}) && UniqueKeys(objects)
  {
  }

  lemma SameKeysRefl(objects: Objects)
    ensures SameKeys(objects, objects)
  {
  }

  lemma OneMoreRow(before: Nodes, ctx: Context, entries: seq<RemoteEntry>, i: nat)
    requires i < |entries| && Copies(before, ctx, entries, EntryName(entries[i]))
    ensures ObjectRows(before, ctx, entries, i + 1)
            == if entries[i].isDir then ObjectRows(before, ctx, entries, i)
               else ObjectRows(before, ctx, entries, i) + [ObjectRow(ctx, entries[i])]
  {
    hide Copies, ObjectRow, EntryName;
  }

  lemma CopiedRow(before: Nodes, ctx: Context, entries: seq<RemoteEntry>, name: string, e: RemoteEntry,
                  objectID: Option<Id>, objects: Objects)
    requires Copies(before, ctx, entries, name) && Count(entries, name) > 0 && First(entries, name) == e
    requires if e.isDir then objectID == None
             else objectID.Some? && objectID.value in objects && objects[objectID.value] == ObjectRow(ctx, e)
    ensures RowFor(ctx, entries, name, Existing(before, ctx, name), IndexedNode(ctx, e, objectID), objects)
  {
    hide Count, First, FateOf, ObjectRow, KeyOf, EntryName, ChildPath;
  }

  /** The three fates of a singly listed name. */
  lemma FateOfNext(before: Nodes, ctx: Context, entries: seq<RemoteEntry>, name: string)
    requires name in SingleNames(entries) && Count(entries, name) == 1
    ensures
      var existing := Existing(before, ctx, name);
      var control := existing.Some? && IsControl(existing.value);
      var clash := existing.Some? && IdentityConflicts(existing.value, First(entries, name));
      && (existing.Some? <==> HasChild(before, ctx.targetID, name))
      && (existing.Some? ==> existing.value == before[ChildOf(before, ctx.targetID, name)])
      && FateOf(entries, name, existing) == (if control then Kept else if clash then Clashed else Copied)
      && (Copies(before, ctx, entries, name) <==> !control && !clash)
      && (Clashes(before, ctx, entries, name) <==> !control && clash)
  {
  }

  lemma KeepEntry(before: Nodes, objectsBefore: Objects, nodes: Nodes, objects: Objects, ctx: Context,
                  entries: seq<RemoteEntry>, i: nat, seenNames: set<string>, tally: Tally, id: Id)
    requires i < |entries|
    requires AfterEntries(before, objectsBefore, nodes, objects, ctx, entries, i, seenNames, tally)
    requires EntryName(entries[i]) !in seenNames && ValidName(EntryName(entries[i]))
    requires HasChild(before, ctx.targetID, EntryName(entries[i]))
    requires id == ChildOf(before, ctx.targetID, EntryName(entries[i])) && IsControl(before[id])
    ensures AfterEntries(before, objectsBefore, nodes, objects, ctx, entries, i + 1,
                         seenNames + {EntryName(entries[i])}, tally.(seen := tally.seen + 1))
  {
    hide Linked, Partial, ObjectsSynced, ObjectRows, AfterEntries, ValidName, EntryName, IdentityConflicts,
         ChangedByRemote,
         Count, First, SameKeys, SingleNames, Copies, Clashes;
    var name := EntryName(entries[i]);
    NextIsSingle(before, objectsBefore, nodes, objects, ctx, entries, i, seenNames, tally);
    EntriesPartial(before, objectsBefore, nodes, objects, ctx, entries, i, seenNames, tally);
    FateOfNext(before, ctx, entries, name);
    UntouchedName(before, nodes, objects, ctx, entries, seenNames, name, id);
    NoMoreRows(before, ctx, entries, i);
    SameKeysRefl(objects);
    assert nodes[id := before[id]] == nodes;
    DealWithEntry(before, objectsBefore, nodes, objects, objects, ctx, entries, i, seenNames, tally, id, before[id]);
  }

  lemma ClashEntry(before: Nodes, objectsBefore: Objects, nodes: Nodes, objects: Objects, ctx: Context,
                   entries: seq<RemoteEntry>, i: nat, seenNames: set<string>, tally: Tally, id: Id)
    requires i < |entries|
    requires AfterEntries(before, objectsBefore, nodes, objects, ctx, entries, i, seenNames, tally)
    requires EntryName(entries[i]) !in seenNames && ValidName(EntryName(entries[i]))
    requires HasChild(before, ctx.targetID, EntryName(entries[i]))
    requires id == ChildOf(before, ctx.targetID, EntryName(entries[i]))
    requires !IsControl(before[id]) && IdentityConflicts(before[id], entries[i])
    ensures id in nodes && Admits(nodes, id, before[id].(syncState := Conflict))
    ensures AfterEntries(before, objectsBefore, nodes[id := before[id].(syncState := Conflict)], objects, ctx, entries,
                         i + 1,
                         seenNames + {EntryName(entries[i])},
                         tally.(seen := tally.seen + 1, conflicts := tally.conflicts + 1))
  {
    hide Linked, Partial, ObjectsSynced, ObjectRows, AfterEntries, ValidName, EntryName, IdentityConflicts,
         ChangedByRemote,
         Count, First, SameKeys, SingleNames, Copies, Clashes, Admits;
    var name := EntryName(entries[i]);
    NextIsSingle(before, objectsBefore, nodes, objects, ctx, entries, i, seenNames, tally);
    EntriesPartial(before, objectsBefore, nodes, objects, ctx, entries, i, seenNames, tally);
    FateOfNext(before, ctx, entries, name);
    UntouchedName(before, nodes, objects, ctx, entries, seenNames, name, id);
    NoMoreRows(before, ctx, entries, i);
    SameKeysRefl(objects);
    StateIsAdmitted(nodes, id, Conflict);
    DealWithEntry(before, objectsBefore, nodes, objects, objects, ctx, entries, i, seenNames, tally, id,
                  before[id].(syncState := Conflict));
  }

  lemma CopyIsNoClash(before: Nodes, ctx: Context, entries: seq<RemoteEntry>, name: string)
    requires Copies(before, ctx, entries, name)
    ensures !Clashes(before, ctx, entries, name)
  {
  }

  lemma MarkedStart(mid: Nodes)
    requires Linked(mid)
    ensures Marked(mid, mid, {})
  {
  }

  lemma LostOneMore(before: Nodes, marked: set<Id>, k: Id)
    requires k in before
    ensures LostObjects(before, marked + {k})
            == LostObjects(before, marked) + if before[k].objectID.Some? then {before[k].objectID.value} else {}
  {
    var more := marked + {k};
    forall o | o in LostObjects(before, marked) ensures o in LostObjects(before, more) {
      var j :| j in marked && j in before && before[j].objectID == Some(o);
      assert j in more;
    }
    if before[k].objectID.Some? {
      assert k in more;
    }
  }

  lemma TargetAtTheEnd(before: Nodes, mid: Nodes, marked: Nodes, objects: Objects, ctx: Context,
                       entries: seq<RemoteEntry>, state: SyncState)
    requires Start(before, ctx) && Partial(before, mid, objects, ctx, entries, Names(entries))
    requires Marked(mid, marked, MissingChildren(before, ctx, entries))
    ensures ctx.targetID in marked && Admits(marked, ctx.targetID, ctx.target.(syncState := state))
  {
    hide Linked, Names, Admits;
    TargetStands(before, mid, objects, ctx, entries, Names(entries));
    TargetIsNoChild(before, ctx);
    StateIsAdmitted(marked, ctx.targetID, state);
    assert marked[ctx.targetID].(syncState := state) == ctx.target.(syncState := state);
  }

  lemma MarkedByKind(before: Nodes, mid: Nodes, nodes: Nodes, ctx: Context, entries: seq<RemoteEntry>)
    requires Marked(mid, nodes, MissingChildren(before, ctx, entries))
    ensures nodes.Keys == mid.Keys
    ensures forall k | k in mid ::
              nodes[k] == if k in before && GoesMissing(before, ctx, entries, k)
                          then mid[k].(syncState := Missing) else mid[k]
  {
    hide Linked, GoesMissing, MissingChildren;
    MissingCount(before, ctx, entries);
  }
}
