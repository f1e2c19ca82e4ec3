/** The loop of a refresh over the listing: its invariant, and one lemma for each way an entry can go. */
module RefreshLoop {
  import opened Common
  import opened Paths
  import opened Store
  import opened Tree
  import opened Listing
  import opened RefreshSpec
  import opened RefreshSteps

  /** The counters of a refresh result that the loop over the listing bumps. */
  datatype Tally = Tally(seen: nat, indexed: nat, updated: nat, conflicts: nat)

  /** After the first `i` entries, with the names in `seenNames` dealt with. */
  ghost predicate AfterEntries(before: Nodes, objectsBefore: Objects, nodes: Nodes, objects: Objects, ctx: Context,
                               entries: seq<RemoteEntry>, i: nat, seenNames: set<string>, tally: Tally)
    requires i <= |entries|
  {
    && Start(before, ctx) && Partial(before, nodes, objects, ctx, entries, seenNames)
    && DuplicateNames(entries) <= seenNames
    && (forall j | 0 <= j < i && ValidName(EntryName(entries[j])) :: EntryName(entries[j]) in seenNames)
    && (forall n | n in seenNames && Count(entries, n) == 1 :: Count(entries[..i], n) > 0)
    && ObjectsSynced(objectsBefore, objects, ObjectRows(before, ctx, entries, i), {})
    && tally == TallyOf(before, nodes, ctx, entries, seenNames)
  }

  ghost function TallyOf(before: Nodes, nodes: Nodes, ctx: Context, entries: seq<RemoteEntry>,
                         seenNames: set<string>): Tally
    requires before.Keys <= nodes.Keys
  {
    Tally(|seenNames * SingleNames(entries)|, |seenNames * NewNames(before, ctx, entries)|,
          |UpdatedSoFar(before, nodes, ctx, entries, seenNames)|,
          InvalidCount(entries) + |DuplicateNames(entries)| + |seenNames * ClashingNames(before, ctx, entries)|)
  }

  /** The tally grows by what the name at hand contributes. */
  lemma TallyOneMore(before: Nodes, nodes: Nodes, objects: Objects, ctx: Context, entries: seq<RemoteEntry>,
                     seenNames: set<string>, name: string, id: Id, row: Node)
    requires Start(before, ctx) && Partial(before, nodes, objects, ctx, entries, seenNames) && name !in seenNames
    requires HasChild(before, ctx.targetID, name) ==> id in before && id == ChildOf(before, ctx.targetID, name)
    requires !HasChild(before, ctx.targetID, name) ==> id !in nodes
    ensures before.Keys <= nodes.Keys
    ensures
      var was, now := TallyOf(before, nodes, ctx, entries, seenNames),
                      TallyOf(before, nodes[id := row], ctx, entries, seenNames + {name});
      && now.seen == was.seen + (if name in SingleNames(entries) then 1 else 0)
      && now.indexed == was.indexed + (if name in NewNames(before, ctx, entries) then 1 else 0)
      && now.conflicts == was.conflicts + (if name in ClashingNames(before, ctx, entries) then 1 else 0)
      && now.updated == was.updated
           + (if id in before && Copies(before, ctx, entries, name) && ChangedByRemote(before[id], row) then 1 else 0)
  {
    KeysOfPartial(before, nodes, objects, ctx, entries, seenNames);
    OneMoreSeen(seenNames, SingleNames(entries), name);
    OneMoreSeen(seenNames, NewNames(before, ctx, entries), name);
    OneMoreSeen(seenNames, ClashingNames(before, ctx, entries), name);
    UpdatedOneMore(before, nodes, objects, ctx, entries, seenNames, name, id, row);
    hide Partial, Copies, ChangedByRemote, UpdatedSoFar, SingleNames, NewNames, ClashingNames;
  }

  /** Before the first entry only the names listed more than once are dealt with. */
  lemma LoopStart(before: Nodes, objectsBefore: Objects, nodes: Nodes, ctx: Context, entries: seq<RemoteEntry>)
    requires Start(before, ctx) && UniqueKeys(objectsBefore)
    requires Partial(before, nodes, objectsBefore, ctx, entries, DuplicateNames(entries))
    ensures AfterEntries(before, objectsBefore, nodes, objectsBefore, ctx, entries, 0, DuplicateNames(entries),
                         Tally(0, 0, 0, InvalidCount(entries) + |DuplicateNames(entries)|))
  {
    hide Partial, ObjectsSynced, TallyOf, Linked, UniqueKeys, Copies, ValidName, EntryName, ObjectRow, Names;
    KeysOfPartial(before, nodes, objectsBefore, ctx, entries, DuplicateNames(entries));
    ObjectsStart(objectsBefore);
    NothingTalliedYet(before, nodes, ctx, entries);
  }

  lemma NothingTalliedYet(before: Nodes, nodes: Nodes, ctx: Context, entries: seq<RemoteEntry>)
    requires before.Keys <= nodes.Keys
    ensures TallyOf(before, nodes, ctx, entries, DuplicateNames(entries))
            == Tally(0, 0, 0, InvalidCount(entries) + |DuplicateNames(entries)|)
  {
    hide InvalidCount, ChangedByRemote, FateOf, Linked, Existing;
    var d := DuplicateNames(entries);
    assert d * SingleNames(entries) == {};
    assert d * NewNames(before, ctx, entries) == {};
    assert d * ClashingNames(before, ctx, entries) == {};
    assert UpdatedSoFar(before, nodes, ctx, entries, d) == {};
  }

  lemma CountOneMore(entries: seq<RemoteEntry>, i: nat, n: string)
    requires i < |entries|
    ensures Count(entries[..i + 1], n) == Count(entries[..i], n) + if EntryName(entries[i]) == n then 1 else 0
  {
    assert entries[..i + 1][..i] == entries[..i];
  }

  lemma NoMoreRows(before: Nodes, ctx: Context, entries: seq<RemoteEntry>, i: nat)
    requires i < |entries| && !Copies(before, ctx, entries, EntryName(entries[i]))
    ensures ObjectRows(before, ctx, entries, i + 1) == ObjectRows(before, ctx, entries, i)
  {
  }

  /** An entry whose name is dealt with already, or is no valid name. */
  lemma SkipEntry(before: Nodes, objectsBefore: Objects, nodes: Nodes, objects: Objects, ctx: Context,
                  entries: seq<RemoteEntry>, i: nat, seenNames: set<string>, tally: Tally)
    requires i < |entries|
    requires AfterEntries(before, objectsBefore, nodes, objects, ctx, entries, i, seenNames, tally)
    requires EntryName(entries[i]) in seenNames || !ValidName(EntryName(entries[i]))
    ensures AfterEntries(before, objectsBefore, nodes, objects, ctx, entries, i + 1, seenNames, tally)
    ensures !Copies(before, ctx, entries, EntryName(entries[i]))
  {
    hide Partial, ObjectsSynced, ValidName, EntryName, TallyOf, Copies;
    SeenIsNotCopied(before, ctx, entries, i, seenNames);
    NoMoreRows(before, ctx, entries, i);
    forall n | n in seenNames && Count(entries, n) == 1 ensures Count(entries[..i + 1], n) > 0 {
      CountOneMore(entries, i, n);
    }
  }

  lemma SeenIsNotCopied(before: Nodes, ctx: Context, entries: seq<RemoteEntry>, i: nat, seenNames: set<string>)
    requires i < |entries|
    requires forall n | n in seenNames && Count(entries, n) == 1 :: Count(entries[..i], n) > 0
    requires EntryName(entries[i]) in seenNames || !ValidName(EntryName(entries[i]))
    ensures !Copies(before, ctx, entries, EntryName(entries[i]))
  {
    hide ValidName, EntryName, FateOf;
    if Count(entries, EntryName(entries[i])) == 1 { OnlyEntry(entries, i); }
  }

  /** A name not yet dealt with is listed exactly once, by the entry at hand. */
  lemma NextIsSingle(before: Nodes, objectsBefore: Objects, nodes: Nodes, objects: Objects, ctx: Context,
                     entries: seq<RemoteEntry>, i: nat, seenNames: set<string>, tally: Tally)
    requires i < |entries|
    requires AfterEntries(before, objectsBefore, nodes, objects, ctx, entries, i, seenNames, tally)
    requires EntryName(entries[i]) !in seenNames && ValidName(EntryName(entries[i]))
    ensures EntryName(entries[i]) in SingleNames(entries) && Count(entries, EntryName(entries[i])) == 1
    ensures First(entries, EntryName(entries[i])) == entries[i]
  {
    hide Partial, ObjectsSynced, TallyOf, ValidName, EntryName;
    CountAtLeast(entries, i);
    assert EntryName(entries[i]) in Names(entries);
    OnlyEntry(entries, i);
  }

  /** An entry whose row `row` at `id` has just been written. */
  lemma DealWithEntry(before: Nodes, objectsBefore: Objects, nodes: Nodes, objects: Objects, objects': Objects,
                      ctx: Context, entries: seq<RemoteEntry>, i: nat, seenNames: set<string>, tally: Tally,
                      id: Id, row: Node)
    requires i < |entries|
    requires AfterEntries(before, objectsBefore, nodes, objects, ctx, entries, i, seenNames, tally)
    requires EntryName(entries[i]) !in seenNames && ValidName(EntryName(entries[i]))
    requires EntryName(entries[i]) in SingleNames(entries) && Count(entries, EntryName(entries[i])) == 1
    requires SameKeys(objects, objects')
    requires ObjectsSynced(objectsBefore, objects', ObjectRows(before, ctx, entries, i + 1), {})
    requires
      var name := EntryName(entries[i]);
      && (HasChild(before, ctx.targetID, name) ==> id in before && id == ChildOf(before, ctx.targetID, name))
      && (!HasChild(before, ctx.targetID, name) ==> id !in nodes)
      && RowFor(ctx, entries, name, Existing(before, ctx, name), row, objects')
    requires Linked(nodes[id := row])
    ensures
      var name := EntryName(entries[i]);
      var existing := HasChild(before, ctx.targetID, name);
      && AfterEntries(before, objectsBefore, nodes[id := row], objects', ctx, entries, i + 1, seenNames + {name},
                      Tally(tally.seen + 1,
                            tally.indexed + (if existing then 0 else 1),
                            tally.updated + (if existing && Copies(before, ctx, entries, name)
                                                && ChangedByRemote(before[id], row) then 1 else 0),
                            tally.conflicts + (if Clashes(before, ctx, entries, name) then 1 else 0)))
  {
    hide RowFor, ObjectsSynced, ValidName, EntryName, ChangedByRemote, Linked, HasChild, SameKeys, Existing, Copies,
         Clashes,
         ObjectRows, Partial, TallyOf, Start, DuplicateNames, SingleNames, Count;
    var name := EntryName(entries[i]);
    PartialSurvivesObjects(before, nodes, objects, objects', ctx, entries, seenNames);
    DealWithName(before, nodes, objects', ctx, entries, seenNames, name, id, row);
    TallyOfEntry(before, nodes, objects', ctx, entries, seenNames, name, id, row);
    SeenCounts(entries, i, seenNames);
    assert forall j | 0 <= j < i + 1 && ValidName(EntryName(entries[j])) :: EntryName(entries[j]) in seenNames + {name};
  }

  lemma SeenCounts(entries: seq<RemoteEntry>, i: nat, seenNames: set<string>)
    requires i < |entries| && forall n | n in seenNames && Count(entries, n) == 1 :: Count(entries[..i], n) > 0
    ensures forall n | n in seenNames + {EntryName(entries[i])} && Count(entries, n) == 1 ::
            Count(entries[..i + 1], n) > 0
  {
    hide EntryName, Count;
    forall n | n in seenNames + {EntryName(entries[i])} && Count(entries, n) == 1
      ensures Count(entries[..i + 1], n) > 0 {
      CountOneMore(entries, i, n);
    }
  }

  lemma TallyOfEntry(before: Nodes, nodes: Nodes, objects: Objects, ctx: Context, entries: seq<RemoteEntry>,
                     seenNames: set<string>, name: string, id: Id, row: Node)
    requires Start(before, ctx) && Partial(before, nodes, objects, ctx, entries, seenNames) && name !in seenNames
    requires name in SingleNames(entries)
    requires HasChild(before, ctx.targetID, name) ==> id in before && id == ChildOf(before, ctx.targetID, name)
    requires !HasChild(before, ctx.targetID, name) ==> id !in nodes
    ensures before.Keys <= nodes.Keys
    ensures
      var tally := TallyOf(before, nodes, ctx, entries, seenNames);
      var existing := HasChild(before, ctx.targetID, name);
      TallyOf(before, nodes[id := row], ctx, entries, seenNames + {name})
      == Tally(tally.seen + 1,
               tally.indexed + (if existing then 0 else 1),
               tally.updated + (if existing && Copies(before, ctx, entries, name)
                                && ChangedByRemote(before[id], row) then 1 else 0),
               tally.conflicts + (if Clashes(before, ctx, entries, name) then 1 else 0))
  {
    hide ChangedByRemote, HasChild, Copies, Clashes, Partial, TallyOf, Start, SingleNames, NewNames, ClashingNames;
    TallyOneMore(before, nodes, objects, ctx, entries, seenNames, name, id, row);
    NewOrThere(before, nodes, ctx, entries, name, id);
  }

  lemma NewOrThere(before: Nodes, nodes: Nodes, ctx: Context, entries: seq<RemoteEntry>, name: string, id: Id)
    requires before.Keys <= nodes.Keys && name in SingleNames(entries)
    requires HasChild(before, ctx.targetID, name) ==> id in before && id == ChildOf(before, ctx.targetID, name)
    requires !HasChild(before, ctx.targetID, name) ==> id !in nodes
    ensures id in before <==> HasChild(before, ctx.targetID, name)
    ensures name in NewNames(before, ctx, entries) <==> !HasChild(before, ctx.targetID, name)
    ensures name in ClashingNames(before, ctx, entries) <==> Clashes(before, ctx, entries, name)
  {
  }

  /** After the last entry every listed name is dealt with. */
  lemma LoopEnd(before: Nodes, objectsBefore: Objects, nodes: Nodes, objects: Objects, ctx: Context,
                entries: seq<RemoteEntry>, seenNames: set<string>, tally: Tally)
    requires AfterEntries(before, objectsBefore, nodes, objects, ctx, entries, |entries|, seenNames, tally)
    ensures seenNames == Names(entries)
    ensures tally.seen == |SingleNames(entries)| && tally.indexed == |NewNames(before, ctx, entries)|
    ensures tally.conflicts == ConflictTotal(before, ctx, entries)
    ensures before.Keys <= nodes.Keys && tally.updated == |UpdatedSoFar(before, nodes, ctx, entries, Names(entries))|
  {
    hide Partial, ObjectsSynced, HasChild, Clashes, UpdatedSoFar, ObjectRows, Start, InvalidCount, Count,
         DuplicateNames;
    KeysOfPartial(before, nodes, objects, ctx, entries, seenNames);
    AllSeen(before, nodes, objects, ctx, entries, seenNames);
    var all := Names(entries);
    assert all * SingleNames(entries) == SingleNames(entries);
    assert all * NewNames(before, ctx, entries) == NewNames(before, ctx, entries);
    assert all * ClashingNames(before, ctx, entries) == ClashingNames(before, ctx, entries);
  }

  lemma AllSeen(before: Nodes, nodes: Nodes, objects: Objects, ctx: Context, entries: seq<RemoteEntry>,
                seenNames: set<string>)
    requires Partial(before, nodes, objects, ctx, entries, seenNames)
    requires forall j | 0 <= j < |entries| && ValidName(EntryName(entries[j])) :: EntryName(entries[j]) in seenNames
    ensures seenNames == Names(entries)
  {
    hide RowFor, Linked, EntryName, ValidName;
    forall n | n in Names(entries) ensures n in seenNames {
      var j :| 0 <= j < |entries| && ValidName(EntryName(entries[j])) && EntryName(entries[j]) == n;
    }
  }
}
