/** Consequences of a refresh: refreshing twice is refreshing once. */
module RefreshTheory {
  import opened Common
  import opened Text
  import opened Paths
  import opened Store
  import opened Tree
  import opened Listing
  import opened RefreshSpec

  // ---- One listed name, twice -----------------------------------------------------------------

  /** A listed row hangs below the target under the listed name. */
  lemma RowIsNamedChild(ctx: Context, entries: seq<RemoteEntry>, name: string, existing: Option<Node>, row: Node,
                        objects: Objects)
    requires Count(entries, name) > 0 && RowFor(ctx, entries, name, existing, row, objects)
    requires existing.Some? ==> existing.value.parentID == Some(ctx.targetID) && existing.value.name == name
                                && !existing.value.isDeleted
    ensures row.parentID == Some(ctx.targetID) && row.name == name && !row.isDeleted
  {
    CountIsListed(entries, name);
  }

  /** The fate of a name does not change by having been dealt. */
  lemma FateIsStable(ctx: Context, entries: seq<RemoteEntry>, name: string, existing: Option<Node>, row: Node,
                     objects: Objects)
    requires Count(entries, name) > 0 && RowFor(ctx, entries, name, existing, row, objects)
    ensures FateOf(entries, name, Some(row)) == FateOf(entries, name, existing)
  {
  }

  /** Dealing the same fate again writes the same row. */
  lemma RowIsStable(ctx: Context, entries: seq<RemoteEntry>, name: string, existing: Option<Node>, row: Node,
                    row': Node, objects: Objects, objects': Objects)
    requires Count(entries, name) > 0
    requires RowFor(ctx, entries, name, existing, row, objects)
    requires RowFor(ctx, entries, name, Some(row), row', objects')
    requires objects.Keys <= objects'.Keys && UniqueKeys(objects')
    requires forall o | o in objects :: KeyOf(objects'[o]) == KeyOf(objects[o])
    ensures row' == row
  {
    FateIsStable(ctx, entries, name, existing, row, objects);
  }

  /** Only the target's place and provider matter, not its sync state. */
  lemma ContextIsStable(ctx: Context, ctx': Context, e: RemoteEntry)
    requires ctx' == ctx.(target := ctx.target.(syncState := ctx'.target.syncState))
    ensures ObjectRow(ctx', e) == ObjectRow(ctx, e)
    ensures forall o, state :: ListedNode(ctx', e, o, state) == ListedNode(ctx, e, o, state)
  {
    hide EntryName, EntryPath, TrimSpace, ChildPath, EntrySize;
  }

  lemma RowIgnoresSyncState(ctx: Context, ctx': Context, entries: seq<RemoteEntry>, name: string,
                            existing: Option<Node>, row: Node, objects: Objects)
    requires Count(entries, name) > 0
    requires ctx' == ctx.(target := ctx.target.(syncState := ctx'.target.syncState))
    ensures RowFor(ctx', entries, name, existing, row, objects) == RowFor(ctx, entries, name, existing, row, objects)
  {
    hide Count, First, FateOf, ListedNode, ObjectRow, KeyOf;
    ContextIsStable(ctx, ctx', First(entries, name));
  }

  // ---- The second run -------------------------------------------------------------------------

  /** The situation after one refresh, seen from the second. */
  ghost predicate Once(nodes: Nodes, objects: Objects, nodes1: Nodes, objects1: Objects,
                       ctx: Context, ctx1: Context, entries: seq<RemoteEntry>, r: RefreshResult) {
    && Linked(nodes) && Live(nodes, ctx.targetID) && ctx.target == nodes[ctx.targetID]
    && Refreshed(nodes, objects, nodes1, objects1, ctx, entries, r)
    && ctx1 == ctx.(target := nodes1[ctx.targetID])
  }

  lemma ChildAfter(nodes: Nodes, objects: Objects, nodes1: Nodes, objects1: Objects,
                   ctx: Context, ctx1: Context, entries: seq<RemoteEntry>, r: RefreshResult, k: Id)
    requires Once(nodes, objects, nodes1, objects1, ctx, ctx1, entries, r)
    requires k in nodes1
    ensures k in nodes ==> (IsChild(nodes1, ctx.targetID, k) <==> IsChild(nodes, ctx.targetID, k))
                           && nodes1[k].name == nodes[k].name
    ensures k !in nodes ==> IsChild(nodes1, ctx.targetID, k) && nodes1[k].name in Names(entries)
                            && !HasChild(nodes, ctx.targetID, nodes1[k].name)
    ensures k in nodes && !(IsChild(nodes, ctx.targetID, k) && nodes[k].name in Names(entries)) ==>
              nodes1[k] == nodes[k].(syncState := nodes1[k].syncState)
  {
    assert k in nodes ==> OldRow(nodes, nodes1, objects1, ctx, entries, k);
    if k in nodes {
      if IsChild(nodes, ctx.targetID, k) {
        ChildIsUnique(nodes, ctx.targetID, k);
        if nodes[k].name in Names(entries) {
          RowIsNamedChild(ctx, entries, nodes[k].name, Some(nodes[k]), nodes1[k], objects1);
        }
      }
    } else {
      assert NewRow(nodes, nodes1, objects1, ctx, entries, k);
      RowIsNamedChild(ctx, entries, nodes1[k].name, None, nodes1[k], objects1);
    }
  }

  /** The fate of every listed name is the same in the second run. */
  lemma FateAfter(nodes: Nodes, objects: Objects, nodes1: Nodes, objects1: Objects,
                  ctx: Context, ctx1: Context, entries: seq<RemoteEntry>, r: RefreshResult, name: string)
    requires Once(nodes, objects, nodes1, objects1, ctx, ctx1, entries, r)
    requires name in Names(entries) && Count(entries, name) > 0
    ensures HasChild(nodes1, ctx.targetID, name)
    ensures RowFor(ctx, entries, name, Existing(nodes, ctx, name), nodes1[ChildOf(nodes1, ctx.targetID, name)],
                   objects1)
    ensures FateOf(entries, name, Existing(nodes1, ctx1, name)) == FateOf(entries, name, Existing(nodes, ctx, name))
  {
    hide RowFor, FateOf, Count, Names;
    var t := ctx.targetID;
    var k := ChildOf(nodes1, t, name);
    ChildAfter(nodes, objects, nodes1, objects1, ctx, ctx1, entries, r, k);
    if k in nodes {
      assert OldRow(nodes, nodes1, objects1, ctx, entries, k);
      ChildIsUnique(nodes, t, k);
      assert Existing(nodes, ctx, name) == Some(nodes[k]);
    } else {
      assert NewRow(nodes, nodes1, objects1, ctx, entries, k);
    }
    FateIsStable(ctx, entries, name, Existing(nodes, ctx, name), nodes1[k], objects1);
  }

  lemma SetsAfter(nodes: Nodes, objects: Objects, nodes1: Nodes, objects1: Objects,
                  ctx: Context, ctx1: Context, entries: seq<RemoteEntry>, r: RefreshResult)
    requires Once(nodes, objects, nodes1, objects1, ctx, ctx1, entries, r)
    ensures forall n :: Copies(nodes1, ctx1, entries, n) <==> Copies(nodes, ctx, entries, n)
    ensures ClashingNames(nodes1, ctx1, entries) == ClashingNames(nodes, ctx, entries)
    ensures NewNames(nodes1, ctx1, entries) == {}
    ensures ConflictTotal(nodes1, ctx1, entries) == ConflictTotal(nodes, ctx, entries)
  {
    forall n | n in SingleNames(entries) && Count(entries, n) > 0
      ensures FateOf(entries, n, Existing(nodes1, ctx1, n)) == FateOf(entries, n, Existing(nodes, ctx, n))
      ensures HasChild(nodes1, ctx.targetID, n)
    {
      FateAfter(nodes, objects, nodes1, objects1, ctx, ctx1, entries, r, n);
    }
    hide FateOf, Existing;
    assert forall n :: Clashes(nodes1, ctx1, entries, n) <==> Clashes(nodes, ctx, entries, n);
    forall n | n in SingleNames(entries) ensures HasChild(nodes1, ctx1.targetID, n) {
    }
  }

  lemma {:induction false} ObjectRowsAfter(nodes: Nodes, nodes1: Nodes, ctx: Context, ctx1: Context,
                                           entries: seq<RemoteEntry>, n: nat)
    requires ctx1 == ctx.(target := ctx.target.(syncState := ctx1.target.syncState))
    requires forall m :: Copies(nodes1, ctx1, entries, m) <==> Copies(nodes, ctx, entries, m)
    requires n <= |entries|
    ensures ObjectRows(nodes1, ctx1, entries, n) == ObjectRows(nodes, ctx, entries, n)
  {
    hide Copies, ObjectRow, EntryName;
    if n > 0 {
      ObjectRowsAfter(nodes, nodes1, ctx, ctx1, entries, n - 1);
      ContextIsStable(ctx, ctx1, entries[n - 1]);
    }
  }

  lemma TargetAfter(nodes: Nodes, objects: Objects, nodes1: Nodes, objects1: Objects,
                    ctx: Context, ctx1: Context, entries: seq<RemoteEntry>, r: RefreshResult)
    requires Once(nodes, objects, nodes1, objects1, ctx, ctx1, entries, r)
    ensures ctx1.target == ctx.target.(syncState := ctx1.target.syncState) && Live(nodes1, ctx.targetID)
    ensures ctx1 == ctx.(target := ctx.target.(syncState := ctx1.target.syncState))
  {
    assert OldRow(nodes, nodes1, objects1, ctx, entries, ctx.targetID);
  }

  lemma MissingAfter(nodes: Nodes, objects: Objects, nodes1: Nodes, objects1: Objects,
                     ctx: Context, ctx1: Context, entries: seq<RemoteEntry>, r: RefreshResult)
    requires Once(nodes, objects, nodes1, objects1, ctx, ctx1, entries, r)
    ensures MissingChildren(nodes1, ctx1, entries) == MissingChildren(nodes, ctx, entries)
    ensures LostObjects(nodes1, MissingChildren(nodes1, ctx1, entries)) ==
            LostObjects(nodes, MissingChildren(nodes, ctx, entries))
  {
    hide Linked, ObjectsSynced, ConflictTotal, RowFor, Count, Names, ObjectRows;
    forall k | k in nodes1
      ensures k in MissingChildren(nodes1, ctx1, entries) <==> k in MissingChildren(nodes, ctx, entries)
      ensures k in MissingChildren(nodes, ctx, entries) ==> k in nodes && nodes1[k].objectID == nodes[k].objectID
    {
      ChildAfter(nodes, objects, nodes1, objects1, ctx, ctx1, entries, r, k);
    }
    SameLosses(nodes, nodes1, MissingChildren(nodes, ctx, entries));
  }

  lemma SameLosses(nodes: Nodes, nodes1: Nodes, missing: set<Id>)
    requires forall k | k in missing :: k in nodes && k in nodes1 && nodes1[k].objectID == nodes[k].objectID
    ensures LostObjects(nodes1, missing) == LostObjects(nodes, missing)
  {
  }

  /** Syncing the same rows and losses twice changes nothing. */
  lemma ObjectsAreStable(objects: Objects, objects1: Objects, objects2: Objects, rows: seq<StorageObject>,
                         lost: set<Id>)
    requires ObjectsSynced(objects, objects1, rows, lost) && ObjectsSynced(objects1, objects2, rows, lost)
    ensures objects2 == objects1
  {
    forall o | o in objects2 ensures o in objects1 {
      if HasKey(rows, KeyOf(objects2[o])) {
        var i :| 0 <= i < |rows| && KeyOf(rows[i]) == KeyOf(objects2[o]);
        var o' :| o' in objects1 && KeyOf(objects1[o']) == KeyOf(rows[i]);
        assert o' == o;
      }
    }
    forall o | o in objects2 ensures objects2[o] == objects1[o] {
      assert KeyOf(objects2[o]) == KeyOf(objects1[o]);
    }
  }

  /** The second run inserts nothing. */
  lemma NothingIsNew(nodes: Nodes, objects: Objects, nodes1: Nodes, objects1: Objects,
                     nodes2: Nodes, objects2: Objects,
                     ctx: Context, ctx1: Context, entries: seq<RemoteEntry>,
                     r1: RefreshResult, r2: RefreshResult)
    requires Once(nodes, objects, nodes1, objects1, ctx, ctx1, entries, r1)
    requires Refreshed(nodes1, objects1, nodes2, objects2, ctx1, entries, r2)
    ensures nodes2.Keys == nodes1.Keys
  {
    hide RowFor, Count, Names, Refreshed, HasChild, Linked;
    NewRowsOfSecond(nodes1, objects1, nodes2, objects2, ctx1, entries, r2);
    ListedAfterFirst(nodes, objects, nodes1, objects1, ctx, entries, r1);
    assert forall k | k in nodes2 :: k in nodes1;
  }

  lemma ListedAfterFirst(nodes: Nodes, objects: Objects, nodes1: Nodes, objects1: Objects, ctx: Context,
                         entries: seq<RemoteEntry>, r: RefreshResult)
    requires Refreshed(nodes, objects, nodes1, objects1, ctx, entries, r)
    ensures forall n | n in Names(entries) :: HasChild(nodes1, ctx.targetID, n)
  {
    hide HasChild, Names, OldRow, NewRow, ObjectsSynced;
  }

  lemma NewRowsOfSecond(nodes: Nodes, objects: Objects, nodes1: Nodes, objects1: Objects, ctx: Context,
                        entries: seq<RemoteEntry>, r: RefreshResult)
    requires Refreshed(nodes, objects, nodes1, objects1, ctx, entries, r)
    ensures nodes.Keys <= nodes1.Keys
    ensures forall k | k in nodes1 && k !in nodes ::
            nodes1[k].name in Names(entries) && !HasChild(nodes, ctx.targetID, nodes1[k].name)
  {
    hide HasChild, Names, OldRow, ObjectsSynced, RowFor, Count, ConflictTotal;
    assert forall k | k in nodes1 && k !in nodes :: NewRow(nodes, nodes1, objects1, ctx, entries, k);
  }

  /** The second run writes every row as it stands. */
  lemma RowAfterTwo(nodes: Nodes, objects: Objects, nodes1: Nodes, objects1: Objects,
                    nodes2: Nodes, objects2: Objects,
                    ctx: Context, ctx1: Context, entries: seq<RemoteEntry>,
                    r1: RefreshResult, r2: RefreshResult, k: Id)
    requires Once(nodes, objects, nodes1, objects1, ctx, ctx1, entries, r1)
    requires Refreshed(nodes1, objects1, nodes2, objects2, ctx1, entries, r2)
    requires ConflictTotal(nodes1, ctx1, entries) == ConflictTotal(nodes, ctx, entries)
    requires k in nodes1
    ensures k in nodes2 && nodes2[k] == nodes1[k]
  {
    hide RowFor, Count, Names, ObjectRows, ConflictTotal, ObjectsSynced;
    var t := ctx.targetID;
    TargetAfter(nodes, objects, nodes1, objects1, ctx, ctx1, entries, r1);
    assert OldRow(nodes1, nodes2, objects2, ctx1, entries, k);
    ChildAfter(nodes, objects, nodes1, objects1, ctx, ctx1, entries, r1, k);
    if k == t {
      assert OldRow(nodes, nodes1, objects1, ctx, entries, k);
    } else if IsChild(nodes1, t, k) {
      ChildIsUnique(nodes1, t, k);
      var n := nodes1[k].name;
      if n in Names(entries) {
        FateAfter(nodes, objects, nodes1, objects1, ctx, ctx1, entries, r1, n);
        RowIgnoresSyncState(ctx, ctx1, entries, n, Some(nodes1[k]), nodes2[k], objects2);
        KeysGrow(objects1, objects2, ObjectRows(nodes1, ctx1, entries, |entries|),
                 LostObjects(nodes1, MissingChildren(nodes1, ctx1, entries)));
        RowIsStable(ctx, entries, n, Existing(nodes, ctx, n), nodes1[k], nodes2[k], objects1, objects2);
      } else {
        assert OldRow(nodes, nodes1, objects1, ctx, entries, k);
      }
    }
  }

  lemma KeysGrow(objects: Objects, objects': Objects, rows: seq<StorageObject>, lost: set<Id>)
    requires ObjectsSynced(objects, objects', rows, lost)
    ensures objects.Keys <= objects'.Keys && UniqueKeys(objects')
    ensures forall o | o in objects :: KeyOf(objects'[o]) == KeyOf(objects[o])
  {
  }

  lemma UnchangedIsNotUpdated(nodes: Nodes, ctx: Context, entries: seq<RemoteEntry>)
    ensures UpdatedChildren(nodes, nodes, ctx, entries) == {}
  {
  }

  lemma NodesAfterTwo(nodes: Nodes, objects: Objects, nodes1: Nodes, objects1: Objects,
                      nodes2: Nodes, objects2: Objects,
                      ctx: Context, ctx1: Context, entries: seq<RemoteEntry>,
                      r1: RefreshResult, r2: RefreshResult)
    requires Once(nodes, objects, nodes1, objects1, ctx, ctx1, entries, r1)
    requires Refreshed(nodes1, objects1, nodes2, objects2, ctx1, entries, r2)
    requires ConflictTotal(nodes1, ctx1, entries) == ConflictTotal(nodes, ctx, entries)
    ensures nodes2 == nodes1
  {
    hide Refreshed, Once, ConflictTotal;
    NothingIsNew(nodes, objects, nodes1, objects1, nodes2, objects2, ctx, ctx1, entries, r1, r2);
    forall k | k in nodes1 ensures k in nodes2 && nodes2[k] == nodes1[k] {
      RowAfterTwo(nodes, objects, nodes1, objects1, nodes2, objects2, ctx, ctx1, entries, r1, r2, k);
    }
  }

  lemma ObjectsAfterTwo(nodes: Nodes, objects: Objects, nodes1: Nodes, objects1: Objects,
                        nodes2: Nodes, objects2: Objects,
                        ctx: Context, ctx1: Context, entries: seq<RemoteEntry>,
                        r1: RefreshResult, r2: RefreshResult)
    requires Once(nodes, objects, nodes1, objects1, ctx, ctx1, entries, r1)
    requires Refreshed(nodes1, objects1, nodes2, objects2, ctx1, entries, r2)
    requires forall n :: Copies(nodes1, ctx1, entries, n) <==> Copies(nodes, ctx, entries, n)
    ensures objects2 == objects1
  {
    hide OldRow, NewRow, ConflictTotal, NewNames, MissingChildren, UpdatedChildren, LostObjects, Names, SingleNames,
         ObjectsSynced, ObjectRows, Copies, Linked, HasChild;
    MissingAfter(nodes, objects, nodes1, objects1, ctx, ctx1, entries, r1);
    TargetAfter(nodes, objects, nodes1, objects1, ctx, ctx1, entries, r1);
    ObjectRowsAfter(nodes, nodes1, ctx, ctx1, entries, |entries|);
    ObjectsAreStable(objects, objects1, objects2, ObjectRows(nodes, ctx, entries, |entries|),
                     LostObjects(nodes, MissingChildren(nodes, ctx, entries)));
  }

  /** Refreshing twice with the same listing is refreshing once: the second run leaves the tree and the
      objects, indexes and updates nothing, and reports the same missing and conflicting names. */
  lemma RefreshIsIdempotent(nodes: Nodes, objects: Objects, nodes1: Nodes, objects1: Objects,
                            nodes2: Nodes, objects2: Objects,
                            ctx: Context, ctx1: Context, entries: seq<RemoteEntry>,
                            r1: RefreshResult, r2: RefreshResult)
    requires Once(nodes, objects, nodes1, objects1, ctx, ctx1, entries, r1)
    requires Refreshed(nodes1, objects1, nodes2, objects2, ctx1, entries, r2)
    ensures nodes2 == nodes1 && objects2 == objects1
    ensures r2 == r1.(indexed := 0, updated := 0)
  {
    hide OldRow, NewRow, ConflictTotal, NewNames, MissingChildren, UpdatedChildren, LostObjects, Names, SingleNames,
         ObjectsSynced, ObjectRows, Copies, Linked, HasChild, ClashingNames;
    SetsAfter(nodes, objects, nodes1, objects1, ctx, ctx1, entries, r1);
    MissingAfter(nodes, objects, nodes1, objects1, ctx, ctx1, entries, r1);
    NodesAfterTwo(nodes, objects, nodes1, objects1, nodes2, objects2, ctx, ctx1, entries, r1, r2);
    ObjectsAfterTwo(nodes, objects, nodes1, objects1, nodes2, objects2, ctx, ctx1, entries, r1, r2);
    UnchangedIsNotUpdated(nodes1, ctx1, entries);
  }

  // ---- Two runs from the same tables ----------------------------------------------------------

  /** Every object a node names is in the table. */
  ghost predicate NoDanglingObjects(nodes: Nodes, objects: Objects) {
    forall k | k in nodes && nodes[k].objectID.Some? :: nodes[k].objectID.value in objects
  }

  /** Equal rows, up to the ids of objects created on the way. */
  predicate Alike(n: Node, objects: Objects, m: Node, others: Objects) {
    && n == m.(objectID := n.objectID)
    && (n.objectID == m.objectID
        || (n.objectID.Some? && m.objectID.Some? && n.objectID.value in objects && m.objectID.value in others
            && KeyOf(objects[n.objectID.value]) == KeyOf(others[m.objectID.value])))
  }

  lemma RowsAreAlike(ctx: Context, entries: seq<RemoteEntry>, name: string, existing: Option<Node>,
                     row: Node, objects: Objects, row': Node, others: Objects)
    requires Count(entries, name) > 0
    requires RowFor(ctx, entries, name, existing, row, objects) && RowFor(ctx, entries, name, existing, row', others)
    ensures Alike(row, objects, row', others)
  {
    hide Count, First, EntryName, ObjectRow, KeyOf, ChildPath;
  }

  /** An existing child is found changed by both runs, or by neither. */
  lemma ChangedAlike(before: Node, objects: Objects, row: Node, objects1: Objects, row': Node, objects2: Objects)
    requires Alike(row, objects1, row', objects2)
    requires before.objectID.Some? ==> before.objectID.value in objects
    requires KeysKept(objects, objects1) && KeysKept(objects, objects2)
    ensures ChangedByRemote(before, row) == ChangedByRemote(before, row')
  {
    hide KeyOf;
  }

  ghost predicate KeysKept(objects: Objects, objects': Objects) {
    objects.Keys <= objects'.Keys && UniqueKeys(objects')
    && forall o | o in objects :: KeyOf(objects'[o]) == KeyOf(objects[o])
  }

  lemma OldRowsAlike(nodes: Nodes, objects: Objects, nodes1: Nodes, objects1: Objects, nodes2: Nodes, objects2: Objects,
                     ctx: Context, entries: seq<RemoteEntry>, r1: RefreshResult, r2: RefreshResult, k: Id)
    requires Refreshed(nodes, objects, nodes1, objects1, ctx, entries, r1)
    requires Refreshed(nodes, objects, nodes2, objects2, ctx, entries, r2)
    requires k in nodes
    ensures k in nodes1 && k in nodes2 && Alike(nodes1[k], objects1, nodes2[k], objects2)
  {
    hide RowFor, Count, Names, ObjectRows, ConflictTotal, ObjectsSynced;
    assert OldRow(nodes, nodes1, objects1, ctx, entries, k) && OldRow(nodes, nodes2, objects2, ctx, entries, k);
    if k != ctx.targetID && IsChild(nodes, ctx.targetID, k) && nodes[k].name in Names(entries) {
      RowsAreAlike(ctx, entries, nodes[k].name, Some(nodes[k]), nodes1[k], objects1, nodes2[k], objects2);
    }
  }

  lemma KeysOfSync(nodes: Nodes, objects: Objects, nodes': Nodes, objects': Objects, ctx: Context,
                   entries: seq<RemoteEntry>, r: RefreshResult)
    requires Refreshed(nodes, objects, nodes', objects', ctx, entries, r)
    ensures KeysKept(objects, objects')
  {
    hide RowFor, Count, Names, ObjectRows, ConflictTotal, OldRow, NewRow;
    KeysGrow(objects, objects', ObjectRows(nodes, ctx, entries, |entries|),
             LostObjects(nodes, MissingChildren(nodes, ctx, entries)));
  }

  lemma UpdatedAlike(nodes: Nodes, objects: Objects, nodes1: Nodes, objects1: Objects, nodes2: Nodes, objects2: Objects,
                     ctx: Context, entries: seq<RemoteEntry>, r1: RefreshResult, r2: RefreshResult)
    requires Refreshed(nodes, objects, nodes1, objects1, ctx, entries, r1)
    requires Refreshed(nodes, objects, nodes2, objects2, ctx, entries, r2)
    requires NoDanglingObjects(nodes, objects)
    ensures nodes.Keys <= nodes1.Keys && nodes.Keys <= nodes2.Keys
    ensures UpdatedChildren(nodes, nodes1, ctx, entries) == UpdatedChildren(nodes, nodes2, ctx, entries)
  {
    hide Copies, ChangedByRemote, Refreshed, KeysKept, Alike;
    KeysOfSync(nodes, objects, nodes1, objects1, ctx, entries, r1);
    KeysOfSync(nodes, objects, nodes2, objects2, ctx, entries, r2);
    forall k | k in nodes
      ensures k in nodes1 && k in nodes2 && ChangedByRemote(nodes[k], nodes1[k]) == ChangedByRemote(nodes[k], nodes2[k])
    {
      OldRowsAlike(nodes, objects, nodes1, objects1, nodes2, objects2, ctx, entries, r1, r2, k);
      ChangedAlike(nodes[k], objects, nodes1[k], objects1, nodes2[k], objects2);
    }
  }

  lemma ChildrenAlike(nodes: Nodes, objects: Objects, nodes1: Nodes, objects1: Objects, nodes2: Nodes,
                      objects2: Objects,
                      ctx: Context, entries: seq<RemoteEntry>, r1: RefreshResult, r2: RefreshResult, name: string)
    requires Linked(nodes) && Live(nodes, ctx.targetID) && ctx.target == nodes[ctx.targetID]
    requires Refreshed(nodes, objects, nodes1, objects1, ctx, entries, r1)
    requires Refreshed(nodes, objects, nodes2, objects2, ctx, entries, r2)
    requires name in Names(entries)
    ensures HasChild(nodes1, ctx.targetID, name) && HasChild(nodes2, ctx.targetID, name)
    ensures Alike(nodes1[ChildOf(nodes1, ctx.targetID, name)], objects1, nodes2[ChildOf(nodes2, ctx.targetID, name)],
                  objects2)
  {
    hide RowFor, Alike, Refreshed, Count, Names, Linked, Existing;
    ListedChild(nodes, objects, nodes1, objects1, ctx, entries, r1, name);
    ListedChild(nodes, objects, nodes2, objects2, ctx, entries, r2, name);
    RowsAreAlike(ctx, entries, name, Existing(nodes, ctx, name), nodes1[ChildOf(nodes1, ctx.targetID, name)], objects1,
                 nodes2[ChildOf(nodes2, ctx.targetID, name)], objects2);
  }

  lemma ListedChild(nodes: Nodes, objects: Objects, nodes1: Nodes, objects1: Objects,
                    ctx: Context, entries: seq<RemoteEntry>, r: RefreshResult, name: string)
    requires Linked(nodes) && Live(nodes, ctx.targetID) && ctx.target == nodes[ctx.targetID]
    requires Refreshed(nodes, objects, nodes1, objects1, ctx, entries, r)
    requires name in Names(entries)
    ensures HasChild(nodes1, ctx.targetID, name) && Count(entries, name) > 0
    ensures RowFor(ctx, entries, name, Existing(nodes, ctx, name), nodes1[ChildOf(nodes1, ctx.targetID, name)],
                   objects1)
  {
    NamesAreCounted(entries, name);
    hide RowFor, Count, Names, OldRow, NewRow, ObjectsSynced, ConflictTotal;
    FateAfter(nodes, objects, nodes1, objects1, ctx, ctx.(target := nodes1[ctx.targetID]), entries, r, name);
  }

  /** Neither the order in which maps are walked nor the ids of new rows show in the outcome: two
      refreshes of the same tables with the same listing report the same numbers, and leave every old
      row and every listed child alike. */
  lemma RefreshIsDeterministic(nodes: Nodes, objects: Objects, nodes1: Nodes, objects1: Objects,
                               nodes2: Nodes, objects2: Objects,
                               ctx: Context, entries: seq<RemoteEntry>, r1: RefreshResult, r2: RefreshResult)
    requires Linked(nodes) && Live(nodes, ctx.targetID) && ctx.target == nodes[ctx.targetID]
    requires NoDanglingObjects(nodes, objects)
    requires Refreshed(nodes, objects, nodes1, objects1, ctx, entries, r1)
    requires Refreshed(nodes, objects, nodes2, objects2, ctx, entries, r2)
    ensures r1 == r2
    ensures forall k | k in nodes :: k in nodes1 && k in nodes2 && Alike(nodes1[k], objects1, nodes2[k], objects2)
    ensures forall n | n in Names(entries) ::
              && HasChild(nodes1, ctx.targetID, n) && HasChild(nodes2, ctx.targetID, n)
              && Alike(nodes1[ChildOf(nodes1, ctx.targetID, n)], objects1,
                       nodes2[ChildOf(nodes2, ctx.targetID, n)], objects2)
  {
    hide OldRow, NewRow, ConflictTotal, NewNames, MissingChildren, UpdatedChildren, LostObjects, Names, SingleNames,
         ObjectsSynced, ObjectRows, Linked, HasChild, NoDanglingObjects;
    UpdatedAlike(nodes, objects, nodes1, objects1, nodes2, objects2, ctx, entries, r1, r2);
    forall k | k in nodes
      ensures k in nodes1 && k in nodes2 && Alike(nodes1[k], objects1, nodes2[k], objects2)
    {
      OldRowsAlike(nodes, objects, nodes1, objects1, nodes2, objects2, ctx, entries, r1, r2, k);
    }
    OldRowsAlike(nodes, objects, nodes1, objects1, nodes2, objects2, ctx, entries, r1, r2, ctx.targetID);
    forall n | n in Names(entries)
      ensures && HasChild(nodes1, ctx.targetID, n) && HasChild(nodes2, ctx.targetID, n)
              && Alike(nodes1[ChildOf(nodes1, ctx.targetID, n)], objects1,
                       nodes2[ChildOf(nodes2, ctx.targetID, n)], objects2)
    {
      ChildrenAlike(nodes, objects, nodes1, objects1, nodes2, objects2, ctx, entries, r1, r2, n);
    }
  }

  // ---- The children after a refresh -----------------------------------------------------------

  datatype ChildFate = Untouched | Copy | InConflict | Gone

  /** Every child of a refreshed directory is of exactly one kind, which its name, the listing and its
      old row determine. */
  function ChildFateOf(entries: seq<RemoteEntry>, name: string, existing: Option<Node>): ChildFate {
    if name !in Names(entries) || Count(entries, name) == 0 then
      (if existing.Some? && IsControl(existing.value) then Untouched else Gone)
    else
      match FateOf(entries, name, existing)
      case Kept => Untouched
      case Copied => Copy
      case _ => InConflict
  }

  /** Control nodes not listed twice are untouched, copies are indexed with an object of the entry's key,
      conflicting names are marked, and the rest is missing. */
  lemma ChildrenAreAccountedFor(nodes: Nodes, objects: Objects, nodes1: Nodes, objects1: Objects, ctx: Context,
                                entries: seq<RemoteEntry>, r: RefreshResult, k: Id)
    requires Linked(nodes) && Live(nodes, ctx.targetID) && ctx.target == nodes[ctx.targetID]
    requires Refreshed(nodes, objects, nodes1, objects1, ctx, entries, r)
    requires IsChild(nodes1, ctx.targetID, k)
    ensures
      var name := nodes1[k].name;
      match ChildFateOf(entries, name, Existing(nodes, ctx, name))
      case Untouched => k in nodes && nodes1[k] == nodes[k] && IsControl(nodes[k]) && name !in DuplicateNames(entries)
      case Copy =>
        && name in SingleNames(entries) && Count(entries, name) == 1 && nodes1[k].syncState == Indexed
        && nodes1[k] == IndexedNode(ctx, First(entries, name), nodes1[k].objectID)
        && EntryObject(objects1, ctx, First(entries, name), nodes1[k].objectID)
      case InConflict => nodes1[k].syncState == Conflict && name in Names(entries)
      case Gone => k in nodes && nodes1[k] == nodes[k].(syncState := Missing) && name !in Names(entries)
    ensures nodes1[ctx.targetID].syncState == Conflict <==> r.conflicts > 0
  {
    var name := nodes1[k].name;
    NamesAreCounted(entries, name);
    hide RowFor, Count, Names, ConflictTotal, ObjectRows, ObjectsSynced, ValidName, NodeOk, FateOf, Existing;
    assert OldRow(nodes, nodes1, objects1, ctx, entries, ctx.targetID);
    ChildIsUnique(nodes1, ctx.targetID, k);
    hide OldRow, NewRow;
    if name in Names(entries) {
      ListedChild(nodes, objects, nodes1, objects1, ctx, entries, r, name);
      ListedFate(ctx, entries, name, Existing(nodes, ctx, name), nodes1[k], objects1);
      if FateOf(entries, name, Existing(nodes, ctx, name)) == Kept {
        KeptChild(nodes, objects, nodes1, objects1, ctx, entries, r, k);
      }
    } else {
      UnlistedChild(nodes, objects, nodes1, objects1, ctx, entries, r, k);
    }
  }

  lemma KeptChild(nodes: Nodes, objects: Objects, nodes1: Nodes, objects1: Objects, ctx: Context,
                  entries: seq<RemoteEntry>, r: RefreshResult, k: Id)
    requires Linked(nodes) && Live(nodes, ctx.targetID) && ctx.target == nodes[ctx.targetID]
    requires Refreshed(nodes, objects, nodes1, objects1, ctx, entries, r)
    requires IsChild(nodes1, ctx.targetID, k) && Existing(nodes, ctx, nodes1[k].name) == Some(nodes1[k])
    ensures k in nodes && nodes1[k] == nodes[k]
  {
    hide RowFor, Count, Names, ConflictTotal, ObjectRows, ObjectsSynced, NodeOk;
    var name := nodes1[k].name;
    ChildAfter(nodes, objects, nodes1, objects1, ctx, ctx.(target := nodes1[ctx.targetID]), entries, r, k);
    assert HasChild(nodes, ctx.targetID, name);
    if k in nodes { ChildIsUnique(nodes, ctx.targetID, k); }
  }

  lemma UnlistedChild(nodes: Nodes, objects: Objects, nodes1: Nodes, objects1: Objects, ctx: Context,
                      entries: seq<RemoteEntry>, r: RefreshResult, k: Id)
    requires Linked(nodes) && Live(nodes, ctx.targetID) && ctx.target == nodes[ctx.targetID]
    requires Refreshed(nodes, objects, nodes1, objects1, ctx, entries, r)
    requires IsChild(nodes1, ctx.targetID, k) && nodes1[k].name !in Names(entries)
    ensures k in nodes && Existing(nodes, ctx, nodes1[k].name) == Some(nodes[k])
    ensures nodes1[k] == if IsControl(nodes[k]) then nodes[k] else nodes[k].(syncState := Missing)
  {
    hide RowFor, Count, Names, ConflictTotal, ObjectRows, ObjectsSynced, NodeOk;
    ChildAfter(nodes, objects, nodes1, objects1, ctx, ctx.(target := nodes1[ctx.targetID]), entries, r, k);
    assert k in nodes;
    assert OldRow(nodes, nodes1, objects1, ctx, entries, k);
    ChildIsUnique(nodes, ctx.targetID, k);
  }

  lemma ListedFate(ctx: Context, entries: seq<RemoteEntry>, name: string, existing: Option<Node>, row: Node,
                   objects: Objects)
    requires Count(entries, name) > 0 && RowFor(ctx, entries, name, existing, row, objects)
    ensures
      match FateOf(entries, name, existing)
      case Kept => existing == Some(row) && IsControl(row) && Count(entries, name) == 1
      case Copied => Count(entries, name) == 1 && row == IndexedNode(ctx, First(entries, name), row.objectID)
                     && EntryObject(objects, ctx, First(entries, name), row.objectID) && row.syncState == Indexed
      case _ => row.syncState == Conflict
  {
  }

  // ---- Directories that turn into files -------------------------------------------------------

  /** The listing makes a file of this child: it is listed as one, once and not as a control node, or several times and
      first as a file. */
  ghost predicate BecomesFile(nodes: Nodes, ctx: Context, entries: seq<RemoteEntry>, k: Id)
    requires k in nodes
  {
    var name := nodes[k].name;
    && IsChild(nodes, ctx.targetID, k) && name in Names(entries) && Count(entries, name) > 0
    && !First(entries, name).isDir && FateOf(entries, name, Some(nodes[k])) in {Copied, FirstOfMany}
  }

  /** What becomes of an old row: its place stays, and a directory is a file afterwards exactly if the listing makes it
      one. */
  lemma OldRowAfter(nodes: Nodes, objects: Objects, nodes': Nodes, objects': Objects, ctx: Context,
                    entries: seq<RemoteEntry>, r: RefreshResult, k: Id)
    requires Linked(nodes) && Live(nodes, ctx.targetID) && ctx.target == nodes[ctx.targetID]
    requires Refreshed(nodes, objects, nodes', objects', ctx, entries, r) && k in nodes
    ensures k in nodes' && nodes'[k].isDeleted == nodes[k].isDeleted && nodes'[k].parentID == nodes[k].parentID
    ensures IsDirectory(nodes[k]) ==> (nodes'[k].kind == File <==> BecomesFile(nodes, ctx, entries, k))
  {
    hide Linked, ObjectsSynced, ObjectRows, ConflictTotal, Names, Count, First, EntryObject, NewRow, ConflictNode;
    assert OldRow(nodes, nodes', objects', ctx, entries, k);
    if IsChild(nodes, ctx.targetID, k) {
      ChildIsUnique(nodes, ctx.targetID, k);
      if nodes[k].name in Names(entries) {
        RowIsNamedChild(ctx, entries, nodes[k].name, Some(nodes[k]), nodes'[k], objects');
        ListedKind(ctx, entries, nodes[k].name, nodes[k], nodes'[k], objects');
      }
    }
  }

  lemma ListedKind(ctx: Context, entries: seq<RemoteEntry>, name: string, existing: Node, row: Node, objects: Objects)
    requires Count(entries, name) > 0 && RowFor(ctx, entries, name, Some(existing), row, objects)
    ensures row.kind == if FateOf(entries, name, Some(existing)) in {Copied, FirstOfMany}
                        then (if First(entries, name).isDir then Dir else File) else existing.kind
  {
  }

  lemma NewRowAfter(nodes: Nodes, objects: Objects, nodes': Nodes, objects': Objects, ctx: Context,
                    entries: seq<RemoteEntry>, r: RefreshResult, k: Id)
    requires Refreshed(nodes, objects, nodes', objects', ctx, entries, r) && k in nodes' && k !in nodes
    ensures nodes'[k].parentID == Some(ctx.targetID)
  {
    hide Linked, ObjectsSynced, ObjectRows, ConflictTotal, OldRow;
    assert NewRow(nodes, nodes', objects', ctx, entries, k);
    RowIsNamedChild(ctx, entries, nodes'[k].name, None, nodes'[k], objects');
  }

  /** No directory the listing makes a file of has a live child. */
  ghost predicate ParentsStay(nodes: Nodes, ctx: Context, entries: seq<RemoteEntry>) {
    forall k: Id, c: Id | Live(nodes, k) && Live(nodes, c) && nodes[c].parentID == Some(k) ::
      !BecomesFile(nodes, ctx, entries, k)
  }

  /** A refresh keeps parents directories if and only if no directory it makes a file of has a live child. */
  lemma RefreshKeepsWellFormedIff(nodes: Nodes, objects: Objects, nodes': Nodes, objects': Objects, ctx: Context,
                                  entries: seq<RemoteEntry>, r: RefreshResult)
    requires WellFormed(nodes) && Live(nodes, ctx.targetID) && ctx.target == nodes[ctx.targetID]
    requires IsDirectory(ctx.target) && Refreshed(nodes, objects, nodes', objects', ctx, entries, r)
    ensures WellFormed(nodes') <==> ParentsStay(nodes, ctx, entries)
  {
    hide BecomesFile, Refreshed, WellFormed, Linked;
    LinkedBothTimes(nodes, objects, nodes', objects', ctx, entries, r);
    TargetStaysDirectory(nodes, objects, nodes', objects', ctx, entries, r);
    ghost var files := iset k: Id | k in nodes && BecomesFile(nodes, ctx, entries, k);
    forall k | k in nodes
      ensures k in nodes' && nodes'[k].isDeleted == nodes[k].isDeleted && nodes'[k].parentID == nodes[k].parentID
      ensures IsDirectory(nodes[k]) ==> (nodes'[k].kind == File <==> k in files)
    {
      OldRowAfter(nodes, objects, nodes', objects', ctx, entries, r, k);
    }
    forall k | k in nodes' && k !in nodes ensures nodes'[k].parentID == Some(ctx.targetID) {
      NewRowAfter(nodes, objects, nodes', objects', ctx, entries, r, k);
    }
    KindsDecide(nodes, nodes', ctx.targetID, files);
  }

  lemma LinkedBothTimes(nodes: Nodes, objects: Objects, nodes': Nodes, objects': Objects, ctx: Context,
                        entries: seq<RemoteEntry>, r: RefreshResult)
    requires WellFormed(nodes) && Refreshed(nodes, objects, nodes', objects', ctx, entries, r)
    ensures Linked(nodes) && Linked(nodes')
  {
  }

  lemma KindsDecide(nodes: Nodes, nodes': Nodes, t: Id, files: iset<Id>)
    requires WellFormed(nodes) && Linked(nodes') && t in nodes' && IsDirectory(nodes'[t])
    requires forall k | k in nodes ::
               && k in nodes' && nodes'[k].isDeleted == nodes[k].isDeleted && nodes'[k].parentID == nodes[k].parentID
               && (IsDirectory(nodes[k]) ==> (nodes'[k].kind == File <==> k in files))
    requires forall k | k in nodes' && k !in nodes :: nodes'[k].parentID == Some(t)
    ensures WellFormed(nodes') <==>
            forall k: Id, c: Id | Live(nodes, k) && Live(nodes, c) && nodes[c].parentID == Some(k) :: k !in files
  {
    forall c: Id | Live(nodes, c) && nodes[c].parentID.Some?
      ensures Live(nodes, nodes[c].parentID.value) && IsDirectory(nodes[nodes[c].parentID.value])
    {
      assert NodeOk(nodes, c);
    }
    hide NodeOk, DistinctPaths, HasRoot;
    if forall k: Id, c: Id | Live(nodes, k) && Live(nodes, c) && nodes[c].parentID == Some(k) :: k !in files {
      forall c: Id | Live(nodes', c) && nodes'[c].parentID.Some?
        ensures nodes'[c].parentID.value in nodes' && IsDirectory(nodes'[nodes'[c].parentID.value])
      {
        if c in nodes { assert Live(nodes, c); }
      }
    }
  }

  lemma TargetStaysDirectory(nodes: Nodes, objects: Objects, nodes': Nodes, objects': Objects, ctx: Context,
                             entries: seq<RemoteEntry>, r: RefreshResult)
    requires Linked(nodes) && Live(nodes, ctx.targetID) && ctx.target == nodes[ctx.targetID]
    requires IsDirectory(ctx.target) && Refreshed(nodes, objects, nodes', objects', ctx, entries, r)
    ensures ctx.targetID in nodes' && IsDirectory(nodes'[ctx.targetID])
  {
    assert OldRow(nodes, nodes', objects', ctx, entries, ctx.targetID);
  }

  /** "/d" with a file in it. */
  function DirectoryWithFile(): Nodes {
    map[1 := Node(None, "", "/", Root, None, None, None, None, None, 0, "", "", "", Indexed, false),
        2 := Node(Some(1), "d", "/d", Dir, None, None, None, None, None, 0, "", "", "", Indexed, false),
        3 := Node(Some(2), "f", "/d/f", File, None, None, None, None, None, 0, "", "", "", Indexed, false)]
  }

  /** A provider that lists "d" as a file now. */
  function ListedAsFile(): seq<RemoteEntry> {
    [RemoteEntry("d", "", false, 0, "", "", "", "", "", "", None)]
  }

  lemma TreeWithFile()
    ensures WellFormed(DirectoryWithFile())
  {
    var nodes := DirectoryWithFile();
    assert Live(nodes, 1) && nodes[1].parentID == None;
    assert ChildPath("/", "d") == "/d" && ChildPath("/d", "f") == "/d/f";
    assert forall k :: Live(nodes, k) <==> k == 1 || k == 2 || k == 3;
    assert |nodes[1].path| == 1 && |nodes[2].path| == 2 && |nodes[3].path| == 4;
    hide ChildPath;
  }

  /** On that tree and that listing a refresh leaves a file with a child. */
  lemma ParentBecomesFile(ctx: Context)
    requires ctx.targetID == 1
    ensures WellFormed(DirectoryWithFile()) && !ParentsStay(DirectoryWithFile(), ctx, ListedAsFile())
  {
    TreeWithFile();
    hide WellFormed;
    var entries := ListedAsFile();
    assert entries[..0] == [] && EntryName(entries[0]) == "d";
    assert Count(entries, "d") == 1 && First(entries, "d") == entries[0];
    assert "d" in Names(entries) by { assert ValidName(EntryName(entries[0])); }
    assert BecomesFile(DirectoryWithFile(), ctx, entries, 2);
    assert Live(DirectoryWithFile(), 2) && Live(DirectoryWithFile(), 3);
  }
}
