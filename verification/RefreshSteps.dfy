/** A refresh half way: which rows are dealt with, and how one more step keeps the picture. */
module RefreshSteps {
  import opened Common
  import opened Paths
  import opened Store
  import opened Tree
  import opened Listing
  import opened RefreshSpec
  import opened RefreshTheory
  import opened Repositories

  // ---- Listed names ---------------------------------------------------------------------------

  /** Exactly the names in `done` have been dealt with. */
  ghost predicate Partial(before: Nodes, nodes: Nodes, objects: Objects, ctx: Context, entries: seq<RemoteEntry>,
                          done: set<string>) {
    && before.Keys <= nodes.Keys && Linked(nodes) && done <= Names(entries)
    && (forall n | n in done :: Count(entries, n) > 0 && HasChild(nodes, ctx.targetID, n))
    && (forall k | k in before ::
          if IsChild(before, ctx.targetID, k) && before[k].name in done
          then RowFor(ctx, entries, before[k].name, Some(before[k]), nodes[k], objects)
          else nodes[k] == before[k])
    && (forall k | k in nodes && k !in before ::
          && nodes[k].name in done && !HasChild(before, ctx.targetID, nodes[k].name)
          && RowFor(ctx, entries, nodes[k].name, None, nodes[k], objects))
  }

  ghost predicate Start(before: Nodes, ctx: Context) {
    Linked(before) && Live(before, ctx.targetID) && ctx.target == before[ctx.targetID]
  }

  lemma PartialStart(before: Nodes, objects: Objects, ctx: Context, entries: seq<RemoteEntry>)
    requires Start(before, ctx)
    ensures Partial(before, before, objects, ctx, entries, {})
  {
  }

  /** Rows only ask that the objects they name keep their keys. */
  lemma RowSurvivesObjects(ctx: Context, entries: seq<RemoteEntry>, name: string, existing: Option<Node>, row: Node,
                           objects: Objects, objects': Objects)
    requires Count(entries, name) > 0 && RowFor(ctx, entries, name, existing, row, objects)
    requires SameKeys(objects, objects')
    ensures RowFor(ctx, entries, name, existing, row, objects')
  {
    hide Count, First, FateOf, ListedNode, ObjectRow;
  }

  ghost predicate SameKeys(objects: Objects, objects': Objects) {
    objects.Keys <= objects'.Keys && forall o | o in objects :: KeyOf(objects'[o]) == KeyOf(objects[o])
  }

  lemma PartialSurvivesObjects(before: Nodes, nodes: Nodes, objects: Objects, objects': Objects, ctx: Context,
                               entries: seq<RemoteEntry>, done: set<string>)
    requires Partial(before, nodes, objects, ctx, entries, done) && SameKeys(objects, objects')
    ensures Partial(before, nodes, objects', ctx, entries, done)
  {
    hide RowFor, SameKeys, Linked, Names, HasChild, Count;
    forall k | k in before && IsChild(before, ctx.targetID, k) && before[k].name in done
      ensures RowFor(ctx, entries, before[k].name, Some(before[k]), nodes[k], objects')
    {
      RowSurvivesObjects(ctx, entries, before[k].name, Some(before[k]), nodes[k], objects, objects');
    }
    forall k | k in nodes && k !in before
      ensures RowFor(ctx, entries, nodes[k].name, None, nodes[k], objects')
    {
      RowSurvivesObjects(ctx, entries, nodes[k].name, None, nodes[k], objects, objects');
    }
  }

  /** A name not yet dealt with has the child it had. */
  lemma UntouchedName(before: Nodes, nodes: Nodes, objects: Objects, ctx: Context, entries: seq<RemoteEntry>,
                      done: set<string>, name: string, k: Id)
    requires Start(before, ctx) && Partial(before, nodes, objects, ctx, entries, done) && name !in done
    ensures IsChild(nodes, ctx.targetID, k) && nodes[k].name == name
            <==> IsChild(before, ctx.targetID, k) && before[k].name == name
    ensures IsChild(nodes, ctx.targetID, k) && nodes[k].name == name ==> k in before && nodes[k] == before[k]
  {
    hide Linked, Names, HasChild, Count, RowFor;
    if k in before && IsChild(before, ctx.targetID, k) && before[k].name in done {
      RowIsNamedChild(ctx, entries, before[k].name, Some(before[k]), nodes[k], objects);
    }
  }

  lemma TargetStands(before: Nodes, nodes: Nodes, objects: Objects, ctx: Context, entries: seq<RemoteEntry>,
                     done: set<string>)
    requires Start(before, ctx) && Partial(before, nodes, objects, ctx, entries, done)
    ensures Live(nodes, ctx.targetID) && nodes[ctx.targetID] == ctx.target
    ensures ChildPath(ctx.target.path, "x") != ""
  {
    if IsChild(before, ctx.targetID, ctx.targetID) { ChildIsUnique(before, ctx.targetID, ctx.targetID); }
  }

  /** The row an upsert at the name's path hits is the child of that name, or a new one. */
  lemma UpsertHitsTheChild(before: Nodes, nodes: Nodes, objects: Objects, ctx: Context, entries: seq<RemoteEntry>,
                           done: set<string>, name: string, id: Id)
    requires Start(before, ctx) && Partial(before, nodes, objects, ctx, entries, done) && name !in done
    requires ValidName(name) && UpsertTarget(nodes, id, ChildPath(ctx.target.path, name))
    ensures HasChild(before, ctx.targetID, name) ==> id in before && id == ChildOf(before, ctx.targetID, name)
    ensures !HasChild(before, ctx.targetID, name) ==> id !in nodes
  {
    assert CleanSegment(name);
    hide Names, Count, RowFor, ValidName, CleanSegment, ChildPath;
    TargetStands(before, nodes, objects, ctx, entries, done);
    if HasChild(before, ctx.targetID, name) {
      var c := ChildOf(before, ctx.targetID, name);
      UntouchedName(before, nodes, objects, ctx, entries, done, name, c);
      ChildIsUnique(nodes, ctx.targetID, c);
      assert LiveAt(nodes, c, ChildPath(ctx.target.path, name));
    }
    if LiveAt(nodes, id, ChildPath(ctx.target.path, name)) {
      ChildAtPath(nodes, ctx.targetID, id, name);
      UntouchedName(before, nodes, objects, ctx, entries, done, name, id);
    }
  }

  /** Writing the row a name is due keeps the picture. */
  lemma DealWithName(before: Nodes, nodes: Nodes, objects: Objects, ctx: Context, entries: seq<RemoteEntry>,
                     done: set<string>, name: string, id: Id, row: Node)
    requires Start(before, ctx) && Partial(before, nodes, objects, ctx, entries, done)
    requires name in Names(entries) && name !in done && Count(entries, name) > 0
    requires HasChild(before, ctx.targetID, name) ==> id in before && id == ChildOf(before, ctx.targetID, name)
    requires !HasChild(before, ctx.targetID, name) ==> id !in nodes
    requires RowFor(ctx, entries, name, Existing(before, ctx, name), row, objects)
    requires Linked(nodes[id := row])
    ensures Partial(before, nodes[id := row], objects, ctx, entries, done + {name})
  {
    hide Linked, Names, Count, RowFor, HasChild, Existing;
    NamesStayDealt(before, nodes, objects, ctx, entries, done, name, id, row);
    OnlyThatChild(before, ctx, name, id);
    ExistingIs(before, ctx, name, id);
  }

  lemma ExistingIs(before: Nodes, ctx: Context, name: string, id: Id)
    requires HasChild(before, ctx.targetID, name) ==> id in before && id == ChildOf(before, ctx.targetID, name)
    ensures Existing(before, ctx, name) == if HasChild(before, ctx.targetID, name) then Some(before[id]) else None
    ensures HasChild(before, ctx.targetID, name) ==> IsChild(before, ctx.targetID, id) && before[id].name == name
  {
  }

  lemma OnlyThatChild(before: Nodes, ctx: Context, name: string, id: Id)
    requires Linked(before)
    requires HasChild(before, ctx.targetID, name) ==> id in before && id == ChildOf(before, ctx.targetID, name)
    ensures forall k | k in before && IsChild(before, ctx.targetID, k) && before[k].name == name ::
              k == id && HasChild(before, ctx.targetID, name)
  {
    hide Linked;
    forall k | k in before && IsChild(before, ctx.targetID, k) && before[k].name == name
      ensures k == id && HasChild(before, ctx.targetID, name)
    {
      SameNameSameChild(before, ctx.targetID, k, name);
    }
  }

  lemma NamesStayDealt(before: Nodes, nodes: Nodes, objects: Objects, ctx: Context, entries: seq<RemoteEntry>,
                       done: set<string>, name: string, id: Id, row: Node)
    requires Start(before, ctx) && Partial(before, nodes, objects, ctx, entries, done)
    requires name in Names(entries) && name !in done && Count(entries, name) > 0
    requires HasChild(before, ctx.targetID, name) ==> id in before && id == ChildOf(before, ctx.targetID, name)
    requires !HasChild(before, ctx.targetID, name) ==> id !in nodes
    requires RowFor(ctx, entries, name, Existing(before, ctx, name), row, objects)
    ensures row.name == name
    ensures forall n | n in done + {name} :: HasChild(nodes[id := row], ctx.targetID, n)
  {
    hide Linked, Names, Count, RowFor;
    var after := nodes[id := row];
    RowIsNamedChild(ctx, entries, name, Existing(before, ctx, name), row, objects);
    assert IsChild(after, ctx.targetID, id) && after[id].name == name;
    forall n | n in done ensures HasChild(after, ctx.targetID, n) {
      var c := ChildOf(nodes, ctx.targetID, n);
      if c == id { UntouchedName(before, nodes, objects, ctx, entries, done, name, id); }
      assert IsChild(after, ctx.targetID, c) && after[c].name == n;
    }
  }

  lemma SameNameSameChild(nodes: Nodes, t: Id, k: Id, name: string)
    requires Linked(nodes) && IsChild(nodes, t, k) && nodes[k].name == name
    ensures HasChild(nodes, t, name) && ChildOf(nodes, t, name) == k
  {
    ChildIsUnique(nodes, t, k);
  }

  /** The rows `upsertConflictChild` and `upsertRemoteChild` write hang below the target. */
  lemma ListedRowIsChildRow(before: Nodes, nodes: Nodes, objects: Objects, ctx: Context, entries: seq<RemoteEntry>,
                            done: set<string>, e: RemoteEntry, objectID: Option<Id>, state: SyncState)
    requires Start(before, ctx) && Partial(before, nodes, objects, ctx, entries, done)
    requires ValidName(EntryName(e))
    ensures IsChildRow(nodes, ctx.targetID, ListedNode(ctx, e, objectID, state))
  {
    TargetStands(before, nodes, objects, ctx, entries, done);
    hide ValidName, EntryName, ChildPath, Partial, Linked;
  }

  // ---- Sync states ----------------------------------------------------------------------------

  /** Only sync states differ. */
  ghost predicate SameButState(nodes: Nodes, nodes': Nodes) {
    nodes'.Keys == nodes.Keys && forall k | k in nodes :: nodes'[k] == nodes[k].(syncState := nodes'[k].syncState)
  }

  lemma StateKeepsLinked(nodes: Nodes, nodes': Nodes)
    requires Linked(nodes) && SameButState(nodes, nodes')
    ensures Linked(nodes')
  {
    var root :| Live(nodes, root) && nodes[root].parentID == None;
    assert Live(nodes', root) && nodes'[root].parentID == None;
    assert forall k: Id :: Live(nodes', k) <==> Live(nodes, k);
    forall k: Id | Live(nodes', k) ensures NodeOk(nodes', k) {
      assert NodeOk(nodes, k);
    }
    hide NodeOk;
    assert forall a: Id | Live(nodes', a) :: nodes'[a].path == nodes[a].path;
  }

  lemma StateIsAdmitted(nodes: Nodes, k: Id, state: SyncState)
    requires Linked(nodes) && k in nodes
    ensures Admits(nodes, k, nodes[k].(syncState := state))
    ensures Linked(nodes[k := nodes[k].(syncState := state)])
  {
    LinkedIsUnique(nodes);
    StateKeepsLinked(nodes, nodes[k := nodes[k].(syncState := state)]);
    hide Linked;
    if !nodes[k].isDeleted {
      forall j | j in nodes && Live(nodes, j) && j != k
        ensures !Clash(nodes[k].(syncState := state), nodes[j])
      {
        assert Live(nodes, k) && !Clash(nodes[k], nodes[j]);
      }
    }
  }

  /** The rows in `marked` are missing now, the others as they stood. */
  ghost predicate Marked(mid: Nodes, nodes: Nodes, marked: set<Id>) {
    && nodes.Keys == mid.Keys && Linked(nodes)
    && forall k | k in mid :: nodes[k] == if k in marked then mid[k].(syncState := Missing) else mid[k]
  }

  /** A child the listing does not mention stands unchanged once all names are dealt with. */
  lemma UnlistedStands(before: Nodes, mid: Nodes, objects: Objects, ctx: Context, entries: seq<RemoteEntry>, k: Id)
    requires Partial(before, mid, objects, ctx, entries, Names(entries))
    requires k in before && IsChild(before, ctx.targetID, k) && before[k].name !in Names(entries)
    ensures k in mid && mid[k] == before[k]
  {
  }

  lemma MarkOne(mid: Nodes, nodes: Nodes, marked: set<Id>, k: Id)
    requires Linked(mid) && Marked(mid, nodes, marked) && k in mid && k !in marked
    ensures k in nodes && nodes[k] == mid[k]
    ensures Admits(nodes, k, mid[k].(syncState := Missing))
    ensures Marked(mid, nodes[k := mid[k].(syncState := Missing)], marked + {k})
  {
    StateIsAdmitted(nodes, k, Missing);
  }

  // ---- Objects --------------------------------------------------------------------------------

  lemma ObjectsStart(objects: Objects)
    requires UniqueKeys(objects)
    ensures ObjectsSynced(objects, objects, [], {})
  {
  }

  lemma LastOfAppend(rows: seq<StorageObject>, row: StorageObject, key: ObjectKey)
    ensures HasKey(rows + [row], key) <==> HasKey(rows, key) || key == KeyOf(row)
    ensures HasKey(rows + [row], key) ==>
              LastRow(rows + [row], key) == if key == KeyOf(row) then row else LastRow(rows, key)
  {
    var all := rows + [row];
    assert all[..|all| - 1] == rows && all[|rows|] == row;
    if HasKey(rows, key) {
      var i :| 0 <= i < |rows| && KeyOf(rows[i]) == key;
      assert KeyOf(all[i]) == key;
    }
  }

  lemma UpsertOne(before: Objects, objects: Objects, rows: seq<StorageObject>, id: Id, row: StorageObject)
    requires ObjectsSynced(before, objects, rows, {}) && KeyTarget(objects, id, KeyOf(row))
    ensures ObjectsSynced(before, objects[id := row], rows + [row], {})
    ensures SameKeys(objects, objects[id := row])
  {
    var after, all := objects[id := row], rows + [row];
    hide LastRow, HasKey, KeyOf;
    forall i | 0 <= i < |all| ensures exists o :: o in after && KeyOf(after[o]) == KeyOf(all[i]) {
      if i == |rows| {
        assert id in after && KeyOf(after[id]) == KeyOf(all[i]);
      } else {
        assert all[i] == rows[i];
        var o :| o in objects && KeyOf(objects[o]) == KeyOf(rows[i]);
        assert o in after && KeyOf(after[o]) == KeyOf(all[i]);
      }
    }
    forall o | o in after
      ensures if HasKey(all, KeyOf(after[o])) then after[o] == LastRow(all, KeyOf(after[o]))
              else o in before && after[o] == before[o]
    {
      LastOfAppend(rows, row, KeyOf(after[o]));
    }
  }

  /** Marking one object missing, if the table has it. */
  lemma LoseOne(before: Objects, objects: Objects, rows: seq<StorageObject>, lost: set<Id>, o: Id)
    requires ObjectsSynced(before, objects, rows, lost) && o in objects
    ensures
      var gone := objects[o].(status := ObjectMissing);
      && KeyIsFree(objects, o, KeyOf(gone))
      && ObjectsSynced(before, objects[o := gone], rows, lost + {o})
      && SameKeys(objects, objects[o := gone])
  {
    hide LastRow, HasKey;
    var after := objects[o := objects[o].(status := ObjectMissing)];
    assert KeyOf(after[o]) == KeyOf(objects[o]);
    assert forall p | p in after :: KeyOf(after[p]) == KeyOf(objects[p]);
    forall i | 0 <= i < |rows| ensures exists p :: p in after && KeyOf(after[p]) == KeyOf(rows[i]) {
      var p :| p in objects && KeyOf(objects[p]) == KeyOf(rows[i]);
      assert p in after && KeyOf(after[p]) == KeyOf(rows[i]);
    }
  }

  /** An object the table does not have cannot be lost. */
  lemma LoseNone(before: Objects, objects: Objects, rows: seq<StorageObject>, lost: set<Id>, o: Id)
    requires ObjectsSynced(before, objects, rows, lost) && o !in objects
    ensures ObjectsSynced(before, objects, rows, lost + {o})
  {
    hide LastRow, HasKey, KeyOf;
    forall p | p in objects
      ensures if HasKey(rows, KeyOf(objects[p]))
              then objects[p] == MarkMissing(LastRow(rows, KeyOf(objects[p])), p in lost + {o})
              else p in before && objects[p] == MarkMissing(before[p], p in lost + {o})
    {
      assert p in lost + {o} <==> p in lost;
    }
  }

  // ---- Counting -------------------------------------------------------------------------------

  /** How many elements of `all` have been seen. */
  lemma OneMoreSeen<T>(done: set<T>, all: set<T>, x: T)
    requires x !in done
    ensures |(done + {x}) * all| == |done * all| + if x in all then 1 else 0
  {
    if x in all {
      assert (done + {x}) * all == done * all + {x};
    } else {
      assert (done + {x}) * all == done * all;
    }
  }

  /** Updated children among the names dealt with. */
  ghost function UpdatedSoFar(before: Nodes, nodes: Nodes, ctx: Context, entries: seq<RemoteEntry>,
                              done: set<string>): set<Id>
    requires before.Keys <= nodes.Keys
  {
    set k | k in before && IsChild(before, ctx.targetID, k) && before[k].name in done
            && Copies(before, ctx, entries, before[k].name) && ChangedByRemote(before[k], nodes[k])
  }

  lemma UpdatedOneMore(before: Nodes, nodes: Nodes, objects: Objects, ctx: Context, entries: seq<RemoteEntry>,
                       done: set<string>, name: string, id: Id, row: Node)
    requires Start(before, ctx) && Partial(before, nodes, objects, ctx, entries, done) && name !in done
    requires HasChild(before, ctx.targetID, name) ==> id in before && id == ChildOf(before, ctx.targetID, name)
    requires !HasChild(before, ctx.targetID, name) ==> id !in nodes
    ensures |UpdatedSoFar(before, nodes[id := row], ctx, entries, done + {name})|
            == |UpdatedSoFar(before, nodes, ctx, entries, done)|
               + if id in before && Copies(before, ctx, entries, name) && ChangedByRemote(before[id], row) then 1 else 0
  {
    hide Partial, Copies, ChangedByRemote, Linked;
    var after, all := nodes[id := row], done + {name};
    assert before.Keys <= nodes.Keys by { KeysOfPartial(before, nodes, objects, ctx, entries, done); }
    forall k | k in before && IsChild(before, ctx.targetID, k) && before[k].name == name
      ensures k == id
    {
      SameNameSameChild(before, ctx.targetID, k, name);
    }
    var was, now := UpdatedSoFar(before, nodes, ctx, entries, done), UpdatedSoFar(before, after, ctx, entries, all);
    assert id in before ==> IsChild(before, ctx.targetID, id) && before[id].name == name;
    assert id !in was;
    if id in before && Copies(before, ctx, entries, name) && ChangedByRemote(before[id], row) {
      assert now == was + {id};
    } else {
      assert now == was;
    }
  }

  lemma KeysOfPartial(before: Nodes, nodes: Nodes, objects: Objects, ctx: Context, entries: seq<RemoteEntry>,
                      done: set<string>)
    requires Partial(before, nodes, objects, ctx, entries, done)
    ensures before.Keys <= nodes.Keys && Linked(nodes)
  {
  }

  // ---- The end --------------------------------------------------------------------------------

  /** All names dealt with, unlisted children marked, the target's state written: that is a refresh. */
  lemma RefreshIsDone(before: Nodes, mid: Nodes, marked: Nodes, objects: Objects, objects': Objects, ctx: Context,
                      entries: seq<RemoteEntry>, state: SyncState, result: RefreshResult)
    requires Start(before, ctx)
    requires Partial(before, mid, objects', ctx, entries, Names(entries))
    requires Marked(mid, marked, MissingChildren(before, ctx, entries))
    requires ctx.targetID in marked
    requires ObjectsSynced(objects, objects', ObjectRows(before, ctx, entries, |entries|),
                           LostObjects(before, MissingChildren(before, ctx, entries)))
    requires state == if ConflictTotal(before, ctx, entries) > 0 then Conflict else Indexed
    requires result.seen == |SingleNames(entries)| && result.indexed == |NewNames(before, ctx, entries)|
    requires before.Keys <= mid.Keys && result.updated == |UpdatedSoFar(before, mid, ctx, entries, Names(entries))|
    requires result.missing == |MissingChildren(before, ctx, entries)|
    requires result.conflicts == ConflictTotal(before, ctx, entries) && result.syncState == state
    ensures Refreshed(before, objects, marked[ctx.targetID := ctx.target.(syncState := state)], objects', ctx, entries,
                      result)
  {
    hide Linked, Names, Count, RowFor, ConflictTotal, ObjectRows, ObjectsSynced, Copies, NewNames, SingleNames,
         ChangedByRemote, OldRow, NewRow, HasChild, UpdatedChildren, UpdatedSoFar, MissingChildren, LostObjects;
    var t := ctx.targetID;
    var after := marked[t := ctx.target.(syncState := state)];
    RowsAtTheEnd(before, mid, marked, objects', ctx, entries, state);
    UpdatedAtTheEnd(before, mid, marked, objects', ctx, entries, state);
  }

  lemma OldRowAtTheEnd(before: Nodes, mid: Nodes, marked: Nodes, objects': Objects, ctx: Context,
                       entries: seq<RemoteEntry>, state: SyncState, k: Id)
    requires Start(before, ctx)
    requires Partial(before, mid, objects', ctx, entries, Names(entries))
    requires Marked(mid, marked, MissingChildren(before, ctx, entries))
    requires state == if ConflictTotal(before, ctx, entries) > 0 then Conflict else Indexed
    requires k in before
    ensures k in marked && OldRow(before, marked[ctx.targetID := ctx.target.(syncState := state)], objects', ctx,
                                  entries, k)
  {
    hide Linked, Names, Count, RowFor, ConflictTotal, HasChild;
    TargetIsNoChild(before, ctx);
  }

  /** The rows of the refreshed table. */
  lemma RowsAtTheEnd(before: Nodes, mid: Nodes, marked: Nodes, objects': Objects, ctx: Context,
                     entries: seq<RemoteEntry>, state: SyncState)
    requires Start(before, ctx)
    requires Partial(before, mid, objects', ctx, entries, Names(entries))
    requires Marked(mid, marked, MissingChildren(before, ctx, entries))
    requires state == if ConflictTotal(before, ctx, entries) > 0 then Conflict else Indexed
    ensures
      var after := marked[ctx.targetID := ctx.target.(syncState := state)];
      && before.Keys <= after.Keys && Linked(after)
      && (forall k | k in before :: OldRow(before, after, objects', ctx, entries, k))
      && (forall k | k in after && k !in before :: NewRow(before, after, objects', ctx, entries, k))
      && (forall n | n in Names(entries) :: HasChild(after, ctx.targetID, n))
  {
    hide Linked, Names, Count, RowFor, ConflictTotal, OldRow, NewRow, HasChild, Partial, MissingChildren;
    var t := ctx.targetID;
    var after := marked[t := ctx.target.(syncState := state)];
    KeysOfPartial(before, mid, objects', ctx, entries, Names(entries));
    TargetStands(before, mid, objects', ctx, entries, Names(entries));
    TargetIsUnmarked(before, mid, marked, objects', ctx, entries);
    StateIsAdmitted(marked, t, state);
    assert after == marked[t := marked[t].(syncState := state)];
    forall k | k in before ensures OldRow(before, after, objects', ctx, entries, k) {
      OldRowAtTheEnd(before, mid, marked, objects', ctx, entries, state, k);
    }
    forall k | k in after && k !in before ensures NewRow(before, after, objects', ctx, entries, k) {
      NewRowAtTheEnd(before, mid, marked, objects', ctx, entries, state, k);
    }
    forall n | n in Names(entries) ensures HasChild(after, t, n) {
      ChildAtTheEnd(before, mid, marked, objects', ctx, entries, state, n);
    }
  }

  lemma TargetIsUnmarked(before: Nodes, mid: Nodes, marked: Nodes, objects': Objects, ctx: Context,
                         entries: seq<RemoteEntry>)
    requires Start(before, ctx) && Partial(before, mid, objects', ctx, entries, Names(entries))
    requires Marked(mid, marked, MissingChildren(before, ctx, entries))
    ensures ctx.targetID in marked && marked[ctx.targetID] == ctx.target && Linked(marked)
  {
    hide Linked, Names, RowFor;
    TargetStands(before, mid, objects', ctx, entries, Names(entries));
    TargetIsNoChild(before, ctx);
  }

  lemma NewRowAtTheEnd(before: Nodes, mid: Nodes, marked: Nodes, objects': Objects, ctx: Context,
                       entries: seq<RemoteEntry>, state: SyncState, k: Id)
    requires Start(before, ctx) && Partial(before, mid, objects', ctx, entries, Names(entries))
    requires Marked(mid, marked, MissingChildren(before, ctx, entries)) && k in marked && k !in before
    ensures k != ctx.targetID && NewRow(before, marked[ctx.targetID := ctx.target.(syncState := state)], objects', ctx,
                                        entries, k)
  {
    hide Linked, Names, Count, RowFor, HasChild;
    assert marked[k] == mid[k];
  }

  lemma ChildAtTheEnd(before: Nodes, mid: Nodes, marked: Nodes, objects': Objects, ctx: Context,
                      entries: seq<RemoteEntry>, state: SyncState, n: string)
    requires Start(before, ctx) && Partial(before, mid, objects', ctx, entries, Names(entries))
    requires Marked(mid, marked, MissingChildren(before, ctx, entries)) && n in Names(entries)
    ensures HasChild(marked[ctx.targetID := ctx.target.(syncState := state)], ctx.targetID, n)
  {
    hide Linked, Names, Count, RowFor;
    var t, after := ctx.targetID, marked[ctx.targetID := ctx.target.(syncState := state)];
    TargetStands(before, mid, objects', ctx, entries, Names(entries));
    TargetIsUnmarked(before, mid, marked, objects', ctx, entries);
    var c := ChildOf(mid, t, n);
    assert IsChild(after, t, c) && after[c].name == n;
  }

  lemma UpdatedAtTheEnd(before: Nodes, mid: Nodes, marked: Nodes, objects': Objects, ctx: Context,
                        entries: seq<RemoteEntry>, state: SyncState)
    requires Start(before, ctx)
    requires Partial(before, mid, objects', ctx, entries, Names(entries))
    requires Marked(mid, marked, MissingChildren(before, ctx, entries))
    ensures before.Keys <= mid.Keys && before.Keys <= marked.Keys
    ensures UpdatedChildren(before, marked[ctx.targetID := ctx.target.(syncState := state)], ctx, entries)
            == UpdatedSoFar(before, mid, ctx, entries, Names(entries))
  {
    hide Linked, Names, RowFor, Copies, ChangedByRemote;
    TargetIsNoChild(before, ctx);
    var t := ctx.targetID;
    var after := marked[t := ctx.target.(syncState := state)];
    forall k | k in before && IsChild(before, t, k) && Copies(before, ctx, entries, before[k].name)
      ensures before[k].name in Names(entries) && after[k] == mid[k]
    {
      CopiesAreListed(before, ctx, entries, before[k].name);
    }
  }

  lemma CopiesAreListed(before: Nodes, ctx: Context, entries: seq<RemoteEntry>, name: string)
    requires Copies(before, ctx, entries, name)
    ensures name in Names(entries)
  {
  }

  lemma TargetIsNoChild(before: Nodes, ctx: Context)
    requires Start(before, ctx)
    ensures !IsChild(before, ctx.targetID, ctx.targetID)
  {
    if IsChild(before, ctx.targetID, ctx.targetID) { ChildIsUnique(before, ctx.targetID, ctx.targetID); }
  }
}
