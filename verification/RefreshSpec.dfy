/** What a refresh does to the children of its target, as a relation on the tables. */
module RefreshSpec {
  import opened Common
  import opened Store
  import opened Tree
  import opened Listing

  datatype RefreshResult = RefreshResult(seen: nat, indexed: nat, updated: nat, missing: nat, conflicts: nat,
                                         syncState: SyncState)

  // ---- Children -------------------------------------------------------------------------------

  predicate IsChild(nodes: Nodes, t: Id, k: Id) {
    Live(nodes, k) && nodes[k].parentID == Some(t)
  }

  ghost predicate HasChild(nodes: Nodes, t: Id, name: string) {
    exists k :: IsChild(nodes, t, k) && nodes[k].name == name
  }

  ghost function ChildOf(nodes: Nodes, t: Id, name: string): Id
    requires HasChild(nodes, t, name)
    ensures IsChild(nodes, t, ChildOf(nodes, t, name)) && nodes[ChildOf(nodes, t, name)].name == name
  {
    var k :| IsChild(nodes, t, k) && nodes[k].name == name; k
  }

  /** In a linked tree a child is found under its name, and at its path. */
  lemma ChildIsUnique(nodes: Nodes, t: Id, k: Id)
    requires Linked(nodes) && IsChild(nodes, t, k)
    ensures HasChild(nodes, t, nodes[k].name) && ChildOf(nodes, t, nodes[k].name) == k
    ensures Live(nodes, t) && nodes[k].path == ChildPath(nodes[t].path, nodes[k].name) && k != t
  {
    assert NodeOk(nodes, k);
    assert IsChild(nodes, t, k) && nodes[k].name == nodes[k].name;
    var j := ChildOf(nodes, t, nodes[k].name);
    assert NodeOk(nodes, j) && NodeOk(nodes, t);
    ChildPathShape(nodes[t].path, nodes[k].name);
  }

  /** The existing child a singly listed name refers to, if any. */
  ghost function Existing(nodes: Nodes, ctx: Context, name: string): Option<Node> {
    if HasChild(nodes, ctx.targetID, name) then Some(nodes[ChildOf(nodes, ctx.targetID, name)]) else None
  }

  // ---- What becomes of a listed name ----------------------------------------------------------

  datatype Fate = Kept | Clashed | FirstOfMany | Copied

  /** What a listing does with one of its names, given the existing child. */
  function FateOf(entries: seq<RemoteEntry>, name: string, existing: Option<Node>): Fate
    requires Count(entries, name) > 0
  {
    if Count(entries, name) > 1 then FirstOfMany
    else if existing.Some? && IsControl(existing.value) then Kept
    else if existing.Some? && IdentityConflicts(existing.value, First(entries, name)) then Clashed
    else Copied
  }

  /** The row a listed name ends up with. */
  predicate RowFor(ctx: Context, entries: seq<RemoteEntry>, name: string, existing: Option<Node>, row: Node,
                   objects: Objects)
    requires Count(entries, name) > 0
  {
    var e := First(entries, name);
    match FateOf(entries, name, existing)
    case FirstOfMany => row == ConflictNode(ctx, e)
    case Kept => row == existing.value
    case Clashed => row == existing.value.(syncState := Conflict)
    case Copied => row == IndexedNode(ctx, e, row.objectID) && EntryObject(objects, ctx, e, row.objectID)
  }

  /** The object a copied entry points at: none for a directory, else the one with the entry's key. */
  predicate EntryObject(objects: Objects, ctx: Context, e: RemoteEntry, objectID: Option<Id>) {
    if e.isDir then objectID == None
    else objectID.Some? && objectID.value in objects
         && KeyOf(objects[objectID.value]) == KeyOf(ObjectRow(ctx, e))
  }

  ghost predicate Copies(nodes: Nodes, ctx: Context, entries: seq<RemoteEntry>, name: string) {
    name in SingleNames(entries) && Count(entries, name) > 0
    && FateOf(entries, name, Existing(nodes, ctx, name)) == Copied
  }

  ghost predicate Clashes(nodes: Nodes, ctx: Context, entries: seq<RemoteEntry>, name: string) {
    name in SingleNames(entries) && Count(entries, name) > 0
    && FateOf(entries, name, Existing(nodes, ctx, name)) == Clashed
  }

  ghost function NewNames(nodes: Nodes, ctx: Context, entries: seq<RemoteEntry>): set<string> {
    set n | n in SingleNames(entries) && !HasChild(nodes, ctx.targetID, n)
  }

  ghost function ClashingNames(nodes: Nodes, ctx: Context, entries: seq<RemoteEntry>): set<string> {
    set n | n in SingleNames(entries) && Clashes(nodes, ctx, entries, n)
  }

  /** Children the listing no longer mentions; control nodes do not count. */
  ghost function MissingChildren(nodes: Nodes, ctx: Context, entries: seq<RemoteEntry>): set<Id> {
    set k | k in nodes && IsChild(nodes, ctx.targetID, k)
            && nodes[k].name !in Names(entries) && !IsControl(nodes[k])
  }

  /** Existing children whose row the copy changes in a column the service compares. */
  ghost function UpdatedChildren(nodes: Nodes, nodes': Nodes, ctx: Context, entries: seq<RemoteEntry>): set<Id>
    requires nodes.Keys <= nodes'.Keys
  {
    set k | k in nodes && IsChild(nodes, ctx.targetID, k) && Copies(nodes, ctx, entries, nodes[k].name)
            && ChangedByRemote(nodes[k], nodes'[k])
  }

  // ---- Objects --------------------------------------------------------------------------------

  /** The object rows the refresh upserts, in listing order. */
  ghost function ObjectRows(nodes: Nodes, ctx: Context, all: seq<RemoteEntry>, n: nat): seq<StorageObject>
    requires n <= |all|
  {
    if n == 0 then []
    else
      var e := all[n - 1];
      ObjectRows(nodes, ctx, all, n - 1)
      + (if Copies(nodes, ctx, all, EntryName(e)) && !e.isDir then [ObjectRow(ctx, e)] else [])
  }

  predicate HasKey(rows: seq<StorageObject>, key: ObjectKey) {
    exists i | 0 <= i < |rows| :: KeyOf(rows[i]) == key
  }

  /** The last row with the key. */
  function LastRow(rows: seq<StorageObject>, key: ObjectKey): StorageObject
    requires HasKey(rows, key)
  {
    if KeyOf(rows[|rows| - 1]) == key then rows[|rows| - 1] else LastRow(rows[..|rows| - 1], key)
  }

  function MarkMissing(obj: StorageObject, missing: bool): StorageObject {
    if missing then obj.(status := ObjectMissing) else obj
  }

  /** Objects with an upserted key hold the last row upserted, others are unchanged; then the objects in
      `lost` are marked missing. */
  ghost predicate ObjectsSynced(objects: Objects, objects': Objects, rows: seq<StorageObject>, lost: set<Id>) {
    && objects.Keys <= objects'.Keys && UniqueKeys(objects')
    && (forall o | o in objects :: KeyOf(objects'[o]) == KeyOf(objects[o]))
    && (forall i | 0 <= i < |rows| :: exists o :: o in objects' && KeyOf(objects'[o]) == KeyOf(rows[i]))
    && (forall o | o in objects' ::
          if HasKey(rows, KeyOf(objects'[o]))
          then objects'[o] == MarkMissing(LastRow(rows, KeyOf(objects'[o])), o in lost)
          else o in objects && objects'[o] == MarkMissing(objects[o], o in lost))
  }

  ghost function LostObjects(nodes: Nodes, missing: set<Id>): set<Id> {
    set k | k in missing && k in nodes && nodes[k].objectID.Some? :: nodes[k].objectID.value
  }

  // ---- The whole refresh ----------------------------------------------------------------------

  ghost function ConflictTotal(nodes: Nodes, ctx: Context, entries: seq<RemoteEntry>): nat {
    InvalidCount(entries) + |DuplicateNames(entries)| + |ClashingNames(nodes, ctx, entries)|
  }

  /** Row `k` of the old table after the refresh. */
  ghost predicate OldRow(nodes: Nodes, nodes': Nodes, objects': Objects, ctx: Context, entries: seq<RemoteEntry>, k: Id)
    requires k in nodes && k in nodes'
  {
    if k == ctx.targetID then
      nodes'[k] == nodes[k].(syncState := if ConflictTotal(nodes, ctx, entries) > 0 then Conflict else Indexed)
    else if !IsChild(nodes, ctx.targetID, k) then nodes'[k] == nodes[k]
    else if nodes[k].name in Names(entries) then
      Count(entries, nodes[k].name) > 0
      && RowFor(ctx, entries, nodes[k].name, Some(nodes[k]), nodes'[k], objects')
    else nodes'[k] == if IsControl(nodes[k]) then nodes[k] else nodes[k].(syncState := Missing)
  }

  /** Row `k` is new: a listed name that had no child. */
  ghost predicate NewRow(nodes: Nodes, nodes': Nodes, objects': Objects, ctx: Context, entries: seq<RemoteEntry>, k: Id)
    requires k in nodes'
  {
    && nodes'[k].name in Names(entries) && Count(entries, nodes'[k].name) > 0
    && !HasChild(nodes, ctx.targetID, nodes'[k].name)
    && RowFor(ctx, entries, nodes'[k].name, None, nodes'[k], objects')
  }

  ghost predicate Refreshed(nodes: Nodes, objects: Objects, nodes': Nodes, objects': Objects,
                            ctx: Context, entries: seq<RemoteEntry>, result: RefreshResult) {
    && nodes.Keys <= nodes'.Keys && Linked(nodes') && ctx.targetID in nodes'
    && (forall k | k in nodes :: OldRow(nodes, nodes', objects', ctx, entries, k))
    && (forall k | k in nodes' && k !in nodes :: NewRow(nodes, nodes', objects', ctx, entries, k))
    && (forall n | n in Names(entries) :: HasChild(nodes', ctx.targetID, n))
    && ObjectsSynced(objects, objects', ObjectRows(nodes, ctx, entries, |entries|),
                     LostObjects(nodes, MissingChildren(nodes, ctx, entries)))
    && result.seen == |SingleNames(entries)|
    && result.indexed == |NewNames(nodes, ctx, entries)|
    && result.updated == |UpdatedChildren(nodes, nodes', ctx, entries)|
    && result.missing == |MissingChildren(nodes, ctx, entries)|
    && result.conflicts == ConflictTotal(nodes, ctx, entries)
    && result.syncState == nodes'[ctx.targetID].syncState
  }
}
