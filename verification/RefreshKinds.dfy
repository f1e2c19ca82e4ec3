/** A refresh child by child, in terms of kinds and of the entries that name the child. */
module RefreshKinds {
  import opened Common
  import opened Text
  import opened Paths
  import opened Store
  import opened Tree
  import opened Listing
  import opened RefreshSpec
  import opened RefreshTheory

  // ---- How often a name is listed -------------------------------------------------------------

  predicate NamedAt(entries: seq<RemoteEntry>, name: string, i: int) {
    0 <= i < |entries| && EntryName(entries[i]) == name
  }

  /** No entry has the name, or the service takes no such name from a listing. */
  ghost predicate Unlisted(entries: seq<RemoteEntry>, name: string) {
    ValidName(name) ==> forall i :: !NamedAt(entries, name, i)
  }

  /** The entry at `i` alone has the name. */
  ghost predicate ListedOnce(entries: seq<RemoteEntry>, name: string, i: int) {
    ValidName(name) && NamedAt(entries, name, i) && forall j :: NamedAt(entries, name, j) ==> j == i
  }

  /** The entry at `i` is the first with the name, the one at `j` another. */
  ghost predicate ListedAgain(entries: seq<RemoteEntry>, name: string, i: int, j: int) {
    && ValidName(name) && NamedAt(entries, name, i) && NamedAt(entries, name, j)
    && i < j && forall h :: NamedAt(entries, name, h) ==> i <= h
  }

  lemma {:induction false} FirstNamed(entries: seq<RemoteEntry>, name: string, i: int)
    requires NamedAt(entries, name, i) && forall h :: NamedAt(entries, name, h) ==> i <= h
    ensures Count(entries, name) > 0 && First(entries, name) == entries[i]
  {
    var front := entries[..|entries| - 1];
    CountIsListed(front, name);
    if i < |front| {
      forall h | NamedAt(front, name, h) ensures i <= h {
        assert NamedAt(entries, name, h);
      }
      assert NamedAt(front, name, i);
      FirstNamed(front, name, i);
    } else {
      forall h | 0 <= h < |front| ensures EntryName(front[h]) != name {
        assert !NamedAt(entries, name, h);
      }
    }
  }

  lemma NamedIff(entries: seq<RemoteEntry>, name: string)
    ensures Count(entries, name) > 0 <==> exists i :: NamedAt(entries, name, i)
  {
    CountIsListed(entries, name);
    hide Count, EntryName;
    if i :| 0 <= i < |entries| && EntryName(entries[i]) == name { assert NamedAt(entries, name, i); }
  }

  ghost predicate NamedAgain(entries: seq<RemoteEntry>, name: string, i: int, j: int) {
    NamedAt(entries, name, i) && NamedAt(entries, name, j) && i < j
  }

  lemma FrontNames(entries: seq<RemoteEntry>, name: string, i: int)
    requires entries != []
    ensures NamedAt(entries[..|entries| - 1], name, i) <==> NamedAt(entries, name, i) && i < |entries| - 1
  {
    hide EntryName;
  }

  lemma {:induction false} NamedTwice(entries: seq<RemoteEntry>, name: string)
    ensures Count(entries, name) > 1 <==> exists i, j :: NamedAgain(entries, name, i, j)
  {
    hide EntryName;
    if entries != [] {
      var front, last := entries[..|entries| - 1], |entries| - 1;
      NamedTwice(front, name);
      NamedIff(front, name);
      forall i { FrontNames(entries, name, i); }
      assert NamedAt(entries, name, last) <==> EntryName(entries[last]) == name;
      hide NamedAt;
      assert Count(entries, name) > 1 <==>
             Count(front, name) > 1 || (Count(front, name) > 0 && NamedAt(entries, name, last));
      hide Count;
      if i, j :| NamedAgain(front, name, i, j) { assert NamedAgain(entries, name, i, j); }
      if i :| NamedAt(front, name, i) && NamedAt(entries, name, last) { assert NamedAgain(entries, name, i, last); }
      if i, j :| NamedAgain(entries, name, i, j) { InRange(entries, name, j); assert NamedAt(front, name, i); }
      if i, j :| NamedAgain(entries, name, i, j) && j < last { assert NamedAgain(front, name, i, j); }
    }
  }

  lemma InRange(entries: seq<RemoteEntry>, name: string, i: int)
    requires NamedAt(entries, name, i)
    ensures 0 <= i < |entries|
  {
  }

  /** The three ways a name can stand in a listing, next to the counts the service keeps. */
  lemma HowListed(entries: seq<RemoteEntry>, name: string)
    ensures Unlisted(entries, name) <==> name !in Names(entries)
    ensures (exists i :: ListedOnce(entries, name, i)) <==> name in Names(entries) && Count(entries, name) == 1
    ensures (exists i, j :: ListedAgain(entries, name, i, j)) <==> name in Names(entries) && Count(entries, name) > 1
  {
    NamesAreCounted(entries, name);
    NamedIff(entries, name);
    NamedTwice(entries, name);
    hide Count, Names, EntryName, ValidName, NamedAt;
    if ValidName(name) && Count(entries, name) > 0 {
      var i :| NamedAt(entries, name, i);
      var first := Earliest(entries, name, i);
      if i, j :| NamedAgain(entries, name, i, j) {
        assert ListedAgain(entries, name, first, j);
      } else {
        forall j | NamedAt(entries, name, j) ensures j == first {
          assert !NamedAgain(entries, name, first, j);
        }
        assert ListedOnce(entries, name, first);
      }
    }
  }

  /** The first entry with the name. */
  lemma {:induction false} Earliest(entries: seq<RemoteEntry>, name: string, i: int) returns (first: int)
    requires NamedAt(entries, name, i)
    ensures NamedAt(entries, name, first) && forall h :: NamedAt(entries, name, h) ==> first <= h
    decreases i
  {
    if j :| NamedAt(entries, name, j) && j < i {
      first := Earliest(entries, name, j);
    } else {
      first := i;
    }
  }

  // ---- Rows and objects made from entries -----------------------------------------------------

  /** The row says of its child what the entry says. */
  predicate RowOf(ctx: Context, e: RemoteEntry, row: Node, state: SyncState) {
    && row.parentID == Some(ctx.targetID) && row.name == EntryName(e)
    && row.path == ChildPath(ctx.target.path, EntryName(e))
    && row.kind == (if e.isDir then Dir else File) && row.size == (if e.isDir || e.size < 0 then 0 else e.size)
    && row.mimeType == (if e.isDir then "inode/directory"
                        else if e.mimeType != "" then e.mimeType else ctx.guessMime(EntryName(e)))
    && row.etag == e.etag && row.checksum == e.checksum
    && row.mountID == ctx.target.mountID && row.sourceID == ctx.target.sourceID
    && row.providerItemID == (if e.providerItemID != "" then Some(e.providerItemID) else None)
    && row.providerParentID == (if e.providerParentID != "" then Some(e.providerParentID)
                                else ctx.target.providerItemID)
    && row.syncState == state && !row.isDeleted
  }

  /** The object is found where the entry says: by the driver's own locator if there is one, else by provider id and by
      its path in the source. */
  predicate FoundBy(ctx: Context, e: RemoteEntry, obj: StorageObject) {
    && obj.sourceID == ctx.source.id && obj.driverType == ctx.source.driverType
    && if TrimSpace(e.locatorType) != "" && e.locator.Some?
       then obj.locatorType == TrimSpace(e.locatorType) && obj.locator == e.locator.value
       else
         && (TrimSpace(e.locatorType) != "" ==> obj.locatorType == TrimSpace(e.locatorType))
         && (TrimSpace(e.locatorType) == "" && e.providerItemID != "" ==> obj.locatorType == "provider_file_id")
         && (TrimSpace(e.locatorType) == "" && e.providerItemID == "" ==>
               obj.locatorType == if ctx.source.driverType == "local" then "local_path" else "provider_path")
         && ("file_id" in obj.locator <==> e.providerItemID != "")
         && ("file_id" in obj.locator ==> obj.locator["file_id"] == e.providerItemID)
         && ("parent_id" in obj.locator <==> e.providerParentID != "")
         && ("parent_id" in obj.locator ==> obj.locator["parent_id"] == e.providerParentID)
         && "path" in obj.locator && PathInSource(ctx, e, obj.locator["path"])
         && obj.locator.Keys <= {"file_id", "parent_id", "path"}
  }

  /** The path the driver gives, if it is one; else the entry's name in the listed directory. */
  predicate PathInSource(ctx: Context, e: RemoteEntry, path: string) {
    if e.path != "" && NormalizeVirtualPath(e.path).Ok? then NormalizeVirtualPath(e.path) == Ok(path)
    else NormalizeVirtualPath(ctx.parentPath).Ok? ==>
           path == JoinVirtualPath(NormalizeVirtualPath(ctx.parentPath).value, EntryName(e))
  }

  lemma ListedRow(ctx: Context, e: RemoteEntry, objectID: Option<Id>, state: SyncState)
    ensures RowOf(ctx, e, ListedNode(ctx, e, objectID, state), state)
    ensures ListedNode(ctx, e, objectID, state).objectID == objectID
  {
    hide ChildPath, EntryName;
  }

  lemma ListedObject(ctx: Context, e: RemoteEntry, obj: StorageObject)
    requires KeyOf(obj) == KeyOf(ObjectRow(ctx, e))
    ensures FoundBy(ctx, e, obj)
  {
    ListedLocator(ctx, e);
    hide EntryLocator, EntryMime, EntrySize, TrimSpace, PathInSource;
  }

  lemma ListedLocator(ctx: Context, e: RemoteEntry)
    ensures
      var (kind, locator) := EntryLocator(ctx, e);
      forall obj: StorageObject | obj.sourceID == ctx.source.id && obj.driverType == ctx.source.driverType
                                  && obj.locatorType == kind && obj.locator == locator :: FoundBy(ctx, e, obj)
  {
    SomePath(ctx, e);
    hide EntryPath, TrimSpace, PathInSource, EntryName;
  }

  lemma SomePath(ctx: Context, e: RemoteEntry)
    ensures EntryPath(ctx.parentPath, e) != "" && PathInSource(ctx, e, EntryPath(ctx.parentPath, e))
  {
    hide EntryName;
    if NormalizeVirtualPath(e.path).Ok? { NotEmpty(NormalizeVirtualPath(e.path).value); }
    hide NormalizeVirtualPath;
  }

  lemma NotEmpty(path: string)
    requires IsCanonical(path)
    ensures path != ""
  {
  }

  /** The name of an entry: the one it carries, else the last segment of its path. */
  lemma NameOfEntry(e: RemoteEntry, parent: string, name: string)
    ensures e.name != "" ==> EntryName(e) == e.name
    ensures e.name == "" && (e.path == "" || e.path == "/") ==> EntryName(e) == ""
    ensures e.name == "" && IsCanonical(parent) && CleanSegment(name) && e.path == JoinVirtualPath(parent, name) ==>
              EntryName(e) == name
  {
    if e.name == "" && IsCanonical(parent) && CleanSegment(name) && e.path == JoinVirtualPath(parent, name) {
      LastOfPath(parent, name);
    }
  }

  lemma LastOfPath(parent: string, name: string)
    requires IsCanonical(parent) && CleanSegment(name)
    ensures PathBase(JoinVirtualPath(parent, name)) == name
    ensures JoinVirtualPath(parent, name) != "" && JoinVirtualPath(parent, name) != "/"
  {
    DirOfJoin(parent, name);
    var path := JoinVirtualPath(parent, name);
    assert TrimPrefix(name, "/") == name;
    assert path[|path| - 1] == name[|name| - 1];
    assert TrimRightSlash(path) == path;
    hide IsCanonical, DirOf, LastSlash;
  }

  // ---- Old children ---------------------------------------------------------------------------

  /** The entry names the child but means another item of the provider. */
  predicate AnotherItem(node: Node, e: RemoteEntry) {
    node.providerItemID.Some? && e.providerItemID != "" && node.providerItemID.value != e.providerItemID
  }

  /** What a refresh does to a child: nothing to mounts and virtual directories listed at most once; files and
      directories become missing if they are not listed, a copy of the entry if they are listed once as the same item,
      in conflict if as another; and what is listed again becomes a conflict row of its first entry. */
  ghost predicate Becomes(ctx: Context, entries: seq<RemoteEntry>, n: Node, row: Node, objects': Objects) {
    var name := n.name;
    && (Unlisted(entries, name) && (n.kind == Mount || n.kind == VirtualDir) ==> row == n)
    && (Unlisted(entries, name) && n.kind != Mount && n.kind != VirtualDir ==> row == n.(syncState := Missing))
    && (forall i | ListedOnce(entries, name, i) && (n.kind == Mount || n.kind == VirtualDir) :: row == n)
    && (forall i | ListedOnce(entries, name, i) && n.kind != Mount && n.kind != VirtualDir ::
          if AnotherItem(n, entries[i]) then row == n.(syncState := Conflict)
          else RowOf(ctx, entries[i], row, Indexed) && HasItsObject(ctx, entries[i], row, objects'))
    && (forall i, j | ListedAgain(entries, name, i, j) ::
          RowOf(ctx, entries[i], row, Conflict) && row.objectID == None)
  }

  /** A directory has no object, a file the one found by its entry. */
  predicate HasItsObject(ctx: Context, e: RemoteEntry, row: Node, objects: Objects) {
    if e.isDir then row.objectID == None
    else row.objectID.Some? && row.objectID.value in objects && FoundBy(ctx, e, objects[row.objectID.value])
  }

  lemma EntryForm(entries: seq<RemoteEntry>, name: string, i: int)
    ensures ListedOnce(entries, name, i) ==> 0 <= i < |entries| && name in Names(entries) && Count(entries, name) == 1
                                             && First(entries, name) == entries[i]
    ensures forall j :: ListedAgain(entries, name, i, j) ==>
                          0 <= i < |entries| && name in Names(entries) && Count(entries, name) > 1
                          && First(entries, name) == entries[i]
  {
    HowListed(entries, name);
    hide Count, EntryName, First, Names;
    if ListedOnce(entries, name, i) { FirstNamed(entries, name, i); }
    if j :| ListedAgain(entries, name, i, j) { FirstNamed(entries, name, i); }
  }

  lemma ByFate(ctx: Context, entries: seq<RemoteEntry>, name: string, n: Node, row: Node, objects: Objects)
    requires Count(entries, name) > 0 && RowFor(ctx, entries, name, Some(n), row, objects)
    ensures
      var e := First(entries, name);
      if Count(entries, name) > 1 then RowOf(ctx, e, row, Conflict) && row.objectID == None
      else if n.kind == Mount || n.kind == VirtualDir then row == n
      else if AnotherItem(n, e) then row == n.(syncState := Conflict)
      else RowOf(ctx, e, row, Indexed) && HasItsObject(ctx, e, row, objects)
  {
    var e := First(entries, name);
    ListedRow(ctx, e, None, Conflict);
    ListedRow(ctx, e, row.objectID, Indexed);
    hide Count, First, RowOf, ListedNode, ObjectRow, FoundBy;
    if FateOf(entries, name, Some(n)) == Copied && !e.isDir { ListedObject(ctx, e, objects[row.objectID.value]); }
  }

  lemma ChildBecomes(nodes: Nodes, objects: Objects, nodes': Nodes, objects': Objects, ctx: Context,
                     entries: seq<RemoteEntry>, r: RefreshResult, k: Id)
    requires Linked(nodes) && Live(nodes, ctx.targetID) && ctx.target == nodes[ctx.targetID]
    requires Refreshed(nodes, objects, nodes', objects', ctx, entries, r) && IsChild(nodes, ctx.targetID, k)
    ensures k in nodes' && Becomes(ctx, entries, nodes[k], nodes'[k], objects')
  {
    assert OldRow(nodes, nodes', objects', ctx, entries, k);
    ChildIsUnique(nodes, ctx.targetID, k);
    hide Linked, ObjectsSynced, ObjectRows, ConflictTotal, Names, Count, First, RowFor, NewRow, Refreshed, Becomes;
    if nodes[k].name in Names(entries) {
      ListedBecomes(ctx, entries, nodes[k], nodes'[k], objects');
    } else {
      UnlistedBecomes(ctx, entries, nodes[k], nodes'[k], objects');
    }
  }

  lemma ChildrenBecome(nodes: Nodes, objects: Objects, nodes': Nodes, objects': Objects, ctx: Context,
                       entries: seq<RemoteEntry>, r: RefreshResult)
    requires Linked(nodes) && Live(nodes, ctx.targetID) && ctx.target == nodes[ctx.targetID]
    requires Refreshed(nodes, objects, nodes', objects', ctx, entries, r)
    ensures forall k | IsChild(nodes, ctx.targetID, k) ::
              k in nodes' && Becomes(ctx, entries, nodes[k], nodes'[k], objects')
  {
    hide Linked, Refreshed, Becomes;
    forall k | IsChild(nodes, ctx.targetID, k)
      ensures k in nodes' && Becomes(ctx, entries, nodes[k], nodes'[k], objects')
    {
      ChildBecomes(nodes, objects, nodes', objects', ctx, entries, r, k);
    }
  }

  lemma ListedBecomes(ctx: Context, entries: seq<RemoteEntry>, n: Node, row: Node, objects': Objects)
    requires n.name in Names(entries) && Count(entries, n.name) > 0
    requires RowFor(ctx, entries, n.name, Some(n), row, objects')
    ensures Becomes(ctx, entries, n, row, objects')
  {
    var name := n.name;
    hide Names, Count, First, RowFor, RowOf, HasItsObject, AnotherItem, ListedOnce, ListedAgain, Unlisted;
    HowListed(entries, name);
    ByFate(ctx, entries, name, n, row, objects');
    forall i ensures ListedOnce(entries, name, i) ==> 0 <= i < |entries| && entries[i] == First(entries, name) {
      EntryForm(entries, name, i);
    }
    forall i, j ensures ListedAgain(entries, name, i, j) ==> 0 <= i < |entries| && entries[i] == First(entries, name) {
      EntryForm(entries, name, i);
    }
  }

  lemma UnlistedBecomes(ctx: Context, entries: seq<RemoteEntry>, n: Node, row: Node, objects': Objects)
    requires n.name !in Names(entries) && row == if IsControl(n) then n else n.(syncState := Missing)
    ensures Becomes(ctx, entries, n, row, objects')
  {
    hide Names, Count, RowOf, HasItsObject, AnotherItem, ListedOnce, ListedAgain, Unlisted;
    HowListed(entries, n.name);
  }

  // ---- New children, and the report -----------------------------------------------------------

  /** A listed name without a child gets one: a copy if it is listed once, else a conflict row of the first entry. */
  lemma NewChildBecomes(nodes: Nodes, objects: Objects, nodes': Nodes, objects': Objects, ctx: Context,
                        entries: seq<RemoteEntry>, r: RefreshResult, name: string, i: int)
    requires Linked(nodes) && Live(nodes, ctx.targetID) && ctx.target == nodes[ctx.targetID]
    requires Refreshed(nodes, objects, nodes', objects', ctx, entries, r)
    requires forall k | IsChild(nodes, ctx.targetID, k) :: nodes[k].name != name
    requires ListedOnce(entries, name, i) || exists j :: ListedAgain(entries, name, i, j)
    ensures 0 <= i < |entries|
    ensures exists k ::
              && k !in nodes && IsChild(nodes', ctx.targetID, k)
              && if ListedOnce(entries, name, i)
                 then RowOf(ctx, entries[i], nodes'[k], Indexed) && HasItsObject(ctx, entries[i], nodes'[k], objects')
                 else RowOf(ctx, entries[i], nodes'[k], Conflict) && nodes'[k].objectID == None
  {
    EntryForm(entries, name, i);
    assert ctx.targetID in nodes';
    hide Linked, ObjectsSynced, ObjectRows, ConflictTotal, Names, Count, First, RowFor, OldRow, NewRow, Refreshed,
         RowOf, HasItsObject, ListedOnce, ListedAgain;
    ListedChild(nodes, objects, nodes', objects', ctx, entries, r, name);
    var k := ChildOf(nodes', ctx.targetID, name);
    NewByFate(ctx, entries, name, nodes'[k], objects');
    ChildAfter(nodes, objects, nodes', objects', ctx, ctx.(target := nodes'[ctx.targetID]), entries, r, k);
  }

  lemma NewByFate(ctx: Context, entries: seq<RemoteEntry>, name: string, row: Node, objects: Objects)
    requires Count(entries, name) > 0 && RowFor(ctx, entries, name, None, row, objects)
    ensures
      var e := First(entries, name);
      if Count(entries, name) > 1 then RowOf(ctx, e, row, Conflict) && row.objectID == None
      else RowOf(ctx, e, row, Indexed) && HasItsObject(ctx, e, row, objects)
  {
    var e := First(entries, name);
    ListedRow(ctx, e, None, Conflict);
    ListedRow(ctx, e, row.objectID, Indexed);
    hide Count, First, RowOf, ListedNode, ObjectRow, FoundBy;
    if FateOf(entries, name, None) == Copied && !e.isDir { ListedObject(ctx, e, objects[row.objectID.value]); }
  }

  lemma {:induction false} NoneInvalid(entries: seq<RemoteEntry>)
    ensures InvalidCount(entries) == 0 <==> forall i | 0 <= i < |entries| :: ValidName(EntryName(entries[i]))
  {
    hide EntryName, ValidName;
    if entries != [] {
      var front, last := entries[..|entries| - 1], |entries| - 1;
      NoneInvalid(front);
      assert forall i | 0 <= i < last :: front[i] == entries[i];
      assert ValidName(EntryName(entries[last])) ==> InvalidCount(entries) == InvalidCount(front);
    }
  }

  lemma NoneRepeated(entries: seq<RemoteEntry>)
    requires forall i | 0 <= i < |entries| :: ValidName(EntryName(entries[i]))
    ensures DuplicateNames(entries) == {} <==>
              forall i, j | 0 <= i < j < |entries| :: EntryName(entries[i]) != EntryName(entries[j])
  {
    hide ValidName, EntryName, Count;
    forall name ensures Count(entries, name) > 1 <==> exists i, j :: NamedAgain(entries, name, i, j) {
      NamedTwice(entries, name);
    }
    if i, j :| 0 <= i < j < |entries| && EntryName(entries[i]) == EntryName(entries[j]) {
      assert NamedAgain(entries, EntryName(entries[i]), i, j) && EntryName(entries[i]) in Names(entries);
      assert EntryName(entries[i]) in DuplicateNames(entries);
    }
    if name :| name in DuplicateNames(entries) {
      var i, j :| NamedAgain(entries, name, i, j);
    }
  }

  /** The child is listed once, as another item. */
  ghost predicate Replaced(nodes: Nodes, ctx: Context, entries: seq<RemoteEntry>, k: Id, i: int) {
    && IsChild(nodes, ctx.targetID, k) && ListedOnce(entries, nodes[k].name, i)
    && nodes[k].kind != Mount && nodes[k].kind != VirtualDir && AnotherItem(nodes[k], entries[i])
  }

  lemma NoneReplaced(nodes: Nodes, ctx: Context, entries: seq<RemoteEntry>)
    requires Linked(nodes)
    ensures ClashingNames(nodes, ctx, entries) == {} <==> forall k: Id, i :: !Replaced(nodes, ctx, entries, k, i)
  {
    hide Linked, Names, Count, First, ListedOnce, ListedAgain, ValidName;
    forall k: Id, i | Replaced(nodes, ctx, entries, k, i) ensures nodes[k].name in ClashingNames(nodes, ctx, entries) {
      ChildIsUnique(nodes, ctx.targetID, k);
      EntryForm(entries, nodes[k].name, i);
    }
    if name :| name in ClashingNames(nodes, ctx, entries) {
      HowListed(entries, name);
      var i :| ListedOnce(entries, name, i);
      EntryForm(entries, name, i);
      assert Replaced(nodes, ctx, entries, ChildOf(nodes, ctx.targetID, name), i);
    }
  }

  /** A refresh reports no conflict, and leaves the target indexed, exactly if all names are valid, no name is listed
      twice, and no child is listed as another item. */
  lemma ConflictFreeIff(nodes: Nodes, objects: Objects, nodes': Nodes, objects': Objects, ctx: Context,
                        entries: seq<RemoteEntry>, r: RefreshResult)
    requires Linked(nodes) && Live(nodes, ctx.targetID) && ctx.target == nodes[ctx.targetID]
    requires Refreshed(nodes, objects, nodes', objects', ctx, entries, r)
    ensures r.conflicts == 0 <==>
              && (forall i | 0 <= i < |entries| :: ValidName(EntryName(entries[i])))
              && (forall i, j | 0 <= i < j < |entries| :: EntryName(entries[i]) != EntryName(entries[j]))
              && (forall k: Id, i :: !Replaced(nodes, ctx, entries, k, i))
    ensures ctx.targetID in nodes' && r.syncState == nodes'[ctx.targetID].syncState
    ensures nodes'[ctx.targetID] == ctx.target.(syncState := if r.conflicts == 0 then Indexed else Conflict)
  {
    assert OldRow(nodes, nodes', objects', ctx, entries, ctx.targetID);
    assert r.conflicts == InvalidCount(entries) + |DuplicateNames(entries)| + |ClashingNames(nodes, ctx, entries)|;
    hide Linked, ObjectsSynced, ObjectRows, Names, Count, First, RowFor, NewRow, DuplicateNames, ClashingNames,
         InvalidCount, EntryName, ValidName, Replaced;
    NoneInvalid(entries);
    NoneReplaced(nodes, ctx, entries);
    if InvalidCount(entries) == 0 { NoneRepeated(entries); }
  }

  /** The numbers of the report: names listed once, those of them without a child, children gone missing, and children
      whose copied row differs from the old one in more than the mount. */
  lemma ReportCounts(nodes: Nodes, objects: Objects, nodes': Nodes, objects': Objects, ctx: Context,
                     entries: seq<RemoteEntry>, r: RefreshResult)
    returns (once: set<string>)
    requires Linked(nodes) && Live(nodes, ctx.targetID) && ctx.target == nodes[ctx.targetID]
    requires Refreshed(nodes, objects, nodes', objects', ctx, entries, r)
    ensures r.missing == |set k | k in nodes && GoesMissing(nodes, ctx, entries, k)|
    ensures nodes.Keys <= nodes'.Keys
    ensures r.updated == |set k | k in nodes && IsChild(nodes, ctx.targetID, k) && CopiedOver(nodes, entries, k)
                                  && nodes'[k] != nodes[k].(mountID := nodes'[k].mountID)|
    ensures forall name :: name in once <==> exists i :: ListedOnce(entries, name, i)
    ensures r.seen == |once| && r.indexed == |set name | name in once && !HasChild(nodes, ctx.targetID, name)|
  {
    hide *;
    Reported(nodes, objects, nodes', objects', ctx, entries, r);
    MissingCount(nodes, ctx, entries);
    UpdatedCount(nodes, objects, nodes', objects', ctx, entries, r);
    OnceNames(entries);
    NewAmongOnce(nodes, ctx, entries);
    once := SingleNames(entries);
  }

  lemma Reported(nodes: Nodes, objects: Objects, nodes': Nodes, objects': Objects, ctx: Context,
                 entries: seq<RemoteEntry>, r: RefreshResult)
    requires Refreshed(nodes, objects, nodes', objects', ctx, entries, r)
    ensures nodes.Keys <= nodes'.Keys
    ensures r.seen == |SingleNames(entries)| && r.indexed == |NewNames(nodes, ctx, entries)|
    ensures r.updated == |UpdatedChildren(nodes, nodes', ctx, entries)|
    ensures r.missing == |MissingChildren(nodes, ctx, entries)|
  {
    hide Linked, ObjectsSynced, OldRow, NewRow, SingleNames, NewNames, UpdatedChildren, MissingChildren;
  }

  lemma NewAmongOnce(nodes: Nodes, ctx: Context, entries: seq<RemoteEntry>)
    ensures NewNames(nodes, ctx, entries)
            == set name | name in SingleNames(entries) && !HasChild(nodes, ctx.targetID, name)
  {
    hide HasChild, SingleNames;
  }

  /** The child is listed once, as the same item, and is no mount or virtual directory. */
  ghost predicate CopiedOver(nodes: Nodes, entries: seq<RemoteEntry>, k: Id)
    requires k in nodes
  {
    && nodes[k].kind != Mount && nodes[k].kind != VirtualDir
    && exists i :: ListedOnce(entries, nodes[k].name, i) && !AnotherItem(nodes[k], entries[i])
  }

  /** A child that is not listed and is no mount or virtual directory. */
  ghost predicate GoesMissing(nodes: Nodes, ctx: Context, entries: seq<RemoteEntry>, k: Id)
    requires k in nodes
  {
    && IsChild(nodes, ctx.targetID, k) && Unlisted(entries, nodes[k].name)
    && nodes[k].kind != Mount && nodes[k].kind != VirtualDir
  }

  lemma MissingCount(nodes: Nodes, ctx: Context, entries: seq<RemoteEntry>)
    ensures MissingChildren(nodes, ctx, entries) == set k | k in nodes && GoesMissing(nodes, ctx, entries, k)
  {
    hide Names, Unlisted;
    forall name ensures name in Names(entries) <==> !Unlisted(entries, name) { HowListed(entries, name); }
  }

  lemma OnceNames(entries: seq<RemoteEntry>)
    ensures forall name :: name in SingleNames(entries) <==> exists i :: ListedOnce(entries, name, i)
  {
    hide Names, Count, ListedOnce;
    forall name { HowListed(entries, name); }
  }

  lemma UpdatedCount(nodes: Nodes, objects: Objects, nodes': Nodes, objects': Objects, ctx: Context,
                     entries: seq<RemoteEntry>, r: RefreshResult)
    requires Linked(nodes) && Live(nodes, ctx.targetID) && ctx.target == nodes[ctx.targetID]
    requires Refreshed(nodes, objects, nodes', objects', ctx, entries, r)
    ensures nodes.Keys <= nodes'.Keys
    ensures UpdatedChildren(nodes, nodes', ctx, entries) ==
            set k | k in nodes && IsChild(nodes, ctx.targetID, k) && CopiedOver(nodes, entries, k)
                    && nodes'[k] != nodes[k].(mountID := nodes'[k].mountID)
  {
    hide Linked, ObjectsSynced, ObjectRows, Names, Count, First, RowFor, NewRow, OldRow, DuplicateNames, ClashingNames,
         InvalidCount, ConflictTotal, Copies, CopiedOver, ChangedByRemote;
    forall k | k in nodes && IsChild(nodes, ctx.targetID, k)
      ensures Copies(nodes, ctx, entries, nodes[k].name) <==> CopiedOver(nodes, entries, k)
      ensures Copies(nodes, ctx, entries, nodes[k].name) ==>
                (ChangedByRemote(nodes[k], nodes'[k]) <==> nodes'[k] != nodes[k].(mountID := nodes'[k].mountID))
    {
      ChildIsUnique(nodes, ctx.targetID, k);
      CopiesIff(nodes, ctx, entries, k);
      if Copies(nodes, ctx, entries, nodes[k].name) {
        ChildBecomes(nodes, objects, nodes', objects', ctx, entries, r, k);
        CopyKeepsPlace(nodes, nodes', objects', ctx, entries, k);
      }
    }
  }

  lemma CopiesIff(nodes: Nodes, ctx: Context, entries: seq<RemoteEntry>, k: Id)
    requires IsChild(nodes, ctx.targetID, k) && HasChild(nodes, ctx.targetID, nodes[k].name)
    requires ChildOf(nodes, ctx.targetID, nodes[k].name) == k
    ensures Copies(nodes, ctx, entries, nodes[k].name) <==> CopiedOver(nodes, entries, k)
  {
    var name := nodes[k].name;
    HowListed(entries, name);
    hide Names, Count, First, ListedOnce, HasChild;
    forall i | ListedOnce(entries, name, i)
      ensures 0 <= i < |entries| && Count(entries, name) == 1 && First(entries, name) == entries[i]
    {
      EntryForm(entries, name, i);
    }
  }

  lemma CopyKeepsPlace(nodes: Nodes, nodes': Nodes, objects': Objects, ctx: Context, entries: seq<RemoteEntry>, k: Id)
    requires Linked(nodes) && IsChild(nodes, ctx.targetID, k) && Live(nodes, ctx.targetID)
    requires ctx.target == nodes[ctx.targetID]
    requires k in nodes' && CopiedOver(nodes, entries, k) && Becomes(ctx, entries, nodes[k], nodes'[k], objects')
    ensures ChangedByRemote(nodes[k], nodes'[k]) <==> nodes'[k] != nodes[k].(mountID := nodes'[k].mountID)
  {
    ChildIsUnique(nodes, ctx.targetID, k);
    var i :| ListedOnce(entries, nodes[k].name, i) && !AnotherItem(nodes[k], entries[i]);
    assert RowOf(ctx, entries[i], nodes'[k], Indexed);
    hide Linked, Becomes, ChildPath;
    assert nodes'[k].name == nodes[k].name && nodes'[k].path == nodes[k].path
           && nodes'[k].parentID == nodes[k].parentID;
  }

  // ---- Objects --------------------------------------------------------------------------------

  /** The entry is listed once, as a file, and copied: the child of that name, if any, is no mount or virtual directory
      and no other item. */
  ghost predicate CopiedFile(nodes: Nodes, ctx: Context, entries: seq<RemoteEntry>, i: int) {
    && 0 <= i < |entries| && !entries[i].isDir && ListedOnce(entries, EntryName(entries[i]), i)
    && forall k | IsChild(nodes, ctx.targetID, k) && nodes[k].name == EntryName(entries[i]) ::
         nodes[k].kind != Mount && nodes[k].kind != VirtualDir && !AnotherItem(nodes[k], entries[i])
  }

  lemma CopiesOfFile(nodes: Nodes, ctx: Context, entries: seq<RemoteEntry>, i: int)
    requires Linked(nodes) && 0 <= i < |entries|
    ensures Copies(nodes, ctx, entries, EntryName(entries[i])) && !entries[i].isDir <==>
              CopiedFile(nodes, ctx, entries, i)
  {
    var name := EntryName(entries[i]);
    HowListed(entries, name);
    hide Names, Count, First, EntryName, Linked;
    if ListedOnce(entries, name, i) { EntryForm(entries, name, i); }
    if j :| ListedOnce(entries, name, j) {
      assert NamedAt(entries, name, i);
      EntryForm(entries, name, j);
    }
    hide ListedOnce;
    forall k | IsChild(nodes, ctx.targetID, k) && nodes[k].name == name
      ensures HasChild(nodes, ctx.targetID, name) && k == ChildOf(nodes, ctx.targetID, name)
    {
      ChildIsUnique(nodes, ctx.targetID, k);
    }
  }

  lemma {:induction false} RowsAreOfFiles(nodes: Nodes, ctx: Context, entries: seq<RemoteEntry>, n: nat,
                                          row: StorageObject)
    requires Linked(nodes) && n <= |entries| && row in ObjectRows(nodes, ctx, entries, n)
    ensures exists i :: CopiedFile(nodes, ctx, entries, i) && row == ObjectRow(ctx, entries[i])
  {
    hide Linked, Copies, CopiedFile, ObjectRow, EntryName;
    if row in ObjectRows(nodes, ctx, entries, n - 1) {
      RowsAreOfFiles(nodes, ctx, entries, n - 1, row);
    } else {
      CopiesOfFile(nodes, ctx, entries, n - 1);
      assert CopiedFile(nodes, ctx, entries, n - 1);
    }
  }

  lemma {:induction false} LastRowIsOne(rows: seq<StorageObject>, key: ObjectKey)
    requires HasKey(rows, key)
    ensures LastRow(rows, key) in rows && KeyOf(LastRow(rows, key)) == key
    decreases |rows|
  {
    if KeyOf(rows[|rows| - 1]) != key {
      LastRowIsOne(rows[..|rows| - 1], key);
    }
  }

  /** The object says of its content what the entry says. */
  predicate ContentOf(ctx: Context, e: RemoteEntry, obj: StorageObject) {
    && obj.size == (if e.isDir || e.size < 0 then 0 else e.size) && obj.etag == e.etag && obj.checksum == e.checksum
    && obj.mimeType == (if e.isDir then "inode/directory"
                        else if e.mimeType != "" then e.mimeType else ctx.guessMime(EntryName(e)))
  }

  /** A child that goes missing has this object. */
  ghost predicate Loses(nodes: Nodes, ctx: Context, entries: seq<RemoteEntry>, o: Id) {
    exists k :: k in nodes && GoesMissing(nodes, ctx, entries, k) && nodes[k].objectID == Some(o)
  }

  /** After a refresh every object is that of a copied file, or stands as before; and it is marked missing if a child
      that goes missing has it. */
  lemma ObjectAfter(nodes: Nodes, objects: Objects, nodes': Nodes, objects': Objects, ctx: Context,
                    entries: seq<RemoteEntry>, r: RefreshResult, o: Id)
    requires Linked(nodes) && Refreshed(nodes, objects, nodes', objects', ctx, entries, r) && o in objects'
    ensures
      var obj := objects'[o];
      || (&& (exists i :: CopiedFile(nodes, ctx, entries, i) && FoundBy(ctx, entries[i], obj)
                          && ContentOf(ctx, entries[i], obj))
          && obj.status == if Loses(nodes, ctx, entries, o) then ObjectMissing else Available)
      || (o in objects
          && obj == if Loses(nodes, ctx, entries, o) then objects[o].(status := ObjectMissing) else objects[o])
  {
    var rows, lost := ObjectRows(nodes, ctx, entries, |entries|),
      LostObjects(nodes, MissingChildren(nodes, ctx, entries));
    var key := KeyOf(objects'[o]);
    LosesIff(nodes, ctx, entries, o);
    hide Linked, OldRow, NewRow, ObjectRows, ConflictTotal, Loses, CopiedFile, FoundBy, ContentOf, LostObjects,
         MissingChildren, LastRow, HasKey;
    if HasKey(rows, key) {
      LastRowIsOne(rows, key);
      RowsAreOfFiles(nodes, ctx, entries, |entries|, LastRow(rows, key));
      var i :| CopiedFile(nodes, ctx, entries, i) && LastRow(rows, key) == ObjectRow(ctx, entries[i]);
      RowSaysItsEntry(nodes, ctx, entries, i, objects'[o]);
    }
  }

  lemma RowSaysItsEntry(nodes: Nodes, ctx: Context, entries: seq<RemoteEntry>, i: int, obj: StorageObject)
    requires CopiedFile(nodes, ctx, entries, i)
    requires obj.(status := Available) == ObjectRow(ctx, entries[i])
    ensures FoundBy(ctx, entries[i], obj) && ContentOf(ctx, entries[i], obj)
  {
    ListedObject(ctx, entries[i], obj);
    hide EntryLocator, FoundBy, EntryName;
  }

  lemma LosesIff(nodes: Nodes, ctx: Context, entries: seq<RemoteEntry>, o: Id)
    ensures o in LostObjects(nodes, MissingChildren(nodes, ctx, entries)) <==> Loses(nodes, ctx, entries, o)
  {
    MissingCount(nodes, ctx, entries);
    hide MissingChildren, GoesMissing;
  }

  // ---- Mounts below a refreshed directory -----------------------------------------------------

  /** A listing names the row, as a child of the target, more than once. */
  ghost predicate NamedRepeatedly(nodes: Nodes, ctx: Context, entries: seq<RemoteEntry>, k: Id)
    requires k in nodes
  {
    IsChild(nodes, ctx.targetID, k) && exists i, j :: ListedAgain(entries, nodes[k].name, i, j)
  }

  /** A mount or virtual directory stays as it was, unless it is the target itself or listed more than once. */
  lemma ControlRowStays(nodes: Nodes, objects: Objects, nodes': Nodes, objects': Objects, ctx: Context,
                        entries: seq<RemoteEntry>, r: RefreshResult, k: Id)
    requires Linked(nodes) && Live(nodes, ctx.targetID) && ctx.target == nodes[ctx.targetID]
    requires Refreshed(nodes, objects, nodes', objects', ctx, entries, r)
    requires Live(nodes, k) && k != ctx.targetID && !NamedRepeatedly(nodes, ctx, entries, k)
    requires nodes[k].kind == Mount || nodes[k].kind == VirtualDir || nodes[k].kind == Root
    ensures k in nodes' && nodes'[k] == nodes[k]
  {
    assert OldRow(nodes, nodes', objects', ctx, entries, k);
    assert NodeOk(nodes, k);
    hide Linked, Refreshed, NodeOk, ListedOnce, ListedAgain, Unlisted, RowFor, Count, Names;
    if IsChild(nodes, ctx.targetID, k) {
      ChildBecomes(nodes, objects, nodes', objects', ctx, entries, r, k);
      HowListed(entries, nodes[k].name);
      NamesAreCounted(entries, nodes[k].name);
    }
  }

  lemma TargetOrNot(nodes: Nodes, objects: Objects, nodes': Nodes, objects': Objects, ctx: Context,
                    entries: seq<RemoteEntry>, r: RefreshResult, k: Id)
    requires Linked(nodes) && Live(nodes, ctx.targetID) && ctx.target == nodes[ctx.targetID]
    requires Refreshed(nodes, objects, nodes', objects', ctx, entries, r)
    requires Live(nodes, k) && !NamedRepeatedly(nodes, ctx, entries, k)
    requires nodes[k].kind == Mount || nodes[k].kind == VirtualDir || nodes[k].kind == Root
    ensures k in nodes' && nodes'[k] == nodes[k].(syncState := nodes'[k].syncState)
    ensures k != ctx.targetID ==> nodes'[k] == nodes[k]
    ensures Live(nodes', k) && (LiveAt(nodes', k, nodes[k].path))
  {
    if k == ctx.targetID {
      assert OldRow(nodes, nodes', objects', ctx, entries, k);
    } else {
      ControlRowStays(nodes, objects, nodes', objects', ctx, entries, r, k);
    }
    hide Linked, Refreshed, OldRow, NamedRepeatedly;
  }
}
