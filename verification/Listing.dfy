/** Remote listings and the rows a refresh derives from them. */
module Listing {
  import opened Common
  import opened Text
  import opened Paths
  import opened Store
  import opened Tree
  import Mounts

  /** An entry of a driver's directory listing; `locator` is the driver's own locator JSON, if any. */
  datatype RemoteEntry = RemoteEntry(name: string, path: string, isDir: bool, size: int, etag: string,
                                     checksum: string, mimeType: string,
                                     providerItemID: string, providerParentID: string,
                                     locatorType: string, locator: Option<Json>)

  /** What a refresh works against: the target directory, its source, the inner path of the directory,
      and the MIME table of the runtime. */
  datatype Context = Context(targetID: Id, target: Node, source: Mounts.Source, parentPath: string,
                             guessMime: string -> string)

  // ---- Entries --------------------------------------------------------------------------------

  /** `path.Base`. */
  function PathBase(path: string): string {
    var trimmed := TrimRightSlash(path);
    if path == "" then "." else if trimmed == "" then "/" else trimmed[LastSlash(trimmed) + 1..]
  }

  function EntryName(e: RemoteEntry): string {
    if e.name != "" then e.name
    else if e.path == "" || e.path == "/" then ""
    else PathBase(e.path)
  }

  function EntryPath(parentPath: string, e: RemoteEntry): string {
    var own := NormalizeVirtualPath(e.path);
    var parent := NormalizeVirtualPath(parentPath);
    if e.path != "" && own.Ok? then own.value
    else if parent.Ok? then JoinVirtualPath(parent.value, EntryName(e))
    else "/" + TrimPrefix(EntryName(e), "/")
  }

  function EntrySize(e: RemoteEntry): int {
    if e.isDir || e.size < 0 then 0 else e.size
  }

  function EntryMime(ctx: Context, e: RemoteEntry): string {
    if e.isDir then "inode/directory"
    else if e.mimeType != "" then e.mimeType
    else ctx.guessMime(EntryName(e))
  }

  function TextOrNone(s: string): Option<string> {
    if s == "" then None else Some(s)
  }

  function ProviderParent(ctx: Context, e: RemoteEntry): Option<string> {
    if e.providerParentID != "" then Some(e.providerParentID) else ctx.target.providerItemID
  }

  function EntryLocator(ctx: Context, e: RemoteEntry): (string, Json) {
    var given := TrimSpace(e.locatorType);
    if given != "" && e.locator.Some? then (given, e.locator.value)
    else
      var kind := if given != "" then given
                  else if e.providerItemID != "" then "provider_file_id"
                  else if ctx.source.driverType == "local" then "local_path"
                  else "provider_path";
      var path := EntryPath(ctx.parentPath, e);
      (kind, (if e.providerItemID != "" then map["file_id" := e.providerItemID] else map[])
             + (if e.providerParentID != "" then map["parent_id" := e.providerParentID] else map[])
             + (if path != "" then map["path" := path] else map[]))
  }

  /** The storage object of a listed file. */
  function ObjectRow(ctx: Context, e: RemoteEntry): StorageObject {
    var (kind, locator) := EntryLocator(ctx, e);
    StorageObject(ctx.source.id, ctx.source.driverType, kind, locator, EntrySize(e), e.etag, e.checksum,
                  EntryMime(ctx, e), Available)
  }

  function ListedNode(ctx: Context, e: RemoteEntry, objectID: Option<Id>, state: SyncState): Node {
    Node(Some(ctx.targetID), EntryName(e), ChildPath(ctx.target.path, EntryName(e)), if e.isDir then Dir else File,
         ctx.target.mountID, objectID, ctx.target.sourceID,
         TextOrNone(e.providerItemID), ProviderParent(ctx, e),
         EntrySize(e), EntryMime(ctx, e), e.etag, e.checksum, state, false)
  }

  /** The row of a singly listed entry. */
  function IndexedNode(ctx: Context, e: RemoteEntry, objectID: Option<Id>): Node {
    ListedNode(ctx, e, objectID, Indexed)
  }

  /** The row of a name listed more than once, taken from its first entry; it has no object. */
  function ConflictNode(ctx: Context, e: RemoteEntry): Node {
    ListedNode(ctx, e, None, Conflict)
  }

  /** Mount points and virtual directories belong to the control plane. */
  predicate IsControl(node: Node) {
    node.kind == Mount || node.kind == VirtualDir
  }

  predicate IdentityConflicts(existing: Node, e: RemoteEntry) {
    existing.providerItemID.Some? && e.providerItemID != "" && existing.providerItemID.value != e.providerItemID
  }

  /** `metadataVFSNodeChangedByRemote`. */
  predicate ChangedByRemote(existing: Node, next: Node) {
    || existing.kind != next.kind || existing.objectID != next.objectID || existing.sourceID != next.sourceID
    || existing.providerItemID != next.providerItemID || existing.providerParentID != next.providerParentID
    || existing.size != next.size || existing.mimeType != next.mimeType || existing.etag != next.etag
    || existing.checksum != next.checksum || existing.syncState != next.syncState
    || existing.isDeleted != next.isDeleted
  }

  // ---- Listings -------------------------------------------------------------------------------

  /** How often a name occurs. */
  function Count(entries: seq<RemoteEntry>, name: string): nat {
    if entries == [] then 0
    else Count(entries[..|entries| - 1], name) + (if EntryName(entries[|entries| - 1]) == name then 1 else 0)
  }

  /** The first entry of a listed name. */
  function First(entries: seq<RemoteEntry>, name: string): RemoteEntry
    requires Count(entries, name) > 0
  {
    var front := entries[..|entries| - 1];
    if Count(front, name) > 0 then First(front, name) else entries[|entries| - 1]
  }

  function InvalidCount(entries: seq<RemoteEntry>): nat {
    if entries == [] then 0
    else InvalidCount(entries[..|entries| - 1])
         + (if ValidName(EntryName(entries[|entries| - 1])) then 0 else 1)
  }

  /** The valid names a listing mentions. */
  function Names(entries: seq<RemoteEntry>): set<string> {
    set i | 0 <= i < |entries| && ValidName(EntryName(entries[i])) :: EntryName(entries[i])
  }

  function DuplicateNames(entries: seq<RemoteEntry>): set<string> {
    set n | n in Names(entries) && Count(entries, n) > 1
  }

  function SingleNames(entries: seq<RemoteEntry>): set<string> {
    set n | n in Names(entries) && Count(entries, n) == 1
  }

  lemma {:induction false} CountAtLeast(entries: seq<RemoteEntry>, i: nat)
    requires i < |entries|
    ensures Count(entries, EntryName(entries[i])) > 0
    ensures Count(entries[..i + 1], EntryName(entries[i])) > 0
  {
    var front := entries[..|entries| - 1];
    if i < |front| {
      CountAtLeast(front, i);
      assert front[i] == entries[i] && front[..i + 1] == entries[..i + 1];
    } else {
      assert entries[..i + 1] == entries;
    }
  }

  lemma {:induction false} CountIsListed(entries: seq<RemoteEntry>, name: string)
    ensures Count(entries, name) > 0 <==> exists i | 0 <= i < |entries| :: EntryName(entries[i]) == name
    ensures Count(entries, name) > 0 ==> EntryName(First(entries, name)) == name
  {
    if entries != [] {
      var front, last := entries[..|entries| - 1], entries[|entries| - 1];
      CountIsListed(front, name);
      if i :| 0 <= i < |front| && EntryName(front[i]) == name {
        assert EntryName(entries[i]) == name;
      }
      if EntryName(last) == name {
        assert EntryName(entries[|entries| - 1]) == name;
      }
      if i :| 0 <= i < |entries| && EntryName(entries[i]) == name {
        if i < |front| { assert EntryName(front[i]) == name; }
      }
    }
  }

  lemma NamesAreCounted(entries: seq<RemoteEntry>, name: string)
    ensures name in Names(entries) <==> ValidName(name) && Count(entries, name) > 0
  {
    CountIsListed(entries, name);
  }

  /** The entry of a name listed once is the one at the index where the name stands. */
  lemma {:induction false} OnlyEntry(entries: seq<RemoteEntry>, i: nat)
    requires i < |entries| && Count(entries, EntryName(entries[i])) == 1
    ensures First(entries, EntryName(entries[i])) == entries[i]
    ensures Count(entries[..i], EntryName(entries[i])) == 0
  {
    var front := entries[..|entries| - 1];
    var name := EntryName(entries[i]);
    if i < |front| {
      CountAtLeast(front, i);
      assert front[i] == entries[i];
      OnlyEntry(front, i);
      assert front[..i] == entries[..i];
    } else {
      assert entries[..i] == front;
    }
  }
}
