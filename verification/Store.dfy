/** The metadata tables and the repository operations on them, with their unique indexes. */
module Store {
  import opened Common
  import opened Text
  import opened Paths

  datatype Kind = Root | VirtualDir | Mount | Dir | File

  datatype SyncState = Indexed | Pending | Syncing | Stale | Missing | Conflict | SyncError

  /** A row of `vfs_nodes`, without timestamps and actor attribution. */
  datatype Node = Node(parentID: Option<Id>, name: string, path: string, kind: Kind,
                       mountID: Option<Id>, objectID: Option<Id>, sourceID: Option<Id>,
                       providerItemID: Option<string>, providerParentID: Option<string>,
                       size: int, mimeType: string, etag: string, checksum: string,
                       syncState: SyncState, isDeleted: bool)

  datatype ObjectStatus = Available | ObjectMissing | OtherStatus(code: nat)

  /** A JSON object with string members; jsonb columns compare by content. */
  type Json = map<string, string>

  /** A row of `storage_objects`. */
  datatype StorageObject = StorageObject(sourceID: Id, driverType: string, locatorType: string, locator: Json,
                                         size: int, etag: string, checksum: string, mimeType: string,
                                         status: ObjectStatus)

  /** The columns of the unique index on storage objects. */
  datatype ObjectKey = ObjectKey(sourceID: Id, driverType: string, locatorType: string, locator: Json)

  type Nodes = map<Id, Node>
  type Objects = map<Id, StorageObject>

  function KeyOf(obj: StorageObject): ObjectKey {
    ObjectKey(obj.sourceID, obj.driverType, obj.locatorType, obj.locator)
  }

  predicate Live(nodes: Nodes, id: Id) {
    id in nodes && !nodes[id].isDeleted
  }

  predicate LiveAt(nodes: Nodes, id: Id, path: string) {
    Live(nodes, id) && nodes[id].path == path
  }

  predicate IsDirectory(node: Node) {
    node.kind != File
  }

  // ---- Unique indexes -------------------------------------------------------------------------

  /** Live rows have distinct paths, and distinct names below the same parent. */
  ghost predicate UniqueLive(nodes: Nodes) {
    forall a, b | Live(nodes, a) && Live(nodes, b) && a != b :: !Clash(nodes[a], nodes[b])
  }

  /** Two live rows the unique indexes do not admit side by side (NULL parents never clash). */
  predicate Clash(n: Node, m: Node) {
    n.path == m.path || (n.parentID.Some? && n.parentID == m.parentID && n.name == m.name)
  }

  /** The indexes admit row `id` with the given content. */
  predicate Admits(nodes: Nodes, id: Id, node: Node) {
    node.isDeleted || forall j | j in nodes && Live(nodes, j) && j != id :: !Clash(node, nodes[j])
  }

  ghost predicate UniqueKeys(objects: Objects) {
    forall a, b | a in objects && b in objects && KeyOf(objects[a]) == KeyOf(objects[b]) :: a == b
  }

  predicate KeyIsFree(objects: Objects, id: Id, key: ObjectKey) {
    forall j | j in objects && j != id :: KeyOf(objects[j]) != key
  }

  // ---- The path-prefix query ------------------------------------------------------------------

  /** `normalizeVFSPathPrefix`: the repository trims the prefix before it queries. */
  function QueryPrefix(prefix: string): string {
    var trimmed := TrimRightSlash(TrimSpace(prefix));
    if trimmed == "" then "/" else trimmed
  }

  /** The WHERE clause of `ListByPathPrefix`. */
  predicate MatchesPrefixQuery(prefix: string, path: string) {
    var q := QueryPrefix(prefix);
    q == "/" || path == q || HasPrefix(path, q + "/")
  }

  /** The WHERE clause of `Delete` for a row at `path`. */
  predicate MatchesDeleteQuery(prefix: string, path: string) {
    var q := QueryPrefix(prefix);
    path == prefix || (if q == "/" then HasPrefix(path, "/") else HasPrefix(path, q + "/"))
  }

  /** A path the repository queries as it stands. */
  predicate Tidy(path: string) {
    QueryPrefix(path) == path
  }

  predicate EndsInSpace(path: string) {
    path != "" && IsSpace(path[|path| - 1])
  }

  /** A path that starts with a slash and ends with none, or the root. */
  predicate Rooted(path: string) {
    path == "/" || (|path| >= 2 && path[0] == '/' && path[|path| - 1] != '/')
  }

  lemma {:induction false} TrimShrinks(path: string)
    requires Rooted(path)
    ensures Rooted(QueryPrefix(path)) && QueryPrefix(path) <= path
    ensures Tidy(path) <==> !EndsInSpace(path)
  {
    assert TrimLeftSpace(path) == path;
    TrimRightSpaceShape(path);
    TrimRightSlashShape(TrimSpace(path));
    if !IsSpace(path[|path| - 1]) {
      assert TrimRightSpace(path) == path;
      if path == "/" { assert TrimRightSlash(path) == TrimRightSlash(""); }
    } else {
      var t := TrimRightSpace(path);
      assert t == TrimRightSpace(path[..|path| - 1]);
      TrimRightSpaceShape(path[..|path| - 1]);
      var u := TrimRightSlash(t);
      assert u == path[..|u|];
      if u != "" {
        assert u[0] == '/';
        assert |u| >= 2;
      }
    }
  }

  /** The prefix query returns what lies at or below the path exactly when the path does not end in
      white space. */
  lemma PrefixQueryIsExact(p: string)
    requires Rooted(p)
    ensures (forall x | Rooted(x) :: MatchesPrefixQuery(p, x) <==> AtOrBelow(p, x)) <==> Tidy(p)
    ensures Tidy(p) <==> !EndsInSpace(p)
  {
    TrimShrinks(p);
    var q := QueryPrefix(p);
    if !Tidy(p) {
      assert MatchesPrefixQuery(p, q) && !AtOrBelow(p, q);
    } else {
      forall x | Rooted(x) ensures MatchesPrefixQuery(p, x) <==> AtOrBelow(p, x) {
      }
    }
  }

  /** The same for the query `Delete` runs. */
  lemma DeleteQueryIsExact(p: string)
    requires Rooted(p)
    ensures (forall x | Rooted(x) :: MatchesDeleteQuery(p, x) <==> AtOrBelow(p, x)) <==> Tidy(p)
  {
    TrimShrinks(p);
    var q := QueryPrefix(p);
    if !Tidy(p) {
      var x := if q == "/" then "/z" else q + "/z";
      assert MatchesDeleteQuery(p, x);
      assert !AtOrBelow(p, x) by {
        if p <= x {
          assert p[|p| - 1] == x[|p| - 1];
        }
      }
    } else {
      forall x | Rooted(x) ensures MatchesDeleteQuery(p, x) <==> AtOrBelow(p, x) {
      }
    }
  }
}
