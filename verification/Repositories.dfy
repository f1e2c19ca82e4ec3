/** The repositories the services share: keyed reads and writes on the metadata tables. */
module Repositories {
  import opened Common
  import opened Store
  import opened Tree

  function FreshId(nodes: Nodes): (id: Id)
    ensures id !in nodes && id > 0
  {
    FreshAbove(nodes.Keys)
  }

  /** The next value of an autoincrement column: positive and above every id in use. */
  function FreshAbove(ids: set<Id>): (id: Id)
    ensures id > 0 && forall k | k in ids :: k < id
  {
    MaxExists(ids);
    if ids == {} then 1
    else var m :| m in ids && forall k | k in ids :: k <= m; m + 1
  }

  lemma MaxExists(ids: set<Id>)
    ensures ids == {} || exists m | m in ids :: forall k | k in ids :: k <= m
    decreases |ids|
  {
    if ids != {} {
      var x :| x in ids;
      var rest := ids - {x};
      MaxExists(rest);
      if rest == {} {
        assert ids == {x};
      } else {
        var m :| m in rest && forall k | k in rest :: k <= m;
        var top := if x <= m then m else x;
        assert forall k | k in ids :: k == x || k in rest;
        assert top in ids && forall k | k in ids :: k <= top;
      }
    }
  }

  /** `id` is the object an upsert by locator writes. */
  predicate KeyTarget(objects: Objects, id: Id, key: ObjectKey) {
    if id in objects then KeyOf(objects[id]) == key else forall o | o in objects :: KeyOf(objects[o]) != key
  }

  class MetadataStore {
    var nodes: Nodes
    var objects: Objects

    constructor ()
      ensures nodes == map[] && objects == map[]
    {
      nodes, objects := map[], map[];
    }

    method FindByPath(path: string) returns (r: Option<Id>)
      ensures r.Some? ==> LiveAt(nodes, r.value, path)
      ensures r.None? ==> forall k :: !LiveAt(nodes, k, path)
    {
      if id :| id in nodes && LiveAt(nodes, id, path) {
        return Some(id);
      }
      return None;
    }

    /** `Create`: inserts a live row under a new id unless the unique indexes refuse it. */
    method CreateNode(node: Node) returns (r: Result<Id>)
      requires !node.isDeleted
      modifies this`nodes
      ensures r.Ok? <==> Admits(old(nodes), FreshId(old(nodes)), node)
      ensures r.Err? ==> r.error == NameConflict && nodes == old(nodes)
      ensures r.Ok? ==> r.value == FreshId(old(nodes)) && nodes == old(nodes)[r.value := node]
    {
      var id := FreshId(nodes);
      if !Admits(nodes, id, node) { return Err(NameConflict); }
      nodes := nodes[id := node];
      return Ok(id);
    }

    /** `UpsertByPath`: overwrites the live row at the node's path, keeping its id, or inserts a new one. */
    method UpsertByPath(node: Node) returns (r: Result<Id>)
      requires UniqueLive(nodes) && !node.isDeleted
      modifies this`nodes
      ensures r.Ok? ==> UpsertTarget(old(nodes), r.value, node.path)
      ensures r.Ok? && r.value !in old(nodes) ==> r.value == FreshId(old(nodes))
      ensures r.Ok? ==> nodes == old(nodes)[r.value := node] && UniqueLive(nodes)
      ensures r.Err? ==> r.error == NameConflict && nodes == old(nodes)
      ensures r.Err? ==> exists j | j in nodes && Live(nodes, j) :: nodes[j].path != node.path && Clash(node, nodes[j])
    {
      var found := FindByPath(node.path);
      var id := if found.Some? then found.value else FreshId(nodes);
      if !Admits(nodes, id, node) {
        ghost var j :| j in nodes && Live(nodes, j) && j != id && Clash(node, nodes[j]);
        if found.Some? { assert !Clash(nodes[id], nodes[j]); } else { assert !LiveAt(nodes, j, node.path); }
        assert nodes[j].path != node.path;
        return Err(NameConflict);
      }
      nodes := nodes[id := node];
      return Ok(id);
    }

    /** `Update`: writes the row unless the unique indexes refuse it. */
    method UpdateNode(id: Id, node: Node) returns (r: Option<Error>)
      requires id in nodes
      modifies this`nodes
      ensures r == if Admits(old(nodes), id, node) then None else Some(NameConflict)
      ensures nodes == if r.None? then old(nodes)[id := node] else old(nodes)
    {
      if !Admits(nodes, id, node) { return Some(NameConflict); }
      nodes := nodes[id := node];
      return None;
    }

    /** `UpsertByLocator`: overwrites the object with the same key, keeping its id, or inserts a new one. */
    method UpsertObjectByLocator(obj: StorageObject) returns (id: Id)
      requires UniqueKeys(objects)
      modifies this`objects
      ensures KeyTarget(old(objects), id, KeyOf(obj))
      ensures objects == old(objects)[id := obj] && UniqueKeys(objects)
    {
      if found :| found in objects && KeyOf(objects[found]) == KeyOf(obj) {
        id := found;
      } else {
        id := FreshAbove(objects.Keys);
      }
      objects := objects[id := obj];
    }

    method UpdateObject(id: Id, obj: StorageObject) returns (r: Option<Error>)
      requires id in objects
      modifies this`objects
      ensures r == if KeyIsFree(old(objects), id, KeyOf(obj)) then None else Some(NameConflict)
      ensures objects == if r.None? then old(objects)[id := obj] else old(objects)
    {
      if !KeyIsFree(objects, id, KeyOf(obj)) { return Some(NameConflict); }
      objects := objects[id := obj];
      return None;
    }
  }
}
