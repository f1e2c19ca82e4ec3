/** Renames that cannot be taken back, or not wholly. */
module Irreversible {
  import opened Common
  import opened Text
  import opened Paths
  import opened Store
  import opened Tree
  import opened Rewrite
  import opened Locators
  import opened MetadataVfs
  import opened Repositories
  import opened BlankPaths
  import opened WayBack
  import Mounts
  import TreeRuns

  // ---- To a name that ends in a blank ---------------------------------------------------------

  /** One directory or file below the root; a file has the object 1 of the source 1. */
  function OneRow(name: string, file: bool): Nodes {
    map[1 := RootNode(), 2 := TheRow(name, file)]
  }

  function TheRow(name: string, file: bool): Node {
    var row := Directory(1, name, "/" + name);
    if file then row.(kind := File, objectID := Some(1), sourceID := Some(1)) else row
  }

  lemma OneRowIsLinked(name: string, file: bool)
    requires CleanSegment(name)
    ensures Linked(OneRow(name, file)) && Ready(OneRow(name, file))
    ensures forall k :: Live(OneRow(name, file), k) <==> k == 1 || k == 2
    ensures LiveAt(OneRow(name, file), 1, "/") && LiveAt(OneRow(name, file), 2, "/" + name)
    ensures OneRow(name, file)[2] == TheRow(name, file)
  {
    TreeRuns.OnlyTheRoot(map[], 1);
    var one: Nodes := map[1 := RootNode()];
    assert one == map[][1 := RootNode()];
    assert ChildPath("/", name) == "/" + name;
    PutChildKeepsLinked(one, 1, 2, TheRow(name, file));
    assert OneRow(name, file) == one[2 := TheRow(name, file)];
  }

  /** It may be renamed to any other valid name without "..". */
  lemma OneRowPlan(name: string, newName: string, file: bool)
    requires CleanSegment(name) && !HasDotDot(name) && ValidName(newName) && !HasDotDot(newName) && name != newName
    ensures RenamePlan(OneRow(name, file), "/" + name, newName, 2)
    ensures forall id | RenamePlan(OneRow(name, file), "/" + name, newName, id) :: id == 2
    ensures CanRewrite(OneRow(name, file), 2, 1, newName, "/" + newName) && ChildPath("/", newName) == "/" + newName
  {
    OneRowIsLinked(name, file);
    OneSegment(name);
    OneSegment(newName);
    assert ChildPath("/", newName) == "/" + newName;
    assert ("/" + name)[1..] == name && ("/" + newName)[1..] == newName;
    hide OneRow, Linked, NormalizeVirtualPath, IsCanonical, HasDotDot, CleanSegment, Ready;
    assert Resolves(OneRow(name, file), "/" + name, 2);
    OnlyOneResolves(OneRow(name, file), "/" + name, 2);
    RenamePlanCanRewrite(OneRow(name, file), "/" + name, newName, 2);
  }

  /** A name that does not end in white space, and one that does without being nothing else. */
  predicate Names(name: string, blank: string) {
    && ValidName(name) && !HasDotDot(name) && !IsSpace(name[|name| - 1])
    && ValidName(blank) && !HasDotDot(blank) && IsSpace(blank[|blank| - 1]) && !IsBlank(blank)
  }

  lemma QueriedRow(name: string, file: bool)
    requires CleanSegment(name)
    ensures MissesItself(OneRow(name, file)[2]) <==> IsSpace(name[|name| - 1]) && !IsBlank(name)
    ensures Selected(OneRow(name, file), "/" + name, 2) <==> !MissesItself(OneRow(name, file)[2])
    ensures MissesItself(OneRow(name, file)[2]) ==> forall k :: !Selected(OneRow(name, file), "/" + name, k)
  {
    OneRowIsLinked(name, file);
    assert ("/" + name)[|"/" + name| - 1] == name[|name| - 1];
    QueryOfNode(OneRow(name, file), 2);
    if MissesItself(OneRow(name, file)[2]) { MissedSelection(OneRow(name, file), 2); }
    hide Linked, QueryPrefix, IsBlank, IsSpace;
    var q := QueryPrefix("/" + name);
    if MissesItself(OneRow(name, file)[2]) {
      assert !AtOrBelow(q, "/") by { assert q != "/" && Rooted(q); }
    }
  }

  /** Its rename moves it and nothing else. */
  lemma RowRenamed(name: string, newName: string, file: bool)
    requires CleanSegment(name) && !IsSpace(name[|name| - 1])
    ensures RewriteNodes(OneRow(name, file), 2, 1, newName, "/" + newName) == OneRow(newName, file)
  {
    OneRowIsLinked(name, file);
    QueriedRow(name, file);
    assert ("/" + name)[|"/" + name| - 1] == name[|name| - 1];
    QueryOfNode(OneRow(name, file), 2);
    hide Linked, QueryPrefix, IsSpace, IsBlank, AtOrBelow, Rooted;
    assert !Selected(OneRow(name, file), "/" + name, 1);
  }

  /** There are no files to move. */
  lemma NoFileMoves(nodes: Nodes, newName: string, id: Id)
    requires id in nodes && nodes[id].parentID.Some? && nodes[id].parentID.value in nodes
    ensures LocatorsAgree(nodes, map[], map[]) && RenameLocatorsFree(nodes, map[], map[], newName, id)
  {
  }

  /** What the contract of `Rename` says of success and of the tables. */
  ghost predicate RenameContract(nodes: Nodes, objects: Objects, nodes': Nodes, objects': Objects, sources: Sources,
                                 path: string, newName: string, ok: bool) {
    && (LocatorsAgree(nodes, objects, sources) ==>
          forall id :: RenamePlan(nodes, path, newName, id) ==>
            && (nodes' != nodes <==>
                  (exists k :: Selected(nodes, nodes[id].path, k))
                  && RenamePlacesFree(nodes, objects, sources, newName, id))
            && (ok <==> !MissesItself(nodes[id]) && RenamePlacesFree(nodes, objects, sources, newName, id)))
    && ((nodes' == nodes && objects' == objects)
        || exists id, k ::
             && Renamed(nodes, objects, nodes', objects', sources, path, newName, id)
             && Selected(nodes, nodes[id].path, k) && (!ok <==> MissesItself(nodes[id])))
  }

  /** The service, asked to rename the only directory to a name that ends in white space. */
  method There(name: string, blank: string) returns (service: MetadataVFSService, there: Result<(string, Id)>)
    requires Names(name, blank)
    ensures fresh(service) && fresh(service.store) && there.Ok? && service.sources == map[]
    ensures service.store.nodes == OneRow(blank, false) && service.store.objects == map[]
  {
    hide OneRow, Names, Linked, Ready, RenamePlan, Renamed, Selected, MissesItself, RenamePlacesFree, LocatorsAgree,
         NormalizeVirtualPath, ValidName, LiveAt, Live;
    var store := new MetadataStore();
    store.nodes, store.objects := OneRow(name, false), map[];
    service := new MetadataVFSService(store, map[]);
    Before(name, blank);
    there := service.Rename("/" + name, blank);
    AfterThere(name, blank, store.nodes, store.objects, there.Ok?);
  }

  /** Asked to rename it back, the service refuses. */
  method ThereAndNotBack(name: string, blank: string)
    returns (service: MetadataVFSService, there: Result<(string, Id)>, back: Result<(string, Id)>)
    requires Names(name, blank)
    ensures fresh(service) && there.Ok? && back.Err?
    ensures service.store.nodes == OneRow(blank, false)
  {
    hide OneRow, Names, Linked, Ready, RenamePlan, Renamed, Selected, MissesItself, RenamePlacesFree, LocatorsAgree,
         NormalizeVirtualPath, ValidName, LiveAt, Live;
    service, there := There(name, blank);
    Before(name, blank);
    back := service.Rename("/" + blank, name);
    NotBack(name, blank, service.store.nodes, service.store.objects, back.Ok?);
  }

  lemma Before(name: string, blank: string)
    requires Names(name, blank)
    ensures Ready(OneRow(name, false)) && Ready(OneRow(blank, false))
  {
    OneRowIsLinked(name, false);
    OneRowIsLinked(blank, false);
  }

  lemma Shapes(name: string, blank: string)
    requires Names(name, blank)
    ensures CleanSegment(name) && CleanSegment(blank) && name != blank && !IsBlank(name)
  {
  }

  lemma PlannedThere(name: string, blank: string)
    requires Names(name, blank)
    ensures RenamePlan(OneRow(name, false), "/" + name, blank, 2)
    ensures forall id | RenamePlan(OneRow(name, false), "/" + name, blank, id) :: id == 2
    ensures OneRow(name, false)[2].path == "/" + name && Selected(OneRow(name, false), "/" + name, 2)
    ensures !MissesItself(OneRow(name, false)[2]) && LocatorsAgree(OneRow(name, false), map[], map[])
    ensures RenamePlacesFree(OneRow(name, false), map[], map[], blank, 2)
  {
    Shapes(name, blank);
    OneRowIsLinked(name, false);
    OneRowPlan(name, blank, false);
    QueriedRow(name, false);
    NoFileMoves(OneRow(name, false), blank, 2);
    hide OneRow, Linked, RenamePlan, Selected, RenamePlacesFree, LocatorsAgree, RenameLocatorsFree, IsBlank,
         HasDotDot, ValidName;
    RenameNeedsLocators(OneRow(name, false), map[], map[], "/" + name, blank, 2);
  }

  lemma RewrittenThere(name: string, blank: string, nodes: Nodes, objects: Objects)
    requires Names(name, blank)
    requires Renamed(OneRow(name, false), map[], nodes, objects, map[], "/" + name, blank, 2)
    ensures nodes == OneRow(blank, false) && objects == map[]
  {
    Shapes(name, blank);
    RowRenamed(name, blank, false);
    assert OneRow(name, false)[2].parentID == Some(1) && OneRow(name, false)[1].path == "/";
    assert ChildPath("/", blank) == "/" + blank;
    hide OneRow, RenamePlan, RewriteNodes, ChildPath, IsSpace, IsBlank, HasDotDot;
    assert objects.Keys == {};
  }

  lemma AfterThere(name: string, blank: string, nodes: Nodes, objects: Objects, ok: bool)
    requires Names(name, blank)
    requires RenameContract(OneRow(name, false), map[], nodes, objects, map[], "/" + name, blank, ok)
    ensures ok && nodes == OneRow(blank, false) && objects == map[]
  {
    hide OneRow, Selected, MissesItself, RenamePlacesFree, LocatorsAgree, Names, RewriteNodes, ObjectsFollow,
         NormalizeVirtualPath, NameIsFree, UniqueKeys, ChildPath;
    PlannedThere(name, blank);
    assert nodes != OneRow(name, false);
    var id: Id, k: Id :| Renamed(OneRow(name, false), map[], nodes, objects, map[], "/" + name, blank, id)
                 && Selected(OneRow(name, false), OneRow(name, false)[id].path, k);
    RewrittenThere(name, blank, nodes, objects);
  }

  lemma NotBack(name: string, blank: string, nodes: Nodes, objects: Objects, ok: bool)
    requires Names(name, blank)
    requires RenameContract(OneRow(blank, false), map[], nodes, objects, map[], "/" + blank, name, ok)
    ensures !ok && nodes == OneRow(blank, false)
  {
    Shapes(name, blank);
    OneRowIsLinked(blank, false);
    OneRowPlan(blank, name, false);
    QueriedRow(blank, false);
    NoFileMoves(OneRow(blank, false), name, 2);
    hide OneRow, Linked, RenamePlan, Selected, RenamePlacesFree, LocatorsAgree, RewriteNodes, Renamed,
         RenameLocatorsFree, ChildPath, IsSpace, IsBlank, HasDotDot;
  }

  /** Such names: "x" and "b "; and "x" and "y" for what follows. */
  lemma SuchNames()
    ensures Names("x", "b ") && TwoNames("x", "y")
  {
    assert !IsSpace("b "[0]);
  }

  // ---- A locator that holds more than a path --------------------------------------------------

  /** A source mounted at "/". */
  function OneSource(): Sources {
    map[1 := Mounts.Source(1, "local", "", "/", "s", true)]
  }

  /** The file's object, with a locator that names the path and something else. */
  function OneObject(name: string): Objects {
    map[1 := StorageObject(1, "local", "local_path", map["path" := "/" + name, "inode" := "7"], 0, "", "", "",
                           Available)]
  }

  /** Two different names that do not end in white space. */
  predicate TwoNames(name: string, newName: string) {
    && ValidName(name) && !HasDotDot(name) && !IsSpace(name[|name| - 1])
    && ValidName(newName) && !HasDotDot(newName) && !IsSpace(newName[|newName| - 1]) && name != newName
  }

  lemma TwoNamesAreTidy(name: string, newName: string)
    requires TwoNames(name, newName)
    ensures CleanSegment(name) && CleanSegment(newName) && !IsBlank(name) && !IsBlank(newName)
    ensures TidyRequest("/" + name) && TidyRequest("/" + newName) && ChildPath("/", newName) == "/" + newName
    ensures NormalizeVirtualPath("/" + name) == Ok("/" + name)
    ensures NormalizeVirtualPath("/" + newName) == Ok("/" + newName)
  {
    OneSegment(name);
    OneSegment(newName);
    assert ("/" + name)[|"/" + name| - 1] == name[|name| - 1];
    assert ("/" + newName)[|"/" + newName| - 1] == newName[|newName| - 1];
    assert name[|name| - 1] in name && newName[|newName| - 1] in newName;
    hide NormalizeVirtualPath, HasDotDot, IsSpace, QueryPrefix, IsCanonical;
    TrimShrinks("/" + name);
    TrimShrinks("/" + newName);
  }

  lemma TheFileAgrees(name: string)
    requires NormalizeVirtualPath("/" + name) == Ok("/" + name)
    ensures LocatorsAgree(OneRow(name, true), OneObject(name), OneSource()) && UniqueKeys(OneObject(name))
    ensures Syncs(OneRow(name, true)[2], OneObject(name))
  {
    assert TrimSpace("") == "" && TrimSpace("local_path") == "local_path";
    hide NormalizeVirtualPath, TrimSpace;
  }

  /** Nobody else's locator is in the way, there and back. */
  lemma TheFileMoves(name: string, newName: string)
    requires NormalizeVirtualPath("/" + newName) == Ok("/" + newName) && ChildPath("/", newName) == "/" + newName
    ensures RenameLocatorsFree(OneRow(name, true), OneObject(name), OneSource(), newName, 2)
    ensures ReturnKeysFree(OneRow(name, true), OneObject(name), OneSource(), MovedRows(OneRow(name, true), 2))
  {
    assert TrimSpace("") == "";
    hide NormalizeVirtualPath, TrimSpace, ChildPath, MatchesPrefixQuery, KeyOf, Relocated;
  }

  lemma MoreThanAPath(name: string)
    requires CleanSegment(name) && NormalizeVirtualPath("/" + name) == Ok("/" + name) && !IsSpace(name[|name| - 1])
    ensures !PureLocators(OneRow(name, true), OneObject(name), OneSource(), MovedRows(OneRow(name, true), 2))
  {
    QueriedRow(name, true);
    TheFileAgrees(name);
    assert 2 in MovedRows(OneRow(name, true), 2);
    FreshLocator(name);
    hide NormalizeVirtualPath, MatchesPrefixQuery, TrimSpace, IsSpace, IsBlank, Relocated;
  }

  lemma FreshLocator(name: string)
    requires NormalizeVirtualPath("/" + name) == Ok("/" + name)
    ensures Relocated(OneObject(name)[1], OneSource(), 1, "/" + name) != OneObject(name)[1]
  {
    assert TrimSpace("") == "";
    hide NormalizeVirtualPath, TrimSpace;
    assert "inode" in OneObject(name)[1].locator && "inode" !in PathLocator("/" + name);
  }

  /** The service, asked to rename that file and to rename it back: both go through, the rows are as they were, and the
      object is not. */
  method MembersAreLost(name: string, newName: string)
    returns (service: MetadataVFSService, there: Result<(string, Id)>, back: Result<(string, Id)>)
    requires TwoNames(name, newName)
    ensures fresh(service) && there.Ok? && back.Ok?
    ensures service.store.nodes == OneRow(name, true) && service.store.objects != OneObject(name)
  {
    hide OneRow, TwoNames, Linked, Ready, RenamePlan, Renamed, Selected, MissesItself, RenamePlacesFree, LocatorsAgree,
         NormalizeVirtualPath, ValidName, LiveAt, Live, OneObject, OneSource;
    var store := new MetadataStore();
    store.nodes, store.objects := OneRow(name, true), OneObject(name);
    service := new MetadataVFSService(store, OneSource());
    BeforeFile(name, newName);
    there := service.Rename("/" + name, newName);
    ghost var nodes1, objects1 := store.nodes, store.objects;
    FileThere(name, newName, nodes1, objects1, there.Ok?);
    back := service.Rename("/" + newName, name);
    FileBack(name, newName, nodes1, objects1, store.nodes, store.objects, back.Ok?);
  }

  lemma BeforeFile(name: string, newName: string)
    requires TwoNames(name, newName)
    ensures Ready(OneRow(name, true)) && Ready(OneRow(newName, true))
  {
    TwoNamesAreTidy(name, newName);
    OneRowIsLinked(name, true);
    OneRowIsLinked(newName, true);
  }

  lemma PlannedFile(name: string, newName: string)
    requires TwoNames(name, newName)
    ensures RenamePlan(OneRow(name, true), "/" + name, newName, 2) && Linked(OneRow(name, true))
    ensures forall id | RenamePlan(OneRow(name, true), "/" + name, newName, id) :: id == 2
    ensures OneRow(name, true)[2].path == "/" + name && Selected(OneRow(name, true), "/" + name, 2)
    ensures !MissesItself(OneRow(name, true)[2])
    ensures LocatorsAgree(OneRow(name, true), OneObject(name), OneSource())
    ensures RenamePlacesFree(OneRow(name, true), OneObject(name), OneSource(), newName, 2)
  {
    TwoNamesAreTidy(name, newName);
    OneRowIsLinked(name, true);
    OneRowPlan(name, newName, true);
    QueriedRow(name, true);
    TheFileAgrees(name);
    TheFileMoves(name, newName);
    hide OneRow, Linked, RenamePlan, Selected, RenamePlacesFree, LocatorsAgree, RenameLocatorsFree, IsBlank, HasDotDot,
         ValidName, NormalizeVirtualPath, OneObject, OneSource;
    RenameNeedsLocators(OneRow(name, true), OneObject(name), OneSource(), "/" + name, newName, 2);
  }

  lemma FileThere(name: string, newName: string, nodes: Nodes, objects: Objects, ok: bool)
    requires TwoNames(name, newName)
    requires RenameContract(OneRow(name, true), OneObject(name), nodes, objects, OneSource(), "/" + name, newName, ok)
    ensures ok && nodes == OneRow(newName, true)
    ensures Renamed(OneRow(name, true), OneObject(name), nodes, objects, OneSource(), "/" + name, newName, 2)
  {
    hide OneRow, Selected, MissesItself, RenamePlacesFree, LocatorsAgree, TwoNames, RewriteNodes, ObjectsFollow,
         NormalizeVirtualPath, NameIsFree, UniqueKeys, ChildPath, OneObject, OneSource;
    PlannedFile(name, newName);
    assert nodes != OneRow(name, true);
    var id: Id, k: Id :| Renamed(OneRow(name, true), OneObject(name), nodes, objects, OneSource(), "/" + name, newName,
                                 id)
                 && Selected(OneRow(name, true), OneRow(name, true)[id].path, k);
    FileRewritten(name, newName, nodes, objects);
  }

  lemma FileRewritten(name: string, newName: string, nodes: Nodes, objects: Objects)
    requires TwoNames(name, newName)
    requires Renamed(OneRow(name, true), OneObject(name), nodes, objects, OneSource(), "/" + name, newName, 2)
    ensures nodes == OneRow(newName, true)
  {
    TwoNamesAreTidy(name, newName);
    RowRenamed(name, newName, true);
    assert OneRow(name, true)[2].parentID == Some(1) && OneRow(name, true)[1].path == "/";
    hide OneRow, RenamePlan, RewriteNodes, ChildPath, IsSpace, IsBlank, HasDotDot, ObjectsFollow, OneObject, OneSource;
  }

  lemma FileBack(name: string, newName: string, nodes1: Nodes, objects1: Objects, nodes: Nodes, objects: Objects,
                 ok: bool)
    requires TwoNames(name, newName)
    requires Renamed(OneRow(name, true), OneObject(name), nodes1, objects1, OneSource(), "/" + name, newName, 2)
    requires RenameContract(nodes1, objects1, nodes, objects, OneSource(), "/" + newName, name, ok)
    ensures ok && nodes == OneRow(name, true) && objects != OneObject(name)
  {
    PlannedBack(name, newName, nodes1, objects1);
    hide OneRow, Selected, MissesItself, RenamePlacesFree, LocatorsAgree, TwoNames, RewriteNodes, ObjectsFollow,
         NormalizeVirtualPath, NameIsFree, UniqueKeys, ChildPath, OneObject, OneSource, ValidName, Movable;
    assert nodes != nodes1;
    var id: Id, k: Id :| Renamed(nodes1, objects1, nodes, objects, OneSource(), "/" + newName, name, id)
                 && Selected(nodes1, nodes1[id].path, k);
  }

  lemma PlannedBack(name: string, newName: string, nodes1: Nodes, objects1: Objects)
    requires TwoNames(name, newName)
    requires Renamed(OneRow(name, true), OneObject(name), nodes1, objects1, OneSource(), "/" + name, newName, 2)
    ensures RenamePlan(nodes1, "/" + newName, name, 2) && LocatorsAgree(nodes1, objects1, OneSource())
    ensures forall id | RenamePlan(nodes1, "/" + newName, name, id) :: id == 2
    ensures nodes1[2].path == "/" + newName && Selected(nodes1, "/" + newName, 2) && !MissesItself(nodes1[2])
    ensures RenamePlacesFree(nodes1, objects1, OneSource(), name, 2)
    ensures forall nodes, objects | Renamed(nodes1, objects1, nodes, objects, OneSource(), "/" + newName, name, 2) ::
              nodes == OneRow(name, true) && objects != OneObject(name)
  {
    TwoNamesAreTidy(name, newName);
    PlannedFile(name, newName);
    FileRewritten(name, newName, nodes1, objects1);
    OneRowIsLinked(newName, true);
    OneRowPlan(newName, name, true);
    QueriedRow(newName, true);
    TheFileAgrees(name);
    TheFileMoves(name, newName);
    MoreThanAPath(name);
    OldPlace(name);
    hide OneRow, Selected, RenamePlacesFree, LocatorsAgree, RenameLocatorsFree, RewriteNodes, ObjectsFollow, Renamed,
         NormalizeVirtualPath, NameIsFree, UniqueKeys, OneObject, OneSource, Linked, PureLocators, ReturnKeysFree,
         ValidName, RenamePlan, TidyRequest, IsSpace, HasDotDot, IsBlank, ChildPath, MovedRows;
    RenameBackRestores(OneRow(name, true), OneObject(name), nodes1, objects1, OneSource(), "/" + name, newName, 2);
    RenameNeedsLocators(nodes1, objects1, OneSource(), "/" + newName, name, 2);
  }

  lemma OldPlace(name: string)
    ensures OneRow(name, true)[2].parentID == Some(1) && OneRow(name, true)[1].path == "/"
    ensures OneRow(name, true)[2].name == name
  {
  }
}
