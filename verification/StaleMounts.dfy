/** A source that changed its mount path: what its old nodes still name, and what a refresh makes of it. */
module StaleMounts {
  import opened Common
  import opened Text
  import opened Paths
  import opened Store
  import opened Tree
  import opened MountSync
  import opened MountService
  import opened DirChains
  import opened Repositories
  import InnerPaths
  import Locators
  import MetadataVfs
  import Mounts
  import RefreshService
  import TreeRuns

  /** After a sync that mounts elsewhere, an old mount row keeps its path, and a node that names it goes on naming
      it. */
  lemma OldMountIsStillNamed(nodes: Nodes, mounts: MountRows, nodes': Nodes, mounts': MountRows, sourceID: Id,
                             enabled: bool, mountPath: string, locator: Json, node: Id, mountID: Id, m: Id, k: Id)
    requires Ready(nodes) && IsCanonical(mountPath)
    requires Synced(nodes, mounts, nodes', mounts', sourceID, enabled, mountPath, locator, node, mountID)
    requires m in mounts && mounts[m].mountPath != mountPath
    requires Live(nodes, k) && nodes[k].mountID == Some(m) && nodes[k].path != mountPath
    ensures k in nodes' && Live(nodes', k) && nodes'[k].path == nodes[k].path && nodes'[k].mountID == Some(m)
    ensures MountPathFor(mounts', k, nodes'[k]) == Some(mounts[m].mountPath)
  {
    hide MountPrepared, IsCanonical, Ready, PathReusable;
    WalkKeepsRows(nodes, mounts, sourceID, mountPath);
    MountNodeStands(nodes, mounts, sourceID, mountPath);
  }

  /** So a refresh of that node asks for the inner path below the old mount, whatever the source's mount path is now.
      The metadata service goes by the source and never gives that answer. */
  lemma StaleRefresh(nodes: Nodes, mounts: MountRows, nodes': Nodes, mounts': MountRows, source: Mounts.Source,
                     sources: Locators.Sources, locator: Json, node: Id, mountID: Id, m: Id, k: Id, inner: string)
    requires Ready(nodes) && NormalizeVirtualPath(source.mountPath).Ok?
    requires source.id in sources && sources[source.id] == source
    requires
      var mountPath := NormalizeVirtualPath(source.mountPath).value;
      && Synced(nodes, mounts, nodes', mounts', source.id, source.isEnabled, mountPath, locator, node, mountID)
      && m in mounts && mounts[m].mountPath != mountPath && IsCanonical(mounts[m].mountPath)
      && Live(nodes, k) && nodes[k].mountID == Some(m) && nodes[k].path != mountPath && IsCanonical(nodes[k].path)
      && IsCanonical(inner) && MergeMountAndInnerPath(mounts[m].mountPath, inner) == nodes[k].path
    ensures k in nodes'
    ensures RefreshService.RemoteParentPath(nodes'[k], MountPathFor(mounts', k, nodes'[k]), source) == Ok(inner)
    ensures Locators.MetadataNodeInnerPath(sources, source.id, nodes'[k].path) != Ok(inner)
  {
    var mountPath, old' := NormalizeVirtualPath(source.mountPath).value, mounts[m].mountPath;
    OldMountIsStillNamed(nodes, mounts, nodes', mounts', source.id, source.isEnabled, mountPath, locator, node, mountID,
                         m, k);
    CanonicalIsFixpoint(old');
    CanonicalIsFixpoint(nodes[k].path);
    InnerPaths.RefreshAnswers(source, nodes'[k], Some(old'), inner);
    var path := nodes[k].path;
    InnerPaths.EmptyMount(source.mountPath, inner);
    InnerPaths.InnerUnderRoot(path);
    InnerPaths.OneMountForInner(mountPath, old', inner);
    Mounts.InnerIsTheInverseOfMerge(mountPath, path, inner);
    if IsSubPath(mountPath, path) {
      Mounts.InnerOfSubPath(mountPath, path);
      CanonicalIsFixpoint(Mounts.InnerPathUnder(mountPath, path));
    }
    hide NormalizeVirtualPath, IsSubPath, IsCanonical, MergeMountAndInnerPath, TrimSpace, Synced, Ready;
  }

  // ---- A source that went from "/m" to "/n" ---------------------------------------------------

  function Moved(): Mounts.Source {
    Mounts.Source(7, "local", "/n", "/", "s", true)
  }

  /** "/m" is a mount of the source, with a directory in it; both name the mount. */
  function MountedRows(): Nodes {
    map[1 := MetadataVfs.RootNode(),
        2 := Node(Some(1), "m", "/m", Mount, Some(1), None, Some(7), None, None, 0, "", "", "", Indexed, false),
        3 := Node(Some(2), "d", "/m/d", Dir, Some(1), None, Some(7), None, None, 0, "", "", "", Indexed, false)]
  }

  function OldMount(): MountRows {
    map[1 := MountRow(7, 2, "/m", map[], true)]
  }

  lemma MountedRowsAreLinked()
    ensures Linked(MountedRows())
  {
    TreeRuns.OnlyTheRoot(map[], 1);
    var one: Nodes := map[1 := MetadataVfs.RootNode()];
    assert one == map[][1 := MetadataVfs.RootNode()];
    assert ChildPath("/", "m") == "/m" && ChildPath("/m", "d") == "/m/d" && CleanSegment("m") && CleanSegment("d");
    var two := one[2 := MountedRows()[2]];
    PutChildKeepsLinked(one, 1, 2, MountedRows()[2]);
    assert forall k :: !LiveAt(two, k, "/m/d");
    PutChildKeepsLinked(two, 2, 3, MountedRows()[3]);
    assert MountedRows() == two[3 := MountedRows()[3]];
  }

  lemma ThreeRows()
    ensures LiveAt(MountedRows(), 1, "/") && LiveAt(MountedRows(), 2, "/m") && LiveAt(MountedRows(), 3, "/m/d")
    ensures MountedRows()[3].mountID == Some(1) && MountedRows()[1].kind == Root
    ensures forall k :: !LiveAt(MountedRows(), k, "/n")
  {
  }

  lemma ShortPath(name: string)
    requires CleanSegment(name) && !HasDotDot(name)
    ensures IsCanonical("/" + name) && NormalizeVirtualPath("/" + name) == Ok("/" + name)
    ensures Segments("/" + name) == [name]
  {
    OneSegment(name);
    assert Render([name]) == "/" + name by { assert Slashed([name][1..]) == ""; }
    SegmentsOfRender([name]);
  }

  lemma Letters()
    ensures CleanSegment("n") && CleanSegment("m") && CleanSegment("d")
    ensures !HasDotDot("n") && !HasDotDot("m") && !HasDotDot("d")
    ensures "/" + "n" == "/n" && "/" + "m" == "/m" && "/" + "d" == "/d" && "/m" + "/d" == "/m/d"
    ensures "/m" != "/" && "/d" != "/"
  {
  }

  lemma PathsOfTheMove()
    ensures IsCanonical("/n") && IsCanonical("/m") && IsCanonical("/d")
    ensures NormalizeVirtualPath("/n") == Ok("/n") && Segments("/n") == ["n"]
    ensures MergeMountAndInnerPath("/m", "/d") == "/m/d" && IsCanonical("/m/d")
  {
    hide *;
    Letters();
    ShortPath("n");
    ShortPath("m");
    ShortPath("d");
    Mounts.MergeIsConcat("/m", "/d");
    MergedText("/m", "/d");
  }

  lemma MergedText(mount: string, inner: string)
    requires NormalizeVirtualPath(mount) == Ok(mount) && NormalizeVirtualPath(inner) == Ok(inner)
    requires mount != "/" && inner != "/"
    ensures MergeMountAndInnerPath(mount, inner) == mount + inner
  {
  }

  lemma OtherLetter(s: string, prefix: string, i: nat)
    requires i < |prefix| && i < |s| && s[i] != prefix[i]
    ensures !HasPrefix(s, prefix)
  {
  }

  lemma NotInside()
    ensures !IsSubPath("/n", "/m/d") && ChildPath("/", "n") == "/n"
  {
    PathsOfTheMove();
    CanonicalIsFixpoint("/m/d");
    OtherLetter("/m/d", "/n" + "/", 1);
    hide NormalizeVirtualPath, IsCanonical, Segments, MergeMountAndInnerPath;
    assert "/m/d" != "/n" && "/n" != "/" && "/n" + "/" == "/n/";
  }

  /** The old mount row and the old nodes do not stand in the way of the new mount. */
  lemma MayMoveOn()
    ensures MayMount(MountedRows(), OldMount(), 7, "/n")
  {
    WalkIsFree();
    PathsOfTheMove();
    MountedRowsAreLinked();
    ThreeRows();
    OneOldMount();
    hide MountPrepared, IsCanonical, Linked, MountedRows, OldMount, PathReusable;
    MountNodeStands(MountedRows(), OldMount(), 7, "/n");
    WalkKeepsRows(MountedRows(), OldMount(), 7, "/n");
  }

  lemma OneOldMount()
    ensures PathReusable(OldMount(), 7, "/n")
    ensures forall m | m in OldMount() :: m == 1 && OldMount()[m].nodeID == 2 && OldMount()[m].mountPath == "/m"
  {
  }

  lemma WalkIsFree()
    ensures MountPrepared(MountedRows(), OldMount(), 7, "/n").Some?
  {
    hide MountPolicy, Sound, Linked, IsCanonical, Segments, NormalizeVirtualPath, MergeMountAndInnerPath, IsSubPath,
         MountedRows, ChildPath, CleanSegment, OldMount, RowAt, RootedNodes, HasDotDot;
    var p := MountPolicy(7, "/n", OldMount());
    MountPolicyIsSound(7, "/n", OldMount());
    MountedRowsAreLinked();
    ThreeRows();
    RootedAtOne();
    PathsOfTheMove();
    NotInside();
    Letters();
    assert ["n"][1..] == [] && CleanSegments(["n"]);
    ChainFailsIffBlocked(p, MountedRows(), 1, ["n"]);
  }

  lemma RootedAtOne()
    ensures RootedNodes(MountedRows()) == (MountedRows(), 1)
  {
    MountedRowsAreLinked();
    ThreeRows();
    hide MountedRows, NodeOk;
    RowAtIs(MountedRows(), 1, "/");
  }

  /** The services, asked for it: the sync goes through; then a refresh of "/m/d" asks for "/d", where the metadata
      service sees no path at all. */
  method RefreshAfterMove(rootLocator: (Mounts.Source, string, string) -> Json)
    returns (synced: Result<(Id, Id)>, asked: Result<string>, known: Result<string>)
    ensures synced.Ok? && asked == Ok("/d") && known == Err(PathInvalid)
  {
    hide *;
    var store := new MetadataStore();
    var table := new MountStore();
    store.nodes, table.mounts := MountedRows(), OldMount();
    var service := new MetadataVFSMountService(store, table, rootLocator);
    BeforeMove();
    synced := service.SyncSourceMount(Moved());
    AfterMove(store.nodes, table.mounts, rootLocator(Moved(), "/n", "/"), synced.value.0, synced.value.1);
    var row := table.FindMountForSyncTarget(3, store.nodes[3]);
    asked := RefreshService.RemoteParentPath(store.nodes[3], if row.Some? then Some(table.mounts[row.value].mountPath)
                                                             else None, Moved());
    known := Locators.MetadataNodeInnerPath(map[7 := Moved()], 7, store.nodes[3].path);
  }

  lemma BeforeMove()
    ensures Ready(MountedRows()) && UniqueMounts(OldMount()) && MayMount(MountedRows(), OldMount(), 7, "/n")
    ensures PathReusable(OldMount(), 7, "/n")
    ensures Moved().id == 7 && Moved().isEnabled && NormalizeVirtualPath(Moved().mountPath) == Ok("/n")
    ensures NormalizeVirtualPath(Moved().rootPath) == Ok("/")
  {
    MountedRowsAreLinked();
    MayMoveOn();
    PathsOfTheMove();
    OneOldMount();
    InnerPaths.RootIsCanonical();
    hide Linked, NormalizeVirtualPath, MayMount, PathReusable, MountedRows;
  }

  lemma AfterMove(nodes: Nodes, mounts: MountRows, locator: Json, node: Id, mountID: Id)
    requires Synced(MountedRows(), OldMount(), nodes, mounts, 7, true, "/n", locator, node, mountID)
    ensures 3 in nodes && UniqueMounts(mounts)
    ensures RefreshService.RemoteParentPath(nodes[3], MountPathFor(mounts, 3, nodes[3]), Moved()) == Ok("/d")
    ensures Locators.MetadataNodeInnerPath(map[7 := Moved()], 7, nodes[3].path) == Err(PathInvalid)
  {
    hide *;
    BeforeMove();
    MovedFacts();
    PathsOfTheMove();
    SyncKeepsTheTables(MountedRows(), OldMount(), nodes, mounts, 7, true, "/n", locator, node, mountID);
    OldMountIsStillNamed(MountedRows(), OldMount(), nodes, mounts, 7, true, "/n", locator, node, mountID, 1, 3);
    OldMountAnswers(nodes[3]);
    NewMountAnswers();
  }

  lemma MovedFacts()
    ensures Live(MountedRows(), 3) && MountedRows()[3].mountID == Some(1) && MountedRows()[3].path == "/m/d" != "/n"
    ensures 1 in OldMount() && OldMount()[1].mountPath == "/m" != "/n" && OneEnabledMount(OldMount())
  {
  }

  lemma OldMountAnswers(target: Node)
    requires target.path == "/m/d"
    ensures RefreshService.RemoteParentPath(target, Some("/m"), Moved()) == Ok("/d")
  {
    PathsOfTheMove();
    CanonicalIsFixpoint("/m");
    hide NormalizeVirtualPath, IsCanonical, RefreshService.RemoteParentPath, MergeMountAndInnerPath;
    InnerPaths.RefreshAnswers(Moved(), target, Some("/m"), "/d");
  }

  lemma NewMountAnswers()
    ensures Locators.MetadataNodeInnerPath(map[7 := Moved()], 7, "/m/d") == Err(PathInvalid)
  {
    PathsOfTheMove();
    NotInside();
    CanonicalIsFixpoint("/m/d");
    assert TrimSpace("/n") == "/n";
    hide NormalizeVirtualPath, IsCanonical, IsSubPath, TrimSpace;
  }
}
