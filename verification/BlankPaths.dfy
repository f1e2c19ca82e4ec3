/** A directory whose name ends in a blank: what the repository's trimmed prefix does to its neighbour. */
module BlankPaths {
  import opened Common
  import opened Text
  import opened Paths
  import opened Store
  import opened Tree
  import opened Rewrite
  import opened MetadataVfs
  import opened TreeRuns
  import opened Locators
  import opened Repositories
  import opened Acl
  import opened AclTree

  function Directory(parent: Id, name: string, path: string): Node {
    Node(Some(parent), name, path, VirtualDir, None, None, None, None, None, 0, "", "", "", Indexed, false)
  }

  /** "/a " with a child, and beside it "/a" with a child. */
  function Neighbours(): Nodes {
    map[1 := RootNode(), 2 := Directory(1, "a ", "/a "), 3 := Directory(2, "c", "/a /c"),
        4 := Directory(1, "a", "/a"), 5 := Directory(4, "x", "/a/x")]
  }

  lemma NeighboursAreWellFormed()
    ensures WellFormed(Neighbours())
  {
    var nodes := Neighbours();
    OnlyFive();
    RootNeighbour();
    DirectoryNeighbour(2, 1, "a ");
    DirectoryNeighbour(3, 2, "c");
    DirectoryNeighbour(4, 1, "a");
    DirectoryNeighbour(5, 4, "x");
    PathsDiffer();
    hide NodeOk, Neighbours;
  }

  lemma OnlyFive()
    ensures forall k :: Live(Neighbours(), k) <==> k == 1 || k == 2 || k == 3 || k == 4 || k == 5
    ensures forall k | Live(Neighbours(), k) :: IsDirectory(Neighbours()[k])
    ensures HasRoot(Neighbours())
    ensures forall k: Id | Live(Neighbours(), k) && Neighbours()[k].parentID.Some? ::
            Live(Neighbours(), Neighbours()[k].parentID.value)
  {
    var nodes := Neighbours();
    assert Live(nodes, 1) && nodes[1].parentID == None;
  }

  lemma RootNeighbour()
    ensures Live(Neighbours(), 1) && NodeOk(Neighbours(), 1)
  {
  }

  lemma DirectoryNeighbour(k: Id, parent: Id, name: string)
    requires (k, parent, name) in {(2, 1, "a "), (3, 2, "c"), (4, 1, "a"), (5, 4, "x")}
    ensures Live(Neighbours(), k) && NodeOk(Neighbours(), k)
  {
    Children();
    hide ChildPath;
    var n := Neighbours()[k];
    assert n.parentID == Some(parent) && n.name == name && n.kind == VirtualDir;
    assert '/' !in name;
  }

  lemma PathsDiffer()
    ensures forall a, b | Live(Neighbours(), a) && Live(Neighbours(), b)
            && Neighbours()[a].path == Neighbours()[b].path :: a == b
  {
    var nodes := Neighbours();
    assert |nodes[1].path| == 1 && |nodes[4].path| == 2 && |nodes[2].path| == 3 && |nodes[5].path| == 4
           && |nodes[3].path| == 5;
  }

  lemma Children()
    ensures ChildPath("/", "a ") == "/a " && ChildPath("/a ", "c") == "/a /c" && ChildPath("/", "a") == "/a"
            && ChildPath("/a", "x") == "/a/x"
    ensures ChildPath("/", "b") == "/b"
  {
  }

  /** "/a " names its own row, but the repository queries "/a". */
  lemma BlankPath()
    ensures NormalizeVirtualPath("/a ") == Ok("/a ") && QueryPrefix("/a ") == "/a" && !TidyRequest("/a ")
  {
    OneSegment("a ");
    assert "/" + "a " == "/a ";
    var s := "/a ";
    assert TrimLeftSpace(s) == s && TrimRightSpace(s) == TrimRightSpace(s[..2]) == "/a";
    assert TrimRightSlash("/a") == "/a";
  }

  lemma BlankResolves()
    ensures Resolves(Neighbours(), "/a ", 2)
  {
    BlankPath();
    hide NormalizeVirtualPath;
  }

  /** What the delete query for "/a " matches. */
  lemma WhatIsDeleted()
    ensures MatchesDeleteQuery("/a ", "/a ") && MatchesDeleteQuery("/a ", "/a/x")
    ensures !MatchesDeleteQuery("/a ", "/a /c") && !MatchesDeleteQuery("/a ", "/a") && !MatchesDeleteQuery("/a ", "/")
  {
    BlankPath();
    hide QueryPrefix, NormalizeVirtualPath, TidyRequest;
    assert "/a /c"[2] == ' ' && "/a/x"[2] == '/' && ("/a" + "/")[2] == '/';
    assert HasPrefix("/a/x", "/a" + "/") by { assert "/a/x"[..3] == "/a/"; }
  }

  /** Deleting "/a " is accepted; it leaves its child without a parent and takes the neighbour's child. */
  lemma DeleteLeavesAnOrphan()
    ensures DeletePlan(Neighbours(), "/a ", 2)
    ensures
      var after := DeleteNodes(Neighbours(), "/a ");
      && !Live(after, 2) && Live(after, 3) && after[3].parentID == Some(2)
      && Live(after, 4) && !Live(after, 5) && !Linked(after)
  {
    BlankResolves();
    WhatIsDeleted();
    hide Resolves, MatchesDeleteQuery, NormalizeVirtualPath;
    hide Linked;
    OrphanUnlinks(DeleteNodes(Neighbours(), "/a "), 3, 2);
  }

  lemma OrphanUnlinks(nodes: Nodes, k: Id, parent: Id)
    requires Live(nodes, k) && nodes[k].parentID == Some(parent) && !Live(nodes, parent)
    ensures !Linked(nodes)
  {
    assert !NodeOk(nodes, k);
  }

  /** Renaming "/a " to "b" is planned; the row itself stays where it is, and the neighbour goes below "/b". */
  lemma RenameMovesTheNeighbour()
    ensures RenamePlan(Neighbours(), "/a ", "b", 2) && CanRewrite(Neighbours(), 2, 1, "b", "/b")
    ensures Selected(Neighbours(), "/a ", 4) && !Selected(Neighbours(), "/a ", 2)
    ensures
      var after := RewriteNodes(Neighbours(), 2, 1, "b", "/b");
      after[2] == Neighbours()[2] && after[4].path == "/b/a" && after[5].path == "/b/a/x" && !Linked(after)
  {
    BlankPath();
    RenameIsPlanned();
    WhatIsSelected();
    NewPaths();
    hide NormalizeVirtualPath, QueryPrefix, RenamePlan, CanRewrite, Linked, Selected, RewriteSubtreePath;
    UntidyRewriteBreaksTheIndex(Neighbours(), 2, 1, "b", "/b");
  }

  lemma WhatIsSelected()
    ensures Selected(Neighbours(), "/a ", 4) && Selected(Neighbours(), "/a ", 5) && !Selected(Neighbours(), "/a ", 2)
    ensures Neighbours()[4].path == "/a" && Neighbours()[5].path == "/a/x"
  {
    BlankPath();
    hide QueryPrefix, NormalizeVirtualPath, TidyRequest;
    assert HasPrefix("/a/x", "/a" + "/") by { assert "/a/x"[..3] == "/a/"; }
    assert "/a "[2] == ' ' && ("/a" + "/")[2] == '/';
  }

  lemma RenameIsPlanned()
    ensures RenamePlan(Neighbours(), "/a ", "b", 2) && CanRewrite(Neighbours(), 2, 1, "b", "/b")
  {
    BlankResolves();
    NeighboursAreWellFormed();
    Children();
    NewPaths();
    assert Linked(Neighbours());
    OnlyFive();
    BIsFree();
    hide NormalizeVirtualPath, Resolves, Linked, WellFormed, ChildPath, HasDotDot;
    RenamePlanCanRewrite(Neighbours(), "/a ", "b", 2);
  }

  lemma BIsFree()
    ensures forall k :: !LiveAt(Neighbours(), k, "/b")
  {
  }

  lemma NewPaths()
    ensures RewriteSubtreePath("/a", "/a ", "/b") == "/b/a" && RewriteSubtreePath("/a/x", "/a ", "/b") == "/b/a/x"
    ensures !HasDotDot("/b")
  {
    assert "/a/x"[2] == '/' && "/a "[2] == ' ';
    assert !HasPrefix("/a", "/a ") && !HasPrefix("/a/x", "/a ");
    assert "/b" + "/a" == "/b/a" && "/b" + "/a/x" == "/b/a/x";
  }

  lemma BlankMissesItself()
    ensures MissesItself(Neighbours()[2])
  {
    assert !IsSpace("a "[0]);
  }

  /** The service itself, asked for that rename: it answers with an error, and the tables have changed. */
  method RenameFailsAndChanges() returns (service: MetadataVFSService, r: Result<(string, Id)>)
    ensures r.Err? && fresh(service) && service.store.objects == map[]
    ensures service.store.nodes == RewriteNodes(Neighbours(), 2, 1, "b", "/b") != Neighbours()
  {
    hide *;
    var store := new MetadataStore();
    store.nodes := Neighbours();
    service := new MetadataVFSService(store, map[]);
    RenameMovesTheNeighbour();
    NeighboursAreReady();
    NoFiles();
    r := service.Rename("/a ", "b");
    RenameOnly(service.store.nodes, service.store.objects, r.Err?);
  }

  lemma NeighboursAreReady()
    ensures Ready(Neighbours()) && Linked(Neighbours())
    ensures MissesItself(Neighbours()[2]) && !IsBlank(Neighbours()[2].name)
  {
    NeighboursAreWellFormed();
    BlankMissesItself();
  }

  /** What the contract of `Rename` leaves. */
  lemma RenameOnly(nodes: Nodes, objects: Objects, err: bool)
    requires forall id :: RenamePlan(Neighbours(), "/a ", "b", id) ==>
               (nodes != Neighbours() <==> (exists k :: Selected(Neighbours(), Neighbours()[id].path, k))
                                           && RenamePlacesFree(Neighbours(), map[], map[], "b", id))
    requires (nodes == Neighbours() && objects == map[])
             || exists id, k ::
                  && Renamed(Neighbours(), map[], nodes, objects, map[], "/a ", "b", id)
                  && Selected(Neighbours(), Neighbours()[id].path, k) && (err <==> MissesItself(Neighbours()[id]))
    ensures err && objects == map[] && nodes == RewriteNodes(Neighbours(), 2, 1, "b", "/b") && nodes != Neighbours()
  {
    RenameMovesTheNeighbour();
    NeighboursAreReady();
    RenameIsFree();
    BlankResolves();
    OnlyOneResolves(Neighbours(), "/a ", 2);
    hide *;
    NoFiles();
    RenameNeedsLocators(Neighbours(), map[], map[], "/a ", "b", 2);
    assert nodes != Neighbours();
    var id, k :| Renamed(Neighbours(), map[], nodes, objects, map[], "/a ", "b", id)
                 && Selected(Neighbours(), Neighbours()[id].path, k) && (err <==> MissesItself(Neighbours()[id]));
    OnlyNodeTwo(nodes, objects, id);
  }

  lemma RenameIsFree()
    ensures 2 in Neighbours() && Neighbours()[2].parentID == Some(1) && Neighbours()[2].path == "/a "
    ensures 1 in Neighbours() && Neighbours()[1].path == "/"
    ensures RenameLocatorsFree(Neighbours(), map[], map[], "b", 2)
  {
    NoFiles();
    Children();
    assert Neighbours()[2] == Directory(1, "a ", "/a ") && Neighbours()[1].path == "/";
    hide LocatorsFree, RewriteNodes, ChildPath;
  }

  lemma OnlyNodeTwo(nodes: Nodes, objects: Objects, id: Id)
    requires Renamed(Neighbours(), map[], nodes, objects, map[], "/a ", "b", id)
    ensures id == 2 && objects == map[] && nodes == RewriteNodes(Neighbours(), 2, 1, "b", "/b")
  {
    hide RewriteNodes, ChildPath, Neighbours, Resolves, NameIsFree, Linked, Ready;
    NeighboursAreReady();
    BlankResolves();
    assert Resolves(Neighbours(), "/a ", id);
    OnlyOneResolves(Neighbours(), "/a ", 2);
    Children();
    RenameIsFree();
    assert objects.Keys == {};
  }

  lemma NoFiles()
    ensures LocatorsAgree(Neighbours(), map[], map[])
    ensures LocatorsFree(Neighbours(), RewriteNodes(Neighbours(), 2, 1, "b", "/b"), MovedRows(Neighbours(), 2), map[],
                         map[])
  {
    hide Neighbours;
  }

  // ---- Access ---------------------------------------------------------------------------------

  /** "/x" with a child whose name is a single blank. */
  function BlankChild(): Nodes {
    map[1 := RootNode(), 2 := Directory(1, "x", "/x"), 3 := Directory(2, " ", "/x/ ")]
  }

  lemma BlankChildIsLinked()
    ensures Linked(BlankChild()) && 0 !in BlankChild()
  {
    OnlyTheRoot(map[], 1);
    var one: Nodes := map[1 := RootNode()];
    assert one == map[][1 := RootNode()];
    assert ChildPath("/", "x") == "/x" && ChildPath("/x", " ") == "/x/ ";
    var two := one[2 := Directory(1, "x", "/x")];
    PutChildKeepsLinked(one, 1, 2, Directory(1, "x", "/x"));
    assert forall k :: !LiveAt(two, k, "/x/ ");
    PutChildKeepsLinked(two, 2, 3, Directory(2, " ", "/x/ "));
    assert BlankChild() == two[3 := Directory(2, " ", "/x/ ")];
  }

  lemma BlankChildPaths()
    ensures IsCanonical("/x") && IsCanonical("/x/ ") && IsCanonical("/x/b") && IsClean("/x/b/x") && !HasDotDot("/x/b/x")
    ensures NormalizeVirtualPath("/x/ ") == Ok("/x/ ")
  {
    NoDots();
    ChildPathIsJoin("/x", " ");
    ChildPathIsJoin("/x", "b");
    ChildPathIsJoin("/x/b", "x");
    assert ChildPath("/x", " ") == "/x/ " && ChildPath("/x", "b") == "/x/b" && ChildPath("/x/b", "x") == "/x/b/x";
    assert "/" + "x" == "/x" && CleanSegment("x") && CleanSegment(" ") && CleanSegment("b");
    hide HasDotDot, JoinVirtualPath, CleanSegment, Clean;
    OneSegment("x");
    JoinIsRender("/x", " ");
    JoinIsRender("/x", "b");
    JoinIsRender("/x/b", "x");
    CanonicalIsFixpoint("/x/ ");
  }

  lemma NoDots()
    ensures !HasDotDot("x") && !HasDotDot("/x/ ") && !HasDotDot("/x/b") && !HasDotDot("/x/b/x")
  {
  }

  /** Renaming that child to "b" is planned, and takes "/x" to below the child: a rule that allows everything below "/x"
      allowed the child before and does not afterwards. */
  lemma RenameTakesAccess()
    ensures Linked(BlankChild()) && RenamePlan(BlankChild(), "/x/ ", "b", 3)
    ensures
      var after := RewriteNodes(BlankChild(), 3, 2, "b", "/x/b");
      && 2 in after && 3 in after && after[2].path == "/x/b/x" && after[3].path == "/x/b"
      && 3 in BlankChild() && DecisionOn(BlankChild(), [AllowBelow(2)], 1, "", 3, ReadAction)
      && !DecisionOn(after, [AllowBelow(2)], 1, "", 3, ReadAction)
  {
    BlankChildIsLinked();
    BlankChildPlan();
    BlankChildRewrite();
    BlankChildCover();
    assert Live(BlankChild(), 2) && BlankChild()[2].path == "/x" && 3 in BlankChild() && BlankChild()[3].path == "/x/ ";
    hide *;
    OneRuleDecides(BlankChild(), 2, "", 3, ReadAction);
    OneRuleDecides(RewriteNodes(BlankChild(), 3, 2, "b", "/x/b"), 2, "", 3, ReadAction);
  }

  lemma BlankChildPlan()
    ensures RenamePlan(BlankChild(), "/x/ ", "b", 3)
  {
    hide NormalizeVirtualPath, HasDotDot, IsClean, ChildPath, BlankChild, ValidName, LiveAt;
    BlankChildPaths();
    BlankChildRows();
    BlankChildNames();
    NoDots();
  }

  lemma BlankChildRows()
    ensures 3 in BlankChild() && BlankChild()[3] == Directory(2, " ", "/x/ ") && LiveAt(BlankChild(), 3, "/x/ ")
    ensures 2 in BlankChild() && BlankChild()[2].path == "/x" && forall k :: !LiveAt(BlankChild(), k, "/x/b")
  {
  }

  lemma BlankChildNames()
    ensures ChildPath("/x", "b") == "/x/b" && ValidName("b") && " " != "b"
  {
  }

  lemma BlankChildCover()
    ensures IsSubPath("/x", "/x/ ") && !IsSubPath("/x/b/x", "/x/b")
  {
    BlankChildPaths();
    assert !HasDotDot("/x") && !HasDotDot("/x/ ") && !HasDotDot("/x/b");
    assert HasPrefix("/x/ ", "/x" + "/") by { assert "/x/ "[..3] == "/x/"; }
    hide HasDotDot, IsClean, IsSubPath, NormalizeVirtualPath;
    OnStoredPaths("/x", "/x/ ");
    OnStoredPaths("/x/b/x", "/x/b");
  }

  lemma BlankChildRewrite()
    ensures
      var after := RewriteNodes(BlankChild(), 3, 2, "b", "/x/b");
      2 in after && 3 in after && Live(after, 2) && after[2].path == "/x/b/x" && after[3].path == "/x/b"
  {
    BlankChildIsLinked();
    QueryOfNode(BlankChild(), 3);
    assert Selected(BlankChild(), "/x/ ", 2) && Selected(BlankChild(), "/x/ ", 3);
    assert !HasPrefix("/x", "/x/ ") && "/x/b" + "/x" == "/x/b/x";
  }

  /** With a child "x" of its own, that rename is refused: "/x" and the child would get the same path. */
  function BlankPair(): Nodes {
    BlankChild()[4 := Directory(3, "x", "/x/ /x")]
  }

  lemma BlankRenameIsRefused()
    ensures Linked(BlankPair()) && RenamePlan(BlankPair(), "/x/ ", "b", 3)
    ensures !RenamePlacesFree(BlankPair(), map[], map[], "b", 3)
  {
    BlankPairIsLinked();
    BlankPairPlan();
    BlankPairRewrite();
    hide *;
    TwoOnOnePath(BlankPair(), RewriteNodes(BlankPair(), 3, 2, "b", "/x/b"), MovedRows(BlankPair(), 3), 2, 4);
    PlacesOfRename(BlankPair(), 3, 2, "b", "/x/b");
  }

  lemma TwoOnOnePath(nodes: Nodes, after: Nodes, moved: set<Id>, k: Id, j: Id)
    requires moved <= nodes.Keys && moved <= after.Keys && k in moved && j in moved && k != j
    requires after[k].path == after[j].path
    ensures !PlacesFree(nodes, after, moved, map[], map[])
  {
  }

  lemma PlacesOfRename(nodes: Nodes, id: Id, parent: Id, newName: string, newPath: string)
    requires id in nodes && parent in nodes && nodes[id].parentID == Some(parent)
    requires newPath == ChildPath(nodes[parent].path, newName)
    ensures RenamePlacesFree(nodes, map[], map[], newName, id) <==>
            PlacesFree(nodes, RewriteNodes(nodes, id, parent, newName, newPath), MovedRows(nodes, id), map[], map[])
  {
  }

  lemma BlankPairIsLinked()
    ensures Linked(BlankPair())
  {
    BlankChildIsLinked();
    BlankChildRows();
    assert ChildPath("/x/ ", "x") == "/x/ /x" && 4 !in BlankChild() && CleanSegment("x");
    assert forall k :: !LiveAt(BlankChild(), k, "/x/ /x");
    hide Linked, ChildPath, BlankChild, CleanSegment;
    PutChildKeepsLinked(BlankChild(), 3, 4, Directory(3, "x", "/x/ /x"));
  }

  lemma BlankPairRows()
    ensures 3 in BlankPair() && BlankPair()[3] == Directory(2, " ", "/x/ ") && LiveAt(BlankPair(), 3, "/x/ ")
    ensures 2 in BlankPair() && BlankPair()[2].path == "/x" && forall k :: !LiveAt(BlankPair(), k, "/x/b")
    ensures 4 in BlankPair() && BlankPair()[4].path == "/x/ /x" && Live(BlankPair(), 4) && Live(BlankPair(), 2)
  {
  }

  lemma BlankPairPlan()
    ensures RenamePlan(BlankPair(), "/x/ ", "b", 3)
    ensures 3 in BlankPair() && 2 in BlankPair() && BlankPair()[3].parentID == Some(2)
    ensures "/x/b" == ChildPath(BlankPair()[2].path, "b")
  {
    hide NormalizeVirtualPath, HasDotDot, IsClean, ChildPath, BlankPair, ValidName, LiveAt;
    BlankChildPaths();
    BlankPairRows();
    BlankChildNames();
    NoDots();
  }

  lemma BlankPairRewrite()
    ensures
      var after := RewriteNodes(BlankPair(), 3, 2, "b", "/x/b");
      && 2 in MovedRows(BlankPair(), 3) && 4 in MovedRows(BlankPair(), 3)
      && MovedRows(BlankPair(), 3) <= BlankPair().Keys == after.Keys
      && after[2].path == after[4].path == "/x/b/x"
  {
    BlankPairIsLinked();
    BlankPairRows();
    QueryOfNode(BlankPair(), 3);
    hide BlankPair, Linked, QueryPrefix;
    assert HasPrefix("/x/ /x", "/x" + "/") by { assert "/x/ /x"[..3] == "/x/"; }
    assert IsBlank(" ") && Selected(BlankPair(), "/x/ ", 2) && Selected(BlankPair(), "/x/ ", 4);
    SamePlace();
  }

  lemma SamePlace()
    ensures RewriteSubtreePath("/x", "/x/ ", "/x/b") == RewriteSubtreePath("/x/ /x", "/x/ ", "/x/b") == "/x/b/x"
  {
    assert !HasPrefix("/x", "/x/ ") && "/x/b" + "/x" == "/x/b/x";
    assert "/x/ /x"[..4] == "/x/ " && "/x/ /x"[4..] == "/x";
  }

  /** The neighbours, and a directory "/t" beside them. */
  function WithTarget(): Nodes {
    Neighbours()[6 := Directory(1, "t", "/t")]
  }

  lemma NoNeighbourAtTarget()
    ensures Live(Neighbours(), 1) && Neighbours()[1].path == "/" && 0 !in Neighbours() && 6 !in Neighbours()
    ensures forall k :: !LiveAt(Neighbours(), k, "/t")
  {
  }

  lemma TargetName()
    ensures ChildPath("/", "t") == "/t" && CleanSegment("t")
  {
  }

  lemma WithTargetIsLinked()
    ensures Linked(WithTarget()) && 0 !in WithTarget()
  {
    hide Linked, ChildPath, CleanSegment, Neighbours, Ready, WellFormed;
    NeighboursAreReady();
    NoNeighbourAtTarget();
    TargetName();
    PutChildKeepsLinked(Neighbours(), 1, 6, Directory(1, "t", "/t"));
  }

  lemma TargetPaths()
    ensures IsCanonical("/t") && IsCanonical("/a") && NormalizeVirtualPath("/t") == Ok("/t")
    ensures IsClean("/t/a /a") && !HasDotDot("/t/a /a") && !HasDotDot("/t/a ")
  {
    NoTargetDots();
    ChildPathIsJoin("/t", "a ");
    ChildPathIsJoin("/t/a ", "a");
    assert ChildPath("/t", "a ") == "/t/a " && ChildPath("/t/a ", "a") == "/t/a /a";
    assert "/" + "t" == "/t" && "/" + "a" == "/a" && CleanSegment("t") && CleanSegment("a ") && CleanSegment("a");
    hide HasDotDot, JoinVirtualPath, CleanSegment, Clean;
    OneSegment("t");
    OneSegment("a");
    JoinIsRender("/t", "a ");
    JoinIsRender("/t/a ", "a");
  }

  lemma NoTargetDots()
    ensures !HasDotDot("t") && !HasDotDot("a") && !HasDotDot("/t/a ") && !HasDotDot("/t/a /a")
  {
  }

  /** Moving "/a " below "/t" is planned, and takes its neighbour "/a" there instead: a rule that allows everything
      below "/t" now allows the neighbour. */
  lemma MoveGivesAccess()
    ensures Linked(WithTarget()) && MovePlan(WithTarget(), "/a ", "/t", 2, 6)
    ensures
      var after := RewriteNodes(WithTarget(), 2, 6, "a ", "/t/a ");
      && 2 in after && 4 in after && after[2].path == "/a " && after[4].path == "/t/a /a"
      && 4 in WithTarget() && !DecisionOn(WithTarget(), [AllowBelow(6)], 1, "", 4, ReadAction)
      && DecisionOn(after, [AllowBelow(6)], 1, "", 4, ReadAction)
  {
    hide *;
    WithTargetIsLinked();
    WithTargetPlan();
    WithTargetRewrite();
    TargetCover();
    TargetAndNeighbour();
    OneRuleDecides(WithTarget(), 6, "", 4, ReadAction);
    OneRuleDecides(RewriteNodes(WithTarget(), 2, 6, "a ", "/t/a "), 6, "", 4, ReadAction);
  }

  lemma TargetAndNeighbour()
    ensures 4 in WithTarget() && WithTarget()[4].path == "/a"
    ensures 2 in WithTarget() && Live(WithTarget(), 6) && WithTarget()[6].path == "/t"
  {
  }

  lemma TargetCover()
    ensures !IsSubPath("/t", "/a") && IsSubPath("/t", "/t/a /a")
  {
    TargetPaths();
    assert !HasDotDot("/t") && !HasDotDot("/a");
    assert HasPrefix("/t/a /a", "/t" + "/") by { assert "/t/a /a"[..3] == "/t/"; }
    assert !AtOrBelow("/t", "/a") by { assert |"/a"| < |"/t" + "/"| && "/a"[1] != "/t"[1]; }
    hide HasDotDot, IsClean, IsSubPath, NormalizeVirtualPath;
    OnStoredPaths("/t", "/a");
    OnStoredPaths("/t", "/t/a /a");
  }

  lemma WithTargetPlan()
    ensures MovePlan(WithTarget(), "/a ", "/t", 2, 6)
  {
    hide NormalizeVirtualPath, HasDotDot, QueryPrefix, IsClean, WithTarget, Neighbours, ChildPath, AtOrBelow,
         TidyRequest, LiveAt;
    BlankPath();
    TargetPaths();
    TargetIsFree();
    TargetRows();
  }

  lemma TargetRows()
    ensures LiveAt(WithTarget(), 2, "/a ") && WithTarget()[2] == Directory(1, "a ", "/a ")
    ensures LiveAt(WithTarget(), 6, "/t") && WithTarget()[6] == Directory(1, "t", "/t")
    ensures 2 in WithTarget() && 6 in WithTarget() && !AtOrBelow("/a ", "/t")
  {
    assert |"/t"| < |"/a "|;
  }

  lemma TargetIsFree()
    ensures ChildPath("/t", "a ") == "/t/a " && forall k :: !LiveAt(WithTarget(), k, "/t/a ")
  {
  }

  lemma WithTargetRewrite()
    ensures
      var after := RewriteNodes(WithTarget(), 2, 6, "a ", "/t/a ");
      && 2 in after && 4 in after && 6 in after && Live(after, 6)
      && after[2].path == "/a " && after[4].path == "/t/a /a" && after[6].path == "/t"
  {
    BlankPath();
    hide QueryPrefix, NormalizeVirtualPath, TidyRequest;
    var rows := WithTarget();
    assert "/a "[2] == ' ' && ("/a" + "/")[2] == '/' && "/t"[1] == 't' && ("/a" + "/")[1] == 'a';
    assert Selected(rows, "/a ", 4) && !Selected(rows, "/a ", 2) && !Selected(rows, "/a ", 6);
    assert !HasPrefix("/a", "/a ") && "/t/a " + "/a" == "/t/a /a";
  }
}
