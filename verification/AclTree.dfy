/** Access and the tree: when renaming changes nobody's access, and when moving changes it only across the subtree. */
module AclTree {
  import opened Common
  import opened Text
  import opened Paths
  import opened Store
  import opened Tree
  import opened Rewrite
  import opened Acl
  import MetadataVfs

  /** Between stored paths `isSubPath` is "at or below", unless a ".." hides the path. */
  lemma StoredSubPath(nodes: Nodes, a: Id, b: Id)
    requires Linked(nodes) && Live(nodes, a) && Live(nodes, b)
    ensures IsSubPath(nodes[a].path, nodes[b].path) <==>
              !HasDotDot(nodes[a].path) && !HasDotDot(nodes[b].path) && InSubtree(nodes, a, b)
  {
    StoredPathIsClean(nodes, a);
    StoredPathIsClean(nodes, b);
    PathIndexAgrees(nodes, a, b);
    SubPathIsSegmentPrefix(nodes[a].path, nodes[b].path);
  }

  /** Matching by node id and matching by the target's path come to the same on a linked tree. */
  lemma NodeAndPathMatchingAgree(nodes: Nodes, rule: Rule, ruleNode: Id, target: Id)
    requires Linked(nodes) && Live(nodes, ruleNode) && Live(nodes, target)
    ensures RuleMatchesNode(rule, Entry(ruleNode, nodes[ruleNode]), Entry(target, nodes[target])) <==>
            RuleMatchesNodePath(rule, Entry(ruleNode, nodes[ruleNode]), nodes[target].path)
  {
    hide IsSubPath;
  }

  /** A rule bound to a node covers exactly that node and, if it inherits, its descendants by parent
      pointer (as long as no ".." hides their paths). */
  lemma BoundRuleCoversSubtree(nodes: Nodes, rule: Rule, ruleNode: Id, target: Id)
    requires Linked(nodes) && Live(nodes, ruleNode) && Live(nodes, target)
    requires !HasDotDot(nodes[ruleNode].path) && !HasDotDot(nodes[target].path)
    ensures RuleMatchesNode(rule, Entry(ruleNode, nodes[ruleNode]), Entry(target, nodes[target])) <==>
            if rule.inheritToChildren then InSubtree(nodes, ruleNode, target) else ruleNode == target
  {
    StoredSubPath(nodes, ruleNode, target);
    hide IsSubPath;
  }

  // ---- Rewrites -------------------------------------------------------------------------------

  /** Rewriting a row neither introduces nor removes a "..", and its path stays clean. */
  lemma DotDotIsKept(nodes: Nodes, id: Id, newParent: Id, newName: string, newPath: string, k: Id)
    requires CanRewrite(nodes, id, newParent, newName, newPath) && !IsBlank(nodes[id].name) && Live(nodes, k)
    requires !HasDotDot(nodes[id].path) && !HasDotDot(newPath)
    ensures
      var after := RewriteNodes(nodes, id, newParent, newName, newPath);
      (HasDotDot(after[k].path) <==> HasDotDot(nodes[k].path)) && IsClean(after[k].path)
  {
    StoredPathIsClean(nodes, k);
    if Selected(nodes, nodes[id].path, k) {
      SelectedPath(nodes, id, newParent, newName, newPath, k);
      SelectedPathIsClean(nodes, id, newParent, newName, newPath, k);
      hide CanRewrite, Rooted, AtOrBelow, IsClean;
      SameDots(nodes[id].path, newPath, nodes[k].path, TakesUpAt(nodes[id]));
    }
  }

  lemma SameDots(p: string, newPath: string, x: string, cut: nat)
    requires cut <= |p| && cut <= |x| && x[..cut] == p[..cut] && (x[cut..] == "" || x[cut..][0] == '/')
    requires !HasDotDot(p) && !HasDotDot(newPath)
    ensures HasDotDot(newPath + x[cut..]) <==> HasDotDot(x)
  {
    DotDotOfConcat(x[..cut], x[cut..]);
    DotDotOfConcat(newPath, x[cut..]);
    DotDotOfConcat(p[..cut], p[cut..]);
    hide HasDotDot;
    assert x == x[..cut] + x[cut..] && p == p[..cut] + p[cut..];
  }

  /** `isSubPath` between two nodes, before and after. */
  lemma SubPathIsKept(nodes: Nodes, id: Id, newParent: Id, newName: string, newPath: string, a: Id, b: Id)
    requires CanRewrite(nodes, id, newParent, newName, newPath) && !IsBlank(nodes[id].name)
    requires !HasDotDot(nodes[id].path) && !HasDotDot(newPath)
    requires Live(nodes, a) && Live(nodes, b)
    requires Selected(nodes, nodes[id].path, a) || !Selected(nodes, nodes[id].path, b)
             || nodes[id].parentID == Some(newParent) || Selected(nodes, nodes[id].path, newParent)
    ensures
      var after := RewriteNodes(nodes, id, newParent, newName, newPath);
      IsSubPath(after[a].path, after[b].path) <==> IsSubPath(nodes[a].path, nodes[b].path)
  {
    var after := RewriteNodes(nodes, id, newParent, newName, newPath);
    DotDotIsKept(nodes, id, newParent, newName, newPath, a);
    DotDotIsKept(nodes, id, newParent, newName, newPath, b);
    SelectedContainment(nodes, id, newParent, newName, newPath, a, b);
    StoredPathIsClean(nodes, a);
    StoredPathIsClean(nodes, b);
    hide CanRewrite, RewriteNodes, Linked, IsClean, AtOrBelow, HasDotDot, IsSubPath;
    SubPathIsSegmentPrefix(nodes[a].path, nodes[b].path);
    SubPathIsSegmentPrefix(after[a].path, after[b].path);
  }

  /** The evaluator's question about live node `target`, asked of the given tables. */
  function AboutNode(nodes: Nodes, userID: Id, targetPath: string, target: Id, action: Action): Query
    requires target in nodes
  {
    Query(userID, targetPath, nodes[target].path, Some(Entry(target, nodes[target])), action)
  }

  /** What the evaluator decides about a live node. */
  ghost predicate DecisionOn(nodes: Nodes, rules: seq<Rule>, userID: Id, targetPath: string, target: Id, action: Action)
    requires target in nodes
  {
    Allowed(rules, rule => Applies(Some(nodes), AboutNode(nodes, userID, targetPath, target, action), rule))
  }

  /** Every rule is bound to a node, and to one of these. */
  ghost predicate BoundTo(rules: seq<Rule>, bound: iset<Id>) {
    forall rule | rule in rules :: rule.vfsNodeID.Some? && rule.vfsNodeID.value in bound
  }

  /** Whatever the rules bound to these nodes, whoever asks for whatever: the decision about the target is the same. */
  ghost predicate SameDecisions(nodes: Nodes, after: Nodes, bound: iset<Id>, target: Id)
    requires target in nodes && target in after
  {
    forall rules: seq<Rule>, userID: Id, targetPath: string, targetPath': string,
      action: Action | BoundTo(rules, bound) ::
      DecisionOn(after, rules, userID, targetPath', target, action)
        == DecisionOn(nodes, rules, userID, targetPath, target, action)
  }

  /** A node covers another before and after, or neither time. */
  ghost predicate CoversAlike(nodes: Nodes, after: Nodes, a: Id, target: Id)
    requires target in nodes && target in after
  {
    && (Live(after, a) <==> Live(nodes, a))
    && (Live(nodes, a) ==> (IsSubPath(after[a].path, after[target].path)
                            <==> IsSubPath(nodes[a].path, nodes[target].path)))
  }

  /** Matching a node-bound rule only looks at which nodes are live and which contain which. */
  lemma MatchingIsKept(nodes: Nodes, after: Nodes, rule: Rule, userID: Id, targetPath: string, targetPath': string,
                       target: Id, action: Action)
    requires target in nodes && target in after && rule.vfsNodeID.Some?
    requires CoversAlike(nodes, after, rule.vfsNodeID.value, target)
    ensures Applies(Some(after), AboutNode(after, userID, targetPath', target, action), rule) <==>
            Applies(Some(nodes), AboutNode(nodes, userID, targetPath, target, action), rule)
  {
    hide IsSubPath, RuleMatchesPath, RuleMatchesNodePath;
  }

  lemma SameApplicationSameDecision(rules: seq<Rule>, f: Rule -> bool, g: Rule -> bool)
    requires forall rule | rule in rules :: f(rule) == g(rule)
    ensures Allowed(rules, f) == Allowed(rules, g)
  {
    hide Denies, Grants;
    forall rule | rule in rules ensures IsTop(rules, f, rule) == IsTop(rules, g, rule) {
    }
  }

  /** The same coverage means the same decisions. */
  lemma CoverageDecides(nodes: Nodes, after: Nodes, bound: iset<Id>, target: Id)
    requires target in nodes && target in after && forall a | a in bound :: CoversAlike(nodes, after, a, target)
    ensures SameDecisions(nodes, after, bound, target)
  {
    hide CoversAlike, Applies, Allowed, AboutNode;
    forall rules: seq<Rule>, userID: Id, targetPath: string, targetPath': string, action: Action | BoundTo(rules, bound)
      ensures DecisionOn(after, rules, userID, targetPath', target, action)
              == DecisionOn(nodes, rules, userID, targetPath, target, action)
    {
      var f := rule => Applies(Some(after), AboutNode(after, userID, targetPath', target, action), rule);
      var g := rule => Applies(Some(nodes), AboutNode(nodes, userID, targetPath, target, action), rule);
      forall rule | rule in rules ensures f(rule) == g(rule) {
        MatchingIsKept(nodes, after, rule, userID, targetPath, targetPath', target, action);
      }
      SameApplicationSameDecision(rules, f, g);
    }
  }

  /** One inheriting rule for user 1 that allows everything at and below a node. */
  function AllowBelow(a: Id): Rule {
    Rule(1, 0, Some(a), "", "", "user", 1, "allow", 0, true, true, true, true, true)
  }

  lemma OneRuleDecides(nodes: Nodes, a: Id, targetPath: string, target: Id, action: Action)
    requires target in nodes
    ensures DecisionOn(nodes, [AllowBelow(a)], 1, targetPath, target, action) <==>
            a != 0 && Live(nodes, a) && (a == target || IsSubPath(nodes[a].path, nodes[target].path))
  {
    var rule := AllowBelow(a);
    assert TrimSpace("allow") == "allow";
    assert [rule][0] == rule && rule in [rule];
    hide IsSubPath, TrimSpace;
    var f := (r: Rule) => Applies(Some(nodes), AboutNode(nodes, 1, targetPath, target, action), r);
    assert f(rule) <==> a != 0 && Live(nodes, a) && (a == target || IsSubPath(nodes[a].path, nodes[target].path));
    assert f(rule) <==> IsTop([rule], f, rule);
  }

  /** Where the coverage differs, a rule shows it. */
  lemma CoverageShows(nodes: Nodes, after: Nodes, bound: iset<Id>, a: Id, target: Id)
    requires target in nodes && target in after && a in bound && a != 0 && a != target
    requires Live(nodes, a) && Live(after, a)
    requires IsSubPath(after[a].path, after[target].path) != IsSubPath(nodes[a].path, nodes[target].path)
    ensures !SameDecisions(nodes, after, bound, target)
  {
    OneRuleDecides(nodes, a, "", target, ReadAction);
    OneRuleDecides(after, a, "", target, ReadAction);
    hide IsSubPath, DecisionOn;
    assert BoundTo([AllowBelow(a)], bound);
    assert DecisionOn(after, [AllowBelow(a)], 1, "", target, ReadAction)
           != DecisionOn(nodes, [AllowBelow(a)], 1, "", target, ReadAction);
  }

  /** The rewrite keeps what a node covers, unless it stays, the target is moved, and they come below another parent. */
  lemma CoverageIsKept(nodes: Nodes, id: Id, newParent: Id, newName: string, newPath: string, a: Id, target: Id)
    requires CanRewrite(nodes, id, newParent, newName, newPath) && !IsBlank(nodes[id].name)
    requires !HasDotDot(nodes[id].path) && !HasDotDot(newPath) && Live(nodes, target)
    requires Live(nodes, a) && !Selected(nodes, nodes[id].path, a) && Selected(nodes, nodes[id].path, target) ==>
               nodes[id].parentID == Some(newParent) || Selected(nodes, nodes[id].path, newParent)
    ensures
      var after := RewriteNodes(nodes, id, newParent, newName, newPath);
      target in after && CoversAlike(nodes, after, a, target)
  {
    MetadataVfs.LiveAfterRewrite(nodes, id, newParent, newName, newPath);
    var after := RewriteNodes(nodes, id, newParent, newName, newPath);
    assert Live(after, a) <==> Live(nodes, a);
    assert Live(after, target) <==> Live(nodes, target);
    hide IsSubPath, CanRewrite, RewriteNodes, HasDotDot, IsBlank, MatchesPrefixQuery;
    if Live(nodes, a) { SubPathIsKept(nodes, id, newParent, newName, newPath, a, target); }
  }

  /** A name that is all white space: the old parent is rewritten to below the new path of the node. */
  lemma BlankCoversItsParent(nodes: Nodes, id: Id, newParent: Id, newName: string, newPath: string)
    requires CanRewrite(nodes, id, newParent, newName, newPath) && IsBlank(nodes[id].name)
    requires !HasDotDot(nodes[id].path) && IsClean(newPath) && !HasDotDot(newPath)
    ensures
      var after, u := RewriteNodes(nodes, id, newParent, newName, newPath), nodes[id].parentID.value;
      && Live(nodes, u) && Live(after, u) && Live(after, id) && u != id && nodes[u].parentID != Some(id)
      && IsSubPath(after[id].path, after[u].path) && !IsSubPath(nodes[id].path, nodes[u].path)
      && !AtOrBelow(nodes[id].path, nodes[u].path)
  {
    var u := nodes[id].parentID.value;
    var p, parent := nodes[id].path, nodes[u].path;
    QueryOfNode(nodes, id);
    ParentIsShorter(nodes, id);
    assert NodeOk(nodes, u) && NodeOk(nodes, id);
    assert Selected(nodes, p, id) && Selected(nodes, p, u);
    ShorterIsNotBelow(p, parent);
    StoredPathIsClean(nodes, id);
    StoredPathIsClean(nodes, u);
    NewPathIsRooted(nodes, id, newParent, newName, newPath);
    assert RewriteSubtreePath(parent, p, newPath) == newPath + parent;
    if nodes[u].parentID == Some(id) { ParentIsShorter(nodes, u); }
    SubPathIsSegmentPrefix(p, parent);
    hide CanRewrite, Linked, NodeOk, QueryPrefix;
    MetadataVfs.NoDotsAbove(parent, nodes[id].name);
    CoversItsExtension(newPath, parent);
  }

  lemma CoversItsExtension(a: string, b: string)
    requires IsClean(a) && !HasDotDot(a) && a != "/" && Rooted(a) && IsClean(b) && !HasDotDot(b) && Rooted(b)
    ensures IsSubPath(a, a + b)
  {
    CanonicalIsFixpoint(a);
    if b == "/" {
      CleanOfTrailingSlash(a);
      assert a != "" && HasPrefix(a + "/", "/");
      SubPathIsPartialOrder(a, a, a);
      hide Clean;
      assert NormalizeVirtualPath(a + "/") == Ok(a);
    } else {
      CleanConcat(a, b);
      DotDotOfConcat(a, b);
      CanonicalIsFixpoint(a + b);
      hide HasDotDot, IsClean, Clean;
      assert (a + b)[..|a| + 1] == a + "/";
    }
  }

  // ---- Renaming and moving --------------------------------------------------------------------

  predicate AnyId(k: Id) { true }

  ghost function Everywhere(): iset<Id> { iset k: Id | AnyId(k) }

  /** The nodes of a subtree; a rule bound to a dead node never applies. */
  ghost function Within(nodes: Nodes, id: Id): iset<Id>
    requires Linked(nodes)
  {
    iset k: Id | Live(nodes, k) ==> InSubtree(nodes, id, k)
  }

  /** A rename that rewrites anything changes no decision about any live node, whatever rules are bound to nodes, if and
      only if the old name is not all white space. (Ids start at 1.) */
  lemma RenameKeepsEveryDecisionIff(nodes: Nodes, path: string, newName: string, id: Id)
    requires Linked(nodes) && 0 !in nodes && MetadataVfs.RenamePlan(nodes, path, newName, id)
    ensures
      var parent := nodes[id].parentID.value;
      var after := RewriteNodes(nodes, id, parent, newName, ChildPath(nodes[parent].path, newName));
      after.Keys == nodes.Keys &&
      ((forall target | Live(nodes, target) :: SameDecisions(nodes, after, Everywhere(), target))
       <==> !IsBlank(nodes[id].name))
  {
    MetadataVfs.RenamePlanCanRewrite(nodes, path, newName, id);
    var parent := nodes[id].parentID.value;
    var newPath := ChildPath(nodes[parent].path, newName);
    var after := RewriteNodes(nodes, id, parent, newName, newPath);
    MetadataVfs.ChildOfStored(nodes, parent, newName);
    RequestHasNoDots(nodes, path, id);
    assert after.Keys == nodes.Keys;
    hide CanRewrite, RewriteNodes, NormalizeVirtualPath, HasDotDot, SameDecisions, CoversAlike, Linked, IsBlank,
         IsClean, ChildPath, IsSubPath;
    if IsBlank(nodes[id].name) {
      BlankCoversItsParent(nodes, id, parent, newName, newPath);
      CoverageShows(nodes, after, Everywhere(), id, parent);
    } else {
      forall target | Live(nodes, target) ensures SameDecisions(nodes, after, Everywhere(), target) {
        forall a | a in Everywhere() ensures CoversAlike(nodes, after, a, target) {
          CoverageIsKept(nodes, id, parent, newName, newPath, a, target);
        }
        CoverageDecides(nodes, after, Everywhere(), target);
      }
    }
  }

  lemma RequestHasNoDots(nodes: Nodes, path: string, id: Id)
    requires MetadataVfs.Resolves(nodes, path, id)
    ensures !HasDotDot(nodes[id].path)
  {
  }

  /** The query of the move takes rows of the moved subtree only, or it takes rows that do not change what lies above
      them: those at and below the trimmed prefix of a name that is not all white space, moved to below themselves, or
      none. */
  ghost predicate MovesWithin(nodes: Nodes, id: Id, newParent: Id)
    requires id in nodes
  {
    || !EndsInSpace(nodes[id].path)
    || (!IsBlank(nodes[id].name)
        && (Selected(nodes, nodes[id].path, newParent) || forall k :: !Selected(nodes, nodes[id].path, k)))
  }

  lemma OnStoredPaths(a: string, b: string)
    requires IsClean(a) && IsClean(b) && !HasDotDot(a) && !HasDotDot(b)
    ensures IsSubPath(a, b) <==> AtOrBelow(a, b)
  {
    SubPathIsSegmentPrefix(a, b);
  }

  lemma SubPathIsAbove(a: string, b: string)
    requires IsClean(a) && IsClean(b) && IsSubPath(a, b)
    ensures AtOrBelow(a, b)
  {
    SubPathIsSegmentPrefix(a, b);
  }

  /** The neighbour at the trimmed prefix comes below another parent: the old parent covered it, or the new one does
      now. */
  lemma NeighbourChangesParent(nodes: Nodes, id: Id, newParent: Id, newName: string, newPath: string, v: Id)
    returns (a: Id)
    requires CanRewrite(nodes, id, newParent, newName, newPath) && MissesItself(nodes[id])
    requires LiveAt(nodes, v, QueryPrefix(nodes[id].path)) && !Selected(nodes, nodes[id].path, newParent)
    requires nodes[id].parentID != Some(newParent)
    requires !HasDotDot(nodes[id].path) && !HasDotDot(newPath) && !HasDotDot(nodes[newParent].path)
    ensures
      var after := RewriteNodes(nodes, id, newParent, newName, newPath);
      && Live(nodes, a) && Live(after, a) && v in after && a != v
      && IsSubPath(after[a].path, after[v].path) != IsSubPath(nodes[a].path, nodes[v].path)
  {
    var u := nodes[id].parentID.value;
    var after := RewriteNodes(nodes, id, newParent, newName, newPath);
    QueryOfNode(nodes, id);
    MissedSelection(nodes, id);
    assert Linked(nodes) && NodeOk(nodes, id) && NodeOk(nodes, u) && NodeOk(nodes, newParent);
    var parent, target, q := nodes[u].path, nodes[newParent].path, QueryPrefix(nodes[id].path);
    assert Selected(nodes, nodes[id].path, v) by { assert AtOrBelow(q, q); }
    ShorterIsNotBelow(q, parent);
    assert !Selected(nodes, nodes[id].path, u);
    StayerAboveMissed(nodes, id, newParent, newName, newPath, u, v);
    StayerAboveMissed(nodes, id, newParent, newName, newPath, newParent, v);
    assert AtOrBelow(parent, parent) && AtOrBelow(target, target);
    a := if AtOrBelow(target, parent) then u else newParent;
    assert AtOrBelow(target, parent) && AtOrBelow(parent, target) ==> u == newParent by {
      if AtOrBelow(target, parent) && AtOrBelow(parent, target) { SamePath(target, parent); }
    }
    assert AtOrBelow(nodes[a].path, newPath + q) != AtOrBelow(nodes[a].path, q);
    DotDotIsKept(nodes, id, newParent, newName, newPath, v);
    StoredPathIsClean(nodes, v);
    StoredPathIsClean(nodes, a);
    MetadataVfs.NoDotsAbove(parent, nodes[id].name);
    PrefixHasNoDots(nodes[id].path, q);
    hide CanRewrite, HasDotDot, IsClean, AtOrBelow, IsSubPath, MatchesPrefixQuery, QueryPrefix, NodeOk, Linked;
    OnStoredPaths(nodes[a].path, nodes[v].path);
    OnStoredPaths(after[a].path, after[v].path);
  }

  lemma SamePath(a: string, b: string)
    requires Rooted(a) && Rooted(b) && AtOrBelow(a, b) && AtOrBelow(b, a)
    ensures a == b
  {
  }

  lemma PrefixHasNoDots(p: string, q: string)
    requires !HasDotDot(p) && q <= p
    ensures !HasDotDot(q)
  {
    DotDotOfConcat(q, p[|q|..]);
    assert p == q + p[|q|..];
  }

  /** What lies in the subtree of a node the query misses covers no row the query takes, before or after. */
  lemma MissedSubtreeCoversNone(nodes: Nodes, id: Id, newParent: Id, newName: string, newPath: string, a: Id, b: Id)
    requires CanRewrite(nodes, id, newParent, newName, newPath) && MissesItself(nodes[id])
    requires !HasDotDot(nodes[id].path) && !HasDotDot(newPath)
    requires Live(nodes, a) && AtOrBelow(nodes[id].path, nodes[a].path) && !Selected(nodes, nodes[id].path, a)
    requires Live(nodes, b) && Selected(nodes, nodes[id].path, b)
    ensures b in RewriteNodes(nodes, id, newParent, newName, newPath)
    ensures CoversAlike(nodes, RewriteNodes(nodes, id, newParent, newName, newPath), a, b)
  {
    var after := RewriteNodes(nodes, id, newParent, newName, newPath);
    var u := nodes[id].parentID.value;
    LiveIsRooted(nodes, a);
    LiveIsRooted(nodes, id);
    LiveIsRooted(nodes, newParent);
    ParentIsShorter(nodes, id);
    LiveIsRooted(nodes, u);
    StayerAboveMissed(nodes, id, newParent, newName, newPath, a, b);
    NotAboveShorter(nodes[id].path, nodes[a].path, nodes[u].path);
    if AtOrBelow(nodes[a].path, nodes[newParent].path) {
      AtOrBelowTransitive(nodes[id].path, nodes[a].path, nodes[newParent].path);
    }
    StoredPathIsClean(nodes, a);
    StoredPathIsClean(nodes, b);
    DotDotIsKept(nodes, id, newParent, newName, newPath, b);
    assert after[a] == nodes[a];
    hide CanRewrite, HasDotDot, IsClean, AtOrBelow, IsSubPath, MatchesPrefixQuery, QueryPrefix, Linked;
    if IsSubPath(nodes[a].path, nodes[b].path) { SubPathIsAbove(nodes[a].path, nodes[b].path); }
    if IsSubPath(after[a].path, after[b].path) { SubPathIsAbove(after[a].path, after[b].path); }
  }

  lemma NotAboveShorter(p: string, a: string, parent: string)
    requires Rooted(p) && Rooted(a) && Rooted(parent) && AtOrBelow(p, a) && |parent| < |p|
    ensures !AtOrBelow(a, parent)
  {
  }

  /** The plan of a move, as a rewrite without "..". */
  lemma MoveIsRewrite(nodes: Nodes, path: string, targetParentPath: string, id: Id, newParent: Id)
    requires Linked(nodes) && MetadataVfs.MovePlan(nodes, path, targetParentPath, id, newParent)
    ensures
      var newPath := ChildPath(nodes[newParent].path, nodes[id].name);
      && CanRewrite(nodes, id, newParent, nodes[id].name, newPath) && IsClean(newPath) && !HasDotDot(newPath)
      && !HasDotDot(nodes[id].path) && !HasDotDot(nodes[newParent].path) && nodes[id].parentID != Some(newParent)
  {
    MetadataVfs.MovePlanCanRewrite(nodes, path, targetParentPath, id, newParent);
    assert NodeOk(nodes, id);
    MetadataVfs.ChildOfStored(nodes, newParent, nodes[id].name);
    RequestHasNoDots(nodes, path, id);
    RequestHasNoDots(nodes, targetParentPath, newParent);
  }

  /** A move that rewrites anything changes no decision about nodes outside the moved subtree, whatever rules are bound
      to nodes, if and only if it moves within; and none at all under rules bound inside the subtree if and only if the
      name is not all white space. (Ids start at 1.) */
  lemma MoveKeepsDecisionsIff(nodes: Nodes, path: string, targetParentPath: string, id: Id, newParent: Id)
    requires Linked(nodes) && 0 !in nodes && MetadataVfs.MovePlan(nodes, path, targetParentPath, id, newParent)
    ensures
      var after := RewriteNodes(nodes, id, newParent, nodes[id].name, ChildPath(nodes[newParent].path, nodes[id].name));
      && after.Keys == nodes.Keys
      && ((forall target | Live(nodes, target) && !InSubtree(nodes, id, target) ::
           SameDecisions(nodes, after, Everywhere(), target))
          <==> MovesWithin(nodes, id, newParent))
      && ((forall target | Live(nodes, target) :: SameDecisions(nodes, after, Within(nodes, id), target))
          <==> !IsBlank(nodes[id].name))
  {
    var newPath := ChildPath(nodes[newParent].path, nodes[id].name);
    var after := RewriteNodes(nodes, id, newParent, nodes[id].name, newPath);
    MoveIsRewrite(nodes, path, targetParentPath, id, newParent);
    assert after.Keys == nodes.Keys && id in nodes;
    hide *;
    if IsBlank(nodes[id].name) {
      BlankMoveShows(nodes, id, newParent, newPath);
    } else {
      MoveOutside(nodes, id, newParent, newPath);
      MoveInside(nodes, id, newParent, newPath);
    }
  }

  lemma BlankMoveShows(nodes: Nodes, id: Id, newParent: Id, newPath: string)
    requires id in nodes && CanRewrite(nodes, id, newParent, nodes[id].name, newPath) && 0 !in nodes
             && IsBlank(nodes[id].name)
    requires !HasDotDot(nodes[id].path) && IsClean(newPath) && !HasDotDot(newPath)
    ensures
      var after, u := RewriteNodes(nodes, id, newParent, nodes[id].name, newPath), nodes[id].parentID.value;
      && Live(nodes, u) && u in after && !InSubtree(nodes, id, u) && !MovesWithin(nodes, id, newParent)
      && !SameDecisions(nodes, after, Everywhere(), u) && !SameDecisions(nodes, after, Within(nodes, id), u)
  {
    var after, u := RewriteNodes(nodes, id, newParent, nodes[id].name, newPath), nodes[id].parentID.value;
    QueryOfNode(nodes, id);
    BlankCoversItsParent(nodes, id, newParent, nodes[id].name, newPath);
    PathIndexAgrees(nodes, id, u);
    assert Live(nodes, id) && InSubtree(nodes, id, id);
    hide RewriteNodes, SameDecisions, IsSubPath, CanRewrite;
    CoverageShows(nodes, after, Everywhere(), id, u);
    CoverageShows(nodes, after, Within(nodes, id), id, u);
  }

  lemma MoveOutside(nodes: Nodes, id: Id, newParent: Id, newPath: string)
    requires id in nodes && CanRewrite(nodes, id, newParent, nodes[id].name, newPath) && 0 !in nodes
             && !IsBlank(nodes[id].name)
    requires !HasDotDot(nodes[id].path) && !HasDotDot(newPath) && !HasDotDot(nodes[newParent].path)
    requires nodes[id].parentID != Some(newParent)
    ensures
      var after := RewriteNodes(nodes, id, newParent, nodes[id].name, newPath);
      && after.Keys == nodes.Keys && Linked(nodes)
      && ((forall target | Live(nodes, target) && !InSubtree(nodes, id, target) ::
           SameDecisions(nodes, after, Everywhere(), target))
          <==> MovesWithin(nodes, id, newParent))
  {
    var after := RewriteNodes(nodes, id, newParent, nodes[id].name, newPath);
    LinkedOf(nodes, id, newParent, nodes[id].name, newPath);
    assert after.Keys == nodes.Keys;
    if MovesWithin(nodes, id, newParent) {
      forall target | Live(nodes, target) && !InSubtree(nodes, id, target)
        ensures SameDecisions(nodes, after, Everywhere(), target) {
        OutsideStaysOutside(nodes, id, newParent, target);
        hide *;
        forall a | a in Everywhere() ensures CoversAlike(nodes, after, a, target) {
          CoverageIsKept(nodes, id, newParent, nodes[id].name, newPath, a, target);
        }
        CoverageDecides(nodes, after, Everywhere(), target);
      }
    } else {
      var k :| Selected(nodes, nodes[id].path, k);
      var v := NeighbourOf(nodes, id, k);
      var a := NeighbourChangesParent(nodes, id, newParent, nodes[id].name, newPath, v);
      assert a != 0 && AnyId(a);
      hide RewriteNodes, SameDecisions, IsSubPath, CanRewrite, Linked;
      CoverageShows(nodes, after, Everywhere(), a, v);
    }
  }

  lemma OutsideStaysOutside(nodes: Nodes, id: Id, newParent: Id, target: Id)
    requires Linked(nodes) && Live(nodes, id) && nodes[id].parentID.Some? && MovesWithin(nodes, id, newParent)
    requires Live(nodes, target) && !InSubtree(nodes, id, target)
    ensures Selected(nodes, nodes[id].path, target) ==> Selected(nodes, nodes[id].path, newParent)
  {
    PathIndexAgrees(nodes, id, target);
    if !EndsInSpace(nodes[id].path) {
      LiveIsRooted(nodes, id);
      TrimShrinks(nodes[id].path);
      TidySelection(nodes, id);
    }
  }

  /** The row at the trimmed prefix, which the query takes if it takes any; it is not in the node's subtree. */
  lemma NeighbourOf(nodes: Nodes, id: Id, k: Id) returns (v: Id)
    requires Linked(nodes) && Live(nodes, id) && nodes[id].parentID.Some? && MissesItself(nodes[id])
    requires Selected(nodes, nodes[id].path, k)
    ensures LiveAt(nodes, v, QueryPrefix(nodes[id].path)) && !InSubtree(nodes, id, v)
  {
    MissedSelection(nodes, id);
    QueryOfNode(nodes, id);
    AncestorIsLive(nodes, k, QueryPrefix(nodes[id].path));
    v :| LiveAt(nodes, v, QueryPrefix(nodes[id].path));
    PathIndexAgrees(nodes, id, v);
    LiveIsRooted(nodes, id);
    assert |QueryPrefix(nodes[id].path)| < |nodes[id].path|;
    ShorterIsNotBelow(nodes[id].path, QueryPrefix(nodes[id].path));
  }

  lemma MoveInside(nodes: Nodes, id: Id, newParent: Id, newPath: string)
    requires id in nodes && CanRewrite(nodes, id, newParent, nodes[id].name, newPath) && !IsBlank(nodes[id].name)
    requires !HasDotDot(nodes[id].path) && !HasDotDot(newPath)
    ensures
      var after := RewriteNodes(nodes, id, newParent, nodes[id].name, newPath);
      && after.Keys == nodes.Keys && Linked(nodes)
      && forall target | Live(nodes, target) :: SameDecisions(nodes, after, Within(nodes, id), target)
  {
    var after := RewriteNodes(nodes, id, newParent, nodes[id].name, newPath);
    LinkedOf(nodes, id, newParent, nodes[id].name, newPath);
    assert after.Keys == nodes.Keys;
    forall target | Live(nodes, target) ensures SameDecisions(nodes, after, Within(nodes, id), target) {
      forall a | a in Within(nodes, id) ensures CoversAlike(nodes, after, a, target) {
        InsideCoversAlike(nodes, id, newParent, newPath, a, target);
      }
      hide *;
      CoverageDecides(nodes, after, Within(nodes, id), target);
    }
  }

  lemma InsideCoversAlike(nodes: Nodes, id: Id, newParent: Id, newPath: string, a: Id, target: Id)
    requires id in nodes && CanRewrite(nodes, id, newParent, nodes[id].name, newPath) && !IsBlank(nodes[id].name)
    requires !HasDotDot(nodes[id].path) && !HasDotDot(newPath) && Live(nodes, target)
    requires Live(nodes, a) ==> InSubtree(nodes, id, a)
    ensures
      var after := RewriteNodes(nodes, id, newParent, nodes[id].name, newPath);
      target in after && CoversAlike(nodes, after, a, target)
  {
    if Live(nodes, a) && !Selected(nodes, nodes[id].path, a) && Selected(nodes, nodes[id].path, target) {
      PathIndexAgrees(nodes, id, a);
      if !EndsInSpace(nodes[id].path) {
        LiveIsRooted(nodes, id);
        TrimShrinks(nodes[id].path);
        TidySelection(nodes, id);
        assert false;
      } else {
        MissedSubtreeCoversNone(nodes, id, newParent, nodes[id].name, newPath, a, target);
      }
    } else {
      CoverageIsKept(nodes, id, newParent, nodes[id].name, newPath, a, target);
    }
  }
}
