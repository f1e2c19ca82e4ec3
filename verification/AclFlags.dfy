/** Access decisions spelled out: which rules count for which action, and whom a decision depends on. */
module AclFlags {
  import opened Common
  import opened Text
  import opened Paths
  import opened Store
  import opened Tree
  import opened Acl
  import AclTree
  import DirChains

  // ---- One flag for each action ---------------------------------------------------------------

  /** Without the flag of the action nobody is allowed anything. */
  lemma NoFlagNoAccess(e: AclEvaluator, query: Query)
    ensures query.action == ReadAction && (forall rule | rule in e.rules :: !rule.read) ==> !e.Decision(query)
    ensures query.action == WriteAction && (forall rule | rule in e.rules :: !rule.write) ==> !e.Decision(query)
    ensures query.action == DeleteAction && (forall rule | rule in e.rules :: !rule.delete) ==> !e.Decision(query)
    ensures query.action == ShareAction && (forall rule | rule in e.rules :: !rule.share) ==> !e.Decision(query)
  {
    hide RuleMatchesTarget, TrimSpace, Acl.AclEvaluator.Decision;
    DecisionSpelledOut(e, query);
  }

  /** The lists differ at most in the flags of the three other actions. */
  predicate SameButFlags(rules: seq<Rule>, others: seq<Rule>, action: Action) {
    |rules| == |others| && forall i | 0 <= i < |rules| ::
      others[i] == match action
                   case ReadAction => rules[i].(write := others[i].write, delete := others[i].delete,
                                                share := others[i].share)
                   case WriteAction => rules[i].(read := others[i].read, delete := others[i].delete,
                                                 share := others[i].share)
                   case DeleteAction => rules[i].(read := others[i].read, write := others[i].write,
                                                  share := others[i].share)
                   case ShareAction => rules[i].(read := others[i].read, write := others[i].write,
                                                 delete := others[i].delete)
  }

  /** The flags of the other actions do not matter. */
  lemma OtherFlagsDoNotMatter(e: AclEvaluator, f: AclEvaluator, query: Query)
    requires e.reader == f.reader && SameButFlags(e.rules, f.rules, query.action)
    ensures e.Decision(query) == f.Decision(query)
  {
    hide TrimSpace, Acl.AclEvaluator.Decision, Opens, SameButFlags;
    DecisionSpelledOut(e, query);
    DecisionSpelledOut(f, query);
    OpenAlike(e.reader, e.rules, f.rules, query);
  }

  lemma OpenAlike(reader: Option<Nodes>, rules: seq<Rule>, others: seq<Rule>, query: Query)
    requires SameButFlags(rules, others, query.action)
    ensures forall i :: Opens(reader, rules, query, i) <==> Opens(reader, others, query, i)
  {
    hide TrimSpace;
    forall i | 0 <= i < |rules|
      ensures Concerns(reader, query, rules[i]) <==> Concerns(reader, query, others[i])
      ensures others[i].effect == rules[i].effect && others[i].priority == rules[i].priority
    {
      FlagsAndTargets(reader, query, rules[i], others[i]);
    }
    hide Concerns;
  }

  lemma FlagsAndTargets(reader: Option<Nodes>, query: Query, rule: Rule, other: Rule)
    requires other == rule.(read := other.read, write := other.write, delete := other.delete, share := other.share)
    ensures RuleMatchesTarget(reader, rule, query.targetPath, query.targetVirtualPath, query.target)
            == RuleMatchesTarget(reader, other, query.targetPath, query.targetVirtualPath, query.target)
  {
    hide TrimSpace, IsSubPath;
  }

  /** One rule that concerns the question decides it alone. */
  lemma OnlyRuleDecides(e: AclEvaluator, query: Query, i: nat)
    requires i < |e.rules| && Concerns(e.reader, query, e.rules[i])
    requires forall j | 0 <= j < |e.rules| && j != i :: !Concerns(e.reader, query, e.rules[j])
    ensures e.Decision(query) <==> TrimSpace(e.rules[i].effect) == "allow"
  {
    hide TrimSpace, Acl.AclEvaluator.Decision, Concerns;
    DecisionSpelledOut(e, query);
    assert Opens(e.reader, e.rules, query, i) <==> TrimSpace(e.rules[i].effect) == "allow";
  }

  /** A rule of somebody else, or for a group, never counts. */
  lemma OnlyTheUsersRulesCount(e: AclEvaluator, query: Query)
    requires forall rule | rule in e.rules :: rule.subjectType != "user" || rule.subjectID != query.userID
    ensures !e.Decision(query)
  {
    hide TrimSpace, Acl.AclEvaluator.Decision, RuleMatchesTarget;
    DecisionSpelledOut(e, query);
  }

  // ---- What a rule is about -------------------------------------------------------------------

  /** Without a node the rule's own path decides, by segments: the virtual path if it has one, else the path in the
      source. */
  lemma PathRuleCovers(reader: Option<Nodes>, rule: Rule, targetPath: string, targetVirtualPath: string,
                       target: Option<Entry>)
    requires rule.vfsNodeID == None || reader == None
    requires IsCanonical(targetPath) && IsCanonical(targetVirtualPath)
    ensures TrimSpace(rule.virtualPath) != "" && IsCanonical(TrimSpace(rule.virtualPath)) ==>
              (RuleMatchesTarget(reader, rule, targetPath, targetVirtualPath, target) <==>
                 if rule.inheritToChildren
                 then Segments(TrimSpace(rule.virtualPath)) <= Segments(targetVirtualPath)
                 else TrimSpace(rule.virtualPath) == targetVirtualPath)
    ensures TrimSpace(rule.virtualPath) == "" && IsCanonical(TrimSpace(rule.path)) ==>
              (RuleMatchesTarget(reader, rule, targetPath, targetVirtualPath, target) <==>
                 if rule.inheritToChildren then Segments(TrimSpace(rule.path)) <= Segments(targetPath)
                 else TrimSpace(rule.path) == targetPath)
  {
    var bound, own := TrimSpace(rule.virtualPath), TrimSpace(rule.path);
    if IsCanonical(bound) { PrefixOfSegments(bound, targetVirtualPath); }
    if IsCanonical(own) { PrefixOfSegments(own, targetPath); }
    hide TrimSpace, IsCanonical, Segments, TrimSuffixSlash;
  }

  lemma PrefixOfSegments(base: string, path: string)
    requires IsCanonical(base) && IsCanonical(path)
    ensures Segments(base) <= Segments(path) <==>
              base == path || (if base == "/" then HasPrefix(path, "/")
                               else HasPrefix(path, TrimSuffixSlash(base) + "/"))
  {
    SubPathIsSegmentPrefix(base, path);
    NoSlashAtTheEnd(base);
    hide IsSubPath, Segments, HasDotDot, Clean;
  }

  lemma NoSlashAtTheEnd(path: string)
    requires IsCanonical(path)
    ensures path != "/" ==> TrimSuffixSlash(path) == path
  {
    DirChains.CanonicalIsRooted(path);
  }

  /** A rule bound to a node covers that node and, if it inherits, its descendants by parent pointer; bound to a row
      that is gone it covers nothing. */
  lemma NodeRuleCovers(nodes: Nodes, rule: Rule, targetPath: string, target: Id)
    requires Linked(nodes) && Live(nodes, target) && !HasDotDot(nodes[target].path) && rule.vfsNodeID.Some?
    ensures
      var ruleNode := rule.vfsNodeID.value;
      var matches' := RuleMatchesTarget(Some(nodes), rule, targetPath, nodes[target].path,
                                        Some(Entry(target, nodes[target])));
      if ruleNode == 0 || !Live(nodes, ruleNode) then !matches'
      else !HasDotDot(nodes[ruleNode].path) ==>
             (matches' <==> if rule.inheritToChildren then InSubtree(nodes, ruleNode, target)
                            else ruleNode == target)
  {
    var ruleNode := rule.vfsNodeID.value;
    hide IsSubPath, RuleMatchesPath, RuleMatchesNodePath, HasDotDot, Linked, InSubtree, RuleMatchesNode;
    if Live(nodes, ruleNode) && !HasDotDot(nodes[ruleNode].path) {
      AclTree.BoundRuleCoversSubtree(nodes, rule, ruleNode, target);
    }
  }
}
