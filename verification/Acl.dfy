/** ACL evaluation: a priority loop with early exit over rules bound to nodes or to paths. */
module Acl {
  import opened Common
  import opened Text
  import opened Paths
  import opened Store

  datatype Action = ReadAction | WriteAction | DeleteAction | ShareAction

  datatype Rule = Rule(id: Id, sourceID: Id, vfsNodeID: Option<Id>, path: string, virtualPath: string,
                       subjectType: string, subjectID: Id, effect: string, priority: int,
                       read: bool, write: bool, delete: bool, share: bool, inheritToChildren: bool)

  /** A node as the read model hands it out. */
  datatype Entry = Entry(id: Id, node: Node)

  // ---- Matching one rule ----------------------------------------------------------------------

  function LookupNode(nodes: Nodes, id: Id): Option<Entry> {
    if id != 0 && Live(nodes, id) then Some(Entry(id, nodes[id])) else None
  }

  predicate RuleContainsAction(rule: Rule, action: Action) {
    match action
    case ReadAction => rule.read
    case WriteAction => rule.write
    case DeleteAction => rule.delete
    case ShareAction => rule.share
  }

  predicate RuleMatchesNode(rule: Rule, ruleNode: Entry, target: Entry) {
    ruleNode.id == target.id || (rule.inheritToChildren && IsSubPath(ruleNode.node.path, target.node.path))
  }

  predicate RuleMatchesNodePath(rule: Rule, ruleNode: Entry, targetVirtualPath: string) {
    || ruleNode.node.path == targetVirtualPath
    || (rule.inheritToChildren && IsSubPath(ruleNode.node.path, targetVirtualPath))
  }

  predicate RuleMatchesPath(rule: Rule, targetPath: string, targetVirtualPath: string) {
    var bound := TrimSpace(rule.virtualPath);
    var rulePath := if bound == "" then TrimSpace(rule.path) else bound;
    var target := if bound == "" then targetPath else targetVirtualPath;
    || rulePath == target
    || (rule.inheritToChildren &&
        if rulePath == "/" then HasPrefix(target, "/") else HasPrefix(target, TrimSuffixSlash(rulePath) + "/"))
  }

  /** `strings.TrimSuffix(s, "/")`. */
  function TrimSuffixSlash(s: string): string {
    if s != "" && s[|s| - 1] == '/' then s[..|s| - 1] else s
  }

  /** `ruleMatchesTarget`; without a read model every rule is matched by its path snapshot. */
  predicate RuleMatchesTarget(reader: Option<Nodes>, rule: Rule, targetPath: string, targetVirtualPath: string,
                              target: Option<Entry>) {
    if rule.vfsNodeID == None || reader == None then RuleMatchesPath(rule, targetPath, targetVirtualPath)
    else
      match LookupNode(reader.value, rule.vfsNodeID.value)
      case None => false
      case Some(ruleNode) =>
        if target.Some? then RuleMatchesNode(rule, ruleNode, target.value)
        else RuleMatchesNodePath(rule, ruleNode, targetVirtualPath)
  }

  /** A question put to the evaluator. */
  datatype Query = Query(userID: Id, targetPath: string, targetVirtualPath: string, target: Option<Entry>,
                         action: Action)

  predicate Applies(reader: Option<Nodes>, query: Query, rule: Rule) {
    && rule.subjectType == "user" && rule.subjectID == query.userID
    && RuleMatchesTarget(reader, rule, query.targetPath, query.targetVirtualPath, query.target)
    && RuleContainsAction(rule, query.action)
  }

  predicate Denies(rule: Rule) { TrimSpace(rule.effect) == "deny" }

  predicate Grants(rule: Rule) { TrimSpace(rule.effect) == "allow" }

  // ---- The declarative rule -------------------------------------------------------------------

  /** The rule applies and no applicable rule has a higher priority. */
  ghost predicate IsTop(rules: seq<Rule>, applies: Rule -> bool, rule: Rule) {
    rule in rules && applies(rule) && forall other | other in rules && applies(other) :: other.priority <= rule.priority
  }

  /** Deny if any top-priority match denies, else allow if one allows. */
  ghost predicate Allowed(rules: seq<Rule>, applies: Rule -> bool) {
    && (exists rule | rule in rules :: IsTop(rules, applies, rule) && Grants(rule))
    && (forall rule | rule in rules && IsTop(rules, applies, rule) :: !Denies(rule))
  }

  predicate SortedByPriority(rules: seq<Rule>) {
    forall i, j | 0 <= i < j < |rules| :: rules[i].priority >= rules[j].priority
  }

  // ---- The evaluator --------------------------------------------------------------------------

  class AclEvaluator {
    const userID: Id
    const rules: seq<Rule>
    const mountPath: string
    const reader: Option<Nodes>
    var nodeCache: map<Id, Option<Entry>>

    constructor (userID: Id, rules: seq<Rule>, mountPath: string, reader: Option<Nodes>)
      ensures this.userID == userID && this.rules == rules && this.mountPath == mountPath && this.reader == reader
      ensures CacheIsCurrent()
    {
      this.userID, this.rules, this.mountPath, this.reader := userID, rules, mountPath, reader;
      nodeCache := map[];
    }

    /** Every cached answer is what the read model would say. */
    ghost predicate CacheIsCurrent()
      reads this
    {
      forall id | id in nodeCache :: reader.Some? && id != 0 && nodeCache[id] == LookupNode(reader.value, id)
    }

    ghost function Decision(query: Query): bool {
      Allowed(rules, rule => Applies(reader, query, rule))
    }

    method ResolveRuleNode(nodeID: Id) returns (r: Option<Entry>)
      requires CacheIsCurrent()
      modifies this`nodeCache
      ensures CacheIsCurrent()
      ensures r == if reader.Some? then LookupNode(reader.value, nodeID) else None
    {
      if reader.None? || nodeID == 0 { return None; }
      if nodeID in nodeCache { return nodeCache[nodeID]; }
      if !Live(reader.value, nodeID) {
        nodeCache := nodeCache[nodeID := None];
        return None;
      }
      r := Some(Entry(nodeID, reader.value[nodeID]));
      nodeCache := nodeCache[nodeID := r];
    }

    method MatchRule(rule: Rule, query: Query) returns (matches': bool)
      requires CacheIsCurrent()
      modifies this`nodeCache
      ensures CacheIsCurrent()
      ensures matches' == RuleMatchesTarget(reader, rule, query.targetPath, query.targetVirtualPath, query.target)
    {
      hide RuleMatchesPath, RuleMatchesNode, RuleMatchesNodePath;
      if rule.vfsNodeID.Some? {
        if reader.None? { return RuleMatchesPath(rule, query.targetPath, query.targetVirtualPath); }
        var ruleNode := ResolveRuleNode(rule.vfsNodeID.value);
        if ruleNode.None? { return false; }
        if query.target.Some? { return RuleMatchesNode(rule, ruleNode.value, query.target.value); }
        return RuleMatchesNodePath(rule, ruleNode.value, query.targetVirtualPath);
      }
      return RuleMatchesPath(rule, query.targetPath, query.targetVirtualPath);
    }

    /** The early-exit loop decides the declarative rule, whatever has been cached before. */
    method AllowTarget(query: Query) returns (allowed: bool)
      requires CacheIsCurrent() && SortedByPriority(rules) && query.userID == userID
      modifies this`nodeCache
      ensures CacheIsCurrent()
      ensures allowed == Decision(query)
      ensures allowed <==> exists i :: Opens(reader, rules, query, i)
    {
      DecisionSpelledOut(this, query);
      hide RuleMatchesTarget, Denies, Grants, RuleContainsAction, IsTop, Opens;
      ghost var applies := rule => Applies(reader, query, rule);
      var matchedPriority: Option<int>, allowMatched := None, false;
      var i := 0;
      while i < |rules|
        invariant 0 <= i <= |rules|
        invariant CacheIsCurrent()
        invariant LoopState(rules, applies, i, matchedPriority, allowMatched)
      {
        var rule := rules[i];
        if rule.subjectType == "user" && rule.subjectID == userID {
          var matches' := MatchRule(rule, query);
          if matches' && RuleContainsAction(rule, query.action) {
            assert applies(rule);
            if matchedPriority.Some? && rule.priority < matchedPriority.value {
              LowerPriorityIsIrrelevant(rules, applies, i, matchedPriority, allowMatched);
              return allowMatched;
            }
            if matchedPriority.None? { matchedPriority := Some(rule.priority); }
            if Denies(rule) {
              TopDenyDecides(rules, applies, i, matchedPriority.value);
              return false;
            }
            if Grants(rule) { allowMatched := true; }
          }
        }
        i := i + 1;
      }
      AllRulesSeen(rules, applies, matchedPriority, allowMatched);
      return allowMatched;
    }

    /** `allowVirtualPathWithNodeID`: node id 0 means "find the node by path". */
    method AllowVirtualPathWithNodeID(virtualPath: string, nodeID: Id, action: Action) returns (r: Result<bool>)
      requires CacheIsCurrent() && SortedByPriority(rules)
      modifies this`nodeCache
      ensures CacheIsCurrent()
      ensures r.Err? <==> NormalizeVirtualPath(virtualPath).Err?
      ensures r.Ok? ==>
                var path := NormalizeVirtualPath(virtualPath).value;
                if OutsideMount(mountPath, path) then r == Ok(false)
                else exists target: Option<Entry> ::
                       && TargetNode(reader, path, nodeID, target)
                       && r == Ok(Decision(Query(userID, MountInnerPath(mountPath, path), path, target, action)))
    {
      hide NormalizeVirtualPath, IsSubPath, Allowed;
      var normalized := NormalizeVirtualPath(virtualPath);
      if normalized.Err? { return Err(PathInvalid); }
      var path := normalized.value;
      var innerPath := path;
      var mount := NormalizeVirtualPath(mountPath);
      if mount.Ok? && mount.value != "/" {
        if !IsSubPath(mount.value, path) { return Ok(false); }
        innerPath := TrimPrefix(path, mount.value);
        if innerPath == "" { innerPath := "/"; }
      }
      var target: Option<Entry> := None;
      if reader.Some? {
        if nodeID != 0 {
          target := ResolveRuleNode(nodeID);
        } else if id :| id in reader.value && LiveAt(reader.value, id, path) {
          target := Some(Entry(id, reader.value[id]));
        }
      }
      assert TargetNode(reader, path, nodeID, target);
      var allowed := AllowTarget(Query(userID, innerPath, path, target, action));
      return Ok(allowed);
    }
  }

  predicate OutsideMount(mountPath: string, path: string) {
    var mount := NormalizeVirtualPath(mountPath);
    mount.Ok? && mount.value != "/" && !IsSubPath(mount.value, path)
  }

  /** The inner path as the authorizer computes it. */
  function MountInnerPath(mountPath: string, path: string): string {
    var mount := NormalizeVirtualPath(mountPath);
    if mount.Ok? && mount.value != "/" then
      var inner := TrimPrefix(path, mount.value);
      if inner == "" then "/" else inner
    else path
  }

  /** The node the target resolves to, by id or by path. */
  ghost predicate TargetNode(reader: Option<Nodes>, path: string, nodeID: Id, target: Option<Entry>) {
    if reader == None then target == None
    else if nodeID != 0 then target == LookupNode(reader.value, nodeID)
    else if target == None then forall id :: !LiveAt(reader.value, id, path)
    else LiveAt(reader.value, target.value.id, path) && target.value.node == reader.value[target.value.id]
  }

  // ---- The loop, half way ---------------------------------------------------------------------

  /** The applicable rules seen so far all have the matched priority, none denies, and `allowMatched`
      says whether one grants. */
  ghost predicate LoopState(rules: seq<Rule>, applies: Rule -> bool, n: nat, matched: Option<int>, allowMatched: bool)
    requires n <= |rules|
  {
    && (forall j | 0 <= j < n && applies(rules[j]) ::
          matched == Some(rules[j].priority) && !Denies(rules[j]) && (Grants(rules[j]) ==> allowMatched))
    && (matched.Some? ==> exists j | 0 <= j < n :: applies(rules[j]))
    && (allowMatched ==> exists j | 0 <= j < n :: applies(rules[j]) && Grants(rules[j]))
  }

  lemma AllRulesSeen(rules: seq<Rule>, applies: Rule -> bool, matched: Option<int>, allowMatched: bool)
    requires LoopState(rules, applies, |rules|, matched, allowMatched)
    ensures allowMatched == Allowed(rules, applies)
  {
    hide Denies, Grants;
    if allowMatched {
      var j :| 0 <= j < |rules| && applies(rules[j]) && Grants(rules[j]);
      assert IsTop(rules, applies, rules[j]);
    }
    if rule :| rule in rules && IsTop(rules, applies, rule) && Grants(rule) {
      var j :| 0 <= j < |rules| && rules[j] == rule;
      assert allowMatched;
    }
  }

  lemma LowerPriorityIsIrrelevant(rules: seq<Rule>, applies: Rule -> bool, n: nat, matched: Option<int>,
                                  allowMatched: bool)
    requires n < |rules| && SortedByPriority(rules)
    requires LoopState(rules, applies, n, matched, allowMatched)
    requires matched.Some? && rules[n].priority < matched.value
    ensures allowMatched == Allowed(rules, applies)
  {
    hide Denies, Grants;
    var w :| 0 <= w < n && applies(rules[w]);
    forall rule | rule in rules
      ensures IsTop(rules, applies, rule) <==> exists j | 0 <= j < n :: rules[j] == rule && applies(rule)
    {
      if IsTop(rules, applies, rule) {
        var j :| 0 <= j < |rules| && rules[j] == rule;
        assert rules[w] in rules;
        assert j < n;
      }
      if j :| 0 <= j < n && rules[j] == rule && applies(rule) {
        forall other | other in rules && applies(other) ensures other.priority <= rule.priority {
          var i :| 0 <= i < |rules| && rules[i] == other;
        }
      }
    }
    if allowMatched {
      var j :| 0 <= j < n && applies(rules[j]) && Grants(rules[j]);
      assert IsTop(rules, applies, rules[j]);
    }
  }

  lemma TopDenyDecides(rules: seq<Rule>, applies: Rule -> bool, n: nat, priority: int)
    requires n < |rules| && SortedByPriority(rules)
    requires applies(rules[n]) && Denies(rules[n]) && rules[n].priority == priority
    requires forall j | 0 <= j < n && applies(rules[j]) :: rules[j].priority == priority
    ensures !Allowed(rules, applies)
  {
    hide Denies, Grants;
    assert IsTop(rules, applies, rules[n]) by {
      forall other | other in rules && applies(other) ensures other.priority <= priority {
        var i :| 0 <= i < |rules| && rules[i] == other;
      }
    }
  }

  // ---- The decision, rule by rule -------------------------------------------------------------

  /** The rule is about this user, this target and this action. */
  predicate Concerns(reader: Option<Nodes>, query: Query, rule: Rule) {
    && rule.subjectType == "user" && rule.subjectID == query.userID
    && RuleMatchesTarget(reader, rule, query.targetPath, query.targetVirtualPath, query.target)
    && (query.action == ReadAction ==> rule.read) && (query.action == WriteAction ==> rule.write)
    && (query.action == DeleteAction ==> rule.delete) && (query.action == ShareAction ==> rule.share)
  }

  /** Rule `i` concerns the question and says "allow", and each other one that does has a lower priority, or the same
      and does not say "deny". */
  predicate Opens(reader: Option<Nodes>, rules: seq<Rule>, query: Query, i: int) {
    && 0 <= i < |rules| && Concerns(reader, query, rules[i]) && TrimSpace(rules[i].effect) == "allow"
    && forall j | 0 <= j < |rules| && Concerns(reader, query, rules[j]) ::
         || rules[j].priority < rules[i].priority
         || (rules[j].priority == rules[i].priority && TrimSpace(rules[j].effect) != "deny")
  }

  /** The evaluator allows exactly if some rule opens the door. */
  lemma DecisionSpelledOut(e: AclEvaluator, query: Query)
    ensures e.Decision(query) <==> exists i :: Opens(e.reader, e.rules, query, i)
  {
    hide Concerns, Applies, TrimSpace, Opens;
    var applies := rule => Applies(e.reader, query, rule);
    forall rule ensures applies(rule) == Concerns(e.reader, query, rule) {
      AppliesIsConcerns(e.reader, query, rule);
    }
    assert e.Decision(query) == Allowed(e.rules, applies);
    if Allowed(e.rules, applies) { AllowedOpens(e.reader, e.rules, query, applies); }
    if i :| Opens(e.reader, e.rules, query, i) { OpensAllows(e.reader, e.rules, query, applies, i); }
  }

  lemma AppliesIsConcerns(reader: Option<Nodes>, query: Query, rule: Rule)
    ensures Applies(reader, query, rule) <==> Concerns(reader, query, rule)
  {
    hide RuleMatchesTarget;
  }

  lemma AllowedOpens(reader: Option<Nodes>, rules: seq<Rule>, query: Query, applies: Rule -> bool)
    requires forall rule :: applies(rule) == Concerns(reader, query, rule)
    requires Allowed(rules, applies)
    ensures exists i :: Opens(reader, rules, query, i)
  {
    hide TrimSpace, Concerns;
    var g :| g in rules && IsTop(rules, applies, g) && Grants(g);
    var i :| 0 <= i < |rules| && rules[i] == g;
    forall j | 0 <= j < |rules| && Concerns(reader, query, rules[j])
      ensures rules[j].priority < g.priority
              || (rules[j].priority == g.priority && TrimSpace(rules[j].effect) != "deny")
    {
      assert applies(rules[j]);
      if rules[j].priority == g.priority { assert IsTop(rules, applies, rules[j]); }
    }
    assert Opens(reader, rules, query, i);
  }

  lemma OpensAllows(reader: Option<Nodes>, rules: seq<Rule>, query: Query, applies: Rule -> bool, i: int)
    requires forall rule :: applies(rule) == Concerns(reader, query, rule)
    requires Opens(reader, rules, query, i)
    ensures Allowed(rules, applies)
  {
    hide TrimSpace, Concerns;
    forall rule | rule in rules && applies(rule) ensures rule.priority <= rules[i].priority {
      var j :| 0 <= j < |rules| && rules[j] == rule;
    }
    assert IsTop(rules, applies, rules[i]) && Grants(rules[i]);
    forall rule | rule in rules && IsTop(rules, applies, rule) ensures !Denies(rule) {
      var j :| 0 <= j < |rules| && rules[j] == rule;
    }
  }

  // ---- What the declarative rule is insensitive to --------------------------------------------

  /** Rules of equal priority may come in any order, and repetitions do not matter. */
  lemma OrderIsIrrelevant(rules: seq<Rule>, others: seq<Rule>, applies: Rule -> bool)
    requires forall rule :: rule in rules <==> rule in others
    ensures Allowed(rules, applies) == Allowed(others, applies)
  {
    hide Denies, Grants;
    forall rule ensures IsTop(rules, applies, rule) == IsTop(others, applies, rule) {
    }
  }

  /** One more deny rule, wherever it is inserted, never grants. */
  lemma AddingADenyNeverGrants(rules: seq<Rule>, k: nat, deny: Rule, applies: Rule -> bool)
    requires k <= |rules| && Denies(deny)
    ensures Allowed(rules[..k] + [deny] + rules[k..], applies) ==> Allowed(rules, applies)
  {
    var more := rules[..k] + [deny] + rules[k..];
    InsertedMembers(rules, k, deny);
    if Allowed(more, applies) {
      var g :| g in more && IsTop(more, applies, g) && Grants(g);
      assert g != deny;
      assert IsTop(rules, applies, g);
      hide Denies, Grants;
      forall rule | rule in rules && IsTop(rules, applies, rule) ensures !Denies(rule) {
        assert rule.priority >= g.priority;
        assert IsTop(more, applies, rule);
      }
    }
  }

  /** One more allow rule never revokes. */
  lemma AddingAnAllowNeverRevokes(rules: seq<Rule>, k: nat, allow: Rule, applies: Rule -> bool)
    requires k <= |rules| && Grants(allow)
    ensures Allowed(rules, applies) ==> Allowed(rules[..k] + [allow] + rules[k..], applies)
  {
    var more := rules[..k] + [allow] + rules[k..];
    InsertedMembers(rules, k, allow);
    if Allowed(rules, applies) {
      var g :| g in rules && IsTop(rules, applies, g) && Grants(g);
      if applies(allow) && allow.priority > g.priority {
        assert IsTop(more, applies, allow);
        forall rule | rule in more && IsTop(more, applies, rule) ensures !Denies(rule) {
          assert rule.priority >= allow.priority > g.priority;
          assert rule !in rules;
        }
      } else {
        assert IsTop(more, applies, g);
        forall rule | rule in more && IsTop(more, applies, rule) ensures !Denies(rule) {
          if rule in rules { assert IsTop(rules, applies, rule); }
        }
      }
    }
  }

  lemma InsertedMembers(rules: seq<Rule>, k: nat, rule: Rule)
    requires k <= |rules|
    ensures forall r :: r in rules[..k] + [rule] + rules[k..] <==> r == rule || r in rules
  {
    assert rules == rules[..k] + rules[k..];
  }
}
