/**
 What a configuration version means. `History` remembers, for every node and every version
 that node ever had, the set of rules (static fields) that version stood for.
 */
module Versions {
  import opened Domain
  import opened ControlStore
  import opened Sequences

  type History = map<string, map<nat, set<Rule>>>

  ghost function StaticSet(rules: seq<Rule>): set<Rule> {
    set rule | rule in rules :: rule.Static()
  }

  /** The static rules the table assigns to a node. */
  ghost function TableSet(rules: map<string, Rule>, node: string): set<Rule> {
    set id | id in rules && Lists(rules[id], node) :: rules[id].Static()
  }

  ghost function Past(history: History, node: string): map<nat, set<Rule>> {
    if node in history then history[node] else map[]
  }

  ghost function Extended(past: map<nat, set<Rule>>, config: AgentConfig): map<nat, set<Rule>> {
    past[config.version := StaticSet(config.rules)]
  }

  /** Add the meaning of every configuration currently served. */
  ghost function Remember(history: History, s: Store): History {
    map n | n in s.configs :: Extended(Past(history, n), s.configs[n])
  }

  /** Every request keeps the table, the configurations and their past meanings in step. */
  ghost predicate Coherent(s: Store, history: History) {
    && WellFormed(s)
    && history.Keys == s.nodes.Keys
    && NodesCoherent(s, history)
    && RulesCoherent(s, history)
  }

  ghost predicate NodesCoherent(s: Store, history: History)
    requires WellFormed(s) && history.Keys == s.nodes.Keys
  {
    forall n :: n in s.nodes ==> NodeCoherent(s, history[n], n)
  }

  ghost predicate RulesCoherent(s: Store, history: History)
    requires WellFormed(s) && history.Keys == s.nodes.Keys
  {
    forall id, n :: id in s.rules && n in RuleNodeIds(s.rules[id]) ==> RuleCoherent(s.rules[id], history[n], n)
  }

  ghost predicate NodeCoherent(s: Store, past: map<nat, set<Rule>>, n: string)
    requires n in s.nodes && n in s.configs
  {
    && s.configs[n].version == s.nodes[n].version
    && 1 <= s.nodes[n].version
    && 1 in past && past[1] == {}
    && DistinctIds(s.configs[n].rules)
    && s.nodes[n].version in past
    && past[s.nodes[n].version] == StaticSet(s.configs[n].rules)
    && (forall v :: v in past ==> v <= s.nodes[n].version)
    && (n != "" ==> StaticSet(s.configs[n].rules) == TableSet(s.rules, n))
  }

  /** A live rule is part of every version of its nodes from its stamp on. */
  ghost predicate RuleCoherent(rule: Rule, past: map<nat, set<Rule>>, n: string) {
    && 2 <= StampFor(rule, n)
    && (forall v :: v in past && StampFor(rule, n) <= v ==> rule.Static() in past[v])
  }

  // ---------- Edits of the rule table ----------

  lemma ListsIffNodeId(rule: Rule, n: string)
    requires n != ""
    ensures Lists(rule, n) <==> n in RuleNodeIds(rule)
  {
  }

  lemma MaterialisedMeaning(config: AgentConfig, nodes: map<string, Node>, rules: map<string, Rule>, n: string)
    requires Materialises(config, nodes, rules, n)
    ensures StaticSet(config.rules) == TableSet(rules, n)
  {
    forall r | r in StaticSet(config.rules)
      ensures r in TableSet(rules, n)
    {
      var rule :| rule in config.rules && rule.Static() == r;
      assert rule in Elements(config.rules);
      var id :| id in rules && Lists(rules[id], n) && Refreshed(rules[id], nodes) == rule;
      assert rules[id].Static() == r;
    }
    forall r | r in TableSet(rules, n)
      ensures r in StaticSet(config.rules)
    {
      var id :| id in rules && Lists(rules[id], n) && rules[id].Static() == r;
      var rule := Refreshed(rules[id], nodes);
      assert rule in RebuiltRules(nodes, rules, n);
      assert rule in Elements(config.rules);
      assert rule.Static() == r;
    }
  }

  /** A change of the table at one id is invisible to nodes neither version of it lists. */
  lemma UnlistedChange(before: map<string, Rule>, after: map<string, Rule>, id: string, n: string)
    requires before - {id} == after - {id}
    requires id in before ==> !Lists(before[id], n)
    requires id in after ==> !Lists(after[id], n)
    ensures TableSet(before, n) == TableSet(after, n)
  {
    forall k | k != id
      ensures k in before <==> k in after
      ensures k in before ==> before[k] == after[k]
    {
      assert k in before <==> k in before - {id};
      assert k in after <==> k in after - {id};
      if k in before {
        assert before[k] == (before - {id})[k] == (after - {id})[k];
      }
    }
  }

  /** The common shape of create, update and delete: at most one rule leaves, at most one enters. */
  ghost predicate OneRuleEdit(s: Store, s': Store, affected: set<string>, id: string) {
    && Edited(s, s', affected, s'.rules)
    && s.rules - {id} == s'.rules - {id}
    && affected <= s.nodes.Keys
    && (id in s.rules ==> RuleNodeIds(s.rules[id]) <= affected)
    && (id in s'.rules ==>
          && s'.rules[id].id == id
          && RuleNodeIds(s'.rules[id]) <= affected
          && forall n :: n in RuleNodeIds(s'.rules[id]) ==> StampFor(s'.rules[id], n) == s'.nodes[n].version)
  }

  lemma SameElsewhere(s: Store, s': Store, id: string, other: string)
    requires s.rules - {id} == s'.rules - {id}
    requires other != id
    ensures other in s.rules <==> other in s'.rules
    ensures other in s.rules ==> s.rules[other] == s'.rules[other]
  {
    assert other in s.rules <==> other in s.rules - {id};
    assert other in s'.rules <==> other in s'.rules - {id};
    if other in s.rules {
      assert s.rules[other] == (s.rules - {id})[other] == (s'.rules - {id})[other];
    }
  }

  lemma EditKeepsWellFormed(s: Store, s': Store, affected: set<string>, id: string)
    requires WellFormed(s) && OneRuleEdit(s, s', affected, id)
    ensures WellFormed(s')
  {
    forall other | other in s'.rules
      ensures s'.rules[other].id == other && RuleNodeIds(s'.rules[other]) <= s.nodes.Keys
    {
      if other != id {
        SameElsewhere(s, s', id, other);
      }
    }
    EditedIsWellFormed(s, s', affected, s'.rules);
  }

  lemma EditKeepsMeaning(s: Store, s': Store, affected: set<string>, id: string, n: string)
    requires OneRuleEdit(s, s', affected, id) && n in s.nodes && n in s.configs && n in s'.configs
    requires n != "" ==> StaticSet(s.configs[n].rules) == TableSet(s.rules, n)
    ensures n in affected || n != "" ==> StaticSet(s'.configs[n].rules) == TableSet(s'.rules, n)
  {
    if n in affected {
      MaterialisedMeaning(s'.configs[n], s'.nodes, s'.rules, n);
    } else if n != "" {
      if id in s.rules { ListsIffNodeId(s.rules[id], n); }
      if id in s'.rules { ListsIffNodeId(s'.rules[id], n); }
      UnlistedChange(s.rules, s'.rules, id, n);
    }
  }

  lemma EditKeepsNode(s: Store, past: map<nat, set<Rule>>, s': Store, affected: set<string>, id: string, n: string)
    requires OneRuleEdit(s, s', affected, id)
    requires n in s.nodes && n in s.configs && n in s'.nodes && n in s'.configs
    requires NodeCoherent(s, past, n)
    ensures NodeCoherent(s', Extended(past, s'.configs[n]), n)
  {
    EditKeepsMeaning(s, s', affected, id, n);
  }

  lemma NodeIdIsListed(rule: Rule, n: string)
    requires n in RuleNodeIds(rule)
    ensures Lists(rule, n)
  {
  }

  lemma EditKeepsRule(s: Store, past: map<nat, set<Rule>>, s': Store, affected: set<string>, id: string, k: string, n: string)
    requires OneRuleEdit(s, s', affected, id)
    requires k in s'.rules && n in RuleNodeIds(s'.rules[k])
    requires n in s.nodes && n in s.configs && n in s'.nodes && n in s'.configs
    requires NodeCoherent(s, past, n)
    requires k in s.rules && n in RuleNodeIds(s.rules[k]) ==> RuleCoherent(s.rules[k], past, n)
    ensures RuleCoherent(s'.rules[k], Extended(past, s'.configs[n]), n)
  {
    var rule := s'.rules[k];
    NodeIdIsListed(rule, n);
    assert rule.Static() in TableSet(s'.rules, n);
    if k == id {
      EditKeepsMeaning(s, s', affected, id, n);
      assert forall v :: v in past ==> v < StampFor(rule, n);
    } else {
      SameElsewhere(s, s', id, k);
      if n in affected {
        EditKeepsMeaning(s, s', affected, id, n);
      }
    }
  }

  lemma EditKeepsCoherence(s: Store, history: History, s': Store, affected: set<string>, id: string)
    requires Coherent(s, history) && OneRuleEdit(s, s', affected, id)
    ensures Coherent(s', Remember(history, s'))
  {
    EditKeepsWellFormed(s, s', affected, id);
    forall n | n in s'.nodes
      ensures NodeCoherent(s', Remember(history, s')[n], n)
    {
      assert NodeCoherent(s, history[n], n);
      EditKeepsNode(s, history[n], s', affected, id, n);
    }
    forall k, n | k in s'.rules && n in RuleNodeIds(s'.rules[k])
      ensures RuleCoherent(s'.rules[k], Remember(history, s')[n], n)
    {
      assert n in s.nodes && NodeCoherent(s, history[n], n);
      EditKeepsRule(s, history[n], s', affected, id, k, n);
    }
  }

  // ---------- Requests ----------

  lemma StampedIsEdit(s: Store, s': Store, affected: set<string>, rule: Rule)
    requires affected <= s.nodes.Keys && RuleNodeIds(rule) <= affected
    requires rule.id in s.rules ==> RuleNodeIds(s.rules[rule.id]) <= affected
    requires Edited(s, s', affected, s.rules[rule.id := Stamped(rule, Bumped(s.nodes, affected))])
    ensures OneRuleEdit(s, s', affected, rule.id)
  {
    var stored := Stamped(rule, Bumped(s.nodes, affected));
    assert RuleNodeIds(stored) == RuleNodeIds(rule);
  }

  lemma CreateIsEdit(s: Store, rule: Rule, s': Store, reply: Result<Rule>)
    requires WellFormed(s) && CreateStep(s, rule, s', reply) && reply.Ok?
    ensures OneRuleEdit(s, s', RuleNodeIds(rule), rule.id)
  {
    StampedIsEdit(s, s', RuleNodeIds(rule), rule);
  }

  lemma UpdateIsEdit(s: Store, rule: Rule, s': Store, reply: Result<Rule>)
    requires WellFormed(s) && UpdateStep(s, rule, s', reply) && reply.Ok?
    ensures OneRuleEdit(s, s', RuleNodeIds(s.rules[rule.id]) + RuleNodeIds(rule), rule.id)
  {
    var carried := Carried(rule, s.rules[rule.id]);
    assert RuleNodeIds(carried) == RuleNodeIds(rule);
    StampedIsEdit(s, s', RuleNodeIds(s.rules[rule.id]) + RuleNodeIds(rule), carried);
  }

  lemma DeleteIsEdit(s: Store, id: string, s': Store, reply: Result<()>)
    requires WellFormed(s) && DeleteStep(s, id, s', reply) && reply.Ok?
    ensures OneRuleEdit(s, s', RuleNodeIds(s.rules[id]), id)
  {
  }

  lemma RememberNothingNew(s: Store, history: History, s': Store)
    requires Coherent(s, history) && s'.configs == s.configs
    ensures Remember(history, s') == history
  {
    forall n | n in s.configs
      ensures Extended(Past(history, n), s.configs[n]) == history[n]
    {
      assert n in s.nodes && NodeCoherent(s, history[n], n);
    }
  }

  /** A step that leaves versions, configurations and the static part of every rule alone. */
  ghost predicate StaticallySame(s: Store, s': Store) {
    && s'.nodes.Keys == s.nodes.Keys && s'.credentials == s.credentials && s'.configs == s.configs
    && s'.rules.Keys == s.rules.Keys
    && (forall n :: n in s.nodes ==> s'.nodes[n].version == s.nodes[n].version)
    && (forall id :: id in s.rules ==> s'.rules[id].Static() == s.rules[id].Static())
  }

  lemma StaticsDecide(first: Rule, second: Rule, n: string)
    requires first.Static() == second.Static()
    ensures first.id == second.id && RuleNodeIds(first) == RuleNodeIds(second)
    ensures Lists(first, n) == Lists(second, n) && StampFor(first, n) == StampFor(second, n)
  {
  }

  lemma SameTableSet(s: Store, s': Store, n: string)
    requires StaticallySame(s, s')
    ensures TableSet(s'.rules, n) == TableSet(s.rules, n)
  {
    forall id | id in s.rules
      ensures Lists(s'.rules[id], n) == Lists(s.rules[id], n)
    {
      StaticsDecide(s.rules[id], s'.rules[id], n);
    }
    forall r | r in TableSet(s.rules, n)
      ensures r in TableSet(s'.rules, n)
    {
      var id :| id in s.rules && Lists(s.rules[id], n) && s.rules[id].Static() == r;
      assert id in s'.rules && Lists(s'.rules[id], n) && s'.rules[id].Static() == r;
    }
  }

  lemma SameStaticsKeepWellFormed(s: Store, s': Store)
    requires WellFormed(s) && StaticallySame(s, s')
    ensures WellFormed(s')
  {
    forall id | id in s'.rules
      ensures s'.rules[id].id == id && RuleNodeIds(s'.rules[id]) == RuleNodeIds(s.rules[id])
    {
      StaticsDecide(s.rules[id], s'.rules[id], "");
    }
  }

  lemma SameStaticsKeepNode(s: Store, past: map<nat, set<Rule>>, s': Store, n: string)
    requires StaticallySame(s, s') && n in s.nodes && n in s.configs && NodeCoherent(s, past, n)
    ensures NodeCoherent(s', past, n)
  {
    SameTableSet(s, s', n);
  }

  lemma SameStaticsKeepCoherence(s: Store, history: History, s': Store)
    requires Coherent(s, history) && StaticallySame(s, s')
    ensures Coherent(s', Remember(history, s'))
  {
    RememberNothingNew(s, history, s');
    SameStaticsKeepWellFormed(s, s');
    forall n | n in s'.nodes
      ensures NodeCoherent(s', history[n], n)
    {
      assert NodeCoherent(s, history[n], n);
      SameStaticsKeepNode(s, history[n], s', n);
    }
    forall id, n | id in s'.rules && n in RuleNodeIds(s'.rules[id])
      ensures RuleCoherent(s'.rules[id], history[n], n)
    {
      StaticsDecide(s.rules[id], s'.rules[id], n);
      assert RuleCoherent(s.rules[id], history[n], n);
    }
  }

  lemma ObservedIsStatic(rule: Rule, stats: seq<RuleStats>, at: int)
    ensures Observed(rule, stats, at).Static() == rule.Static()
  {
  }

  lemma HeartbeatIsStatic(s: Store, node: string, credential: string, beat: Heartbeat, s': Store, reply: Result<Node>)
    requires WellFormed(s) && HeartbeatStep(s, node, credential, beat, s', reply) && reply.Ok?
    ensures StaticallySame(s, s')
  {
    forall id | id in s.rules
      ensures s'.rules[id].Static() == s.rules[id].Static()
    {
      ObservedIsStatic(s.rules[id], beat.stats, beat.receivedAt);
    }
  }

  /** An enrolled node starts at version 1 with no rules. */
  ghost predicate NewNode(s: Store, s': Store, node: string) {
    && node !in s.nodes && s'.rules == s.rules
    && s'.nodes.Keys == s.nodes.Keys + {node} && s'.credentials.Keys == s.credentials.Keys + {node}
    && s'.configs == s.configs[node := AgentConfig(1, [])]
    && s'.nodes[node].version == 1
    && (forall n :: n in s.nodes ==> s'.nodes[n] == s.nodes[n])
  }

  lemma EnrollIsNewNode(s: Store, token: string, now: int, node: string, credential: string, s': Store, reply: Result<Node>)
    requires WellFormed(s) && EnrollStep(s, token, now, node, credential, s', reply) && reply.Ok?
    ensures NewNode(s, s', node)
  {
  }

  lemma NewNodeIsUnlisted(s: Store, n: string)
    requires WellFormed(s) && n !in s.nodes && n != ""
    ensures TableSet(s.rules, n) == {}
  {
    forall id | id in s.rules
      ensures !Lists(s.rules[id], n)
    {
      ListsIffNodeId(s.rules[id], n);
    }
  }

  lemma NewNodeKeepsNode(s: Store, past: map<nat, set<Rule>>, s': Store, node: string, n: string)
    requires WellFormed(s) && NewNode(s, s', node) && n in s'.nodes && n in s'.configs
    requires if n == node then past == map[] else n in s.nodes && n in s.configs && NodeCoherent(s, past, n)
    ensures NodeCoherent(s', Extended(past, s'.configs[n]), n)
    ensures n != node ==> Extended(past, s'.configs[n]) == past
  {
    if n == node && n != "" { NewNodeIsUnlisted(s, n); }
  }

  lemma NewNodeKeepsWellFormed(s: Store, s': Store, node: string)
    requires WellFormed(s) && NewNode(s, s', node)
    ensures WellFormed(s')
  {
  }

  lemma NewNodeKeepsNodes(s: Store, history: History, s': Store, node: string)
    requires Coherent(s, history) && NewNode(s, s', node) && WellFormed(s')
    ensures NodesCoherent(s', Remember(history, s'))
    ensures forall n :: n in s.nodes ==> Remember(history, s')[n] == history[n]
  {
    forall n | n in s'.nodes
      ensures NodeCoherent(s', Remember(history, s')[n], n)
      ensures n != node ==> Remember(history, s')[n] == history[n]
    {
      assert n in s.nodes ==> NodeCoherent(s, history[n], n);
      NewNodeKeepsNode(s, Past(history, n), s', node, n);
    }
  }

  lemma NewNodeKeepsCoherence(s: Store, history: History, s': Store, node: string)
    requires Coherent(s, history) && NewNode(s, s', node)
    ensures Coherent(s', Remember(history, s'))
  {
    NewNodeKeepsWellFormed(s, s', node);
    NewNodeKeepsNodes(s, history, s', node);
  }

  predicate IsEdit(request: Request) {
    request.Create? || request.Update? || request.Delete?
  }

  /** A request that edits the rule table, if it is not refused. */
  lemma EditOf(s: Store, request: Request, s': Store) returns (affected: set<string>, id: string)
    requires WellFormed(s) && StoreNext(s, request, s') && s' != s && IsEdit(request)
    ensures OneRuleEdit(s, s', affected, id)
  {
    hide OneRuleEdit, Edited, WellFormed;
    match request
    case Create(rule) =>
      var reply :| CreateStep(s, rule, s', reply);
      CreateIsEdit(s, rule, s', reply);
      affected, id := RuleNodeIds(rule), rule.id;
    case Update(rule) =>
      var reply :| UpdateStep(s, rule, s', reply);
      UpdateIsEdit(s, rule, s', reply);
      affected, id := RuleNodeIds(s.rules[rule.id]) + RuleNodeIds(rule), rule.id;
    case Delete(k) =>
      var reply :| DeleteStep(s, k, s', reply);
      DeleteIsEdit(s, k, s', reply);
      affected, id := RuleNodeIds(s.rules[k]), k;
  }

  /** Every request keeps the table, the served configurations and the history coherent. */
  lemma StepKeepsCoherence(s: Store, history: History, request: Request, s': Store)
    requires Coherent(s, history) && StoreNext(s, request, s')
    ensures Coherent(s', Remember(history, s'))
  {
    if s' == s {
      RememberNothingNew(s, history, s');
    } else if IsEdit(request) {
      var affected, id := EditOf(s, request, s');
      EditKeepsCoherence(s, history, s', affected, id);
    } else {
      match request
      case IssueToken(hash, expiresAt) =>
        SameStaticsKeepCoherence(s, history, s');
      case Enroll(token, now, node, credential) =>
        var reply :| EnrollStep(s, token, now, node, credential, s', reply);
        EnrollIsNewNode(s, token, now, node, credential, s', reply);
        NewNodeKeepsCoherence(s, history, s', node);
      case Beat(node, credential, beat) =>
        var reply :| HeartbeatStep(s, node, credential, beat, s', reply);
        HeartbeatIsStatic(s, node, credential, beat, s', reply);
        SameStaticsKeepCoherence(s, history, s');
    }
  }

  lemma EditMovesVersions(s: Store, s': Store, affected: set<string>, id: string, n: string)
    requires WellFormed(s) && OneRuleEdit(s, s', affected, id) && n in s.configs
    ensures n in s'.configs && n in s'.nodes && s.nodes[n].version <= s'.nodes[n].version
    ensures s.nodes[n].version == s'.nodes[n].version ==> s'.configs[n] == s.configs[n]
  {
  }

  lemma OthersKeepVersions(s: Store, request: Request, s': Store, n: string)
    requires WellFormed(s) && StoreNext(s, request, s') && n in s.configs && !IsEdit(request)
    ensures n in s'.configs && n in s'.nodes && s.nodes[n].version == s'.nodes[n].version && s'.configs[n] == s.configs[n]
  {
  }

  /** Per request, a node's version never falls, and the configuration changes only with it. */
  lemma StepMovesVersions(s: Store, request: Request, s': Store, n: string)
    requires WellFormed(s) && StoreNext(s, request, s') && n in s.configs
    ensures n in s'.configs && n in s'.nodes
    ensures s.nodes[n].version <= s'.nodes[n].version
    ensures s.nodes[n].version == s'.nodes[n].version ==> s'.configs[n] == s.configs[n]
  {
    hide StoreNext, OneRuleEdit;
    if !IsEdit(request) {
      OthersKeepVersions(s, request, s', n);
    } else if s' != s {
      var affected, id := EditOf(s, request, s');
      EditMovesVersions(s, s', affected, id, n);
    }
  }

  /** The meaning of a past version is never rewritten. */
  lemma HistoryOnlyGrows(s: Store, history: History, request: Request, s': Store, n: string, v: nat)
    requires Coherent(s, history) && StoreNext(s, request, s')
    requires n in history && v in history[n]
    ensures n in Remember(history, s') && v in Remember(history, s')[n]
    ensures Remember(history, s')[n][v] == history[n][v]
  {
    assert NodeCoherent(s, history[n], n);
    StepMovesVersions(s, request, s', n);
    StepKeepsCoherence(s, history, request, s');
    assert NodeCoherent(s', Remember(history, s')[n], n);
  }

  // ---------- Whole runs ----------

  ghost predicate StoreMove(s: Store, s': Store) {
    exists request :: StoreNext(s, request, s')
  }

  ghost predicate IsRun(run: seq<Store>) {
    && run != []
    && run[0] == EMPTY
    && forall i {:trigger run[i]} :: 0 <= i < |run| - 1 ==> StoreMove(run[i], run[i + 1])
  }

  ghost function HistoryOf(run: seq<Store>): History
    requires run != []
  {
    if |run| == 1 then map[] else Remember(HistoryOf(run[..|run| - 1]), run[|run| - 1])
  }

  lemma {:induction false} RunsAreCoherent(run: seq<Store>)
    requires IsRun(run)
    ensures Coherent(run[|run| - 1], HistoryOf(run))
  {
    if |run| > 1 {
      var prefix := run[..|run| - 1];
      assert forall i :: 0 <= i < |prefix| ==> prefix[i] == run[i];
      RunsAreCoherent(prefix);
      assert StoreMove(run[|run| - 2], run[|run| - 2 + 1]);
      var request :| StoreNext(run[|run| - 2], request, run[|run| - 1]);
      StepKeepsCoherence(run[|run| - 2], HistoryOf(prefix), request, run[|run| - 1]);
    }
  }

  /** Any configuration served earlier in a run is still what its version number means at the end. */
  lemma {:induction false} RunRemembers(run: seq<Store>, i: nat, n: string)
    requires IsRun(run) && i < |run| && n in run[i].configs
    ensures var last := run[|run| - 1];
            && n in HistoryOf(run) && n in last.nodes
            && run[i].configs[n].version in HistoryOf(run)[n]
            && HistoryOf(run)[n][run[i].configs[n].version] == StaticSet(run[i].configs[n].rules)
            && run[i].configs[n].version <= last.nodes[n].version
  {
    hide StoreNext, Coherent, Remember, StaticSet;
    if i < |run| - 1 {
      var prefix := run[..|run| - 1];
      assert forall k :: 0 <= k < |prefix| ==> prefix[k] == run[k];
      RunRemembers(prefix, i, n);
      RunsAreCoherent(prefix);
      assert StoreMove(run[|run| - 2], run[|run| - 2 + 1]);
      var request :| StoreNext(run[|run| - 2], request, run[|run| - 1]);
      MoveRemembers(run[|run| - 2], HistoryOf(prefix), request, run[|run| - 1], n, run[i].configs[n].version);
    } else {
      RunsAreCoherent(run);
      CurrentIsRemembered(run[i], HistoryOf(run), n);
    }
  }

  lemma CurrentIsRemembered(s: Store, history: History, n: string)
    requires Coherent(s, history) && n in s.configs
    ensures n in history && n in s.nodes && s.configs[n].version in history[n]
    ensures history[n][s.configs[n].version] == StaticSet(s.configs[n].rules)
    ensures s.configs[n].version <= s.nodes[n].version
  {
    assert NodeCoherent(s, history[n], n);
  }

  lemma MoveRemembers(s: Store, history: History, request: Request, s': Store, n: string, v: nat)
    requires Coherent(s, history) && StoreNext(s, request, s')
    requires n in history && v in history[n] && n in s.nodes && v <= s.nodes[n].version
    ensures n in Remember(history, s') && v in Remember(history, s')[n] && Remember(history, s')[n][v] == history[n][v]
    ensures n in s'.nodes && v <= s'.nodes[n].version
  {
    hide StoreNext, Remember, NodesCoherent, RulesCoherent;
    HistoryOnlyGrows(s, history, request, s', n, v);
    StepMovesVersions(s, request, s', n);
  }

  lemma PrefixIsRun(run: seq<Store>, j: nat)
    requires IsRun(run) && j < |run|
    ensures IsRun(run[..j + 1])
  {
    var prefix := run[..j + 1];
    assert forall k :: 0 <= k < |prefix| ==> prefix[k] == run[k];
  }

  /** Over any run, versions never fall and one version of a node never stands for two rule sets. */
  lemma VersionsDenoteOneRuleSet(run: seq<Store>, i: nat, j: nat, n: string)
    requires IsRun(run) && i <= j < |run| && n in run[i].configs
    ensures n in run[j].configs && n in run[i].nodes && n in run[j].nodes
    ensures run[i].configs[n].version == run[i].nodes[n].version
    ensures run[i].nodes[n].version <= run[j].nodes[n].version
    ensures run[i].nodes[n].version == run[j].nodes[n].version ==>
              StaticSet(run[i].configs[n].rules) == StaticSet(run[j].configs[n].rules)
  {
    PrefixIsRun(run, i);
    PrefixIsRun(run, j);
    RunsAreCoherent(run[..i + 1]);
    RunsAreCoherent(run[..j + 1]);
    assert NodeCoherent(run[i], HistoryOf(run[..i + 1])[n], n);
    RunRemembers(run[..j + 1], i, n);
    assert NodeCoherent(run[j], HistoryOf(run[..j + 1])[n], n);
  }

  /** In every state the configuration of a node lists exactly the rules that involve it. */
  lemma ConfigListsExactlyItsRules(run: seq<Store>, j: nat, n: string)
    requires IsRun(run) && j < |run| && n in run[j].nodes && n != ""
    ensures n in run[j].configs && DistinctIds(run[j].configs[n].rules)
    ensures forall r :: r in StaticSet(run[j].configs[n].rules) <==>
              exists id :: id in run[j].rules && n in RuleNodeIds(run[j].rules[id]) && run[j].rules[id].Static() == r
  {
    PrefixIsRun(run, j);
    RunsAreCoherent(run[..j + 1]);
    assert NodeCoherent(run[j], HistoryOf(run[..j + 1])[n], n);
    forall id | id in run[j].rules
      ensures Lists(run[j].rules[id], n) <==> n in RuleNodeIds(run[j].rules[id])
    {
      ListsIffNodeId(run[j].rules[id], n);
    }
    assert StaticSet(run[j].configs[n].rules) == TableSet(run[j].rules, n);
  }

  /**
   A rule that is live at step j was part of every configuration its nodes ever served from
   the stamped version on, however often other rules came, moved and went in between.
   */
  lemma LiveRuleIsInEveryVersionSinceItsStamp(run: seq<Store>, i: nat, j: nat, id: string, n: string)
    requires IsRun(run) && i <= j < |run|
    requires id in run[j].rules && n in RuleNodeIds(run[j].rules[id]) && n in run[i].configs
    requires StampFor(run[j].rules[id], n) <= run[i].configs[n].version
    ensures run[j].rules[id].Static() in StaticSet(run[i].configs[n].rules)
  {
    PrefixIsRun(run, j);
    RunsAreCoherent(run[..j + 1]);
    RunRemembers(run[..j + 1], i, n);
    assert RuleCoherent(run[j].rules[id], HistoryOf(run[..j + 1])[n], n);
  }

  // ---------- No rule before its stamp ----------

  /** The versions stamped on live rules have been reached. */
  ghost predicate StampsReached(s: Store) {
    forall id, n :: id in s.rules && n in RuleNodeIds(s.rules[id]) ==>
      n in s.nodes && StampFor(s.rules[id], n) <= s.nodes[n].version
  }

  /** No version contains a rule of the node that was stamped later. */
  ghost predicate PastStamped(past: map<nat, set<Rule>>, n: string) {
    forall v, r :: v in past && r in past[v] && n in RuleNodeIds(r) ==> StampFor(r, n) <= v
  }

  lemma EditKeepsStamps(s: Store, s': Store, affected: set<string>, id: string)
    requires WellFormed(s) && StampsReached(s) && OneRuleEdit(s, s', affected, id)
    ensures StampsReached(s')
  {
    forall k, n | k in s'.rules && n in RuleNodeIds(s'.rules[k])
      ensures n in s'.nodes && StampFor(s'.rules[k], n) <= s'.nodes[n].version
    {
      if k != id {
        SameElsewhere(s, s', id, k);
      }
    }
  }

  lemma SameStaticsKeepStamps(s: Store, s': Store)
    requires StampsReached(s) && StaticallySame(s, s')
    ensures StampsReached(s')
  {
    hide RuleNodeIds, StampFor;
    forall k, n | k in s'.rules && n in RuleNodeIds(s'.rules[k])
      ensures n in s'.nodes && StampFor(s'.rules[k], n) <= s'.nodes[n].version
    {
      StaticsDecide(s.rules[k], s'.rules[k], n);
    }
  }

  lemma StepKeepsStamps(s: Store, request: Request, s': Store)
    requires WellFormed(s) && StampsReached(s) && StoreNext(s, request, s')
    ensures StampsReached(s')
  {
    hide StampsReached, OneRuleEdit, Edited, WellFormed;
    if s' != s && IsEdit(request) {
      var affected, id := EditOf(s, request, s');
      EditKeepsStamps(s, s', affected, id);
    } else if s' != s {
      match request
      case IssueToken(_, _) => SameStaticsKeepStamps(s, s');
      case Enroll(token, now, node, credential) =>
        var reply :| EnrollStep(s, token, now, node, credential, s', reply);
        NewNodeKeepsStamps(s, s', node);
      case Beat(node, credential, beat) =>
        var reply :| HeartbeatStep(s, node, credential, beat, s', reply);
        HeartbeatIsStatic(s, node, credential, beat, s', reply);
        SameStaticsKeepStamps(s, s');
    }
  }

  lemma NewNodeKeepsStamps(s: Store, s': Store, node: string)
    requires StampsReached(s) && s'.rules == s.rules && node !in s.nodes
    requires forall n :: n in s.nodes ==> n in s'.nodes && s'.nodes[n] == s.nodes[n]
    ensures StampsReached(s')
  {
  }

  /** The configuration just built contains no rule stamped for later. */
  lemma CurrentIsStamped(s: Store, past: map<nat, set<Rule>>, n: string)
    requires n in s.nodes && n in s.configs && n != "" && StampsReached(s)
    requires s.configs[n].version == s.nodes[n].version && StaticSet(s.configs[n].rules) == TableSet(s.rules, n)
    requires PastStamped(past, n)
    ensures PastStamped(Extended(past, s.configs[n]), n)
  {
    forall r | r in TableSet(s.rules, n) && n in RuleNodeIds(r)
      ensures StampFor(r, n) <= s.nodes[n].version
    {
      var id :| id in s.rules && Lists(s.rules[id], n) && s.rules[id].Static() == r;
      StaticsDecide(s.rules[id], r, n);
    }
  }

  lemma StepKeepsPast(s: Store, history: History, request: Request, s': Store, n: string)
    requires Coherent(s, history) && StampsReached(s) && StoreNext(s, request, s') && n in s'.nodes && n != ""
    requires PastStamped(Past(history, n), n)
    ensures n in s'.configs && PastStamped(Remember(history, s')[n], n)
  {
    StepKeepsStamps(s, request, s');
    StepKeepsCoherence(s, history, request, s');
    assert NodeCoherent(s', Remember(history, s')[n], n);
    CurrentIsStamped(s', Past(history, n), n);
  }

  // ---------- Exclusive listeners ----------

  /** No two stored rules clash. The conflict check of a create skips the empty id, so it is set apart. */
  ghost predicate Exclusive(rules: map<string, Rule>) {
    forall a, b :: a in rules && b in rules && a != b && a != "" && b != "" ==> !Clash(rules[a], rules[b])
  }

  lemma NewRuleKeepsExclusive(rules: map<string, Rule>, rule: Rule, stored: Rule, excluded: string)
    requires Exclusive(rules) && !Conflicting(rules, rule, excluded)
    requires excluded == "" || excluded == rule.id
    requires stored == rule.(stamps := stored.stamps, counters := stored.counters)
    ensures Exclusive(rules[rule.id := stored])
  {
    forall a | a in rules && a != "" && a != rule.id
      ensures !Clash(rules[a], stored) && !Clash(stored, rules[a])
    {
      assert !Clash(rules[a], rule);
    }
  }

  lemma SameStaticsKeepExclusive(s: Store, s': Store)
    requires StaticallySame(s, s') && Exclusive(s.rules)
    ensures Exclusive(s'.rules)
  {
    forall a, b | a in s.rules && b in s.rules && a != b && a != "" && b != ""
      ensures !Clash(s'.rules[a], s'.rules[b])
    {
      assert !Clash(s.rules[a], s.rules[b]);
      assert s'.rules[a].Static() == s.rules[a].Static() && s'.rules[b].Static() == s.rules[b].Static();
    }
  }

  lemma StepKeepsExclusive(s: Store, request: Request, s': Store)
    requires WellFormed(s) && Exclusive(s.rules) && StoreNext(s, request, s')
    ensures Exclusive(s'.rules)
  {
    if s' != s {
      match request
      case Create(rule) =>
        var reply :| CreateStep(s, rule, s', reply);
        NewRuleKeepsExclusive(s.rules, rule, s'.rules[rule.id], "");
      case Update(rule) =>
        var reply :| UpdateStep(s, rule, s', reply);
        NewRuleKeepsExclusive(s.rules, rule, s'.rules[rule.id], rule.id);
      case Beat(node, credential, beat) =>
        var reply :| HeartbeatStep(s, node, credential, beat, s', reply);
        HeartbeatIsStatic(s, node, credential, beat, s', reply);
        SameStaticsKeepExclusive(s, s');
      case _ =>
    }
  }

  /** Over any run, stored rules with non-empty ids are pairwise free of listener conflicts. */
  lemma {:induction false} RunsAreExclusive(run: seq<Store>)
    requires IsRun(run)
    ensures Exclusive(run[|run| - 1].rules)
  {
    if |run| > 1 {
      PrefixIsRun(run, |run| - 2);
      var prefix := run[..|run| - 1];
      RunsAreExclusive(prefix);
      RunsAreCoherent(prefix);
      assert StoreMove(run[|run| - 2], run[|run| - 2 + 1]);
      var request :| StoreNext(run[|run| - 2], request, run[|run| - 1]);
      StepKeepsExclusive(run[|run| - 2], request, run[|run| - 1]);
    }
  }
}
