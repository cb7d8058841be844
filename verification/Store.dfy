/**
 The part of the in-memory control store that owns nodes, forwarding rules and the
 configuration materialised for each agent. Every method runs under one mutex, so a
 call is one atomic step on the value `Store`.
 */
module ControlStore {
  import opened Domain
  import opened Sequences

  datatype Status = Online | Offline | Disabled
  datatype Error = NotFound | Conflict | TokenInvalid
  datatype Result<+T> = Ok(value: T) | Err(error: Error)

  datatype Token = Token(used: bool, expiresAt: int)

  datatype Node = Node(status: Status, tunnel: string, version: nat, applied: nat,
                       attempted: nat, lastError: string, lastHeartbeat: int)

  datatype AgentConfig = AgentConfig(version: nat, rules: seq<Rule>)

  datatype RuleStats = RuleStats(ruleId: string, active: nat, bytesIn: nat, bytesOut: nat)

  datatype Heartbeat = Heartbeat(tunnel: string, version: nat, attempted: nat, lastError: string,
                                 stats: seq<RuleStats>, receivedAt: int)

  datatype Store = Store(
    nodes: map<string, Node>, credentials: map<string, string>, tokens: map<string, Token>,
    configs: map<string, AgentConfig>, rules: map<string, Rule>)

  const EMPTY := Store(map[], map[], map[], map[], map[])

  // ---------- Which nodes a rule concerns ----------

  /** Nodes whose configuration version moves when the rule changes. */
  function RuleNodeIds(rule: Rule): set<string> {
    if rule.mode == Relay && rule.egress != "" && rule.egress != rule.ingress
    then {rule.ingress, rule.egress}
    else {rule.ingress}
  }

  /** Nodes whose rebuilt configuration contains the rule. */
  predicate Lists(rule: Rule, node: string) {
    rule.ingress == node || (rule.mode == Relay && rule.egress == node)
  }

  /** The version stamped on the rule for one of its nodes. */
  function StampFor(rule: Rule, node: string): nat {
    if node == rule.ingress then rule.stamps.ingress else rule.stamps.egress
  }

  /** Two rules that may not be stored together. */
  predicate Clash(first: Rule, second: Rule) {
    || (&& first.ingress == second.ingress
        && ProtocolsOverlap(first.protocol, second.protocol)
        && first.listen == second.listen)
    || (&& first.mode == Relay && second.mode == Relay
        && first.egress == second.egress
        && first.relay.port == second.relay.port)
  }

  ghost predicate Conflicting(rules: map<string, Rule>, candidate: Rule, excluded: string) {
    exists id :: id in rules && id != excluded && Clash(rules[id], candidate)
  }

  predicate NodesAvailable(nodes: map<string, Node>, rule: Rule) {
    forall n | n in RuleNodeIds(rule) :: n in nodes && nodes[n].status != Disabled
  }

  // ---------- Materialised configurations ----------

  function TunnelOf(nodes: map<string, Node>, node: string): string {
    if node in nodes then nodes[node].tunnel else ""
  }

  /** The copy of a rule that goes into a configuration. */
  function Refreshed(rule: Rule, nodes: map<string, Node>): Rule {
    if rule.mode == Relay then rule.(relay := rule.relay.(host := TunnelOf(nodes, rule.egress))) else rule
  }

  ghost predicate DistinctIds(rules: seq<Rule>) {
    forall i, j :: 0 <= i < j < |rules| ==> rules[i].id != rules[j].id
  }

  ghost function RebuiltRules(nodes: map<string, Node>, rules: map<string, Rule>, node: string): set<Rule> {
    set id | id in rules && Lists(rules[id], node) :: Refreshed(rules[id], nodes)
  }

  /** `config` is what a rebuild of `node` from this rule table produces, in some order. */
  ghost predicate Materialises(config: AgentConfig, nodes: map<string, Node>,
                               rules: map<string, Rule>, node: string) {
    && node in nodes
    && config.version == nodes[node].version
    && DistinctIds(config.rules)
    && Elements(config.rules) == RebuiltRules(nodes, rules, node)
  }

  // ---------- Steps ----------

  function Bumped(nodes: map<string, Node>, affected: set<string>): map<string, Node> {
    map n | n in nodes ::
      if n in affected then nodes[n].(version := nodes[n].version + 1) else nodes[n]
  }

  function VersionOf(nodes: map<string, Node>, node: string): nat {
    if node in nodes then nodes[node].version else 0
  }

  /** The rule with the versions its nodes just reached. */
  function Stamped(rule: Rule, nodes: map<string, Node>): Rule {
    rule.(stamps := Stamps(VersionOf(nodes, rule.ingress),
                           if rule.mode == Relay then VersionOf(nodes, rule.egress) else rule.stamps.egress))
  }

  lemma StampedKeepsNodes(rule: Rule, nodes: map<string, Node>)
    ensures Stamped(rule, nodes).id == rule.id && RuleNodeIds(Stamped(rule, nodes)) == RuleNodeIds(rule)
  {
  }

  /** An update keeps the live counters, and a rule without relay has no egress stamp. */
  function Carried(rule: Rule, previous: Rule): Rule {
    rule.(counters := previous.counters,
          stamps := if rule.mode == Relay then rule.stamps else rule.stamps.(egress := 0))
  }

  /** One edit of the rule table: the affected nodes move by one version and are rebuilt. */
  ghost predicate Edited(s: Store, s': Store, affected: set<string>, rules: map<string, Rule>) {
    && s'.nodes == Bumped(s.nodes, affected)
    && s'.credentials == s.credentials
    && s'.tokens == s.tokens
    && s'.rules == rules
    && s'.configs.Keys == s.configs.Keys + affected
    && (forall n :: n in affected ==> Materialises(s'.configs[n], s'.nodes, rules, n))
    && (forall n :: n in s.configs && n !in affected ==> s'.configs[n] == s.configs[n])
  }

  ghost predicate CreateStep(s: Store, rule: Rule, s': Store, reply: Result<Rule>) {
    if rule.id in s.rules then reply == Err(Conflict) && s' == s
    else if !NodesAvailable(s.nodes, rule) then reply == Err(NotFound) && s' == s
    else if Conflicting(s.rules, rule, "") then reply == Err(Conflict) && s' == s
    else
      var affected := RuleNodeIds(rule);
      var stored := Stamped(rule, Bumped(s.nodes, affected));
      reply == Ok(stored) && Edited(s, s', affected, s.rules[rule.id := stored])
  }

  ghost predicate UpdateStep(s: Store, rule: Rule, s': Store, reply: Result<Rule>) {
    if rule.id !in s.rules then reply == Err(NotFound) && s' == s
    else if !NodesAvailable(s.nodes, rule) then reply == Err(NotFound) && s' == s
    else if Conflicting(s.rules, rule, rule.id) then reply == Err(Conflict) && s' == s
    else
      var previous := s.rules[rule.id];
      var affected := RuleNodeIds(previous) + RuleNodeIds(rule);
      var stored := Stamped(Carried(rule, previous), Bumped(s.nodes, affected));
      reply == Ok(stored) && Edited(s, s', affected, s.rules[rule.id := stored])
  }

  ghost predicate DeleteStep(s: Store, id: string, s': Store, reply: Result<()>) {
    if id !in s.rules then reply == Err(NotFound) && s' == s
    else reply == Ok(()) && Edited(s, s', RuleNodeIds(s.rules[id]), s.rules - {id})
  }

  ghost predicate EnrollStep(s: Store, token: string, now: int, node: string, credential: string,
                             s': Store, reply: Result<Node>) {
    if token !in s.tokens || s.tokens[token].used || s.tokens[token].expiresAt <= now
    then reply == Err(TokenInvalid) && s' == s
    else if node in s.nodes then reply == Err(Conflict) && s' == s
    else
      var enrolled := Node(Online, "", 1, 1, 1, "", now);
      && reply == Ok(enrolled)
      && s' == s.(tokens := s.tokens[token := s.tokens[token].(used := true)],
                  nodes := s.nodes[node := enrolled],
                  credentials := s.credentials[node := credential],
                  configs := s.configs[node := AgentConfig(1, [])])
  }

  /** A node after a heartbeat: reported versions are capped by the desired version. */
  function Reported(node: Node, beat: Heartbeat): Node {
    var applied := Min(beat.version, node.version);
    node.(status := Online, tunnel := beat.tunnel, applied := applied,
          attempted := Min(if beat.attempted == 0 then applied else beat.attempted, node.version),
          lastError := beat.lastError, lastHeartbeat := beat.receivedAt)
  }

  /** The last report about a rule wins. */
  function LastStats(stats: seq<RuleStats>, id: string): Option<RuleStats> {
    if stats == [] then None
    else if stats[|stats| - 1].ruleId == id then Some(stats[|stats| - 1])
    else LastStats(stats[..|stats| - 1], id)
  }

  /** A rule's counters after its ingress node reported. */
  function Observed(rule: Rule, stats: seq<RuleStats>, at: int): Rule {
    match LastStats(stats, rule.id)
    case Some(report) => rule.(counters := Counters(report.active, report.bytesIn, report.bytesOut, at))
    case None => Zeroed(rule, at)
  }

  function Zeroed(rule: Rule, at: int): Rule {
    rule.(counters := rule.counters.(active := 0, updated := at))
  }

  /** The table once the reported counters are in. */
  function AfterReports(rules: map<string, Rule>, node: string, stats: seq<RuleStats>, at: int): map<string, Rule> {
    map id | id in rules ::
      if rules[id].ingress == node && LastStats(stats, rules[id].id).Some?
      then Observed(rules[id], stats, at) else rules[id]
  }

  /** The table after the whole heartbeat. */
  function AfterHeartbeat(rules: map<string, Rule>, node: string, stats: seq<RuleStats>, at: int): map<string, Rule> {
    map id | id in rules ::
      if rules[id].ingress == node then Observed(rules[id], stats, at) else rules[id]
  }

  predicate Admitted(s: Store, node: string, credential: string) {
    && node in s.nodes
    && node in s.credentials && s.credentials[node] == credential
    && s.nodes[node].status != Disabled
  }

  ghost predicate HeartbeatStep(s: Store, node: string, credential: string, beat: Heartbeat,
                                s': Store, reply: Result<Node>) {
    if !Admitted(s, node, credential) then reply == Err(NotFound) && s' == s
    else
      var reported := Reported(s.nodes[node], beat);
      && reply == Ok(reported)
      && s' == s.(nodes := s.nodes[node := reported],
                  rules := AfterHeartbeat(s.rules, node, beat.stats, beat.receivedAt))
  }

  /** Every request that changes this part of the store. */
  datatype Request =
    | IssueToken(hash: string, expiresAt: int)
    | Enroll(token: string, now: int, node: string, credential: string)
    | Beat(node: string, credential: string, beat: Heartbeat)
    | Create(rule: Rule)
    | Update(rule: Rule)
    | Delete(id: string)

  ghost predicate StoreNext(s: Store, request: Request, s': Store) {
    match request
    case IssueToken(hash, expiresAt) =>
      s' == if hash in s.tokens then s else s.(tokens := s.tokens[hash := Token(false, expiresAt)])
    case Enroll(token, now, node, credential) =>
      exists reply :: EnrollStep(s, token, now, node, credential, s', reply)
    case Beat(node, credential, beat) =>
      exists reply :: HeartbeatStep(s, node, credential, beat, s', reply)
    case Create(rule) => exists reply :: CreateStep(s, rule, s', reply)
    case Update(rule) => exists reply :: UpdateStep(s, rule, s', reply)
    case Delete(id) => exists reply :: DeleteStep(s, id, s', reply)
  }

  // ---------- Structural invariant the methods rely on ----------

  ghost predicate WellFormed(s: Store) {
    && s.configs.Keys == s.nodes.Keys == s.credentials.Keys
    && (forall id :: id in s.rules ==> s.rules[id].id == id)
    && (forall id :: id in s.rules ==> RuleNodeIds(s.rules[id]) <= s.nodes.Keys)
    && (forall n :: n in s.configs ==> s.configs[n].version == s.nodes[n].version)
  }

  lemma EditedIsWellFormed(s: Store, s': Store, affected: set<string>, rules: map<string, Rule>)
    requires WellFormed(s) && affected <= s.nodes.Keys && Edited(s, s', affected, rules)
    requires forall id :: id in rules ==> rules[id].id == id
    requires forall id :: id in rules ==> RuleNodeIds(rules[id]) <= s.nodes.Keys
    ensures WellFormed(s')
  {
    assert s'.nodes.Keys == s.nodes.Keys;
  }

  lemma WellFormedParts(s: Store)
    requires WellFormed(s)
    ensures s.configs.Keys == s.nodes.Keys == s.credentials.Keys && forall id :: id in s.rules ==> s.rules[id].id == id
  {
  }

  lemma StoredTable(s: Store, rule: Rule, stored: Rule, affected: set<string>)
    requires WellFormed(s) && stored.id == rule.id && RuleNodeIds(stored) <= affected <= s.nodes.Keys
    ensures var rules := s.rules[rule.id := stored];
            && (forall id :: id in rules ==> rules[id].id == id)
            && (forall id :: id in rules ==> RuleNodeIds(rules[id]) <= s.nodes.Keys)
  {
  }

  lemma HeartbeatIsWellFormed(s: Store, node: string, beat: Heartbeat)
    requires WellFormed(s) && node in s.nodes
    ensures WellFormed(s.(nodes := s.nodes[node := Reported(s.nodes[node], beat)],
                          rules := AfterHeartbeat(s.rules, node, beat.stats, beat.receivedAt)))
  {
    var rules := AfterHeartbeat(s.rules, node, beat.stats, beat.receivedAt);
    forall id | id in rules
      ensures rules[id].id == id && RuleNodeIds(rules[id]) <= s.nodes.Keys
    {
      ObservedIsElsewhereTheSame(s.rules[id], beat.stats, beat.receivedAt);
    }
    hide AfterHeartbeat, RuleNodeIds;
  }

  lemma ObservedIsElsewhereTheSame(rule: Rule, stats: seq<RuleStats>, at: int)
    ensures Observed(rule, stats, at).id == rule.id && RuleNodeIds(Observed(rule, stats, at)) == RuleNodeIds(rule)
  {
  }

  lemma LastStatsOfLonger(stats: seq<RuleStats>, report: RuleStats, id: string)
    ensures LastStats(stats + [report], id) == if id == report.ruleId then Some(report) else LastStats(stats, id)
  {
    assert (stats + [report])[..|stats|] == stats;
  }

  /** One more report changes the rule it names, if that is one of the node's own. */
  lemma OneReport(rules: map<string, Rule>, node: string, stats: seq<RuleStats>, k: nat, at: int)
    requires k < |stats| && forall id :: id in rules ==> rules[id].id == id
    ensures var report := stats[k]; var so := AfterReports(rules, node, stats[..k], at);
            AfterReports(rules, node, stats[..k + 1], at)
            == if report.ruleId in rules && rules[report.ruleId].ingress == node
               then so[report.ruleId := so[report.ruleId].(counters := Counters(report.active, report.bytesIn, report.bytesOut, at))]
               else so
    ensures forall id :: LastStats(stats[..k + 1], id) == if id == stats[k].ruleId then Some(stats[k]) else LastStats(stats[..k], id)
  {
    assert stats[..k + 1] == stats[..k] + [stats[k]];
    forall id
      ensures LastStats(stats[..k] + [stats[k]], id) == if id == stats[k].ruleId then Some(stats[k]) else LastStats(stats[..k], id)
    {
      LastStatsOfLonger(stats[..k], stats[k], id);
    }
    hide LastStats;
  }

  /** After the reports, only the live counts of rules nobody reported are left to be zeroed. */
  lemma UnreportedIsZeroed(rules: map<string, Rule>, node: string, stats: seq<RuleStats>, at: int)
    requires forall id :: id in rules ==> rules[id].id == id
    ensures AfterReports(rules, node, stats, at).Keys == AfterHeartbeat(rules, node, stats, at).Keys == rules.Keys
    ensures forall id :: id in rules ==>
              var reported := AfterReports(rules, node, stats, at)[id];
              && reported.ingress == rules[id].ingress
              && AfterHeartbeat(rules, node, stats, at)[id]
                 == if rules[id].ingress == node && LastStats(stats, id).None?
                    then Zeroed(reported, at) else reported
  {
  }

  lemma ReportsKeepIngress(rules: map<string, Rule>, node: string, stats: seq<RuleStats>, at: int)
    ensures AfterReports(rules, node, stats, at).Keys == rules.Keys
    ensures forall id :: id in rules ==> AfterReports(rules, node, stats, at)[id].ingress == rules[id].ingress
  {
  }

  class Memory {
    var nodes: map<string, Node>
    var credentials: map<string, string>
    var tokens: map<string, Token>
    var configs: map<string, AgentConfig>
    var rules: map<string, Rule>

    ghost function State(): Store
      reads this
    {
      Store(nodes, credentials, tokens, configs, rules)
    }

    ghost predicate Valid()
      reads this
    {
      WellFormed(State())
    }

    constructor ()
      ensures Valid() && State() == EMPTY
    {
      nodes, credentials, tokens, configs, rules := map[], map[], map[], map[], map[];
    }

    method CreateEnrollmentToken(hash: string, expiresAt: int) returns (reply: Result<()>)
      requires Valid()
      modifies this`tokens
      ensures Valid() && StoreNext(old(State()), IssueToken(hash, expiresAt), State())
      ensures reply == if hash in old(tokens) then Err(Conflict) else Ok(())
    {
      if hash in tokens {
        return Err(Conflict);
      }
      tokens := tokens[hash := Token(false, expiresAt)];
      return Ok(());
    }

    method EnrollAgent(token: string, now: int, node: string, credential: string) returns (reply: Result<Node>)
      requires Valid()
      modifies this
      ensures Valid() && EnrollStep(old(State()), token, now, node, credential, State(), reply)
    {
      if token !in tokens || tokens[token].used || tokens[token].expiresAt <= now {
        return Err(TokenInvalid);
      }
      if node in nodes {
        return Err(Conflict);
      }
      tokens := tokens[token := tokens[token].(used := true)];
      var enrolled := Node(Online, "", 1, 1, 1, "", now);
      nodes := nodes[node := enrolled];
      credentials := credentials[node := credential];
      configs := configs[node := AgentConfig(1, [])];
      return Ok(enrolled);
    }

    method ConfigForAgent(node: string, credential: string) returns (reply: Result<AgentConfig>)
      requires Valid()
      ensures reply == if Admitted(State(), node, credential) then Ok(configs[node]) else Err(NotFound)
      ensures reply.Ok? <==> node in nodes && credentials[node] == credential && nodes[node].status != Disabled
    {
      if node !in nodes || credentials[node] != credential || nodes[node].status == Disabled {
        return Err(NotFound);
      }
      return Ok(configs[node]);
    }

    method ListenerConflict(candidate: Rule, excluded: string) returns (found: bool)
      ensures found <==> Conflicting(rules, candidate, excluded)
    {
      var todo := rules.Keys;
      while todo != {}
        invariant todo <= rules.Keys
        invariant forall id :: id in rules && id !in todo && id != excluded ==> !Clash(rules[id], candidate)
        decreases todo
      {
        var id :| id in todo;
        todo := todo - {id};
        var rule := rules[id];
        if id != excluded && rule.ingress == candidate.ingress
           && ProtocolsOverlap(rule.protocol, candidate.protocol)
           && rule.listen == candidate.listen {
          assert Clash(rules[id], candidate);
          return true;
        }
        if id != excluded && candidate.mode == Relay && rule.mode == Relay
           && rule.egress == candidate.egress && rule.relay.port == candidate.relay.port {
          assert Clash(rules[id], candidate);
          return true;
        }
      }
      return false;
    }

    method BumpVersions(affected: set<string>)
      requires affected <= nodes.Keys
      modifies this`nodes
      ensures nodes == Bumped(old(nodes), affected)
    {
      var todo := affected;
      while todo != {}
        invariant todo <= affected
        invariant nodes == Bumped(old(nodes), affected - todo)
        decreases todo
      {
        var id :| id in todo;
        todo := todo - {id};
        var node := nodes[id];
        nodes := nodes[id := node.(version := node.version + 1)];
      }
    }

    /** The rebuild of one node: collect its rules, with the egress tunnel address filled in. */
    method RebuildAgentConfig(node: string)
      requires node in nodes
      requires forall id :: id in rules ==> rules[id].id == id
      modifies this`configs
      ensures configs.Keys == old(configs).Keys + {node}
      ensures Materialises(configs[node], nodes, rules, node)
      ensures forall n :: n in old(configs) && n != node ==> configs[n] == old(configs)[n]
    {
      var listed: seq<Rule> := [];
      var todo := rules.Keys;
      while todo != {}
        invariant todo <= rules.Keys
        invariant DistinctIds(listed)
        invariant forall rule :: rule in listed ==>
                    && rule.id in rules && rule.id !in todo && Lists(rules[rule.id], node)
                    && rule == Refreshed(rules[rule.id], nodes)
        invariant forall id :: id in rules && id !in todo && Lists(rules[id], node) ==>
                    Refreshed(rules[id], nodes) in listed
        decreases todo
      {
        var id :| id in todo;
        todo := todo - {id};
        var rule := rules[id];
        if rule.ingress == node || (rule.mode == Relay && rule.egress == node) {
          var cloned := rule;
          if cloned.mode == Relay {
            cloned := cloned.(relay := cloned.relay.(host := TunnelOf(nodes, cloned.egress)));
          }
          listed := listed + [cloned];
        }
      }
      forall rule
        ensures rule in Elements(listed) <==> rule in RebuiltRules(nodes, rules, node)
      {
        if rule in listed {
          assert rules[rule.id].id == rule.id;
        }
      }
      assert Elements(listed) == RebuiltRules(nodes, rules, node);
      configs := configs[node := AgentConfig(nodes[node].version, listed)];
    }

    method RebuildAll(affected: set<string>)
      requires affected <= nodes.Keys
      requires forall id :: id in rules ==> rules[id].id == id
      modifies this`configs
      ensures configs.Keys == old(configs).Keys + affected
      ensures forall n :: n in affected ==> Materialises(configs[n], nodes, rules, n)
      ensures forall n :: n in old(configs) && n !in affected ==> configs[n] == old(configs)[n]
    {
      var todo := affected;
      while todo != {}
        invariant todo <= affected
        invariant configs.Keys == old(configs).Keys + (affected - todo)
        invariant forall n :: n in affected && n !in todo ==> Materialises(configs[n], nodes, rules, n)
        invariant forall n :: n in old(configs) && n !in affected ==> configs[n] == old(configs)[n]
        decreases todo
      {
        var n :| n in todo;
        todo := todo - {n};
        RebuildAgentConfig(n);
      }
    }

    /** Move the affected nodes on, stamp and store the rule, rebuild their configurations. */
    method StoreRule(rule: Rule, affected: set<string>) returns (stored: Rule)
      requires Valid() && RuleNodeIds(rule) <= affected <= nodes.Keys
      modifies this
      ensures stored == Stamped(rule, Bumped(old(nodes), affected))
      ensures Valid() && Edited(old(State()), State(), affected, old(rules)[rule.id := stored])
    {
      hide Materialises, Stamped, WellFormed, RuleNodeIds;
      ghost var before := State();
      WellFormedParts(before);
      BumpVersions(affected);
      stored := Stamped(rule, nodes);
      StampedKeepsNodes(rule, nodes);
      rules := rules[rule.id := stored];
      RebuildAll(affected);
      assert Edited(before, State(), affected, rules);
      StoredTable(before, rule, stored, affected);
      EditedIsWellFormed(before, State(), affected, rules);
    }

    method CreateForwardRule(rule: Rule) returns (reply: Result<Rule>)
      requires Valid()
      modifies this
      ensures Valid() && CreateStep(old(State()), rule, State(), reply)
    {
      hide Edited, Stamped, Conflicting, Bumped;
      if rule.id in rules {
        return Err(Conflict);
      }
      if !NodesAvailable(nodes, rule) {
        return Err(NotFound);
      }
      var clash := ListenerConflict(rule, "");
      if clash {
        return Err(Conflict);
      }
      var stored := StoreRule(rule, RuleNodeIds(rule));
      return Ok(stored);
    }

    method UpdateForwardRule(rule: Rule) returns (reply: Result<Rule>)
      requires Valid()
      modifies this
      ensures Valid() && UpdateStep(old(State()), rule, State(), reply)
    {
      hide Edited, Stamped, Conflicting, Bumped;
      if rule.id !in rules {
        return Err(NotFound);
      }
      var previous := rules[rule.id];
      if !NodesAvailable(nodes, rule) {
        return Err(NotFound);
      }
      var clash := ListenerConflict(rule, rule.id);
      if clash {
        return Err(Conflict);
      }
      var carried := Carried(rule, previous);
      assert RuleNodeIds(carried) == RuleNodeIds(rule);
      var stored := StoreRule(carried, RuleNodeIds(previous) + RuleNodeIds(rule));
      return Ok(stored);
    }

    method DeleteForwardRule(id: string) returns (reply: Result<()>)
      requires Valid()
      modifies this
      ensures Valid() && DeleteStep(old(State()), id, State(), reply)
    {
      if id !in rules {
        return Err(NotFound);
      }
      ghost var before := State();
      var affected := RuleNodeIds(rules[id]);
      BumpVersions(affected);
      rules := rules - {id};
      RebuildAll(affected);
      assert Edited(before, State(), affected, rules);
      EditedIsWellFormed(before, State(), affected, rules);
      return Ok(());
    }

    method UpdateAgentHeartbeat(node: string, credential: string, beat: Heartbeat) returns (reply: Result<Node>)
      requires Valid()
      modifies this
      ensures Valid() && HeartbeatStep(old(State()), node, credential, beat, State(), reply)
    {
      hide WellFormed, Reported, AfterHeartbeat;
      WellFormedParts(State());
      if node !in nodes || credentials[node] != credential || nodes[node].status == Disabled {
        return Err(NotFound);
      }
      ghost var before := State();
      var updated := Capped(nodes[node], beat);
      nodes := nodes[node := updated];
      RecordRuleStats(node, beat.stats, beat.receivedAt);
      HeartbeatIsWellFormed(before, node, beat);
      return Ok(updated);
    }

    /** The node with what it reports; neither version it reports exceeds its own. */
    method Capped(node: Node, beat: Heartbeat) returns (updated: Node)
      ensures updated == Reported(node, beat)
    {
      updated := node.(status := Online, tunnel := beat.tunnel, lastHeartbeat := beat.receivedAt,
                       applied := beat.version, attempted := beat.attempted, lastError := beat.lastError);
      if updated.applied > updated.version {
        updated := updated.(applied := updated.version);
      }
      if updated.attempted == 0 {
        updated := updated.(attempted := updated.applied);
      }
      if updated.attempted > updated.version {
        updated := updated.(attempted := updated.version);
      }
    }

    /** The reported counters of the node's own rules; the result names the rules reported. */
    method RecordReports(node: string, stats: seq<RuleStats>, at: int) returns (reported: set<string>)
      requires forall id :: id in rules ==> rules[id].id == id
      modifies this`rules
      ensures rules == AfterReports(old(rules), node, stats, at)
      ensures forall id :: id in old(rules) && old(rules)[id].ingress == node ==>
                (id in reported <==> LastStats(stats, id).Some?)
    {
      ghost var before := rules;
      reported := {};
      assert AfterReports(before, node, stats[..0], at) == before;
      hide AfterReports, LastStats;
      for k := 0 to |stats|
        invariant rules == AfterReports(before, node, stats[..k], at)
        invariant forall id :: id in before && before[id].ingress == node ==>
                    (id in reported <==> LastStats(stats[..k], id).Some?)
      {
        var report := stats[k];
        OneReport(before, node, stats, k, at);
        ReportsKeepIngress(before, node, stats[..k], at);
        if report.ruleId in rules && rules[report.ruleId].ingress == node {
          var rule := rules[report.ruleId];
          reported := reported + {report.ruleId};
          rules := rules[report.ruleId := rule.(counters := Counters(report.active, report.bytesIn, report.bytesOut, at))];
        }
      }
      assert stats[..|stats|] == stats;
    }

    /** Store the reported counters, then zero the live count of every unreported ingress rule. */
    method RecordRuleStats(node: string, stats: seq<RuleStats>, at: int)
      requires forall id :: id in rules ==> rules[id].id == id
      modifies this`rules
      ensures rules == AfterHeartbeat(old(rules), node, stats, at)
    {
      ghost var before := rules;
      UnreportedIsZeroed(before, node, stats, at);
      hide AfterReports, AfterHeartbeat, LastStats;
      var reported := RecordReports(node, stats, at);
      ZeroUnreported(node, reported, at);
    }

    /** Zero the live count of every rule of this ingress that was not reported. */
    method ZeroUnreported(node: string, reported: set<string>, at: int)
      modifies this`rules
      ensures rules.Keys == old(rules).Keys
      ensures forall id :: id in rules ==>
                rules[id] == if old(rules)[id].ingress == node && id !in reported then Zeroed(old(rules)[id], at) else old(rules)[id]
    {
      ghost var before := rules;
      var todo := rules.Keys;
      while todo != {}
        invariant todo <= rules.Keys == before.Keys
        invariant forall id :: id in todo ==> rules[id] == before[id]
        invariant forall id :: id in before && id !in todo ==>
                    rules[id] == if before[id].ingress == node && id !in reported then Zeroed(before[id], at) else before[id]
        decreases todo
      {
        var id :| id in todo;
        todo := todo - {id};
        if rules[id].ingress == node && id !in reported {
          rules := rules[id := Zeroed(rules[id], at)];
        }
      }
    }
  }
}
