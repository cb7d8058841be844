/**
 What the control store's requests do, told in the fields of nodes, rules and configurations
 alone, and what follows for whole runs: who may fetch and report, what the byte counters of a
 rule are, and which address a relay is reached at.
 */
module StoreEffects {
  import opened Domain
  import opened ControlStore
  import opened Versions
  import opened Sequences

  // ---------- One edit of the rule table ----------

  /** Equal static fields: only the live counters and the host of the relay address may differ. */
  lemma StaticallyEqualIff(a: Rule, b: Rule)
    ensures a.Static() == b.Static() <==> a.(relay := Endpoint(b.relay.host, a.relay.port), counters := b.counters) == b
  {
  }

  /** Two rules clash iff they share a public listener and a network, or an egress and its relay port. */
  lemma ClashIff(a: Rule, b: Rule)
    requires !a.protocol.OtherProtocol? && !b.protocol.OtherProtocol?
    ensures Clash(a, b) <==>
              || (a.ingress == b.ingress && a.listen == b.listen && ((a.UsesTcp() && b.UsesTcp()) || (a.UsesUdp() && b.UsesUdp())))
              || (a.mode == Relay && b.mode == Relay && a.egress == b.egress && a.relay.port == b.relay.port)
  {
  }

  /** The involved nodes move on by exactly one version, and nothing else about any node changes. */
  lemma EditMovesNodes(s: Store, s': Store, affected: set<string>, rules: map<string, Rule>, n: string)
    requires Edited(s, s', affected, rules) && n in s.nodes
    ensures n in s'.nodes
    ensures s'.nodes[n] == s.nodes[n].(version := s.nodes[n].version + if n in affected then 1 else 0)
  {
  }

  /** A rebuilt configuration is the rules that name the node, each with the egress's tunnel address as its relay host. */
  lemma EditRebuilds(s: Store, s': Store, affected: set<string>, rules: map<string, Rule>, n: string)
    requires Edited(s, s', affected, rules) && n in affected
    ensures n in s'.configs && n in s'.nodes && s'.configs[n].version == s'.nodes[n].version
    ensures forall r :: r in s'.configs[n].rules <==>
              exists id :: id in rules && (rules[id].ingress == n || (rules[id].mode == Relay && rules[id].egress == n))
                           && r == (if rules[id].mode != Relay then rules[id]
                                    else rules[id].(relay := Endpoint(if rules[id].egress in s'.nodes then s'.nodes[rules[id].egress].tunnel else "",
                                                                      rules[id].relay.port)))
  {
    var config := s'.configs[n];
    assert Materialises(config, s'.nodes, rules, n);
    forall r
      ensures r in config.rules <==> exists id :: id in rules && Lists(rules[id], n) && Refreshed(rules[id], s'.nodes) == r
    {
      assert r in config.rules <==> r in Elements(config.rules);
    }
  }

  /** A node is named by a rule: it takes clients, or relay traffic. */
  predicate Names(rule: Rule, n: string) {
    n == rule.ingress || (rule.mode == Relay && rule.egress != "" && n == rule.egress)
  }

  lemma NamedNodes(rule: Rule)
    ensures forall n :: Names(rule, n) <==> n in RuleNodeIds(rule)
  {
  }

  /** A new rule is stored iff its id is new, its nodes may be used, and it clashes with no rule (of a non-empty id). */
  lemma CreatedIff(s: Store, rule: Rule, s': Store, reply: Result<Rule>)
    requires CreateStep(s, rule, s', reply)
    ensures reply.Ok? <==>
              && rule.id !in s.rules
              && (forall n :: Names(rule, n) ==> n in s.nodes && s.nodes[n].status != Disabled)
              && (forall id :: id in s.rules && id != "" ==> !Clash(s.rules[id], rule))
    ensures reply.Err? ==> s' == s
  {
    NamedNodes(rule);
    hide Clash, Edited, RuleNodeIds, Stamped, Bumped;
  }

  lemma UpdatedIff(s: Store, rule: Rule, s': Store, reply: Result<Rule>)
    requires UpdateStep(s, rule, s', reply)
    ensures reply.Ok? <==>
              && rule.id in s.rules
              && (forall n :: Names(rule, n) ==> n in s.nodes && s.nodes[n].status != Disabled)
              && (forall id :: id in s.rules && id != rule.id ==> !Clash(s.rules[id], rule))
    ensures reply.Err? ==> s' == s
  {
    NamedNodes(rule);
    hide Clash, Edited, RuleNodeIds, Stamped, Bumped, Carried;
  }

  /** What the stored rule, the other rules and the nodes are after a new rule. */
  lemma CreateInFields(s: Store, rule: Rule, s': Store, stored: Rule)
    requires CreateStep(s, rule, s', Ok(stored)) && rule.ingress in s.nodes
    ensures s'.rules == s.rules[rule.id := stored] && stored == rule.(stamps := stored.stamps)
    ensures forall n :: n in s.nodes ==>
              && n in s'.nodes
              && s'.nodes[n] == s.nodes[n].(version := s.nodes[n].version + if Names(rule, n) then 1 else 0)
    ensures rule.ingress in s'.nodes && stored.stamps.ingress == s'.nodes[rule.ingress].version
    ensures rule.mode == Relay && rule.egress in s.nodes ==> stored.stamps.egress == s'.nodes[rule.egress].version
  {
    NamedNodes(rule);
    hide Clash, Conflicting, NodesAvailable, Materialises, RuleNodeIds;
  }

  /** An update keeps the live counters; the nodes of the old and of the new rule move on, each by one. */
  lemma UpdateInFields(s: Store, rule: Rule, s': Store, stored: Rule)
    requires UpdateStep(s, rule, s', Ok(stored)) && rule.ingress in s.nodes
    ensures rule.id in s.rules && s'.rules == s.rules[rule.id := stored]
    ensures stored == rule.(counters := s.rules[rule.id].counters, stamps := stored.stamps)
    ensures forall n :: n in s.nodes ==>
              && n in s'.nodes
              && s'.nodes[n] == s.nodes[n].(version := s.nodes[n].version
                                                       + if Names(rule, n) || Names(s.rules[rule.id], n) then 1 else 0)
    ensures rule.ingress in s'.nodes && stored.stamps.ingress == s'.nodes[rule.ingress].version
    ensures rule.mode == Relay && rule.egress in s.nodes ==> stored.stamps.egress == s'.nodes[rule.egress].version
    ensures rule.mode != Relay ==> stored.stamps.egress == 0
  {
    NamedNodes(rule);
    NamedNodes(s.rules[rule.id]);
    hide Clash, Conflicting, NodesAvailable, Materialises, RuleNodeIds;
  }

  lemma DeleteInFields(s: Store, id: string, s': Store, reply: Result<()>)
    requires WellFormed(s) && DeleteStep(s, id, s', reply)
    ensures reply.Ok? <==> id in s.rules
    ensures reply.Ok? ==>
              && s'.rules == s.rules - {id}
              && forall n :: n in s.nodes ==>
                   n in s'.nodes && s'.nodes[n] == s.nodes[n].(version := s.nodes[n].version + if Names(s.rules[id], n) then 1 else 0)
    ensures reply.Err? ==> s' == s
  {
    if id in s.rules {
      NamedNodes(s.rules[id]);
    }
    hide Materialises, RuleNodeIds;
  }

  // ---------- One heartbeat ----------

  /** The k-th report is the last one about this rule. */
  predicate IsLastReport(stats: seq<RuleStats>, k: int, id: string) {
    0 <= k < |stats| && stats[k].ruleId == id && forall l :: k < l < |stats| ==> stats[l].ruleId != id
  }

  lemma {:induction false} LastStatsAt(stats: seq<RuleStats>, id: string, k: int)
    requires IsLastReport(stats, k, id)
    ensures LastStats(stats, id) == Some(stats[k])
  {
    if k < |stats| - 1 {
      LastStatsAt(stats[..|stats| - 1], id, k);
    }
  }

  lemma {:induction false} NoStats(stats: seq<RuleStats>, id: string)
    requires forall k :: 0 <= k < |stats| ==> stats[k].ruleId != id
    ensures LastStats(stats, id) == None
  {
    if stats != [] {
      NoStats(stats[..|stats| - 1], id);
    }
  }

  lemma {:induction false} LastStatsWas(stats: seq<RuleStats>, id: string) returns (k: int)
    requires LastStats(stats, id).Some?
    ensures IsLastReport(stats, k, id)
  {
    var n := |stats| - 1;
    if stats[n].ruleId == id {
      k := n;
    } else {
      k := LastStatsWas(stats[..n], id);
    }
  }

  lemma LastStatsIs(stats: seq<RuleStats>, id: string)
    ensures forall k :: IsLastReport(stats, k, id) ==> LastStats(stats, id) == Some(stats[k])
    ensures (forall k :: 0 <= k < |stats| ==> stats[k].ruleId != id) ==> LastStats(stats, id) == None
    ensures LastStats(stats, id).Some? ==> exists k :: IsLastReport(stats, k, id)
  {
    forall k | IsLastReport(stats, k, id)
      ensures LastStats(stats, id) == Some(stats[k])
    {
      LastStatsAt(stats, id, k);
    }
    if forall k :: 0 <= k < |stats| ==> stats[k].ruleId != id {
      NoStats(stats, id);
    }
    if LastStats(stats, id).Some? {
      var k := LastStatsWas(stats, id);
    }
    hide LastStats;
  }

  /** Exactly the holder of the node's credential is heard, unless the node is disabled; nobody else changes anything. */
  lemma HeardIff(s: Store, node: string, credential: string, beat: Heartbeat, s': Store, reply: Result<Node>)
    requires HeartbeatStep(s, node, credential, beat, s', reply)
    ensures reply.Ok? <==>
              node in s.nodes && node in s.credentials && s.credentials[node] == credential && s.nodes[node].status != Disabled
    ensures reply.Err? ==> s' == s
  {
  }

  /** The node is online with what it reported, versions capped by its own; no other node changes. */
  lemma HeartbeatMovesNode(s: Store, node: string, credential: string, beat: Heartbeat, s': Store, reply: Result<Node>)
    requires HeartbeatStep(s, node, credential, beat, s', reply) && reply.Ok?
    ensures node in s'.nodes && s'.nodes - {node} == s.nodes - {node}
    ensures var now := s'.nodes[node]; var version := s.nodes[node].version;
            && now.status == Online && now.version == version
            && now.tunnel == beat.tunnel && now.lastHeartbeat == beat.receivedAt && now.lastError == beat.lastError
            && now.applied == (if beat.version <= version then beat.version else version)
            && now.attempted == (if beat.attempted == 0 then now.applied else if beat.attempted <= version then beat.attempted else version)
    ensures s'.credentials == s.credentials && s'.tokens == s.tokens && s'.configs == s.configs
  {
  }

  /** The node's own rules take their last report, or keep their byte counts and lose their live connections. */
  lemma HeartbeatCounts(s: Store, node: string, credential: string, beat: Heartbeat, s': Store, reply: Result<Node>, id: string)
    requires WellFormed(s) && HeartbeatStep(s, node, credential, beat, s', reply) && reply.Ok? && id in s.rules
    ensures s'.rules.Keys == s.rules.Keys
    ensures var before, after := s.rules[id], s'.rules[id];
            && (before.ingress != node ==> after == before)
            && after == before.(counters := after.counters)
            && (before.ingress == node ==>
                  && (forall k :: IsLastReport(beat.stats, k, id) ==>
                        after.counters == Counters(beat.stats[k].active, beat.stats[k].bytesIn, beat.stats[k].bytesOut, beat.receivedAt))
                  && ((forall k :: 0 <= k < |beat.stats| ==> beat.stats[k].ruleId != id) ==>
                        after.counters == Counters(0, before.counters.bytesIn, before.counters.bytesOut, beat.receivedAt)))
  {
    LastStatsIs(beat.stats, id);
  }

  // ---------- Runs: byte counts ----------

  /** The rule has these byte counts because its ingress reported them in this step. */
  ghost predicate BytesReported(s: Store, request: Request, id: string, counters: Counters) {
    && request.Beat? && id in s.rules && request.node == s.rules[id].ingress
    && exists k :: 0 <= k < |request.beat.stats| && request.beat.stats[k].ruleId == id
                   && request.beat.stats[k].bytesIn == counters.bytesIn && request.beat.stats[k].bytesOut == counters.bytesOut
  }

  lemma SameBytesReported(s: Store, request: Request, id: string, a: Counters, b: Counters)
    requires SameBytes(a, b)
    ensures BytesReported(s, request, id, a) ==> BytesReported(s, request, id, b)
  {
  }

  predicate SameBytes(a: Counters, b: Counters) {
    a.bytesIn == b.bytesIn && a.bytesOut == b.bytesOut
  }

  /** No request but a report by its ingress changes the byte counts of a rule: not an update, nor a heartbeat that leaves it out. */
  lemma BytesStep(s: Store, request: Request, s': Store, id: string)
    requires WellFormed(s) && StoreNext(s, request, s') && id in s.rules && id in s'.rules
    ensures SameBytes(s.rules[id].counters, s'.rules[id].counters) || BytesReported(s, request, id, s'.rules[id].counters)
  {
    hide HeartbeatStep, UpdateStep, CreateStep, WellFormed, BytesReported, Materialises, RuleNodeIds, Bumped;
    match request
    case Beat(node, credential, beat) =>
      var reply :| HeartbeatStep(s, node, credential, beat, s', reply);
      BeatBytes(s, node, credential, beat, s', reply, id);
    case Update(rule) =>
      var reply :| UpdateStep(s, rule, s', reply);
      UpdateBytes(s, rule, s', reply, id);
    case Create(rule) =>
      var reply :| CreateStep(s, rule, s', reply);
      CreateBytes(s, rule, s', reply, id);
    case _ =>
  }

  lemma BeatBytes(s: Store, node: string, credential: string, beat: Heartbeat, s': Store, reply: Result<Node>, id: string)
    requires WellFormed(s) && HeartbeatStep(s, node, credential, beat, s', reply) && id in s.rules
    ensures id in s'.rules
    ensures || SameBytes(s.rules[id].counters, s'.rules[id].counters)
            || BytesReported(s, Beat(node, credential, beat), id, s'.rules[id].counters)
  {
    LastStatsIs(beat.stats, id);
    if reply.Ok? {
      HeartbeatCounts(s, node, credential, beat, s', reply, id);
    }
    hide HeartbeatStep, WellFormed, LastStats;
  }

  lemma UpdateBytes(s: Store, rule: Rule, s': Store, reply: Result<Rule>, id: string)
    requires WellFormed(s) && UpdateStep(s, rule, s', reply) && id in s.rules
    ensures id in s'.rules && SameBytes(s.rules[id].counters, s'.rules[id].counters)
  {
    hide Conflicting, NodesAvailable, Materialises;
  }

  lemma CreateBytes(s: Store, rule: Rule, s': Store, reply: Result<Rule>, id: string)
    requires CreateStep(s, rule, s', reply) && id in s.rules
    ensures id in s'.rules && SameBytes(s.rules[id].counters, s'.rules[id].counters)
  {
    hide Conflicting, NodesAvailable, Materialises;
  }

  /** A rule that is new in the table was created, with the counters it came with. */
  lemma NewRuleWasCreated(s: Store, request: Request, s': Store, id: string)
    requires WellFormed(s) && StoreNext(s, request, s') && id !in s.rules && id in s'.rules
    ensures request.Create? && request.rule.id == id && s'.rules[id].counters == request.rule.counters
  {
  }

  lemma StepAt(run: seq<Store>, j: nat) returns (request: Request)
    requires IsRun(run) && 0 < j < |run|
    ensures StoreNext(run[j - 1], request, run[j]) && WellFormed(run[j - 1])
  {
    PrefixIsRun(run, j - 1);
    RunsAreCoherent(run[..j - 1 + 1]);
    assert StoreMove(run[j - 1], run[j - 1 + 1]);
    request :| StoreNext(run[j - 1], request, run[j]);
  }

  /** In every state the byte counts of a rule are those it was created with, or of a report by its ingress. */
  lemma {:induction false} BytesWereReported(run: seq<Store>, j: nat, id: string) returns (k: nat, request: Request)
    requires IsRun(run) && j < |run| && id in run[j].rules
    ensures k < j && StoreNext(run[k], request, run[k + 1])
    ensures || (request.Create? && request.rule.id == id && SameBytes(request.rule.counters, run[j].rules[id].counters))
            || BytesReported(run[k], request, id, run[j].rules[id].counters)
    decreases j
  {
    hide StoreNext, BytesReported, WellFormed;
    RunStarts(run);
    request := StepAt(run, j);
    k := j - 1;
    if id in run[k].rules {
      BytesStep(run[k], request, run[j], id);
      if !BytesReported(run[k], request, id, run[j].rules[id].counters) {
        var before := run[k].rules[id].counters;
        k, request := BytesWereReported(run, k, id);
        SameBytesReported(run[k], request, id, before, run[j].rules[id].counters);
      }
    } else {
      NewRuleWasCreated(run[k], request, run[j], id);
    }
  }

  /** A heartbeat of the rule's ingress that has a report about it. */
  ghost predicate ReportsOn(s: Store, request: Request, id: string) {
    && request.Beat? && id in s.rules && request.node == s.rules[id].ingress
    && exists k :: 0 <= k < |request.beat.stats| && request.beat.stats[k].ruleId == id
  }

  lemma ReportedIsReport(s: Store, request: Request, id: string, counters: Counters)
    ensures BytesReported(s, request, id, counters) ==> ReportsOn(s, request, id)
  {
  }

  /** Over updates, other rules' edits and heartbeats that leave it out, a rule keeps its byte counts. */
  lemma {:induction false} BytesKept(run: seq<Store>, i: nat, j: nat, id: string)
    requires IsRun(run) && i <= j < |run| && forall k :: i <= k <= j ==> id in run[k].rules
    requires forall k, request :: i <= k < j && StoreNext(run[k], request, run[k + 1]) ==> !ReportsOn(run[k], request, id)
    ensures SameBytes(run[i].rules[id].counters, run[j].rules[id].counters)
    decreases j
  {
    hide StoreNext, IsRun, WellFormed, BytesReported, ReportsOn;
    if i < j {
      var request := StepAt(run, j);
      assert StoreNext(run[j - 1], request, run[j - 1 + 1]);
      assert id in run[j - 1].rules && id in run[j].rules;
      BytesStep(run[j - 1], request, run[j], id);
      ReportedIsReport(run[j - 1], request, id, run[j].rules[id].counters);
      BytesKept(run, i, j - 1, id);
    }
  }

  lemma RunStarts(run: seq<Store>)
    requires IsRun(run)
    ensures run[0].nodes == map[] && run[0].rules == map[] && run[0].configs == map[] && run[0].tokens == map[]
  {
  }

  // ---------- Runs: credentials and tokens ----------

  /** Credentials stay, and a new node has the one its enrolment gave it. */
  lemma CredentialStep(s: Store, request: Request, s': Store, n: string)
    requires WellFormed(s) && StoreNext(s, request, s') && n in s'.nodes
    ensures n in s'.credentials
    ensures n in s.nodes ==> n in s.credentials && s'.credentials[n] == s.credentials[n]
    ensures n !in s.nodes ==>
              && request.Enroll? && request.node == n && request.credential == s'.credentials[n]
              && request.token in s.tokens && !s.tokens[request.token].used && request.now < s.tokens[request.token].expiresAt
  {
  }

  lemma {:induction false} CredentialWasEnrolled(run: seq<Store>, j: nat, n: string) returns (k: nat, request: Request)
    requires IsRun(run) && j < |run| && n in run[j].nodes
    ensures n in run[j].credentials && k < j && StoreNext(run[k], request, run[k + 1])
    ensures n !in run[k].nodes && n in run[k + 1].nodes && request.Enroll? && request.node == n && request.credential == run[j].credentials[n]
    decreases j
  {
    hide StoreNext, WellFormed;
    RunStarts(run);
    request := StepAt(run, j);
    k := j - 1;
    CredentialStep(run[k], request, run[j], n);
    if n in run[k].nodes {
      k, request := CredentialWasEnrolled(run, k, n);
    }
  }

  /** The node was enrolled with this credential in one of the first j steps. */
  ghost predicate Enrolled(run: seq<Store>, j: nat, n: string, credential: string)
    requires j < |run|
  {
    exists k, token, now :: 0 <= k < j && n !in run[k].nodes && n in run[k + 1].nodes
                            && StoreNext(run[k], Enroll(token, now, n, credential), run[k + 1])
  }

  /** Only the credential given at enrolment fetches a node's configuration or moves the node. */
  lemma OnlyTheEnrolledCredential(run: seq<Store>, j: nat, n: string, credential: string)
    requires IsRun(run) && j < |run| && !Enrolled(run, j, n, credential)
    ensures !Admitted(run[j], n, credential)
    ensures forall beat, s' :: StoreNext(run[j], Beat(n, credential, beat), s') ==> s' == run[j]
  {
    if Admitted(run[j], n, credential) {
      EveryNodeIsEnrolled(run, j, n);
    }
    hide Enrolled;
  }

  lemma EveryNodeIsEnrolled(run: seq<Store>, j: nat, n: string)
    requires IsRun(run) && j < |run| && n in run[j].nodes
    ensures n in run[j].credentials && Enrolled(run, j, n, run[j].credentials[n])
  {
    hide StoreNext, IsRun;
    var k, request := CredentialWasEnrolled(run, j, n);
    assert StoreNext(run[k], Enroll(request.token, request.now, n, request.credential), run[k + 1]);
  }

  /** A used token stays used. */
  lemma TokenStep(s: Store, request: Request, s': Store, token: string)
    requires StoreNext(s, request, s') && token in s.tokens && s.tokens[token].used
    ensures token in s'.tokens && s'.tokens[token].used
  {
  }

  lemma {:induction false} UsedStaysUsed(run: seq<Store>, i: nat, j: nat, token: string)
    requires IsRun(run) && i <= j < |run| && token in run[i].tokens && run[i].tokens[token].used
    ensures token in run[j].tokens && run[j].tokens[token].used
    decreases j
  {
    hide StoreNext, IsRun, WellFormed;
    if i < j {
      var request := StepAt(run, j);
      UsedStaysUsed(run, i, j - 1, token);
      TokenStep(run[j - 1], request, run[j], token);
    }
  }

  lemma EnrolmentUsesToken(s: Store, token: string, now: int, node: string, credential: string, s': Store, reply: Result<Node>)
    requires EnrollStep(s, token, now, node, credential, s', reply) && reply.Ok?
    ensures token in s.tokens && !s.tokens[token].used && now < s.tokens[token].expiresAt
    ensures token in s'.tokens && s'.tokens[token].used
  {
  }

  /** One token enrols one node: in any run every later enrolment with it is refused. */
  lemma TokenEnrolsOnce(run: seq<Store>, i: nat, j: nat, token: string, now: int, node: string, credential: string,
                        later: int, other: string, otherCredential: string, first: Result<Node>, second: Result<Node>)
    requires IsRun(run) && i < j < |run| - 1
    requires EnrollStep(run[i], token, now, node, credential, run[i + 1], first) && first.Ok?
    requires EnrollStep(run[j], token, later, other, otherCredential, run[j + 1], second)
    ensures second == Err(TokenInvalid) && run[j + 1] == run[j]
  {
    hide IsRun;
    EnrolmentUsesToken(run[i], token, now, node, credential, run[i + 1], first);
    UsedStaysUsed(run, i + 1, j, token);
  }

  // ---------- Runs: relay addresses ----------

  /** A configuration is new and empty, unchanged, or just rebuilt. */
  lemma ConfigStep(s: Store, request: Request, s': Store, n: string)
    requires WellFormed(s) && StoreNext(s, request, s') && n in s'.configs
    ensures || s'.configs[n].rules == []
            || (n in s.configs && s'.configs[n] == s.configs[n])
            || Materialises(s'.configs[n], s'.nodes, s'.rules, n)
  {
    hide Materialises;
    if s' != s && IsEdit(request) {
      var affected, id := EditOf(s, request, s');
    }
  }

  /** The relay host of this copy of a rule is its egress's tunnel address in this state. */
  predicate RelayHostIs(r: Rule, s: Store) {
    r.relay.host == if r.egress in s.nodes then s.nodes[r.egress].tunnel else ""
  }

  lemma RebuiltHosts(config: AgentConfig, s: Store, n: string, r: Rule)
    requires Materialises(config, s.nodes, s.rules, n) && r in config.rules && r.mode == Relay
    ensures RelayHostIs(r, s)
  {
    assert r in Elements(config.rules);
  }

  /** Wherever a configuration sends relay traffic, the egress has reported that address. */
  lemma {:induction false} RelayHostWasReported(run: seq<Store>, j: nat, n: string, r: Rule) returns (k: nat)
    requires IsRun(run) && j < |run| && n in run[j].configs && r in run[j].configs[n].rules && r.mode == Relay
    ensures k <= j && RelayHostIs(r, run[k])
    decreases j
  {
    hide StoreNext, IsRun, WellFormed, Materialises, RelayHostIs;
    RunStarts(run);
    var request := StepAt(run, j);
    ConfigStep(run[j - 1], request, run[j], n);
    if n in run[j - 1].configs && run[j].configs[n] == run[j - 1].configs[n] {
      k := RelayHostWasReported(run, j - 1, n, r);
    } else {
      RebuiltHosts(run[j].configs[n], run[j], n, r);
      k := j;
    }
  }
}
