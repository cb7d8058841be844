/** How an agent turns the rules of its configuration into listeners (`prepareRules`). */
module Preparation {
  import opened Domain

  datatype Network = TcpNetwork | UdpNetwork

  datatype Socket = Socket(network: Network, address: Endpoint)

  /** A rule as it runs on this node, with the addresses it listens on and dials. */
  datatype Prepared = Prepared(rule: Rule, listen: Endpoint, target: Endpoint)

  predicate Belongs(rule: Rule, node: string) {
    rule.mode != Relay || node == rule.ingress || node == rule.egress
  }

  /** The rule seen from one side: the ingress dials the relay, the egress listens on it. */
  function Effective(rule: Rule, node: string): Rule {
    if rule.mode != Relay then rule
    else if node == rule.ingress then rule.(target := rule.relay)
    else rule.(listen := rule.relay, access := Access([], []), bandwidthKbps := 0)
  }

  function ListenAddress(effective: Rule, parsers: Parsers): Endpoint {
    var host := parsers.trim(effective.listen.host);
    Endpoint(if host == "" then "0.0.0.0" else host, effective.listen.port)
  }

  /** A rule in its effective form determines both addresses. */
  function Finished(effective: Rule, parsers: Parsers): Prepared {
    Prepared(effective, ListenAddress(effective, parsers),
             Endpoint(parsers.trim(effective.target.host), effective.target.port))
  }

  function Prepare(rule: Rule, node: string, parsers: Parsers): Prepared {
    Finished(Effective(rule, node), parsers)
  }

  function NetworksOf(rule: Rule): seq<Network> {
    (if rule.UsesTcp() then [TcpNetwork] else []) + (if rule.UsesUdp() then [UdpNetwork] else [])
  }

  /** The sockets a prepared rule needs. */
  function SocketsOf(prepared: Prepared): set<Socket> {
    set network | network in NetworksOf(prepared.rule) :: Socket(network, prepared.listen)
  }

  /** Two enabled rules of one configuration that cannot both run here. */
  ghost predicate Collide(first: Rule, second: Rule, node: string, parsers: Parsers) {
    || first.id == second.id
    || SocketsOf(Prepare(first, node, parsers)) * SocketsOf(Prepare(second, node, parsers)) != {}
  }

  ghost predicate RuleAcceptable(rule: Rule, node: string, parsers: Parsers) {
    rule.Valid(parsers) && (rule.enabled ==> Belongs(rule, node))
  }

  /** Exactly the configurations an agent can turn into listeners. */
  ghost predicate Acceptable(rules: seq<Rule>, node: string, parsers: Parsers) {
    && (forall i :: 0 <= i < |rules| ==> RuleAcceptable(rules[i], node, parsers))
    && (forall i, j :: 0 <= i < j < |rules| && rules[i].enabled && rules[j].enabled ==>
          !Collide(rules[i], rules[j], node, parsers))
  }

  ghost function EnabledIds(rules: seq<Rule>): set<string> {
    set i | 0 <= i < |rules| && rules[i].enabled :: rules[i].id
  }

  ghost function RuleSockets(rule: Rule, node: string, parsers: Parsers): set<Socket> {
    if rule.enabled then SocketsOf(Prepare(rule, node, parsers)) else {}
  }

  ghost function ClaimedSockets(rules: seq<Rule>, node: string, parsers: Parsers): set<Socket> {
    if rules == [] then {}
    else ClaimedSockets(rules[..|rules| - 1], node, parsers) + RuleSockets(rules[|rules| - 1], node, parsers)
  }

  /** The prepared form of the enabled rules, a later rule replacing an earlier one of the same id. */
  ghost function DesiredMap(rules: seq<Rule>, node: string, parsers: Parsers): map<string, Prepared> {
    if rules == [] then map[]
    else
      var before, last := DesiredMap(rules[..|rules| - 1], node, parsers), rules[|rules| - 1];
      if last.enabled then before[last.id := Prepare(last, node, parsers)] else before
  }

  /** `desired` is the prepared form of exactly the enabled rules. */
  ghost predicate Desires(desired: map<string, Prepared>, rules: seq<Rule>, node: string, parsers: Parsers) {
    && desired.Keys == EnabledIds(rules)
    && forall i :: 0 <= i < |rules| && rules[i].enabled ==>
         rules[i].id in desired && desired[rules[i].id] == Prepare(rules[i], node, parsers)
  }

  lemma PrefixAcceptable(rules: seq<Rule>, k: nat, node: string, parsers: Parsers)
    requires k <= |rules| && Acceptable(rules, node, parsers)
    ensures Acceptable(rules[..k], node, parsers)
  {
  }

  /** A rule that repeats no enabled id and no claimed socket collides with no earlier rule, and conversely. */
  lemma {:induction false} UnclaimedMeansNoCollision(rules: seq<Rule>, last: Rule, node: string, parsers: Parsers)
    requires last.enabled
    ensures (forall i :: 0 <= i < |rules| && rules[i].enabled ==> !Collide(rules[i], last, node, parsers))
       <==> last.id !in EnabledIds(rules)
            && ClaimedSockets(rules, node, parsers) * SocketsOf(Prepare(last, node, parsers)) == {}
  {
    if rules != [] {
      var n := |rules| - 1;
      var prefix := rules[..n];
      UnclaimedMeansNoCollision(prefix, last, node, parsers);
      assert EnabledIds(rules) == EnabledIds(prefix) + if rules[n].enabled then {rules[n].id} else {};
      var mine := SocketsOf(Prepare(last, node, parsers));
      assert ClaimedSockets(rules, node, parsers) * mine
          == ClaimedSockets(prefix, node, parsers) * mine + RuleSockets(rules[n], node, parsers) * mine;
      assert forall i :: 0 <= i < n ==> prefix[i] == rules[i];
    }
  }

  /** A longer list is acceptable when its prefix is and the last rule claims nothing twice. */
  lemma AcceptableWithLast(prefix: seq<Rule>, last: Rule, node: string, parsers: Parsers)
    ensures Acceptable(prefix + [last], node, parsers) <==>
              && Acceptable(prefix, node, parsers)
              && RuleAcceptable(last, node, parsers)
              && (last.enabled ==>
                    && last.id !in EnabledIds(prefix)
                    && ClaimedSockets(prefix, node, parsers) * RuleSockets(last, node, parsers) == {})
  {
    var rules := prefix + [last];
    if last.enabled {
      UnclaimedMeansNoCollision(prefix, last, node, parsers);
    }
    if Acceptable(rules, node, parsers) {
      PrefixAcceptable(rules, |prefix|, node, parsers);
      assert rules[..|prefix|] == prefix;
      assert RuleAcceptable(rules[|prefix|], node, parsers);
      forall i | 0 <= i < |prefix| && prefix[i].enabled && last.enabled
        ensures !Collide(prefix[i], last, node, parsers)
      {
        assert !Collide(rules[i], rules[|prefix|], node, parsers);
      }
    }
  }

  lemma EnabledIdsWithLast(prefix: seq<Rule>, last: Rule)
    ensures EnabledIds(prefix + [last]) == EnabledIds(prefix) + if last.enabled then {last.id} else {}
  {
    var rules := prefix + [last];
    forall id | id in EnabledIds(prefix)
      ensures id in EnabledIds(rules)
    {
      var i :| 0 <= i < |prefix| && prefix[i].enabled && prefix[i].id == id;
      assert rules[i] == prefix[i];
    }
    assert rules[|prefix|] == last;
  }

  /** In an acceptable list no enabled rule is lost: ids and prepared forms match one to one. */
  lemma {:induction false} DesiredMapIsExact(rules: seq<Rule>, node: string, parsers: Parsers)
    ensures DesiredMap(rules, node, parsers).Keys == EnabledIds(rules)
    ensures Acceptable(rules, node, parsers) ==> Desires(DesiredMap(rules, node, parsers), rules, node, parsers)
  {
    hide Prepare, ClaimedSockets, RuleSockets, Collide, RuleAcceptable;
    if rules != [] {
      var n := |rules| - 1;
      var prefix, last := rules[..n], rules[n];
      DesiredMapIsExact(prefix, node, parsers);
      assert prefix + [last] == rules;
      EnabledIdsWithLast(prefix, last);
      AcceptableWithLast(prefix, last, node, parsers);
      assert forall i :: 0 <= i < n ==> prefix[i] == rules[i];
      assert forall i :: 0 <= i < n && prefix[i].enabled ==> prefix[i].id in EnabledIds(prefix);
    }
  }

  // ---------- Who listens where and dials whom ----------

  /** The ingress of a relay rule takes clients at the public address and dials the relay address. */
  lemma IngressDialsRelay(rules: seq<Rule>, node: string, parsers: Parsers, rule: Rule)
    requires Acceptable(rules, node, parsers) && rule in rules && rule.enabled
    requires rule.mode == Relay && rule.ingress == node
    ensures rule.id in DesiredMap(rules, node, parsers)
    ensures var prepared := DesiredMap(rules, node, parsers)[rule.id]; var host := parsers.trim(rule.listen.host);
            && prepared.listen == Endpoint(if host == "" then "0.0.0.0" else host, rule.listen.port)
            && prepared.target == Endpoint(parsers.trim(rule.relay.host), rule.relay.port)
            && prepared.rule == rule.(target := rule.relay)
  {
    DesiredMapIsExact(rules, node, parsers);
  }

  /** Its egress takes relay traffic at the relay address, from anywhere and at any rate, and dials the target. */
  lemma EgressDialsTarget(rules: seq<Rule>, node: string, parsers: Parsers, rule: Rule)
    requires Acceptable(rules, node, parsers) && rule in rules && rule.enabled
    requires rule.mode == Relay && rule.ingress != node
    ensures rule.egress == node && rule.id in DesiredMap(rules, node, parsers)
    ensures var prepared := DesiredMap(rules, node, parsers)[rule.id]; var host := parsers.trim(rule.relay.host);
            && prepared.listen == Endpoint(if host == "" then "0.0.0.0" else host, rule.relay.port)
            && prepared.target == Endpoint(parsers.trim(rule.target.host), rule.target.port)
            && prepared.rule == rule.(listen := rule.relay, access := Access([], []), bandwidthKbps := 0)
  {
    DesiredMapIsExact(rules, node, parsers);
    var i :| 0 <= i < |rules| && rules[i] == rule;
    assert RuleAcceptable(rules[i], node, parsers);
  }

  /** A direct rule takes clients at its public address, under its own access lists and rate, and dials its target. */
  lemma DirectDialsTarget(rules: seq<Rule>, node: string, parsers: Parsers, rule: Rule)
    requires Acceptable(rules, node, parsers) && rule in rules && rule.enabled && rule.mode != Relay
    ensures rule.id in DesiredMap(rules, node, parsers)
    ensures var prepared := DesiredMap(rules, node, parsers)[rule.id]; var host := parsers.trim(rule.listen.host);
            && prepared.listen == Endpoint(if host == "" then "0.0.0.0" else host, rule.listen.port)
            && prepared.target == Endpoint(parsers.trim(rule.target.host), rule.target.port)
            && prepared.rule == rule
  {
    DesiredMapIsExact(rules, node, parsers);
  }

  /**
   Whatever an agent runs can be run: real ports on both sides, an address to dial, one or both of the
   two networks, access lists of CIDR blocks, and a limit of at most ten gigabits a second.
   */
  lemma PreparedIsUsable(rules: seq<Rule>, node: string, parsers: Parsers, id: string)
    requires Acceptable(rules, node, parsers) && id in DesiredMap(rules, node, parsers)
    ensures var prepared := DesiredMap(rules, node, parsers)[id]; var rule := prepared.rule;
            && prepared.listen.port != 0 && prepared.listen.host != "" && prepared.target.port != 0
            && (if rule.mode == Relay && rule.ingress == node then parsers.privateAddress(prepared.target.host)
                else prepared.target.host != "")
            && (rule.mode == Relay ==> rule.ingress != rule.egress && (node == rule.ingress || node == rule.egress))
            && (rule.mode == Relay || (rule.mode == Direct && rule.relay == Endpoint("", 0) && rule.egress == ""))
            && (rule.protocol == Tcp || rule.protocol == Udp || rule.protocol == TcpUdp)
            && (forall block :: block in rule.access.allow || block in rule.access.deny ==> parsers.cidr(block))
            && rule.bandwidthKbps <= 10_000_000
            && rule.id == id && parsers.trim(id) != "" && parsers.trim(rule.name) != "" && rule.ingress != ""
  {
    DesiredMapIsExact(rules, node, parsers);
    var i :| 0 <= i < |rules| && rules[i].enabled && rules[i].id == id;
    assert RuleAcceptable(rules[i], node, parsers);
    hide Acceptable, DesiredMap;
  }

  /** End to end: what the ingress of a relay rule dials is what its egress listens on. */
  lemma RelayMeets(atIngress: seq<Rule>, atEgress: seq<Rule>, parsers: Parsers, rule: Rule)
    requires rule.enabled && rule.mode == Relay && rule.ingress != rule.egress && parsers.trim(rule.relay.host) != ""
    requires Acceptable(atIngress, rule.ingress, parsers) && rule in atIngress
    requires Acceptable(atEgress, rule.egress, parsers) && rule in atEgress
    ensures rule.id in DesiredMap(atIngress, rule.ingress, parsers) && rule.id in DesiredMap(atEgress, rule.egress, parsers)
    ensures DesiredMap(atIngress, rule.ingress, parsers)[rule.id].target == DesiredMap(atEgress, rule.egress, parsers)[rule.id].listen
    ensures DesiredMap(atEgress, rule.egress, parsers)[rule.id].target == Endpoint(parsers.trim(rule.target.host), rule.target.port)
  {
    IngressDialsRelay(atIngress, rule.ingress, parsers, rule);
    EgressDialsTarget(atEgress, rule.egress, parsers, rule);
  }

  /** In an acceptable list no two rules of one network listen on the same address. */
  lemma DesiredIsSeparate(rules: seq<Rule>, node: string, parsers: Parsers, a: string, b: string, network: Network)
    requires Acceptable(rules, node, parsers) && a != b
    requires a in DesiredMap(rules, node, parsers) && b in DesiredMap(rules, node, parsers)
    requires network in NetworksOf(DesiredMap(rules, node, parsers)[a].rule)
    requires network in NetworksOf(DesiredMap(rules, node, parsers)[b].rule)
    ensures DesiredMap(rules, node, parsers)[a].listen != DesiredMap(rules, node, parsers)[b].listen
  {
    DesiredMapIsExact(rules, node, parsers);
    hide DesiredMap, Prepare, Acceptable, NetworksOf;
    var i :| 0 <= i < |rules| && rules[i].enabled && rules[i].id == a;
    var j :| 0 <= j < |rules| && rules[j].enabled && rules[j].id == b;
    if i < j {
      NoSharedListener(rules, i, j, node, parsers, network);
    } else {
      NoSharedListener(rules, j, i, node, parsers, network);
    }
  }

  lemma NoSharedListener(rules: seq<Rule>, i: nat, j: nat, node: string, parsers: Parsers, network: Network)
    requires Acceptable(rules, node, parsers) && i < j < |rules| && rules[i].enabled && rules[j].enabled
    requires network in NetworksOf(Prepare(rules[i], node, parsers).rule)
    requires network in NetworksOf(Prepare(rules[j], node, parsers).rule)
    ensures Prepare(rules[i], node, parsers).listen != Prepare(rules[j], node, parsers).listen
  {
    assert !Collide(rules[i], rules[j], node, parsers);
    var first, second := Prepare(rules[i], node, parsers), Prepare(rules[j], node, parsers);
    assert Socket(network, first.listen) in SocketsOf(first);
    assert Socket(network, second.listen) in SocketsOf(second);
    assert Socket(network, first.listen) !in SocketsOf(first) * SocketsOf(second);
  }

  /** Claim one rule's sockets; fails at the first one another rule already listens on. */
  method ClaimSockets(listeners: map<Socket, string>, prepared: Prepared)
    returns (ok: bool, claimed: map<Socket, string>)
    ensures ok <==> listeners.Keys * SocketsOf(prepared) == {}
    ensures ok ==> claimed.Keys == listeners.Keys + SocketsOf(prepared)
  {
    var networks := NetworksOf(prepared.rule);
    claimed := listeners;
    for k := 0 to |networks|
      invariant claimed.Keys == listeners.Keys + set i | 0 <= i < k :: Socket(networks[i], prepared.listen)
      invariant forall i :: 0 <= i < k ==> Socket(networks[i], prepared.listen) !in listeners
    {
      var key := Socket(networks[k], prepared.listen);
      assert networks[k] in networks && key in SocketsOf(prepared);
      if key in claimed {
        assert key in listeners.Keys * SocketsOf(prepared);
        return false, claimed;
      }
      claimed := claimed[key := prepared.rule.id];
    }
    return true, claimed;
  }

  method PrepareRules(rules: seq<Rule>, node: string, parsers: Parsers)
    returns (desired: Option<map<string, Prepared>>)
    ensures desired.Some? <==> Acceptable(rules, node, parsers)
    ensures desired.Some? ==> desired.value == DesiredMap(rules, node, parsers)
  {
    var prepared: map<string, Prepared> := map[];
    var listeners: map<Socket, string> := map[];
    for k := 0 to |rules|
      invariant Acceptable(rules[..k], node, parsers)
      invariant prepared == DesiredMap(rules[..k], node, parsers)
      invariant listeners.Keys == ClaimedSockets(rules[..k], node, parsers)
    {
      var rule := rules[k];
      assert rules[..k + 1] == rules[..k] + [rule];
      AcceptableWithLast(rules[..k], rule, node, parsers);
      DesiredMapIsExact(rules[..k], node, parsers);
      assert rules[..k + 1][..k] == rules[..k];
      var fits, claimed := AdmitRule(rule, prepared.Keys, listeners, node, parsers);
      if !fits {
        if Acceptable(rules, node, parsers) {
          PrefixAcceptable(rules, k + 1, node, parsers);
        }
        return None;
      }
      if rule.enabled {
        listeners := claimed;
        prepared := prepared[rule.id := Prepare(rule, node, parsers)];
      }
    }
    assert rules[..|rules|] == rules;
    return Some(prepared);
  }

  /** The checks on one rule, given the ids and sockets of the enabled rules before it. */
  method AdmitRule(rule: Rule, ids: set<string>, listeners: map<Socket, string>, node: string, parsers: Parsers)
    returns (ok: bool, claimed: map<Socket, string>)
    ensures ok <==>
              && RuleAcceptable(rule, node, parsers)
              && (rule.enabled ==> rule.id !in ids && listeners.Keys * RuleSockets(rule, node, parsers) == {})
    ensures ok ==> claimed.Keys == listeners.Keys + RuleSockets(rule, node, parsers)
  {
    if !rule.Valid(parsers) {
      return false, listeners;
    }
    if !rule.enabled {
      return true, listeners;
    }
    if rule.id in ids || !Belongs(rule, node) {
      return false, listeners;
    }
    ok, claimed := ClaimSockets(listeners, Prepare(rule, node, parsers));
  }
}
