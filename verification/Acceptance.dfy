/** Whether what the store accepts is also what the agents can run. */
module Acceptance {
  import opened Domain
  import opened ControlStore
  import opened Versions
  import opened Preparation

  /** Trimming leaves the empty text empty; the only fact about it used here. */
  predicate TrimsEmpty(parsers: Parsers) {
    parsers.trim("") == ""
  }

  ghost predicate AllValid(rules: seq<Rule>, parsers: Parsers) {
    forall i :: 0 <= i < |rules| ==> rules[i].Valid(parsers)
  }

  ghost predicate TrimmedListenHosts(rules: seq<Rule>, node: string, parsers: Parsers) {
    forall i :: 0 <= i < |rules| && rules[i].enabled && rules[i].ingress == node ==>
      rules[i].listen.host != "" && parsers.trim(rules[i].listen.host) == rules[i].listen.host
  }

  /** A public listener of the node sits on the address where it also takes relay traffic. */
  predicate CrossListener(entry: Rule, exit: Rule, node: string, parsers: Parsers) {
    && entry.ingress == node
    && exit.mode == Relay && exit.egress == node && exit.ingress != node
    && ProtocolsOverlap(entry.protocol, exit.protocol)
    && entry.listen == ListenAddress(Effective(exit, node), parsers)
  }

  ghost predicate NoCrossListeners(rules: seq<Rule>, node: string, parsers: Parsers) {
    forall i, j :: 0 <= i < |rules| && 0 <= j < |rules| && rules[i].enabled && rules[j].enabled ==>
      !CrossListener(rules[i], rules[j], node, parsers)
  }

  lemma SocketsMeetIff(first: Prepared, second: Prepared)
    requires !first.rule.protocol.OtherProtocol? && !second.rule.protocol.OtherProtocol?
    ensures SocketsOf(first) * SocketsOf(second) != {}
       <==> first.listen == second.listen && ProtocolsOverlap(first.rule.protocol, second.rule.protocol)
  {
    if first.listen == second.listen && ProtocolsOverlap(first.rule.protocol, second.rule.protocol) {
      var network := if first.rule.UsesTcp() && second.rule.UsesTcp() then TcpNetwork else UdpNetwork;
      assert network in NetworksOf(first.rule) && network in NetworksOf(second.rule);
      assert Socket(network, first.listen) in SocketsOf(first) * SocketsOf(second);
    }
  }

  /** For two stored rules of a node, running both fails exactly when they listen across. */
  lemma PairCollidesIff(a: Rule, b: Rule, node: string, parsers: Parsers)
    requires a.Valid(parsers) && b.Valid(parsers) && Lists(a, node) && Lists(b, node)
    requires a.id != b.id && !Clash(a, b)
    requires a.ingress == node ==> a.listen.host != "" && parsers.trim(a.listen.host) == a.listen.host
    requires b.ingress == node ==> b.listen.host != "" && parsers.trim(b.listen.host) == b.listen.host
    ensures Collide(a, b, node, parsers)
       <==> CrossListener(a, b, node, parsers) || CrossListener(b, a, node, parsers)
  {
    SocketsMeetIff(Prepare(a, node, parsers), Prepare(b, node, parsers));
  }

  lemma ClashIsStatic(a: Rule, b: Rule, a': Rule, b': Rule)
    requires a.Static() == a'.Static() && b.Static() == b'.Static()
    ensures Clash(a, b) == Clash(a', b')
  {
    assert a.listen == a.Static().listen && b.listen == b.Static().listen;
  }

  lemma ConfigRulesAreStored(run: seq<Store>, n: string, rule: Rule)
    requires IsRun(run) && n != "" && n in run[|run| - 1].configs && rule in run[|run| - 1].configs[n].rules
    ensures var s := run[|run| - 1];
            rule.id in s.rules && s.rules[rule.id].Static() == rule.Static() && Lists(rule, n)
  {
    RunsAreCoherent(run);
    var s := run[|run| - 1];
    assert n in s.nodes && NodeCoherent(s, HistoryOf(run)[n], n);
    assert rule.Static() in StaticSet(s.configs[n].rules);
    var id :| id in s.rules && Lists(s.rules[id], n) && s.rules[id].Static() == rule.Static();
    StaticsDecide(s.rules[id], rule, n);
  }

  lemma ConfigPairsDoNotClash(run: seq<Store>, n: string, i: nat, j: nat, parsers: Parsers)
    requires IsRun(run) && n != "" && n in run[|run| - 1].configs && TrimsEmpty(parsers)
    requires i < j < |run[|run| - 1].configs[n].rules|
    requires var rules := run[|run| - 1].configs[n].rules; rules[i].Valid(parsers) && rules[j].Valid(parsers)
    ensures var rules := run[|run| - 1].configs[n].rules;
            rules[i].id != rules[j].id && !Clash(rules[i], rules[j])
  {
    var s := run[|run| - 1];
    var a, b := s.configs[n].rules[i], s.configs[n].rules[j];
    ConfigRulesAreStored(run, n, a);
    ConfigRulesAreStored(run, n, b);
    RunsAreCoherent(run);
    assert n in s.nodes && NodeCoherent(s, HistoryOf(run)[n], n);
    RunsAreExclusive(run);
    ClashIsStatic(s.rules[a.id], s.rules[b.id], a, b);
  }

  /**
   The bridge. Take any reachable store and any node whose configuration validates and whose
   public listen hosts are trimmed. The agent can prepare the configuration if and only if no
   enabled public listener sits on an address where the node takes relay traffic: the store's
   conflict check covers every other reason to refuse.
   */
  lemma ConfigIsAcceptableIff(run: seq<Store>, n: string, parsers: Parsers)
    requires IsRun(run) && n != "" && n in run[|run| - 1].configs && TrimsEmpty(parsers)
    requires AllValid(run[|run| - 1].configs[n].rules, parsers)
    requires TrimmedListenHosts(run[|run| - 1].configs[n].rules, n, parsers)
    ensures Acceptable(run[|run| - 1].configs[n].rules, n, parsers)
       <==> NoCrossListeners(run[|run| - 1].configs[n].rules, n, parsers)
  {
    var rules := run[|run| - 1].configs[n].rules;
    forall i | 0 <= i < |rules|
      ensures RuleAcceptable(rules[i], n, parsers) && Lists(rules[i], n)
    {
      ConfigRulesAreStored(run, n, rules[i]);
    }
    forall i, j | 0 <= i < j < |rules| && rules[i].enabled && rules[j].enabled
      ensures Collide(rules[i], rules[j], n, parsers)
         <==> CrossListener(rules[i], rules[j], n, parsers) || CrossListener(rules[j], rules[i], n, parsers)
    {
      ConfigPairsDoNotClash(run, n, i, j, parsers);
      PairCollidesIff(rules[i], rules[j], n, parsers);
    }
    assert forall i :: 0 <= i < |rules| ==> !CrossListener(rules[i], rules[i], n, parsers);
  }
}
