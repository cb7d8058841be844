/**
 Where the system's facts come from, over whole runs: what the control plane shows of a node was
 said by its agent, what an agent runs was served to it, and so the address at which an ingress
 reaches a relay is one its egress has really had.
 */
module Provenance {
  import opened Domain
  import opened ControlStore
  import opened Agents
  import Versions
  import opened Synchronisation
  import StoreEffects

  // ---------- Heartbeats ----------

  /** The agent is up, and this is its account of itself. */
  ghost predicate Says(sys: System, m: Message) {
    && m.node in sys.agents && sys.agents[m.node].process.Up?
    && var p := sys.agents[m.node].process;
    && m.credential == p.current.credential && m.beat.tunnel == p.current.tunnel && m.beat.version == p.current.version
    && m.beat.attempted == (if p.attempted == 0 then p.current.version else p.attempted)
    && m.beat.lastError == p.lastError
  }

  lemma SentOrSaid(sys: System, move: Move, sys': System, parsers: Parsers, m: Message)
    requires Next(sys, move, sys', parsers) && m in sys'.sent
    ensures m in sys.sent || Says(sys, m)
  {
    hide StoreNext, ValidConfig, AfterFetch, AfterBoot, Versions.Remember;
  }

  /** Whatever heartbeat is under way, its agent has said just that at some point. */
  lemma {:induction false} SentWasSaid(run: seq<System>, parsers: Parsers, m: Message) returns (i: nat)
    requires IsRun(run, parsers) && m in run[|run| - 1].sent
    ensures i < |run| && Says(run[i], m)
  {
    hide Next, Moves, Says;
    assert |run| > 1;
    var prefix, move := LastMove(run, parsers);
    SentOrSaid(prefix[|prefix| - 1], move, run[|run| - 1], parsers, m);
    if m in prefix[|prefix| - 1].sent {
      i := SentWasSaid(prefix, parsers, m);
    } else {
      i := |prefix| - 1;
    }
  }

  // ---------- What is shown of a node ----------

  /** A node shows what it did, what the heartbeat just received says, or nothing yet. */
  lemma ShownStep(s: Store, request: Request, s': Store, n: string)
    requires WellFormed(s) && StoreNext(s, request, s') && n in s'.nodes
    ensures || (n in s.nodes && s'.nodes[n].tunnel == s.nodes[n].tunnel && s'.nodes[n].lastError == s.nodes[n].lastError)
            || (s'.nodes[n].tunnel == "" && s'.nodes[n].lastError == "")
            || (request.Beat? && request.node == n && s'.nodes[n].tunnel == request.beat.tunnel
                && s'.nodes[n].lastError == request.beat.lastError)
  {
    if s' != s && Versions.IsEdit(request) {
      var affected, id := Versions.EditOf(s, request, s');
    }
    hide WellFormed, Materialises, Conflicting, NodesAvailable;
  }

  /** The tunnel address and the last error shown for a node are its agent's own words. */
  lemma {:induction false} ShownWasSaid(run: seq<System>, parsers: Parsers, n: string) returns (i: nat, m: Message)
    requires IsRun(run, parsers) && n in run[|run| - 1].store.nodes
    requires run[|run| - 1].store.nodes[n].tunnel != "" || run[|run| - 1].store.nodes[n].lastError != ""
    ensures i < |run| && m.node == n && Says(run[i], m)
    ensures m.beat.tunnel == run[|run| - 1].store.nodes[n].tunnel && m.beat.lastError == run[|run| - 1].store.nodes[n].lastError
  {
    hide *;
    RunStarts(run, parsers);
    var prefix, move := LastMove(run, parsers);
    var sys, sys' := prefix[|prefix| - 1], run[|run| - 1];
    RunIsWellFormed(prefix, parsers);
    var request := StoreRequest(sys, move, sys', parsers);
    if request.Some? {
      ShownStep(sys.store, request.value, sys'.store, n);
    }
    if n in sys.store.nodes && sys'.store.nodes[n].tunnel == sys.store.nodes[n].tunnel
       && sys'.store.nodes[n].lastError == sys.store.nodes[n].lastError {
      i, m := ShownWasSaid(prefix, parsers, n);
    } else {
      m := move.message;
      i := SentWasSaid(prefix, parsers, m);
    }
  }

  lemma RunStarts(run: seq<System>, parsers: Parsers)
    requires IsRun(run, parsers)
    ensures |run| > 0 && run[0] == START && START.store == EMPTY && EMPTY.nodes == map[] && EMPTY.configs == map[]
    ensures START.agents == map[] && START.served == {} && START.sent == {}
  {
  }

  lemma RunIsWellFormed(run: seq<System>, parsers: Parsers)
    requires IsRun(run, parsers)
    ensures WellFormed(run[|run| - 1].store)
  {
    RunsKeepInv(run, parsers);
  }

  /** A move leaves the store alone or makes one request of it; a heartbeat is one that was sent. */
  lemma StoreRequest(sys: System, move: Move, sys': System, parsers: Parsers) returns (request: Option<Request>)
    requires Next(sys, move, sys', parsers)
    ensures request.None? ==> sys'.store == sys.store
    ensures request.Some? ==> StoreNext(sys.store, request.value, sys'.store)
    ensures request.Some? && request.value.Beat? ==>
              && move.Deliver? && move.message in sys.sent && request.value.node == move.message.node
              && request.value.beat.tunnel == move.message.beat.tunnel && request.value.beat.lastError == move.message.beat.lastError
  {
    hide StoreNext, AgentStep, ValidConfig, Versions.Remember;
    request := match move
      case Administer(asked) => Some(asked)
      case Deliver(message, at) => Some(Beat(message.node, message.credential, message.beat.(receivedAt := at)))
      case _ => None;
  }

  // ---------- Relay addresses ----------

  /** This address is the one the agent of the node has on its own tunnel, right now. */
  ghost predicate HasTunnel(sys: System, n: string, address: string) {
    n in sys.agents && sys.agents[n].process.Up? && sys.agents[n].process.current.tunnel == address
  }

  /** Wherever a configuration of the store sends relay traffic, the egress agent has had that address. */
  lemma {:induction false} RelayHostWasTheEgress(run: seq<System>, parsers: Parsers, n: string, r: Rule) returns (i: nat)
    requires IsRun(run, parsers) && n in run[|run| - 1].store.configs && r in run[|run| - 1].store.configs[n].rules
    requires r.mode == Relay && r.relay.host != ""
    ensures i < |run| && HasTunnel(run[i], r.egress, r.relay.host)
  {
    hide *;
    RunStarts(run, parsers);
    var prefix, move := LastMove(run, parsers);
    var sys, sys' := prefix[|prefix| - 1], run[|run| - 1];
    RunIsWellFormed(prefix, parsers);
    var request := StoreRequest(sys, move, sys', parsers);
    if request.Some? {
      StoreEffects.ConfigStep(sys.store, request.value, sys'.store, n);
    }
    if n in sys.store.configs && sys'.store.configs[n] == sys.store.configs[n] {
      i := RelayHostWasTheEgress(prefix, parsers, n, r);
    } else {
      StoreEffects.RebuiltHosts(sys'.store.configs[n], sys'.store, n, r);
      HostIsShown(r, sys'.store);
      var m;
      i, m := ShownWasSaid(run, parsers, r.egress);
      SaidIsHad(run[i], m);
    }
  }

  lemma HostIsShown(r: Rule, s: Store)
    requires StoreEffects.RelayHostIs(r, s) && r.relay.host != ""
    ensures r.egress in s.nodes && s.nodes[r.egress].tunnel == r.relay.host
  {
  }

  lemma SaidIsHad(sys: System, m: Message)
    requires Says(sys, m)
    ensures HasTunnel(sys, m.node, m.beat.tunnel)
  {
  }

  // ---------- What agents run ----------

  /** Every list of rules an agent has, on disk, in use, running or being taken up. */
  ghost function RulesOf(a: Agent): set<seq<Rule>> {
    {a.disk.rules} + match a.process
                     case Down => {}
                     case Up(current, running, _, _, pc) =>
                       {current.rules, running} + match pc
                                                  case Applying(candidate) => {candidate.rules}
                                                  case Saving(candidate) => {candidate.rules}
                                                  case RollingBack(candidate) => {candidate.rules}
                                                  case Committing(candidate) => {candidate.rules}
                                                  case _ => {}
  }

  /** An agent's own steps bring in no rules but those it has fetched. */
  lemma RulesStep(a: Agent, event: Event, parsers: Parsers, rules: seq<Rule>)
    requires AgentStep(a, event, parsers).Some? && rules in RulesOf(AgentStep(a, event, parsers).value)
    ensures rules in RulesOf(a) || (event.Fetched? && rules == event.remote.rules)
  {
    hide ValidConfig, AcceptableRemote;
  }

  ghost predicate WasServed(sys: System, n: string, rules: seq<Rule>) {
    exists config :: (n, config) in sys.served && config.rules == rules
  }

  lemma RulesMove(sys: System, move: Move, sys': System, parsers: Parsers, n: string, rules: seq<Rule>)
    requires Next(sys, move, sys', parsers) && n in sys'.agents && rules in RulesOf(sys'.agents[n])
    ensures rules == [] || (n in sys.agents && rules in RulesOf(sys.agents[n])) || WasServed(sys, n, rules)
    ensures sys.served <= sys'.served
  {
    hide StoreNext, Versions.Remember, AgentStep, ValidConfig;
    if move.AgentMove? && move.node == n {
      RulesStep(sys.agents[n], move.event, parsers, rules);
    }
  }

  /** Whatever rules an agent has were served to it by the control plane, through every crash, roll back and restart. */
  lemma {:induction false} RulesWereServed(run: seq<System>, parsers: Parsers, n: string, rules: seq<Rule>)
    requires IsRun(run, parsers) && n in run[|run| - 1].agents && rules in RulesOf(run[|run| - 1].agents[n]) && rules != []
    ensures WasServed(run[|run| - 1], n, rules)
  {
    hide *;
    RunStarts(run, parsers);
    var prefix, move := LastMove(run, parsers);
    var sys, sys' := prefix[|prefix| - 1], run[|run| - 1];
    RulesMove(sys, move, sys', parsers, n, rules);
    if !WasServed(sys, n, rules) {
      RulesWereServed(prefix, parsers, n, rules);
    }
    StillServed(sys, sys', n, rules);
  }

  lemma StillServed(sys: System, sys': System, n: string, rules: seq<Rule>)
    requires WasServed(sys, n, rules) && sys.served <= sys'.served
    ensures WasServed(sys', n, rules)
  {
  }

  /** What was served was the node's configuration in the store at that time. */
  lemma {:induction false} ServedWasStored(run: seq<System>, parsers: Parsers, n: string, config: AgentConfig) returns (i: nat)
    requires IsRun(run, parsers) && (n, config) in run[|run| - 1].served
    ensures i < |run| && n in run[i].store.configs && run[i].store.configs[n] == config
  {
    hide *;
    RunStarts(run, parsers);
    var prefix, move := LastMove(run, parsers);
    var sys, sys' := prefix[|prefix| - 1], run[|run| - 1];
    ServedStep(sys, move, sys', parsers, n, config);
    if (n, config) in sys.served {
      i := ServedWasStored(prefix, parsers, n, config);
    } else {
      i := |prefix| - 1;
    }
  }

  lemma ServedStep(sys: System, move: Move, sys': System, parsers: Parsers, n: string, config: AgentConfig)
    requires Next(sys, move, sys', parsers) && (n, config) in sys'.served
    ensures (n, config) in sys.served || (n in sys.store.configs && sys.store.configs[n] == config)
  {
    hide StoreNext, Versions.Remember, AgentStep, ValidConfig;
  }

  lemma PrefixOfRun(run: seq<System>, parsers: Parsers, i: nat)
    requires IsRun(run, parsers) && i < |run|
    ensures IsRun(run[..i + 1], parsers) && |run[..i + 1]| == i + 1 && forall k :: 0 <= k <= i ==> run[..i + 1][k] == run[k]
  {
    hide Moves;
  }

  /**
   End to end: the relay address at which an agent dials the egress of a rule is one that the
   egress's agent itself had at some earlier point of the run.
   */
  lemma DialledWasTheEgress(run: seq<System>, parsers: Parsers, n: string, rules: seq<Rule>, r: Rule) returns (i: nat)
    requires IsRun(run, parsers) && n in run[|run| - 1].agents && rules in RulesOf(run[|run| - 1].agents[n])
    requires r in rules && r.mode == Relay && r.relay.host != ""
    ensures i < |run| && HasTunnel(run[i], r.egress, r.relay.host)
  {
    hide *;
    RunStarts(run, parsers);
    RulesWereServed(run, parsers, n, rules);
    var config := ServedConfig(run[|run| - 1], n, rules);
    var k := ServedWasStored(run, parsers, n, config);
    PrefixOfRun(run, parsers, k);
    i := RelayHostWasTheEgress(run[..k + 1], parsers, n, r);
  }

  /**
   And the egress listens on it: an enabled relay rule that an agent uses names its node, has a private
   address, and where the node is the egress, that address is the agent's own tunnel address.
   */
  lemma EgressListensOnItsTunnel(run: seq<System>, parsers: Parsers, n: string, r: Rule)
    requires IsRun(run, parsers) && n != "" && n in run[|run| - 1].agents && run[|run| - 1].agents[n].process.Up?
    requires r in run[|run| - 1].agents[n].process.current.rules && r.enabled && r.mode == Relay
    ensures var own := run[|run| - 1].agents[n].process.current.tunnel;
            && (r.ingress == n || r.egress == n) && parsers.privateAddress(parsers.trim(own))
            && (r.egress == n ==> r.relay.host == own)
  {
    hide *;
    RunStarts(run, parsers);
    CurrentIsValid(run, parsers, n);
    RuleOfValidConfig(run[|run| - 1].agents[n].process.current, parsers, r);
  }

  lemma CurrentIsValid(run: seq<System>, parsers: Parsers, n: string)
    requires IsRun(run, parsers) && n in run[|run| - 1].agents && run[|run| - 1].agents[n].process.Up?
    ensures var current := run[|run| - 1].agents[n].process.current; ValidConfig(current, parsers) && current.nodeId == n
  {
    var sys := run[|run| - 1];
    hide *;
    RunsKeepInv(run, parsers);
    AgentIsGood(sys, n, parsers);
    GoodCurrent(sys.history[n], n, sys.agents[n], parsers);
  }

  lemma GoodCurrent(past: map<nat, set<Rule>>, n: string, a: Agent, parsers: Parsers)
    requires GoodAgent(past, n, a, parsers) && a.process.Up?
    ensures ValidConfig(a.process.current, parsers) && a.process.current.nodeId == n
  {
    hide ValidConfig, Denotes, RunsSince;
  }

  lemma RuleOfValidConfig(config: Config, parsers: Parsers, r: Rule)
    requires ValidConfig(config, parsers) && config.nodeId != "" && r in config.rules && r.enabled && r.mode == Relay
    ensures (r.ingress == config.nodeId || r.egress == config.nodeId) && parsers.privateAddress(parsers.trim(config.tunnel))
    ensures r.egress == config.nodeId ==> r.relay.host == config.tunnel
  {
    var i :| 0 <= i < |config.rules| && config.rules[i] == r;
    assert RuleFits(config, config.rules[i], parsers);
  }

  lemma ServedConfig(sys: System, n: string, rules: seq<Rule>) returns (config: AgentConfig)
    requires WasServed(sys, n, rules)
    ensures (n, config) in sys.served && config.rules == rules
  {
    config :| (n, config) in sys.served && config.rules == rules;
  }
}
