/**
 The control store, its agents and the network between them. Heartbeats may be lost,
 delayed, reordered or delivered repeatedly; every apply, save and rollback may fail; an
 agent may die at any point and restart from its file. The theorem is that the applied
 version shown by the control plane is never an overstatement.
 */
module Synchronisation {
  import opened Domain
  import opened ControlStore
  import opened Versions
  import opened Agents

  datatype Message = Message(node: string, credential: string, beat: Heartbeat)

  datatype System = System(store: Store, history: History, agents: map<string, Agent>,
                           sent: set<Message>, served: set<(string, AgentConfig)>)

  const START := System(EMPTY, map[], map[], {}, {})

  datatype Move =
    | Administer(request: Request)
    | Deliver(message: Message, at: int)
    | Install(node: string, controlUrl: string, credential: string, tunnel: string)
    | Serve(node: string)
    | AgentMove(node: string, event: Event, stats: seq<RuleStats>)

  function BeatOf(p: Process, stats: seq<RuleStats>): Heartbeat
    requires p.Up?
  {
    Heartbeat(p.current.tunnel, p.current.version,
              if p.attempted == 0 then p.current.version else p.attempted, p.lastError, stats, 0)
  }

  ghost predicate StoreChanges(sys: System, request: Request, sys': System) {
    && StoreNext(sys.store, request, sys'.store)
    && sys' == sys.(store := sys'.store, history := Remember(sys.history, sys'.store))
  }

  ghost predicate Next(sys: System, move: Move, sys': System, parsers: Parsers) {
    match move
    case Administer(request) => !request.Beat? && StoreChanges(sys, request, sys')
    case Deliver(message, at) =>
      && message in sys.sent
      && StoreChanges(sys, Beat(message.node, message.credential, message.beat.(receivedAt := at)), sys')
    case Install(node, controlUrl, credential, tunnel) =>
      var config := Config(1, controlUrl, node, credential, tunnel, []);
      && node in sys.store.nodes && node !in sys.agents && ValidConfig(config, parsers)
      && sys' == sys.(agents := sys.agents[node := Agent(config, Down)])
    case Serve(node) =>
      && node in sys.store.configs
      && sys' == sys.(served := sys.served + {(node, sys.store.configs[node])})
    case AgentMove(node, event, stats) =>
      && node in sys.agents
      && AgentStep(sys.agents[node], event, parsers).Some?
      && (event.Fetched? ==> (node, event.remote) in sys.served)
      && sys' == sys.(
           agents := sys.agents[node := AgentStep(sys.agents[node], event, parsers).value],
           sent := if event.Send?
                   then sys.sent + {Message(node, sys.agents[node].process.current.credential,
                                            BeatOf(sys.agents[node].process, stats))}
                   else sys.sent)
  }

  ghost predicate Moves(sys: System, sys': System, parsers: Parsers) {
    exists move :: Next(sys, move, sys', parsers)
  }

  ghost predicate IsRun(run: seq<System>, parsers: Parsers) {
    && run != [] && run[0] == START
    && forall i {:trigger run[i]} :: 0 <= i < |run| - 1 ==> Moves(run[i], run[i + 1], parsers)
  }

  lemma LastMove(run: seq<System>, parsers: Parsers) returns (prefix: seq<System>, move: Move)
    requires IsRun(run, parsers) && |run| > 1
    ensures IsRun(prefix, parsers) && |prefix| == |run| - 1 && prefix == run[..|run| - 1]
    ensures Next(prefix[|prefix| - 1], move, run[|run| - 1], parsers)
  {
    prefix := run[..|run| - 1];
    assert forall k :: 0 <= k < |prefix| ==> prefix[k] == run[k];
    assert Moves(run[|run| - 2], run[|run| - 2 + 1], parsers);
    move :| Next(run[|run| - 2], move, run[|run| - 1], parsers);
  }

  // ---------- The invariant ----------

  /** The rules stand for this version of the node. */
  ghost predicate Denotes(past: map<nat, set<Rule>>, version: nat, rules: seq<Rule>) {
    version in past && past[version] == StaticSet(rules)
  }

  ghost predicate RunsSince(past: map<nat, set<Rule>>, version: nat, rules: seq<Rule>) {
    exists v :: version <= v && Denotes(past, v, rules)
  }

  ghost predicate GoodConfig(past: map<nat, set<Rule>>, node: string, config: Config, parsers: Parsers) {
    ValidConfig(config, parsers) && config.nodeId == node && Denotes(past, config.version, config.rules)
  }

  ghost predicate GoodCandidate(past: map<nat, set<Rule>>, node: string, current: Config, candidate: Config,
                                parsers: Parsers) {
    GoodConfig(past, node, candidate, parsers) && current.version < candidate.version
  }

  ghost predicate GoodAgent(past: map<nat, set<Rule>>, node: string, a: Agent, parsers: Parsers) {
    && GoodConfig(past, node, a.disk, parsers)
    && match a.process
       case Down => true
       case Up(current, running, _, _, pc) =>
         && GoodConfig(past, node, current, parsers)
         && RunsSince(past, current.version, running)
         && match pc
            case Applying(candidate) =>
              GoodCandidate(past, node, current, candidate, parsers) && a.disk == current
            case Saving(candidate) =>
              GoodCandidate(past, node, current, candidate, parsers) && a.disk == current && running == candidate.rules
            case RollingBack(candidate) =>
              GoodCandidate(past, node, current, candidate, parsers) && a.disk == current && running == candidate.rules
            case Committing(candidate) =>
              GoodCandidate(past, node, current, candidate, parsers) && a.disk == candidate && running == candidate.rules
            case _ => a.disk == current
  }

  /** The newest version any heartbeat of this agent can have carried. */
  function Reportable(a: Agent): nat {
    match a.process
    case Down => a.disk.version
    case Up(current, _, _, _, _) => current.version
  }

  ghost predicate AgentsGood(sys: System, parsers: Parsers) {
    && sys.agents.Keys <= sys.history.Keys
    && forall n :: n in sys.agents ==> GoodAgent(sys.history[n], n, sys.agents[n], parsers)
  }

  ghost predicate ServedGood(sys: System) {
    forall n, config :: (n, config) in sys.served ==>
      n in sys.history && Denotes(sys.history[n], config.version, config.rules)
  }

  ghost predicate MessagesGood(sys: System) {
    forall m :: m in sys.sent ==>
      m.node in sys.agents && m.beat.version <= Reportable(sys.agents[m.node])
  }

  /** The displayed version of a node is one its agent has reported, or the enrolment's. */
  ghost predicate DisplayGood(sys: System) {
    forall n :: n in sys.store.nodes ==>
      sys.store.nodes[n].applied <= if n in sys.agents then Reportable(sys.agents[n]) else 1
  }

  ghost predicate Inv(sys: System, parsers: Parsers) {
    && Coherent(sys.store, sys.history)
    && AgentsGood(sys, parsers)
    && ServedGood(sys)
    && MessagesGood(sys)
    && DisplayGood(sys)
  }

  // ---------- One agent step ----------

  lemma AgentStepIsGood(past: map<nat, set<Rule>>, node: string, a: Agent, event: Event, parsers: Parsers)
    requires GoodAgent(past, node, a, parsers) && AgentStep(a, event, parsers).Some?
    requires event.Fetched? ==> Denotes(past, event.remote.version, event.remote.rules)
    ensures GoodAgent(past, node, AgentStep(a, event, parsers).value, parsers)
  {
    if event == RollbackDone(true) {
      assert Denotes(past, a.process.current.version, a.process.current.rules);
    } else if event == ApplyDone(true) {
      assert Denotes(past, a.process.pc.candidate.version, a.process.pc.candidate.rules);
    } else if event.Boot? {
      assert Denotes(past, a.disk.version, a.disk.rules);
    } else if event == Commit {
      assert Denotes(past, a.process.pc.candidate.version, a.process.pc.candidate.rules);
    }
  }

  /** What an agent may have reported never shrinks, neither over a change nor over a crash. */
  lemma ReportableGrows(past: map<nat, set<Rule>>, node: string, a: Agent, event: Event, parsers: Parsers)
    requires GoodAgent(past, node, a, parsers) && AgentStep(a, event, parsers).Some?
    ensures Reportable(a) <= Reportable(AgentStep(a, event, parsers).value)
    ensures a.disk.version <= AgentStep(a, event, parsers).value.disk.version
  {
  }

  /** A history that only grows keeps every agent good. */
  lemma GoodAgentInLongerHistory(past: map<nat, set<Rule>>, past': map<nat, set<Rule>>, node: string, a: Agent,
                                 parsers: Parsers)
    requires GoodAgent(past, node, a, parsers)
    requires forall v :: v in past ==> v in past' && past'[v] == past[v]
    ensures GoodAgent(past', node, a, parsers)
  {
    if a.process.Up? {
      var v :| a.process.current.version <= v && Denotes(past, v, a.process.running);
      assert Denotes(past', v, a.process.running);
    }
  }

  // ---------- System steps ----------

  lemma HistoryGrows(sys: System, request: Request, sys': System, n: string)
    requires Coherent(sys.store, sys.history) && StoreChanges(sys, request, sys') && n in sys.history
    ensures n in sys'.history
    ensures forall v :: v in sys.history[n] ==> v in sys'.history[n] && sys'.history[n][v] == sys.history[n][v]
  {
    assert n in sys.store.configs;
    StepMovesVersions(sys.store, request, sys'.store, n);
    forall v | v in sys.history[n]
      ensures v in sys'.history[n] && sys'.history[n][v] == sys.history[n][v]
    {
      HistoryOnlyGrows(sys.store, sys.history, request, sys'.store, n, v);
    }
  }

  lemma StoreKeepsAgents(sys: System, request: Request, sys': System, parsers: Parsers)
    requires Coherent(sys.store, sys.history) && AgentsGood(sys, parsers) && ServedGood(sys)
    requires StoreChanges(sys, request, sys')
    ensures AgentsGood(sys', parsers) && ServedGood(sys')
  {
    forall n | n in sys'.agents
      ensures n in sys'.history && GoodAgent(sys'.history[n], n, sys'.agents[n], parsers)
    {
      HistoryGrows(sys, request, sys', n);
      GoodAgentInLongerHistory(sys.history[n], sys'.history[n], n, sys.agents[n], parsers);
    }
    forall n, config | (n, config) in sys'.served
      ensures n in sys'.history && Denotes(sys'.history[n], config.version, config.rules)
    {
      assert n in sys.history && Denotes(sys.history[n], config.version, config.rules);
      HistoryGrows(sys, request, sys', n);
    }
  }

  /** The displayed version only changes by a heartbeat, which caps it at the reported one. */
  lemma AppliedOnlyReported(s: Store, request: Request, s': Store, n: string)
    requires WellFormed(s) && StoreNext(s, request, s') && n in s'.nodes
    ensures if n !in s.nodes then s'.nodes[n].applied == 1
            else || s'.nodes[n].applied == s.nodes[n].applied
                 || (request.Beat? && request.node == n && s'.nodes[n].applied <= request.beat.version)
  {
    hide StoreNext, OneRuleEdit;
    if !IsEdit(request) {
      OthersReport(s, request, s', n);
    } else if s' != s {
      var affected, id := EditOf(s, request, s');
      EditKeepsApplied(s, s', affected, id, n);
    }
  }

  lemma EditKeepsApplied(s: Store, s': Store, affected: set<string>, id: string, n: string)
    requires OneRuleEdit(s, s', affected, id) && n in s'.nodes
    ensures n in s.nodes && s'.nodes[n].applied == s.nodes[n].applied
  {
  }

  lemma OthersReport(s: Store, request: Request, s': Store, n: string)
    requires StoreNext(s, request, s') && !IsEdit(request) && n in s'.nodes
    ensures if n !in s.nodes then s'.nodes[n].applied == 1
            else || s'.nodes[n].applied == s.nodes[n].applied
                 || (request.Beat? && request.node == n && s'.nodes[n].applied <= request.beat.version)
  {
  }

  lemma StoreKeepsDisplay(sys: System, request: Request, sys': System)
    requires WellFormed(sys.store) && DisplayGood(sys) && StoreChanges(sys, request, sys')
    requires sys.agents.Keys <= sys.store.nodes.Keys
    requires request.Beat? ==> request.node in sys.agents && request.beat.version <= Reportable(sys.agents[request.node])
    ensures DisplayGood(sys')
  {
    forall n | n in sys'.store.nodes
      ensures sys'.store.nodes[n].applied <= if n in sys'.agents then Reportable(sys'.agents[n]) else 1
    {
      AppliedOnlyReported(sys.store, request, sys'.store, n);
    }
  }

  lemma StoreMoveKeepsInv(sys: System, request: Request, sys': System, parsers: Parsers)
    requires Inv(sys, parsers) && StoreChanges(sys, request, sys')
    requires request.Beat? ==> request.node in sys.agents && request.beat.version <= Reportable(sys.agents[request.node])
    ensures Inv(sys', parsers)
  {
    StepKeepsCoherence(sys.store, sys.history, request, sys'.store);
    StoreKeepsAgents(sys, request, sys', parsers);
    StoreKeepsDisplay(sys, request, sys');
  }

  /** One agent's state is new; if it was there before, it may only report more. */
  ghost predicate AgentPut(sys: System, sys': System, node: string, a: Agent) {
    && sys'.store == sys.store && sys'.history == sys.history && sys'.served == sys.served
    && sys'.agents == sys.agents[node := a]
    && (if node in sys.agents then Reportable(sys.agents[node]) <= Reportable(a) else 1 <= Reportable(a))
  }

  lemma PutKeepsAgents(sys: System, sys': System, node: string, a: Agent, parsers: Parsers)
    requires AgentsGood(sys, parsers) && AgentPut(sys, sys', node, a)
    requires node in sys.history && GoodAgent(sys.history[node], node, a, parsers)
    ensures AgentsGood(sys', parsers)
  {
  }

  lemma PutKeepsMessages(sys: System, sys': System, node: string, a: Agent)
    requires MessagesGood(sys) && AgentPut(sys, sys', node, a)
    requires forall m :: m in sys'.sent && m !in sys.sent ==> m.node == node && m.beat.version <= Reportable(a)
    ensures MessagesGood(sys')
  {
    forall m | m in sys'.sent
      ensures m.node in sys'.agents && m.beat.version <= Reportable(sys'.agents[m.node])
    {
    }
  }

  lemma PutKeepsDisplay(sys: System, sys': System, node: string, a: Agent)
    requires DisplayGood(sys) && AgentPut(sys, sys', node, a)
    ensures DisplayGood(sys')
  {
  }

  lemma PutKeepsInv(sys: System, sys': System, node: string, a: Agent, parsers: Parsers)
    requires Inv(sys, parsers) && AgentPut(sys, sys', node, a)
    requires node in sys.history && GoodAgent(sys.history[node], node, a, parsers)
    requires forall m :: m in sys'.sent && m !in sys.sent ==> m.node == node && m.beat.version <= Reportable(a)
    ensures Inv(sys', parsers)
  {
    PutKeepsAgents(sys, sys', node, a, parsers);
    PutKeepsMessages(sys, sys', node, a);
    PutKeepsDisplay(sys, sys', node, a);
  }

  lemma AgentMoveKeepsInv(sys: System, node: string, event: Event, stats: seq<RuleStats>, sys': System, parsers: Parsers)
    requires Inv(sys, parsers) && Next(sys, AgentMove(node, event, stats), sys', parsers)
    ensures Inv(sys', parsers)
  {
    hide *;
    AgentMovePuts(sys, node, event, stats, sys', parsers);
    PutKeepsInv(sys, sys', node, AgentStep(sys.agents[node], event, parsers).value, parsers);
  }

  lemma AgentIsGood(sys: System, node: string, parsers: Parsers)
    requires Inv(sys, parsers)
    ensures node in sys.agents ==>
              && node in sys.history && node in sys.store.nodes && node in sys.store.configs
              && NodeCoherent(sys.store, sys.history[node], node)
              && GoodAgent(sys.history[node], node, sys.agents[node], parsers)
  {
  }

  lemma AgentMoveStep(sys: System, node: string, event: Event, stats: seq<RuleStats>, sys': System, parsers: Parsers)
    requires Next(sys, AgentMove(node, event, stats), sys', parsers)
    ensures node in sys.agents && AgentStep(sys.agents[node], event, parsers).Some?
    ensures event.Fetched? ==> (node, event.remote) in sys.served
    ensures sys' == sys.(agents := sys.agents[node := AgentStep(sys.agents[node], event, parsers).value], sent := sys'.sent)
    ensures forall m :: m in sys'.sent && m !in sys.sent ==>
              event == Send && sys.agents[node].process.Up?
              && m == Message(node, sys.agents[node].process.current.credential, BeatOf(sys.agents[node].process, stats))
  {
    hide GoodAgent;
    if event.Send? {
      SendReportsCurrent(sys.agents[node], parsers);
    }
  }

  lemma AgentMovePuts(sys: System, node: string, event: Event, stats: seq<RuleStats>, sys': System, parsers: Parsers)
    requires Inv(sys, parsers) && Next(sys, AgentMove(node, event, stats), sys', parsers)
    ensures node in sys.agents && node in sys.history && AgentStep(sys.agents[node], event, parsers).Some?
    ensures var next := AgentStep(sys.agents[node], event, parsers).value;
            && AgentPut(sys, sys', node, next) && GoodAgent(sys.history[node], node, next, parsers)
            && forall m :: m in sys'.sent && m !in sys.sent ==> m.node == node && m.beat.version <= Reportable(next)
  {
    hide Next, GoodAgent, AgentStep, Coherent, AgentsGood;
    AgentMoveStep(sys, node, event, stats, sys', parsers);
    AgentIsGood(sys, node, parsers);
    AgentStepIsGood(sys.history[node], node, sys.agents[node], event, parsers);
    ReportableGrows(sys.history[node], node, sys.agents[node], event, parsers);
    if event.Send? {
      SendReportsCurrent(sys.agents[node], parsers);
    }
  }

  lemma SendReportsCurrent(a: Agent, parsers: Parsers)
    requires AgentStep(a, Send, parsers).Some?
    ensures a.process.Up? && a.process.current.version == Reportable(AgentStep(a, Send, parsers).value)
  {
  }

  lemma ServeKeepsInv(sys: System, node: string, sys': System, parsers: Parsers)
    requires Inv(sys, parsers) && Next(sys, Serve(node), sys', parsers)
    ensures Inv(sys', parsers)
  {
    assert NodeCoherent(sys.store, sys.history[node], node);
  }

  lemma InstallKeepsInv(sys: System, move: Move, sys': System, parsers: Parsers)
    requires Inv(sys, parsers) && move.Install? && Next(sys, move, sys', parsers)
    ensures Inv(sys', parsers)
  {
    assert NodeCoherent(sys.store, sys.history[move.node], move.node);
    var a := sys'.agents[move.node];
    PutKeepsInv(sys, sys', move.node, a, parsers);
  }

  lemma NextKeepsInv(sys: System, move: Move, sys': System, parsers: Parsers)
    requires Inv(sys, parsers) && Next(sys, move, sys', parsers)
    ensures Inv(sys', parsers)
  {
    match move
    case Administer(request) => StoreMoveKeepsInv(sys, request, sys', parsers);
    case Deliver(message, at) =>
      StoreMoveKeepsInv(sys, Beat(message.node, message.credential, message.beat.(receivedAt := at)), sys', parsers);
    case Install(_, _, _, _) => InstallKeepsInv(sys, move, sys', parsers);
    case Serve(node) => ServeKeepsInv(sys, node, sys', parsers);
    case AgentMove(node, event, stats) => AgentMoveKeepsInv(sys, node, event, stats, sys', parsers);
  }

  lemma {:induction false} RunsKeepInv(run: seq<System>, parsers: Parsers)
    requires IsRun(run, parsers)
    ensures Inv(run[|run| - 1], parsers)
  {
    if |run| > 1 {
      var prefix, move := LastMove(run, parsers);
      RunsKeepInv(prefix, parsers);
      NextKeepsInv(prefix[|prefix| - 1], move, run[|run| - 1], parsers);
    }
  }

  // ---------- Truthfulness ----------

  /** What an agent forwards now, or will forward from its file once it is back. */
  function Holds(a: Agent): seq<Rule> {
    match a.process
    case Down => a.disk.rules
    case Up(_, running, _, _, _) => running
  }

  lemma GoodAgentHolds(past: map<nat, set<Rule>>, n: string, a: Agent, rule: Rule, parsers: Parsers)
    requires GoodAgent(past, n, a, parsers) && RuleCoherent(rule, past, n)
    requires StampFor(rule, n) <= Reportable(a) <= a.disk.version
    ensures rule.Static() in StaticSet(Holds(a)) && rule.Static() in StaticSet(a.disk.rules)
  {
    assert Denotes(past, a.disk.version, a.disk.rules);
    if a.process.Up? {
      var v :| a.process.current.version <= v && Denotes(past, v, a.process.running);
    }
  }

  lemma ReportableIsOnDisk(past: map<nat, set<Rule>>, n: string, a: Agent, parsers: Parsers)
    requires GoodAgent(past, n, a, parsers)
    ensures Reportable(a) <= a.disk.version
  {
  }

  lemma InvIsTruthful(sys: System, parsers: Parsers, id: string, n: string)
    requires Inv(sys, parsers)
    requires id in sys.store.rules && n in RuleNodeIds(sys.store.rules[id]) && n in sys.store.nodes
    requires sys.store.nodes[n].applied >= StampFor(sys.store.rules[id], n)
    ensures n in sys.agents
    ensures sys.store.rules[id].Static() in StaticSet(Holds(sys.agents[n]))
    ensures sys.store.rules[id].Static() in StaticSet(sys.agents[n].disk.rules)
  {
    var rule := sys.store.rules[id];
    assert RuleCoherent(rule, sys.history[n], n);
    ReportableIsOnDisk(sys.history[n], n, sys.agents[n], parsers);
    GoodAgentHolds(sys.history[n], n, sys.agents[n], rule, parsers);
  }

  /**
   The main result. In every reachable state: if a node's displayed applied version has
   reached the version stamped on a live rule, then that node's agent really holds the rule,
   with every static field as stored, both in what it runs and in what it would restart from.
   */
  lemma AppliedVersionIsTruthful(run: seq<System>, parsers: Parsers, id: string, n: string)
    requires IsRun(run, parsers)
    requires var s := run[|run| - 1].store;
             && id in s.rules && n in RuleNodeIds(s.rules[id]) && n in s.nodes
             && s.nodes[n].applied >= StampFor(s.rules[id], n)
    ensures var sys := run[|run| - 1];
            && n in sys.agents
            && sys.store.rules[id].Static() in StaticSet(Holds(sys.agents[n]))
            && sys.store.rules[id].Static() in StaticSet(sys.agents[n].disk.rules)
  {
    RunsKeepInv(run, parsers);
    InvIsTruthful(run[|run| - 1], parsers, id, n);
  }

  // ---------- What the displays say ----------

  const OFFLINE_AFTER := 45

  /** A node whose last heartbeat is too old is shown as offline. */
  function ShownStatus(node: Node, now: int): Status {
    if node.status == Online && now - node.lastHeartbeat > OFFLINE_AFTER then Offline else node.status
  }

  /** The node is online and has applied this version. */
  predicate Reached(s: Store, node: string, version: nat, now: int) {
    node in s.nodes && ShownStatus(s.nodes[node], now) == Online && s.nodes[node].applied >= version
  }

  /** The dashboard counts an enabled rule as healthy by its ingress node alone. */
  predicate DashboardHealthy(s: Store, rule: Rule, now: int) {
    rule.enabled && Reached(s, rule.ingress, rule.stamps.ingress, now)
  }

  /** The rule list asks the egress node of a relay as well; a stamp of zero is left out of its data. */
  predicate RuleListApplied(s: Store, rule: Rule, now: int) {
    && DashboardHealthy(s, rule, now)
    && (rule.mode == Direct || (rule.stamps.egress != 0 && Reached(s, rule.egress, rule.stamps.egress, now)))
  }

  ghost predicate HeldBy(sys: System, id: string, n: string)
    requires id in sys.store.rules
  {
    && n in sys.agents
    && sys.store.rules[id].Static() in StaticSet(Holds(sys.agents[n]))
    && sys.store.rules[id].Static() in StaticSet(sys.agents[n].disk.rules)
  }

  /** Heard from within the last 45 seconds, and not disabled. */
  ghost predicate HeardLately(s: Store, n: string, now: int) {
    n in s.nodes && s.nodes[n].status == Online && now - s.nodes[n].lastHeartbeat <= 45
  }

  /** A healthy rule is enabled and held by its ingress, running and on disk, and the ingress was heard from lately. */
  lemma HealthyIsHeldByIngress(run: seq<System>, parsers: Parsers, id: string, now: int)
    requires IsRun(run, parsers) && id in run[|run| - 1].store.rules
    requires DashboardHealthy(run[|run| - 1].store, run[|run| - 1].store.rules[id], now)
    ensures HeldBy(run[|run| - 1], id, run[|run| - 1].store.rules[id].ingress)
    ensures var s := run[|run| - 1].store; s.rules[id].enabled && HeardLately(s, s.rules[id].ingress, now)
  {
    AppliedVersionIsTruthful(run, parsers, id, run[|run| - 1].store.rules[id].ingress);
  }

  /** Healthy means held everywhere for a direct rule, and for a relay whose egress shows the stamp. */
  lemma HealthyIsHeldEverywhereIf(run: seq<System>, parsers: Parsers, id: string, n: string, now: int)
    requires IsRun(run, parsers) && id in run[|run| - 1].store.rules
    requires var s := run[|run| - 1].store; var rule := s.rules[id];
             && DashboardHealthy(s, rule, now) && n in RuleNodeIds(rule)
             && (rule.mode == Relay ==> rule.egress in s.nodes && s.nodes[rule.egress].applied >= rule.stamps.egress)
    ensures HeldBy(run[|run| - 1], id, n)
  {
    AppliedVersionIsTruthful(run, parsers, id, n);
  }

  /** A rule the rule list shows as applied is held by every node that takes part in it. */
  lemma RuleListAppliedIsHeldEverywhere(run: seq<System>, parsers: Parsers, id: string, n: string, now: int)
    requires IsRun(run, parsers) && id in run[|run| - 1].store.rules
    requires RuleListApplied(run[|run| - 1].store, run[|run| - 1].store.rules[id], now)
    requires n in RuleNodeIds(run[|run| - 1].store.rules[id])
    ensures HeldBy(run[|run| - 1], id, n)
    ensures var s := run[|run| - 1].store; s.rules[id].enabled && HeardLately(s, n, now)
  {
    HealthyIsHeldEverywhereIf(run, parsers, id, n, now);
  }

  // ---------- Exactly when a node holds a rule ----------

  ghost predicate StampInv(sys: System) {
    && StampsReached(sys.store)
    && forall n :: n in sys.history && n != "" ==> PastStamped(sys.history[n], n)
  }

  lemma StoreMoveKeepsStamps(sys: System, request: Request, sys': System)
    requires Coherent(sys.store, sys.history) && StampInv(sys) && StoreChanges(sys, request, sys')
    ensures StampInv(sys')
  {
    StepKeepsStamps(sys.store, request, sys'.store);
    StepKeepsCoherence(sys.store, sys.history, request, sys'.store);
    forall n | n in sys'.history && n != ""
      ensures PastStamped(sys'.history[n], n)
    {
      assert PastStamped(Past(sys.history, n), n);
      StepKeepsPast(sys.store, sys.history, request, sys'.store, n);
    }
  }

  lemma NextKeepsStamps(sys: System, move: Move, sys': System, parsers: Parsers)
    requires Coherent(sys.store, sys.history) && StampInv(sys) && Next(sys, move, sys', parsers)
    ensures StampInv(sys')
  {
    match move
    case Administer(request) => StoreMoveKeepsStamps(sys, request, sys');
    case Deliver(message, at) =>
      StoreMoveKeepsStamps(sys, Beat(message.node, message.credential, message.beat.(receivedAt := at)), sys');
    case _ =>
  }

  lemma {:induction false} RunsKeepStamps(run: seq<System>, parsers: Parsers)
    requires IsRun(run, parsers)
    ensures StampInv(run[|run| - 1])
  {
    if |run| > 1 {
      var prefix, move := LastMove(run, parsers);
      RunsKeepStamps(prefix, parsers);
      RunsKeepInv(prefix, parsers);
      NextKeepsStamps(prefix[|prefix| - 1], move, run[|run| - 1], parsers);
    }
  }

  /**
   The exact condition: an agent's file holds a live rule of its node, as stored, if and only
   if the file's version has reached the rule's stamp for that node.
   */
  lemma HeldOnDiskIff(run: seq<System>, parsers: Parsers, id: string, n: string)
    requires IsRun(run, parsers) && n != "" && n in run[|run| - 1].agents
    requires id in run[|run| - 1].store.rules && n in RuleNodeIds(run[|run| - 1].store.rules[id])
    ensures var sys := run[|run| - 1];
            sys.store.rules[id].Static() in StaticSet(sys.agents[n].disk.rules)
            <==> StampFor(sys.store.rules[id], n) <= sys.agents[n].disk.version
  {
    var sys := run[|run| - 1];
    RunsKeepInv(run, parsers);
    RunsKeepStamps(run, parsers);
    var rule, disk := sys.store.rules[id], sys.agents[n].disk;
    assert GoodAgent(sys.history[n], n, sys.agents[n], parsers);
    assert RuleCoherent(rule, sys.history[n], n);
    HeldIffReached(sys.history[n], n, disk.version, disk.rules, rule);
  }

  lemma HeldIffReached(past: map<nat, set<Rule>>, n: string, version: nat, rules: seq<Rule>, rule: Rule)
    requires Denotes(past, version, rules) && RuleCoherent(rule, past, n) && PastStamped(past, n)
    requires n in RuleNodeIds(rule)
    ensures rule.Static() in StaticSet(rules) <==> StampFor(rule, n) <= version
  {
    StaticsDecide(rule, rule.Static(), n);
  }

  /** An agent always forwards the rule set of some version, no older than the one it reports. */
  lemma HeldIsSomeVersion(run: seq<System>, parsers: Parsers, n: string) returns (v: nat)
    requires IsRun(run, parsers) && n in run[|run| - 1].agents
    ensures var sys := run[|run| - 1];
            n in sys.history && Reportable(sys.agents[n]) <= v && Denotes(sys.history[n], v, Holds(sys.agents[n]))
  {
    RunsKeepInv(run, parsers);
    var a, past := run[|run| - 1].agents[n], run[|run| - 1].history[n];
    assert GoodAgent(past, n, a, parsers);
    if a.process.Down? {
      v := a.disk.version;
    } else {
      v :| a.process.current.version <= v && Denotes(past, v, a.process.running);
    }
  }

  /** The exact condition for what an agent forwards: the version whose rule set that is has reached the stamp. */
  lemma HeldIff(run: seq<System>, parsers: Parsers, id: string, n: string, v: nat)
    requires IsRun(run, parsers) && n != "" && n in run[|run| - 1].agents
    requires id in run[|run| - 1].store.rules && n in RuleNodeIds(run[|run| - 1].store.rules[id])
    requires n in run[|run| - 1].history && Denotes(run[|run| - 1].history[n], v, Holds(run[|run| - 1].agents[n]))
    ensures var sys := run[|run| - 1]; var stamp := StampFor(sys.store.rules[id], n);
            && (sys.store.rules[id].Static() in StaticSet(Holds(sys.agents[n])) <==> stamp <= v)
            && (HeldBy(sys, id, n) <==> stamp <= v && stamp <= sys.agents[n].disk.version)
  {
    var sys := run[|run| - 1];
    RunsKeepInv(run, parsers);
    RunsKeepStamps(run, parsers);
    assert RuleCoherent(sys.store.rules[id], sys.history[n], n);
    HeldIffReached(sys.history[n], n, v, Holds(sys.agents[n]), sys.store.rules[id]);
    HeldOnDiskIff(run, parsers, id, n);
  }

  /** The version an agent forwards when no failed roll back has come between it and its configuration. */
  function HeldVersion(a: Agent): nat {
    match a.process
    case Down => a.disk.version
    case Up(current, _, _, _, pc) =>
      match pc
      case Saving(candidate) => candidate.version
      case RollingBack(candidate) => candidate.version
      case Committing(candidate) => candidate.version
      case _ => current.version
  }

  /** For an agent in agreement: it holds the rule, running and on disk, iff its configuration has reached the stamp. */
  lemma AgreedIsHeldIff(run: seq<System>, parsers: Parsers, id: string, n: string)
    requires IsRun(run, parsers) && n != "" && n in run[|run| - 1].agents && Agrees(run[|run| - 1].agents[n])
    requires id in run[|run| - 1].store.rules && n in RuleNodeIds(run[|run| - 1].store.rules[id])
    ensures var sys := run[|run| - 1]; var stamp := StampFor(sys.store.rules[id], n);
            && (sys.store.rules[id].Static() in StaticSet(Holds(sys.agents[n])) <==> stamp <= HeldVersion(sys.agents[n]))
            && (HeldBy(sys, id, n) <==> stamp <= HeldVersion(sys.agents[n]) && stamp <= sys.agents[n].disk.version)
  {
    RunsKeepInv(run, parsers);
    var a, past := run[|run| - 1].agents[n], run[|run| - 1].history[n];
    assert GoodAgent(past, n, a, parsers);
    AgreedHoldsItsVersion(past, n, a, parsers);
    HeldIff(run, parsers, id, n, HeldVersion(a));
  }

  lemma AgreedHoldsItsVersion(past: map<nat, set<Rule>>, n: string, a: Agent, parsers: Parsers)
    requires GoodAgent(past, n, a, parsers) && Agrees(a)
    ensures Denotes(past, HeldVersion(a), Holds(a))
  {
  }

  // ---------- Crash safety ----------

  /** At every point of every run, whatever is on disk validates and is a version of this node. */
  lemma DiskIsAlwaysUsable(run: seq<System>, parsers: Parsers, n: string)
    requires IsRun(run, parsers) && n in run[|run| - 1].agents
    ensures var sys := run[|run| - 1]; var a := sys.agents[n];
            && ValidConfig(a.disk, parsers) && a.disk.nodeId == n
            && n in sys.store.nodes && a.disk.version <= sys.store.nodes[n].version
            && (a.process.Up? ==> a.process.current.version <= a.disk.version)
            && (a.process.Up? && !a.process.pc.Committing? ==> a.process.current == a.disk)
  {
    var sys := run[|run| - 1];
    hide *;
    RunsKeepInv(run, parsers);
    AgentIsGood(sys, n, parsers);
    GoodDisk(sys.store, sys.history[n], n, sys.agents[n], parsers);
  }

  lemma GoodDisk(s: Store, past: map<nat, set<Rule>>, n: string, a: Agent, parsers: Parsers)
    requires GoodAgent(past, n, a, parsers) && n in s.nodes && n in s.configs && NodeCoherent(s, past, n)
    ensures ValidConfig(a.disk, parsers) && a.disk.nodeId == n && a.disk.version <= s.nodes[n].version
    ensures a.process.Up? ==> a.process.current.version <= a.disk.version
    ensures a.process.Up? && !a.process.pc.Committing? ==> a.process.current == a.disk
  {
    hide ValidConfig;
  }

  lemma DiskVersionStep(sys: System, move: Move, sys': System, parsers: Parsers, n: string)
    requires Inv(sys, parsers) && Next(sys, move, sys', parsers) && n in sys.agents
    ensures n in sys'.agents && sys.agents[n].disk.version <= sys'.agents[n].disk.version
  {
    hide *;
    AgentIsGood(sys, n, parsers);
    var event := EventFor(sys, move, sys', parsers, n);
    if event.Some? {
      ReportableGrows(sys.history[n], n, sys.agents[n], event.value, parsers);
    }
  }

  /** A move changes an agent only by one of its steps. */
  lemma EventFor(sys: System, move: Move, sys': System, parsers: Parsers, n: string) returns (event: Option<Event>)
    requires Next(sys, move, sys', parsers) && n in sys.agents
    ensures n in sys'.agents
    ensures event.None? ==> sys'.agents[n] == sys.agents[n]
    ensures event.Some? ==> AgentStep(sys.agents[n], event.value, parsers) == Some(sys'.agents[n])
  {
    hide AgentStep, StoreNext;
    event := if move.AgentMove? && move.node == n then Some(move.event) else None;
  }

  /** The file's version never falls, over changes, rollbacks, crashes and restarts alike. */
  lemma {:induction false} DiskVersionNeverFalls(run: seq<System>, parsers: Parsers, i: nat, n: string)
    requires IsRun(run, parsers) && i < |run| && n in run[i].agents
    ensures n in run[|run| - 1].agents
    ensures run[i].agents[n].disk.version <= run[|run| - 1].agents[n].disk.version
  {
    hide *;
    if i < |run| - 1 {
      var prefix, move := LastMove(run, parsers);
      DiskVersionNeverFalls(prefix, parsers, i, n);
      RunsKeepInv(prefix, parsers);
      DiskVersionStep(prefix[|prefix| - 1], move, run[|run| - 1], parsers, n);
    }
  }

  /** What runs is always the rule set of one version of this node, no older than the current one. */
  lemma RunningRulesAreSomeVersion(run: seq<System>, parsers: Parsers, n: string)
    requires IsRun(run, parsers) && n in run[|run| - 1].agents && run[|run| - 1].agents[n].process.Up?
    ensures var sys := run[|run| - 1]; var p := sys.agents[n].process;
            n in sys.history && RunsSince(sys.history[n], p.current.version, p.running)
  {
    RunsKeepInv(run, parsers);
    assert GoodAgent(run[|run| - 1].history[n], n, run[|run| - 1].agents[n], parsers);
  }
}
