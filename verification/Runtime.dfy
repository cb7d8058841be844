/**
 The running agent: one object over the configuration file and the listener manager. Each pass of
 `Synchronize` is a run of the step relation in `Agents`, and the rules that relation calls running
 are exactly the open listeners.
 */
module AgentRuntime {
  import opened Domain
  import opened ControlStore
  import opened Agents
  import opened Preparation
  import opened Bandwidth
  import opened Management

  // ---------- What running a list of rules means ----------

  /** The forwarder is open and serves this rule as its node sees it. */
  ghost predicate Listening(forwarder: Forwarder, network: Network, rule: Rule, manager: Manager)
    reads forwarder, manager, manager.os
  {
    && forwarder.started && !forwarder.closed && forwarder.network == network
    && forwarder.config == Prepare(rule, manager.nodeId, manager.parsers)
    && forwarder.listen == forwarder.config.listen && forwarder.Place() in manager.os.bound
    && rule.id in manager.limiters && forwarder.limiter == manager.limiters[rule.id]
  }

  lemma ServedRuleIsListening(manager: Manager, network: Network, forwarders: map<string, Forwarder>, mine: set<Forwarder>,
                              rules: seq<Rule>, rule: Rule)
    requires Serving(network, forwarders, DesiredMap(rules, manager.nodeId, manager.parsers), manager.limiters, mine)
    requires Acceptable(rules, manager.nodeId, manager.parsers) && rule in rules && rule.enabled
    requires Occupied(forwarders) <= manager.os.bound && network in NetworksOf(rule)
    ensures rule.id in forwarders && Listening(forwarders[rule.id], network, rule, manager)
  {
    DesiredMapIsExact(rules, manager.nodeId, manager.parsers);
    assert Runs(forwarders[rule.id], network, Prepare(rule, manager.nodeId, manager.parsers), manager.limiters[rule.id]);
    assert forwarders[rule.id].Place() in Occupied(forwarders);
  }

  // ---------- Going back ----------

  /** One open forwarder, at its own address, for every rule of the network. */
  ghost predicate Covers(network: Network, forwarders: map<string, Forwarder>, desired: map<string, Prepared>) {
    && Apart(network, forwarders) && forwarders.Keys == Wanted(network, desired)
    && forall id :: id in forwarders ==> forwarders[id].listen == desired[id].listen
  }

  /** The addresses the old rules need back are among those they held, and no new rule listens on them. */
  lemma NeededBackAreReleased(network: Network, before: map<string, Prepared>, tcp: map<string, Forwarder>,
                              after: map<string, Prepared>, now: map<string, Forwarder>, bound: set<Socket>)
    requires Covers(network, tcp, before) && Covers(network, now, after) && Occupied(tcp) <= bound
    requires Places(network, after, Missing(network, after, tcp)) !! bound
    ensures Places(network, before, Missing(network, before, now)) <= Occupied(tcp) - Occupied(now)
  {
    forall id | id in Missing(network, before, now)
      ensures Socket(network, before[id].listen) in Occupied(tcp) - Occupied(now)
    {
      var place := tcp[id].Place();
      assert place in Occupied(tcp);
      forall other | other in now
        ensures now[other].Place() != place
      {
        assert other in Missing(network, after, tcp) ==>
                 Socket(network, after[other].listen) in Places(network, after, Missing(network, after, tcp));
      }
    }
  }

  /** After a change every address the old rules need back is free. */
  lemma GoingBackNeedsNoOthers(before: map<string, Prepared>, tcp: map<string, Forwarder>, udp: map<string, Forwarder>,
                               after: map<string, Prepared>, nowTcp: map<string, Forwarder>, nowUdp: map<string, Forwarder>,
                               bound: set<Socket>, nowBound: set<Socket>)
    requires Covers(TcpNetwork, tcp, before) && Covers(TcpNetwork, nowTcp, after)
    requires Covers(UdpNetwork, udp, before) && Covers(UdpNetwork, nowUdp, after)
    requires Occupied(tcp) <= bound && Occupied(udp) <= bound && SocketsFree(after, tcp, udp, bound)
    requires nowBound == bound - Occupied(tcp) - Occupied(udp) + Occupied(nowTcp) + Occupied(nowUdp)
    ensures SocketsFree(before, nowTcp, nowUdp, nowBound)
  {
    NeededBackAreReleased(TcpNetwork, before, tcp, after, nowTcp, bound);
    NeededBackAreReleased(UdpNetwork, before, udp, after, nowUdp, bound);
    assert Occupied(tcp) !! Occupied(nowUdp) && Occupied(udp) !! Occupied(nowTcp);
  }

  lemma ServedIsCovered(network: Network, forwarders: map<string, Forwarder>, desired: map<string, Prepared>,
                        limiters: map<string, BandwidthLimiter>, mine: set<Forwarder>)
    requires Serving(network, forwarders, desired, limiters, mine) && Apart(network, forwarders)
    ensures Covers(network, forwarders, desired)
  {
    forall id | id in forwarders
      ensures forwarders[id].listen == desired[id].listen
    {
      assert Runs(forwarders[id], network, desired[id], limiters[id]);
    }
  }

  lemma RunningIsCovered(manager: Manager, desired: map<string, Prepared>)
    requires manager.Valid() && manager.Installed(desired)
    ensures Covers(TcpNetwork, manager.forwarders, desired) && Covers(UdpNetwork, manager.udpForwarders, desired)
    ensures Occupied(manager.forwarders) <= manager.os.bound && Occupied(manager.udpForwarders) <= manager.os.bound
  {
    ServedIsCovered(TcpNetwork, manager.forwarders, desired, manager.limiters, manager.tcpMine);
    ServedIsCovered(UdpNetwork, manager.udpForwarders, desired, manager.limiters, manager.udpMine);
  }

  /** The sockets these rules listen on. */
  ghost function SocketsFor(rules: seq<Rule>, node: string, parsers: Parsers): set<Socket> {
    var desired := DesiredMap(rules, node, parsers);
    Places(TcpNetwork, desired, Wanted(TcpNetwork, desired)) + Places(UdpNetwork, desired, Wanted(UdpNetwork, desired))
  }

  lemma NothingInTheWay(desired: map<string, Prepared>, tcp: map<string, Forwarder>, udp: map<string, Forwarder>,
                        bound: set<Socket>, refused: set<Socket>)
    ensures SocketsFree(desired, tcp, udp, bound + refused)
       <==> SocketsFree(desired, tcp, udp, bound) && SocketsFree(desired, tcp, udp, refused)
  {
  }

  lemma WayBack(rules: seq<Rule>, node: string, parsers: Parsers, tcp: map<string, Forwarder>, udp: map<string, Forwarder>,
                bound: set<Socket>, refused: set<Socket>)
    requires SocketsFree(DesiredMap(rules, node, parsers), tcp, udp, bound) && SocketsFor(rules, node, parsers) !! refused
    ensures SocketsFree(DesiredMap(rules, node, parsers), tcp, udp, bound + refused)
  {
  }

  // ---------- A change as steps ----------

  function EventsOf(applied: bool, saved: bool, rolledBack: bool): seq<Event> {
    if !applied then [ApplyDone(false)]
    else if saved then [ApplyDone(true), SaveDone(true), Commit]
    else [ApplyDone(true), SaveDone(false), RollbackDone(rolledBack)]
  }

  function AgentAfter(a: Agent, candidate: Config, applied: bool, saved: bool, rolledBack: bool): Agent
    requires a.process.Up?
  {
    var p := a.process;
    if !applied then a.(process := Failed(p, candidate.version, "apply"))
    else if saved then
      Agent(candidate, Cleared(p.(running := candidate.rules, current := candidate), candidate.version))
    else if rolledBack then
      a.(process := Failed(p.(running := p.current.rules), candidate.version, "save"))
    else
      a.(process := Failed(p.(running := candidate.rules), candidate.version, "save and rollback"))
  }

  lemma ChangeIsSteps(start: Agent, candidate: Config, applied: bool, saved: bool, rolledBack: bool, parsers: Parsers)
    requires start.process.Up? && start.process.pc == Applying(candidate)
    ensures Execute(start, EventsOf(applied, saved, rolledBack), parsers)
         == Some(AgentAfter(start, candidate, applied, saved, rolledBack))
  {
    ExecuteLast(start, [], ApplyDone(applied), parsers);
    if applied {
      ExecuteLast(start, [ApplyDone(true)], SaveDone(saved), parsers);
      ExecuteLast(start, [ApplyDone(true), SaveDone(saved)], if saved then Commit else RollbackDone(rolledBack), parsers);
    }
  }

  // ---------- The runtime object ----------

  datatype HeartbeatReply = HeartbeatReply(desired: nat, changed: bool, intervalSeconds: int)

  /** Everything the outside decides during one synchronisation; `later` is when a roll back happens. */
  datatype World = World(reply: Option<HeartbeatReply>, remote: Option<AgentConfig>, saveFailing: set<SaveOp>,
                         refused: set<Socket>, now: real, refusedLater: set<Socket>, later: real)

  function Interval(seconds: int): int {
    if seconds < 5 || seconds > 300 then 15 else seconds
  }

  /** The heartbeat's answer says that there is nothing to fetch. */
  predicate Unchanged(reply: HeartbeatReply, current: Config) {
    !reply.changed && reply.desired == current.version
  }

  predicate Fetches(world: World, current: Config, parsers: Parsers) {
    && world.reply.Some? && !Unchanged(world.reply.value, current)
    && world.remote.Some? && AcceptableRemote(world.remote.value, parsers)
  }

  /** The pass has nothing to change: the control plane says so, or serves the version already there. */
  predicate NothingNew(world: World, current: Config, parsers: Parsers) {
    || (world.reply.Some? && Unchanged(world.reply.value, current))
    || (Fetches(world, current, parsers) && world.remote.value.version == current.version)
  }

  /** The pass has a newer configuration to take up, and it validates. */
  ghost predicate Offers(world: World, current: Config, parsers: Parsers) {
    && Fetches(world, current, parsers) && world.remote.value.version > current.version
    && ValidConfig(Candidate(current, world.remote.value), parsers)
  }

  /** The version in use is the one the heartbeat asked for, or the one that was fetched. */
  ghost predicate Answered(world: World, current: Config) {
    || (world.reply.Some? && !world.reply.value.changed && world.reply.value.desired == current.version)
    || (world.remote.Some? && world.remote.value.version == current.version)
  }

  /** Version and rules are those fetched; who the agent is stays as it was. */
  ghost predicate TakesUp(before: Config, remote: AgentConfig, after: Config) {
    && after.version == remote.version > before.version && after.rules == remote.rules
    && after.controlUrl == before.controlUrl && after.nodeId == before.nodeId
    && after.credential == before.credential && after.tunnel == before.tunnel
  }

  /**
   A pass that failed leaves an error and the version it was about: the fetched one, or the one asked
   for if nothing usable came back. Without an answer to the heartbeat nothing is noted.
   */
  ghost predicate Noted(world: World, attempted: nat, lastError: string, attempted': nat, lastError': string, parsers: Parsers) {
    if world.reply.None? then attempted' == attempted && lastError' == lastError
    else
      && lastError' != ""
      && attempted' == if world.remote.Some? && world.remote.value.version != 0
                          && (forall rule :: rule in world.remote.value.rules ==> rule.Valid(parsers))
                       then world.remote.value.version else world.reply.value.desired
  }

  /** What an agent hears from the control plane in a pass. */
  function Heard(world: World, current: Config, parsers: Parsers): seq<Event> {
    if world.reply.None? then [Send, HeartbeatFails]
    else
      var answered := [Send, Reply(world.reply.value.desired, world.reply.value.changed)];
      if Unchanged(world.reply.value, current) then answered
      else if Fetches(world, current, parsers) then answered + [Fetched(world.remote.value)]
      else answered + [FetchFails]
  }

  class Runtime {
    const store: ConfigStore
    const manager: Manager
    var current: Config
    var attempted: nat
    var lastError: string
    /** The rules of the last change the manager completed. */
    ghost var running: seq<Rule>

    ghost function Footprint(): set<object>
      reads manager
    {
      {manager, manager.os} + manager.tcpMine + manager.udpMine + manager.limiters.Values
    }

    /** The manager's open listeners are those of the running rules. */
    ghost predicate Forwarding(now: real)
      reads this`running, Footprint()
    {
      && manager.Valid() && LimitersReady(manager.limiters, now)
      && Acceptable(running, manager.nodeId, manager.parsers)
      && manager.Installed(DesiredMap(running, manager.nodeId, manager.parsers))
    }

    /** When the manager takes a list of rules: it is open, they are acceptable, and the sockets they miss are free. */
    ghost predicate Admits(rules: seq<Rule>, refused: set<Socket>)
      reads manager, manager.os
    {
      && !manager.closed && Acceptable(rules, manager.nodeId, manager.parsers)
      && SocketsFree(DesiredMap(rules, manager.nodeId, manager.parsers), manager.forwarders, manager.udpForwarders,
                     manager.os.bound + refused)
    }

    ghost predicate Valid(now: real)
      reads this, store, Footprint()
    {
      && store.file.Some? && ValidConfig(store.file.value, manager.parsers) && ValidConfig(current, manager.parsers)
      && manager.nodeId == current.nodeId && Forwarding(now)
    }

    /** The agent as the step relation sees it, at this point of a pass. */
    ghost function At(pc: Pc): Agent
      reads this, store
      requires store.file.Some?
    {
      Agent(store.file.value, Up(current, running, attempted, lastError, pc))
    }

    /** Over a manager that runs nothing yet. */
    constructor (store: ConfigStore, manager: Manager, config: Config, ghost now: real)
      requires manager.Valid() && manager.forwarders == map[] && manager.udpForwarders == map[] && manager.limiters == map[]
      ensures this.store == store && this.manager == manager && current == config
      ensures attempted == 0 && lastError == "" && running == [] && Forwarding(now)
    {
      this.store, this.manager, current, attempted, lastError, running := store, manager, config, 0, "", [];
    }

    lemma WhileForwarding(now: real)
      requires Forwarding(now)
      ensures manager.Valid() && LimitersReady(manager.limiters, now)
      ensures manager.Installed(DesiredMap(running, manager.nodeId, manager.parsers))
      ensures Acceptable(running, manager.nodeId, manager.parsers)
      ensures Covers(TcpNetwork, manager.forwarders, DesiredMap(running, manager.nodeId, manager.parsers))
      ensures Covers(UdpNetwork, manager.udpForwarders, DesiredMap(running, manager.nodeId, manager.parsers))
      ensures Occupied(manager.forwarders) <= manager.os.bound && Occupied(manager.udpForwarders) <= manager.os.bound
    {
      RunningIsCovered(manager, DesiredMap(running, manager.nodeId, manager.parsers));
    }

    lemma FootprintIs()
      ensures Footprint() == {manager, manager.os} + manager.tcpMine + manager.udpMine + manager.limiters.Values
    {
    }

    lemma AtIs(pc: Pc)
      requires store.file.Some?
      ensures At(pc) == Agent(store.file.value, Up(current, running, attempted, lastError, pc))
    {
    }

    lemma FootprintIsApart()
      ensures this !in Footprint() && store !in Footprint() && manager in Footprint()
    {
    }

    lemma AdmitsIff(rules: seq<Rule>, refused: set<Socket>)
      ensures Admits(rules, refused) <==>
                && !manager.closed && Acceptable(rules, manager.nodeId, manager.parsers)
                && SocketsFree(DesiredMap(rules, manager.nodeId, manager.parsers), manager.forwarders, manager.udpForwarders,
                               manager.os.bound + refused)
    {
    }

    lemma IsForwarding(now: real)
      requires manager.Valid() && LimitersReady(manager.limiters, now)
      requires Acceptable(running, manager.nodeId, manager.parsers)
      requires manager.Installed(DesiredMap(running, manager.nodeId, manager.parsers))
      ensures Forwarding(now)
    {
    }

    /** Hand the rules to the manager: all of them run, or what ran before still does. */
    method Change(rules: seq<Rule>, refused: set<Socket>, now: real) returns (ok: bool)
      requires Forwarding(now)
      modifies this`running, Footprint()
      ensures Forwarding(now) && running == (if ok then rules else old(running))
      ensures fresh(Footprint() - old(Footprint())) && manager.closed == old(manager.closed)
      ensures ok <==> old(Admits(rules, refused))
      ensures ok ==> SocketsFree(DesiredMap(old(running), manager.nodeId, manager.parsers), manager.forwarders,
                                 manager.udpForwarders, manager.os.bound)
    {
      hide *;
      ghost var tcp, udp, bound := manager.forwarders, manager.udpForwarders, manager.os.bound;
      WhileForwarding(now);
      FootprintIs();
      AdmitsIff(rules, refused);
      ok := manager.Apply(rules, refused, now);
      if ok {
        RunningIsCovered(manager, DesiredMap(rules, manager.nodeId, manager.parsers));
        NothingInTheWay(DesiredMap(rules, manager.nodeId, manager.parsers), tcp, udp, bound, refused);
        GoingBackNeedsNoOthers(DesiredMap(running, manager.nodeId, manager.parsers), tcp, udp,
                               DesiredMap(rules, manager.nodeId, manager.parsers), manager.forwarders,
                               manager.udpForwarders, bound, manager.os.bound);
        running := rules;
      }
      IsForwarding(now);
      FootprintIs();
    }

    /** What runs is what listens: every enabled rule on all its networks, and no socket besides. */
    lemma RunningIsListening(now: real)
      requires Forwarding(now)
      ensures forall rule :: rule in running && rule.enabled && (rule.protocol == Tcp || rule.protocol == TcpUdp) ==>
                rule.id in manager.forwarders && Listening(manager.forwarders[rule.id], TcpNetwork, rule, manager)
      ensures forall rule :: rule in running && rule.enabled && (rule.protocol == Udp || rule.protocol == TcpUdp) ==>
                rule.id in manager.udpForwarders && Listening(manager.udpForwarders[rule.id], UdpNetwork, rule, manager)
      ensures Occupied(manager.forwarders) + Occupied(manager.udpForwarders)
           == SocketsFor(running, manager.nodeId, manager.parsers)
    {
      forall rule | rule in running && rule.enabled && rule.UsesTcp()
        ensures rule.id in manager.forwarders && Listening(manager.forwarders[rule.id], TcpNetwork, rule, manager)
      {
        assert TcpNetwork in NetworksOf(rule);
        ServedRuleIsListening(manager, TcpNetwork, manager.forwarders, manager.tcpMine, running, rule);
      }
      forall rule | rule in running && rule.enabled && rule.UsesUdp()
        ensures rule.id in manager.udpForwarders && Listening(manager.udpForwarders[rule.id], UdpNetwork, rule, manager)
      {
        assert UdpNetwork in NetworksOf(rule);
        ServedRuleIsListening(manager, UdpNetwork, manager.udpForwarders, manager.udpMine, running, rule);
      }
      var desired := DesiredMap(running, manager.nodeId, manager.parsers);
      OccupiedPlaces(TcpNetwork, manager.forwarders, desired, manager.limiters);
      OccupiedPlaces(UdpNetwork, manager.udpForwarders, desired, manager.limiters);
    }

    lemma LaterStillForwarding(now: real, later: real)
      requires Forwarding(now) && now <= later
      ensures Forwarding(later)
    {
    }

    method RecordConfigFailure(version: nat, message: string)
      modifies this`attempted, this`lastError
      ensures attempted == version && lastError == message
    {
      attempted, lastError := version, message;
    }

    method ClearConfigFailure(version: nat)
      modifies this`attempted, this`lastError
      ensures attempted == version && lastError == ""
    {
      attempted, lastError := version, "";
    }

    /** After a failed save, apply the current rules again. If they ran before, their addresses are free. */
    method RollBack(ghost before: seq<Rule>, refused: set<Socket>, now: real) returns (ok: bool)
      requires Forwarding(now) && Acceptable(before, manager.nodeId, manager.parsers) && !manager.closed
      requires SocketsFree(DesiredMap(before, manager.nodeId, manager.parsers), manager.forwarders,
                           manager.udpForwarders, manager.os.bound)
      modifies this`running, Footprint()
      ensures Forwarding(now) && running == (if ok then current.rules else old(running))
      ensures fresh(Footprint() - old(Footprint())) && manager.closed == old(manager.closed)
      ensures before == current.rules && SocketsFor(before, manager.nodeId, manager.parsers) !! refused ==> ok
    {
      hide *;
      FootprintIsApart();
      if before == current.rules && SocketsFor(before, manager.nodeId, manager.parsers) !! refused {
        WayBack(before, manager.nodeId, manager.parsers, manager.forwarders, manager.udpForwarders, manager.os.bound, refused);
      }
      AdmitsIff(current.rules, refused);
      ok := Change(current.rules, refused, now);
    }

    /** Apply, then save; if the save fails, apply the old rules again. */
    method Deploy(candidate: Config, world: World) returns (applied: bool, saved: bool, rolledBack: bool)
      requires store.file.Some? && Forwarding(world.now) && world.now <= world.later
      requires ValidConfig(candidate, manager.parsers)
      modifies this`running, store, Footprint()
      ensures Forwarding(world.later) && fresh(Footprint() - old(Footprint()))
      ensures applied <==> old(Admits(candidate.rules, world.refused))
      ensures saved <==> applied && world.saveFailing == {}
      ensures store.file == if saved then Some(candidate) else old(store.file)
      ensures running == if !applied then old(running) else if rolledBack then current.rules else candidate.rules
      ensures rolledBack ==> applied && !saved
      ensures applied && !saved && old(running) == current.rules ==>
                rolledBack || !(SocketsFor(current.rules, manager.nodeId, manager.parsers) !! world.refusedLater)
    {
      hide Forwarding, Admits, SocketsFree, SocketsFor, Acceptable, DesiredMap, ValidConfig;
      WhileForwarding(world.now);
      AdmitsIff(candidate.rules, world.refused);
      FootprintIsApart();
      saved, rolledBack := false, false;
      ghost var before := running;
      applied := Change(candidate.rules, world.refused, world.now);
      LaterStillForwarding(world.now, world.later);
      FootprintIsApart();
      if applied {
        saved := store.Save(candidate, world.saveFailing, manager.parsers);
        if !saved {
          rolledBack := RollBack(before, world.refusedLater, world.later);
        }
      }
    }

    /** What `synchronize` notes down about the attempt, which was a run of these events. */
    method Note(candidate: Config, applied: bool, saved: bool, rolledBack: bool, ghost start: Agent,
                ghost now: real)
      requires Forwarding(now) && store.file.Some? && start.process.Up? && start.process.pc == Applying(candidate)
      requires current == start.process.current
      requires saved ==> applied
      requires store.file.value == if saved then candidate else start.disk
      requires running == if !applied then start.process.running else if rolledBack then current.rules else candidate.rules
      requires rolledBack ==> applied && !saved
      modifies this`current, this`attempted, this`lastError
      ensures Forwarding(now) && Footprint() == old(Footprint())
      ensures Execute(start, EventsOf(applied, saved, rolledBack), manager.parsers) == Some(At(Idle))
      ensures attempted == candidate.version && (lastError == "" <==> saved)
      ensures current == if saved then candidate else old(current)
    {
      hide Forwarding;
      FootprintIsApart();
      ChangeIsSteps(start, candidate, applied, saved, rolledBack, manager.parsers);
      if saved {
        current := candidate;
        ClearConfigFailure(candidate.version);
      } else {
        RecordConfigFailure(candidate.version, if !applied then "apply" else if rolledBack then "save" else "save and rollback");
      }
    }

    /** Deploy the candidate and keep the books. */
    method Adopt(candidate: Config, world: World) returns (ok: bool, ghost events: seq<Event>)
      requires store.file.Some? && Forwarding(world.now) && world.now <= world.later
      requires ValidConfig(candidate, manager.parsers)
      modifies this, store, Footprint()
      ensures store.file.Some? && Forwarding(world.later) && fresh(Footprint() - old(Footprint()))
      ensures Execute(old(At(Applying(candidate))), events, manager.parsers) == Some(At(Idle))
      ensures ok <==> old(Admits(candidate.rules, world.refused)) && world.saveFailing == {}
      ensures ok ==> current == candidate && store.file == Some(candidate) && running == candidate.rules
      ensures attempted == candidate.version && (lastError == "" <==> ok)
      ensures !ok ==> current == old(current) && store.file == old(store.file)
      ensures !ok && old(running) == current.rules ==>
                running == current.rules || !(SocketsFor(current.rules, manager.nodeId, manager.parsers) !! world.refusedLater)
    {
      hide *;
      ghost var start := At(Applying(candidate));
      AtIs(Applying(candidate));
      FootprintIsApart();
      var applied, rolledBack;
      applied, ok, rolledBack := Deploy(candidate, world);
      Note(candidate, applied, ok, rolledBack, start, world.later);
      events := EventsOf(applied, ok, rolledBack);
    }

    /** `Run` begins by applying the configuration it was started with; if that fails the process ends. */
    method Start(refused: set<Socket>, now: real) returns (ok: bool)
      requires Forwarding(now) && store.file == Some(current) && attempted == 0 && lastError == ""
      modifies this`running, Footprint()
      ensures unchanged(store) && Forwarding(now) && fresh(Footprint() - old(Footprint()))
      ensures ok <==> ValidConfig(current, manager.parsers) && old(Admits(current.rules, refused))
      ensures AgentStep(Agent(current, Down), Boot("", true, ok), manager.parsers)
           == Some(if ok then At(Idle) else Agent(current, Down))
    {
      hide Forwarding, Admits, Acceptable, SocketsFree, DesiredMap, ValidConfig;
      FootprintIsApart();
      ok := Validate(current, manager.parsers);
      if ok {
        ok := Change(current.rules, refused, now);
      }
    }

    /** The first half of a pass: the heartbeat, the fetch, and whether the answer is a change to make. */
    method Ask(world: World) returns (interval: int, ok: bool, candidate: Option<Config>)
      requires store.file.Some?
      modifies this`attempted, this`lastError
      ensures candidate == if Offers(world, current, manager.parsers) then Some(Candidate(current, world.remote.value)) else None
      ensures ok <==> NothingNew(world, current, manager.parsers)
      ensures Execute(old(At(Idle)), Heard(world, current, manager.parsers), manager.parsers)
           == Some(At(if candidate.Some? then Applying(candidate.value) else Idle))
      ensures ok ==> lastError == "" && attempted == current.version
      ensures !ok && candidate.None? ==> Noted(world, old(attempted), old(lastError), attempted, lastError, manager.parsers)
      ensures ok || candidate.Some? ==>
                world.reply.Some? && var asked := world.reply.value.intervalSeconds;
                interval == if 5 <= asked <= 300 then asked else 15
    {
      ghost var start := At(Idle);
      candidate, interval, ok := None, 0, false;
      ExecuteLast(start, [], Send, manager.parsers);
      if world.reply.None? {
        ExecuteLast(start, [Send], HeartbeatFails, manager.parsers);
        return;
      }
      var reply := world.reply.value;
      ghost var events := [Send, Reply(reply.desired, reply.changed)];
      ExecuteLast(start, [Send], Reply(reply.desired, reply.changed), manager.parsers);
      if !reply.changed && reply.desired == current.version {
        ClearConfigFailure(current.version);
        interval, ok := Interval(reply.intervalSeconds), true;
        return;
      }
      if world.remote.None? || !AcceptableRemote(world.remote.value, manager.parsers) {
        RecordConfigFailure(reply.desired, "fetch");
        ExecuteLast(start, events, FetchFails, manager.parsers);
        return;
      }
      var remote := world.remote.value;
      ExecuteLast(start, events, Fetched(remote), manager.parsers);
      if remote.version < current.version {
        RecordConfigFailure(remote.version, "regressed");
        return;
      }
      if remote.version == current.version {
        ClearConfigFailure(current.version);
        interval, ok := Interval(reply.intervalSeconds), true;
        return;
      }
      var valid := Validate(Candidate(current, remote), manager.parsers);
      if !valid {
        RecordConfigFailure(remote.version, "invalid");
        return;
      }
      candidate, interval := Some(Candidate(current, remote)), Interval(reply.intervalSeconds);
    }

    /**
     One synchronisation is a run of the step relation that begins with what was heard and returns
     to Idle. It succeeds exactly when there is nothing new, or a newer valid configuration that the
     manager admits and the file takes. On failure the current configuration and the file are
     untouched; on success they are equal and carry no error. What runs stays open listeners
     throughout, and if it was the current configuration before it is so afterwards, unless the
     system refused an address of the current rules that they had given up a moment before.
     */
    method Synchronize(world: World) returns (interval: int, ok: bool, ghost events: seq<Event>)
      requires Valid(world.now) && world.now <= world.later
      modifies this, store, Footprint()
      ensures Valid(world.later) && fresh(Footprint() - old(Footprint()))
      ensures Heard(world, old(current), manager.parsers) <= events
      ensures Execute(old(At(Idle)), events, manager.parsers) == Some(At(Idle))
      ensures ok <==>
                || NothingNew(world, old(current), manager.parsers)
                || (Offers(world, old(current), manager.parsers) && world.saveFailing == {}
                    && old(Admits(Candidate(current, world.remote.value).rules, world.refused)))
      ensures current.version >= old(current.version)
      ensures !ok ==> current == old(current) && store.file == old(store.file)
      ensures ok ==> lastError == "" && attempted == current.version
      ensures !ok ==> Noted(world, old(attempted), old(lastError), attempted, lastError, manager.parsers)
      ensures ok ==>
                world.reply.Some? && var asked := world.reply.value.intervalSeconds;
                interval == if 5 <= asked <= 300 then asked else 15
      ensures ok ==> Answered(world, current)
      ensures current != old(current) ==> ok && store.file == Some(current) && running == current.rules
      ensures current != old(current) ==> world.remote.Some? && TakesUp(old(current), world.remote.value, current)
      ensures old(running == current.rules) ==>
                running == current.rules || !(SocketsFor(current.rules, manager.nodeId, manager.parsers) !! world.refusedLater)
    {
      hide Forwarding, Admits, SocketsFor, Acceptable, DesiredMap, ValidConfig, Execute, AgentStep, Heard;
      FootprintIsApart();
      var candidate;
      interval, ok, candidate := Ask(world);
      events := Heard(world, current, manager.parsers);
      LaterStillForwarding(world.now, world.later);
      if candidate.Some? {
        ghost var rest;
        ok, rest := Adopt(candidate.value, world);
        ExecuteThen(old(At(Idle)), events, rest, manager.parsers);
        events := events + rest;
        if !ok {
          interval := 0;
        }
      }
    }
  }
}
