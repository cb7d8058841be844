/**
 The agent side of configuration synchronisation: the local configuration and its
 validation, the crash-safe file, and `synchronize` as a sequence of steps between which
 the process may die.
 */
module Agents {
  import opened Domain
  import opened ControlStore

  datatype Config = Config(version: nat, controlUrl: string, nodeId: string, credential: string,
                           tunnel: string, rules: seq<Rule>)

  // ---------- Validation ----------

  predicate IdentityComplete(config: Config) {
    || (config.controlUrl == "" && config.nodeId == "" && config.credential == "")
    || (config.controlUrl != "" && config.nodeId != "" && config.credential != "")
  }

  /** What one rule must satisfy on this node. */
  predicate RuleFits(config: Config, rule: Rule, parsers: Parsers) {
    && rule.Valid(parsers)
    && (config.nodeId != "" ==> Lists(rule, config.nodeId))
    && (rule.mode == Relay && rule.enabled ==>
          && ValidTunnelAddress(config.tunnel, parsers)
          && (config.nodeId == rule.egress ==> config.tunnel == rule.relay.host))
  }

  ghost predicate ValidConfig(config: Config, parsers: Parsers) {
    && config.version != 0
    && IdentityComplete(config)
    && (config.tunnel != "" ==> ValidTunnelAddress(config.tunnel, parsers))
    && (forall i :: 0 <= i < |config.rules| ==> RuleFits(config, config.rules[i], parsers))
    && DistinctIds(config.rules)
  }

  /** In fields: a configuration that validates has all of an identity or none, and only rules this node takes part in. */
  lemma ValidConfigIff(config: Config, parsers: Parsers)
    ensures ValidConfig(config, parsers) <==>
              && config.version > 0
              && (config.nodeId == "" <==> config.controlUrl == "") && (config.nodeId == "" <==> config.credential == "")
              && (config.tunnel == "" || parsers.privateAddress(parsers.trim(config.tunnel)))
              && (forall rule :: rule in config.rules ==>
                    && rule.Valid(parsers)
                    && (config.nodeId == "" || rule.ingress == config.nodeId || (rule.mode == Relay && rule.egress == config.nodeId))
                    && (rule.enabled && rule.mode == Relay ==>
                          parsers.privateAddress(parsers.trim(config.tunnel))
                          && (rule.egress != config.nodeId || rule.relay.host == config.tunnel)))
              && (forall i, j :: 0 <= i < j < |config.rules| ==> config.rules[i].id != config.rules[j].id)
  {
    assert forall i :: 0 <= i < |config.rules| ==> config.rules[i] in config.rules;
    assert forall rule :: rule in config.rules ==> exists i :: 0 <= i < |config.rules| && config.rules[i] == rule;
  }

  method Validate(config: Config, parsers: Parsers) returns (ok: bool)
    ensures ok <==> ValidConfig(config, parsers)
  {
    if config.version == 0 {
      return false;
    }
    var identityFields := 0;
    if config.controlUrl != "" { identityFields := identityFields + 1; }
    if config.nodeId != "" { identityFields := identityFields + 1; }
    if config.credential != "" { identityFields := identityFields + 1; }
    if identityFields != 0 && identityFields != 3 {
      return false;
    }
    if config.tunnel != "" && !ValidTunnelAddress(config.tunnel, parsers) {
      return false;
    }
    ok := ValidateRules(config, parsers);
  }

  method ValidateRules(config: Config, parsers: Parsers) returns (ok: bool)
    ensures ok <==> (forall i :: 0 <= i < |config.rules| ==> RuleFits(config, config.rules[i], parsers)) && DistinctIds(config.rules)
  {
    var ids: map<string, nat> := map[];
    for index := 0 to |config.rules|
      invariant forall i :: 0 <= i < index ==> RuleFits(config, config.rules[i], parsers)
      invariant forall i :: 0 <= i < index ==> config.rules[i].id in ids && ids[config.rules[i].id] == i
      invariant forall id :: id in ids ==> ids[id] < index && config.rules[ids[id]].id == id
    {
      var rule := config.rules[index];
      var fits := ValidateRule(config, rule, parsers);
      if !fits {
        return false;
      }
      if rule.id in ids {
        return false;
      }
      ids := ids[rule.id := index];
    }
    return true;
  }

  method ValidateRule(config: Config, rule: Rule, parsers: Parsers) returns (ok: bool)
    ensures ok <==> RuleFits(config, rule, parsers)
  {
    if !rule.Valid(parsers) {
      return false;
    }
    var belongs := rule.ingress == config.nodeId || (rule.mode == Relay && rule.egress == config.nodeId);
    if config.nodeId != "" && !belongs {
      return false;
    }
    if rule.mode == Relay && rule.enabled {
      if !ValidTunnelAddress(config.tunnel, parsers) {
        return false;
      }
      if config.nodeId == rule.egress && config.tunnel != rule.relay.host {
        return false;
      }
    }
    return true;
  }

  // ---------- The configuration file ----------

  datatype Temporary = Absent | Partial | Complete(config: Config)

  /** The operations of a save, in order; any of them can fail. */
  datatype SaveOp = MakeDirectory | Open | Chmod | Write | Sync | Close | Rename

  class ConfigStore {
    var file: Option<Config>
    var temporary: Temporary
    /** Every content the committed file had, in order: what a crash could leave behind. */
    ghost var observed: seq<Option<Config>>

    ghost predicate OnlyOldOrNew(before: Option<Config>, from: nat, config: Config)
      reads this
    {
      forall i :: from <= i < |observed| ==> observed[i] == before || observed[i] == Some(config)
    }

    constructor (initial: Option<Config>)
      ensures file == initial && temporary == Absent && observed == [initial]
    {
      file, temporary, observed := initial, Absent, [initial];
    }

    method Load(parsers: Parsers) returns (config: Option<Config>)
      ensures config == if file.Some? && ValidConfig(file.value, parsers) then file else None
    {
      if file.None? {
        return None;
      }
      var ok := Validate(file.value, parsers);
      return if ok then file else None;
    }

    /** Replace the file or leave it alone; at no point is anything else on disk. */
    method Save(config: Config, failing: set<SaveOp>, parsers: Parsers) returns (ok: bool)
      modifies this
      ensures ok <==> ValidConfig(config, parsers) && failing == {}
      ensures file == if ok then Some(config) else old(file)
      ensures |old(observed)| <= |observed| && OnlyOldOrNew(old(file), |old(observed)|, config)
      ensures ok ==> temporary == Absent
    {
      var valid := Validate(config, parsers);
      if !valid || MakeDirectory in failing || Open in failing {
        return false;
      }
      temporary := Partial;
      observed := observed + [file];
      var written := Chmod !in failing && Write !in failing;
      if written {
        temporary := Complete(config);
        observed := observed + [file];
      }
      var synced := written && Sync !in failing;
      var closed := Close !in failing;
      if !synced || !closed || Rename in failing {
        temporary := Absent;
        observed := observed + [file];
        return false;
      }
      file := Some(temporary.config);
      temporary := Absent;
      observed := observed + [file];
      forall op | op in failing
        ensures false
      {
        match op
        case MakeDirectory =>
        case Open =>
        case Chmod =>
        case Write =>
        case Sync =>
        case Close =>
        case Rename =>
      }
      return true;
    }
  }

  // ---------- Synchronisation as steps ----------

  datatype Pc =
    | Idle
    | AwaitingReply
    | Fetching(desired: nat)
    | Applying(candidate: Config)
    | Saving(candidate: Config)
    | RollingBack(candidate: Config)
    | Committing(candidate: Config)

  datatype Process =
    | Down
    | Up(current: Config, running: seq<Rule>, attempted: nat, lastError: string, pc: Pc)

  datatype Agent = Agent(disk: Config, process: Process)

  /** What the outside world decides at each step. */
  datatype Event =
    | Send
    | HeartbeatFails
    | Reply(desired: nat, changed: bool)
    | FetchFails
    | Fetched(remote: AgentConfig)
    | ApplyDone(ok: bool)
    | SaveDone(ok: bool)
    | RollbackDone(ok: bool)
    | Commit
    | Crash
    | Boot(tunnel: string, saved: bool, applied: bool)

  function Failed(p: Process, version: nat, message: string): Process
    requires p.Up?
  {
    p.(attempted := version, lastError := message, pc := Idle)
  }

  function Cleared(p: Process, version: nat): Process
    requires p.Up?
  {
    p.(attempted := version, lastError := "", pc := Idle)
  }

  predicate AcceptableRemote(remote: AgentConfig, parsers: Parsers) {
    remote.version != 0 && forall rule | rule in remote.rules :: rule.Valid(parsers)
  }

  function Candidate(current: Config, remote: AgentConfig): Config {
    current.(version := remote.version, rules := remote.rules)
  }

  ghost function AfterFetch(p: Process, remote: AgentConfig, parsers: Parsers): Process
    requires p.Up? && p.pc.Fetching?
  {
    if !AcceptableRemote(remote, parsers) then Failed(p, p.pc.desired, "fetch")
    else if remote.version < p.current.version then Failed(p, remote.version, "regressed")
    else if remote.version == p.current.version then Cleared(p, p.current.version)
    else if !ValidConfig(Candidate(p.current, remote), parsers) then Failed(p, remote.version, "invalid")
    else p.(pc := Applying(Candidate(p.current, remote)))
  }

  /** Start from disk; a tunnel address given on the command line is saved first. */
  ghost function AfterBoot(a: Agent, tunnel: string, saved: bool, applied: bool, parsers: Parsers): Agent {
    var changes := tunnel != "" && tunnel != a.disk.tunnel;
    var config := if changes then a.disk.(tunnel := tunnel) else a.disk;
    if !ValidConfig(a.disk, parsers) then a
    else if changes && (!saved || !ValidConfig(config, parsers)) then a
    else if applied then Agent(config, Up(config, config.rules, 0, "", Idle))
    else Agent(config, Down)
  }

  /** A start that succeeds runs what is on disk afterwards: the old configuration with the tunnel address given, if any. */
  lemma BootTakesTunnel(a: Agent, tunnel: string, saved: bool, applied: bool, parsers: Parsers)
    requires a.process.Down?
    ensures var b := AfterBoot(a, tunnel, saved, applied, parsers);
            && b.disk.(tunnel := a.disk.tunnel) == a.disk
            && (b.disk.tunnel == a.disk.tunnel || (b.disk.tunnel == tunnel && saved))
            && (b.process.Up? <==> applied && ValidConfig(b.disk, parsers) && ValidConfig(a.disk, parsers)
                                   && (tunnel == "" || b.disk.tunnel == tunnel))
            && (b.process.Up? ==> b.process.current == b.disk && b.process.running == b.disk.rules
                                  && b.process.attempted == 0 && b.process.lastError == "" && b.process.pc == Idle)
  {
    hide ValidConfig;
  }

  /** One step of an agent, or None when the event cannot happen here. */
  ghost function AgentStep(a: Agent, event: Event, parsers: Parsers): Option<Agent> {
    var p := a.process;
    match event
    case Boot(tunnel, saved, applied) =>
      if p.Down? then Some(AfterBoot(a, tunnel, saved, applied, parsers)) else None
    case Crash => Some(a.(process := Down))
    case Send =>
      if p.Up? && p.pc.Idle? then Some(a.(process := p.(pc := AwaitingReply))) else None
    case HeartbeatFails =>
      if p.Up? && p.pc.AwaitingReply? then Some(a.(process := p.(pc := Idle))) else None
    case Reply(desired, changed) =>
      if p.Up? && p.pc.AwaitingReply? then
        Some(a.(process := if !changed && desired == p.current.version
                           then Cleared(p, p.current.version) else p.(pc := Fetching(desired))))
      else None
    case FetchFails =>
      if p.Up? && p.pc.Fetching? then Some(a.(process := Failed(p, p.pc.desired, "fetch"))) else None
    case Fetched(remote) =>
      if p.Up? && p.pc.Fetching? then Some(a.(process := AfterFetch(p, remote, parsers))) else None
    case ApplyDone(ok) =>
      if p.Up? && p.pc.Applying? then
        Some(a.(process := if ok then p.(running := p.pc.candidate.rules, pc := Saving(p.pc.candidate))
                           else Failed(p, p.pc.candidate.version, "apply")))
      else None
    case SaveDone(ok) =>
      if p.Up? && p.pc.Saving? then
        Some(if ok then Agent(p.pc.candidate, p.(pc := Committing(p.pc.candidate)))
             else a.(process := p.(pc := RollingBack(p.pc.candidate))))
      else None
    case RollbackDone(ok) =>
      if p.Up? && p.pc.RollingBack? then
        Some(a.(process := if ok then Failed(p.(running := p.current.rules), p.pc.candidate.version, "save")
                           else Failed(p, p.pc.candidate.version, "save and rollback")))
      else None
    case Commit =>
      if p.Up? && p.pc.Committing? then
        Some(a.(process := Cleared(p.(current := p.pc.candidate), p.pc.candidate.version)))
      else None
  }

  ghost function Execute(a: Agent, events: seq<Event>, parsers: Parsers): Option<Agent>
    decreases |events|
  {
    if events == [] then Some(a)
    else match AgentStep(a, events[0], parsers)
         case None => None
         case Some(next) => Execute(next, events[1..], parsers)
  }

  lemma {:induction false} ExecuteThen(a: Agent, first: seq<Event>, second: seq<Event>, parsers: Parsers)
    requires Execute(a, first, parsers).Some?
    ensures Execute(a, first + second, parsers) == Execute(Execute(a, first, parsers).value, second, parsers)
    decreases |first|
  {
    if first == [] {
      assert first + second == second;
    } else {
      assert (first + second)[1..] == first[1..] + second;
      ExecuteThen(AgentStep(a, first[0], parsers).value, first[1..], second, parsers);
    }
  }

  lemma ExecuteLast(a: Agent, events: seq<Event>, last: Event, parsers: Parsers)
    requires Execute(a, events, parsers).Some?
    ensures Execute(a, events + [last], parsers) == AgentStep(Execute(a, events, parsers).value, last, parsers)
  {
    ExecuteThen(a, events, [last], parsers);
  }

  // ---------- Agreement of what runs, what is current and what is on disk ----------

  /** Outside the window of a change in progress all three hold the same rules. */
  ghost predicate Agrees(a: Agent) {
    match a.process
    case Down => true
    case Up(current, running, _, _, pc) =>
      match pc
      case Saving(candidate) => running == candidate.rules && a.disk == current
      case RollingBack(candidate) => running == candidate.rules && a.disk == current
      case Committing(candidate) => running == candidate.rules && a.disk == candidate
      case _ => running == current.rules && a.disk == current
  }

  /** Only a failed rollback can break agreement. */
  lemma StepKeepsAgreement(a: Agent, event: Event, parsers: Parsers)
    requires AgentStep(a, event, parsers).Some? && Agrees(a)
    requires event != RollbackDone(false)
    ensures Agrees(AgentStep(a, event, parsers).value)
  {
  }

  /** After any run that starts in agreement: the three agree unless a rollback failed in it. */
  lemma {:induction false} RunsAgreeUnlessRollbackFailed(a: Agent, events: seq<Event>, parsers: Parsers)
    requires Execute(a, events, parsers).Some? && Agrees(a)
    requires RollbackDone(false) !in events
    ensures Agrees(Execute(a, events, parsers).value)
    decreases |events|
  {
    if events != [] {
      StepKeepsAgreement(a, events[0], parsers);
      RunsAgreeUnlessRollbackFailed(AgentStep(a, events[0], parsers).value, events[1..], parsers);
    }
  }

  /** Divergence heals: the next completed change, successful rollback or restart restores agreement. */
  lemma AgreementIsRestored(a: Agent, event: Event, parsers: Parsers)
    requires AgentStep(a, event, parsers).Some?
    requires a.process.Up? && a.process.pc.RollingBack? ==> a.disk == a.process.current
    requires a.process.Up? && a.process.pc.Committing? ==>
               a.disk == a.process.pc.candidate && a.process.running == a.process.pc.candidate.rules
    requires event == Commit || event == RollbackDone(true) || event.Boot? || event == Crash
    ensures Agrees(AgentStep(a, event, parsers).value)
  {
  }
}
