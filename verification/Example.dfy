/**
 Two nodes, one relay rule between them. The runs here show what the claims about all runs are
 about: a rule that is healthy on the dashboard while its egress does not hold it, the same rule
 applied everywhere, and a configuration that the store builds and the agent refuses.
 */
module Example {
  import opened Domain
  import opened ControlStore
  import opened Versions
  import opened Agents
  import opened Synchronisation
  import opened Preparation
  import opened Acceptance
  import Sequences

  const ENTRANCE := "in"
  const EXIT := "out"
  const TUNNEL_IN := "10.203.0.1"
  const TUNNEL_OUT := "10.203.0.2"
  const TEXTS := {"", "relay", "Relay", "web", "Web", "0.0.0.0", "198.51.100.1", "198.51.100.2", TUNNEL_IN, TUNNEL_OUT}

  const RELAY := Rule("relay", "Relay", Tcp, Relay, ENTRANCE, EXIT, Endpoint("0.0.0.0", 443), Endpoint("198.51.100.2", 443),
                      Endpoint("", 7000), true, 0, 0, Access([], []), Stamps(0, 0), ZERO_COUNTERS)
  const WEB := Rule("web", "Web", Tcp, Direct, EXIT, "", Endpoint(TUNNEL_OUT, 7000), Endpoint("198.51.100.1", 80),
                    Endpoint("", 0), true, 0, 0, Access([], []), Stamps(0, 0), ZERO_COUNTERS)

  /** Trimming changes none of these texts, and the tunnel addresses are private. */
  ghost predicate Reads(parsers: Parsers) {
    && (forall text :: text in TEXTS ==> parsers.trim(text) == text)
    && parsers.privateAddress(TUNNEL_IN) && parsers.privateAddress(TUNNEL_OUT)
  }

  // ---------- The stores of these runs ----------

  function NodeAt(tunnel: string, version: nat, applied: nat, at: int): Node {
    Node(Online, tunnel, version, applied, applied, "", at)
  }

  function Stores(entrance: Node, exit: Node, inConfig: AgentConfig, outConfig: AgentConfig, rules: map<string, Rule>): Store {
    Store(map[ENTRANCE := entrance, EXIT := exit], map[ENTRANCE := "ci", EXIT := "co"],
          map["a" := Token(true, 10), "b" := Token(true, 10)], map[ENTRANCE := inConfig, EXIT := outConfig], rules)
  }

  const NOTHING_YET := AgentConfig(1, [])

  function FirstEnrolled(): Store {
    Store(map[ENTRANCE := NodeAt("", 1, 1, 0)], map[ENTRANCE := "ci"], map["a" := Token(true, 10)], map[ENTRANCE := NOTHING_YET], map[])
  }

  function BothEnrolled(): Store {
    Stores(NodeAt("", 1, 1, 0), NodeAt("", 1, 1, 0), NOTHING_YET, NOTHING_YET, map[])
  }

  /** The exit has reported its tunnel address. */
  function ExitReported(): Store {
    Stores(NodeAt("", 1, 1, 0), NodeAt(TUNNEL_OUT, 1, 1, 0), NOTHING_YET, NOTHING_YET, map[])
  }

  /** The relay rule in the table, and the copy that goes into configurations. */
  function Stored(exitStamp: nat, at: int): Rule {
    RELAY.(stamps := Stamps(2, exitStamp), counters := ZERO_COUNTERS.(updated := at))
  }

  function Served(exitStamp: nat): Rule {
    Stored(exitStamp, 0).(relay := Endpoint(TUNNEL_OUT, 7000))
  }

  function RelayCreated(): Store {
    Stores(NodeAt("", 2, 1, 0), NodeAt(TUNNEL_OUT, 2, 1, 0), AgentConfig(2, [Served(2)]), AgentConfig(2, [Served(2)]),
           map["relay" := Stored(2, 0)])
  }

  lemma Enrolments()
    ensures var issued := EMPTY.(tokens := map["a" := Token(false, 10)]);
            StoreNext(EMPTY, IssueToken("a", 10), issued) && StoreNext(issued, Enroll("a", 0, ENTRANCE, "ci"), FirstEnrolled())
    ensures var issued := FirstEnrolled().(tokens := FirstEnrolled().tokens["b" := Token(false, 10)]);
            StoreNext(FirstEnrolled(), IssueToken("b", 10), issued) && StoreNext(issued, Enroll("b", 0, EXIT, "co"), BothEnrolled())
  {
    var first := EMPTY.(tokens := map["a" := Token(false, 10)]);
    assert EnrollStep(first, "a", 0, ENTRANCE, "ci", FirstEnrolled(), Ok(NodeAt("", 1, 1, 0)));
    var second := FirstEnrolled().(tokens := FirstEnrolled().tokens["b" := Token(false, 10)]);
    assert EnrollStep(second, "b", 0, EXIT, "co", BothEnrolled(), Ok(NodeAt("", 1, 1, 0)));
  }

  function BeatWith(tunnel: string, version: nat, at: int): Heartbeat {
    Heartbeat(tunnel, version, version, "", [], at)
  }

  lemma ExitReports()
    ensures StoreNext(BothEnrolled(), Beat(EXIT, "co", BeatWith(TUNNEL_OUT, 1, 0)), ExitReported())
  {
    assert AfterHeartbeat(map[], EXIT, [], 0) == map[];
    assert HeartbeatStep(BothEnrolled(), EXIT, "co", BeatWith(TUNNEL_OUT, 1, 0), ExitReported(), Ok(NodeAt(TUNNEL_OUT, 1, 1, 0)));
  }

  lemma OneRule(nodes: map<string, Node>, rules: map<string, Rule>, rule: Rule, served: Rule, node: string)
    requires node in nodes && rules == map[rule.id := rule] && Lists(rule, node) && Refreshed(rule, nodes) == served
    ensures Materialises(AgentConfig(nodes[node].version, [served]), nodes, rules, node)
  {
    assert rule.id in rules && Refreshed(rules[rule.id], nodes) in RebuiltRules(nodes, rules, node);
    assert RebuiltRules(nodes, rules, node) == {served};
    assert Sequences.Elements([served]) == {[served][0]};
  }

  lemma RelayIsCreated()
    ensures StoreNext(ExitReported(), Create(RELAY), RelayCreated())
  {
    FirstEdit();
    FirstStamp();
    FirstPasses();
    Creates(ExitReported(), RELAY, RelayCreated(), {ENTRANCE, EXIT}, Stored(2, 0));
  }

  lemma FirstPasses()
    ensures RELAY.id !in ExitReported().rules && NodesAvailable(ExitReported().nodes, RELAY)
    ensures !Conflicting(ExitReported().rules, RELAY, "")
  {
  }

  lemma FirstStamp()
    ensures RuleNodeIds(RELAY) == {ENTRANCE, EXIT}
    ensures Stamped(RELAY, Bumped(ExitReported().nodes, {ENTRANCE, EXIT})) == Stored(2, 0)
    ensures ExitReported().rules["relay" := Stored(2, 0)] == RelayCreated().rules && RELAY.id == "relay"
  {
    assert Bumped(ExitReported().nodes, {ENTRANCE, EXIT}) == RelayCreated().nodes;
  }

  lemma FirstEdit()
    ensures Edited(ExitReported(), RelayCreated(), {ENTRANCE, EXIT}, RelayCreated().rules)
  {
    var before, after := ExitReported(), RelayCreated();
    assert Bumped(before.nodes, {ENTRANCE, EXIT}) == after.nodes;
    OneRule(after.nodes, after.rules, Stored(2, 0), Served(2), ENTRANCE);
    OneRule(after.nodes, after.rules, Stored(2, 0), Served(2), EXIT);
    hide Materialises;
  }

  // ---------- A store that builds what an agent refuses ----------

  lemma StoreRun(run: seq<Store>, s: Store, request: Request, s': Store) returns (longer: seq<Store>)
    requires Versions.IsRun(run) && run[|run| - 1] == s && StoreNext(s, request, s')
    ensures Versions.IsRun(longer) && longer[|longer| - 1] == s'
  {
    longer := run + [s'];
    assert StoreMove(s, s');
    forall i {:trigger longer[i]} | 0 <= i < |longer| - 1
      ensures StoreMove(longer[i], longer[i + 1])
    {
      if i < |run| - 1 {
        assert StoreMove(run[i], run[i + 1]);
      }
    }
  }

  lemma ReportedStores() returns (run: seq<Store>)
    ensures Versions.IsRun(run) && run[|run| - 1] == ExitReported()
  {
    Enrolments();
    ExitReports();
    run := [EMPTY];
    var first := EMPTY.(tokens := map["a" := Token(false, 10)]);
    run := StoreRun(run, EMPTY, IssueToken("a", 10), first);
    run := StoreRun(run, first, Enroll("a", 0, ENTRANCE, "ci"), FirstEnrolled());
    var second := FirstEnrolled().(tokens := FirstEnrolled().tokens["b" := Token(false, 10)]);
    run := StoreRun(run, FirstEnrolled(), IssueToken("b", 10), second);
    run := StoreRun(run, second, Enroll("b", 0, EXIT, "co"), BothEnrolled());
    run := StoreRun(run, BothEnrolled(), Beat(EXIT, "co", BeatWith(TUNNEL_OUT, 1, 0)), ExitReported());
  }

  function Website(): Rule {
    WEB.(stamps := Stamps(2, 0))
  }

  function WebCreated(): Store {
    Stores(NodeAt("", 1, 1, 0), NodeAt(TUNNEL_OUT, 2, 1, 0), NOTHING_YET, AgentConfig(2, [Website()]), map["web" := Website()])
  }

  function BothCreated(): Store {
    Stores(NodeAt("", 2, 1, 0), NodeAt(TUNNEL_OUT, 3, 1, 0), AgentConfig(2, [Served(3)]),
           AgentConfig(3, [Website(), Served(3)]), map["web" := Website(), "relay" := Stored(3, 0)])
  }

  lemma WebIsCreated()
    ensures StoreNext(ExitReported(), Create(WEB), WebCreated())
  {
    WebEdit();
    WebStamp();
    Creates(ExitReported(), WEB, WebCreated(), {EXIT}, Website());
  }

  lemma WebStamp()
    ensures RuleNodeIds(WEB) == {EXIT} && Stamped(WEB, Bumped(ExitReported().nodes, {EXIT})) == Website()
    ensures ExitReported().rules["web" := Website()] == WebCreated().rules && WEB.id == "web"
    ensures WEB.id !in ExitReported().rules && NodesAvailable(ExitReported().nodes, WEB)
    ensures !Conflicting(ExitReported().rules, WEB, "")
  {
    assert Bumped(ExitReported().nodes, {EXIT}) == WebCreated().nodes;
  }

  lemma WebEdit()
    ensures Edited(ExitReported(), WebCreated(), {EXIT}, WebCreated().rules)
  {
    var before, after := ExitReported(), WebCreated();
    assert Bumped(before.nodes, {EXIT}) == after.nodes;
    OneRule(after.nodes, after.rules, Website(), Website(), EXIT);
    hide Materialises;
  }

  lemma RelayEdit()
    ensures Edited(WebCreated(), BothCreated(), {ENTRANCE, EXIT}, BothCreated().rules)
  {
    assert Bumped(WebCreated().nodes, {ENTRANCE, EXIT}) == BothCreated().nodes;
    EntranceConfig();
    ExitConfig();
    hide Materialises;
  }

  /** The conflict check compares public with public and relay with relay listeners, so the relay rule passes. */
  lemma RelayIsCreatedToo()
    ensures StoreNext(WebCreated(), Create(RELAY), BothCreated())
  {
    RelayEdit();
    RelayPasses();
    RelayIsStamped();
    Creates(WebCreated(), RELAY, BothCreated(), {ENTRANCE, EXIT}, Stored(3, 0));
  }

  lemma Creates(before: Store, rule: Rule, after: Store, affected: set<string>, stored: Rule)
    requires rule.id !in before.rules && NodesAvailable(before.nodes, rule) && !Conflicting(before.rules, rule, "")
    requires affected == RuleNodeIds(rule) && stored == Stamped(rule, Bumped(before.nodes, affected))
    requires Edited(before, after, affected, before.rules[rule.id := stored])
    ensures StoreNext(before, Create(rule), after)
  {
    hide Edited, Conflicting, NodesAvailable, Stamped, Bumped, RuleNodeIds;
    assert CreateStep(before, rule, after, Ok(stored));
  }

  lemma RelayPasses()
    ensures RELAY.id !in WebCreated().rules && NodesAvailable(WebCreated().nodes, RELAY)
    ensures !Conflicting(WebCreated().rules, RELAY, "")
  {
  }

  lemma RelayIsStamped()
    ensures RuleNodeIds(RELAY) == {ENTRANCE, EXIT}
    ensures Stamped(RELAY, Bumped(WebCreated().nodes, {ENTRANCE, EXIT})) == Stored(3, 0)
    ensures WebCreated().rules["relay" := Stored(3, 0)] == BothCreated().rules && RELAY.id == "relay"
  {
    assert Bumped(WebCreated().nodes, {ENTRANCE, EXIT}) == BothCreated().nodes;
  }

  lemma EntranceConfig()
    ensures Materialises(AgentConfig(2, [Served(3)]), BothCreated().nodes, BothCreated().rules, ENTRANCE)
  {
    var nodes, rules := BothCreated().nodes, BothCreated().rules;
    assert "relay" in rules && Refreshed(rules["relay"], nodes) == Served(3);
    assert !Lists(rules["web"], ENTRANCE);
    assert RebuiltRules(nodes, rules, ENTRANCE) == {Served(3)};
    assert Sequences.Elements([Served(3)]) == {[Served(3)][0]};
  }

  lemma ExitConfig()
    ensures Materialises(AgentConfig(3, [Website(), Served(3)]), BothCreated().nodes, BothCreated().rules, EXIT)
  {
    var nodes, rules := BothCreated().nodes, BothCreated().rules;
    assert "relay" in rules && Refreshed(rules["relay"], nodes) == Served(3);
    assert "web" in rules && Refreshed(rules["web"], nodes) == Website();
    assert RebuiltRules(nodes, rules, EXIT) == {Website(), Served(3)};
    var listed := [Website(), Served(3)];
    assert Sequences.Elements(listed) == {listed[0], listed[1]};
  }

  lemma BothCreatedRun() returns (run: seq<Store>)
    ensures Versions.IsRun(run) && run[|run| - 1] == BothCreated()
  {
    run := ReportedStores();
    WebIsCreated();
    RelayIsCreatedToo();
    hide *;
    run := StoreRun(run, ExitReported(), Create(WEB), WebCreated());
    run := StoreRun(run, WebCreated(), Create(RELAY), BothCreated());
  }

  /**
   Both rules are accepted, valid and enabled, and yet the exit can never apply the configuration
   built from them: it would listen twice on its tunnel address.
   */
  lemma StoreBuildsWhatTheAgentRefuses(parsers: Parsers) returns (run: seq<Store>)
    requires Reads(parsers)
    ensures Versions.IsRun(run) && EXIT in run[|run| - 1].configs
    ensures var rules := run[|run| - 1].configs[EXIT].rules;
            && AllValid(rules, parsers) && TrimmedListenHosts(rules, EXIT, parsers)
            && (forall i :: 0 <= i < |rules| ==> rules[i].enabled)
            && !NoCrossListeners(rules, EXIT, parsers) && !Acceptable(rules, EXIT, parsers)
  {
    run := BothCreatedRun();
    ExitRefuses(parsers);
    assert BothCreated().configs[EXIT].rules == [Website(), Served(3)];
    hide Versions.IsRun, AllValid, TrimmedListenHosts, NoCrossListeners, Acceptable;
  }

  lemma ExitRefuses(parsers: Parsers)
    requires Reads(parsers)
    ensures var rules := [Website(), Served(3)];
            && AllValid(rules, parsers) && TrimmedListenHosts(rules, EXIT, parsers)
            && !NoCrossListeners(rules, EXIT, parsers) && !Acceptable(rules, EXIT, parsers)
  {
    var rules := [Website(), Served(3)];
    assert Website().Valid(parsers) && Served(3).Valid(parsers);
    assert CrossListener(rules[0], rules[1], EXIT, parsers);
    SocketsMeetIff(Prepare(rules[0], EXIT, parsers), Prepare(rules[1], EXIT, parsers));
    assert Collide(rules[0], rules[1], EXIT, parsers);
  }

  // ---------- Healthy on the dashboard, not held by the egress ----------

  ghost predicate LastIs(run: seq<System>, parsers: Parsers, sys: System) {
    Synchronisation.IsRun(run, parsers) && run[|run| - 1] == sys
  }

  /** A run followed by one more move is a run. */
  lemma Extend(run: seq<System>, parsers: Parsers, sys: System, move: Move, sys': System) returns (longer: seq<System>)
    requires LastIs(run, parsers, sys) && Next(sys, move, sys', parsers)
    ensures LastIs(longer, parsers, sys')
  {
    longer := run + [sys'];
    assert Moves(sys, sys', parsers);
    forall i {:trigger longer[i]} | 0 <= i < |longer| - 1
      ensures Moves(longer[i], longer[i + 1], parsers)
    {
      if i < |run| - 1 {
        assert Moves(run[i], run[i + 1], parsers);
      }
    }
  }

  lemma Administered(run: seq<System>, parsers: Parsers, sys: System, request: Request, store: Store)
    returns (longer: seq<System>, sys': System)
    requires LastIs(run, parsers, sys) && !request.Beat? && StoreNext(sys.store, request, store)
    ensures LastIs(longer, parsers, sys') && sys'.store == store
    ensures sys'.agents == sys.agents && sys'.sent == sys.sent && sys'.served == sys.served
  {
    sys' := sys.(store := store, history := Remember(sys.history, store));
    longer := Extend(run, parsers, sys, Administer(request), sys');
  }

  lemma Delivered(run: seq<System>, parsers: Parsers, sys: System, message: Message, at: int, store: Store)
    returns (longer: seq<System>, sys': System)
    requires LastIs(run, parsers, sys) && message in sys.sent
    requires StoreNext(sys.store, Beat(message.node, message.credential, message.beat.(receivedAt := at)), store)
    ensures LastIs(longer, parsers, sys') && sys'.store == store
    ensures sys'.agents == sys.agents && sys'.sent == sys.sent && sys'.served == sys.served
  {
    sys' := sys.(store := store, history := Remember(sys.history, store));
    longer := Extend(run, parsers, sys, Deliver(message, at), sys');
  }

  /** One step of an agent; the store, what it served and the other agents stay. */
  lemma Stepped(run: seq<System>, parsers: Parsers, sys: System, node: string, event: Event, next: Agent)
    returns (longer: seq<System>, sys': System)
    requires LastIs(run, parsers, sys) && node in sys.agents && AgentStep(sys.agents[node], event, parsers) == Some(next)
    requires event.Fetched? ==> (node, event.remote) in sys.served
    ensures LastIs(longer, parsers, sys') && sys'.agents == sys.agents[node := next]
    ensures sys'.store == sys.store && sys'.served == sys.served && sys.sent <= sys'.sent
    ensures event.Send? ==>
              Message(node, sys.agents[node].process.current.credential, BeatOf(sys.agents[node].process, [])) in sys'.sent
  {
    sys' := sys.(agents := sys.agents[node := next],
                 sent := if event.Send?
                         then sys.sent + {Message(node, sys.agents[node].process.current.credential,
                                                  BeatOf(sys.agents[node].process, []))}
                         else sys.sent);
    longer := Extend(run, parsers, sys, AgentMove(node, event, []), sys');
  }

  function InConfig(version: nat, rules: seq<Rule>): Config {
    Config(version, "u", ENTRANCE, "ci", TUNNEL_IN, rules)
  }

  function OutConfig(version: nat, rules: seq<Rule>): Config {
    Config(version, "u", EXIT, "co", TUNNEL_OUT, rules)
  }

  lemma Configurations(parsers: Parsers)
    requires Reads(parsers)
    ensures ValidConfig(InConfig(1, []), parsers) && ValidConfig(InConfig(2, [Served(2)]), parsers)
    ensures ValidConfig(OutConfig(1, []), parsers) && ValidConfig(OutConfig(2, [Served(2)]), parsers)
    ensures AcceptableRemote(AgentConfig(2, [Served(2)]), parsers)
  {
    assert Served(2).Valid(parsers);
    assert RuleFits(InConfig(2, [Served(2)]), Served(2), parsers);
    assert RuleFits(OutConfig(2, [Served(2)]), Served(2), parsers);
  }

  /** Both nodes are enrolled. */
  lemma EnrolledRun(parsers: Parsers) returns (run: seq<System>, sys: System)
    ensures LastIs(run, parsers, sys) && sys.store == BothEnrolled()
    ensures sys.agents == map[] && sys.sent == {} && sys.served == {}
  {
    Enrolments();
    run, sys := [START], START;
    var first := EMPTY.(tokens := map["a" := Token(false, 10)]);
    var second := FirstEnrolled().(tokens := FirstEnrolled().tokens["b" := Token(false, 10)]);
    assert LastIs(run, parsers, sys) && sys.store == EMPTY;
    hide *;
    run, sys := Administered(run, parsers, sys, IssueToken("a", 10), first);
    run, sys := Administered(run, parsers, sys, Enroll("a", 0, ENTRANCE, "ci"), FirstEnrolled());
    run, sys := Administered(run, parsers, sys, IssueToken("b", 10), second);
    run, sys := Administered(run, parsers, sys, Enroll("b", 0, EXIT, "co"), BothEnrolled());
  }

  /** Both agents are installed, and the exit has sent its first heartbeat. */
  lemma InstalledRun(parsers: Parsers) returns (run: seq<System>, sys: System)
    requires Reads(parsers)
    ensures LastIs(run, parsers, sys) && sys.store == BothEnrolled()
    ensures sys.agents == map[ENTRANCE := Agent(InConfig(1, []), Down),
                              EXIT := Agent(OutConfig(1, []), Up(OutConfig(1, []), [], 0, "", AwaitingReply))]
    ensures Message(EXIT, "co", BeatWith(TUNNEL_OUT, 1, 0)) in sys.sent
  {
    run, sys := BothInstalled(parsers);
    var out := OutConfig(1, []);
    Configurations(parsers);
    hide LastIs;
    run, sys := Stepped(run, parsers, sys, EXIT, Boot("", true, true), Agent(out, Up(out, [], 0, "", Idle)));
    run, sys := Stepped(run, parsers, sys, EXIT, Send, Agent(out, Up(out, [], 0, "", AwaitingReply)));
  }

  lemma BothInstalled(parsers: Parsers) returns (run: seq<System>, sys: System)
    requires Reads(parsers)
    ensures LastIs(run, parsers, sys) && sys.store == BothEnrolled()
    ensures sys.agents == map[ENTRANCE := Agent(InConfig(1, []), Down), EXIT := Agent(OutConfig(1, []), Down)]
  {
    run, sys := EnrolledRun(parsers);
    Configurations(parsers);
    hide LastIs, ValidConfig;
    var first := sys.(agents := map[ENTRANCE := Agent(InConfig(1, []), Down)]);
    run := Extend(run, parsers, sys, Install(ENTRANCE, "u", "ci", TUNNEL_IN), first);
    sys := first.(agents := first.agents[EXIT := Agent(OutConfig(1, []), Down)]);
    run := Extend(run, parsers, first, Install(EXIT, "u", "co", TUNNEL_OUT), sys);
  }

  ghost predicate Agents2(sys: System, inDisk: Config, inProcess: Process, outDisk: Config, outProcess: Process) {
    sys.agents == map[ENTRANCE := Agent(inDisk, inProcess), EXIT := Agent(outDisk, outProcess)]
  }

  /** The rule is created, and its configuration is on its way to both. */
  lemma CreatedRun(parsers: Parsers) returns (run: seq<System>, sys: System)
    requires Reads(parsers)
    ensures LastIs(run, parsers, sys) && sys.store == RelayCreated()
    ensures Agents2(sys, InConfig(1, []), Down, OutConfig(1, []), Up(OutConfig(1, []), [], 0, "", AwaitingReply))
    ensures (ENTRANCE, AgentConfig(2, [Served(2)])) in sys.served && (EXIT, AgentConfig(2, [Served(2)])) in sys.served
  {
    run, sys := InstalledRun(parsers);
    ExitReports();
    RelayIsCreated();
    run, sys := Delivered(run, parsers, sys, Message(EXIT, "co", BeatWith(TUNNEL_OUT, 1, 0)), 0, ExitReported());
    run, sys := Administered(run, parsers, sys, Create(RELAY), RelayCreated());
    var first := sys.(served := sys.served + {(ENTRANCE, AgentConfig(2, [Served(2)]))});
    run := Extend(run, parsers, sys, Serve(ENTRANCE), first);
    sys := first.(served := first.served + {(EXIT, AgentConfig(2, [Served(2)]))});
    run := Extend(run, parsers, first, Serve(EXIT), sys);
  }

  /** The ingress starts and fetches the configuration. */
  lemma FetchedRun(parsers: Parsers) returns (run: seq<System>, sys: System)
    requires Reads(parsers)
    ensures LastIs(run, parsers, sys) && sys.store == RelayCreated()
    ensures Agents2(sys, InConfig(1, []), Up(InConfig(1, []), [], 0, "", Applying(InConfig(2, [Served(2)]))),
                    OutConfig(1, []), Up(OutConfig(1, []), [], 0, "", AwaitingReply))
    ensures (EXIT, AgentConfig(2, [Served(2)])) in sys.served
  {
    run, sys := BootedRun(parsers);
    Configurations(parsers);
    var first, second := InConfig(1, []), InConfig(2, [Served(2)]);
    hide LastIs;
    run, sys := Stepped(run, parsers, sys, ENTRANCE, Reply(2, true), Agent(first, Up(first, [], 0, "", Fetching(2))));
    IngressFetches(parsers);
    hide AgentStep;
    run, sys := Stepped(run, parsers, sys, ENTRANCE, Fetched(AgentConfig(2, [Served(2)])),
                        Agent(first, Up(first, [], 0, "", Applying(second))));
  }

  lemma BootedRun(parsers: Parsers) returns (run: seq<System>, sys: System)
    requires Reads(parsers)
    ensures LastIs(run, parsers, sys) && sys.store == RelayCreated()
    ensures Agents2(sys, InConfig(1, []), Up(InConfig(1, []), [], 0, "", AwaitingReply),
                    OutConfig(1, []), Up(OutConfig(1, []), [], 0, "", AwaitingReply))
    ensures (ENTRANCE, AgentConfig(2, [Served(2)])) in sys.served && (EXIT, AgentConfig(2, [Served(2)])) in sys.served
  {
    run, sys := CreatedRun(parsers);
    Configurations(parsers);
    var first := InConfig(1, []);
    hide LastIs;
    run, sys := Stepped(run, parsers, sys, ENTRANCE, Boot("", true, true), Agent(first, Up(first, [], 0, "", Idle)));
    run, sys := Stepped(run, parsers, sys, ENTRANCE, Send, Agent(first, Up(first, [], 0, "", AwaitingReply)));
  }

  lemma IngressFetches(parsers: Parsers)
    requires Reads(parsers)
    ensures var first := InConfig(1, []);
            AgentStep(Agent(first, Up(first, [], 0, "", Fetching(2))), Fetched(AgentConfig(2, [Served(2)])), parsers)
            == Some(Agent(first, Up(first, [], 0, "", Applying(InConfig(2, [Served(2)])))))
  {
    Configurations(parsers);
    assert Candidate(InConfig(1, []), AgentConfig(2, [Served(2)])) == InConfig(2, [Served(2)]);
  }

  lemma AppliedRun(parsers: Parsers) returns (run: seq<System>, sys: System)
    requires Reads(parsers)
    ensures LastIs(run, parsers, sys) && sys.store == RelayCreated()
    ensures Agents2(sys, InConfig(2, [Served(2)]),
                    Up(InConfig(1, []), [Served(2)], 0, "", Committing(InConfig(2, [Served(2)]))),
                    OutConfig(1, []), Up(OutConfig(1, []), [], 0, "", AwaitingReply))
    ensures (EXIT, AgentConfig(2, [Served(2)])) in sys.served
  {
    run, sys := FetchedRun(parsers);
    var first, second, rules := InConfig(1, []), InConfig(2, [Served(2)]), [Served(2)];
    hide LastIs, ValidConfig;
    run, sys := Stepped(run, parsers, sys, ENTRANCE, ApplyDone(true), Agent(first, Up(first, rules, 0, "", Saving(second))));
    run, sys := Stepped(run, parsers, sys, ENTRANCE, SaveDone(true), Agent(second, Up(first, rules, 0, "", Committing(second))));
  }

  /** It applies, saves and commits it, and reports. */
  lemma ReportedRun(parsers: Parsers) returns (run: seq<System>, sys: System)
    requires Reads(parsers)
    ensures LastIs(run, parsers, sys) && sys.store == RelayCreated()
    ensures Agents2(sys, InConfig(2, [Served(2)]), Up(InConfig(2, [Served(2)]), [Served(2)], 2, "", AwaitingReply),
                    OutConfig(1, []), Up(OutConfig(1, []), [], 0, "", AwaitingReply))
    ensures (EXIT, AgentConfig(2, [Served(2)])) in sys.served
    ensures Message(ENTRANCE, "ci", BeatWith(TUNNEL_IN, 2, 0)) in sys.sent
  {
    run, sys := AppliedRun(parsers);
    var second, rules := InConfig(2, [Served(2)]), [Served(2)];
    hide LastIs, ValidConfig;
    run, sys := Stepped(run, parsers, sys, ENTRANCE, Commit, Agent(second, Up(second, rules, 2, "", Idle)));
    run, sys := Stepped(run, parsers, sys, ENTRANCE, Send, Agent(second, Up(second, rules, 2, "", AwaitingReply)));
  }

  /** The ingress has reported version 2 at time 5. */
  function IngressReported(): Store {
    RelayCreated().(nodes := map[ENTRANCE := NodeAt(TUNNEL_IN, 2, 2, 5), EXIT := NodeAt(TUNNEL_OUT, 2, 1, 0)],
                    rules := map["relay" := Stored(2, 5)])
  }

  function EgressReported(): Store {
    IngressReported().(nodes := map[ENTRANCE := NodeAt(TUNNEL_IN, 2, 2, 5), EXIT := NodeAt(TUNNEL_OUT, 2, 2, 6)])
  }

  lemma IngressReports()
    ensures StoreNext(RelayCreated(), Beat(ENTRANCE, "ci", BeatWith(TUNNEL_IN, 2, 5)), IngressReported())
  {
    assert AfterHeartbeat(RelayCreated().rules, ENTRANCE, [], 5) == IngressReported().rules;
    assert HeartbeatStep(RelayCreated(), ENTRANCE, "ci", BeatWith(TUNNEL_IN, 2, 5), IngressReported(),
                         Ok(NodeAt(TUNNEL_IN, 2, 2, 5)));
  }

  lemma EgressReports()
    ensures StoreNext(IngressReported(), Beat(EXIT, "co", BeatWith(TUNNEL_OUT, 2, 6)), EgressReported())
  {
    assert AfterHeartbeat(IngressReported().rules, EXIT, [], 6) == EgressReported().rules;
    assert HeartbeatStep(IngressReported(), EXIT, "co", BeatWith(TUNNEL_OUT, 2, 6), EgressReported(),
                         Ok(NodeAt(TUNNEL_OUT, 2, 2, 6)));
  }

  lemma HealthyRun(parsers: Parsers) returns (run: seq<System>, sys: System)
    requires Reads(parsers)
    ensures LastIs(run, parsers, sys) && sys.store == IngressReported()
    ensures Agents2(sys, InConfig(2, [Served(2)]), Up(InConfig(2, [Served(2)]), [Served(2)], 2, "", AwaitingReply),
                    OutConfig(1, []), Up(OutConfig(1, []), [], 0, "", AwaitingReply))
    ensures (EXIT, AgentConfig(2, [Served(2)])) in sys.served
  {
    run, sys := ReportedRun(parsers);
    IngressReports();
    run, sys := Delivered(run, parsers, sys, Message(ENTRANCE, "ci", BeatWith(TUNNEL_IN, 2, 0)), 5, IngressReported());
  }

  /**
   A reachable state in which the dashboard counts an enabled relay rule as healthy although its
   egress agent, up and in touch, neither runs it nor has it on disk.
   */
  lemma HealthyIsNotHeldByEgress(parsers: Parsers) returns (run: seq<System>)
    requires Reads(parsers)
    ensures Synchronisation.IsRun(run, parsers) && "relay" in run[|run| - 1].store.rules && EXIT in run[|run| - 1].agents
    ensures var sys := run[|run| - 1]; var rule := sys.store.rules["relay"];
            && DashboardHealthy(sys.store, rule, 10) && rule.egress == EXIT && EXIT in RuleNodeIds(rule)
            && !HeldBy(sys, "relay", EXIT) && !RuleListApplied(sys.store, rule, 10)
            && Holds(sys.agents[EXIT]) == [] && sys.agents[EXIT].disk.rules == []
  {
    var sys;
    run, sys := HealthyRun(parsers);
  }

  /** The egress fetches the configuration too. */
  lemma CatchingUpRun(parsers: Parsers) returns (run: seq<System>, sys: System)
    requires Reads(parsers)
    ensures LastIs(run, parsers, sys) && sys.store == IngressReported() && EXIT in sys.agents
    ensures sys.agents[EXIT] == Agent(OutConfig(1, []), Up(OutConfig(1, []), [], 0, "", Applying(OutConfig(2, [Served(2)]))))
  {
    run, sys := HealthyRun(parsers);
    Configurations(parsers);
    var first, second := OutConfig(1, []), OutConfig(2, [Served(2)]);
    run, sys := Stepped(run, parsers, sys, EXIT, Reply(2, true), Agent(first, Up(first, [], 0, "", Fetching(2))));
    assert Candidate(first, AgentConfig(2, [Served(2)])) == second;
    run, sys := Stepped(run, parsers, sys, EXIT, Fetched(AgentConfig(2, [Served(2)])),
                        Agent(first, Up(first, [], 0, "", Applying(second))));
  }

  lemma SavedRun(parsers: Parsers) returns (run: seq<System>, sys: System)
    requires Reads(parsers)
    ensures LastIs(run, parsers, sys) && sys.store == IngressReported() && EXIT in sys.agents
    ensures sys.agents[EXIT] == Agent(OutConfig(2, [Served(2)]),
                                      Up(OutConfig(1, []), [Served(2)], 0, "", Committing(OutConfig(2, [Served(2)]))))
  {
    run, sys := CatchingUpRun(parsers);
    var first, second, rules := OutConfig(1, []), OutConfig(2, [Served(2)]), [Served(2)];
    run, sys := Stepped(run, parsers, sys, EXIT, ApplyDone(true), Agent(first, Up(first, rules, 0, "", Saving(second))));
    run, sys := Stepped(run, parsers, sys, EXIT, SaveDone(true), Agent(second, Up(first, rules, 0, "", Committing(second))));
  }

  lemma CaughtUpRun(parsers: Parsers) returns (run: seq<System>, sys: System)
    requires Reads(parsers)
    ensures LastIs(run, parsers, sys) && sys.store == IngressReported()
    ensures Message(EXIT, "co", BeatWith(TUNNEL_OUT, 2, 0)) in sys.sent
  {
    run, sys := SavedRun(parsers);
    var second, rules := OutConfig(2, [Served(2)]), [Served(2)];
    run, sys := Stepped(run, parsers, sys, EXIT, Commit, Agent(second, Up(second, rules, 2, "", Idle)));
    run, sys := Stepped(run, parsers, sys, EXIT, Send, Agent(second, Up(second, rules, 2, "", AwaitingReply)));
  }

  /** And a reachable state in which the rule list shows the relay as applied: neither promise is an empty one. */
  lemma ARelayIsShownAsApplied(parsers: Parsers) returns (run: seq<System>)
    requires Reads(parsers)
    ensures Synchronisation.IsRun(run, parsers) && "relay" in run[|run| - 1].store.rules
    ensures RuleListApplied(run[|run| - 1].store, run[|run| - 1].store.rules["relay"], 10)
  {
    var sys;
    run, sys := CaughtUpRun(parsers);
    EgressReports();
    run, sys := Delivered(run, parsers, sys, Message(EXIT, "co", BeatWith(TUNNEL_OUT, 2, 0)), 6, EgressReported());
  }
}
