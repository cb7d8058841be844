/**
 The listener manager of an agent. `Apply` replaces the running rule set: every new listener
 is opened before any old one is touched, and a failure leaves everything as it was.
 */
module Management {
  import opened Domain
  import opened Bandwidth
  import opened Preparation

  /** The operating system's sockets: an address can be bound once per network. */
  class Os {
    var bound: set<Socket>

    constructor (bound: set<Socket>)
      ensures this.bound == bound
    {
      this.bound := bound;
    }

    /** Binding fails on a bound socket, and for any other reason on a refused one. */
    method Listen(socket: Socket, refused: set<Socket>) returns (ok: bool)
      modifies this
      ensures ok <==> socket !in old(bound) && socket !in refused
      ensures bound == if ok then old(bound) + {socket} else old(bound)
    {
      ok := socket !in bound && socket !in refused;
      if ok {
        bound := bound + {socket};
      }
    }
  }

  /** A TCP or UDP forwarder: one open socket and the configuration new connections use. */
  class Forwarder {
    const network: Network
    const listen: Endpoint
    var config: Prepared
    var limiter: BandwidthLimiter
    var started: bool
    var closed: bool

    constructor (network: Network, config: Prepared, limiter: BandwidthLimiter)
      ensures this.network == network && this.listen == config.listen
      ensures this.config == config && this.limiter == limiter && !started && !closed
    {
      this.network, this.listen, this.config, this.limiter := network, config.listen, config, limiter;
      started, closed := false, false;
    }

    function Place(): Socket {
      Socket(network, listen)
    }

    method Start()
      modifies this`started
      ensures started
    {
      started := true;
    }

    /** Takes effect once: the socket is released. */
    method Close(os: Os)
      modifies this`closed, os
      ensures closed
      ensures os.bound == if old(closed) then old(os.bound) else old(os.bound) - {Place()}
    {
      if !closed {
        closed := true;
        os.bound := os.bound - {Place()};
      }
    }

    /** The stored configuration is replaced unless the rule is the same; UDP always replaces it. */
    method Reconfigure(config: Prepared, limiter: BandwidthLimiter)
      modifies this`config, this`limiter
      ensures network == UdpNetwork || old(this.config).rule != config.rule ==>
                this.config == config && this.limiter == limiter
      ensures network == TcpNetwork && old(this.config).rule == config.rule ==>
                this.config == old(this.config) && this.limiter == old(this.limiter)
    {
      if network == UdpNetwork || this.config.rule != config.rule {
        this.config, this.limiter := config, limiter;
      }
    }
  }

  predicate Serves(network: Network, prepared: Prepared) {
    if network == TcpNetwork then prepared.rule.UsesTcp() else prepared.rule.UsesUdp()
  }

  /** The ids that get a forwarder on this network. */
  function Wanted(network: Network, desired: map<string, Prepared>): set<string> {
    set id | id in desired && Serves(network, desired[id])
  }

  /** Ids whose listener is already open at the right address. */
  function Kept(network: Network, desired: map<string, Prepared>, current: map<string, Forwarder>): set<string> {
    set id | id in desired && Serves(network, desired[id]) && id in current && current[id].listen == desired[id].listen
  }

  function Missing(network: Network, desired: map<string, Prepared>, current: map<string, Forwarder>): set<string> {
    Wanted(network, desired) - Kept(network, desired, current)
  }

  /** The sockets these ids ask for. */
  function Places(network: Network, desired: map<string, Prepared>, ids: set<string>): set<Socket> {
    set id | id in ids && id in desired :: Socket(network, desired[id].listen)
  }

  function Occupied(forwarders: map<string, Forwarder>): set<Socket> {
    set id | id in forwarders :: forwarders[id].Place()
  }

  /** No two rules of one network listen on the same address. */
  ghost predicate Separate(network: Network, desired: map<string, Prepared>) {
    forall a, b :: a in Wanted(network, desired) && b in Wanted(network, desired) && a != b ==>
      desired[a].listen != desired[b].listen
  }

  /** Forwarders of one network, each with its own socket. */
  ghost predicate Apart(network: Network, forwarders: map<string, Forwarder>) {
    && (forall id :: id in forwarders ==> forwarders[id].network == network)
    && (forall a, b :: a in forwarders && b in forwarders && a != b ==> forwarders[a].listen != forwarders[b].listen)
  }

  ghost predicate Running(network: Network, forwarders: map<string, Forwarder>)
    reads forwarders.Values
  {
    Apart(network, forwarders) && forall id :: id in forwarders ==> !forwarders[id].closed
  }

  /** The forwarder runs this prepared rule, under the rule's one limiter. */
  ghost predicate Runs(forwarder: Forwarder, network: Network, prepared: Prepared, limiter: BandwidthLimiter)
    reads forwarder
  {
    && forwarder.network == network && !forwarder.closed && forwarder.listen == prepared.listen
    && forwarder.config == prepared && forwarder.limiter == limiter
  }

  ghost predicate Started(network: Network, forwarders: map<string, Forwarder>, desired: map<string, Prepared>,
                         limiters: map<string, BandwidthLimiter>)
    reads forwarders.Values
  {
    forall id :: id in forwarders ==>
      id in desired && id in limiters && Runs(forwarders[id], network, desired[id], limiters[id])
  }

  lemma PlacesWithOne(network: Network, desired: map<string, Prepared>, ids: set<string>, id: string)
    requires id in desired
    ensures Places(network, desired, ids + {id}) == Places(network, desired, ids) + {Socket(network, desired[id].listen)}
  {
  }

  lemma PlaceOf(network: Network, desired: map<string, Prepared>, ids: set<string>, id: string)
    requires id in ids && id in desired
    ensures Socket(network, desired[id].listen) in Places(network, desired, ids)
  {
  }

  /** The place of a rule not yet opened is not one of the places already taken here. */
  lemma NewPlace(network: Network, desired: map<string, Prepared>, ids: set<string>, id: string)
    requires Separate(network, desired) && id in Wanted(network, desired) && id !in ids && ids <= Wanted(network, desired)
    ensures Socket(network, desired[id].listen) !in Places(network, desired, ids)
  {
  }

  lemma OccupiedPlaces(network: Network, forwarders: map<string, Forwarder>, desired: map<string, Prepared>,
                       limiters: map<string, BandwidthLimiter>)
    requires Started(network, forwarders, desired, limiters)
    ensures Occupied(forwarders) == Places(network, desired, forwarders.Keys)
  {
    forall id | id in forwarders
      ensures forwarders[id].Place() == Socket(network, desired[id].listen)
    {
      assert Runs(forwarders[id], network, desired[id], limiters[id]);
    }
    forall socket | socket in Places(network, desired, forwarders.Keys)
      ensures socket in Occupied(forwarders)
    {
      var id :| id in forwarders && Socket(network, desired[id].listen) == socket;
      assert forwarders[id].Place() in Occupied(forwarders);
    }
  }

  method OpenOne(os: Os, network: Network, prepared: Prepared, limiter: BandwidthLimiter, refused: set<Socket>)
    returns (forwarder: Forwarder?)
    modifies os
    ensures forwarder == null <==> Socket(network, prepared.listen) in old(os.bound) + refused
    ensures forwarder == null ==> os.bound == old(os.bound)
    ensures forwarder != null ==>
              && fresh(forwarder) && Runs(forwarder, network, prepared, limiter)
              && os.bound == old(os.bound) + {Socket(network, prepared.listen)}
  {
    var listening := os.Listen(Socket(network, prepared.listen), refused);
    if !listening {
      return null;
    }
    forwarder := new Forwarder(network, prepared, limiter);
  }

  /** These ids are still to be opened; those that are not have listeners at places nobody else had. */
  ghost predicate Opening(network: Network, desired: map<string, Prepared>, begun: map<string, Forwarder>,
                          limiters: map<string, BandwidthLimiter>, ids: set<string>, todo: set<string>, taken: set<Socket>)
    reads begun.Values
  {
    && todo <= ids <= Wanted(network, desired) && begun.Keys == ids - todo
    && Started(network, begun, desired, limiters) && Places(network, desired, begun.Keys) !! taken
  }

  lemma OneRefused(network: Network, desired: map<string, Prepared>, ids: set<string>, id: string, before: set<Socket>,
                   refused: set<Socket>, done: set<string>)
    requires Separate(network, desired) && ids <= Wanted(network, desired) && id in ids && done <= ids && id !in done
    requires Socket(network, desired[id].listen) in before + Places(network, desired, done) + refused
    ensures !(Places(network, desired, ids) !! before + refused)
  {
    NewPlace(network, desired, done, id);
    PlaceOf(network, desired, ids, id);
  }

  lemma OneMore(network: Network, desired: map<string, Prepared>, begun: map<string, Forwarder>, id: string,
                forwarder: Forwarder, limiters: map<string, BandwidthLimiter>, ids: set<string>, todo: set<string>,
                before: set<Socket>, refused: set<Socket>)
    requires Separate(network, desired) && id in todo && id in limiters
    requires Opening(network, desired, begun, limiters, ids, todo, before + refused)
    requires id in desired && Runs(forwarder, network, desired[id], limiters[id])
    requires Socket(network, desired[id].listen) !in before + Places(network, desired, begun.Keys) + refused
    ensures Opening(network, desired, begun[id := forwarder], limiters, ids, todo - {id}, before + refused)
    ensures before + Places(network, desired, begun.Keys) + {Socket(network, desired[id].listen)}
         == before + Places(network, desired, begun[id := forwarder].Keys)
  {
    PlacesWithOne(network, desired, begun.Keys, id);
    assert begun[id := forwarder].Keys == begun.Keys + {id};
  }

  ghost predicate Within(forwarders: map<string, Forwarder>, mine: set<Forwarder>) {
    forall id :: id in forwarders ==> forwarders[id] in mine
  }

  lemma NothingOpened(network: Network, desired: map<string, Prepared>, limiters: map<string, BandwidthLimiter>,
                      ids: set<string>, taken: set<Socket>)
    requires ids <= Wanted(network, desired)
    ensures Opening(network, desired, map[], limiters, ids, ids, taken) && Places(network, desired, {}) == {}
    ensures ids <= desired.Keys
  {
  }

  lemma WhileOpening(network: Network, desired: map<string, Prepared>, begun: map<string, Forwarder>,
                     limiters: map<string, BandwidthLimiter>, ids: set<string>, todo: set<string>, before: set<Socket>,
                     refused: set<Socket>)
    requires Opening(network, desired, begun, limiters, ids, todo, before + refused)
    ensures todo <= ids && begun.Keys == ids - todo && Started(network, begun, desired, limiters)
    ensures Places(network, desired, begun.Keys) !! before
    ensures todo == {} ==> begun.Keys == ids && Places(network, desired, ids) !! before + refused
  {
    if todo == {} {
      assert begun.Keys == ids;
    }
  }

  /** One pass of the loop: the listener of one more id, or nothing. */
  method OpenNext(os: Os, network: Network, desired: map<string, Prepared>, begun: map<string, Forwarder>, id: string,
                  limiters: map<string, BandwidthLimiter>, ghost ids: set<string>, ghost todo: set<string>,
                  ghost before: set<Socket>, refused: set<Socket>)
    returns (ok: bool, more: map<string, Forwarder>)
    requires Separate(network, desired) && id in todo && todo <= ids <= Wanted(network, desired)
    requires id in desired && id in limiters && Opening(network, desired, begun, limiters, ids, todo, before + refused)
    requires begun.Keys == ids - todo && os.bound == before + Places(network, desired, begun.Keys)
    modifies os
    ensures ok ==> more.Keys == begun.Keys + {id} && more == begun[id := more[id]] && fresh(more[id])
    ensures ok ==> Opening(network, desired, more, limiters, ids, todo - {id}, before + refused)
    ensures !ok ==> more == begun && !(Places(network, desired, ids) !! before + refused)
    ensures os.bound == before + Places(network, desired, more.Keys)
  {
    hide *;
    var forwarder := OpenOne(os, network, desired[id], limiters[id], refused);
    if forwarder == null {
      OneRefused(network, desired, ids, id, before, refused, begun.Keys);
      return false, begun;
    }
    OneMore(network, desired, begun, id, forwarder, limiters, ids, todo, before, refused);
    return true, begun[id := forwarder];
  }

  /** Open a listener for each id; if one fails, the ones already opened are returned to be closed. */
  method OpenListeners(os: Os, network: Network, desired: map<string, Prepared>, ids: set<string>,
                       limiters: map<string, BandwidthLimiter>, refused: set<Socket>)
    returns (ok: bool, begun: map<string, Forwarder>)
    requires ids <= Wanted(network, desired) && Separate(network, desired) && desired.Keys <= limiters.Keys
    modifies os
    ensures ok <==> Places(network, desired, ids) !! old(os.bound) + refused
    ensures begun.Keys <= ids && (ok ==> begun.Keys == ids)
    ensures forall id :: id in begun ==> fresh(begun[id])
    ensures Started(network, begun, desired, limiters)
    ensures os.bound == old(os.bound) + Places(network, desired, begun.Keys)
    ensures Places(network, desired, begun.Keys) !! old(os.bound)
  {
    begun := map[];
    var todo := ids;
    ghost var before := os.bound;
    hide *;
    NothingOpened(network, desired, limiters, ids, before + refused);
    while todo != {}
      invariant Opening(network, desired, begun, limiters, ids, todo, before + refused)
      invariant todo <= ids && forall id :: id in begun ==> fresh(begun[id])
      invariant os.bound == before + Places(network, desired, begun.Keys)
      decreases todo
    {
      var id :| id in todo;
      WhileOpening(network, desired, begun, limiters, ids, todo, before, refused);
      var listening;
      listening, begun := OpenNext(os, network, desired, begun, id, limiters, ids, todo, before, refused);
      if !listening {
        return false, begun;
      }
      todo := todo - {id};
    }
    WhileOpening(network, desired, begun, limiters, ids, todo, before, refused);
    return true, begun;
  }

  /** Close every forwarder of a map and release its socket. */
  method CloseAll(os: Os, forwarders: map<string, Forwarder>, ghost network: Network)
    requires Running(network, forwarders)
    modifies os, forwarders.Values
    ensures forall id :: id in forwarders ==> forwarders[id].closed
    ensures os.bound == old(os.bound) - Occupied(forwarders)
  {
    var todo := forwarders.Keys;
    while todo != {}
      invariant todo <= forwarders.Keys
      invariant forall id :: id in forwarders ==> forwarders[id].closed == (id !in todo)
      invariant os.bound == old(os.bound) - set id | id in forwarders && id !in todo :: forwarders[id].Place()
      decreases todo
    {
      var id :| id in todo;
      todo := todo - {id};
      forwarders[id].Close(os);
    }
  }

  predicate SocketsFree(desired: map<string, Prepared>, tcp: map<string, Forwarder>, udp: map<string, Forwarder>,
                        taken: set<Socket>)
  {
    && Places(TcpNetwork, desired, Missing(TcpNetwork, desired, tcp)) !! taken
    && Places(UdpNetwork, desired, Missing(UdpNetwork, desired, udp)) !! taken
  }

  /** One open limiter per rule, reused by id. */
  ghost predicate LimitersReady(limiters: map<string, BandwidthLimiter>, now: real)
    reads limiters.Values
  {
    && (forall id :: id in limiters ==> limiters[id].Valid() && !limiters[id].closed && limiters[id].last <= now)
    && (forall a, b :: a in limiters && b in limiters && a != b ==> limiters[a] != limiters[b])
  }

  /** What opening the missing listeners of one network left to switch to. */
  ghost predicate Opened(network: Network, desired: map<string, Prepared>, begun: map<string, Forwarder>,
                         current: map<string, Forwarder>, next: map<string, BandwidthLimiter>)
    reads begun.Values
  {
    && begun.Keys == Missing(network, desired, current) && Started(network, begun, desired, next)
    && (forall a, b :: a in begun && b in current ==> begun[a] != current[b])
  }

  lemma FreshlyOpened(network: Network, desired: map<string, Prepared>, begun: map<string, Forwarder>,
                      current: map<string, Forwarder>, next: map<string, BandwidthLimiter>)
    requires begun.Keys == Missing(network, desired, current) && Started(network, begun, desired, next)
    requires forall id :: id in begun ==> begun[id] !in current.Values
    ensures Opened(network, desired, begun, current, next)
  {
  }

  ghost predicate Pooled(limiters: map<string, BandwidthLimiter>, pool: set<BandwidthLimiter>) {
    forall id :: id in limiters ==> limiters[id] in pool
  }

  ghost predicate LimitersSwitchable(before: map<string, BandwidthLimiter>, next: map<string, BandwidthLimiter>,
                                     desired: map<string, Prepared>, pool: set<BandwidthLimiter>, now: real)
    reads pool
  {
    && Pooled(before, pool) && Pooled(next, pool) && next.Keys == desired.Keys
    && LimitersReady(before, now) && LimitersReady(next, now)
    && forall id, other :: id in before && other in next && id !in next ==> before[id] != next[other]
  }

  method PrepareLimiters(desired: map<string, Prepared>, limiters: map<string, BandwidthLimiter>, now: real)
    returns (next: map<string, BandwidthLimiter>)
    requires LimitersReady(limiters, now)
    ensures LimitersSwitchable(limiters, next, desired, limiters.Values + next.Values, now)
    ensures next.Keys == desired.Keys && forall id :: id in next ==> next[id].Valid()
    ensures forall id :: id in next ==>
              if id in limiters then next[id] == limiters[id]
              else fresh(next[id]) && next[id].kbps == desired[id].rule.bandwidthKbps
  {
    next := map[];
    var todo := desired.Keys;
    while todo != {}
      invariant todo <= desired.Keys && next.Keys == desired.Keys - todo
      invariant forall id :: id in next ==> next[id].Valid() && !next[id].closed && next[id].last <= now
      invariant forall id :: id in next ==>
                  if id in limiters then next[id] == limiters[id]
                  else fresh(next[id]) && next[id].kbps == desired[id].rule.bandwidthKbps
      invariant forall a, b :: a in next && b in next && a != b ==> next[a] != next[b]
      decreases todo
    {
      var id :| id in todo;
      todo := todo - {id};
      if id in limiters {
        next := next[id := limiters[id]];
      } else {
        var limiter := new BandwidthLimiter(desired[id].rule.bandwidthKbps, now);
        next := next[id := limiter];
      }
    }
  }

  method CloseLimiters(limiters: map<string, BandwidthLimiter>, ids: set<string>)
    requires ids <= limiters.Keys && forall id :: id in ids ==> limiters[id].Valid()
    modifies set id | id in ids && id in limiters :: limiters[id]
    ensures forall id :: id in ids ==> limiters[id].closed
  {
    var todo := ids;
    while todo != {}
      invariant todo <= ids && forall id :: id in ids ==> limiters[id].Valid()
      invariant forall id :: id in ids && id !in todo ==> limiters[id].closed
      decreases todo
    {
      var id :| id in todo;
      todo := todo - {id};
      limiters[id].Close();
    }
  }

  lemma StartedIsRunning(network: Network, forwarders: map<string, Forwarder>, desired: map<string, Prepared>,
                         limiters: map<string, BandwidthLimiter>)
    requires Started(network, forwarders, desired, limiters) && Separate(network, desired)
    requires forwarders.Keys <= Wanted(network, desired)
    ensures Running(network, forwarders)
    ensures Occupied(forwarders) == Places(network, desired, forwarders.Keys)
  {
    OccupiedPlaces(network, forwarders, desired, limiters);
    forall id | id in forwarders
      ensures Runs(forwarders[id], network, desired[id], limiters[id])
    {
    }
  }

  /** Undo a partial opening: the new listeners and the new limiters are closed. */
  method RollBack(os: Os, desired: map<string, Prepared>, next: map<string, BandwidthLimiter>, created: set<string>,
                  newTcp: map<string, Forwarder>, newUdp: map<string, Forwarder>)
    requires Separate(TcpNetwork, desired) && Started(TcpNetwork, newTcp, desired, next)
    requires Separate(UdpNetwork, desired) && Started(UdpNetwork, newUdp, desired, next)
    requires newTcp.Keys <= Wanted(TcpNetwork, desired) && newUdp.Keys <= Wanted(UdpNetwork, desired)
    requires created <= next.Keys && forall id :: id in created ==> next[id].Valid()
    modifies os, newTcp.Values, newUdp.Values, (set id | id in created && id in next :: next[id])
    ensures os.bound == old(os.bound) - Places(TcpNetwork, desired, newTcp.Keys) - Places(UdpNetwork, desired, newUdp.Keys)
    ensures forall id :: id in newTcp ==> newTcp[id].closed
    ensures forall id :: id in newUdp ==> newUdp[id].closed
    ensures forall id :: id in created ==> next[id].closed
  {
    StartedIsRunning(TcpNetwork, newTcp, desired, next);
    StartedIsRunning(UdpNetwork, newUdp, desired, next);
    CloseAll(os, newTcp, TcpNetwork);
    CloseAll(os, newUdp, UdpNetwork);
    CloseLimiters(next, created);
  }

  /** The TCP listeners, then the UDP listeners; stops at the first that cannot be opened. */
  method OpenBoth(os: Os, desired: map<string, Prepared>, tcp: map<string, Forwarder>, udp: map<string, Forwarder>,
                  next: map<string, BandwidthLimiter>, refused: set<Socket>)
    returns (ok: bool, newTcp: map<string, Forwarder>, newUdp: map<string, Forwarder>)
    requires Separate(TcpNetwork, desired) && Separate(UdpNetwork, desired) && desired.Keys <= next.Keys
    modifies os
    ensures ok <==> SocketsFree(desired, tcp, udp, old(os.bound) + refused)
    ensures newTcp.Keys <= Wanted(TcpNetwork, desired) && newUdp.Keys <= Wanted(UdpNetwork, desired)
    ensures ok ==> Opened(TcpNetwork, desired, newTcp, tcp, next) && Opened(UdpNetwork, desired, newUdp, udp, next)
    ensures (forall id :: id in newTcp ==> fresh(newTcp[id])) && (forall id :: id in newUdp ==> fresh(newUdp[id]))
    ensures Started(TcpNetwork, newTcp, desired, next) && Started(UdpNetwork, newUdp, desired, next)
    ensures os.bound == old(os.bound) + Places(TcpNetwork, desired, newTcp.Keys) + Places(UdpNetwork, desired, newUdp.Keys)
    ensures Places(TcpNetwork, desired, newTcp.Keys) !! old(os.bound)
    ensures Places(UdpNetwork, desired, newUdp.Keys) !! old(os.bound)
  {
    newUdp := map[];
    ok, newTcp := OpenListeners(os, TcpNetwork, desired, Missing(TcpNetwork, desired, tcp), next, refused);
    if !ok {
      return;
    }
    ok, newUdp := OpenListeners(os, UdpNetwork, desired, Missing(UdpNetwork, desired, udp), next, refused);
    if ok {
      FreshlyOpened(TcpNetwork, desired, newTcp, tcp, next);
      FreshlyOpened(UdpNetwork, desired, newUdp, udp, next);
    }
  }

  /**
   Open whatever is missing, TCP first. If any listener cannot be opened, everything opened
   so far and every limiter created for this call is closed again.
   */
  method OpenMissing(os: Os, desired: map<string, Prepared>, tcp: map<string, Forwarder>, udp: map<string, Forwarder>,
                     limiters: map<string, BandwidthLimiter>, refused: set<Socket>, now: real)
    returns (ok: bool, next: map<string, BandwidthLimiter>, newTcp: map<string, Forwarder>, newUdp: map<string, Forwarder>)
    requires Separate(TcpNetwork, desired) && Separate(UdpNetwork, desired) && LimitersReady(limiters, now)
    modifies os
    ensures ok <==> SocketsFree(desired, tcp, udp, old(os.bound) + refused)
    ensures forall id :: id in next ==> if id in limiters then next[id] == limiters[id] else fresh(next[id])
    ensures !ok ==> os.bound == old(os.bound)
    ensures !ok ==> forall id :: id in next && id !in limiters ==> next[id].closed
    ensures !ok ==> forall id :: id in newTcp ==> fresh(newTcp[id]) && newTcp[id].closed
    ensures !ok ==> forall id :: id in newUdp ==> fresh(newUdp[id]) && newUdp[id].closed
    ensures ok ==> LimitersSwitchable(limiters, next, desired, limiters.Values + next.Values, now)
    ensures ok ==> Opened(TcpNetwork, desired, newTcp, tcp, next) && Opened(UdpNetwork, desired, newUdp, udp, next)
    ensures ok ==> (forall id :: id in newTcp ==> fresh(newTcp[id])) && (forall id :: id in newUdp ==> fresh(newUdp[id]))
    ensures ok ==> os.bound == old(os.bound) + Places(TcpNetwork, desired, newTcp.Keys) + Places(UdpNetwork, desired, newUdp.Keys)
    ensures ok ==> Places(TcpNetwork, desired, newTcp.Keys) !! old(os.bound) && Places(UdpNetwork, desired, newUdp.Keys) !! old(os.bound)
  {
    hide *;
    next := PrepareLimiters(desired, limiters, now);
    ok, newTcp, newUdp := OpenBoth(os, desired, tcp, udp, next, refused);
    if !ok {
      RollBack(os, desired, next, desired.Keys - limiters.Keys, newTcp, newUdp);
    }
  }

  // ---------- Switching over ----------

  /** Open, started forwarders that hold their rule's limiter and a complete configuration. */
  ghost predicate Attached(network: Network, forwarders: map<string, Forwarder>, limiters: map<string, BandwidthLimiter>,
                           parsers: Parsers, mine: set<Forwarder>)
    reads mine
  {
    && Within(forwarders, mine) && Running(network, forwarders)
    && forall id :: id in forwarders ==>
         && id in limiters && forwarders[id].limiter == limiters[id] && forwarders[id].started
         && forwarders[id].config == Finished(forwarders[id].config.rule, parsers)
         && forwarders[id].listen == forwarders[id].config.listen
  }

  ghost predicate AllFinished(desired: map<string, Prepared>, parsers: Parsers) {
    forall id :: id in desired ==> desired[id] == Finished(desired[id].rule, parsers)
  }

  /** A forwarder that only needs to be started, or given the new version of its configuration. */
  ghost predicate Ready(forwarder: Forwarder, network: Network, isNew: bool, prepared: Prepared,
                        limiter: BandwidthLimiter, parsers: Parsers)
    reads forwarder
  {
    && forwarder.network == network && !forwarder.closed && forwarder.listen == prepared.listen
    && forwarder.limiter == limiter
    && (if isNew then forwarder.config == prepared
        else forwarder.started && forwarder.config == Finished(forwarder.config.rule, parsers))
  }

  /** The forwarder of each wanted id: the new one if there is one, else the one already open. */
  function Chosen(network: Network, desired: map<string, Prepared>, begun: map<string, Forwarder>,
                  current: map<string, Forwarder>): map<string, Forwarder>
    requires begun.Keys == Missing(network, desired, current)
  {
    map id | id in Wanted(network, desired) :: if id in begun then begun[id] else current[id]
  }

  /** Start a new forwarder, reconfigure a kept one in place. */
  method Settle(forwarder: Forwarder, network: Network, isNew: bool, prepared: Prepared, limiter: BandwidthLimiter,
                parsers: Parsers)
    requires Ready(forwarder, network, isNew, prepared, limiter, parsers)
    requires prepared == Finished(prepared.rule, parsers)
    modifies forwarder`started, forwarder`config, forwarder`limiter
    ensures Runs(forwarder, network, prepared, limiter) && forwarder.started
  {
    if isNew {
      forwarder.Start();
    } else {
      forwarder.Reconfigure(prepared, limiter);
    }
  }

  ghost predicate AllReady(chosen: map<string, Forwarder>, network: Network, news: set<string>,
                           desired: map<string, Prepared>, next: map<string, BandwidthLimiter>, parsers: Parsers)
    reads chosen.Values
  {
    forall id :: id in chosen ==>
      && id in desired && id in next && desired[id] == Finished(desired[id].rule, parsers)
      && Ready(chosen[id], network, id in news, desired[id], next[id], parsers)
  }

  ghost predicate Distinct(forwarders: map<string, Forwarder>) {
    forall a, b :: a in forwarders && b in forwarders && a != b ==> forwarders[a] != forwarders[b]
  }

  method SettleAll(chosen: map<string, Forwarder>, network: Network, news: set<string>,
                   desired: map<string, Prepared>, next: map<string, BandwidthLimiter>, parsers: Parsers)
    requires Distinct(chosen) && AllReady(chosen, network, news, desired, next, parsers)
    modifies chosen.Values
    ensures Started(network, chosen, desired, next)
    ensures forall id :: id in chosen ==> chosen[id].started
  {
    var todo := chosen.Keys;
    hide Ready, Runs, Finished, ListenAddress;
    while todo != {}
      invariant todo <= chosen.Keys
      invariant forall id :: id in todo ==> Ready(chosen[id], network, id in news, desired[id], next[id], parsers)
      invariant forall id :: id in chosen && id !in todo ==> Runs(chosen[id], network, desired[id], next[id]) && chosen[id].started
      decreases todo
    {
      var id :| id in todo;
      todo := todo - {id};
      Settle(chosen[id], network, id in news, desired[id], next[id], parsers);
    }
  }

  lemma ChosenAreDistinct(chosen: map<string, Forwarder>, network: Network, news: set<string>,
                          desired: map<string, Prepared>, next: map<string, BandwidthLimiter>, parsers: Parsers)
    requires AllReady(chosen, network, news, desired, next, parsers) && Separate(network, desired)
    requires chosen.Keys <= Wanted(network, desired)
    ensures Distinct(chosen)
  {
    forall a, b | a in chosen && b in chosen && a != b
      ensures chosen[a] != chosen[b]
    {
      assert chosen[a].listen == desired[a].listen && chosen[b].listen == desired[b].listen;
    }
  }

  function Dropped(current: map<string, Forwarder>, result: map<string, Forwarder>): set<string> {
    set id | id in current && !(id in result && result[id] == current[id])
  }

  /** Still open forwarders, none of them part of the result. */
  ghost predicate Retiring(current: map<string, Forwarder>, result: map<string, Forwarder>)
    reads current.Values
  {
    && Distinct(current)
    && forall id :: id in Dropped(current, result) ==> !current[id].closed && current[id] !in result.Values
  }

  /** Close the old forwarders that are not part of the result. */
  method CloseDropped(os: Os, current: map<string, Forwarder>, result: map<string, Forwarder>)
    requires Retiring(current, result)
    modifies os, current.Values - result.Values
    ensures forall id :: id in Dropped(current, result) ==> current[id].closed
    ensures os.bound == old(os.bound) - PlacesOf(current, Dropped(current, result))
  {
    var todo := Dropped(current, result);
    while todo != {}
      invariant todo <= Dropped(current, result)
      invariant forall id :: id in Dropped(current, result) ==> current[id].closed == (id !in todo)
      invariant os.bound == old(os.bound) - PlacesOf(current, Dropped(current, result) - todo)
      decreases todo
    {
      var id :| id in todo;
      todo := todo - {id};
      current[id].Close(os);
    }
    assert Dropped(current, result) - todo == Dropped(current, result);
  }

  method UpdateLimiters(next: map<string, BandwidthLimiter>, desired: map<string, Prepared>, now: real)
    requires desired.Keys == next.Keys && LimitersReady(next, now)
    modifies next.Values
    ensures LimitersReady(next, now)
    ensures forall id :: id in next ==> next[id].kbps == desired[id].rule.bandwidthKbps
  {
    var todo := next.Keys;
    while todo != {}
      invariant todo <= next.Keys && LimitersReady(next, now)
      invariant forall id :: id in next && id !in todo ==> next[id].kbps == desired[id].rule.bandwidthKbps
      decreases todo
    {
      var id :| id in todo;
      todo := todo - {id};
      next[id].Update(desired[id].rule.bandwidthKbps, now);
    }
  }

  /** The kept forwarders and the new ones are all ready for the new rules. */
  lemma ChosenAreReady(network: Network, desired: map<string, Prepared>, begun: map<string, Forwarder>,
                       current: map<string, Forwarder>, limiters: map<string, BandwidthLimiter>,
                       next: map<string, BandwidthLimiter>, parsers: Parsers, mine: set<Forwarder>)
    requires begun.Keys == Missing(network, desired, current) && Started(network, begun, desired, next)
    requires Attached(network, current, limiters, parsers, mine) && AllFinished(desired, parsers)
    requires next.Keys == desired.Keys && forall id :: id in next && id in limiters ==> next[id] == limiters[id]
    ensures AllReady(Chosen(network, desired, begun, current), network, begun.Keys, desired, next, parsers)
  {
    var chosen := Chosen(network, desired, begun, current);
    forall id | id in chosen
      ensures Ready(chosen[id], network, id in begun.Keys, desired[id], next[id], parsers)
    {
      if id in begun {
        assert Runs(begun[id], network, desired[id], next[id]);
      } else {
        assert id in Kept(network, desired, current);
      }
    }
  }

  ghost function PlacesOf(forwarders: map<string, Forwarder>, ids: set<string>): set<Socket> {
    set id | id in ids && id in forwarders :: forwarders[id].Place()
  }

  /** A forwarder that was dropped is not running under another id either. */
  lemma DroppedAreUnused(network: Network, desired: map<string, Prepared>, begun: map<string, Forwarder>,
                         current: map<string, Forwarder>)
    requires begun.Keys == Missing(network, desired, current) && Running(network, current)
    requires forall a, b :: a in begun && b in current ==> begun[a] != current[b]
    ensures var result := Chosen(network, desired, begun, current);
            Retiring(current, result)
  {
    var result := Chosen(network, desired, begun, current);
    forall a | a in Dropped(current, result)
      ensures current[a] !in result.Values
    {
      forall b | b in result
        ensures current[a] != result[b]
      {
        if b !in begun && a != b {
          assert b in current && result[b] == current[b] && current[a].listen != current[b].listen;
        }
      }
    }
  }

  ghost predicate Replaceable(network: Network, chosen: map<string, Forwarder>, news: set<string>,
                              current: map<string, Forwarder>, desired: map<string, Prepared>,
                              next: map<string, BandwidthLimiter>, parsers: Parsers, mine: set<Forwarder>)
    reads mine
  {
    && Within(chosen, mine) && Within(current, mine)
    && Distinct(chosen) && AllReady(chosen, network, news, desired, next, parsers) && Retiring(current, chosen)
  }

  /** The chosen forwarders run the new rules; the others are still open. */
  ghost predicate Taken(network: Network, chosen: map<string, Forwarder>, current: map<string, Forwarder>,
                        desired: map<string, Prepared>, next: map<string, BandwidthLimiter>, mine: set<Forwarder>)
    reads mine
  {
    && Within(chosen, mine) && Within(current, mine) && Retiring(current, chosen)
    && Started(network, chosen, desired, next)
    && forall id :: id in chosen ==> chosen[id].started
  }

  /** The chosen forwarders run the new rules, and the others are closed. */
  ghost predicate Replaced(network: Network, chosen: map<string, Forwarder>, current: map<string, Forwarder>,
                           desired: map<string, Prepared>, next: map<string, BandwidthLimiter>, mine: set<Forwarder>)
    reads mine
  {
    && Within(chosen, mine) && Within(current, mine)
    && Started(network, chosen, desired, next)
    && (forall id :: id in chosen ==> chosen[id].started)
    && (forall id :: id in Dropped(current, chosen) ==> current[id].closed)
  }

  method TakeOver(network: Network, chosen: map<string, Forwarder>, news: set<string>, current: map<string, Forwarder>,
                  desired: map<string, Prepared>, next: map<string, BandwidthLimiter>, parsers: Parsers,
                  ghost mine: set<Forwarder>)
    requires Replaceable(network, chosen, news, current, desired, next, parsers, mine)
    modifies mine
    ensures Taken(network, chosen, current, desired, next, mine)
  {
    SettleAll(chosen, network, news, desired, next, parsers);
  }

  method Retire(os: Os, network: Network, chosen: map<string, Forwarder>, current: map<string, Forwarder>,
                ghost desired: map<string, Prepared>, ghost next: map<string, BandwidthLimiter>, ghost mine: set<Forwarder>)
    requires Taken(network, chosen, current, desired, next, mine)
    modifies os, mine
    ensures Replaced(network, chosen, current, desired, next, mine)
    ensures os.bound == old(os.bound) - PlacesOf(current, Dropped(current, chosen))
  {
    CloseDropped(os, current, chosen);
  }

  /** Both networks take over, TCP first; only then are the listeners left over closed. */
  method ReplaceBoth(os: Os, tcpChosen: map<string, Forwarder>, tcpNews: set<string>, tcp: map<string, Forwarder>,
                     udpChosen: map<string, Forwarder>, udpNews: set<string>, udp: map<string, Forwarder>,
                     desired: map<string, Prepared>, next: map<string, BandwidthLimiter>, parsers: Parsers,
                     ghost tcpMine: set<Forwarder>, ghost udpMine: set<Forwarder>)
    requires Replaceable(TcpNetwork, tcpChosen, tcpNews, tcp, desired, next, parsers, tcpMine)
    requires Replaceable(UdpNetwork, udpChosen, udpNews, udp, desired, next, parsers, udpMine)
    requires tcpMine !! udpMine
    modifies os, tcpMine, udpMine
    ensures Replaced(TcpNetwork, tcpChosen, tcp, desired, next, tcpMine)
    ensures Replaced(UdpNetwork, udpChosen, udp, desired, next, udpMine)
    ensures os.bound == old(os.bound) - PlacesOf(tcp, Dropped(tcp, tcpChosen)) - PlacesOf(udp, Dropped(udp, udpChosen))
  {
    hide *;
    TakeOver(TcpNetwork, tcpChosen, tcpNews, tcp, desired, next, parsers, tcpMine);
    TakeOver(UdpNetwork, udpChosen, udpNews, udp, desired, next, parsers, udpMine);
    Retire(os, TcpNetwork, tcpChosen, tcp, desired, next, tcpMine);
    Retire(os, UdpNetwork, udpChosen, udp, desired, next, udpMine);
  }

  /** Everything the switch needs, from what opening the missing listeners left behind. */
  lemma ReadyToReplace(network: Network, desired: map<string, Prepared>, begun: map<string, Forwarder>,
                       current: map<string, Forwarder>, limiters: map<string, BandwidthLimiter>,
                       next: map<string, BandwidthLimiter>, parsers: Parsers, mine: set<Forwarder>)
    requires begun.Keys == Missing(network, desired, current) && Started(network, begun, desired, next)
    requires Attached(network, current, limiters, parsers, mine) && AllFinished(desired, parsers) && Separate(network, desired)
    requires next.Keys == desired.Keys && forall id :: id in next && id in limiters ==> next[id] == limiters[id]
    requires forall a, b :: a in begun && b in current ==> begun[a] != current[b]
    requires Within(begun, mine)
    ensures Replaceable(network, Chosen(network, desired, begun, current), begun.Keys, current, desired, next, parsers, mine)
  {
    var chosen := Chosen(network, desired, begun, current);
    ChosenAreReady(network, desired, begun, current, limiters, next, parsers, mine);
    ChosenAreDistinct(chosen, network, begun.Keys, desired, next, parsers);
    DroppedAreUnused(network, desired, begun, current);
  }

  /** What the switch does to one network's sockets: the dropped ones go, the missing ones come. */
  lemma SocketsMoved(network: Network, desired: map<string, Prepared>, begun: map<string, Forwarder>,
                     current: map<string, Forwarder>)
    requires begun.Keys == Missing(network, desired, current) && Apart(network, current)
    requires forall id :: id in begun ==> begun[id].Place() == Socket(network, desired[id].listen)
    requires forall a, b :: a in begun && b in current ==> begun[a] != current[b]
    ensures var chosen := Chosen(network, desired, begun, current);
            && PlacesOf(current, Dropped(current, chosen)) <= Occupied(current)
            && Occupied(chosen) == Occupied(current) - PlacesOf(current, Dropped(current, chosen)) + Places(network, desired, begun.Keys)
  {
    var chosen := Chosen(network, desired, begun, current);
    var dropped := PlacesOf(current, Dropped(current, chosen));
    forall id | id in chosen
      ensures chosen[id].Place() in Occupied(current) - dropped + Places(network, desired, begun.Keys)
    {
      if id in begun {
        assert chosen[id].Place() in Places(network, desired, begun.Keys);
      } else {
        assert current[id].Place() in Occupied(current) && current[id].Place() !in dropped;
      }
    }
    forall id | id in current && id !in Dropped(current, chosen)
      ensures current[id].Place() in Occupied(chosen)
    {
      assert chosen[id].Place() in Occupied(chosen);
    }
    forall id | id in begun
      ensures Socket(network, desired[id].listen) in Occupied(chosen)
    {
      assert chosen[id].Place() in Occupied(chosen);
    }
  }

  lemma SocketsBalance(before: set<Socket>, occupied1: set<Socket>, occupied2: set<Socket>, dropped1: set<Socket>,
                       dropped2: set<Socket>, opened1: set<Socket>, opened2: set<Socket>)
    requires occupied1 <= before && occupied2 <= before && occupied1 !! occupied2
    requires dropped1 <= occupied1 && dropped2 <= occupied2 && opened1 !! before && opened2 !! before
    ensures before + opened1 + opened2 - dropped1 - dropped2
         == before - occupied1 - occupied2 + (occupied1 - dropped1 + opened1) + (occupied2 - dropped2 + opened2)
  {
  }

  /** One network runs exactly the rules that use it, each on its own forwarder. */
  ghost predicate Serving(network: Network, forwarders: map<string, Forwarder>, desired: map<string, Prepared>,
                          limiters: map<string, BandwidthLimiter>, mine: set<Forwarder>)
    reads mine
  {
    && Within(forwarders, mine) && forwarders.Keys == Wanted(network, desired)
    && Started(network, forwarders, desired, limiters)
    && forall id :: id in forwarders ==> forwarders[id].started
  }

  lemma ServingIsAttached(network: Network, forwarders: map<string, Forwarder>, desired: map<string, Prepared>,
                          limiters: map<string, BandwidthLimiter>, parsers: Parsers, mine: set<Forwarder>)
    requires Serving(network, forwarders, desired, limiters, mine)
    requires AllFinished(desired, parsers) && Separate(network, desired)
    ensures Attached(network, forwarders, limiters, parsers, mine)
  {
    StartedIsRunning(network, forwarders, desired, limiters);
    forall id | id in forwarders
      ensures Runs(forwarders[id], network, desired[id], limiters[id])
    {
    }
  }

  ghost predicate LimitersSwitched(before: map<string, BandwidthLimiter>, next: map<string, BandwidthLimiter>,
                                   desired: map<string, Prepared>, pool: set<BandwidthLimiter>, now: real)
    reads pool
  {
    && Pooled(before, pool) && Pooled(next, pool) && next.Keys == desired.Keys && LimitersReady(next, now)
    && (forall id :: id in next ==> next[id].kbps == desired[id].rule.bandwidthKbps)
    && (forall id :: id in before && id !in next ==> before[id].closed)
  }

  /** The limiters in use have their new rate; those of rules that are gone are still open. */
  ghost predicate LimitersTuned(before: map<string, BandwidthLimiter>, next: map<string, BandwidthLimiter>,
                                desired: map<string, Prepared>, pool: set<BandwidthLimiter>, now: real)
    reads pool
  {
    && Pooled(before, pool) && Pooled(next, pool) && next.Keys == desired.Keys && LimitersReady(next, now)
    && (forall id :: id in next ==> next[id].kbps == desired[id].rule.bandwidthKbps)
    && (forall id :: id in before && id !in next ==> before[id].Valid() && before[id] !in next.Values)
  }

  method TuneLimiters(before: map<string, BandwidthLimiter>, next: map<string, BandwidthLimiter>,
                      desired: map<string, Prepared>, now: real, ghost pool: set<BandwidthLimiter>)
    requires LimitersSwitchable(before, next, desired, pool, now)
    modifies pool
    ensures LimitersTuned(before, next, desired, pool, now)
  {
    UpdateLimiters(next, desired, now);
  }

  method DropLimiters(before: map<string, BandwidthLimiter>, next: map<string, BandwidthLimiter>,
                      ghost desired: map<string, Prepared>, ghost now: real, ghost pool: set<BandwidthLimiter>)
    requires LimitersTuned(before, next, desired, pool, now)
    modifies pool
    ensures LimitersSwitched(before, next, desired, pool, now)
  {
    CloseLimiters(before, before.Keys - next.Keys);
  }

  /** The new rule set takes over: the rates, then the listeners; last, the limiters left over are closed. */
  method SwitchAll(os: Os, desired: map<string, Prepared>, parsers: Parsers,
                   tcp: map<string, Forwarder>, newTcp: set<string>, oldTcp: map<string, Forwarder>,
                   udp: map<string, Forwarder>, newUdp: set<string>, oldUdp: map<string, Forwarder>,
                   next: map<string, BandwidthLimiter>, before: map<string, BandwidthLimiter>, now: real,
                   ghost tcpMine: set<Forwarder>, ghost udpMine: set<Forwarder>, ghost pool: set<BandwidthLimiter>)
    requires Replaceable(TcpNetwork, tcp, newTcp, oldTcp, desired, next, parsers, tcpMine)
    requires Replaceable(UdpNetwork, udp, newUdp, oldUdp, desired, next, parsers, udpMine)
    requires tcpMine !! udpMine && LimitersSwitchable(before, next, desired, pool, now)
    modifies os, tcpMine, udpMine, pool
    ensures Replaced(TcpNetwork, tcp, oldTcp, desired, next, tcpMine)
    ensures Replaced(UdpNetwork, udp, oldUdp, desired, next, udpMine)
    ensures LimitersSwitched(before, next, desired, pool, now)
    ensures os.bound == old(os.bound) - PlacesOf(oldTcp, Dropped(oldTcp, tcp)) - PlacesOf(oldUdp, Dropped(oldUdp, udp))
  {
    hide *;
    TuneLimiters(before, next, desired, now, pool);
    ReplaceBoth(os, tcp, newTcp, oldTcp, udp, newUdp, oldUdp, desired, next, parsers, tcpMine, udpMine);
    DropLimiters(before, next, desired, now, pool);
  }

  /** What a whole replacement does to the bound sockets. */
  lemma BooksBalance(desired: map<string, Prepared>, newTcp: map<string, Forwarder>, tcp: map<string, Forwarder>,
                     newUdp: map<string, Forwarder>, udp: map<string, Forwarder>, next: map<string, BandwidthLimiter>,
                     before: set<Socket>)
    requires Opened(TcpNetwork, desired, newTcp, tcp, next) && Opened(UdpNetwork, desired, newUdp, udp, next)
    requires Apart(TcpNetwork, tcp) && Apart(UdpNetwork, udp) && Occupied(tcp) <= before && Occupied(udp) <= before
    requires Places(TcpNetwork, desired, newTcp.Keys) !! before && Places(UdpNetwork, desired, newUdp.Keys) !! before
    ensures var tcpResult, udpResult := Chosen(TcpNetwork, desired, newTcp, tcp), Chosen(UdpNetwork, desired, newUdp, udp);
            before + Places(TcpNetwork, desired, newTcp.Keys) + Places(UdpNetwork, desired, newUdp.Keys)
            - PlacesOf(tcp, Dropped(tcp, tcpResult)) - PlacesOf(udp, Dropped(udp, udpResult))
            == before - Occupied(tcp) - Occupied(udp) + Occupied(tcpResult) + Occupied(udpResult)
  {
    var tcpResult, udpResult := Chosen(TcpNetwork, desired, newTcp, tcp), Chosen(UdpNetwork, desired, newUdp, udp);
    OpenedPlaces(TcpNetwork, desired, newTcp, tcp, next);
    OpenedPlaces(UdpNetwork, desired, newUdp, udp, next);
    SocketsMoved(TcpNetwork, desired, newTcp, tcp);
    SocketsMoved(UdpNetwork, desired, newUdp, udp);
    assert Occupied(tcp) !! Occupied(udp);
    SocketsBalance(before, Occupied(tcp), Occupied(udp), PlacesOf(tcp, Dropped(tcp, tcpResult)),
                   PlacesOf(udp, Dropped(udp, udpResult)), Places(TcpNetwork, desired, newTcp.Keys),
                   Places(UdpNetwork, desired, newUdp.Keys));
  }

  lemma OpenedPlaces(network: Network, desired: map<string, Prepared>, begun: map<string, Forwarder>,
                     current: map<string, Forwarder>, next: map<string, BandwidthLimiter>)
    requires Opened(network, desired, begun, current, next)
    ensures forall id :: id in begun ==> begun[id].Place() == Socket(network, desired[id].listen)
  {
    forall id | id in begun
      ensures begun[id].Place() == Socket(network, desired[id].listen)
    {
      assert Runs(begun[id], network, desired[id], next[id]);
    }
  }

  /** A kept id keeps its object; every other one is the new listener. */
  ghost predicate Carried(network: Network, desired: map<string, Prepared>, begun: map<string, Forwarder>,
                          current: map<string, Forwarder>, result: map<string, Forwarder>)
  {
    forall id :: id in result ==>
      if id in Kept(network, desired, current) then result[id] == current[id] else id in begun && result[id] == begun[id]
  }

  lemma AfterReplacing(network: Network, desired: map<string, Prepared>, begun: map<string, Forwarder>,
                       current: map<string, Forwarder>, next: map<string, BandwidthLimiter>, parsers: Parsers,
                       mine: set<Forwarder>)
    requires begun.Keys == Missing(network, desired, current) && AllFinished(desired, parsers) && Separate(network, desired)
    requires Replaced(network, Chosen(network, desired, begun, current), current, desired, next, mine)
    ensures var result := Chosen(network, desired, begun, current);
            && Serving(network, result, desired, next, mine) && Attached(network, result, next, parsers, mine)
            && Carried(network, desired, begun, current, result)
            && forall id :: id in Dropped(current, result) ==> current[id].closed
  {
    ServingIsAttached(network, Chosen(network, desired, begun, current), desired, next, parsers, mine);
  }

  /** What `prepareRules` accepts gives every network separate listeners. */
  lemma DesiredIsReady(rules: seq<Rule>, node: string, parsers: Parsers)
    requires Acceptable(rules, node, parsers)
    ensures AllFinished(DesiredMap(rules, node, parsers), parsers)
    ensures Separate(TcpNetwork, DesiredMap(rules, node, parsers)) && Separate(UdpNetwork, DesiredMap(rules, node, parsers))
  {
    var desired := DesiredMap(rules, node, parsers);
    DesiredMapIsExact(rules, node, parsers);
    forall id | id in desired
      ensures desired[id] == Finished(desired[id].rule, parsers)
    {
      var i :| 0 <= i < |rules| && rules[i].enabled && rules[i].id == id;
      assert desired[id] == Prepare(rules[i], node, parsers);
    }
    forall network: Network, a, b | a in Wanted(network, desired) && b in Wanted(network, desired) && a != b
      ensures desired[a].listen != desired[b].listen
    {
      assert network in NetworksOf(desired[a].rule) && network in NetworksOf(desired[b].rule);
      DesiredIsSeparate(rules, node, parsers, a, b, network);
    }
  }

  method CloseBoth(os: Os, tcp: map<string, Forwarder>, udp: map<string, Forwarder>,
                   ghost tcpMine: set<Forwarder>, ghost udpMine: set<Forwarder>)
    requires Within(tcp, tcpMine) && Running(TcpNetwork, tcp) && Within(udp, udpMine) && Running(UdpNetwork, udp)
    requires tcpMine !! udpMine
    modifies os, tcpMine, udpMine
    ensures (forall id :: id in tcp ==> tcp[id].closed) && (forall id :: id in udp ==> udp[id].closed)
    ensures os.bound == old(os.bound) - Occupied(tcp) - Occupied(udp)
  {
    CloseAll(os, tcp, TcpNetwork);
    CloseAll(os, udp, UdpNetwork);
  }

  class Manager {
    const os: Os
    const nodeId: string
    const parsers: Parsers
    var forwarders: map<string, Forwarder>
    var udpForwarders: map<string, Forwarder>
    var limiters: map<string, BandwidthLimiter>
    var closed: bool
    ghost var tcpMine: set<Forwarder>
    ghost var udpMine: set<Forwarder>

    ghost predicate Valid()
      reads this, os, tcpMine, udpMine
    {
      Consistent() && Occupied(forwarders) <= os.bound && Occupied(udpForwarders) <= os.bound
    }

    ghost predicate Consistent()
      reads this, tcpMine, udpMine
    {
      && Attached(TcpNetwork, forwarders, limiters, parsers, tcpMine)
      && Attached(UdpNetwork, udpForwarders, limiters, parsers, udpMine)
      && (forall f :: f in tcpMine ==> f.network == TcpNetwork)
      && (forall f :: f in udpMine ==> f.network == UdpNetwork)
    }

    constructor (os: Os, nodeId: string, parsers: Parsers)
      ensures Valid() && !closed && forwarders == map[] && udpForwarders == map[] && limiters == map[]
      ensures this.os == os && this.nodeId == nodeId && this.parsers == parsers
    {
      this.os, this.nodeId, this.parsers := os, nodeId, parsers;
      forwarders, udpForwarders, limiters, closed := map[], map[], map[], false;
      tcpMine, udpMine := {}, {};
    }

    /** The manager runs exactly this rule set. */
    ghost predicate Installed(desired: map<string, Prepared>)
      reads this, tcpMine, udpMine, limiters.Values
    {
      && Serving(TcpNetwork, forwarders, desired, limiters, tcpMine)
      && Serving(UdpNetwork, udpForwarders, desired, limiters, udpMine)
      && limiters.Keys == desired.Keys
      && forall id :: id in limiters ==> limiters[id].kbps == desired[id].rule.bandwidthKbps
    }

    /** Everything is open; make the new rule set the running one and close what is left over. */
    method SwitchOver(desired: map<string, Prepared>, next: map<string, BandwidthLimiter>, now: real,
                      tcp: map<string, Forwarder>, newTcp: set<string>, udp: map<string, Forwarder>, newUdp: set<string>,
                      ghost tcpMore: set<Forwarder>, ghost udpMore: set<Forwarder>, ghost pool: set<BandwidthLimiter>)
      requires Replaceable(TcpNetwork, tcp, newTcp, forwarders, desired, next, parsers, tcpMore)
      requires Replaceable(UdpNetwork, udp, newUdp, udpForwarders, desired, next, parsers, udpMore)
      requires tcpMore !! udpMore && LimitersSwitchable(limiters, next, desired, pool, now)
      modifies this, os, tcpMore, udpMore, pool
      ensures forwarders == tcp && udpForwarders == udp && limiters == next && closed == old(closed)
      ensures tcpMine == tcpMore && udpMine == udpMore
      ensures Replaced(TcpNetwork, tcp, old(forwarders), desired, next, tcpMore)
      ensures Replaced(UdpNetwork, udp, old(udpForwarders), desired, next, udpMore)
      ensures LimitersSwitched(old(limiters), next, desired, pool, now)
      ensures os.bound == old(os.bound) - PlacesOf(old(forwarders), Dropped(old(forwarders), tcp))
                                        - PlacesOf(old(udpForwarders), Dropped(old(udpForwarders), udp))
    {
      hide *;
      SwitchAll(os, desired, parsers, tcp, newTcp, forwarders, udp, newUdp, udpForwarders, next, limiters, now,
                tcpMore, udpMore, pool);
      forwarders, udpForwarders, limiters, tcpMine, udpMine := tcp, udp, next, tcpMore, udpMore;
    }

    lemma BothReady(desired: map<string, Prepared>, next: map<string, BandwidthLimiter>, newTcp: map<string, Forwarder>,
                    newUdp: map<string, Forwarder>, tcpMore: set<Forwarder>, udpMore: set<Forwarder>)
      requires Consistent() && AllFinished(desired, parsers)
      requires Separate(TcpNetwork, desired) && Separate(UdpNetwork, desired)
      requires Opened(TcpNetwork, desired, newTcp, forwarders, next) && Opened(UdpNetwork, desired, newUdp, udpForwarders, next)
      requires next.Keys == desired.Keys && forall id :: id in next && id in limiters ==> next[id] == limiters[id]
      requires tcpMore == tcpMine + newTcp.Values && udpMore == udpMine + newUdp.Values
      ensures newTcp.Keys == Missing(TcpNetwork, desired, forwarders) && newUdp.Keys == Missing(UdpNetwork, desired, udpForwarders)
      ensures Replaceable(TcpNetwork, Chosen(TcpNetwork, desired, newTcp, forwarders), newTcp.Keys, forwarders, desired, next, parsers, tcpMore)
      ensures Replaceable(UdpNetwork, Chosen(UdpNetwork, desired, newUdp, udpForwarders), newUdp.Keys, udpForwarders, desired, next, parsers, udpMore)
    {
      ReadyToReplace(TcpNetwork, desired, newTcp, forwarders, limiters, next, parsers, tcpMore);
      ReadyToReplace(UdpNetwork, desired, newUdp, udpForwarders, limiters, next, parsers, udpMore);
    }

    lemma KeysOfSwitchable(desired: map<string, Prepared>, next: map<string, BandwidthLimiter>, pool: set<BandwidthLimiter>, now: real)
      requires LimitersSwitchable(limiters, next, desired, pool, now)
      ensures next.Keys == desired.Keys
    {
    }

    /** Make what was opened the running rule set. */
    method Install(desired: map<string, Prepared>, next: map<string, BandwidthLimiter>, now: real,
                   newTcp: map<string, Forwarder>, newUdp: map<string, Forwarder>,
                   ghost tcpMore: set<Forwarder>, ghost udpMore: set<Forwarder>, ghost pool: set<BandwidthLimiter>)
      requires Consistent() && AllFinished(desired, parsers)
      requires Separate(TcpNetwork, desired) && Separate(UdpNetwork, desired)
      requires Opened(TcpNetwork, desired, newTcp, forwarders, next) && Opened(UdpNetwork, desired, newUdp, udpForwarders, next)
      requires LimitersSwitchable(limiters, next, desired, pool, now)
      requires forall id :: id in next && id in limiters ==> next[id] == limiters[id]
      requires tcpMore == tcpMine + newTcp.Values && udpMore == udpMine + newUdp.Values && tcpMore !! udpMore
      modifies this, os, tcpMore, udpMore, pool
      ensures tcpMine == tcpMore && udpMine == udpMore && limiters == next && closed == old(closed)
      ensures forwarders == Chosen(TcpNetwork, desired, newTcp, old(forwarders))
      ensures udpForwarders == Chosen(UdpNetwork, desired, newUdp, old(udpForwarders))
      ensures Replaced(TcpNetwork, forwarders, old(forwarders), desired, next, tcpMine)
      ensures Replaced(UdpNetwork, udpForwarders, old(udpForwarders), desired, next, udpMine)
      ensures LimitersSwitched(old(limiters), next, desired, pool, now)
      ensures os.bound == old(os.bound) - PlacesOf(old(forwarders), Dropped(old(forwarders), forwarders))
                                        - PlacesOf(old(udpForwarders), Dropped(old(udpForwarders), udpForwarders))
    {
      hide *;
      KeysOfSwitchable(desired, next, pool, now);
      BothReady(desired, next, newTcp, newUdp, tcpMore, udpMore);
      SwitchOver(desired, next, now, Chosen(TcpNetwork, desired, newTcp, forwarders), newTcp.Keys,
                 Chosen(UdpNetwork, desired, newUdp, udpForwarders), newUdp.Keys, tcpMore, udpMore, pool);
    }

    lemma NewcomersFit(desired: map<string, Prepared>, next: map<string, BandwidthLimiter>,
                       newTcp: map<string, Forwarder>, newUdp: map<string, Forwarder>)
      requires Consistent()
      requires Opened(TcpNetwork, desired, newTcp, forwarders, next) && Opened(UdpNetwork, desired, newUdp, udpForwarders, next)
      ensures newTcp.Keys == Missing(TcpNetwork, desired, forwarders) && newUdp.Keys == Missing(UdpNetwork, desired, udpForwarders)
      ensures forall f :: f in tcpMine + newTcp.Values ==> f.network == TcpNetwork
      ensures forall f :: f in udpMine + newUdp.Values ==> f.network == UdpNetwork
      ensures tcpMine + newTcp.Values !! udpMine + newUdp.Values
    {
    }

    /** The state right after the switch is a proper one and runs exactly the new rules. */
    lemma Settled(desired: map<string, Prepared>, now: real, newTcp: map<string, Forwarder>, newUdp: map<string, Forwarder>,
                  tcp: map<string, Forwarder>, udp: map<string, Forwarder>, before: map<string, BandwidthLimiter>,
                  pool: set<BandwidthLimiter>)
      requires AllFinished(desired, parsers) && Separate(TcpNetwork, desired) && Separate(UdpNetwork, desired)
      requires newTcp.Keys == Missing(TcpNetwork, desired, tcp) && forwarders == Chosen(TcpNetwork, desired, newTcp, tcp)
      requires newUdp.Keys == Missing(UdpNetwork, desired, udp) && udpForwarders == Chosen(UdpNetwork, desired, newUdp, udp)
      requires Replaced(TcpNetwork, forwarders, tcp, desired, limiters, tcpMine)
      requires Replaced(UdpNetwork, udpForwarders, udp, desired, limiters, udpMine)
      requires LimitersSwitched(before, limiters, desired, pool, now)
      requires (forall f :: f in tcpMine ==> f.network == TcpNetwork) && (forall f :: f in udpMine ==> f.network == UdpNetwork)
      ensures Consistent() && Installed(desired) && LimitersReady(limiters, now)
      ensures Carried(TcpNetwork, desired, newTcp, tcp, forwarders) && Carried(UdpNetwork, desired, newUdp, udp, udpForwarders)
      ensures forall id :: id in Dropped(tcp, forwarders) ==> tcp[id].closed
      ensures forall id :: id in Dropped(udp, udpForwarders) ==> udp[id].closed
      ensures forall id :: id in before && id !in limiters ==> before[id].closed
    {
      AfterReplacing(TcpNetwork, desired, newTcp, tcp, limiters, parsers, tcpMine);
      AfterReplacing(UdpNetwork, desired, newUdp, udp, limiters, parsers, udpMine);
    }

    /** Open, then switch: the part of `Apply` after the rules were prepared. */
    method ReplaceRules(desired: map<string, Prepared>, refused: set<Socket>, now: real)
      returns (ok: bool, ghost newTcp: map<string, Forwarder>, ghost newUdp: map<string, Forwarder>)
      requires Valid() && LimitersReady(limiters, now) && AllFinished(desired, parsers)
      requires Separate(TcpNetwork, desired) && Separate(UdpNetwork, desired)
      modifies this, os, tcpMine, udpMine, limiters.Values
      ensures ok <==> SocketsFree(desired, old(forwarders), old(udpForwarders), old(os.bound) + refused)
      ensures !ok ==> os.bound == old(os.bound) && unchanged(this) && unchanged(old(tcpMine)) && unchanged(old(udpMine)) && unchanged(old(limiters).Values)
      ensures ok ==> Consistent() && Installed(desired) && LimitersReady(limiters, now) && closed == old(closed)
      ensures ok ==> Carried(TcpNetwork, desired, newTcp, old(forwarders), forwarders) && forall id :: id in newTcp ==> fresh(newTcp[id])
      ensures ok ==> Carried(UdpNetwork, desired, newUdp, old(udpForwarders), udpForwarders) && forall id :: id in newUdp ==> fresh(newUdp[id])
      ensures ok ==> forall id :: id in limiters ==>
                if id in old(limiters) then limiters[id] == old(limiters)[id] else fresh(limiters[id])
      ensures ok ==> forall id :: id in Dropped(old(forwarders), forwarders) ==> old(forwarders)[id].closed
      ensures ok ==> forall id :: id in Dropped(old(udpForwarders), udpForwarders) ==> old(udpForwarders)[id].closed
      ensures ok ==> forall id :: id in old(limiters) && id !in limiters ==> old(limiters)[id].closed
      ensures ok ==> os.bound == old(os.bound) - Occupied(old(forwarders)) - Occupied(old(udpForwarders))
                                 + Occupied(forwarders) + Occupied(udpForwarders)
      ensures ok ==> fresh(tcpMine - old(tcpMine)) && fresh(udpMine - old(udpMine))
    {
      assert Consistent() && Apart(TcpNetwork, forwarders) && Apart(UdpNetwork, udpForwarders);
      assert Occupied(forwarders) <= os.bound && Occupied(udpForwarders) <= os.bound;
      hide *;
      var next, tcp, udp;
      ok, next, tcp, udp := OpenMissing(os, desired, forwarders, udpForwarders, limiters, refused, now);
      newTcp, newUdp := tcp, udp;
      if !ok {
        return;
      }
      BooksBalance(desired, newTcp, forwarders, newUdp, udpForwarders, next, old(os.bound));
      NewcomersFit(desired, next, tcp, udp);
      ghost var pool := limiters.Values + next.Values;
      Install(desired, next, now, tcp, udp, tcpMine + tcp.Values, udpMine + udp.Values, pool);
      Settled(desired, now, newTcp, newUdp, old(forwarders), old(udpForwarders), old(limiters), pool);
    }

    /**
     Replace the running rule set, or change nothing. It succeeds exactly when the rules can be
     prepared and every address not yet listened on by the same rule is free.
     */
    method Apply(rules: seq<Rule>, refused: set<Socket>, now: real) returns (ok: bool)
      requires Valid() && LimitersReady(limiters, now)
      modifies this, os, tcpMine, udpMine, limiters.Values
      ensures Valid() && LimitersReady(limiters, now) && closed == old(closed)
      ensures ok <==>
                && !closed && Acceptable(rules, nodeId, parsers)
                && SocketsFree(DesiredMap(rules, nodeId, parsers), old(forwarders), old(udpForwarders), old(os.bound) + refused)
      ensures !ok ==> os.bound == old(os.bound) && unchanged(this) && unchanged(old(tcpMine)) && unchanged(old(udpMine)) && unchanged(old(limiters).Values)
      ensures ok ==> Installed(DesiredMap(rules, nodeId, parsers))
      ensures ok ==> forall id :: id in forwarders ==>
                if id in Kept(TcpNetwork, DesiredMap(rules, nodeId, parsers), old(forwarders))
                then forwarders[id] == old(forwarders)[id] else fresh(forwarders[id])
      ensures ok ==> forall id :: id in udpForwarders ==>
                if id in Kept(UdpNetwork, DesiredMap(rules, nodeId, parsers), old(udpForwarders))
                then udpForwarders[id] == old(udpForwarders)[id] else fresh(udpForwarders[id])
      ensures ok ==> forall id :: id in limiters ==>
                if id in old(limiters) then limiters[id] == old(limiters)[id] else fresh(limiters[id])
      ensures ok ==> forall id :: id in Dropped(old(forwarders), forwarders) ==> old(forwarders)[id].closed
      ensures ok ==> forall id :: id in Dropped(old(udpForwarders), udpForwarders) ==> old(udpForwarders)[id].closed
      ensures ok ==> forall id :: id in old(limiters) && id !in limiters ==> old(limiters)[id].closed
      ensures ok ==> os.bound == old(os.bound) - Occupied(old(forwarders)) - Occupied(old(udpForwarders))
                                 + Occupied(forwarders) + Occupied(udpForwarders)
      ensures fresh(tcpMine - old(tcpMine)) && fresh(udpMine - old(udpMine))
    {
      var prepared := PrepareRules(rules, nodeId, parsers);
      if prepared.None? || closed {
        return false;
      }
      DesiredIsReady(rules, nodeId, parsers);
      ghost var newTcp, newUdp;
      ok, newTcp, newUdp := ReplaceRules(prepared.value, refused, now);
    }

    method Shut()
      requires tcpMine !! udpMine && Running(TcpNetwork, forwarders) && Running(UdpNetwork, udpForwarders)
      requires Within(forwarders, tcpMine) && Within(udpForwarders, udpMine)
      requires forall id :: id in limiters ==> limiters[id].Valid()
      modifies this, os, tcpMine, udpMine, limiters.Values
      ensures closed && forwarders == map[] && udpForwarders == map[] && limiters == map[]
      ensures tcpMine == old(tcpMine) && udpMine == old(udpMine)
      ensures os.bound == old(os.bound) - Occupied(old(forwarders)) - Occupied(old(udpForwarders))
      ensures forall id :: id in old(forwarders) ==> old(forwarders)[id].closed
      ensures forall id :: id in old(udpForwarders) ==> old(udpForwarders)[id].closed
      ensures forall id :: id in old(limiters) ==> old(limiters)[id].closed
    {
      hide *;
      closed := true;
      CloseBoth(os, forwarders, udpForwarders, tcpMine, udpMine);
      CloseLimiters(limiters, limiters.Keys);
      forwarders, udpForwarders, limiters := map[], map[], map[];
    }

    /** Close everything, once. */
    method Close()
      requires Valid() && forall id :: id in limiters ==> limiters[id].Valid()
      modifies this, os, tcpMine, udpMine, limiters.Values
      ensures Valid() && closed
      ensures old(closed) ==> os.bound == old(os.bound) && unchanged(this)
      ensures !old(closed) ==>
                && forwarders == map[] && udpForwarders == map[] && limiters == map[]
                && os.bound == old(os.bound) - Occupied(old(forwarders)) - Occupied(old(udpForwarders))
                && (forall id :: id in old(forwarders) ==> old(forwarders)[id].closed)
                && (forall id :: id in old(udpForwarders) ==> old(udpForwarders)[id].closed)
                && (forall id :: id in old(limiters) ==> old(limiters)[id].closed)
    {
      if closed {
        return;
      }
      assert tcpMine !! udpMine && Consistent();
      assert Running(TcpNetwork, forwarders) && Running(UdpNetwork, udpForwarders);
      assert Within(forwarders, tcpMine) && Within(udpForwarders, udpMine);
      Shut();
    }
  }

  /** Applying the running rules again needs no socket at all and drops nothing. */
  lemma ReapplyNeedsNothing(manager: Manager, desired: map<string, Prepared>, taken: set<Socket>)
    requires manager.Installed(desired)
    ensures SocketsFree(desired, manager.forwarders, manager.udpForwarders, taken)
    ensures Kept(TcpNetwork, desired, manager.forwarders) == manager.forwarders.Keys
    ensures Kept(UdpNetwork, desired, manager.udpForwarders) == manager.udpForwarders.Keys
  {
    assert forall id :: id in manager.forwarders ==> Runs(manager.forwarders[id], TcpNetwork, desired[id], manager.limiters[id]);
    assert forall id :: id in manager.udpForwarders ==> Runs(manager.udpForwarders[id], UdpNetwork, desired[id], manager.limiters[id]);
    assert Missing(TcpNetwork, desired, manager.forwarders) == {};
    assert Missing(UdpNetwork, desired, manager.udpForwarders) == {};
  }

  /** Moving a rule to the address another live rule holds is refused, even if that rule moves away too. */
  lemma OccupiedAddressIsRefused(manager: Manager, network: Network, desired: map<string, Prepared>, id: string,
                                 holder: string, refused: set<Socket>)
    requires manager.Valid() && id in Wanted(network, desired) && id != holder
    requires var live := if network == TcpNetwork then manager.forwarders else manager.udpForwarders;
             holder in live && desired[id].listen == live[holder].listen
    ensures !SocketsFree(desired, manager.forwarders, manager.udpForwarders, manager.os.bound + refused)
  {
    var live := if network == TcpNetwork then manager.forwarders else manager.udpForwarders;
    var place := live[holder].Place();
    assert place in Occupied(live);
    assert id in Missing(network, desired, live);
    assert place in Places(network, desired, Missing(network, desired, live));
    assert place in manager.os.bound + refused;
  }
}
