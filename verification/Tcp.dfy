/**
 The connections of a TCP forwarder: one accept loop, one handler per client, and `close` from
 outside. Each step is one critical section, one atomic counter operation or one close.
 */
module TcpConnections {
  import opened Domain

  /** Where the accept loop stands. `limit` is the MaxConnections it loaded, 0 for none. */
  datatype Acceptor =
    | Waiting
    | Counting(conn: nat, limit: nat)
    | Counted(conn: nat, limit: nat, seen: int)
    | Rejected(conn: nat)
    | Tracking(conn: nat, limit: nat)
    | Uncounting
    | Stopped

  /** Where a handler stands; the last five are its deferred calls, in the order they run. */
  datatype Phase =
    | Connecting
    | Connected(target: nat)
    | Piping(target: nat, session: nat)
    | TargetClosing(target: nat)
    | TargetUntracking(target: nat)
    | ClientClosing
    | ClientUntracking
    | CountingOut

  datatype Session = Session(client: nat, bytesIn: nat, bytesOut: nat, inDone: bool, outDone: bool)

  datatype State = State(active: int, acceptor: Acceptor, handlers: map<nat, Phase>, tracked: set<nat>, open: set<nat>,
                         used: set<nat>, closed: bool, swept: bool, sessions: seq<Session>, bytesIn: nat, bytesOut: nat)

  const START := State(0, Waiting, map[], {}, {}, {}, false, false, [], 0, 0)

  datatype Event =
    | Accept(conn: nat, limit: nat)
    | Count
    | Admit
    | Drop
    | TrackClient
    | Uncount
    | Stop
    | Dial(client: nat, target: nat, ok: bool)
    | TrackTarget(client: nat)
    | Record(client: nat, inward: bool, count: nat)
    | Finish(client: nat, inward: bool)
    | Leave(client: nat)
    | CloseFlag
    | Sweep

  /** The counter has already been raised for the connection under admission. */
  function Admitting(acceptor: Acceptor): nat {
    if acceptor.Counted? || acceptor.Tracking? || acceptor.Uncounting? then 1 else 0
  }

  function AcceptorStep(s: State, event: Event): Option<State> {
    match (s.acceptor, event)
    case (Waiting, Accept(conn, limit)) =>
      if conn in s.used then None
      else Some(s.(acceptor := Counting(conn, limit), open := s.open + {conn}, used := s.used + {conn}))
    case (Waiting, Stop) => if s.closed then Some(s.(acceptor := Stopped)) else None
    case (Counting(conn, limit), Count) => Some(s.(active := s.active + 1, acceptor := Counted(conn, limit, s.active + 1)))
    case (Counted(conn, limit, seen), Admit) =>
      if limit > 0 && seen > limit then Some(s.(active := s.active - 1, acceptor := Rejected(conn)))
      else Some(s.(acceptor := Tracking(conn, limit)))
    case (Rejected(conn), Drop) => Some(s.(acceptor := Waiting, open := s.open - {conn}))
    case (Tracking(conn, limit), TrackClient) =>
      if s.closed then Some(s.(acceptor := Uncounting, open := s.open - {conn}))
      else Some(s.(acceptor := Waiting, tracked := s.tracked + {conn}, handlers := s.handlers[conn := Connecting]))
    case (Uncounting, Uncount) => Some(s.(active := s.active - 1, acceptor := Waiting))
    case _ => None
  }

  function Move(s: State, client: nat, phase: Phase): State {
    s.(handlers := s.handlers[client := phase])
  }

  /** The deferred calls of a handler that has finished its work. */
  function LeaveStep(s: State, client: nat): Option<State>
    requires client in s.handlers
  {
    match s.handlers[client]
    case Piping(target, session) =>
      if session < |s.sessions| && s.sessions[session].inDone && s.sessions[session].outDone
      then Some(Move(s, client, TargetClosing(target))) else None
    case TargetClosing(target) => Some(Move(s.(open := s.open - {target}), client, TargetUntracking(target)))
    case TargetUntracking(target) => Some(Move(s.(tracked := s.tracked - {target}), client, ClientClosing))
    case ClientClosing => Some(Move(s.(open := s.open - {client}), client, ClientUntracking))
    case ClientUntracking => Some(Move(s.(tracked := s.tracked - {client}), client, CountingOut))
    case CountingOut => Some(s.(active := s.active - 1, handlers := s.handlers - {client}))
    case _ => None
  }

  function Settled(session: Session, inward: bool): Session {
    if inward then session.(inDone := true) else session.(outDone := true)
  }

  function Recorded(session: Session, inward: bool, count: nat): Session {
    if inward then session.(bytesIn := session.bytesIn + count) else session.(bytesOut := session.bytesOut + count)
  }

  function Pending(session: Session, inward: bool): bool {
    if inward then !session.inDone else !session.outDone
  }

  predicate OfHandler(event: Event) {
    event.Dial? || event.TrackTarget? || event.Record? || event.Finish? || event.Leave?
  }

  function HandlerStep(s: State, event: Event): Option<State>
    requires OfHandler(event)
  {
    if event.client !in s.handlers then None
    else
      var client := event.client;
      match (s.handlers[client], event)
      case (Connecting, Dial(_, target, ok)) =>
        if !ok then Some(Move(s, client, ClientClosing))
        else if target in s.used then None
        else Some(Move(s.(open := s.open + {target}, used := s.used + {target}), client, Connected(target)))
      case (Connected(target), TrackTarget(_)) =>
        if s.closed then Some(Move(s.(open := s.open - {target}), client, ClientClosing))
        else Some(Move(s.(tracked := s.tracked + {target}, sessions := s.sessions + [Session(client, 0, 0, false, false)]),
                       client, Piping(target, |s.sessions|)))
      case (Piping(target, k), Record(_, inward, count)) =>
        if k < |s.sessions| && Pending(s.sessions[k], inward)
        then Some(s.(sessions := s.sessions[k := Recorded(s.sessions[k], inward, count)])) else None
      case (Piping(target, k), Finish(_, inward)) =>
        if k < |s.sessions| && Pending(s.sessions[k], inward)
        then Some(s.(sessions := s.sessions[k := Settled(s.sessions[k], inward)],
                     bytesIn := s.bytesIn + if inward then s.sessions[k].bytesIn else 0,
                     bytesOut := s.bytesOut + if inward then 0 else s.sessions[k].bytesOut))
        else None
      case (_, Leave(_)) => LeaveStep(s, client)
      case _ => None
  }

  function Step(s: State, event: Event): Option<State> {
    match event
    case CloseFlag => if s.closed then None else Some(s.(closed := true))
    case Sweep => if s.closed && !s.swept then Some(s.(swept := true, open := s.open - s.tracked)) else None
    case Dial(_, _, _) => HandlerStep(s, event)
    case TrackTarget(_) => HandlerStep(s, event)
    case Record(_, _, _) => HandlerStep(s, event)
    case Finish(_, _) => HandlerStep(s, event)
    case Leave(_) => HandlerStep(s, event)
    case _ => AcceptorStep(s, event)
  }

  /** What is carried one way counts for that session and that direction, byte for byte, and for nothing else. */
  lemma RecordCounts(s: State, client: nat, inward: bool, count: nat)
    requires Step(s, Record(client, inward, count)).Some?
    ensures var s' := Step(s, Record(client, inward, count)).value;
            && client in s.handlers && s.handlers[client].Piping? && s.handlers[client].session < |s.sessions| == |s'.sessions|
            && (var k := s.handlers[client].session; var before, after := s.sessions[k], s'.sessions[k];
                && after.bytesIn == before.bytesIn + (if inward then count else 0)
                && after.bytesOut == before.bytesOut + (if inward then 0 else count)
                && after.client == before.client && after.inDone == before.inDone && after.outDone == before.outDone
                && !(if inward then before.inDone else before.outDone)
                && forall j :: 0 <= j < |s.sessions| && j != k ==> s'.sessions[j] == s.sessions[j])
            && s'.bytesIn == s.bytesIn && s'.bytesOut == s.bytesOut && s'.handlers == s.handlers && s'.open == s.open
            && s'.tracked == s.tracked && s'.active == s.active
  {
  }

  /** When one way ends, once, its bytes go into the rule's total of that direction. */
  lemma FinishCounts(s: State, client: nat, inward: bool)
    requires Step(s, Finish(client, inward)).Some?
    ensures var s' := Step(s, Finish(client, inward)).value;
            && client in s.handlers && s.handlers[client].Piping? && s.handlers[client].session < |s.sessions| == |s'.sessions|
            && (var k := s.handlers[client].session; var before, after := s.sessions[k], s'.sessions[k];
                && after.bytesIn == before.bytesIn && after.bytesOut == before.bytesOut && after.client == before.client
                && !(if inward then before.inDone else before.outDone)
                && after.inDone == (before.inDone || inward) && after.outDone == (before.outDone || !inward)
                && s'.bytesIn == s.bytesIn + (if inward then before.bytesIn else 0)
                && s'.bytesOut == s.bytesOut + (if inward then 0 else before.bytesOut)
                && forall j :: 0 <= j < |s.sessions| && j != k ==> s'.sessions[j] == s.sessions[j])
  {
  }

  // ---------- The counter and the limit ----------

  ghost predicate CounterInv(s: State) {
    && s.active == |s.handlers| + Admitting(s.acceptor)
    && (s.acceptor.Counted? ==> |s.handlers| + 1 <= s.acceptor.seen)
    && (s.acceptor.Tracking? && s.acceptor.limit > 0 ==> |s.handlers| + 1 <= s.acceptor.limit)
    && (HasConn(s.acceptor) ==> s.acceptor.conn in s.used && s.acceptor.conn !in s.handlers)
    && s.handlers.Keys <= s.used
  }

  predicate HasConn(acceptor: Acceptor) {
    acceptor.Counting? || acceptor.Counted? || acceptor.Rejected? || acceptor.Tracking?
  }

  lemma HandlerCount(handlers: map<nat, Phase>, client: nat, phase: Phase)
    ensures |handlers[client := phase]| == |handlers| + if client in handlers then 0 else 1
    ensures client in handlers ==> |handlers - {client}| == |handlers| - 1
  {
    var changed, fewer := handlers[client := phase], handlers - {client};
    assert changed.Keys == handlers.Keys + {client} && fewer.Keys == handlers.Keys - {client};
    assert |changed| == |changed.Keys| && |fewer| == |fewer.Keys| && |handlers| == |handlers.Keys|;
  }

  lemma LastLeave(s: State, client: nat)
    requires client in s.handlers && s.handlers[client].CountingOut?
    ensures LeaveStep(s, client) == Some(s.(active := s.active - 1, handlers := s.handlers - {client}))
    ensures |s.handlers - {client}| == |s.handlers| - 1
  {
    HandlerCount(s.handlers, client, CountingOut);
  }

  lemma EarlierLeave(s: State, client: nat)
    requires client in s.handlers && !s.handlers[client].CountingOut? && LeaveStep(s, client).Some?
    ensures var s' := LeaveStep(s, client).value;
            s'.acceptor == s.acceptor && s'.active == s.active && s'.handlers.Keys == s.handlers.Keys && s'.used == s.used
  {
  }

  lemma LeaveCounts(s: State, client: nat)
    requires client in s.handlers && LeaveStep(s, client).Some?
    ensures var s' := LeaveStep(s, client).value;
            && s'.acceptor == s.acceptor && s'.active - |s'.handlers| == s.active - |s.handlers| && |s'.handlers| <= |s.handlers|
            && s'.handlers.Keys <= s.handlers.Keys && s.used == s'.used
  {
    hide LeaveStep;
    if s.handlers[client].CountingOut? {
      LastLeave(s, client);
    } else {
      EarlierLeave(s, client);
      var s' := LeaveStep(s, client).value;
      assert |s'.handlers| == |s'.handlers.Keys| && |s.handlers| == |s.handlers.Keys|;
    }
  }

  /** A handler's step keeps the number of handlers, except that the last one ends it and counts it out. */
  lemma HandlerStepCounts(s: State, event: Event)
    requires OfHandler(event)
    requires HandlerStep(s, event).Some?
    ensures var s' := HandlerStep(s, event).value;
            && s'.acceptor == s.acceptor && s'.active - |s'.handlers| == s.active - |s.handlers| && |s'.handlers| <= |s.handlers|
            && s'.handlers.Keys <= s.handlers.Keys && s.used <= s'.used
  {
    if event.Leave? {
      LeaveCounts(s, event.client);
    } else {
      HandlerStays(s, event);
      hide HandlerStep;
      HandlerCount(s.handlers, event.client, HandlerStep(s, event).value.handlers[event.client]);
    }
  }

  lemma HandlerStays(s: State, event: Event)
    requires OfHandler(event) && !event.Leave?
    requires HandlerStep(s, event).Some?
    ensures var s' := HandlerStep(s, event).value;
            && s'.acceptor == s.acceptor && s'.active == s.active && s.used <= s'.used && event.client in s.handlers
            && event.client in s'.handlers && s'.handlers == s.handlers[event.client := s'.handlers[event.client]]
  {
  }

  lemma CounterKept(s: State, event: Event)
    requires CounterInv(s) && Step(s, event).Some?
    ensures CounterInv(Step(s, event).value)
  {
    if OfHandler(event) {
      HandlerStepCounts(s, event);
    } else if event.TrackClient? {
      HandlerCount(s.handlers, s.acceptor.conn, Connecting);
    }
  }

  // ---------- Open connections ----------

  /** Opened, not closed and not yet in the `connections` map: held by the code that is about to put it there. */
  ghost predicate InHand(s: State, conn: nat) {
    || (HasConn(s.acceptor) && s.acceptor.conn == conn)
    || exists client :: client in s.handlers && s.handlers[client] == Connected(conn)
  }

  function Target(phase: Phase): set<nat> {
    match phase
    case Connected(target) => {target}
    case Piping(target, _) => {target}
    case TargetClosing(target) => {target}
    case TargetUntracking(target) => {target}
    case _ => {}
  }

  ghost predicate IdsUsed(s: State) {
    && s.tracked <= s.used && s.open <= s.used && s.handlers.Keys <= s.used
    && (forall client :: client in s.handlers ==> Target(s.handlers[client]) <= s.used)
    && (HasConn(s.acceptor) ==> s.acceptor.conn in s.used && s.acceptor.conn !in s.handlers)
  }

  ghost predicate OpenInv(s: State) {
    && IdsUsed(s)
    && (forall conn :: conn in s.open ==> conn in s.tracked || InHand(s, conn))
    && (forall client :: client in s.handlers ==>
          && (s.handlers[client].ClientUntracking? || s.handlers[client].CountingOut? ==> client !in s.open)
          && (s.handlers[client].TargetUntracking? ==> s.handlers[client].target !in s.open))
    && (s.swept ==> s.closed && s.tracked !! s.open)
  }

  lemma AcceptorKeepsOpen(s: State, event: Event)
    requires OpenInv(s) && AcceptorStep(s, event).Some?
    ensures OpenInv(AcceptorStep(s, event).value)
  {
    var s' := AcceptorStep(s, event).value;
    forall conn | conn in s'.open
      ensures conn in s'.tracked || InHand(s', conn)
    {
      if conn in s.open && !(HasConn(s.acceptor) && s.acceptor.conn == conn) && conn !in s.tracked {
        var client :| client in s.handlers && s.handlers[client] == Connected(conn);
        assert client in s'.handlers && s'.handlers[client] == Connected(conn);
      }
    }
  }

  lemma DialKeepsOpen(s: State, client: nat, target: nat)
    requires OpenInv(s) && client in s.handlers && s.handlers[client].Connecting? && target !in s.used
    ensures OpenInv(Move(s.(open := s.open + {target}, used := s.used + {target}), client, Connected(target)))
  {
    var s' := Move(s.(open := s.open + {target}, used := s.used + {target}), client, Connected(target));
    assert s'.handlers[client] == Connected(target);
    forall conn | conn in s.open && conn !in s.tracked
      ensures InHand(s', conn)
    {
      if !(HasConn(s.acceptor) && s.acceptor.conn == conn) {
        var holder :| holder in s.handlers && s.handlers[holder] == Connected(conn);
        assert s'.handlers[holder] == Connected(conn);
      }
    }
  }

  /** The handler leaves this phase: what it held in hand is closed or tracked by now. */
  lemma MoveKeepsOpen(s: State, client: nat, phase: Option<Phase>, s': State)
    requires OpenInv(s) && client in s.handlers && s'.used == s.used && s'.acceptor == s.acceptor
    requires s'.closed == s.closed && s'.swept == s.swept
    requires s'.open <= s.open && s'.tracked <= s.used && (s.swept ==> s'.tracked <= s.tracked)
    requires forall conn :: conn in s.tracked && conn !in s'.tracked ==> conn !in s'.open
    requires s.handlers[client].Connected? ==>
               s.handlers[client].target !in s'.open || s.handlers[client].target in s'.tracked
    requires s'.handlers == if phase.None? then s.handlers - {client} else s.handlers[client := phase.value]
    requires phase.Some? ==>
               && Target(phase.value) <= s.used
               && (phase.value.ClientUntracking? || phase.value.CountingOut? ==> client !in s'.open)
               && (phase.value.TargetUntracking? ==> phase.value.target !in s'.open)
    ensures OpenInv(s')
  {
    forall conn | conn in s'.open && conn !in s'.tracked
      ensures InHand(s', conn)
    {
      if !(HasConn(s.acceptor) && s.acceptor.conn == conn) {
        var holder :| holder in s.handlers && s.handlers[holder] == Connected(conn);
        assert s'.handlers[holder] == Connected(conn);
      }
    }
  }

  lemma HandlerKeepsOpen(s: State, event: Event)
    requires OfHandler(event)
    requires OpenInv(s) && HandlerStep(s, event).Some?
    ensures OpenInv(HandlerStep(s, event).value)
  {
    var s' := HandlerStep(s, event).value;
    if event.Dial? && event.ok {
      DialKeepsOpen(s, event.client, event.target);
    } else if event.Record? || event.Finish? {
      assert forall conn :: InHand(s, conn) ==> InHand(s', conn);
    } else {
      var phase := if event.client in s'.handlers then Some(s'.handlers[event.client]) else None;
      MoveKeepsOpen(s, event.client, phase, s');
    }
  }

  lemma OpenKept(s: State, event: Event)
    requires OpenInv(s) && Step(s, event).Some?
    ensures OpenInv(Step(s, event).value)
  {
    if OfHandler(event) {
      HandlerKeepsOpen(s, event);
    } else if event.Sweep? {
      assert forall conn :: InHand(s, conn) ==> InHand(Step(s, event).value, conn);
    } else if event.CloseFlag? {
      assert forall conn :: InHand(s, conn) ==> InHand(Step(s, event).value, conn);
    } else {
      AcceptorKeepsOpen(s, event);
    }
  }

  // ---------- The connections map ----------

  /** The running handler that will take this connection out of the map. */
  ghost predicate Owns(s: State, client: nat, conn: nat) {
    && client in s.handlers
    && match s.handlers[client]
       case Piping(target, _) => conn == client || conn == target
       case TargetClosing(target) => conn == client || conn == target
       case TargetUntracking(target) => conn == client || conn == target
       case CountingOut => false
       case _ => conn == client
  }

  ghost predicate MapInv(s: State) {
    forall conn :: conn in s.tracked ==> exists client :: Owns(s, client, conn)
  }

  lemma HandlerKeepsMap(s: State, event: Event)
    requires OfHandler(event) && MapInv(s) && HandlerStep(s, event).Some?
    ensures MapInv(HandlerStep(s, event).value)
  {
    var s' := HandlerStep(s, event).value;
    forall conn | conn in s'.tracked
      ensures exists client :: Owns(s', client, conn)
    {
      if conn in s.tracked {
        var client :| Owns(s, client, conn);
        assert Owns(s', client, conn);
      } else {
        assert Owns(s', event.client, conn);
      }
    }
  }

  lemma MapKept(s: State, event: Event)
    requires MapInv(s) && CounterInv(s) && Step(s, event).Some?
    ensures MapInv(Step(s, event).value)
  {
    var s' := Step(s, event).value;
    if OfHandler(event) {
      HandlerKeepsMap(s, event);
    } else {
      forall conn | conn in s'.tracked
        ensures exists client :: Owns(s', client, conn)
      {
        if conn in s.tracked {
          var client :| Owns(s, client, conn);
          assert Owns(s', client, conn);
        } else {
          assert Owns(s', conn, conn);
        }
      }
    }
  }

  // ---------- Byte totals ----------

  function Share(session: Session, inward: bool): nat {
    if inward then if session.inDone then session.bytesIn else 0
    else if session.outDone then session.bytesOut else 0
  }

  function Bytes(session: Session, inward: bool): nat {
    if inward then session.bytesIn else session.bytesOut
  }

  /** What the finished directions carried. */
  function Completed(sessions: seq<Session>, inward: bool): nat {
    if sessions == [] then 0
    else Completed(sessions[..|sessions| - 1], inward) + Share(sessions[|sessions| - 1], inward)
  }

  /** What all sessions carried. */
  function Carried(sessions: seq<Session>, inward: bool): nat {
    if sessions == [] then 0
    else Carried(sessions[..|sessions| - 1], inward) + Bytes(sessions[|sessions| - 1], inward)
  }

  ghost predicate TotalsInv(s: State) {
    && s.bytesIn == Completed(s.sessions, true) && s.bytesOut == Completed(s.sessions, false)
    && (forall k :: 0 <= k < |s.sessions| && !(s.sessions[k].inDone && s.sessions[k].outDone) ==> Carries(s, k))
  }

  /** A handler is still copying for this session. */
  ghost predicate Carries(s: State, k: nat)
    requires k < |s.sessions|
  {
    var client := s.sessions[k].client;
    client in s.handlers && s.handlers[client].Piping? && s.handlers[client].session == k
  }

  lemma {:induction false} CompletedUpdate(sessions: seq<Session>, k: nat, session: Session, inward: bool)
    requires k < |sessions|
    ensures Completed(sessions[k := session], inward)
         == Completed(sessions, inward) - Share(sessions[k], inward) + Share(session, inward)
  {
    var n := |sessions| - 1;
    if k < n {
      CompletedUpdate(sessions[..n], k, session, inward);
      assert sessions[k := session][..n] == sessions[..n][k := session];
    } else {
      assert sessions[k := session][..n] == sessions[..n];
    }
  }

  lemma {:induction false} CompletedIsCarried(sessions: seq<Session>, inward: bool)
    requires forall k :: 0 <= k < |sessions| ==> sessions[k].inDone && sessions[k].outDone
    ensures Completed(sessions, inward) == Carried(sessions, inward)
  {
    if sessions != [] {
      CompletedIsCarried(sessions[..|sessions| - 1], inward);
    }
  }

  lemma NewSessionCarriesNothing(sessions: seq<Session>, client: nat, inward: bool)
    ensures Completed(sessions + [Session(client, 0, 0, false, false)], inward) == Completed(sessions, inward)
  {
    assert (sessions + [Session(client, 0, 0, false, false)])[..|sessions|] == sessions;
  }

  lemma CopyKeepsTotals(s: State, event: Event)
    requires (event.Record? || event.Finish?) && TotalsInv(s) && HandlerStep(s, event).Some?
    ensures TotalsInv(HandlerStep(s, event).value)
  {
    var s' := HandlerStep(s, event).value;
    var k := s.handlers[event.client].session;
    CompletedUpdate(s.sessions, k, s'.sessions[k], true);
    CompletedUpdate(s.sessions, k, s'.sessions[k], false);
    assert forall i :: 0 <= i < |s.sessions| && Carries(s, i) ==> Carries(s', i);
  }

  lemma OpeningKeepsTotals(s: State, client: nat)
    requires TotalsInv(s) && HandlerStep(s, TrackTarget(client)).Some?
    ensures TotalsInv(HandlerStep(s, TrackTarget(client)).value)
  {
    var s' := HandlerStep(s, TrackTarget(client)).value;
    if s.closed {
      OthersKeepTotals(s, s');
    } else {
      NewSessionKeepsTotals(s, s', client);
    }
    hide TotalsInv;
  }

  lemma NewSessionKeepsTotals(s: State, s': State, client: nat)
    requires TotalsInv(s) && s'.sessions == s.sessions + [Session(client, 0, 0, false, false)]
    requires s'.bytesIn == s.bytesIn && s'.bytesOut == s.bytesOut
    requires client in s.handlers && !s.handlers[client].Piping?
    requires client in s'.handlers && s'.handlers[client].Piping? && s'.handlers[client].session == |s.sessions|
    requires s'.handlers == s.handlers[client := s'.handlers[client]]
    ensures TotalsInv(s')
  {
    hide Completed;
    NewSessionCarriesNothing(s.sessions, client, true);
    NewSessionCarriesNothing(s.sessions, client, false);
    assert forall i :: 0 <= i < |s.sessions| && Carries(s, i) ==> Carries(s', i);
  }

  /** No session changes; a handler stops copying only when both directions are finished. */
  lemma OthersKeepTotals(s: State, s': State)
    requires TotalsInv(s) && s'.sessions == s.sessions && s'.bytesIn == s.bytesIn && s'.bytesOut == s.bytesOut
    requires forall client :: client in s.handlers && s.handlers[client].Piping? ==>
               || (client in s'.handlers && s'.handlers[client] == s.handlers[client])
               || (var k := s.handlers[client].session; k < |s.sessions| && s.sessions[k].inDone && s.sessions[k].outDone)
    ensures TotalsInv(s')
  {
    forall k | 0 <= k < |s.sessions| && !(s.sessions[k].inDone && s.sessions[k].outDone)
      ensures Carries(s', k)
    {
      assert Carries(s, k);
    }
  }

  lemma DialKeepsTotals(s: State, event: Event)
    requires event.Dial? && TotalsInv(s) && HandlerStep(s, event).Some?
    ensures TotalsInv(HandlerStep(s, event).value)
  {
    var s' := HandlerStep(s, event).value;
    assert forall client :: client in s.handlers && s.handlers[client].Piping? ==> client in s'.handlers && s'.handlers[client] == s.handlers[client];
    hide TotalsInv, HandlerStep;
    OthersKeepTotals(s, s');
  }

  lemma LeaveKeepsTotals(s: State, client: nat)
    requires TotalsInv(s) && client in s.handlers && LeaveStep(s, client).Some?
    ensures TotalsInv(LeaveStep(s, client).value)
  {
    hide TotalsInv;
    OthersKeepTotals(s, LeaveStep(s, client).value);
  }

  lemma AcceptorKeepsTotals(s: State, event: Event)
    requires !OfHandler(event) && !event.CloseFlag? && !event.Sweep?
    requires TotalsInv(s) && CounterInv(s) && AcceptorStep(s, event).Some?
    ensures TotalsInv(AcceptorStep(s, event).value)
  {
    hide TotalsInv;
    OthersKeepTotals(s, AcceptorStep(s, event).value);
  }

  lemma TotalsKept(s: State, event: Event)
    requires TotalsInv(s) && CounterInv(s) && Step(s, event).Some?
    ensures TotalsInv(Step(s, event).value)
  {
    match event
    case Record(_, _, _) => CopyKeepsTotals(s, event);
    case Finish(_, _) => CopyKeepsTotals(s, event);
    case TrackTarget(client) => OpeningKeepsTotals(s, client);
    case Dial(_, _, _) => DialKeepsTotals(s, event);
    case Leave(client) => LeaveKeepsTotals(s, client);
    case CloseFlag => OthersKeepTotals(s, Step(s, event).value);
    case Sweep => OthersKeepTotals(s, Step(s, event).value);
    case _ => AcceptorKeepsTotals(s, event);
  }

  // ---------- Runs ----------

  ghost predicate Inv(s: State) {
    CounterInv(s) && OpenInv(s) && MapInv(s) && TotalsInv(s)
  }

  ghost predicate Steps(s: State, s': State) {
    exists event :: Step(s, event) == Some(s')
  }

  /** Any interleaving of the accept loop, the handlers and `close`. */
  ghost predicate IsRun(run: seq<State>) {
    && run != [] && run[0] == START
    && forall i {:trigger run[i]} :: 0 <= i < |run| - 1 ==> Steps(run[i], run[i + 1])
  }

  lemma InvKept(s: State, s': State)
    requires Inv(s) && Steps(s, s')
    ensures Inv(s')
  {
    var event :| Step(s, event) == Some(s');
    CounterKept(s, event);
    OpenKept(s, event);
    MapKept(s, event);
    TotalsKept(s, event);
  }

  lemma RunStep(run: seq<State>, i: nat)
    requires IsRun(run) && 0 < i < |run|
    ensures Steps(run[i - 1], run[i])
  {
    hide Steps;
    assert Steps(run[i - 1], run[i - 1 + 1]);
  }

  lemma StartIsGood()
    ensures Inv(START)
  {
  }

  lemma {:induction false} RunsKeepInv(run: seq<State>, i: nat)
    requires IsRun(run) && i < |run|
    ensures Inv(run[i])
  {
    hide Inv, Steps;
    if i == 0 {
      StartIsGood();
    } else {
      RunsKeepInv(run, i - 1);
      RunStep(run, i);
      InvKept(run[i - 1], run[i]);
    }
  }

  /** The unsigned counter is never lowered below zero: whoever lowers it had raised it. */
  lemma CounterNeverUnderflows(s: State, event: Event)
    requires Inv(s) && Step(s, event).Some?
    ensures Step(s, event).value.active >= 0 && s.active >= |s.handlers|
    ensures Step(s, event).value.active < s.active ==> s.active >= 1
  {
    CounterKept(s, event);
  }

  /** A client is served only within the limit loaded for it, whatever finished or was rejected meanwhile. */
  lemma AdmissionRespectsLimit(s: State)
    requires Inv(s) && Step(s, TrackClient).Some? && !s.closed && s.acceptor.limit > 0
    ensures |Step(s, TrackClient).value.handlers| <= s.acceptor.limit
  {
    HandlerCount(s.handlers, s.acceptor.conn, Connecting);
  }

  /** Once the sweep is done no connection in the map is open, and none is put there any more. */
  lemma {:induction false} SweptStaysClosed(run: seq<State>, i: nat, j: nat)
    requires IsRun(run) && i <= j < |run| && run[i].swept
    ensures run[j].swept && run[j].tracked <= run[i].tracked && run[j].tracked !! run[j].open
    ensures forall conn :: conn in run[j].open ==> InHand(run[j], conn)
    decreases j
  {
    hide *;
    if i < j {
      SweptStaysClosed(run, i, j - 1);
      RunsKeepInv(run, j - 1);
      RunStep(run, j);
      SweptIsClosed(run[j - 1]);
      NothingTrackedAfterSweep(run[j - 1], run[j]);
    }
    RunsKeepInv(run, j);
    SweptIsClosed(run[j]);
  }

  lemma SweptIsClosed(s: State)
    requires Inv(s) && s.swept
    ensures OpenInv(s) && s.tracked !! s.open && forall conn :: conn in s.open ==> InHand(s, conn)
  {
  }

  lemma NothingTrackedAfterSweep(s: State, s': State)
    requires OpenInv(s) && s.swept && Steps(s, s')
    ensures s'.swept && s'.tracked <= s.tracked
  {
    var event :| Step(s, event) == Some(s');
  }

  /** When every handler has ended and nothing is under admission, nothing is left over and every byte is counted. */
  lemma AtRest(s: State)
    requires Inv(s) && s.handlers == map[] && (s.acceptor.Waiting? || s.acceptor.Stopped?)
    ensures s.active == 0 && s.tracked == {} && s.open == {}
    ensures s.bytesIn == Carried(s.sessions, true) && s.bytesOut == Carried(s.sessions, false)
  {
    assert forall client, conn :: !Owns(s, client, conn);
    CompletedIsCarried(s.sessions, true);
    CompletedIsCarried(s.sessions, false);
  }

  /** A run with the events that make it. */
  ghost predicate IsTrace(run: seq<State>, events: seq<Event>) {
    && |run| == |events| + 1 && run[0] == START
    && forall i :: 0 <= i < |events| ==> Step(run[i], events[i]) == Some(run[i + 1])
  }

  /** The bytes the copying of all clients has reported in one direction. */
  ghost function Copied(events: seq<Event>, inward: bool): nat {
    if events == [] then 0
    else
      var last := events[|events| - 1];
      Copied(events[..|events| - 1], inward) + if last.Record? && last.inward == inward then last.count else 0
  }

  lemma {:induction false} CarriedUpdate(sessions: seq<Session>, k: nat, session: Session, inward: bool)
    requires k < |sessions|
    ensures Carried(sessions[k := session], inward) == Carried(sessions, inward) - Bytes(sessions[k], inward) + Bytes(session, inward)
  {
    var n := |sessions| - 1;
    if k < n {
      CarriedUpdate(sessions[..n], k, session, inward);
      assert sessions[k := session][..n] == sessions[..n][k := session];
    } else {
      assert sessions[k := session][..n] == sessions[..n];
    }
  }

  lemma NewSessionIsEmpty(sessions: seq<Session>, client: nat, inward: bool)
    ensures Carried(sessions + [Session(client, 0, 0, false, false)], inward) == Carried(sessions, inward)
  {
    assert (sessions + [Session(client, 0, 0, false, false)])[..|sessions|] == sessions;
  }

  lemma SessionsChange(s: State, event: Event)
    requires Step(s, event).Some?
    ensures var s' := Step(s, event).value;
            if event.Record? || event.Finish? then
              && event.client in s.handlers && s.handlers[event.client].Piping?
              && var k := s.handlers[event.client].session;
              k < |s.sessions| == |s'.sessions| && s'.sessions == s.sessions[k := s'.sessions[k]]
            else s'.sessions == s.sessions || s'.sessions == s.sessions + [Session(event.client, 0, 0, false, false)]
  {
    hide LeaveStep;
    if event.Leave? {
      LeaveKeepsSessions(s, event.client);
    }
  }

  lemma LeaveKeepsSessions(s: State, client: nat)
    requires client in s.handlers && LeaveStep(s, client).Some?
    ensures LeaveStep(s, client).value.sessions == s.sessions
  {
  }

  lemma CarriedStep(s: State, event: Event, inward: bool)
    requires Step(s, event).Some?
    ensures Carried(Step(s, event).value.sessions, inward)
         == Carried(s.sessions, inward) + if event.Record? && event.inward == inward then event.count else 0
  {
    SessionsChange(s, event);
    var s' := Step(s, event).value;
    if event.Record? {
      RecordCounts(s, event.client, event.inward, event.count);
    } else if event.Finish? {
      FinishCounts(s, event.client, event.inward);
    }
    hide Step, Carried;
    if event.Record? || event.Finish? {
      var k := s.handlers[event.client].session;
      CarriedUpdate(s.sessions, k, s'.sessions[k], inward);
    } else if s'.sessions != s.sessions {
      NewSessionIsEmpty(s.sessions, event.client, inward);
    }
  }

  lemma TraceStep(run: seq<State>, events: seq<Event>)
    requires IsTrace(run, events) && events != []
    ensures var n := |events|;
            && IsTrace(run[..n], events[..n - 1]) && run[..n][n - 1] == run[n - 1]
            && Step(run[n - 1], events[n - 1]) == Some(run[n])
  {
    hide Step;
  }

  /** Every byte a copy reported is in some session's count, and no other is. */
  lemma {:induction false} EveryByteIsInASession(run: seq<State>, events: seq<Event>, inward: bool)
    requires IsTrace(run, events)
    ensures Carried(run[|events|].sessions, inward) == Copied(events, inward)
    decreases |events|
  {
    hide Step;
    var n := |events|;
    if n > 0 {
      TraceStep(run, events);
      EveryByteIsInASession(run[..n], events[..n - 1], inward);
      CarriedStep(run[n - 1], events[n - 1], inward);
    } else {
      StartIsEmpty(run, events, inward);
    }
  }

  lemma StartIsEmpty(run: seq<State>, events: seq<Event>, inward: bool)
    requires IsTrace(run, events) && events == []
    ensures Carried(run[0].sessions, inward) == 0
  {
  }

  lemma TraceIsRun(run: seq<State>, events: seq<Event>)
    requires IsTrace(run, events)
    ensures IsRun(run)
  {
    hide Step;
    forall i {:trigger run[i]} | 0 <= i < |run| - 1
      ensures Steps(run[i], run[i + 1])
    {
      assert Step(run[i], events[i]) == Some(run[i + 1]);
    }
  }

  /** At rest the totals of a rule are exactly the bytes copied in its whole run, however its clients came and went. */
  lemma TotalsAreWhatWasCopied(run: seq<State>, events: seq<Event>)
    requires IsTrace(run, events)
    requires var s := run[|run| - 1]; s.handlers == map[] && (s.acceptor.Waiting? || s.acceptor.Stopped?)
    ensures run[|run| - 1].bytesIn == Copied(events, true) && run[|run| - 1].bytesOut == Copied(events, false)
  {
    TraceIsRun(run, events);
    RunsKeepInv(run, |run| - 1);
    AtRest(run[|run| - 1]);
    EveryByteIsInASession(run, events, true);
    EveryByteIsInASession(run, events, false);
    hide *;
  }

  // ---------- The accept loop and `close` ----------

  function Then(s: Option<State>, event: Event): Option<State> {
    if s.Some? then Step(s.value, event) else None
  }

  /** What the accept loop makes of one client when nothing else happens meanwhile. */
  function Admission(s: State, conn: nat, limit: nat): State {
    var seen := s.(used := s.used + {conn});
    if limit > 0 && s.active >= limit then seen.(open := s.open - {conn})
    else if s.closed then seen.(open := s.open - {conn})
    else seen.(open := s.open + {conn}, active := s.active + 1, tracked := s.tracked + {conn},
               handlers := s.handlers[conn := Connecting])
  }

  lemma AdmissionIsSteps(s: State, conn: nat, limit: nat)
    requires s.acceptor.Waiting? && conn !in s.used
    ensures var admitted := Then(Then(Step(s, Accept(conn, limit)), Count), Admit);
            Some(Admission(s, conn, limit)) ==
              if limit > 0 && s.active >= limit then Then(admitted, Drop)
              else if s.closed then Then(Then(admitted, TrackClient), Uncount)
              else Then(admitted, TrackClient)
  {
    assert s.open + {conn} - {conn} == s.open - {conn};
  }

  class TcpForwarder {
    var connections: set<nat>
    var active: int
    var closed: bool
    var open: set<nat>
    ghost var acceptor: Acceptor
    ghost var handlers: map<nat, Phase>
    ghost var used: set<nat>
    ghost var swept: bool
    ghost var sessions: seq<Session>
    ghost var bytesIn: nat
    ghost var bytesOut: nat

    ghost function Now(): State
      reads this
    {
      State(active, acceptor, handlers, connections, open, used, closed, swept, sessions, bytesIn, bytesOut)
    }

    constructor ()
      ensures Now() == START
    {
      connections, active, closed, open := {}, 0, false, {};
      acceptor, handlers, used, swept, sessions, bytesIn, bytesOut := Waiting, map[], {}, false, [], 0, 0;
    }

    /** One pass of the accept loop for a permitted client: serve it, or close it and count nothing. */
    method Accepted(conn: nat, limit: nat) returns (served: bool)
      requires acceptor.Waiting? && conn !in used
      modifies this
      ensures served <==> !closed && (limit == 0 || old(active) < limit)
      ensures if served then active == old(active) + 1 && open == old(open) + {conn}
              else active == old(active) && open == old(open) - {conn}
      ensures Now() == Admission(old(Now()), conn, limit)
    {
      open, used := open + {conn}, used + {conn};
      active := active + 1;
      if limit > 0 && active > limit {
        active := active - 1;
        open := open - {conn};
        assert open == old(open) - {conn};
        return false;
      }
      served := Track(conn);
      if !served {
        active := active - 1;
        assert open == old(open) - {conn};
        return false;
      }
      handlers := handlers[conn := Connecting];
    }

    /** Put a connection into the map, or close it if the forwarder is closed. */
    method Track(conn: nat) returns (ok: bool)
      modifies this`connections, this`open
      ensures ok <==> !closed
      ensures connections == if ok then old(connections) + {conn} else old(connections)
      ensures open == if ok then old(open) else old(open) - {conn}
    {
      if closed {
        open := open - {conn};
        return false;
      }
      connections := connections + {conn};
      return true;
    }

    /** Takes effect once: the flag first, then every connection in the map. */
    method Close()
      requires closed ==> swept
      modifies this
      ensures old(closed) ==> Now() == old(Now())
      ensures !old(closed) && !old(swept) ==> Then(Step(old(Now()), CloseFlag), Sweep) == Some(Now())
    {
      if closed {
        return;
      }
      closed := true;
      var todo := connections;
      while todo != {}
        invariant todo <= connections && open == old(open) - (connections - todo)
        invariant Now() == old(Now()).(closed := true, open := open)
        decreases todo
      {
        var conn :| conn in todo;
        open := open - {conn};
        todo := todo - {conn};
      }
      assert connections - todo == connections;
      swept := true;
    }
  }
}
