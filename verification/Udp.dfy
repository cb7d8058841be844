/**
 The sessions of a UDP forwarder. One reader inserts sessions, in two critical sections with an
 unlocked dial between them; every session can be closed by its own response loop, by the
 reader or by a sweep, at any time. Each step below is one critical section or one atomic store.
 */
module UdpSessions {
  import opened Domain

  datatype Setup = Setup(target: Endpoint, maxConnections: nat)

  /** Where the single reader is inside `sessionFor`. */
  datatype Reader = Idle | Received(key: string, setup: Setup) | Dialing(key: string, setup: Setup)

  /** `closeSessions`, called by `update` when the target changes and by `close` at the end. */
  datatype Sweeper = Resting | SnapshotDue(final: bool) | Sweeping(left: set<nat>, final: bool) | Done

  datatype UdpState = UdpState(setup: Setup, closed: bool, sessions: map<string, nat>, keys: map<nat, string>, active: int,
                     entered: set<nat>, finished: set<nat>, reader: Reader, sweeper: Sweeper)

  datatype Event =
    | Receive(key: string)
    | Lookup
    | DialFailed
    | Insert(id: nat)
    | EnterClose(id: nat)
    | FinishClose(id: nat)
    | Update(next: Setup)
    | CloseFlag
    | Snapshot
    | Swept(id: nat)
    | SweepEnds

  function Start(setup: Setup): UdpState {
    UdpState(setup, false, map[], map[], 0, {}, {}, Idle, Resting)
  }

  /** The first critical section of `sessionFor`. */
  function Looked(s: UdpState): UdpState
    requires s.reader.Received?
  {
    var key, setup := s.reader.key, s.reader.setup;
    if key in s.sessions || (setup.maxConnections > 0 && |s.sessions| >= setup.maxConnections) then s.(reader := Idle)
    else s.(reader := Dialing(key, setup))
  }

  /** The second one, after the dial. */
  function Inserted(s: UdpState, id: nat): UdpState
    requires s.reader.Dialing?
  {
    var key := s.reader.key;
    if s.closed || key in s.sessions then s.(reader := Idle)
    else s.(reader := Idle, sessions := s.sessions[key := id], keys := s.keys[id := key], active := s.active + 1)
  }

  /** The critical section of `udpSession.close`. */
  function Removed(s: UdpState, id: nat): UdpState
    requires id in s.keys
  {
    var key := s.keys[id];
    var done := s.(finished := s.finished + {id});
    if key in s.sessions && s.sessions[key] == id
    then done.(sessions := s.sessions - {key}, active := s.active - 1)
    else done
  }

  ghost function Step(s: UdpState, event: Event): Option<UdpState> {
    match event
    case Receive(key) =>
      if s.reader.Idle? then Some(s.(reader := Received(key, s.setup))) else None
    case Lookup =>
      if s.reader.Received? then Some(Looked(s)) else None
    case DialFailed =>
      if s.reader.Dialing? then Some(s.(reader := Idle)) else None
    case Insert(id) =>
      if s.reader.Dialing? && id !in s.keys then Some(Inserted(s, id)) else None
    case EnterClose(id) =>
      if id in s.keys && id !in s.entered then Some(s.(entered := s.entered + {id})) else None
    case FinishClose(id) =>
      if id in s.keys && id in s.entered && id !in s.finished then Some(Removed(s, id)) else None
    case Update(next) =>
      if !s.sweeper.Resting? then None
      else Some(s.(setup := next, sweeper := if s.setup.target != next.target then SnapshotDue(false) else Resting))
    case CloseFlag =>
      if s.sweeper.Resting? then Some(s.(closed := true, sweeper := SnapshotDue(true))) else None
    case Snapshot =>
      if s.sweeper.SnapshotDue? then Some(s.(sweeper := Sweeping(s.sessions.Values, s.sweeper.final))) else None
    case Swept(id) =>
      if s.sweeper.Sweeping? && id in s.finished
      then Some(s.(sweeper := Sweeping(s.sweeper.left - {id}, s.sweeper.final))) else None
    case SweepEnds =>
      if s.sweeper.Sweeping? && s.sweeper.left == {}
      then Some(s.(sweeper := if s.sweeper.final then Done else Resting)) else None
  }

  // ---------- What every interleaving keeps ----------

  /** The map holds exactly the sessions that were opened and not yet closed, each under its own key. */
  ghost predicate Exact(s: UdpState) {
    && (forall key :: key in s.sessions ==>
          s.sessions[key] in s.keys && s.keys[s.sessions[key]] == key && s.sessions[key] !in s.finished)
    && (forall id :: id in s.keys && id !in s.finished ==> s.keys[id] in s.sessions && s.sessions[s.keys[id]] == id)
  }

  ghost predicate WithinLimit(setup: Setup, count: nat) {
    setup.maxConnections > 0 ==> count <= setup.maxConnections
  }

  ghost predicate Closing(s: UdpState) {
    match s.sweeper
    case Resting => !s.closed
    case SnapshotDue(final) => final == s.closed
    case Sweeping(left, final) => final == s.closed && (final ==> s.sessions.Values <= left)
    case Done => s.closed && s.sessions == map[]
  }

  ghost predicate Inv(s: UdpState) {
    && Exact(s) && s.active == |s.sessions|
    && s.finished <= s.entered <= s.keys.Keys
    && (s.reader.Dialing? ==> WithinLimit(s.reader.setup, |s.sessions| + 1))
    && Closing(s)
  }

  lemma LessOne(sessions: map<string, nat>, key: string)
    requires key in sessions
    ensures |sessions - {key}| == |sessions| - 1
    ensures (sessions - {key}).Values <= sessions.Values
  {
    assert (sessions - {key}).Keys == sessions.Keys - {key};
    assert |(sessions - {key}).Keys| == |sessions - {key}| && |sessions.Keys| == |sessions|;
  }

  lemma OneMore(sessions: map<string, nat>, key: string, id: nat)
    requires key !in sessions
    ensures |sessions[key := id]| == |sessions| + 1
  {
    assert sessions[key := id].Keys == sessions.Keys + {key};
    assert |sessions[key := id].Keys| == |sessions[key := id]| && |sessions.Keys| == |sessions|;
  }

  lemma InsertKeepsInv(s: UdpState, id: nat)
    requires Inv(s) && s.reader.Dialing? && id !in s.keys
    ensures Inv(Inserted(s, id))
  {
    var s' := Inserted(s, id);
    if !s.closed && s.reader.key !in s.sessions {
      OneMore(s.sessions, s.reader.key, id);
      assert Exact(s');
    }
  }

  lemma FinishKeepsInv(s: UdpState, id: nat)
    requires Inv(s) && id in s.keys && id in s.entered && id !in s.finished
    ensures Inv(Removed(s, id))
  {
    var s' := Removed(s, id);
    LessOne(s.sessions, s.keys[id]);
    assert Exact(s');
  }

  lemma StepKeepsInv(s: UdpState, event: Event)
    requires Inv(s) && Step(s, event).Some?
    ensures Inv(Step(s, event).value)
  {
    hide Exact;
    match event
    case Insert(id) => InsertKeepsInv(s, id);
    case FinishClose(id) => FinishKeepsInv(s, id);
    case Swept(id) => SweepKeepsInv(s, id);
    case _ => QuietKeepsInv(s, Step(s, event).value);
  }

  /** Nothing happens to the sessions: only the reader's or the sweeper's own promise must hold. */
  lemma QuietKeepsInv(s: UdpState, s': UdpState)
    requires Inv(s) && s'.sessions == s.sessions && s'.keys == s.keys && s'.active == s.active && s'.finished == s.finished
    requires s.entered <= s'.entered <= s.keys.Keys && Closing(s')
    requires s'.reader.Dialing? ==> WithinLimit(s'.reader.setup, |s'.sessions| + 1)
    ensures Inv(s')
  {
  }

  /** A finished session is no longer in the map, so the sweep need not look at it again. */
  lemma SweepKeepsInv(s: UdpState, id: nat)
    requires Inv(s) && s.sweeper.Sweeping? && id in s.finished
    ensures Inv(s.(sweeper := Sweeping(s.sweeper.left - {id}, s.sweeper.final)))
  {
    assert id !in s.sessions.Values;
  }

  // ---------- Runs ----------

  ghost predicate Steps(s: UdpState, s': UdpState) {
    exists event :: Step(s, event) == Some(s')
  }

  /** Any interleaving from a new forwarder on. */
  ghost predicate IsRun(run: seq<UdpState>) {
    && run != [] && run[0] == Start(run[0].setup)
    && forall i {:trigger run[i]} :: 0 <= i < |run| - 1 ==> Steps(run[i], run[i + 1])
  }

  lemma RunStep(run: seq<UdpState>, i: nat)
    requires IsRun(run) && 0 < i < |run|
    ensures Steps(run[i - 1], run[i])
  {
    hide Steps;
    assert Steps(run[i - 1], run[i - 1 + 1]);
  }

  lemma InvKept(s: UdpState, s': UdpState)
    requires Inv(s) && Steps(s, s')
    ensures Inv(s')
  {
    var event :| Step(s, event) == Some(s');
    hide Inv;
    StepKeepsInv(s, event);
  }

  lemma StartIsGood(setup: Setup)
    ensures Inv(Start(setup))
  {
  }

  lemma {:induction false} RunsKeepInv(run: seq<UdpState>, i: nat)
    requires IsRun(run) && i < |run|
    ensures Inv(run[i])
  {
    hide Inv, Steps, Start;
    if i == 0 {
      StartIsGood(run[0].setup);
    } else {
      RunsKeepInv(run, i - 1);
      RunStep(run, i);
      InvKept(run[i - 1], run[i]);
    }
  }

  /** The counter, the map and the open sessions agree, in every reachable state. */
  lemma ActiveCountsOpenSessions(s: UdpState)
    requires Inv(s)
    ensures s.active == |s.sessions| == |s.keys.Keys - s.finished| >= 0
  {
    CountBySession(s.sessions, s.keys, s.keys.Keys - s.finished);
  }

  /** Keys and open sessions correspond one to one, so there are as many of each. */
  lemma {:induction false} CountBySession(sessions: map<string, nat>, keys: map<nat, string>, live: set<nat>)
    requires forall key :: key in sessions ==> sessions[key] in live && sessions[key] in keys && keys[sessions[key]] == key
    requires forall id :: id in live ==> id in keys && keys[id] in sessions && sessions[keys[id]] == id
    ensures |sessions| == |live|
    decreases live
  {
    if live == {} {
      assert sessions == map[];
    } else {
      var id :| id in live;
      LessOne(sessions, keys[id]);
      CountBySession(sessions - {keys[id]}, keys, live - {id});
    }
  }

  /**
   The limit is checked before the dial and not again after it. Since only the reader inserts,
   the count is still within the limit it loaded when the session goes in.
   */
  lemma InsertionRespectsLimit(s: UdpState, id: nat)
    requires Inv(s) && Step(s, Insert(id)).Some?
    ensures WithinLimit(s.reader.setup, |Inserted(s, id).sessions|)
  {
    if !s.closed && s.reader.key !in s.sessions {
      OneMore(s.sessions, s.reader.key, id);
    }
  }

  /** Closing a session takes exactly that session out, whatever was opened for the client since. */
  lemma CloseRemovesOnlyItself(s: UdpState, id: nat)
    requires Inv(s) && Step(s, FinishClose(id)).Some?
    ensures Removed(s, id).sessions.Values == s.sessions.Values - {id} && id in s.sessions.Values
    ensures Removed(s, id).active == s.active - 1
  {
    var s' := Removed(s, id);
    assert s.sessions[s.keys[id]] == id;
    forall other | other in s.sessions.Values && other != id
      ensures other in s'.sessions.Values
    {
      assert s'.sessions[s.keys[other]] == other;
    }
  }

  lemma StaysDone(s: UdpState, event: Event)
    requires Inv(s) && s.sweeper.Done? && Step(s, event).Some?
    ensures Step(s, event).value.sweeper.Done? && Step(s, event).value.keys == s.keys
  {
  }

  /** Once `close` has swept, no session is open, every one ever opened is closed, and none is opened again. */
  lemma {:induction false} NothingAfterClose(run: seq<UdpState>, i: nat, j: nat)
    requires IsRun(run) && i <= j < |run| && run[i].sweeper.Done?
    ensures run[j].sweeper.Done? && run[j].sessions == map[] && run[j].active == 0
    ensures run[j].finished == run[j].keys.Keys == run[i].keys.Keys
    decreases j
  {
    hide *;
    RunsKeepInv(run, j);
    if i < j {
      NothingAfterClose(run, i, j - 1);
      RunStep(run, j);
      RunsKeepInv(run, j - 1);
      DoneStaysDone(run[j - 1], run[j]);
    }
    DoneIsEmpty(run[j]);
  }

  lemma DoneStaysDone(s: UdpState, s': UdpState)
    requires Inv(s) && s.sweeper.Done? && Steps(s, s')
    ensures s'.sweeper.Done? && s'.keys == s.keys
  {
    var event :| Step(s, event) == Some(s');
    StaysDone(s, event);
  }

  lemma DoneIsEmpty(s: UdpState)
    requires Inv(s) && s.sweeper.Done?
    ensures s.sessions == map[] && s.active == 0 && s.finished == s.keys.Keys
  {
  }

  lemma MapWithinKeys(s: UdpState)
    requires Inv(s)
    ensures s.sessions.Values <= s.keys.Keys && s.active == |s.sessions|
  {
  }

  // ---------- The critical sections ----------

  datatype Answer = Session(id: nat) | Refused | Dial

  class UdpForwarder {
    var setup: Setup
    var closed: bool
    var sessions: map<string, nat>
    var keys: map<nat, string>
    var active: int
    var entered: set<nat>
    var finished: set<nat>
    ghost var reader: Reader
    ghost var sweeper: Sweeper

    ghost function State(): UdpState
      reads this
    {
      UdpState(setup, closed, sessions, keys, active, entered, finished, reader, sweeper)
    }

    constructor (setup: Setup)
      ensures State() == Start(setup)
    {
      this.setup, closed, sessions, keys, active := setup, false, map[], map[], 0;
      entered, finished, reader, sweeper := {}, {}, Idle, Resting;
    }

    /** `sessionFor` up to the dial. */
    method Find(key: string, loaded: Setup) returns (answer: Answer)
      requires reader == Received(key, loaded)
      modifies this`reader
      ensures Step(old(State()), Lookup) == Some(State())
      ensures answer.Session? <==> key in sessions
      ensures answer.Session? ==> answer.id == sessions[key]
      ensures answer.Dial? <==> reader.Dialing?
      ensures answer.Dial? <==> key !in sessions && (loaded.maxConnections == 0 || |sessions| < loaded.maxConnections)
    {
      if key in sessions {
        reader := Idle;
        return Session(sessions[key]);
      }
      if loaded.maxConnections > 0 && |sessions| >= loaded.maxConnections {
        reader := Idle;
        return Refused;
      }
      reader := Dialing(key, loaded);
      return Dial;
    }

    /** `sessionFor` after the dial: another session may have been closed, or the forwarder itself. */
    method Add(key: string, ghost loaded: Setup, id: nat) returns (answer: Answer)
      requires reader == Dialing(key, loaded) && id !in keys
      modifies this
      ensures Step(old(State()), Insert(id)) == Some(State())
      ensures answer.Refused? <==> closed
      ensures answer.Session? ==> key in sessions && answer.id == sessions[key]
      ensures !answer.Dial?
      ensures !closed && old(key !in sessions) ==> sessions == old(sessions)[key := id] && active == old(active) + 1
      ensures closed || old(key in sessions) ==> sessions == old(sessions) && active == old(active)
    {
      reader := Idle;
      if closed {
        return Refused;
      }
      if key in sessions {
        return Session(sessions[key]);
      }
      sessions, keys, active := sessions[key := id], keys[id := key], active + 1;
      return Session(id);
    }

    /** `udpSession.close`: only the first caller does anything. */
    method CloseSession(id: nat)
      requires id in keys && (id in entered <==> id in finished)
      modifies this
      ensures if id in old(entered) then State() == old(State())
              else Step(old(State()), EnterClose(id)).Some?
                   && Step(Step(old(State()), EnterClose(id)).value, FinishClose(id)) == Some(State())
    {
      if id in entered {
        return;
      }
      entered := entered + {id};
      finished := finished + {id};
      var key := keys[id];
      if key in sessions && sessions[key] == id {
        sessions, active := sessions - {key}, active - 1;
      }
    }

    /** `closeSessions` when nothing else runs: every session goes, and no other one is touched. */
    method CloseSessions()
      requires Inv(State()) && entered == finished
      modifies this
      ensures Inv(State()) && entered == finished && sessions == map[] && active == 0
      ensures finished == old(finished) + old(sessions).Values && keys == old(keys)
      ensures closed == old(closed) && setup == old(setup) && reader == old(reader) && sweeper == old(sweeper)
    {
      var left := sessions.Values;
      ghost var snapshot := left;
      MapWithinKeys(State());
      assert sessions.Values <= keys.Keys && active == |sessions|;
      hide *;
      while left != {}
        invariant Inv(State()) && entered == finished && keys == old(keys) && active == |sessions|
        invariant sessions.Values <= left <= keys.Keys && left <= snapshot
        invariant old(finished) <= finished <= old(finished) + snapshot && snapshot <= finished + left
        invariant closed == old(closed) && setup == old(setup) && reader == old(reader) && sweeper == old(sweeper)
        decreases left
      {
        var id :| id in left;
        CloseOne(id);
        left := left - {id};
      }
    }

    method CloseOne(id: nat)
      requires Inv(State()) && entered == finished && id in keys
      modifies this
      ensures Inv(State()) && entered == finished && keys == old(keys) && active == |sessions|
      ensures finished == old(finished) + {id} && sessions.Values <= old(sessions).Values - {id}
      ensures closed == old(closed) && setup == old(setup) && reader == old(reader) && sweeper == old(sweeper)
    {
      ghost var before := State();
      CloseSession(id);
      if id !in before.entered {
        StepKeepsInv(before, EnterClose(id));
        FinishKeepsInv(Step(before, EnterClose(id)).value, id);
      }
    }
  }
}
