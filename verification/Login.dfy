/**
 The login failure limit of one key (client and user name). A failure opens a window of fifteen
 minutes, a full window refuses further attempts, and a success forgets the window. The check and
 the outcome of an attempt are separate critical sections, so attempts can overlap.
 */
module LoginLimit {
  import opened Domain

  const LIMIT := 5
  const WINDOW: real := 900.0

  datatype Attempt = Attempt(count: nat, windowStart: real)

  // ---------- One key ----------

  /**
   The critical sections of attempts at one key. An attempt that passes its check fails, succeeds,
   or leaves without a decision: the second factor is missing, or an internal error came up.
   */
  datatype Event = Check(at: real) | Fail(at: real) | Succeed(at: real) | Leave(at: real)

  /** The entry, and how many attempts have passed the check and are still open. */
  datatype KeyState = KeyState(entry: Option<Attempt>, pending: nat)

  const UNTOUCHED := KeyState(None, 0)

  /** The entry after the check: one whose window is over is forgotten. */
  function Checked(entry: Option<Attempt>, now: real): Option<Attempt> {
    match entry
    case None => None
    case Some(a) => if now - a.windowStart >= WINDOW then None else entry
  }

  function Count(entry: Option<Attempt>): nat {
    if entry.Some? then entry.value.count else 0
  }

  predicate Refused(entry: Option<Attempt>, now: real) {
    Count(Checked(entry, now)) >= LIMIT
  }

  /** A failure goes into the current window, or opens one. */
  function Failed(entry: Option<Attempt>, now: real): Option<Attempt> {
    match Checked(entry, now)
    case None => Some(Attempt(1, now))
    case Some(a) => Some(Attempt(a.count + 1, a.windowStart))
  }

  function Step(s: KeyState, event: Event): KeyState {
    var fewer := if s.pending > 0 then s.pending - 1 else 0;
    match event
    case Check(at) => KeyState(Checked(s.entry, at), if Refused(s.entry, at) then s.pending else s.pending + 1)
    case Fail(at) => KeyState(Failed(s.entry, at), fewer)
    case Succeed(_) => KeyState(None, fewer)
    case Leave(_) => KeyState(s.entry, fewer)
  }

  function After(run: seq<Event>): KeyState {
    if run == [] then UNTOUCHED else Step(After(run[..|run| - 1]), run[|run| - 1])
  }

  /** The clock does not run backwards, only open attempts end, and at most `m` are open at once. */
  ghost predicate IsRun(run: seq<Event>, m: nat) {
    run == [] ||
    var before, last := run[..|run| - 1], run[|run| - 1];
    && IsRun(before, m) && (before != [] ==> before[|before| - 1].at <= last.at)
    && (last.Check? || After(before).pending > 0) && After(run).pending <= m
  }

  /** The failures of a run from its i-th event on; no failure is forgotten here, whatever follows it. */
  ghost function Failures(run: seq<Event>, i: nat): nat {
    if |run| <= i then 0 else Failures(run[..|run| - 1], i) + if run[|run| - 1].Fail? then 1 else 0
  }

  ghost function Successes(run: seq<Event>, i: nat): nat {
    if |run| <= i then 0 else Successes(run[..|run| - 1], i) + if run[|run| - 1].Succeed? then 1 else 0
  }

  /** From the i-th event on, less than fifteen minutes have passed. */
  ghost predicate Short(run: seq<Event>, i: nat) {
    i < |run| && run[|run| - 1].at < run[i].at + WINDOW
  }

  // ---------- The bound ----------

  /** The most failures one window can take. */
  function PerWindow(m: nat): nat {
    LIMIT - 1 + m
  }

  /** The most failures of fifteen minutes with `s` successes, with at most `m` attempts open at once. */
  function Most(s: nat, m: nat): int {
    s * (PerWindow(m) - 1) + 2 * PerWindow(m) - 1
  }

  /** Open attempts are paid for in advance: a window never takes more than its failures and the open attempts. */
  lemma {:induction false} WindowIsLimited(run: seq<Event>, m: nat)
    requires IsRun(run, m)
    ensures Count(After(run).entry) + After(run).pending <= PerWindow(m)
    ensures After(run).entry.Some? ==> Count(After(run).entry) > 0
  {
    if run != [] {
      WindowIsLimited(run[..|run| - 1], m);
    }
  }

  /**
   Either the stretch has seen one window only, whose first failure came earlier; or every success
   cost a window one failure, and the current window began in the stretch.
   */
  ghost predicate Bounded(s: KeyState, from: real, failures: nat, successes: nat, m: nat) {
    || (successes == 0 && s.entry.Some? && failures <= s.entry.value.count - 1)
    || (&& failures <= successes * (PerWindow(m) - 1) + PerWindow(m) - 1 + Count(s.entry)
        && (s.entry.Some? ==> from <= s.entry.value.windowStart))
  }

  lemma BoundedStep(s: KeyState, event: Event, from: real, failures: nat, successes: nat, m: nat)
    requires m > 0 && Bounded(s, from, failures, successes, m) && from <= event.at < from + WINDOW
    requires Count(s.entry) + s.pending <= PerWindow(m) && (event.Check? || s.pending > 0)
    ensures Bounded(Step(s, event), from, failures + if event.Fail? then 1 else 0,
                    successes + if event.Succeed? then 1 else 0, m)
  {
    var per := PerWindow(m) - 1;
    assert (successes + 1) * per == successes * per + per;
    assert 0 <= successes * per;
  }

  lemma {:induction false} StretchIsBounded(run: seq<Event>, i: nat, m: nat)
    requires m > 0 && IsRun(run, m) && Short(run, i)
    ensures Bounded(After(run), run[i].at, Failures(run, i), Successes(run, i), m)
    ensures run[i].at <= run[|run| - 1].at
  {
    var before, last := run[..|run| - 1], run[|run| - 1];
    WindowIsLimited(before, m);
    if i < |before| {
      StretchIsBounded(before, i, m);
    }
    var s := After(before);
    BoundedStep(s, last, run[i].at, Failures(before, i), Successes(before, i), m);
  }

  /**
   The main result. Whatever the attempts do, no stretch of a run shorter than fifteen minutes, from
   any event to any other, holds more failures than its successes and the overlap account for.
   */
  lemma FailuresAreBounded(run: seq<Event>, i: nat, m: nat)
    requires m > 0 && IsRun(run, m) && Short(run, i)
    ensures Failures(run, i) <= Most(Successes(run, i), m)
  {
    StretchIsBounded(run, i, m);
    WindowIsLimited(run, m);
    assert 0 <= Successes(run, i) * (PerWindow(m) - 1);
  }

  /** With attempts one after the other and no success among the failures: nine. */
  lemma AtMostNine(run: seq<Event>, i: nat)
    requires IsRun(run, 1) && Short(run, i) && Successes(run, i) == 0
    ensures Failures(run, i) <= 9
  {
    FailuresAreBounded(run, i, 1);
  }

  // ---------- Nobody is refused for less ----------

  /** The window was opened by a failure, and has counted every failure since; there was no success since. */
  lemma {:induction false} WindowCountsItsFailures(run: seq<Event>, m: nat) returns (first: nat)
    requires IsRun(run, m) && After(run).entry.Some?
    ensures first < |run| && run[first].Fail? && run[first].at == After(run).entry.value.windowStart <= run[|run| - 1].at
    ensures Failures(run, first) == After(run).entry.value.count && Successes(run, first) == 0
  {
    var n := |run| - 1;
    var before, last := run[..n], run[n];
    var s := After(before);
    if s.entry.Some? && After(run).entry.value.windowStart == s.entry.value.windowStart
       && (last.Fail? ==> last.at - s.entry.value.windowStart < WINDOW) {
      first := WindowCountsItsFailures(before, m);
    } else {
      first := n;
      assert Failures(before, n) == 0 && Successes(before, n) == 0;
    }
  }

  /**
   An attempt is refused only within fifteen minutes of a failure from which on, itself included,
   there were five failures and no success.
   */
  lemma RefusedMeansFive(run: seq<Event>, at: real, m: nat) returns (first: nat)
    requires IsRun(run, m) && run != [] && run[|run| - 1].at <= at && Refused(After(run).entry, at)
    ensures first < |run| && run[first].Fail? && run[first].at <= at < run[first].at + 900.0
    ensures Failures(run, first) >= 5 && Successes(run, first) == 0
  {
    first := WindowCountsItsFailures(run, m);
  }

  // ---------- Any fifteen minutes on the clock ----------

  ghost function FailuresIn(run: seq<Event>, from: real): nat {
    if run == [] then 0
    else
      var last := run[|run| - 1];
      FailuresIn(run[..|run| - 1], from) + if last.Fail? && from <= last.at < from + WINDOW then 1 else 0
  }

  ghost function SuccessesIn(run: seq<Event>, from: real): nat {
    if run == [] then 0
    else
      var last := run[|run| - 1];
      SuccessesIn(run[..|run| - 1], from) + if last.Succeed? && from <= last.at < from + WINDOW then 1 else 0
  }

  /** Up to the interval's end, the interval is a stretch of the run. */
  lemma {:induction false} IntervalIsStretch(run: seq<Event>, from: real, m: nat) returns (i: nat)
    requires IsRun(run, m) && (run != [] ==> run[|run| - 1].at < from + WINDOW)
    ensures i <= |run| && (i < |run| ==> from <= run[i].at)
    ensures i == |run| ==> run == [] || run[|run| - 1].at < from
    ensures FailuresIn(run, from) == Failures(run, i) && SuccessesIn(run, from) == Successes(run, i)
  {
    if run == [] {
      return 0;
    }
    var before, last := run[..|run| - 1], run[|run| - 1];
    i := IntervalIsStretch(before, from, m);
    if last.at < from {
      i := |run|;
      NothingBefore(run, from, m);
    }
  }

  lemma {:induction false} NothingBefore(run: seq<Event>, from: real, m: nat)
    requires IsRun(run, m) && (run != [] ==> run[|run| - 1].at < from)
    ensures FailuresIn(run, from) == 0 && SuccessesIn(run, from) == 0
  {
    if run != [] {
      NothingBefore(run[..|run| - 1], from, m);
    }
  }

  /** The same bound for the fifteen minutes that begin at any time, over the whole run. */
  lemma {:induction false} AnyFifteenMinutes(run: seq<Event>, from: real, m: nat)
    requires m > 0 && IsRun(run, m)
    ensures FailuresIn(run, from) <= Most(SuccessesIn(run, from), m)
  {
    if run == [] {
      assert 0 * (PerWindow(m) - 1) == 0;
    } else if run[|run| - 1].at >= from + WINDOW {
      AnyFifteenMinutes(run[..|run| - 1], from, m);
    } else {
      var i := IntervalIsStretch(run, from, m);
      if i < |run| {
        FailuresAreBounded(run, i, m);
      } else {
        assert 0 * (PerWindow(m) - 1) == 0;
      }
    }
  }

  // ---------- The bound is reached ----------

  /** A run so far: where its window stands, what is open, and what its stretch from the i-th event on holds. */
  datatype Progress = Progress(run: seq<Event>, i: nat, m: nat, count: nat, start: real, pending: nat,
                               failures: nat, successes: nat) {
    ghost predicate Holds(at: real) {
      && IsRun(run, m) && run != [] && i <= |run| && run[|run| - 1].at <= at
      && After(run) == KeyState(if count == 0 then None else Some(Attempt(count, start)), pending)
      && failures == Failures(run, i) && successes == Successes(run, i)
    }
  }

  lemma Adds(run: seq<Event>, event: Event, i: nat)
    requires i <= |run|
    ensures After(run + [event]) == Step(After(run), event)
    ensures Failures(run + [event], i) == Failures(run, i) + if event.Fail? then 1 else 0
    ensures Successes(run + [event], i) == Successes(run, i) + if event.Succeed? then 1 else 0
    ensures forall m ::
              && IsRun(run, m) && (run != [] ==> run[|run| - 1].at <= event.at)
              && (event.Check? || After(run).pending > 0) && Step(After(run), event).pending <= m
              ==> IsRun(run + [event], m)
  {
    assert (run + [event])[..|run|] == run;
  }

  /** An attempt passes its check. */
  lemma Admitted(p: Progress, at: real) returns (q: Progress)
    requires p.Holds(at) && p.count < LIMIT && p.pending < p.m && (p.count > 0 ==> at < p.start + WINDOW)
    ensures q.Holds(at) && q == p.(run := p.run + [Check(at)], pending := p.pending + 1)
  {
    Adds(p.run, Check(at), p.i);
    q := p.(run := p.run + [Check(at)], pending := p.pending + 1);
  }

  /** An open attempt fails in the current window, or opens one. */
  lemma FailsNow(p: Progress, at: real) returns (q: Progress)
    requires p.Holds(at) && p.pending > 0 && (if p.count > 0 then at < p.start + WINDOW else p.start == at)
    ensures q.Holds(at) && q == p.(run := q.run, count := p.count + 1, pending := p.pending - 1, failures := p.failures + 1)
    ensures p.run < q.run
  {
    Adds(p.run, Fail(at), p.i);
    q := p.(run := p.run + [Fail(at)], count := p.count + 1, pending := p.pending - 1, failures := p.failures + 1);
  }

  /** Attempts one after the other fail until the window has `count` failures, one short of full at most. */
  lemma {:induction false} FailInTurn(p: Progress, at: real, k: nat) returns (q: Progress)
    requires p.Holds(at) && p.pending == 0 && p.m > 0 && p.count + k < LIMIT
    requires if p.count > 0 then at < p.start + WINDOW else p.start == at
    ensures q.Holds(at) && q == p.(run := q.run, count := p.count + k, failures := p.failures + k) && p.run <= q.run
    decreases k
  {
    hide IsRun, After, Failures, Successes;
    q := p;
    if k > 0 {
      q := Admitted(p, at);
      q := FailsNow(q, at);
      q := FailInTurn(q, at, k - 1);
    }
  }

  /** Several attempts pass their checks before any of them ends. */
  lemma {:induction false} AdmitTogether(p: Progress, at: real, k: nat) returns (q: Progress)
    requires p.Holds(at) && p.pending + k <= p.m && p.count < LIMIT && (p.count > 0 ==> at < p.start + WINDOW)
    ensures q.Holds(at) && q == p.(run := q.run, pending := p.pending + k) && p.run <= q.run
    decreases k
  {
    q := p;
    if k > 0 {
      q := Admitted(p, at);
      q := AdmitTogether(q, at, k - 1);
    }
  }

  /** The open attempts fail, whatever the count is by now. */
  lemma {:induction false} FailTogether(p: Progress, at: real, k: nat) returns (q: Progress)
    requires p.Holds(at) && k <= p.pending && (if p.count > 0 then at < p.start + WINDOW else p.start == at)
    ensures q.Holds(at) && p.run <= q.run
    ensures q == p.(run := q.run, count := p.count + k, pending := p.pending - k, failures := p.failures + k)
    decreases k
  {
    q := p;
    if k > 0 {
      q := FailsNow(p, at);
      q := FailTogether(q, at, k - 1);
    }
  }

  /** The window takes all it can: one short of the limit in turn, and then as many as can be open at once. */
  lemma FillWindow(p: Progress, at: real) returns (q: Progress)
    requires p.Holds(at) && p.pending == 0 && p.m > 0 && p.count < LIMIT
    requires if p.count > 0 then at < p.start + WINDOW else p.start == at
    ensures q.Holds(at) && p.run <= q.run
    ensures q == p.(run := q.run, count := PerWindow(p.m), failures := p.failures + PerWindow(p.m) - p.count)
  {
    hide IsRun, After, Failures, Successes;
    q := FailInTurn(p, at, LIMIT - 1 - p.count);
    q := AdmitTogether(q, at, q.m);
    q := FailTogether(q, at, q.m);
  }

  /** An open attempt succeeds, and the window is forgotten. */
  lemma SucceedsNow(p: Progress, at: real) returns (q: Progress)
    requires p.Holds(at) && p.pending > 0
    ensures q.Holds(at) && p.run <= q.run
    ensures q == p.(run := q.run, count := 0, pending := p.pending - 1, successes := p.successes + 1)
  {
    Adds(p.run, Succeed(at), p.i);
    q := p.(run := p.run + [Succeed(at)], count := 0, pending := p.pending - 1, successes := p.successes + 1);
  }

  /** A window that is filled but for one failure, and then forgotten by a success. */
  lemma FillAndForget(p: Progress, at: real) returns (q: Progress)
    requires p.Holds(at) && p.pending == 0 && p.m > 0 && p.count == 0 && p.start == at
    ensures q.Holds(at) && p.run <= q.run
    ensures q == p.(run := q.run, failures := p.failures + PerWindow(p.m) - 1, successes := p.successes + 1)
  {
    hide IsRun, After, Failures, Successes;
    q := FailInTurn(p, at, LIMIT - 1);
    q := AdmitTogether(q, at, q.m);
    q := FailTogether(q, at, q.m - 1);
    q := SucceedsNow(q, at);
  }

  lemma {:induction false} ForgetRepeatedly(p: Progress, at: real, s: nat) returns (q: Progress)
    requires p.Holds(at) && p.pending == 0 && p.m > 0 && p.count == 0 && p.start == at
    ensures q.Holds(at) && p.run <= q.run
    ensures q == p.(run := q.run, failures := p.failures + s * (PerWindow(p.m) - 1), successes := p.successes + s)
    decreases s
  {
    hide IsRun, After, Failures, Successes;
    q := p;
    if s > 0 {
      q := ForgetRepeatedly(p, at, s - 1);
      q := FillAndForget(q, at);
      assert (s - 1) * (PerWindow(p.m) - 1) + (PerWindow(p.m) - 1) == s * (PerWindow(p.m) - 1);
    }
  }

  /** One failure opens the first window. */
  lemma Opened(start: real, m: nat) returns (p: Progress)
    requires m > 0
    ensures p.Holds(start) && p == Progress(p.run, |p.run|, m, 1, start, 0, 0, 0)
  {
    var first := [] + [Check(start)];
    Adds([], Check(start), 0);
    Adds(first, Fail(start), 0);
    p := Progress(first + [Fail(start)], |first| + 1, m, 1, start, 0, 0, 0);
  }

  /** Once the window is over, an attempt that leaves undecided finds the entry and drops it. */
  lemma Forgotten(p: Progress, at: real) returns (q: Progress)
    requires p.Holds(at) && p.pending == 0 && p.m > 0 && p.start + WINDOW <= at
    ensures q.Holds(at) && q == p.(run := q.run, count := 0, start := at) && p.run <= q.run
  {
    var checked := p.run + [Check(at)];
    Adds(p.run, Check(at), p.i);
    Adds(checked, Leave(at), p.i);
    q := p.(run := checked + [Leave(at)], count := 0, start := at);
  }

  /**
   For every number of successes and every overlap there is a run that reaches the bound: the end
   of one window, a window for each success, and a last one that is full.
   */
  lemma BoundIsReached(s: nat, m: nat, start: real) returns (run: seq<Event>, i: nat)
    requires m > 0
    ensures IsRun(run, m) && Short(run, i)
    ensures Successes(run, i) == s && Failures(run, i) == Most(s, m)
  {
    hide IsRun, After, Failures, Successes;
    var late, next := start + 800.0, start + WINDOW;
    var p := Opened(start, m);
    i := p.i;
    var q := Admitted(p, late);
    q := FailsNow(q, late);
    q := FillWindow(q, late);
    assert q.run[i] == Check(late);
    q := Forgotten(q, next);
    q := ForgetRepeatedly(q, next, s);
    q := FillWindow(q, next);
    run := q.run;
  }

  /** Nine are possible even without successes or overlap. */
  lemma NineIsReached(start: real) returns (run: seq<Event>, i: nat)
    ensures IsRun(run, 1) && Short(run, i) && Successes(run, i) == 0 && Failures(run, i) == 9
  {
    run, i := BoundIsReached(0, 1, start);
  }

  /** One success among them allows thirteen, with attempts one after the other. */
  lemma SuccessLiftsTheBound(start: real) returns (run: seq<Event>, i: nat)
    ensures IsRun(run, 1) && Short(run, i) && Successes(run, i) == 1 && Failures(run, i) == 13
  {
    run, i := BoundIsReached(1, 1, start);
  }

  /** Two attempts open at once allow eleven, without any success. */
  lemma OverlapLiftsTheBound(start: real) returns (run: seq<Event>, i: nat)
    ensures IsRun(run, 2) && Short(run, i) && Successes(run, i) == 0 && Failures(run, i) == 11
  {
    run, i := BoundIsReached(0, 2, start);
  }

  ghost predicate NineHolds(s: nat, m: nat) {
    forall run, i :: IsRun(run, m) && Short(run, i) && Successes(run, i) == s ==> Failures(run, i) <= 9
  }

  lemma MostIsNineIff(s: nat, m: nat)
    requires m > 0
    ensures Most(s, m) <= 9 <==> s == 0 && m == 1
  {
    var less := PerWindow(m) - 1;
    assert s > 0 ==> s * less == (s - 1) * less + less && (s - 1) * less >= 0;
    assert s == 0 ==> s * less == 0;
  }

  lemma NineHoldsMeans(s: nat, m: nat)
    ensures NineHolds(s, m) <==>
              forall run, i :: IsRun(run, m) && Short(run, i) && Successes(run, i) == s ==> Failures(run, i) <= 9
  {
  }

  /** Nine can be relied on exactly when no success falls among the failures and attempts never overlap. */
  lemma NineHoldsIff(s: nat, m: nat)
    requires m > 0
    ensures NineHolds(s, m) <==> s == 0 && m == 1
  {
    MostIsNineIff(s, m);
    hide *;
    if s == 0 && m == 1 {
      forall run, i | IsRun(run, m) && Short(run, i) && Successes(run, i) == s
        ensures Failures(run, i) <= 9
      {
        AtMostNine(run, i);
      }
    } else {
      var run, i := BoundIsReached(s, m, 0.0);
      assert Failures(run, i) > 9;
    }
    NineHoldsMeans(s, m);
  }

  // ---------- The limiter ----------

  ghost function Entry(attempts: map<string, Attempt>, key: string): Option<Attempt> {
    if key in attempts then Some(attempts[key]) else None
  }

  /** How an attempt that is let through ends. */
  datatype Outcome = Succeeded | Wrong | Undecided

  function Ending(outcome: Outcome, at: real): Event {
    match outcome
    case Succeeded => Succeed(at)
    case Wrong => Fail(at)
    case Undecided => Leave(at)
  }

  class LoginLimiter {
    var attempts: map<string, Attempt>
    /** Every critical section at every key, in order. */
    ghost var history: map<string, seq<Event>>

    ghost function History(key: string): seq<Event>
      reads this`history
    {
      if key in history then history[key] else []
    }

    /** Every entry is what the events at its key lead to. */
    ghost predicate Valid()
      reads this
    {
      forall key :: Entry(attempts, key) == After(History(key)).entry
    }

    ghost method Happened(key: string, event: Event)
      modifies this`history
      ensures History(key) == old(History(key)) + [event]
      ensures After(History(key)) == Step(After(old(History(key))), event)
      ensures forall other :: other != key ==> History(other) == old(History(other))
    {
      Adds(History(key), event, 0);
      history := history[key := History(key) + [event]];
    }

    constructor ()
      ensures Valid() && forall key :: History(key) == []
    {
      attempts, history := map[], map[];
    }

    method RateLimited(key: string, now: real) returns (limited: bool)
      requires Valid()
      modifies this
      ensures Valid() && limited == Refused(old(Entry(attempts, key)), now)
      ensures limited <==> old(key in attempts && now - attempts[key].windowStart < 900.0 && attempts[key].count >= 5)
      ensures attempts == old(if key in attempts && now - attempts[key].windowStart >= 900.0 then attempts - {key} else attempts)
      ensures History(key) == old(History(key)) + [Check(now)]
      ensures forall other :: other != key ==> History(other) == old(History(other))
    {
      hide After;
      Happened(key, Check(now));
      if key !in attempts {
        return false;
      }
      if now - attempts[key].windowStart >= WINDOW {
        attempts := attempts - {key};
        return false;
      }
      return attempts[key].count >= LIMIT;
    }

    method RecordFailure(key: string, now: real)
      requires Valid()
      modifies this
      ensures Valid() && History(key) == old(History(key)) + [Fail(now)]
      ensures attempts - {key} == old(attempts) - {key} && key in attempts
      ensures if old(key in attempts && now - attempts[key].windowStart < 900.0)
              then attempts[key].count == old(attempts[key].count) + 1 && attempts[key].windowStart == old(attempts[key].windowStart)
              else attempts[key].count == 1 && attempts[key].windowStart == now
      ensures forall other :: other != key ==> History(other) == old(History(other))
    {
      hide After;
      Happened(key, Fail(now));
      if key !in attempts || now - attempts[key].windowStart >= WINDOW {
        assert Failed(Entry(attempts, key), now) == Some(Attempt(1, now));
        attempts := attempts[key := Attempt(1, now)];
        return;
      }
      var attempt := attempts[key];
      attempts := attempts[key := Attempt(attempt.count + 1, attempt.windowStart)];
    }

    method ClearLoginFailures(key: string, ghost now: real)
      requires Valid()
      modifies this
      ensures Valid() && History(key) == old(History(key)) + [Succeed(now)]
      ensures key !in attempts && attempts == old(attempts) - {key}
      ensures forall other :: other != key ==> History(other) == old(History(other))
    {
      hide After;
      Happened(key, Succeed(now));
      attempts := attempts - {key};
    }

    ghost method EndUndecided(key: string, now: real)
      requires Valid()
      modifies this`history
      ensures Valid() && History(key) == old(History(key)) + [Leave(now)]
      ensures forall other :: other != key ==> History(other) == old(History(other))
    {
      hide After;
      Happened(key, Leave(now));
    }

    /** One attempt on its own: refused, or let through and then failed, successful or undecided. */
    method Login(key: string, checkedAt: real, decidedAt: real, outcome: Outcome) returns (refused: bool)
      requires Valid()
      modifies this
      ensures Valid() && refused == Refused(old(Entry(attempts, key)), checkedAt)
      ensures History(key) == old(History(key)) + [Check(checkedAt)] + if refused then [] else [Ending(outcome, decidedAt)]
      ensures forall other :: other != key ==> History(other) == old(History(other))
    {
      hide Valid, History, Entry, Refused, Checked, Count, Failed, After, Step;
      refused := RateLimited(key, checkedAt);
      if !refused {
        match outcome
        case Succeeded => ClearLoginFailures(key, decidedAt);
        case Wrong => RecordFailure(key, decidedAt);
        case Undecided => EndUndecided(key, decidedAt);
      }
    }
  }
}
