/**
 The token bucket shared by every connection and direction of a rule. Time is in seconds
 and tokens in bytes, both exact reals; the clock never runs backwards.
 */
module Bandwidth {

  const MINIMUM_BURST: real := 4096.0
  const MAXIMUM_BURST: real := 262144.0
  const SHORTEST_WAIT: real := 0.001

  /** Bytes per second of a limit in Kbit/s; zero means unlimited. */
  function Rate(kbps: nat): real {
    kbps as real * 1000.0 / 8.0
  }

  /** What a rate earns over a stretch of time. */
  function Gain(seconds: real, rate: real): real {
    seconds * rate
  }

  lemma GainAdds(a: real, b: real, rate: real)
    ensures Gain(a, rate) + Gain(b, rate) == Gain(a + b, rate)
  {
  }

  lemma GainGrows(a: real, b: real, rate: real)
    requires 0.0 <= a <= b && 0.0 <= rate
    ensures 0.0 <= Gain(a, rate) <= Gain(b, rate)
  {
    assert Gain(b, rate) - Gain(a, rate) == (b - a) * rate;
    assert (b - a) * rate >= 0.0;
  }

  lemma NoGain(seconds: real, rate: real)
    requires seconds == 0.0 || rate == 0.0
    ensures Gain(seconds, rate) == 0.0
  {
  }

  /** A quarter of a second's worth, within the bounds of the burst. */
  function Capacity(kbps: nat): real {
    var burst := Rate(kbps) / 4.0;
    if burst < MINIMUM_BURST then MINIMUM_BURST
    else if burst > MAXIMUM_BURST then MAXIMUM_BURST
    else burst
  }

  function Least(a: real, b: real): real {
    if a <= b then a else b
  }

  /** A bucket holds between 4 and 256 KiB, never shrinks with the limit, and in between holds a quarter of a second. */
  lemma CapacityIsBounded(kbps: nat, more: nat)
    requires kbps <= more
    ensures 4096.0 <= Capacity(kbps) <= Capacity(more) <= 262144.0
    ensures Capacity(kbps) == (if kbps * 1000 <= 131072 then 4096.0 else if kbps * 1000 >= 8388608 then 262144.0
                               else (kbps * 1000) as real / 32.0)
  {
    assert Rate(kbps) <= Rate(more);
  }

  /** A limit of one Kbit/s is a thousand bits, or 125 bytes, in every second. */
  lemma GainIsInBits(seconds: real, kbps: nat)
    ensures Gain(seconds, Rate(kbps)) * 8.0 == seconds * kbps as real * 1000.0
  {
    assert Rate(kbps) * 8.0 == kbps as real * 1000.0;
    assert seconds * Rate(kbps) * 8.0 == seconds * (Rate(kbps) * 8.0);
  }

  // ---------- The bucket as a value ----------

  datatype Bucket = Bucket(kbps: nat, tokens: real, last: real)
  {
    predicate Sound() {
      0.0 <= tokens <= Capacity(kbps)
    }

    function Refilled(now: real): Bucket {
      this.(last := now,
            tokens := if Rate(kbps) > 0.0 && now > last
                      then Least(tokens + Gain(now - last, Rate(kbps)), Capacity(kbps)) else tokens)
    }

    function Retuned(limit: nat, now: real): Bucket {
      if limit == kbps then this
      else Bucket(limit, Least(Refilled(now).tokens, Capacity(limit)), now)
    }
  }

  /**
   The limiter with the request at the head of its queue: `want` bytes asked for, `got`
   already charged. Requests are served one at a time.
   */
  datatype Limiter = Limiter(bucket: Bucket, want: real, got: real)
  {
    predicate Sound() {
      bucket.Sound() && 0.0 <= got <= want
    }
  }

  /** `Poll` is one pass of the wait loop under the lock. */
  datatype Op =
    | Begin(size: real)
    | Poll(at: real)
    | Abandon
    | Retune(at: real, kbps: nat)

  datatype Outcome = Outcome(next: Limiter, charged: real, released: real)

  function Perform(l: Limiter, op: Op): Outcome {
    match op
    case Begin(size) => Outcome(if l.want == 0.0 then l.(want := size, got := 0.0) else l, 0.0, 0.0)
    case Abandon => Outcome(l.(want := 0.0, got := 0.0), 0.0, 0.0)
    case Retune(at, kbps) => Outcome(l.(bucket := l.bucket.Retuned(kbps, at)), 0.0, 0.0)
    case Poll(at) =>
      var full := l.bucket.Refilled(at);
      if Rate(full.kbps) == 0.0 then Outcome(Limiter(full, 0.0, 0.0), 0.0, l.want)
      else
        var take := Least(full.tokens, l.want - l.got);
        var paid := full.(tokens := full.tokens - take);
        if l.got + take == l.want then Outcome(Limiter(paid, 0.0, 0.0), take, l.want)
        else Outcome(Limiter(paid, l.want, l.got + take), take, 0.0)
  }

  function TimeOf(op: Op, otherwise: real): real {
    match op
    case Poll(at) => at
    case Retune(at, _) => at
    case _ => otherwise
  }

  /** Operations a non-decreasing clock allows from time `now` on, with sizes that make sense. */
  predicate Timely(now: real, ops: seq<Op>)
    decreases |ops|
  {
    ops == [] ||
    (&& now <= TimeOf(ops[0], now)
     && (ops[0].Begin? ==> ops[0].size >= 0.0)
     && Timely(TimeOf(ops[0], now), ops[1..]))
  }

  function After(l: Limiter, ops: seq<Op>): Limiter
    decreases |ops|
  {
    if ops == [] then l else After(Perform(l, ops[0]).next, ops[1..])
  }

  function Charged(l: Limiter, ops: seq<Op>): real
    decreases |ops|
  {
    if ops == [] then 0.0 else Perform(l, ops[0]).charged + Charged(Perform(l, ops[0]).next, ops[1..])
  }

  function Released(l: Limiter, ops: seq<Op>): real
    decreases |ops|
  {
    if ops == [] then 0.0 else Perform(l, ops[0]).released + Released(Perform(l, ops[0]).next, ops[1..])
  }

  /** The integral of the configured rate over the run, across all changes of the limit. */
  function Earned(l: Limiter, ops: seq<Op>): real
    decreases |ops|
  {
    if ops == [] then 0.0
    else
      var next := Perform(l, ops[0]).next;
      Gain(next.bucket.last - l.bucket.last, Rate(l.bucket.kbps)) + Earned(next, ops[1..])
  }

  lemma PerformIsSound(l: Limiter, op: Op)
    requires l.Sound() && l.bucket.last <= TimeOf(op, l.bucket.last)
    requires op.Begin? ==> op.size >= 0.0
    ensures Perform(l, op).next.Sound()
    ensures l.bucket.last <= Perform(l, op).next.bucket.last <= TimeOf(op, l.bucket.last)
    ensures Perform(l, op).charged >= 0.0
    ensures Perform(l, op).charged + Perform(l, op).next.bucket.tokens
         <= l.bucket.tokens + Gain(Perform(l, op).next.bucket.last - l.bucket.last, Rate(l.bucket.kbps))
  {
    var rate := Rate(l.bucket.kbps);
    NoGain(0.0, rate);
    if op.Poll? || op.Retune? {
      GainGrows(0.0, op.at - l.bucket.last, rate);
      if rate == 0.0 { NoGain(op.at - l.bucket.last, rate); }
    }
  }

  lemma TimelyLater(now: real, later: real, ops: seq<Op>)
    requires Timely(later, ops) && now <= later
    ensures Timely(now, ops)
    decreases |ops|
  {
    if ops != [] && (ops[0].Begin? || ops[0].Abandon?) {
      TimelyLater(now, later, ops[1..]);
    }
  }

  /**
   Whole runs with hot rate changes: the bucket stays within its bounds, and what was charged
   plus what is left never exceeds what was there plus what the successive rates earned.
   */
  lemma {:induction false} ChargesStayWithinEarnings(l: Limiter, ops: seq<Op>)
    requires l.Sound() && Timely(l.bucket.last, ops)
    ensures After(l, ops).Sound()
    ensures Charged(l, ops) + After(l, ops).bucket.tokens <= l.bucket.tokens + Earned(l, ops)
    decreases |ops|
  {
    if ops != [] {
      PerformIsSound(l, ops[0]);
      var next := Perform(l, ops[0]).next;
      TimelyLater(next.bucket.last, TimeOf(ops[0], l.bucket.last), ops[1..]);
      ChargesStayWithinEarnings(next, ops[1..]);
    }
  }

  /** The limit stays what it is; applying the same limit again is allowed. */
  predicate Steady(ops: seq<Op>, kbps: nat) {
    forall i :: 0 <= i < |ops| && ops[i].Retune? ==> ops[i].kbps == kbps
  }

  predicate Before(ops: seq<Op>, end: real) {
    forall i :: 0 <= i < |ops| ==> TimeOf(ops[i], end) <= end
  }

  lemma {:induction false} EarnedAtConstantRate(l: Limiter, ops: seq<Op>, end: real)
    requires l.Sound() && Timely(l.bucket.last, ops) && Steady(ops, l.bucket.kbps) && Before(ops, end) && l.bucket.last <= end
    ensures Earned(l, ops) <= Gain(end - l.bucket.last, Rate(l.bucket.kbps))
    decreases |ops|
  {
    if ops != [] {
      PerformIsSound(l, ops[0]);
      var next := Perform(l, ops[0]).next;
      assert TimeOf(ops[0], end) <= end;
      TimelyLater(next.bucket.last, TimeOf(ops[0], l.bucket.last), ops[1..]);
      EarnedAtConstantRate(next, ops[1..], end);
      GainAdds(next.bucket.last - l.bucket.last, end - next.bucket.last, Rate(l.bucket.kbps));
    } else {
      GainGrows(0.0, end - l.bucket.last, Rate(l.bucket.kbps));
    }
  }

  /** Between any two instants at one positive rate: at most a full bucket plus what the rate gives. */
  lemma {:induction false} ChargesInWindow(l: Limiter, ops: seq<Op>, start: real, end: real)
    requires l.Sound() && l.bucket.last <= start <= end && l.bucket.kbps > 0
    requires Timely(start, ops) && Steady(ops, l.bucket.kbps) && Before(ops, end)
    ensures Charged(l, ops) <= Capacity(l.bucket.kbps) + Gain(end - start, Rate(l.bucket.kbps))
    decreases |ops|
  {
    var rate := Rate(l.bucket.kbps);
    if ops == [] {
      GainGrows(0.0, end - start, rate);
    } else if ops[0].Poll? {
      assert TimeOf(ops[0], end) <= end;
      PerformIsSound(l, ops[0]);
      var step := Perform(l, ops[0]);
      assert step.charged + step.next.bucket.tokens <= Capacity(l.bucket.kbps);
      ChargesStayWithinEarnings(step.next, ops[1..]);
      EarnedAtConstantRate(step.next, ops[1..], end);
      GainGrows(end - ops[0].at, end - start, rate);
    } else {
      assert ops[0].Retune? ==> ops[0].kbps == l.bucket.kbps;
      PerformIsSound(l, ops[0]);
      TimelyLater(start, TimeOf(ops[0], start), ops[1..]);
      ChargesInWindow(Perform(l, ops[0]).next, ops[1..], start, end);
    }
  }

  /** In bits: whatever is charged between two instants at one limit is a full bucket and what the limit allows. */
  lemma BitsInWindow(l: Limiter, ops: seq<Op>, start: real, end: real)
    requires l.Sound() && l.bucket.last <= start <= end && l.bucket.kbps > 0
    requires Timely(start, ops) && Steady(ops, l.bucket.kbps) && Before(ops, end)
    ensures 8.0 * Charged(l, ops) <= 8.0 * Capacity(l.bucket.kbps) + (end - start) * l.bucket.kbps as real * 1000.0
  {
    hide *;
    ChargesInWindow(l, ops, start, end);
    GainIsInBits(end - start, l.bucket.kbps);
  }

  /** An idle bucket earns 125 bytes a second for every Kbit/s, until it is full; without a limit nothing. */
  lemma IdleBucketEarns(bucket: Bucket, now: real)
    requires bucket.last <= now && bucket.Sound()
    ensures bucket.Refilled(now).kbps == bucket.kbps && bucket.Refilled(now).last == now
    ensures bucket.Refilled(now).tokens == Least(bucket.tokens + (now - bucket.last) * (bucket.kbps as real * 125.0), Capacity(bucket.kbps))
  {
    var earned := (now - bucket.last) * (bucket.kbps as real * 125.0);
    GainIsInBits(now - bucket.last, bucket.kbps);
    assert earned * 8.0 == (now - bucket.last) * bucket.kbps as real * 1000.0;
    GainGrows(0.0, now - bucket.last, Rate(bucket.kbps));
  }

  /** A new limit counts from now on: until now the old one earned, and what the new capacity cannot hold is lost. */
  lemma NewLimitFromNow(bucket: Bucket, kbps: nat, now: real)
    requires bucket.last <= now && bucket.Sound() && kbps != bucket.kbps
    ensures bucket.Retuned(kbps, now).kbps == kbps && bucket.Retuned(kbps, now).last == now
    ensures var earned := bucket.tokens + (now - bucket.last) * (bucket.kbps as real * 125.0);
            bucket.Retuned(kbps, now).tokens == Least(earned, Least(Capacity(bucket.kbps), Capacity(kbps)))
  {
    IdleBucketEarns(bucket, now);
    hide Capacity;
  }

  /** Without a change of a positive limit, every released byte was charged, here or before. */
  lemma {:induction false} ReleasesAreCharged(l: Limiter, ops: seq<Op>, now: real)
    requires l.Sound() && l.bucket.kbps > 0 && l.bucket.last <= now && Timely(now, ops) && Steady(ops, l.bucket.kbps)
    ensures Released(l, ops) <= l.got + Charged(l, ops)
    decreases |ops|
  {
    if ops != [] {
      assert ops[0].Retune? ==> ops[0].kbps == l.bucket.kbps;
      PerformIsSound(l, ops[0]);
      ReleasesAreCharged(Perform(l, ops[0]).next, ops[1..], TimeOf(ops[0], now));
    }
  }

  /** Bytes let through between two instants exceed the bucket bound by at most the request in progress. */
  lemma ReleasesInWindow(l: Limiter, ops: seq<Op>, start: real, end: real)
    requires l.Sound() && l.bucket.last <= start <= end && l.bucket.kbps > 0
    requires Timely(start, ops) && Steady(ops, l.bucket.kbps) && Before(ops, end)
    ensures Released(l, ops) <= Capacity(l.bucket.kbps) + Gain(end - start, Rate(l.bucket.kbps)) + l.want
  {
    ChargesInWindow(l, ops, start, end);
    ReleasesAreCharged(l, ops, start);
  }

  // ---------- Runs that grow at the end ----------

  function LastTime(now: real, ops: seq<Op>): real
    decreases |ops|
  {
    if ops == [] then now else LastTime(TimeOf(ops[0], now), ops[1..])
  }

  lemma {:induction false} OneMore(l: Limiter, ops: seq<Op>, op: Op, now: real)
    requires Timely(now, ops) && LastTime(now, ops) <= TimeOf(op, LastTime(now, ops)) && (op.Begin? ==> op.size >= 0.0)
    ensures Timely(now, ops + [op]) && LastTime(now, ops + [op]) == TimeOf(op, LastTime(now, ops))
    ensures After(l, ops + [op]) == Perform(After(l, ops), op).next
    ensures Charged(l, ops + [op]) == Charged(l, ops) + Perform(After(l, ops), op).charged
    ensures Released(l, ops + [op]) == Released(l, ops) + Perform(After(l, ops), op).released
    decreases |ops|
  {
    if ops == [] {
      assert ops + [op] == [op];
      assert [op][1..] == [];
    } else {
      assert (ops + [op])[1..] == ops[1..] + [op];
      OneMore(Perform(l, ops[0]).next, ops[1..], op, TimeOf(ops[0], now));
    }
  }

  // ---------- The limiter object ----------

  /** What ends one blocking wait; `late` is how much after the timer the waiter runs again. */
  datatype Wake =
    | Timer(late: real)
    | Retuned(after: real, kbps: nat)
    | Closed(after: real)
    | Cancelled(after: real)

  predicate Plausible(wake: Wake) {
    match wake
    case Timer(late) => late >= 0.0
    case Retuned(after, _) => after >= 0.0
    case Closed(after) => after >= 0.0
    case Cancelled(after) => after >= 0.0
  }

  lemma OnTimeIsPlausible()
    ensures Plausible(Timer(0.0))
  {
  }

  /** How many full buckets a remainder still needs, rounded down. */
  ghost function Rounds(remaining: real, capacity: real): nat
    requires remaining >= 0.0 && capacity > 0.0
  {
    (remaining / capacity).Floor
  }

  lemma ProductsOrder(a: real, b: real, scale: real)
    requires scale > 0.0 && a * scale <= b * scale
    ensures a <= b
  {
    if a > b {
      ProductGrows(b, a, scale);
    }
  }

  lemma ProductGrows(a: real, b: real, scale: real)
    requires scale > 0.0 && a < b
    ensures a * scale < b * scale
  {
    assert (b - a) * scale > 0.0;
  }

  lemma RoundsGrow(less: real, more: real, capacity: real)
    requires 0.0 <= less <= more && capacity > 0.0
    ensures Rounds(less, capacity) <= Rounds(more, capacity)
  {
    ProductsOrder(less / capacity, more / capacity, capacity);
  }

  lemma RoundsDrop(before: real, after: real, capacity: real)
    requires capacity > 0.0 && 0.0 < after <= before && before - after >= Least(before, capacity)
    ensures Rounds(after, capacity) + 1 <= Rounds(before, capacity)
  {
    var a, b := after / capacity, before / capacity;
    assert (a + 1.0) * capacity == after + capacity && b * capacity == before;
    ProductsOrder(a + 1.0, b, capacity);
  }

  datatype Verdict = Served | Refused | Again

  lemma LeastGrows(found: real, remaining: real, capacity: real)
    requires found >= Least(remaining, capacity)
    ensures Least(found, remaining) >= Least(remaining, capacity)
  {
  }

  lemma LeastIs(a: real, b: real)
    ensures Least(a, b) <= a && Least(a, b) <= b && (Least(a, b) == a || Least(a, b) == b)
  {
  }

  // ---------- How long a wait takes ----------

  /** How much later than asked for the first k timers fired. */
  ghost function Lateness(world: seq<Wake>, k: nat): real {
    if k == 0 then 0.0
    else Lateness(world, k - 1) + if k - 1 < |world| && world[k - 1].Timer? then world[k - 1].late else 0.0
  }

  lemma LatenessStep(world: seq<Wake>, k: nat)
    ensures Lateness(world, 0) == 0.0
    ensures Lateness(world, k + 1) == Lateness(world, k) + if k < |world| && world[k].Timer? then world[k].late else 0.0
  {
  }

  /** A sleep for `left` bytes: the bucket has earned them, or is full, and the sleep was no longer than that took. */
  ghost predicate SleptFor(left: real, kbps: nat, seconds: real, late: real, tokens: real) {
    && Least(left, Capacity(kbps)) <= tokens <= Gain(seconds, Rate(kbps))
    && Gain(seconds - late, Rate(kbps)) <= Least(left, Capacity(kbps)) + Gain(SHORTEST_WAIT, Rate(kbps))
  }

  /** After some sleeps: neither ahead of what the limit has earned since the call nor behind what it had to earn. */
  ghost predicate OnTime(kbps: nat, sleeps: nat, seconds: real, late: real, missing: real, remaining: real, tokens: real) {
    && Least(remaining, Capacity(kbps)) <= tokens
    && missing - remaining + tokens <= Gain(seconds, Rate(kbps))
    && Gain(seconds - late, Rate(kbps))
       <= missing - remaining + Least(remaining, Capacity(kbps)) + Gain(sleeps as real * SHORTEST_WAIT, Rate(kbps))
  }

  lemma SleptIsRested(left: real, kbps: nat, seconds: real, late: real, tokens: real)
    requires SleptFor(left, kbps, seconds, late, tokens)
    ensures tokens >= Least(left, Capacity(kbps))
  {
  }

  /** A steady wait so far: nothing yet, or some sleeps on time, every one but the last for a full bucket. */
  ghost predicate Progress(kbps: nat, sleeps: nat, seconds: real, late: real, want: real, missing: real, remaining: real,
                           tokens: real) {
    if sleeps == 0 then seconds == 0.0 && late == 0.0 && remaining == want && missing == want - tokens
    else
      && OnTime(kbps, sleeps, seconds, late, missing, remaining, tokens)
      && Gain((sleeps - 1) as real, Capacity(kbps)) + remaining <= want
  }

  lemma StartsToWait(kbps: nat, want: real, missing: real, tokens: real)
    requires missing == want - tokens
    ensures Progress(kbps, 0, 0.0, 0.0, want, missing, want, tokens)
  {
  }

  lemma OneSleep(kbps: nat, sleeps: nat, seconds: real, late: real, want: real, missing: real, remaining: real, before: real,
                 left: real, more: real, moreLate: real, tokens: real)
    requires Progress(kbps, sleeps, seconds, late, want, missing, remaining, before)
    requires 0.0 < left == remaining - Least(before, remaining) && SleptFor(left, kbps, more, moreLate, tokens)
    requires before >= 0.0
    ensures Progress(kbps, sleeps + 1, seconds + more, late + moreLate, want, missing, left, tokens)
    ensures tokens >= Least(left, Capacity(kbps))
  {
    if sleeps > 0 {
      NextSleep(kbps, sleeps, seconds, late, missing, remaining, before, left, more, moreLate, tokens);
      GainAdds((sleeps - 1) as real, 1.0, Capacity(kbps));
      assert Gain(1.0, Capacity(kbps)) == Capacity(kbps);
    } else {
      NoGain(0.0, Capacity(kbps));
    }
    hide Gain, Rate, Capacity;
  }

  lemma NextSleep(kbps: nat, sleeps: nat, seconds: real, late: real, missing: real, remaining: real, before: real,
                  left: real, more: real, moreLate: real, tokens: real)
    requires OnTime(kbps, sleeps, seconds, late, missing, remaining, before)
    requires 0.0 < left == remaining - Least(before, remaining) && SleptFor(left, kbps, more, moreLate, tokens)
    ensures OnTime(kbps, sleeps + 1, seconds + more, late + moreLate, missing, left, tokens)
  {
    var rate := Rate(kbps);
    GainAdds(seconds, more, rate);
    GainAdds(seconds - late, more - moreLate, rate);
    GainAdds(sleeps as real * SHORTEST_WAIT, SHORTEST_WAIT, rate);
    assert (sleeps + 1) as real * SHORTEST_WAIT == sleeps as real * SHORTEST_WAIT + SHORTEST_WAIT;
    assert seconds + more - (late + moreLate) == (seconds - late) + (more - moreLate);
    hide Gain, Rate, Capacity;
  }

  /** In bits: a wait for `missing` bytes takes the time the limit needs for them, and a millisecond a sleep at most beyond that. */
  ghost predicate TakesItsTime(kbps: nat, sleeps: nat, seconds: real, late: real, missing: real) {
    && 8.0 * missing <= seconds * kbps as real * 1000.0
    && (seconds - late) * kbps as real * 1000.0 <= 8.0 * (if missing < 0.0 then 0.0 else missing) + (sleeps * kbps) as real
  }

  lemma ServedInTime(kbps: nat, sleeps: nat, seconds: real, late: real, want: real, missing: real, remaining: real, tokens: real)
    requires Progress(kbps, sleeps, seconds, late, want, missing, remaining, tokens) && 0.0 < remaining <= tokens
    ensures TakesItsTime(kbps, sleeps, seconds, late, missing)
    ensures sleeps == 0 || Gain((sleeps - 1) as real, Capacity(kbps)) < want
  {
    if sleeps == 0 {
      return;
    }
    GainIsInBits(seconds, kbps);
    GainIsInBits(seconds - late, kbps);
    GainIsInBits(sleeps as real * SHORTEST_WAIT, kbps);
    assert sleeps as real * SHORTEST_WAIT * kbps as real * 1000.0 == (sleeps * kbps) as real;
    hide Gain, Rate, Capacity;
  }

  class BandwidthLimiter {
    var kbps: nat
    var rate: real
    var capacity: real
    var tokens: real
    var last: real
    var closed: bool

    ghost function State(): Bucket
      reads this
    {
      Bucket(kbps, tokens, last)
    }

    ghost predicate Valid()
      reads this
    {
      rate == Rate(kbps) && capacity == Capacity(kbps) && State().Sound()
    }

    constructor (kbps: nat, now: real)
      ensures Valid() && !closed && State() == Bucket(kbps, Capacity(kbps), now)
    {
      this.kbps, rate, capacity, tokens := kbps, Rate(kbps), Capacity(kbps), Capacity(kbps);
      last, closed := now, false;
    }

    method RefillLocked(now: real)
      requires Valid() && last <= now
      modifies this`tokens, this`last
      ensures Valid() && State() == old(State()).Refilled(now)
    {
      if rate > 0.0 && now > last {
        GainGrows(0.0, now - last, rate);
        tokens := tokens + (now - last) * rate;
        if tokens > capacity {
          tokens := capacity;
        }
      }
      last := now;
    }

    method Update(kbps: nat, now: real)
      requires Valid() && last <= now
      modifies this
      ensures Valid() && closed == old(closed)
      ensures State() == if closed then old(State()) else old(State()).Retuned(kbps, now)
    {
      if closed || this.kbps == kbps {
        return;
      }
      RefillLocked(now);
      this.kbps, rate, capacity := kbps, Rate(kbps), Capacity(kbps);
      if tokens > capacity {
        tokens := capacity;
      }
    }

    method Close()
      requires Valid()
      modifies this`closed
      ensures Valid() && closed
    {
      closed := true;
    }

    method MaxChunkSize(byteCount: nat) returns (size: nat)
      requires Valid()
      ensures size <= byteCount && (byteCount > 0 ==> size > 0)
      ensures kbps > 0 ==> size as real <= capacity
      ensures byteCount as real <= capacity || kbps == 0 ==> size == byteCount
      ensures kbps > 0 && capacity < byteCount as real ==> capacity < (size + 1) as real
    {
      if byteCount == 0 || rate == 0.0 || byteCount as real <= capacity {
        return byteCount;
      }
      return capacity.Floor;
    }

    /** One pass under the lock: take what the bucket holds, unless the limit is lifted. */
    method TakeLocked(now: real, remaining: real, ghost want: real) returns (free: bool, left: real)
      requires Valid() && last <= now && 0.0 < remaining <= want
      modifies this`tokens, this`last
      ensures Valid() && last == now && free == (kbps == 0)
      ensures var outcome := Perform(Limiter(old(State()), want, want - remaining), Poll(now));
              && outcome.next.bucket == State()
              && (free ==> outcome.charged == 0.0 && outcome.released == want)
              && (!free ==> outcome.charged == remaining - left)
              && (!free && left == 0.0 ==> outcome.released == want)
              && (!free && left > 0.0 ==> outcome.released == 0.0 && outcome.next == Limiter(State(), want, want - left))
      ensures 0.0 <= left <= remaining && (!free && left > 0.0 ==> tokens == 0.0)
      ensures !free ==> remaining - left == Least(old(State()).Refilled(now).tokens, remaining)
    {
      RefillLocked(now);
      left := remaining;
      if rate == 0.0 {
        return true, left;
      }
      if tokens > 0.0 {
        var take := tokens;
        if take > left {
          take := left;
        }
        tokens := tokens - take;
        left := left - take;
      }
      return false, left;
    }

    /** How long the waiter sleeps for what it still needs. */
    method PauseFor(remaining: real) returns (pause: real)
      requires Valid() && 0.0 < remaining && kbps > 0
      ensures pause > 0.0 && Gain(pause, rate) >= Least(remaining, capacity)
      ensures Gain(pause, rate) <= Least(remaining, capacity) + Gain(SHORTEST_WAIT, rate)
    {
      var amount := Least(remaining, capacity);
      pause := amount / rate;
      assert Gain(pause, rate) == amount;
      GainGrows(0.0, SHORTEST_WAIT, rate);
      if pause < SHORTEST_WAIT {
        GainGrows(pause, SHORTEST_WAIT, rate);
        pause := SHORTEST_WAIT;
      }
    }

    /** After an undisturbed pause the bucket covers the rest, or as much as it can hold. */
    lemma RestedBucket(now: real, pause: real, late: real, remaining: real)
      requires Valid() && last == now && tokens == 0.0 && kbps > 0 && pause > 0.0 && late >= 0.0
      requires Least(remaining, capacity) <= Gain(pause, rate) <= Least(remaining, capacity) + Gain(SHORTEST_WAIT, rate)
      ensures SleptFor(remaining, kbps, pause + late, late, State().Refilled(now + pause + late).tokens)
    {
      GainGrows(pause, pause + late, rate);
    }

    /** The wait for a timer, a new limit, closing or cancellation; `op` is what it did to the bucket. */
    method Sleep(pause: real, wake: Wake, now: real) returns (cancelled: bool, end: real, ghost op: Op)
      requires Valid() && last <= now && pause > 0.0 && Plausible(wake)
      modifies this
      ensures Valid() && last <= end && now <= end && cancelled == wake.Cancelled?
      ensures op == match wake case Retuned(_, kbps) => Retune(end, kbps) case _ => Retune(end, old(kbps))
      ensures old(closed) || State() == old(State()).Retuned(op.kbps, end)
      ensures wake.Timer? ==> State() == old(State()) && closed == old(closed) && end == now + pause + wake.late
      ensures closed == (old(closed) || wake.Closed?)
    {
      end := now + match wake
                   case Timer(late) => pause + late
                   case Retuned(after, _) => Least(after, pause)
                   case Closed(after) => Least(after, pause)
                   case Cancelled(after) => Least(after, pause);
      cancelled := wake.Cancelled?;
      op := Retune(end, kbps);
      if wake.Retuned? {
        op := Retune(end, wake.kbps);
        Update(wake.kbps, end);
      } else if wake.Closed? {
        Close();
      }
    }

    /** `ops` has brought the limiter from `start` to here, with a request in progress. */
    ghost predicate Serving(start: Limiter, now: real, ops: seq<Op>, end: real, want: real, remaining: real)
      reads this
    {
      && Timely(now, ops) && LastTime(now, ops) <= end
      && After(start, ops) == Limiter(State(), want, want - remaining)
      && Released(start, ops) == 0.0 && Charged(start, ops) == want - remaining
    }

    lemma BeginsToServe(now: real, want: real)
      requires Valid() && last <= now && 0.0 < want
      ensures Serving(Limiter(State(), 0.0, 0.0), now, [] + [Begin(want)], now, want, want)
    {
      OneMore(Limiter(State(), 0.0, 0.0), [], Begin(want), now);
    }

    lemma RefilledIsSound(now: real)
      requires Valid() && last <= now
      ensures State().Refilled(now).tokens >= 0.0
    {
      GainGrows(0.0, now - last, rate);
    }

    lemma ServingSoFar(start: Limiter, now: real, ops: seq<Op>, end: real, want: real, remaining: real)
      requires Serving(start, now, ops, end, want, remaining)
      ensures Timely(now, ops) && After(start, ops).bucket == State()
    {
    }

    /** The first half of a round: take what the bucket holds. */
    method Take(at: real, remaining: real, ghost start: Limiter, ghost now: real, ghost want: real, ghost before: seq<Op>)
      returns (free: bool, left: real, ghost ops: seq<Op>)
      requires Valid() && last <= at && now <= at && 0.0 < remaining <= want
      requires Serving(start, now, before, at, want, remaining)
      modifies this`tokens, this`last
      ensures Valid() && last == at && free == (kbps == 0) && 0.0 <= left <= remaining
      ensures free || left == 0.0 ==>
                && Timely(now, ops) && After(start, ops).bucket == State()
                && Released(start, ops) == want && (kbps == 0 || Charged(start, ops) == want)
      ensures !free && left > 0.0 ==> tokens == 0.0 && Serving(start, now, ops, at, want, left)
      ensures !free ==> remaining - left == Least(old(State()).Refilled(at).tokens, remaining)
    {
      OneMore(start, before, Poll(at), now);
      ops := before + [Poll(at)];
      free, left := TakeLocked(at, remaining, want);
    }

    /** The second half: sleep for what is missing. */
    method Rest(at: real, left: real, wake: Wake, ghost start: Limiter, ghost now: real, ghost want: real, ghost before: seq<Op>)
      returns (cancelled: bool, end: real, ghost ops: seq<Op>)
      requires Valid() && last == at && tokens == 0.0 && kbps > 0 && !closed && now <= at && 0.0 < left <= want
      requires Plausible(wake) && Serving(start, now, before, at, want, left)
      modifies this
      ensures Valid() && last <= end && at <= end && cancelled == wake.Cancelled? && closed == wake.Closed?
      ensures Serving(start, now, ops, end, want, left)
      ensures wake.Timer? ==> kbps == old(kbps) && SleptFor(left, kbps, end - at, wake.late, State().Refilled(end).tokens)
    {
      var pause := PauseFor(left);
      if wake.Timer? {
        RestedBucket(at, pause, wake.late, left);
      }
      ghost var op: Op;
      cancelled, end, op := Sleep(pause, wake, at);
      OneMore(start, before, op, now);
      ops := before + [op];
    }

    /** One round of the wait loop: take, and sleep when that was not enough. */
    method Round(at: real, remaining: real, wake: Wake, ghost start: Limiter, ghost now: real, ghost want: real,
                 ghost before: seq<Op>)
      returns (verdict: Verdict, end: real, left: real, ghost ops: seq<Op>)
      requires Valid() && last <= at && now <= at && 0.0 < remaining <= want && Plausible(wake)
      requires Serving(start, now, before, at, want, remaining)
      modifies this
      ensures Valid() && last <= end && at <= end
      ensures Timely(now, ops) && After(start, ops).bucket == State()
      ensures verdict == Served ==> Released(start, ops) == want && (kbps == 0 || Charged(start, ops) == want)
      ensures verdict == Again ==>
                && 0.0 < left <= remaining && Serving(start, now, ops, end, want, left)
                && remaining - left == Least(old(State()).Refilled(at).tokens, remaining)
                && (wake.Timer? ==> kbps == old(kbps) && SleptFor(left, kbps, end - at, wake.late, State().Refilled(end).tokens))
      ensures verdict == Served ==> end == at && (kbps == 0 || remaining <= old(State()).Refilled(at).tokens)
      ensures !old(closed) && wake.Timer? ==>
                kbps == old(kbps) && !closed && (verdict == Served || (verdict == Again && old(kbps) > 0))
      ensures old(kbps) == 0 ==> verdict != Again
      ensures old(closed) ==> verdict == Refused && end == at && State() == old(State()) && closed
      ensures !old(closed) && old(kbps) == 0 ==> verdict == Served && end == at
      ensures !old(closed) && (wake.Timer? || wake.Retuned?) ==> !closed && verdict != Refused
    {
      hide *;
      end, left, ops := at, remaining, before;
      if closed {
        ServingSoFar(start, now, before, at, want, remaining);
        return Refused, end, left, ops;
      }
      var free, cancelled;
      free, left, ops := Take(at, remaining, start, now, want, before);
      if free || left == 0.0 {
        LeastIs(old(State()).Refilled(at).tokens, remaining);
        return Served, end, left, ops;
      }
      cancelled, end, ops := Rest(at, left, wake, start, now, want, ops);
      ServingSoFar(start, now, ops, end, want, left);
      return if cancelled then Refused else Again, end, left, ops;
    }

    /**
     Charge `byteCount` tokens, sleeping while the bucket is empty. The call is a timely run
     of the limiter; on success the whole request is released, fully charged unless the limit
     was lifted meanwhile. A closed limiter refuses and an unlimited one releases at once; an
     open one succeeds unless it is closed or the caller gives up. With an undisturbed positive
     limit it succeeds after at most ceil(byteCount / capacity) sleeps, and takes the time the
     limit needs for what the bucket did not hold.
     */
    method Wait(byteCount: nat, now: real, world: seq<Wake>)
      returns (ok: bool, end: real, sleeps: nat, ghost ops: seq<Op>)
      requires Valid() && last <= now && forall i :: 0 <= i < |world| ==> Plausible(world[i])
      modifies this
      ensures Valid() && last <= end && now <= end
      ensures Timely(now, ops) && After(Limiter(old(State()), 0.0, 0.0), ops).bucket == State()
      ensures ok ==> Released(Limiter(old(State()), 0.0, 0.0), ops) == byteCount as real
      ensures ok ==> kbps == 0 || Charged(Limiter(old(State()), 0.0, 0.0), ops) == byteCount as real
      ensures !old(closed) && old(kbps) > 0 && (forall i :: 0 <= i < |world| ==> world[i].Timer?) ==>
                ok && kbps == old(kbps) && (sleeps == 0 || Gain((sleeps - 1) as real, Capacity(kbps)) < byteCount as real)
      ensures !old(closed) && old(kbps) > 0 && (forall i :: 0 <= i < |world| ==> world[i].Timer?) ==>
                TakesItsTime(kbps, sleeps, end - now, Lateness(world, sleeps), byteCount as real - old(State()).Refilled(now).tokens)
      ensures byteCount == 0 || old(closed) ==> ok == (byteCount == 0) && sleeps == 0 && end == now && State() == old(State())
      ensures !old(closed) && old(kbps) == 0 ==> ok && sleeps == 0 && end == now
      ensures !old(closed) && (forall i :: 0 <= i < |world| ==> world[i].Timer? || world[i].Retuned?) ==> ok && !closed
    {
      if byteCount == 0 {
        NothingToWaitFor(now);
        return true, now, 0, [];
      }
      hide *;
      ok, end, sleeps, ops := WaitInQueue(byteCount, now, world);
    }

    lemma NothingToWaitFor(now: real)
      requires Valid() && last <= now
      ensures TakesItsTime(kbps, 0, 0.0, 0.0, 0.0 - State().Refilled(now).tokens)
    {
      RefilledIsSound(now);
    }

    lemma CapacityIs()
      requires Valid()
      ensures capacity == Capacity(kbps) >= 4096.0
    {
    }

    /** The wait loop, at the head of the queue. */
    method WaitInQueue(byteCount: nat, now: real, world: seq<Wake>)
      returns (ok: bool, end: real, sleeps: nat, ghost ops: seq<Op>)
      requires 0 < byteCount && Valid() && last <= now && forall i :: 0 <= i < |world| ==> Plausible(world[i])
      modifies this
      ensures Valid() && last <= end && now <= end
      ensures Timely(now, ops) && After(Limiter(old(State()), 0.0, 0.0), ops).bucket == State()
      ensures ok ==> Released(Limiter(old(State()), 0.0, 0.0), ops) == byteCount as real
      ensures ok ==> kbps == 0 || Charged(Limiter(old(State()), 0.0, 0.0), ops) == byteCount as real
      ensures !old(closed) && old(kbps) > 0 && (forall i :: 0 <= i < |world| ==> world[i].Timer?) ==>
                ok && kbps == old(kbps) && (sleeps == 0 || Gain((sleeps - 1) as real, Capacity(kbps)) < byteCount as real)
      ensures !old(closed) && old(kbps) > 0 && (forall i :: 0 <= i < |world| ==> world[i].Timer?) ==>
                TakesItsTime(kbps, sleeps, end - now, Lateness(world, sleeps), byteCount as real - old(State()).Refilled(now).tokens)
      ensures old(closed) ==> !ok && sleeps == 0 && end == now && State() == old(State())
      ensures !old(closed) && old(kbps) == 0 ==> ok && sleeps == 0 && end == now
      ensures !old(closed) && (forall i :: 0 <= i < |world| ==> world[i].Timer? || world[i].Retuned?) ==> ok && !closed
    {
      hide *;
      ghost var start := Limiter(State(), 0.0, 0.0);
      end, sleeps, ops := now, 0, [];
      ghost var want := byteCount as real;
      var remaining := byteCount as real;
      ghost var missing := want - State().Refilled(now).tokens;
      ghost var late := 0.0;
      ops := [] + [Begin(remaining)];
      BeginsToServe(now, want);
      ghost var steady := !closed && kbps > 0 && forall i :: 0 <= i < |world| ==> world[i].Timer?;
      ghost var rested := false;
      ghost var kept := !closed && forall i :: 0 <= i < |world| ==> world[i].Timer? || world[i].Retuned?;
      StartsToWait(kbps, want, missing, State().Refilled(now).tokens);
      LatenessStep(world, 0);
      CapacityIs();
      while true
        invariant sleeps == 0 ==> end == now && State() == old(State()) && closed == old(closed) && kbps == old(kbps)
        invariant old(closed) || old(kbps) == 0 ==> sleeps == 0
        invariant kept ==> !closed
        invariant 0.0 < capacity && Valid() && last <= end && now <= end && late == Lateness(world, sleeps)
        invariant 0.0 < remaining <= want && Serving(start, now, ops, end, want, remaining)
        invariant steady ==> !closed && kbps == old(kbps) > 0
        invariant steady ==> Progress(kbps, sleeps, end - now, late, want, missing, remaining, State().Refilled(end).tokens)
        invariant rested ==> State().Refilled(end).tokens >= Least(remaining, capacity)
        decreases if sleeps < |world| then |world| - sleeps else 0,
                  if sleeps < |world| then 0 else Rounds(remaining, capacity) + if rested then 0 else 1
      {
        var wake := if sleeps < |world| then world[sleeps] else Timer(0.0);
        OnTimeIsPlausible();
        var verdict, at, left;
        ghost var size, found := capacity, State().Refilled(end).tokens;
        CapacityIs();
        RefilledIsSound(end);
        verdict, at, left, ops := Round(end, remaining, wake, start, now, want, ops);
        if verdict != Again {
          if steady {
            ServedInTime(kbps, sleeps, end - now, late, want, missing, remaining, found);
          }
          return verdict == Served, at, sleeps, ops;
        }
        if wake.Timer? {
          SleptIsRested(left, kbps, at - end, wake.late, State().Refilled(at).tokens);
          if steady {
            OneSleep(kbps, sleeps, end - now, late, want, missing, remaining, found, left, at - end, wake.late, State().Refilled(at).tokens);
          }
        }
        if rested {
          LeastGrows(found, remaining, size);
          RoundsDrop(remaining, left, size);
        } else {
          RoundsGrow(left, remaining, size);
        }
        CapacityIs();
        LatenessStep(world, sleeps);
        rested := wake.Timer?;
        late := late + if wake.Timer? then wake.late else 0.0;
        end := at;
        sleeps := sleeps + 1;
        remaining := left;
      }
    }
  }
}
