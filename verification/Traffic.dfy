/**
 Traffic history from counter samples: a sample counts what its counters grew by since the
 node's previous sample, or everything if they were reset.
 */
module TrafficStatistics {
  import opened Domain
  import opened Sequences

  /** One sample per node and minute; `at` is the minute's first second. */
  datatype Sample = Sample(node: string, at: int, bytesIn: nat, bytesOut: nat, active: nat)

  datatype Bytes = Bytes(up: nat, down: nat) {
    function Plus(other: Bytes): Bytes {
      Bytes(up + other.up, down + other.down)
    }
  }

  function Nothing(): Bytes {
    Bytes(0, 0)
  }

  const RETENTION: int := 30 * 24 * 60 * 60

  /** What one sample adds to the history. */
  datatype Increment = Increment(node: string, at: int, bytes: Bytes)

  function Grown(before: nat, after: nat): nat {
    if after >= before then after - before else after
  }

  function Growth(prior: Sample, sample: Sample): Bytes {
    Bytes(Grown(prior.bytesIn, sample.bytesIn), Grown(prior.bytesOut, sample.bytesOut))
  }

  // ---------- What the history should be ----------

  /** The node's last sample in the list. */
  function LastOf(samples: seq<Sample>, node: string): Option<Sample> {
    if samples == [] then None
    else if samples[|samples| - 1].node == node then Some(samples[|samples| - 1])
    else LastOf(samples[..|samples| - 1], node)
  }

  /** One increment for each sample that is not its node's first. */
  function Increments(samples: seq<Sample>): seq<Increment> {
    if samples == [] then []
    else
      var before, last := samples[..|samples| - 1], samples[|samples| - 1];
      Increments(before) + match LastOf(before, last.node)
                           case None => []
                           case Some(prior) => [Increment(last.node, last.at, Growth(prior, last))]
  }

  function Window(increments: seq<Increment>, from: int, to: int): seq<Increment> {
    if increments == [] then []
    else
      var last := increments[|increments| - 1];
      Window(increments[..|increments| - 1], from, to) + if from <= last.at <= to then [last] else []
  }

  /** The increments of one class, in order: of one node, or of one interval. */
  function Having<K(==)>(increments: seq<Increment>, classify: Increment -> K, key: K): seq<Increment> {
    if increments == [] then []
    else
      var last := increments[|increments| - 1];
      Having(increments[..|increments| - 1], classify, key) + if classify(last) == key then [last] else []
  }

  function NodeOf(increment: Increment): string {
    increment.node
  }

  /** The start of the interval a time falls into; division truncates toward zero. */
  function BucketOf(at: int, seconds: int): int
    requires seconds > 0
  {
    if at >= 0 then at / seconds * seconds else -((-at) / seconds * seconds)
  }

  /** The interval begins at a multiple of its width, and the time lies in it; before 1970 it lies at its end. */
  ghost predicate Covers(start: int, at: int, seconds: int)
    requires seconds > 0
  {
    start % seconds == 0 && if at >= 0 then start <= at < start + seconds else start - seconds < at <= start
  }

  /** There is one such interval, and it is the one a time is counted in. */
  lemma BucketIff(at: int, start: int, seconds: int)
    requires seconds > 0
    ensures BucketOf(at, seconds) == start <==> Covers(start, at, seconds)
  {
    var size := if at >= 0 then at else -at;
    var whole := size / seconds;
    assert size == whole * seconds + size % seconds;
    Multiple(whole, seconds);
    Multiple(-whole, seconds);
    assert (-whole) * seconds == -(whole * seconds);
    assert Covers(BucketOf(at, seconds), at, seconds);
    if Covers(start, at, seconds) {
      SameMultiple(start, BucketOf(at, seconds), seconds);
    }
  }

  lemma Multiple(q: int, seconds: int)
    requires seconds > 0
    ensures q * seconds % seconds == 0
  {
    var product := q * seconds;
    var p, r := product / seconds, product % seconds;
    assert product == p * seconds + r;
    assert (q - p) * seconds == r;
    if q - p != 0 {
      FarApart(q - p, seconds);
    }
  }

  lemma FarApart(k: int, seconds: int)
    requires seconds > 0 && k != 0
    ensures k * seconds >= seconds || k * seconds <= -seconds
  {
  }

  lemma SameMultiple(a: int, b: int, seconds: int)
    requires seconds > 0 && a % seconds == 0 && b % seconds == 0 && -seconds < a - b < seconds
    ensures a == b
  {
    var p, q := a / seconds, b / seconds;
    assert a == p * seconds && b == q * seconds;
    assert (p - q) * seconds == a - b;
    if p != q {
      FarApart(p - q, seconds);
    }
  }

  function ByBucket(seconds: int): Increment -> int
    requires seconds > 0
  {
    (increment: Increment) => BucketOf(increment.at, seconds)
  }

  function Sum(increments: seq<Increment>): Bytes {
    if increments == [] then Nothing()
    else Sum(increments[..|increments| - 1]).Plus(increments[|increments| - 1].bytes)
  }

  function Classes<K(==)>(increments: seq<Increment>, classify: Increment -> K): set<K> {
    set i | 0 <= i < |increments| :: classify(increments[i])
  }

  /** Each node's samples are in time order, as after the sort. */
  ghost predicate Ordered(samples: seq<Sample>) {
    forall i, j :: 0 <= i < j < |samples| && samples[i].node == samples[j].node ==> samples[i].at < samples[j].at
  }

  /** What sorting by node and time leaves, as one sample per minute makes it strict. */
  ghost predicate SortedByTime(samples: seq<Sample>) {
    forall i, j :: 0 <= i < j < |samples| && samples[i].node == samples[j].node ==> samples[i].at <= samples[j].at
  }

  lemma SumWithLast(increments: seq<Increment>, last: Increment, counts: bool)
    ensures Sum(increments + if counts then [last] else []) == if counts then Sum(increments).Plus(last.bytes) else Sum(increments)
  {
    if counts {
      assert (increments + [last])[..|increments|] == increments;
    } else {
      assert increments + [] == increments;
    }
  }

  /** The last sample in the list is the latest one of its node. */
  lemma {:induction false} LastOfIsLatest(samples: seq<Sample>, node: string)
    requires Ordered(samples)
    ensures match LastOf(samples, node)
            case None => forall i :: 0 <= i < |samples| ==> samples[i].node != node
            case Some(last) =>
              && last in samples && last.node == node
              && forall i :: 0 <= i < |samples| && samples[i].node == node ==> samples[i].at <= last.at
  {
    if samples != [] {
      var n := |samples| - 1;
      LastOfIsLatest(samples[..n], node);
      assert forall i :: 0 <= i < n ==> samples[..n][i] == samples[i];
    }
  }

  // ---------- Main properties of the increments ----------

  lemma SumOfWindow(increments: seq<Increment>, from: int, to: int)
    requires increments != []
    ensures var before, last := increments[..|increments| - 1], increments[|increments| - 1];
            Sum(Window(increments, from, to)) ==
              if from <= last.at <= to then Sum(Window(before, from, to)).Plus(last.bytes) else Sum(Window(before, from, to))
  {
    var before, last := increments[..|increments| - 1], increments[|increments| - 1];
    SumWithLast(Window(before, from, to), last, from <= last.at <= to);
  }

  lemma EmptyWindow(none: seq<Increment>, from: int, to: int)
    requires |none| == 0
    ensures Sum(Window(none, from, to)) == Bytes(0, 0)
  {
  }

  lemma NothingTwice(a: Bytes, b: Bytes)
    requires a == Bytes(0, 0) && b == Bytes(0, 0)
    ensures a.Plus(b) == Bytes(0, 0)
  {
  }

  lemma EitherPart(all: Bytes, first: Bytes, second: Bytes, more: Bytes, inFirst: bool, inSecond: bool)
    requires all == first.Plus(second) && !(inFirst && inSecond)
    ensures (if inFirst || inSecond then all.Plus(more) else all)
         == (if inFirst then first.Plus(more) else first).Plus(if inSecond then second.Plus(more) else second)
  {
  }

  /** Splitting a period in two loses and repeats nothing. */
  lemma {:induction false} WindowsAdd(increments: seq<Increment>, from: int, middle: int, to: int)
    requires from <= middle + 1 && middle <= to
    ensures Sum(Window(increments, from, to)) == Sum(Window(increments, from, middle)).Plus(Sum(Window(increments, middle + 1, to)))
  {
    hide *;
    if increments == [] {
      EmptyWindow(increments, from, to);
      EmptyWindow(increments, from, middle);
      EmptyWindow(increments, middle + 1, to);
      NothingTwice(Sum(Window(increments, from, middle)), Sum(Window(increments, middle + 1, to)));
    } else {
      var before, last := increments[..|increments| - 1], increments[|increments| - 1];
      WindowsAdd(before, from, middle, to);
      SumOfWindow(increments, from, to);
      SumOfWindow(increments, from, middle);
      SumOfWindow(increments, middle + 1, to);
      EitherPart(Sum(Window(before, from, to)), Sum(Window(before, from, middle)), Sum(Window(before, middle + 1, to)),
                 last.bytes, from <= last.at <= middle, middle + 1 <= last.at <= to);
    }
  }

  function NodeSamples(samples: seq<Sample>, node: string): seq<Sample> {
    if samples == [] then []
    else
      var last := samples[|samples| - 1];
      NodeSamples(samples[..|samples| - 1], node) + if last.node == node then [last] else []
  }

  lemma {:induction false} NodeSamplesLast(samples: seq<Sample>, node: string)
    ensures LastOf(NodeSamples(samples, node), node) == LastOf(samples, node)
    ensures forall i :: 0 <= i < |NodeSamples(samples, node)| ==> NodeSamples(samples, node)[i].node == node
  {
    if samples != [] {
      NodeSamplesLast(samples[..|samples| - 1], node);
      assert NodeSamples(samples[..|samples| - 1], node) + [] == NodeSamples(samples[..|samples| - 1], node);
    }
  }

  /** Looking at one node's samples alone gives exactly that node's increments. */
  lemma {:induction false} NodesAreIndependent(samples: seq<Sample>, node: string)
    ensures Increments(NodeSamples(samples, node)) == Having(Increments(samples), NodeOf, node)
  {
    if samples != [] {
      var before, last := samples[..|samples| - 1], samples[|samples| - 1];
      NodesAreIndependent(before, node);
      NodeSamplesLast(before, node);
      var mine := NodeSamples(before, node);
      if last.node == node {
        assert (mine + [last])[..|mine|] == mine;
      } else {
        assert mine + [] == mine;
      }
      var more := Increments(before);
      if LastOf(before, last.node).Some? {
        var extra := Increment(last.node, last.at, Growth(LastOf(before, last.node).value, last));
        assert (more + [extra])[..|more|] == more;
      } else {
        assert more + [] == more;
      }
    }
  }

  ghost predicate OneNode(samples: seq<Sample>, node: string) {
    forall i :: 0 <= i < |samples| ==> samples[i].node == node
  }

  ghost predicate NeverReset(samples: seq<Sample>) {
    forall i, j :: 0 <= i < j < |samples| ==>
      samples[i].bytesIn <= samples[j].bytesIn && samples[i].bytesOut <= samples[j].bytesOut
  }

  function Difference(first: Sample, last: Sample): Bytes
    requires first.bytesIn <= last.bytesIn && first.bytesOut <= last.bytesOut
  {
    Bytes(last.bytesIn - first.bytesIn, last.bytesOut - first.bytesOut)
  }

  /** Without resets, a node's increments add up to the difference of its last and first counters. */
  lemma {:induction false} IncrementsTelescope(samples: seq<Sample>, node: string)
    requires samples != [] && OneNode(samples, node) && NeverReset(samples)
    ensures Sum(Increments(samples)) == Difference(samples[0], samples[|samples| - 1])
  {
    var before, last := samples[..|samples| - 1], samples[|samples| - 1];
    SumOfIncrements(samples);
    if |before| == 0 {
      NoIncrements();
    } else {
      LastOfOne(before, node);
      TelescopeStep(samples, node);
      hide *;
      IncrementsTelescope(before, node);
    }
  }

  /** p is the last sample before the window, or the very first one; q is the last one not after it. */
  ghost predicate Bounds(samples: seq<Sample>, from: int, to: int, p: nat, q: nat) {
    && p <= q < |samples|
    && (p == 0 || samples[p].at < from) && (forall i :: p < i < |samples| ==> samples[i].at >= from)
    && samples[q].at <= to && (forall i :: q < i < |samples| ==> samples[i].at > to)
  }

  ghost predicate NeverResetWithin(samples: seq<Sample>, p: nat, q: nat)
    requires q < |samples|
  {
    forall i, j :: p <= i < j <= q ==>
      samples[i].bytesIn <= samples[j].bytesIn && samples[i].bytesOut <= samples[j].bytesOut
  }

  /** What the counters had reached before each of the resets between the p-th and the q-th sample. */
  ghost function Forgotten(samples: seq<Sample>, p: nat, q: nat): Bytes
    requires p <= q < |samples|
  {
    if p == q then Bytes(0, 0)
    else
      var prior, sample := samples[q - 1], samples[q];
      Forgotten(samples, p, q - 1).Plus(Bytes(if sample.bytesIn < prior.bytesIn then prior.bytesIn else 0,
                                              if sample.bytesOut < prior.bytesOut then prior.bytesOut else 0))
  }

  /**
   The same for any window, resets included: its increments add up to the counters of the last
   sample in it minus those of the last sample before it, plus what the counters had reached
   before every reset inside it.
   */
  lemma {:induction false} WindowTelescopesOverResets(samples: seq<Sample>, node: string, from: int, to: int, p: nat, q: nat)
    requires OneNode(samples, node) && Ordered(samples) && Bounds(samples, from, to, p, q)
    ensures Sum(Window(Increments(samples), from, to)).up + samples[p].bytesIn == samples[q].bytesIn + Forgotten(samples, p, q).up
    ensures Sum(Window(Increments(samples), from, to)).down + samples[p].bytesOut == samples[q].bytesOut + Forgotten(samples, p, q).down
    decreases |samples|
  {
    hide *;
    BoundsMean(samples, node, from, to, p, q);
    var n := |samples| - 1;
    var before := samples[..n];
    if q < n {
      ShorterBounds(samples, node, from, to, p, q, q);
      SameForgotten(before, samples, p, q);
      WindowTelescopesOverResets(before, node, from, to, p, q);
      PastTheWindow(samples, from, to);
    } else if p == n {
      PastTheWindow(samples, from, to);
      NoneInWindow(before, from, to);
      ForgottenStep(samples, p, p);
    } else {
      ShorterBounds(samples, node, from, to, p, q, n - 1);
      SameForgotten(before, samples, p, n - 1);
      WindowTelescopesOverResets(before, node, from, to, p, n - 1);
      OneInWindow(samples, node, from, to);
      ForgottenStep(samples, p, n);
    }
  }

  lemma BoundsMean(samples: seq<Sample>, node: string, from: int, to: int, p: nat, q: nat)
    requires OneNode(samples, node) && Ordered(samples) && Bounds(samples, from, to, p, q)
    ensures var n := |samples| - 1; var last := samples[n];
            && p <= q <= n
            && (q < n ==> last.at > to)
            && (p == n ==> (n == 0 || last.at < from) && forall i :: 0 <= i < n ==> samples[..n][i].at < from)
            && (p < q == n ==> from <= last.at <= to)
  {
  }

  lemma PastTheWindow(samples: seq<Sample>, from: int, to: int)
    requires samples != []
    requires var last := samples[|samples| - 1]; |samples| == 1 || last.at < from || last.at > to
    ensures Sum(Window(Increments(samples), from, to)) == Sum(Window(Increments(samples[..|samples| - 1]), from, to))
  {
    SumOfWindowStep(samples, from, to);
    hide Sum, Window, Increments;
  }

  lemma OneInWindow(samples: seq<Sample>, node: string, from: int, to: int)
    requires OneNode(samples, node) && |samples| > 1 && from <= samples[|samples| - 1].at <= to
    ensures var prior, last := samples[|samples| - 2], samples[|samples| - 1];
            var sum, sum' := Sum(Window(Increments(samples[..|samples| - 1]), from, to)), Sum(Window(Increments(samples), from, to));
            && sum'.up + prior.bytesIn == sum.up + last.bytesIn + (if last.bytesIn < prior.bytesIn then prior.bytesIn else 0)
            && sum'.down + prior.bytesOut == sum.down + last.bytesOut + (if last.bytesOut < prior.bytesOut then prior.bytesOut else 0)
  {
    SumOfWindowStep(samples, from, to);
    LastOfOne(samples[..|samples| - 1], node);
    GrowsOverReset(samples[|samples| - 2], samples[|samples| - 1]);
    hide Sum, Window, Increments, LastOf, Growth;
  }

  lemma ForgottenStep(samples: seq<Sample>, p: nat, q: nat)
    requires p <= q < |samples|
    ensures p == q ==> Forgotten(samples, p, q) == Bytes(0, 0)
    ensures p < q ==>
              var prior, sample := samples[q - 1], samples[q];
              var before, after := Forgotten(samples, p, q - 1), Forgotten(samples, p, q);
              && after.up == before.up + (if sample.bytesIn < prior.bytesIn then prior.bytesIn else 0)
              && after.down == before.down + (if sample.bytesOut < prior.bytesOut then prior.bytesOut else 0)
  {
  }

  /** What a sample adds, told by the counters alone: the new counter, or what it grew by. */
  lemma GrowsOverReset(prior: Sample, sample: Sample)
    ensures Growth(prior, sample).up + prior.bytesIn == sample.bytesIn + if sample.bytesIn < prior.bytesIn then prior.bytesIn else 0
    ensures Growth(prior, sample).down + prior.bytesOut == sample.bytesOut + if sample.bytesOut < prior.bytesOut then prior.bytesOut else 0
  {
  }

  lemma {:induction false} SameForgotten(shorter: seq<Sample>, longer: seq<Sample>, p: nat, q: nat)
    requires p <= q < |shorter| && shorter <= longer
    ensures Forgotten(shorter, p, q) == Forgotten(longer, p, q)
  {
    if p < q {
      SameForgotten(shorter, longer, p, q - 1);
    }
  }

  lemma {:induction false} NothingForgotten(samples: seq<Sample>, p: nat, q: nat)
    requires p <= q < |samples| && NeverResetWithin(samples, p, q)
    ensures Forgotten(samples, p, q) == Bytes(0, 0)
  {
    if p < q {
      NothingForgotten(samples, p, q - 1);
    }
  }

  /** Without resets the sum is the difference of the counters. */
  lemma WindowTelescopes(samples: seq<Sample>, node: string, from: int, to: int, p: nat, q: nat)
    requires OneNode(samples, node) && Ordered(samples) && Bounds(samples, from, to, p, q)
    requires NeverResetWithin(samples, p, q)
    ensures Sum(Window(Increments(samples), from, to)) == Difference(samples[p], samples[q])
  {
    WindowTelescopesOverResets(samples, node, from, to, p, q);
    NothingForgotten(samples, p, q);
  }

  lemma ShorterBounds(samples: seq<Sample>, node: string, from: int, to: int, p: nat, q: nat, shorter: nat)
    requires OneNode(samples, node) && Ordered(samples) && Bounds(samples, from, to, p, q)
    requires p <= shorter <= q && shorter == if q < |samples| - 1 then q else |samples| - 2
    ensures var before := samples[..|samples| - 1];
            && OneNode(before, node) && Ordered(before) && Bounds(before, from, to, p, shorter)
            && before[p] == samples[p] && before[shorter] == samples[shorter]
  {
  }

  lemma SumOfWindowStep(samples: seq<Sample>, from: int, to: int)
    requires samples != []
    ensures var before, last := samples[..|samples| - 1], samples[|samples| - 1];
            Sum(Window(Increments(samples), from, to)) ==
              match LastOf(before, last.node)
              case None => Sum(Window(Increments(before), from, to))
              case Some(prior) =>
                if from <= last.at <= to then Sum(Window(Increments(before), from, to)).Plus(Growth(prior, last))
                else Sum(Window(Increments(before), from, to))
  {
    var before, last := samples[..|samples| - 1], samples[|samples| - 1];
    var known := Increments(before);
    match LastOf(before, last.node)
    case None => assert known + [] == known;
    case Some(prior) =>
      var increment := Increment(last.node, last.at, Growth(prior, last));
      assert (known + [increment])[..|known|] == known;
      SumOfWindow(known + [increment], from, to);
  }

  lemma {:induction false} NoneInWindow(samples: seq<Sample>, from: int, to: int)
    requires forall i :: 0 <= i < |samples| ==> samples[i].at < from
    ensures Sum(Window(Increments(samples), from, to)) == Bytes(0, 0)
  {
    if samples != [] {
      NoneInWindow(samples[..|samples| - 1], from, to);
      SumOfWindowStep(samples, from, to);
    }
  }

  lemma TelescopeStep(samples: seq<Sample>, node: string)
    requires |samples| > 1 && OneNode(samples, node) && NeverReset(samples)
    ensures var before, last := samples[..|samples| - 1], samples[|samples| - 1];
            && OneNode(before, node) && NeverReset(before) && before[0] == samples[0]
            && Difference(before[0], before[|before| - 1]).Plus(Growth(before[|before| - 1], last)) == Difference(samples[0], last)
  {
  }

  lemma LastOfOne(samples: seq<Sample>, node: string)
    requires OneNode(samples, node)
    ensures LastOf(samples, node) == if samples == [] then None else Some(samples[|samples| - 1])
  {
  }

  lemma NoIncrements()
    ensures Sum(Increments([])) == Nothing()
  {
  }

  lemma SumOfIncrements(samples: seq<Sample>)
    requires samples != []
    ensures var before, last := samples[..|samples| - 1], samples[|samples| - 1];
            Sum(Increments(samples)) == match LastOf(before, last.node)
                                        case None => Sum(Increments(before))
                                        case Some(prior) => Sum(Increments(before)).Plus(Growth(prior, last))
  {
    var before, last := samples[..|samples| - 1], samples[|samples| - 1];
    match LastOf(before, last.node)
    case None => assert Increments(before) + [] == Increments(before);
    case Some(prior) => SumWithLast(Increments(before), Increment(last.node, last.at, Growth(prior, last)), true);
  }

  // ---------- Grouping ----------

  /** The sum over some classes, in the order given. */
  function SumOver<K(==)>(increments: seq<Increment>, classify: Increment -> K, keys: seq<K>): Bytes {
    if keys == [] then Nothing()
    else SumOver(increments, classify, keys[..|keys| - 1]).Plus(Sum(Having(increments, classify, keys[|keys| - 1])))
  }

  lemma SumOfHaving<K>(increments: seq<Increment>, classify: Increment -> K, key: K)
    requires increments != []
    ensures var before, last := increments[..|increments| - 1], increments[|increments| - 1];
            Sum(Having(increments, classify, key)) ==
              if classify(last) == key then Sum(Having(before, classify, key)).Plus(last.bytes)
              else Sum(Having(before, classify, key))
  {
    var before, last := increments[..|increments| - 1], increments[|increments| - 1];
    SumWithLast(Having(before, classify, key), last, classify(last) == key);
  }

  /** One more increment goes to exactly the class it belongs to. */
  lemma {:induction false} OneClassGrows<K(!new)>(increments: seq<Increment>, classify: Increment -> K, keys: seq<K>)
    requires increments != [] && AllDifferent(keys)
    ensures var before, last := increments[..|increments| - 1], increments[|increments| - 1];
            SumOver(increments, classify, keys) ==
              if classify(last) in keys then SumOver(before, classify, keys).Plus(last.bytes)
              else SumOver(before, classify, keys)
  {
    hide Having, Sum;
    if keys != [] {
      var fewer, key := keys[..|keys| - 1], keys[|keys| - 1];
      assert keys == fewer + [key];
      OneClassGrows(increments, classify, fewer);
      SumOfHaving(increments, classify, key);
    }
  }

  /** Summing class by class gives the total: each increment is in exactly one class. */
  lemma {:induction false} ClassesPartition<K(!new)>(increments: seq<Increment>, classify: Increment -> K, keys: seq<K>)
    requires AllDifferent(keys) && forall key :: key in Classes(increments, classify) ==> key in keys
    ensures SumOver(increments, classify, keys) == Sum(increments)
  {
    if increments == [] {
      NothingToSum(increments, classify, keys);
    } else {
      var before, last := increments[..|increments| - 1], increments[|increments| - 1];
      forall key | key in Classes(before, classify)
        ensures key in keys
      {
        var i :| 0 <= i < |before| && classify(before[i]) == key;
        assert classify(increments[i]) in Classes(increments, classify);
      }
      assert classify(last) in Classes(increments, classify);
      ClassesPartition(before, classify, keys);
      OneClassGrows(increments, classify, keys);
    }
  }

  lemma {:induction false} NothingToSum<K(!new)>(none: seq<Increment>, classify: Increment -> K, keys: seq<K>)
    requires |none| == 0
    ensures SumOver(none, classify, keys) == Bytes(0, 0)
  {
    if keys != [] {
      NothingToSum(none, classify, keys[..|keys| - 1]);
      assert Having(none, classify, keys[|keys| - 1]) == none;
      assert Sum(none) == Bytes(0, 0);
    }
  }

  lemma HavingWithLast<K>(before: seq<Increment>, last: Increment, classify: Increment -> K, key: K)
    ensures Having(before + [last], classify, key)
         == if classify(last) == key then Having(before, classify, key) + [last] else Having(before, classify, key)
  {
    assert (before + [last])[..|before|] == before;
    assert Having(before, classify, key) + [] == Having(before, classify, key);
  }

  lemma WindowWithLast(before: seq<Increment>, last: Increment, from: int, to: int)
    ensures Window(before + [last], from, to)
         == if from <= last.at <= to then Window(before, from, to) + [last] else Window(before, from, to)
  {
    assert (before + [last])[..|before|] == before;
    assert Window(before, from, to) + [] == Window(before, from, to);
  }

  lemma WindowOfHavingWithLast<K>(before: seq<Increment>, last: Increment, classify: Increment -> K, key: K, from: int, to: int)
    requires Window(Having(before, classify, key), from, to) == Having(Window(before, from, to), classify, key)
    ensures Window(Having(before + [last], classify, key), from, to) == Having(Window(before + [last], from, to), classify, key)
  {
    hide Having, Window;
    HavingWithLast(before, last, classify, key);
    WindowWithLast(before, last, from, to);
    if classify(last) == key {
      WindowWithLast(Having(before, classify, key), last, from, to);
    }
    if from <= last.at <= to {
      HavingWithLast(Window(before, from, to), last, classify, key);
    }
  }

  lemma {:induction false} WindowOfHaving<K>(increments: seq<Increment>, classify: Increment -> K, key: K, from: int, to: int)
    ensures Window(Having(increments, classify, key), from, to) == Having(Window(increments, from, to), classify, key)
  {
    if increments != [] {
      var before, last := increments[..|increments| - 1], increments[|increments| - 1];
      WindowOfHaving(before, classify, key, from, to);
      WindowOfHavingWithLast(before, last, classify, key, from, to);
      assert before + [last] == increments;
    }
  }

  lemma HavingBothWithLast<K, L>(before: seq<Increment>, last: Increment, first: Increment -> K, k: K, second: Increment -> L, l: L)
    requires Having(Having(before, first, k), second, l) == Having(Having(before, second, l), first, k)
    ensures Having(Having(before + [last], first, k), second, l) == Having(Having(before + [last], second, l), first, k)
  {
    hide Having;
    HavingWithLast(before, last, first, k);
    HavingWithLast(before, last, second, l);
    if first(last) == k {
      HavingWithLast(Having(before, first, k), last, second, l);
    }
    if second(last) == l {
      HavingWithLast(Having(before, second, l), last, first, k);
    }
  }

  lemma {:induction false} HavingBoth<K, L>(increments: seq<Increment>, first: Increment -> K, k: K, second: Increment -> L, l: L)
    ensures Having(Having(increments, first, k), second, l) == Having(Having(increments, second, l), first, k)
  {
    if increments != [] {
      var before, last := increments[..|increments| - 1], increments[|increments| - 1];
      HavingBoth(before, first, k, second, l);
      HavingBothWithLast(before, last, first, k, second, l);
      assert before + [last] == increments;
    }
  }

  /** Per interval, the whole history is the sum of the histories of the nodes. */
  lemma HistoryIsSumOfNodes(samples: seq<Sample>, from: int, to: int, seconds: int, bucket: int, nodes: seq<string>)
    requires seconds > 0 && AllDifferent(nodes)
    requires forall i :: 0 <= i < |samples| ==> samples[i].node in nodes
    ensures var inBucket := Having(Window(Increments(samples), from, to), ByBucket(seconds), bucket);
            && Sum(inBucket) == SumOver(inBucket, NodeOf, nodes)
            && forall node :: Having(inBucket, NodeOf, node)
                           == Having(Window(Increments(NodeSamples(samples, node)), from, to), ByBucket(seconds), bucket)
  {
    var window := Window(Increments(samples), from, to);
    var inBucket := Having(window, ByBucket(seconds), bucket);
    ClassOfPart(samples, from, to, ByBucket(seconds), bucket, nodes);
    ClassesPartition(inBucket, NodeOf, nodes);
    forall node
      ensures Having(inBucket, NodeOf, node)
           == Having(Window(Increments(NodeSamples(samples, node)), from, to), ByBucket(seconds), bucket)
    {
      NodesAreIndependent(samples, node);
      WindowOfHaving(Increments(samples), NodeOf, node, from, to);
      HavingBoth(window, ByBucket(seconds), bucket, NodeOf, node);
    }
  }

  lemma {:induction false} KnownNodes(samples: seq<Sample>, nodes: seq<string>)
    requires forall i :: 0 <= i < |samples| ==> samples[i].node in nodes
    ensures forall x :: x in Increments(samples) ==> x.node in nodes
  {
    if samples != [] {
      KnownNodes(samples[..|samples| - 1], nodes);
    }
  }

  lemma {:induction false} PartMembers<K>(increments: seq<Increment>, from: int, to: int, classify: Increment -> K, key: K)
    ensures forall x :: x in Window(increments, from, to) ==> x in increments && from <= x.at <= to
    ensures forall x :: x in Having(increments, classify, key) ==> x in increments && classify(x) == key
  {
    if increments != [] {
      PartMembers(increments[..|increments| - 1], from, to, classify, key);
    }
  }

  lemma ClassOfPart<K(!new)>(samples: seq<Sample>, from: int, to: int, classify: Increment -> K, key: K, nodes: seq<string>)
    requires forall i :: 0 <= i < |samples| ==> samples[i].node in nodes
    ensures forall node :: node in Classes(Having(Window(Increments(samples), from, to), classify, key), NodeOf) ==> node in nodes
  {
    KnownNodes(samples, nodes);
    PartMembers(Increments(samples), from, to, classify, key);
    PartMembers(Window(Increments(samples), from, to), from, to, classify, key);
  }

  // ---------- The queries ----------

  datatype Point = Point(at: int, bytes: Bytes)

  ghost predicate Chronological(points: seq<Point>) {
    forall i, j :: 0 <= i < j < |points| ==> points[i].at < points[j].at
  }

  ghost function Times(points: seq<Point>): set<int> {
    set i | 0 <= i < |points| :: points[i].at
  }

  function Total(points: seq<Point>): Bytes {
    if points == [] then Nothing() else Total(points[..|points| - 1]).Plus(points[|points| - 1].bytes)
  }

  /** The table holds, for each interval with an increment, the sum of that interval's increments. */
  ghost predicate Tallies(table: map<int, Bytes>, increments: seq<Increment>, seconds: int)
    requires seconds > 0
  {
    && table.Keys == Classes(increments, ByBucket(seconds))
    && forall bucket :: bucket in table ==> table[bucket] == Sum(Having(increments, ByBucket(seconds), bucket))
  }

  /** What one more sample contributes to the window, given the node's sample before it. */
  function Contribution(prior: Option<Sample>, sample: Sample, from: int, to: int): seq<Increment> {
    if prior.Some? && from <= sample.at <= to then [Increment(sample.node, sample.at, Growth(prior.value, sample))] else []
  }

  lemma WindowStep(before: seq<Sample>, sample: Sample, from: int, to: int)
    ensures Window(Increments(before + [sample]), from, to)
         == Window(Increments(before), from, to) + Contribution(LastOf(before, sample.node), sample, from, to)
  {
    var more := before + [sample];
    assert more[..|more| - 1] == before;
    var known := Increments(before);
    match LastOf(before, sample.node)
    case None => assert known + [] == known;
    case Some(prior) =>
      var increment := Increment(sample.node, sample.at, Growth(prior, sample));
      assert (known + [increment])[..|known|] == known;
  }

  lemma HavingStep<K>(increments: seq<Increment>, last: Increment, classify: Increment -> K, key: K)
    ensures Sum(Having(increments + [last], classify, key)) ==
              if classify(last) == key then Sum(Having(increments, classify, key)).Plus(last.bytes)
              else Sum(Having(increments, classify, key))
  {
    assert (increments + [last])[..|increments|] == increments;
    SumOfHaving(increments + [last], classify, key);
  }

  lemma {:induction false} NothingYet<K>(increments: seq<Increment>, classify: Increment -> K, key: K)
    requires key !in Classes(increments, classify)
    ensures Sum(Having(increments, classify, key)) == Bytes(0, 0)
  {
    if increments != [] {
      var before, last := increments[..|increments| - 1], increments[|increments| - 1];
      assert increments == before + [last];
      ClassesStep(before, last, classify);
      NothingYet(before, classify, key);
      SumOfHaving(increments, classify, key);
    }
  }

  lemma ClassesStep<K>(increments: seq<Increment>, last: Increment, classify: Increment -> K)
    ensures Classes(increments + [last], classify) == Classes(increments, classify) + {classify(last)}
  {
    var more := increments + [last];
    forall i | 0 <= i < |increments|
      ensures classify(increments[i]) in Classes(more, classify)
    {
      assert more[i] == increments[i];
    }
    assert more[|increments|] == last;
  }

  /** Add one increment to the table. */
  method Tally(table: map<int, Bytes>, ghost increments: seq<Increment>, increment: Increment, seconds: int)
    returns (next: map<int, Bytes>)
    requires seconds > 0 && Tallies(table, increments, seconds)
    ensures Tallies(next, increments + [increment], seconds)
  {
    var bucket := BucketOf(increment.at, seconds);
    var point := if bucket in table then table[bucket] else Bytes(0, 0);
    next := table[bucket := point.Plus(increment.bytes)];
    ClassesStep(increments, increment, ByBucket(seconds));
    if bucket !in table {
      NothingYet(increments, ByBucket(seconds), bucket);
    }
    forall key | key in next
      ensures next[key] == Sum(Having(increments + [increment], ByBucket(seconds), key))
    {
      HavingStep(increments, increment, ByBucket(seconds), key);
    }
  }

  /** `previous` holds each node's last counters, except for nodes already past the window. */
  ghost predicate Remembers(previous: map<string, Bytes>, samples: seq<Sample>, to: int) {
    forall node ::
      match LastOf(samples, node)
      case None => node !in previous
      case Some(last) => last.at <= to ==> node in previous && previous[node] == Bytes(last.bytesIn, last.bytesOut)
  }

  lemma RemembersStep(previous: map<string, Bytes>, before: seq<Sample>, sample: Sample, to: int)
    requires Remembers(previous, before, to)
    ensures sample.at <= to ==>
              Remembers(previous[sample.node := Bytes(sample.bytesIn, sample.bytesOut)], before + [sample], to)
    ensures sample.at > to ==> Remembers(previous, before + [sample], to)
  {
    assert (before + [sample])[..|before|] == before;
  }

  /** One pass of the loop: samples after the window are passed over, a node's first one only remembered. */
  method TallyStep(previous: map<string, Bytes>, table: map<int, Bytes>, ghost before: seq<Sample>, sample: Sample,
                   from: int, to: int, seconds: int)
    returns (next: map<string, Bytes>, tallied: map<int, Bytes>)
    requires seconds > 0 && Remembers(previous, before, to)
    requires LastOf(before, sample.node).Some? ==> LastOf(before, sample.node).value.at < sample.at
    requires Tallies(table, Window(Increments(before), from, to), seconds)
    ensures Remembers(next, before + [sample], to)
    ensures Tallies(tallied, Window(Increments(before + [sample]), from, to), seconds)
  {
    WindowStep(before, sample, from, to);
    RemembersStep(previous, before, sample, to);
    ghost var window := Window(Increments(before), from, to);
    assert window + [] == window;
    var known := sample.node in previous;
    var prior := if known then previous[sample.node] else Bytes(0, 0);
    assert sample.at <= to ==>
      match LastOf(before, sample.node)
      case None => !known
      case Some(last) => known && prior == Bytes(last.bytesIn, last.bytesOut);
    hide Window, Increments, Tallies, LastOf, Remembers;
    if sample.at > to {
      return previous, table;
    }
    next, tallied := previous[sample.node := Bytes(sample.bytesIn, sample.bytesOut)], table;
    if sample.at < from || !known {
      return;
    }
    var growth := Bytes(Grown(prior.up, sample.bytesIn), Grown(prior.down, sample.bytesOut));
    tallied := Tally(table, window, Increment(sample.node, sample.at, growth), seconds);
  }

  method TallyAll(samples: seq<Sample>, from: int, to: int, seconds: int) returns (table: map<int, Bytes>)
    requires seconds > 0 && Ordered(samples)
    ensures Tallies(table, Window(Increments(samples), from, to), seconds)
  {
    table := map[];
    var previous: map<string, Bytes> := map[];
    for i := 0 to |samples|
      invariant Remembers(previous, samples[..i], to)
      invariant Tallies(table, Window(Increments(samples[..i]), from, to), seconds)
    {
      assert samples[..i + 1] == samples[..i] + [samples[i]];
      PriorInTime(samples, i);
      previous, table := TallyStep(previous, table, samples[..i], samples[i], from, to, seconds);
    }
    assert samples[..|samples|] == samples;
  }

  ghost predicate Increasing(keys: seq<int>) {
    forall i, j :: 0 <= i < j < |keys| ==> keys[i] < keys[j]
  }

  method Any<K(==)>(keys: set<K>) returns (key: K)
    requires keys != {}
    ensures key in keys
  {
    key :| key in keys;
  }

  /** The keys in increasing order. */
  method SortedKeys(keys: set<int>) returns (sorted: seq<int>)
    ensures Increasing(sorted) && Elements(sorted) == keys
  {
    sorted := [];
    var todo := keys;
    while todo != {}
      invariant todo <= keys && Increasing(sorted) && Elements(sorted) == keys - todo
      decreases todo
    {
      var key := Any(todo);
      assert forall i :: 0 <= i < |sorted| ==> sorted[i] in Elements(sorted);
      sorted := Insert(sorted, key);
      todo := todo - {key};
    }
  }

  method Insert(sorted: seq<int>, key: int) returns (more: seq<int>)
    requires Increasing(sorted) && forall i :: 0 <= i < |sorted| ==> sorted[i] != key
    ensures Increasing(more) && Elements(more) == Elements(sorted) + {key}
  {
    var k := |sorted|;
    while k > 0 && sorted[k - 1] > key
      invariant 0 <= k <= |sorted| && forall i :: k <= i < |sorted| ==> key < sorted[i]
    {
      k := k - 1;
    }
    more := sorted[..k] + [key] + sorted[k..];
    InsertedElements(sorted, k, key);
  }

  ghost predicate Falls(times: set<int>, start: int, seconds: int)
    requires seconds > 0
  {
    exists at :: at in times && Covers(start, at, seconds)
  }

  ghost predicate IsCovered(points: seq<Point>, at: int, seconds: int)
    requires seconds > 0
  {
    exists i :: 0 <= i < |points| && Covers(points[i].at, at, seconds)
  }

  /** Every point is at the start of an interval with one of the times in it, and none of them is without a point. */
  ghost predicate OnIntervals(points: seq<Point>, times: set<int>, seconds: int)
    requires seconds > 0
  {
    && (forall i :: 0 <= i < |points| ==> Falls(times, points[i].at, seconds))
    && (forall at :: at in times ==> IsCovered(points, at, seconds))
  }

  lemma PointsAreIntervals(points: seq<Point>, times: set<int>, seconds: int)
    requires seconds > 0 && Times(points) == set at | at in times :: BucketOf(at, seconds)
    ensures OnIntervals(points, times, seconds)
  {
    forall i | 0 <= i < |points|
      ensures Falls(times, points[i].at, seconds)
    {
      assert points[i].at in Times(points);
      var at :| at in times && BucketOf(at, seconds) == points[i].at;
      BucketIff(at, points[i].at, seconds);
    }
    forall at | at in times
      ensures IsCovered(points, at, seconds)
    {
      assert BucketOf(at, seconds) in Times(points);
      var i :| 0 <= i < |points| && points[i].at == BucketOf(at, seconds);
      BucketIff(at, points[i].at, seconds);
    }
  }

  ghost function TimesOf(increments: seq<Increment>): set<int> {
    set i | 0 <= i < |increments| :: increments[i].at
  }

  lemma TrafficIsOnIntervals(points: seq<Point>, increments: seq<Increment>, seconds: int)
    requires seconds > 0 && Times(points) == Classes(increments, ByBucket(seconds))
    ensures OnIntervals(points, TimesOf(increments), seconds)
  {
    var times := TimesOf(increments);
    forall i | 0 <= i < |increments|
      ensures increments[i].at in times && ByBucket(seconds)(increments[i]) == BucketOf(increments[i].at, seconds)
    {
    }
    assert Times(points) == set at | at in times :: BucketOf(at, seconds);
    PointsAreIntervals(points, times, seconds);
  }

  /** The times of the node's samples in the window. */
  ghost function SampledTimes(samples: seq<Sample>, node: string, from: int, to: int): set<int> {
    set i | 0 <= i < |samples| && samples[i].node == node && from <= samples[i].at <= to :: samples[i].at
  }

  lemma NodeIsOnIntervals(points: seq<Point>, samples: seq<Sample>, node: string, from: int, to: int, seconds: int)
    requires seconds > 0 && Times(points) == SampledBuckets(samples, node, from, to, seconds)
    ensures OnIntervals(points, SampledTimes(samples, node, from, to), seconds)
  {
    var times := SampledTimes(samples, node, from, to);
    assert Times(points) == set at | at in times :: BucketOf(at, seconds);
    PointsAreIntervals(points, times, seconds);
  }

  /** What a point sums are the increments its interval covers. */
  lemma {:induction false} HavingExactly(increments: seq<Increment>, seconds: int, start: int, increment: Increment)
    requires seconds > 0
    ensures increment in Having(increments, ByBucket(seconds), start) <==> increment in increments && Covers(start, increment.at, seconds)
  {
    BucketIff(increment.at, start, seconds);
    if increments != [] {
      var before, last := increments[..|increments| - 1], increments[|increments| - 1];
      HavingExactly(before, seconds, start, increment);
      assert increments == before + [last];
    }
    hide Covers, BucketOf;
  }

  /** The points of a table, in time order. */
  method PointsOf(table: map<int, Bytes>) returns (points: seq<Point>)
    ensures Chronological(points) && Times(points) == table.Keys
    ensures forall i :: 0 <= i < |points| ==> points[i].at in table && points[i].bytes == table[points[i].at]
  {
    var keys := SortedKeys(table.Keys);
    points := [];
    for i := 0 to |keys|
      invariant |points| == i
      invariant forall k :: 0 <= k < i ==> keys[k] in table && points[k] == Point(keys[k], table[keys[k]])
    {
      assert keys[i] in Elements(keys);
      points := points + [Point(keys[i], table[keys[i]])];
    }
    assert Times(points) == Elements(keys);
  }

  /** The points sum the classes of their times, so their total is the window's, whatever the interval. */
  lemma {:induction false} TotalIsSumOver(points: seq<Point>, increments: seq<Increment>, seconds: int, times: seq<int>)
    requires seconds > 0 && |times| == |points| && forall i :: 0 <= i < |points| ==> times[i] == points[i].at
    requires forall i :: 0 <= i < |points| ==> points[i].bytes == Sum(Having(increments, ByBucket(seconds), points[i].at))
    ensures Total(points) == SumOver(increments, ByBucket(seconds), times)
  {
    if points != [] {
      TotalIsSumOver(points[..|points| - 1], increments, seconds, times[..|times| - 1]);
    }
  }

  lemma TotalIsWidthFree(points: seq<Point>, increments: seq<Increment>, seconds: int)
    requires seconds > 0 && Chronological(points) && Times(points) == Classes(increments, ByBucket(seconds))
    requires forall i :: 0 <= i < |points| ==> points[i].bytes == Sum(Having(increments, ByBucket(seconds), points[i].at))
    ensures Total(points) == Sum(increments)
  {
    var times := seq(|points|, i requires 0 <= i < |points| => points[i].at);
    TotalIsSumOver(points, increments, seconds, times);
    forall key | key in Classes(increments, ByBucket(seconds))
      ensures key in times
    {
      assert key in Times(points);
      var i :| 0 <= i < |points| && points[i].at == key;
      assert times[i] == key;
    }
    ClassesPartition(increments, ByBucket(seconds), times);
  }

  /**
   The samples arrive sorted. The points are the intervals with an increment, in order; each
   holds the sum of its own; and their total does not depend on the interval's width.
   */
  method TrafficHistory(samples: seq<Sample>, from: int, to: int, seconds: int) returns (points: seq<Point>)
    requires seconds > 0 && SortedByTime(samples) && OnePerMinute(samples)
    ensures Chronological(points) && Times(points) == Classes(Window(Increments(samples), from, to), ByBucket(seconds))
    ensures forall i :: 0 <= i < |points| ==>
              points[i].bytes == Sum(Having(Window(Increments(samples), from, to), ByBucket(seconds), points[i].at))
    ensures Total(points) == Sum(Window(Increments(samples), from, to))
    ensures OnIntervals(points, TimesOf(Window(Increments(samples), from, to)), seconds)
  {
    assert Ordered(samples);
    var table := TallyAll(samples, from, to, seconds);
    points := PointsOf(table);
    TotalIsWidthFree(points, Window(Increments(samples), from, to), seconds);
    TrafficIsOnIntervals(points, Window(Increments(samples), from, to), seconds);
  }

  // ---------- One node's history ----------

  /** Every interval with a sample of the node has a point, with or without an increment. */
  ghost function SampledBuckets(samples: seq<Sample>, node: string, from: int, to: int, seconds: int): set<int>
    requires seconds > 0
  {
    set i | 0 <= i < |samples| && samples[i].node == node && from <= samples[i].at <= to :: BucketOf(samples[i].at, seconds)
  }

  method NodeMetricHistory(samples: seq<Sample>, node: string, from: int, to: int, seconds: int) returns (points: seq<Point>)
    requires seconds > 0 && SortedByTime(samples) && OnePerMinute(samples)
    ensures Chronological(points) && Times(points) == SampledBuckets(samples, node, from, to, seconds)
    ensures forall i :: 0 <= i < |points| ==>
              points[i].bytes ==
              Sum(Having(Window(Increments(NodeSamples(samples, node)), from, to), ByBucket(seconds), points[i].at))
    ensures OnIntervals(points, SampledTimes(samples, node, from, to), seconds)
  {
    assert Ordered(samples);
    var table: map<int, Bytes> := map[];
    var previous: Option<Bytes> := None;
    for i := 0 to |samples|
      invariant NodeRemembers(previous, LastOf(samples[..i], node), to)
      invariant NodeTallies(table, Window(Increments(NodeSamples(samples[..i], node)), from, to), seconds)
      invariant table.Keys == SampledBuckets(samples[..i], node, from, to, seconds)
    {
      assert samples[..i + 1] == samples[..i] + [samples[i]];
      PriorInTime(samples, i);
      previous, table := NodeStep(previous, table, samples[..i], samples[i], node, from, to, seconds);
    }
    assert samples[..|samples|] == samples;
    points := PointsOf(table);
    NodeIsOnIntervals(points, samples, node, from, to, seconds);
  }

  /** One pass of the loop: samples of other nodes and after the window are passed over. */
  method NodeStep(previous: Option<Bytes>, table: map<int, Bytes>, ghost before: seq<Sample>, sample: Sample, node: string,
                  from: int, to: int, seconds: int)
    returns (next: Option<Bytes>, tallied: map<int, Bytes>)
    requires seconds > 0 && NodeRemembers(previous, LastOf(before, node), to)
    requires LastOf(before, node).Some? && sample.node == node ==> LastOf(before, node).value.at < sample.at
    requires NodeTallies(table, Window(Increments(NodeSamples(before, node)), from, to), seconds)
    requires table.Keys == SampledBuckets(before, node, from, to, seconds)
    ensures NodeRemembers(next, LastOf(before + [sample], node), to)
    ensures NodeTallies(tallied, Window(Increments(NodeSamples(before + [sample], node)), from, to), seconds)
    ensures tallied.Keys == SampledBuckets(before + [sample], node, from, to, seconds)
  {
    hide *;
    SampleCounts(previous, before, sample, node, from, to, seconds);
    ghost var window := Window(Increments(NodeSamples(before, node)), from, to);
    assert window + [] == window;
    if sample.node != node || sample.at > to {
      return previous, table;
    }
    next, tallied := Some(Bytes(sample.bytesIn, sample.bytesOut)), table;
    if sample.at < from {
      return;
    }
    var growth := match previous
      case Some(counters) => Some(Bytes(Grown(counters.up, sample.bytesIn), Grown(counters.down, sample.bytesOut)))
      case None => None;
    tallied := NodeTally(table, window, sample.at, node, growth, seconds);
  }

  /** One more sample: what it adds to the node's window, and what is remembered after it. */
  lemma SampleCounts(previous: Option<Bytes>, before: seq<Sample>, sample: Sample, node: string, from: int, to: int, seconds: int)
    requires seconds > 0 && NodeRemembers(previous, LastOf(before, node), to)
    requires LastOf(before, node).Some? && sample.node == node ==> LastOf(before, node).value.at < sample.at
    ensures var counts := sample.node == node && from <= sample.at <= to;
            && SampledBuckets(before + [sample], node, from, to, seconds)
               == SampledBuckets(before, node, from, to, seconds) + (if counts then {BucketOf(sample.at, seconds)} else {})
            && Window(Increments(NodeSamples(before + [sample], node)), from, to)
               == Window(Increments(NodeSamples(before, node)), from, to)
                  + (if counts && previous.Some?
                     then [Increment(node, sample.at, Bytes(Grown(previous.value.up, sample.bytesIn), Grown(previous.value.down, sample.bytesOut)))]
                     else [])
    ensures NodeRemembers(if sample.node == node && sample.at <= to then Some(Bytes(sample.bytesIn, sample.bytesOut)) else previous,
                          LastOf(before + [sample], node), to)
  {
    ghost var mine := NodeSamples(before, node);
    NodeSamplesStep(before, sample, node);
    WindowStep(mine, sample, from, to);
    SampledStep(before, sample, node, from, to, seconds);
    var window := Window(Increments(mine), from, to);
    assert window + [] == window;
    hide Window, Increments, NodeSamples, SampledBuckets, LastOf, BucketOf;
  }

  lemma NodeSamplesStep(before: seq<Sample>, sample: Sample, node: string)
    ensures NodeSamples(before + [sample], node) == if sample.node == node then NodeSamples(before, node) + [sample] else NodeSamples(before, node)
    ensures LastOf(before + [sample], node) == if sample.node == node then Some(sample) else LastOf(before, node)
    ensures LastOf(NodeSamples(before, node), node) == LastOf(before, node)
  {
    assert (before + [sample])[..|before|] == before;
    assert NodeSamples(before, node) + [] == NodeSamples(before, node);
    NodeSamplesLast(before, node);
  }

  lemma PriorInTime(samples: seq<Sample>, i: nat)
    requires Ordered(samples) && i < |samples|
    ensures var prior := LastOf(samples[..i], samples[i].node); prior.Some? ==> prior.value.at < samples[i].at
  {
    LastOfIsLatest(samples[..i], samples[i].node);
  }

  ghost predicate NodeRemembers(previous: Option<Bytes>, last: Option<Sample>, to: int) {
    match last
    case None => previous.None?
    case Some(sample) => sample.at <= to ==> previous == Some(Bytes(sample.bytesIn, sample.bytesOut))
  }

  /** Like `Tallies`, with empty points for intervals that have a sample but no increment. */
  ghost predicate NodeTallies(table: map<int, Bytes>, increments: seq<Increment>, seconds: int)
    requires seconds > 0
  {
    && Classes(increments, ByBucket(seconds)) <= table.Keys
    && forall bucket :: bucket in table ==> table[bucket] == Sum(Having(increments, ByBucket(seconds), bucket))
  }

  /** Add one sample of the node to its interval, if its growth is known. */
  method NodeTally(table: map<int, Bytes>, ghost increments: seq<Increment>, at: int, ghost node: string, growth: Option<Bytes>,
                   seconds: int)
    returns (next: map<int, Bytes>)
    requires seconds > 0 && NodeTallies(table, increments, seconds)
    ensures next.Keys == table.Keys + {BucketOf(at, seconds)}
    ensures NodeTallies(next, increments + if growth.Some? then [Increment(node, at, growth.value)] else [], seconds)
  {
    var bucket := BucketOf(at, seconds);
    var point := if bucket in table then table[bucket] else Bytes(0, 0);
    if bucket !in table {
      NothingYet(increments, ByBucket(seconds), bucket);
    }
    if growth.None? {
      assert increments + [] == increments;
      return table[bucket := point];
    }
    next := table[bucket := point.Plus(growth.value)];
    ghost var increment := Increment(node, at, growth.value);
    ClassesStep(increments, increment, ByBucket(seconds));
    forall key | key in next
      ensures next[key] == Sum(Having(increments + [increment], ByBucket(seconds), key))
    {
      HavingStep(increments, increment, ByBucket(seconds), key);
    }
  }

  lemma SampledStep(before: seq<Sample>, sample: Sample, node: string, from: int, to: int, seconds: int)
    requires seconds > 0
    ensures SampledBuckets(before + [sample], node, from, to, seconds) == SampledBuckets(before, node, from, to, seconds)
              + if sample.node == node && from <= sample.at <= to then {BucketOf(sample.at, seconds)} else {}
  {
    var more := before + [sample];
    forall i | 0 <= i < |before| && before[i].node == node && from <= before[i].at <= to
      ensures BucketOf(before[i].at, seconds) in SampledBuckets(more, node, from, to, seconds)
    {
      assert more[i] == before[i];
    }
    assert more[|before|] == sample;
  }

  // ---------- Recording ----------

  /** The whole minute a time belongs to. */
  function Minute(at: int): int {
    at - at % 60
  }

  ghost predicate OnePerMinute(samples: seq<Sample>) {
    forall i, j :: 0 <= i < j < |samples| ==> samples[i].node != samples[j].node || samples[i].at != samples[j].at
  }

  predicate SamePlace(sample: Sample, latest: Sample) {
    sample.node == latest.node && sample.at == latest.at
  }

  /** Without the samples that are too old, and with the node's sample of this minute replaced. */
  function Refreshed(samples: seq<Sample>, latest: Sample, cutoff: int): seq<Sample> {
    if samples == [] then []
    else
      var last := samples[|samples| - 1];
      Refreshed(samples[..|samples| - 1], latest, cutoff)
      + if last.at < cutoff then [] else if SamePlace(last, latest) then [latest] else [last]
  }

  function Recorded(samples: seq<Sample>, latest: Sample, cutoff: int): seq<Sample> {
    var refreshed := Refreshed(samples, latest, cutoff);
    if latest in refreshed then refreshed else refreshed + [latest]
  }

  /** Nothing but old samples is lost, and nothing but the minute's own sample is changed. */
  lemma {:induction false} RefreshedExactly(samples: seq<Sample>, latest: Sample, cutoff: int, sample: Sample)
    requires sample.node != latest.node || sample.at != latest.at
    ensures sample in Refreshed(samples, latest, cutoff) <==> sample in samples && sample.at >= cutoff
  {
    if samples != [] {
      var before, last := samples[..|samples| - 1], samples[|samples| - 1];
      RefreshedExactly(before, latest, cutoff, sample);
      assert samples == before + [last];
    }
  }

  lemma {:induction false} RefreshedOwn(samples: seq<Sample>, latest: Sample, cutoff: int, sample: Sample)
    requires sample in Refreshed(samples, latest, cutoff) && SamePlace(sample, latest)
    ensures sample == latest && exists i :: 0 <= i < |samples| && SamePlace(samples[i], latest)
  {
    var before, last := samples[..|samples| - 1], samples[|samples| - 1];
    if sample in Refreshed(before, latest, cutoff) {
      RefreshedOwn(before, latest, cutoff, sample);
      var i :| 0 <= i < |before| && SamePlace(before[i], latest);
      assert SamePlace(samples[i], latest);
    } else {
      assert SamePlace(samples[|samples| - 1], latest);
    }
  }

  lemma {:induction false} RefreshedKeepsMinutes(samples: seq<Sample>, latest: Sample, cutoff: int)
    requires OnePerMinute(samples)
    ensures OnePerMinute(Refreshed(samples, latest, cutoff))
  {
    if samples != [] {
      var before, last := samples[..|samples| - 1], samples[|samples| - 1];
      RefreshedKeepsMinutes(before, latest, cutoff);
      forall x | x in Refreshed(before, latest, cutoff)
        ensures x.node != last.node || x.at != last.at
      {
        if SamePlace(x, latest) {
          RefreshedOwn(before, latest, cutoff, x);
        } else {
          RefreshedExactly(before, latest, cutoff, x);
        }
      }
    }
  }

  /** A minute's sample is added or replaced, so there is always exactly one. */
  lemma RecordedKeepsMinutes(samples: seq<Sample>, latest: Sample, cutoff: int)
    requires OnePerMinute(samples)
    ensures OnePerMinute(Recorded(samples, latest, cutoff)) && latest in Recorded(samples, latest, cutoff)
  {
    RefreshedKeepsMinutes(samples, latest, cutoff);
    var refreshed := Refreshed(samples, latest, cutoff);
    forall i | 0 <= i < |refreshed| && SamePlace(refreshed[i], latest)
      ensures latest in refreshed
    {
      RefreshedOwn(samples, latest, cutoff, refreshed[i]);
    }
  }

  /** The node's minute has this sample and no other; of the rest nothing is lost but what is over thirty days old. */
  ghost predicate IsRecorded(before: seq<Sample>, after: seq<Sample>, node: string, now: int, bytesIn: nat, bytesOut: nat, active: nat) {
    exists minute ::
      && minute % 60 == 0 && minute <= now < minute + 60
      && (forall sample: Sample :: sample.node == node && sample.at == minute ==>
            (sample in after <==> sample.bytesIn == bytesIn && sample.bytesOut == bytesOut && sample.active == active))
      && (forall sample: Sample :: sample.node != node || sample.at != minute ==>
            (sample in after <==> sample in before && sample.at >= minute - 30 * 24 * 60 * 60))
  }

  lemma RecordedExactly(samples: seq<Sample>, node: string, now: int, bytesIn: nat, bytesOut: nat, active: nat)
    requires OnePerMinute(samples)
    ensures var latest := Sample(node, Minute(now), bytesIn, bytesOut, active);
            IsRecorded(samples, Recorded(samples, latest, Minute(now) - RETENTION), node, now, bytesIn, bytesOut, active)
  {
    var minute, latest := Minute(now), Sample(node, Minute(now), bytesIn, bytesOut, active);
    var cutoff := minute - RETENTION;
    var after := Recorded(samples, latest, cutoff);
    RecordedKeepsMinutes(samples, latest, cutoff);
    forall sample: Sample
      ensures sample.node == node && sample.at == minute ==> (sample in after <==> sample == latest)
      ensures sample.node != node || sample.at != minute ==> (sample in after <==> sample in samples && sample.at >= cutoff)
    {
      if SamePlace(sample, latest) {
        if sample in Refreshed(samples, latest, cutoff) {
          RefreshedOwn(samples, latest, cutoff, sample);
        }
      } else {
        RefreshedExactly(samples, latest, cutoff, sample);
      }
    }
    hide Recorded, Refreshed, OnePerMinute;
    assert minute % 60 == 0 && minute <= now < minute + 60;
  }

  class MetricStore {
    var samples: seq<Sample>

    constructor ()
      ensures samples == [] && OnePerMinute(samples)
    {
      samples := [];
    }

    method RecordMetric(node: string, now: int, bytesIn: nat, bytesOut: nat, active: nat)
      requires OnePerMinute(samples)
      modifies this
      ensures OnePerMinute(samples)
      ensures samples == Recorded(old(samples), Sample(node, Minute(now), bytesIn, bytesOut, active), Minute(now) - RETENTION)
      ensures IsRecorded(old(samples), samples, node, now, bytesIn, bytesOut, active)
    {
      RecordedExactly(samples, node, now, bytesIn, bytesOut, active);
      hide IsRecorded;
      var latest := Sample(node, Minute(now), bytesIn, bytesOut, active);
      var cutoff := latest.at - RETENTION;
      RecordedKeepsMinutes(samples, latest, cutoff);
      var filtered: seq<Sample>, replaced := [], false;
      for i := 0 to |samples|
        invariant samples == old(samples) && filtered == Refreshed(samples[..i], latest, cutoff)
        invariant replaced <==> latest in filtered
      {
        var sample := samples[i];
        assert samples[..i + 1][..i] == samples[..i];
        if sample.at < cutoff {
          assert filtered + [] == filtered;
          continue;
        }
        if sample.node == node && sample.at == latest.at {
          filtered := filtered + [latest];
          replaced := true;
          continue;
        }
        filtered := filtered + [sample];
      }
      assert samples[..|samples|] == samples;
      if !replaced {
        filtered := filtered + [latest];
      }
      samples := filtered;
    }
  }
}
