/**
 Log delivery: the agent's bounded buffer, heartbeats that may be lost or repeated, and the
 control store, which keeps one copy of every entry until it is too old.
 */
module LogDelivery {
  import opened Domain

  datatype Entry = Entry(id: string, message: string)

  datatype Stored = Stored(node: string, entry: Entry, receivedAt: int)

  const BATCH := 100
  const RETENTION: int := 14 * 24 * 60 * 60

  function Ids(entries: seq<Entry>): set<string> {
    set i | 0 <= i < |entries| :: entries[i].id
  }

  ghost predicate UniqueIds(entries: seq<Entry>) {
    forall i, j :: 0 <= i < j < |entries| ==> entries[i].id != entries[j].id
  }

  // ---------- The agent's buffer ----------

  function Without(entries: seq<Entry>, ids: set<string>): seq<Entry> {
    if entries == [] then []
    else
      var last := entries[|entries| - 1];
      Without(entries[..|entries| - 1], ids) + if last.id in ids then [] else [last]
  }

  function Appended(entries: seq<Entry>, capacity: nat, entry: Entry): seq<Entry>
    requires capacity > 0
  {
    if |entries| == capacity then entries[1..] + [entry] else entries + [entry]
  }

  lemma {:induction false} WithoutMembers(entries: seq<Entry>, ids: set<string>)
    ensures Ids(Without(entries, ids)) == Ids(entries) - ids
    ensures |Without(entries, ids)| <= |entries|
  {
    if entries != [] {
      var n := |entries| - 1;
      WithoutMembers(entries[..n], ids);
      SplitIds(entries[..n], [entries[n]]);
      SplitIds(Without(entries[..n], ids), if entries[n].id in ids then [] else [entries[n]]);
      assert entries == entries[..n] + [entries[n]];
    }
  }

  lemma SplitIds(a: seq<Entry>, b: seq<Entry>)
    ensures Ids(a + b) == Ids(a) + Ids(b)
  {
    forall i | 0 <= i < |a|
      ensures a[i].id in Ids(a + b)
    {
      assert (a + b)[i] == a[i];
    }
    forall i | 0 <= i < |b|
      ensures b[i].id in Ids(a + b)
    {
      assert (a + b)[|a| + i] == b[i];
    }
  }

  /** A bounded queue kept in place: the oldest entry makes room, acknowledged ones are squeezed out. */
  class LogBuffer {
    const entries: array<Entry>
    var count: nat

    ghost predicate Valid()
      reads this
    {
      count <= entries.Length && entries.Length > 0
    }

    ghost function Contents(): seq<Entry>
      reads this, entries
      requires Valid()
    {
      entries[..count]
    }

    constructor (capacity: int)
      ensures Valid() && Contents() == [] && fresh(entries)
      ensures entries.Length == if capacity < 1 then 1000 else capacity
    {
      entries := new Entry[if capacity < 1 then 1000 else capacity](_ => Entry("", ""));
      count := 0;
    }

    method Append(entry: Entry)
      requires Valid()
      modifies this, entries
      ensures Valid() && Contents() == Appended(old(Contents()), entries.Length, entry)
    {
      if count == entries.Length {
        var i := 0;
        while i < count - 1
          invariant 0 <= i <= count - 1 && count == entries.Length
          invariant forall k :: 0 <= k < i ==> entries[k] == old(entries[k + 1])
          invariant forall k :: i <= k < count ==> entries[k] == old(entries[k])
        {
          entries[i] := entries[i + 1];
          i := i + 1;
        }
        entries[count - 1] := entry;
        return;
      }
      entries[count] := entry;
      count := count + 1;
    }

    method Pending(limit: int) returns (batch: seq<Entry>)
      requires Valid()
      ensures batch == if limit < 1 then [] else Contents()[..if limit < count then limit else count]
    {
      if limit < 1 {
        return [];
      }
      batch := entries[..if limit < count then limit else count];
    }

    method Acknowledge(batch: seq<Entry>)
      requires Valid()
      modifies this, entries
      ensures Valid() && Contents() == Without(old(Contents()), Ids(batch))
    {
      var acknowledged := Ids(batch);
      var kept, i := 0, 0;
      assert entries[..kept] == Without(old(Contents())[..i], acknowledged);
      hide Without, Ids;
      while i < count
        invariant 0 <= kept <= i <= count == old(count) && Valid()
        invariant entries[..kept] == Without(old(Contents())[..i], acknowledged)
        invariant forall k :: i <= k < count ==> entries[k] == old(entries[k])
      {
        ghost var before := entries[..kept];
        var entry := entries[i];
        assert entry == old(Contents())[i];
        WithoutNext(old(Contents()), i, acknowledged);
        if entry.id !in acknowledged {
          entries[kept] := entry;
          kept := kept + 1;
          assert entries[..kept] == before + [entry];
        }
        i := i + 1;
      }
      assert old(Contents())[..count] == old(Contents());
      count := kept;
    }
  }

  lemma WithoutNext(entries: seq<Entry>, i: nat, ids: set<string>)
    requires i < |entries|
    ensures Without(entries[..i + 1], ids)
         == if entries[i].id in ids then Without(entries[..i], ids) else Without(entries[..i], ids) + [entries[i]]
  {
    assert entries[..i + 1][..i] == entries[..i] && entries[..i + 1][i] == entries[i];
  }

  /** Acknowledging the pending batch takes exactly that prefix off, whatever was appended since. */
  lemma {:induction false} AcknowledgedPrefix(batch: seq<Entry>, rest: seq<Entry>)
    requires UniqueIds(batch + rest)
    ensures Without(batch + rest, Ids(batch)) == rest
  {
    var all := batch + rest;
    if rest == [] {
      assert all == batch;
      AllGone(batch, Ids(batch));
    } else {
      var n := |rest| - 1;
      assert all[..|all| - 1] == batch + rest[..n];
      AcknowledgedPrefix(batch, rest[..n]);
      forall i | 0 <= i < |batch|
        ensures batch[i].id != rest[n].id
      {
        assert all[i] == batch[i] && all[|all| - 1] == rest[n];
      }
      assert rest == rest[..n] + [rest[n]];
    }
  }

  lemma {:induction false} AllGone(entries: seq<Entry>, ids: set<string>)
    requires Ids(entries) <= ids
    ensures Without(entries, ids) == []
  {
    if entries != [] {
      var n := |entries| - 1;
      assert forall i :: 0 <= i < n ==> entries[..n][i].id in Ids(entries);
      AllGone(entries[..n], ids);
      assert entries[n].id in Ids(entries);
    }
  }

  // ---------- The control store's copy ----------

  type Key = (string, string)

  function KeysOf(logs: seq<Stored>): set<Key> {
    set i | 0 <= i < |logs| :: (logs[i].node, logs[i].entry.id)
  }

  ghost predicate UniqueKeys(logs: seq<Stored>) {
    forall i, j :: 0 <= i < j < |logs| ==> logs[i].node != logs[j].node || logs[i].entry.id != logs[j].entry.id
  }

  function Retained(logs: seq<Stored>, cutoff: int): seq<Stored> {
    if logs == [] then []
    else
      var last := logs[|logs| - 1];
      Retained(logs[..|logs| - 1], cutoff) + if last.receivedAt < cutoff then [] else [last]
  }

  /** The entries of a heartbeat that are not stored yet, in their order, after what is stored. */
  function Accept(logs: seq<Stored>, node: string, batch: seq<Entry>, now: int): seq<Stored> {
    if batch == [] then logs
    else
      var before, last := Accept(logs, node, batch[..|batch| - 1], now), batch[|batch| - 1];
      if (node, last.id) in KeysOf(before) then before else before + [Stored(node, last, now)]
  }

  lemma OneMoreKey(logs: seq<Stored>, stored: Stored)
    ensures KeysOf(logs + [stored]) == KeysOf(logs) + {(stored.node, stored.entry.id)}
    ensures UniqueKeys(logs) && (stored.node, stored.entry.id) !in KeysOf(logs) ==> UniqueKeys(logs + [stored])
  {
    var more := logs + [stored];
    forall i | 0 <= i < |logs|
      ensures (logs[i].node, logs[i].entry.id) in KeysOf(more)
    {
      assert more[i] == logs[i];
    }
    assert more[|logs|] == stored;
    if UniqueKeys(logs) && (stored.node, stored.entry.id) !in KeysOf(logs) {
      forall i, j | 0 <= i < j < |more|
        ensures more[i].node != more[j].node || more[i].entry.id != more[j].entry.id
      {
        assert (logs[i].node, logs[i].entry.id) in KeysOf(logs);
      }
    }
  }

  lemma {:induction false} RetainedKeys(logs: seq<Stored>, cutoff: int)
    requires UniqueKeys(logs)
    ensures UniqueKeys(Retained(logs, cutoff)) && KeysOf(Retained(logs, cutoff)) <= KeysOf(logs)
  {
    if logs != [] {
      var n := |logs| - 1;
      RetainedKeys(logs[..n], cutoff);
      assert logs == logs[..n] + [logs[n]];
      OneMoreKey(logs[..n], logs[n]);
      LastIsNew(logs);
      OneMoreKey(Retained(logs[..n], cutoff), logs[n]);
    }
  }

  lemma LastIsNew(logs: seq<Stored>)
    requires UniqueKeys(logs) && logs != []
    ensures (logs[|logs| - 1].node, logs[|logs| - 1].entry.id) !in KeysOf(logs[..|logs| - 1])
  {
  }

  /** Every entry of the heartbeat is stored afterwards, once, and nothing stored before is lost. */
  lemma {:induction false} AcceptedOnce(logs: seq<Stored>, node: string, batch: seq<Entry>, now: int)
    requires UniqueKeys(logs)
    ensures UniqueKeys(Accept(logs, node, batch, now)) && logs <= Accept(logs, node, batch, now)
    ensures KeysOf(Accept(logs, node, batch, now)) == KeysOf(logs) + set id | id in Ids(batch) :: (node, id)
  {
    if batch != [] {
      var n := |batch| - 1;
      AcceptedOnce(logs, node, batch[..n], now);
      OneMoreKey(Accept(logs, node, batch[..n], now), Stored(node, batch[n], now));
      assert batch == batch[..n] + [batch[n]];
      SplitIds(batch[..n], [batch[n]]);
      assert Ids([batch[n]]) == {batch[n].id};
      assert (set id | id in Ids(batch) :: (node, id)) == (set id | id in Ids(batch[..n]) :: (node, id)) + {(node, batch[n].id)};
    }
  }

  /** The i-th entry of the batch is the first of its id, and this node has none of that id in the list. */
  predicate IsNew(logs: seq<Stored>, node: string, batch: seq<Entry>, i: nat)
    requires i < |batch|
  {
    && (forall j :: 0 <= j < i ==> batch[j].id != batch[i].id)
    && (forall k :: 0 <= k < |logs| ==> logs[k].node != node || logs[k].entry.id != batch[i].id)
  }

  /** Exactly the new entries are added, whole, under the node and with the time of receipt. */
  lemma {:induction false} AcceptedExactly(logs: seq<Stored>, node: string, batch: seq<Entry>, now: int, stored: Stored)
    requires UniqueKeys(logs)
    ensures stored in Accept(logs, node, batch, now) <==>
              || stored in logs
              || (stored.node == node && stored.receivedAt == now
                  && exists i :: 0 <= i < |batch| && batch[i] == stored.entry && IsNew(logs, node, batch, i))
  {
    AddedMeans(logs, node, batch, now, stored);
    if batch != [] {
      var n := |batch| - 1;
      AddedMeans(logs, node, batch[..n], now, stored);
      AcceptedExactly(logs, node, batch[..n], now, stored);
      AddedWithLast(logs, node, batch, now, stored);
      AcceptWithLast(logs, node, batch, now, stored);
    }
    hide Added, IsNew;
  }

  ghost predicate Added(logs: seq<Stored>, node: string, batch: seq<Entry>, now: int, stored: Stored) {
    && stored.node == node && stored.receivedAt == now
    && exists i :: 0 <= i < |batch| && batch[i] == stored.entry && IsNew(logs, node, batch, i)
  }

  lemma AddedMeans(logs: seq<Stored>, node: string, batch: seq<Entry>, now: int, stored: Stored)
    ensures Added(logs, node, batch, now, stored) <==>
              stored.node == node && stored.receivedAt == now
              && exists i :: 0 <= i < |batch| && batch[i] == stored.entry && IsNew(logs, node, batch, i)
    ensures batch == [] ==> !Added(logs, node, batch, now, stored)
  {
  }

  lemma AddedWithLast(logs: seq<Stored>, node: string, batch: seq<Entry>, now: int, stored: Stored)
    requires batch != []
    ensures var n := |batch| - 1;
            Added(logs, node, batch, now, stored)
            <==> Added(logs, node, batch[..n], now, stored) || (stored == Stored(node, batch[n], now) && IsNew(logs, node, batch, n))
  {
    var n := |batch| - 1;
    forall i | 0 <= i < n
      ensures batch[..n][i] == batch[i] && (IsNew(logs, node, batch, i) <==> IsNew(logs, node, batch[..n], i))
    {
    }
    hide IsNew;
  }

  lemma AcceptWithLast(logs: seq<Stored>, node: string, batch: seq<Entry>, now: int, stored: Stored)
    requires batch != [] && UniqueKeys(logs)
    ensures var n := |batch| - 1;
            stored in Accept(logs, node, batch, now)
            <==> stored in Accept(logs, node, batch[..n], now) || (stored == Stored(node, batch[n], now) && IsNew(logs, node, batch, n))
  {
    AcceptedOnce(logs, node, batch[..|batch| - 1], now);
    LastIsNewIff(logs, node, batch);
    hide IsNew, KeysOf, Ids;
  }

  lemma LastIsNewIff(logs: seq<Stored>, node: string, batch: seq<Entry>)
    requires batch != [] && UniqueKeys(logs)
    ensures var n := |batch| - 1;
            IsNew(logs, node, batch, n)
            <==> (node, batch[n].id) !in KeysOf(logs) + set id | id in Ids(batch[..n]) :: (node, id)
  {
    var n := |batch| - 1;
    forall j | 0 <= j < n
      ensures batch[j].id in Ids(batch[..n])
    {
      assert batch[..n][j] == batch[j];
    }
    if batch[n].id in Ids(batch[..n]) {
      var j :| 0 <= j < n && batch[..n][j].id == batch[n].id;
      assert batch[j].id == batch[n].id;
    }
  }

  class LogStore {
    var logs: seq<Stored>
    var keys: set<Key>

    /** The key index is exactly the keys of the entries, and no key is there twice. */
    ghost predicate Valid()
      reads this
    {
      keys == KeysOf(logs) && UniqueKeys(logs)
    }

    constructor ()
      ensures Valid() && logs == []
    {
      logs, keys := [], {};
    }

    /** Drop what is too old together with its keys, then add what is new. */
    method RecordAgentLogs(node: string, batch: seq<Entry>, now: int)
      requires Valid()
      modifies this
      ensures Valid()
      ensures logs == Accept(Retained(old(logs), now - 14 * 24 * 60 * 60), node, batch, now)
    {
      RetainedKeys(logs, now - RETENTION);
      Retain(now - RETENTION);
      ghost var kept := logs;
      var i := 0;
      while i < |batch|
        invariant 0 <= i <= |batch| && Valid()
        invariant logs == Accept(kept, node, batch[..i], now)
      {
        assert batch[..i + 1][..i] == batch[..i];
        OneMoreKey(logs, Stored(node, batch[i], now));
        if (node, batch[i].id) !in keys {
          logs := logs + [Stored(node, batch[i], now)];
          keys := keys + {(node, batch[i].id)};
        }
        i := i + 1;
      }
      assert batch[..|batch|] == batch;
    }

    method Retain(cutoff: int)
      requires Valid()
      modifies this
      ensures Valid() && logs == Retained(old(logs), cutoff)
    {
      var kept, i := [], 0;
      RetainedKeys(logs, cutoff);
      while i < |logs|
        invariant 0 <= i <= |logs| && logs == old(logs)
        invariant kept == Retained(logs[..i], cutoff)
        invariant UniqueKeys(kept) && keys == KeysOf(kept) + KeysOf(logs[i..])
        invariant KeysOf(kept) <= KeysOf(logs[..i])
      {
        var entry := logs[i];
        RetainOne(logs, i, cutoff, kept, keys);
        if entry.receivedAt < cutoff {
          keys := keys - {(entry.node, entry.entry.id)};
        } else {
          kept := kept + [entry];
        }
        i := i + 1;
      }
      assert logs[..|logs|] == logs;
      logs := kept;
    }
  }

  /** One more entry is looked at: kept with its key, or dropped with it. */
  lemma RetainOne(logs: seq<Stored>, i: nat, cutoff: int, kept: seq<Stored>, keys: set<Key>)
    requires i < |logs| && UniqueKeys(logs) && kept == Retained(logs[..i], cutoff) && UniqueKeys(kept)
    requires keys == KeysOf(kept) + KeysOf(logs[i..]) && KeysOf(kept) <= KeysOf(logs[..i])
    ensures var entry := logs[i]; var key := (entry.node, entry.entry.id);
            var more := if entry.receivedAt < cutoff then kept else kept + [entry];
            && more == Retained(logs[..i + 1], cutoff) && UniqueKeys(more) && KeysOf(more) <= KeysOf(logs[..i + 1])
            && (if entry.receivedAt < cutoff then keys - {key} else keys) == KeysOf(more) + KeysOf(logs[i + 1..])
  {
    hide *;
    HeadKey(logs, i);
    OneMoreKey(kept, logs[i]);
    RetainedWithNext(logs, i, cutoff);
  }

  lemma RetainedWithNext(logs: seq<Stored>, i: nat, cutoff: int)
    requires i < |logs|
    ensures Retained(logs[..i + 1], cutoff)
         == if logs[i].receivedAt < cutoff then Retained(logs[..i], cutoff) else Retained(logs[..i], cutoff) + [logs[i]]
  {
    assert logs[..i + 1][..i] == logs[..i] && logs[..i + 1][i] == logs[i];
  }

  /** The key at position i is not among those before or after it. */
  lemma HeadKey(logs: seq<Stored>, i: nat)
    requires i < |logs| && UniqueKeys(logs)
    ensures KeysOf(logs[i..]) == {(logs[i].node, logs[i].entry.id)} + KeysOf(logs[i + 1..])
    ensures (logs[i].node, logs[i].entry.id) !in KeysOf(logs[i + 1..]) + KeysOf(logs[..i])
    ensures KeysOf(logs[..i + 1]) == KeysOf(logs[..i]) + {(logs[i].node, logs[i].entry.id)}
  {
    assert logs[i..] == [logs[i]] + logs[i + 1..];
    assert logs[i..][0] == logs[i];
    forall k | i + 1 <= k < |logs|
      ensures (logs[k].node, logs[k].entry.id) in KeysOf(logs[i..]) && logs[i..][k - i] == logs[k]
    {
      assert logs[i..][k - i] == logs[k];
    }
    assert logs[..i + 1] == logs[..i] + [logs[i]];
    OneMoreKey(logs[..i], logs[i]);
  }

  lemma {:induction false} RetainedExactly(logs: seq<Stored>, cutoff: int, stored: Stored)
    ensures stored in Retained(logs, cutoff) <==> stored in logs && stored.receivedAt >= cutoff
  {
    if logs != [] {
      RetainedExactly(logs[..|logs| - 1], cutoff, stored);
      assert logs == logs[..|logs| - 1] + [logs[|logs| - 1]];
    }
  }

  // ---------- One agent, its heartbeats and the store ----------

  /**
   `gone` are the ids that have left the buffer, `dropped` those pushed out of a full buffer,
   `accepted` those the store has ever recorded. `pending` is the batch of the heartbeat under way.
   */
  datatype Delivery = Delivery(capacity: nat, logged: seq<Entry>, buffer: seq<Entry>, gone: set<string>, dropped: set<string>,
                               accepted: set<string>, pending: Option<seq<Entry>>, sent: set<seq<Entry>>, delivered: bool,
                               stored: seq<Stored>)

  datatype Event =
    | Log(entry: Entry)
    | Send
    | Deliver(batch: seq<Entry>, at: int)
    | Foreign(other: string, batch: seq<Entry>, at: int)
    | Answer
    | Lost

  function Start(capacity: nat): Delivery {
    Delivery(capacity, [], [], {}, {}, {}, None, {}, false, [])
  }

  function Record(stored: seq<Stored>, node: string, batch: seq<Entry>, at: int): seq<Stored> {
    Accept(Retained(stored, at - RETENTION), node, batch, at)
  }

  function Step(d: Delivery, node: string, event: Event): Option<Delivery>
    requires d.capacity > 0
  {
    match event
    case Log(entry) =>
      if entry.id in Ids(d.logged) then None
      else
        var out := if |d.buffer| == d.capacity then {d.buffer[0].id} else {};
        Some(d.(logged := d.logged + [entry], buffer := Appended(d.buffer, d.capacity, entry),
                gone := d.gone + out, dropped := d.dropped + out))
    case Send =>
      if d.pending.Some? then None
      else
        var batch := d.buffer[..if BATCH < |d.buffer| then BATCH else |d.buffer|];
        Some(d.(pending := Some(batch), sent := d.sent + {batch}, delivered := false))
    case Deliver(batch, at) =>
      if batch !in d.sent then None
      else Some(d.(stored := Record(d.stored, node, batch, at), accepted := d.accepted + Ids(batch),
                   delivered := d.delivered || d.pending == Some(batch)))
    case Foreign(other, batch, at) =>
      if other == node then None else Some(d.(stored := Record(d.stored, other, batch, at)))
    case Answer =>
      if d.pending.Some? && d.delivered
      then Some(d.(buffer := Without(d.buffer, Ids(d.pending.value)), gone := d.gone + Ids(d.pending.value),
                   pending := None, delivered := false))
      else None
    case Lost =>
      if d.pending.Some? then Some(d.(pending := None, delivered := false)) else None
  }

  ghost predicate BufferInv(d: Delivery) {
    && 0 < d.capacity && |d.buffer| <= d.capacity && UniqueIds(d.logged)
    && d.buffer == Without(d.logged, d.gone)
    && d.gone <= Ids(d.logged)
  }

  ghost predicate AccountInv(d: Delivery) {
    && d.gone <= d.accepted + d.dropped
    && (d.delivered ==> d.pending.Some? && Ids(d.pending.value) <= d.accepted)
    && (d.pending.Some? ==> Ids(d.pending.value) <= Ids(d.logged))
    && (forall batch :: batch in d.sent ==> Ids(batch) <= Ids(d.logged))
  }

  ghost predicate StoreInv(d: Delivery, node: string) {
    && UniqueKeys(d.stored)
    && forall id :: (node, id) in KeysOf(d.stored) ==> id in d.accepted
  }

  lemma {:induction false} WithoutTwice(entries: seq<Entry>, first: set<string>, second: set<string>)
    ensures Without(Without(entries, first), second) == Without(entries, first + second)
  {
    if entries != [] {
      var n := |entries| - 1;
      WithoutTwice(entries[..n], first, second);
      var inner := Without(entries[..n], first);
      if entries[n].id !in first {
        assert (inner + [entries[n]])[..|inner|] == inner;
      }
      assert Without(entries[..n], first) + [] == Without(entries[..n], first);
    }
  }

  lemma {:induction false} WithoutUnique(entries: seq<Entry>, ids: set<string>)
    requires UniqueIds(entries)
    ensures UniqueIds(Without(entries, ids))
  {
    if entries != [] {
      var n := |entries| - 1;
      WithoutUnique(entries[..n], ids);
      WithoutMembers(entries[..n], ids);
      var kept := Without(entries[..n], ids);
      forall i | 0 <= i < |kept|
        ensures kept[i].id != entries[n].id
      {
        assert kept[i].id in Ids(kept);
        var k :| 0 <= k < n && entries[..n][k].id == kept[i].id;
      }
    }
  }

  lemma WithoutLast(entries: seq<Entry>, last: Entry, ids: set<string>)
    ensures Without(entries + [last], ids) == Without(entries, ids) + if last.id in ids then [] else [last]
  {
    assert (entries + [last])[..|entries|] == entries;
  }

  lemma NewIdIsUnique(entries: seq<Entry>, entry: Entry)
    requires UniqueIds(entries) && entry.id !in Ids(entries)
    ensures UniqueIds(entries + [entry])
  {
    assert forall i :: 0 <= i < |entries| ==> entries[i].id in Ids(entries);
  }

  /** The oldest entry of the buffer leaves it: the rest is what remains without its id. */
  lemma OldestLeaves(logged: seq<Entry>, gone: set<string>, buffer: seq<Entry>)
    requires UniqueIds(logged) && buffer == Without(logged, gone) && buffer != []
    ensures buffer[0].id in Ids(logged) && Without(logged, gone + {buffer[0].id}) == buffer[1..]
  {
    var first := buffer[0];
    WithoutUnique(logged, gone);
    WithoutMembers(logged, gone);
    assert first.id in Ids(buffer);
    AcknowledgedPrefix([first], buffer[1..]);
    assert [first] + buffer[1..] == buffer && Ids([first]) == {first.id};
    WithoutTwice(logged, gone, {first.id});
  }

  lemma LogKeepsBuffer(d: Delivery, node: string, entry: Entry)
    requires BufferInv(d) && Step(d, node, Log(entry)).Some?
    ensures BufferInv(Step(d, node, Log(entry)).value)
  {
    hide Without, Ids;
    SplitIds(d.logged, [entry]);
    NewIdIsUnique(d.logged, entry);
    if |d.buffer| == d.capacity {
      OldestLeaves(d.logged, d.gone, d.buffer);
      WithoutLast(d.logged, entry, d.gone + {d.buffer[0].id});
    } else {
      WithoutLast(d.logged, entry, d.gone);
      assert d.gone + {} == d.gone;
    }
  }

  lemma BufferKept(d: Delivery, node: string, event: Event)
    requires BufferInv(d) && AccountInv(d) && Step(d, node, event).Some?
    ensures BufferInv(Step(d, node, event).value)
  {
    match event
    case Log(entry) => LogKeepsBuffer(d, node, entry);
    case Answer =>
      WithoutTwice(d.logged, d.gone, Ids(d.pending.value));
      WithoutMembers(d.buffer, Ids(d.pending.value));
    case _ =>
  }

  lemma AccountKept(d: Delivery, node: string, event: Event)
    requires BufferInv(d) && AccountInv(d) && Step(d, node, event).Some?
    ensures AccountInv(Step(d, node, event).value)
  {
    match event
    case Log(entry) => SplitIds(d.logged, [entry]);
    case Send =>
      var k := if BATCH < |d.buffer| then BATCH else |d.buffer|;
      WithoutMembers(d.logged, d.gone);
      SplitIds(d.buffer[..k], d.buffer[k..]);
      assert d.buffer[..k] + d.buffer[k..] == d.buffer;
    case _ =>
  }

  lemma RecordKeepsStore(stored: seq<Stored>, node: string, batch: seq<Entry>, at: int)
    requires UniqueKeys(stored)
    ensures UniqueKeys(Record(stored, node, batch, at))
    ensures KeysOf(Record(stored, node, batch, at)) <= KeysOf(stored) + set id | id in Ids(batch) :: (node, id)
    ensures forall id :: id in Ids(batch) ==> (node, id) in KeysOf(Record(stored, node, batch, at))
  {
    RetainedKeys(stored, at - RETENTION);
    AcceptedOnce(Retained(stored, at - RETENTION), node, batch, at);
  }

  lemma StoreKept(d: Delivery, node: string, event: Event)
    requires 0 < d.capacity && StoreInv(d, node) && Step(d, node, event).Some?
    ensures StoreInv(Step(d, node, event).value, node)
  {
    match event
    case Deliver(batch, at) => RecordKeepsStore(d.stored, node, batch, at);
    case Foreign(other, batch, at) => RecordKeepsStore(d.stored, other, batch, at);
    case _ =>
  }

  /** Whatever is buffered, sent or stored for the node is one of the entries it logged, text included. */
  ghost predicate WholeInv(d: Delivery, node: string) {
    && (forall entry :: entry in d.buffer ==> entry in d.logged)
    && (forall batch, entry :: batch in d.sent && entry in batch ==> entry in d.logged)
    && (forall stored :: stored in d.stored && stored.node == node ==> stored.entry in d.logged)
  }

  lemma {:induction false} WithoutExactly(entries: seq<Entry>, ids: set<string>, entry: Entry)
    ensures entry in Without(entries, ids) <==> entry in entries && entry.id !in ids
  {
    if entries != [] {
      WithoutExactly(entries[..|entries| - 1], ids, entry);
      assert entries == entries[..|entries| - 1] + [entries[|entries| - 1]];
    }
  }

  lemma RecordedIsWhole(stored: seq<Stored>, node: string, batch: seq<Entry>, at: int, s: Stored)
    requires UniqueKeys(stored) && s in Record(stored, node, batch, at)
    ensures s in stored || (s.node == node && s.entry in batch && s.receivedAt == at)
  {
    RetainedKeys(stored, at - RETENTION);
    AcceptedExactly(Retained(stored, at - RETENTION), node, batch, at, s);
    RetainedExactly(stored, at - RETENTION, s);
    hide Retained, Accept, UniqueKeys;
  }

  lemma WholeKept(d: Delivery, node: string, event: Event)
    requires BufferInv(d) && StoreInv(d, node) && WholeInv(d, node) && Step(d, node, event).Some?
    ensures WholeInv(Step(d, node, event).value, node)
  {
    var d' := Step(d, node, event).value;
    hide Record, Without, UniqueKeys;
    forall stored | stored in d'.stored && stored.node == node
      ensures stored.entry in d'.logged
    {
      if event.Deliver? {
        RecordedIsWhole(d.stored, node, event.batch, event.at, stored);
      } else if event.Foreign? {
        RecordedIsWhole(d.stored, event.other, event.batch, event.at, stored);
      }
    }
    forall entry | entry in d'.buffer
      ensures entry in d'.logged
    {
      if event.Answer? {
        WithoutExactly(d.buffer, Ids(d.pending.value), entry);
      }
    }
  }

  ghost predicate Inv(d: Delivery, node: string) {
    BufferInv(d) && AccountInv(d) && StoreInv(d, node) && WholeInv(d, node)
  }

  ghost predicate Steps(d: Delivery, node: string, d': Delivery) {
    0 < d.capacity && exists event :: Step(d, node, event) == Some(d')
  }

  ghost predicate IsRun(run: seq<Delivery>, node: string, capacity: nat) {
    && run != [] && run[0] == Start(capacity) && 0 < capacity
    && forall i {:trigger run[i]} :: 0 <= i < |run| - 1 ==> Steps(run[i], node, run[i + 1])
  }

  lemma {:induction false} RunsKeepInv(run: seq<Delivery>, node: string, capacity: nat, i: nat)
    requires IsRun(run, node, capacity) && i < |run|
    ensures Inv(run[i], node) && run[i].capacity == capacity
  {
    hide *;
    StateAt(run, node, capacity, i);
    if i > 0 {
      RunsKeepInv(run, node, capacity, i - 1);
      InvKept(run[i - 1], node, run[i]);
    } else {
      StartIsGood(node, capacity);
    }
  }

  lemma StateAt(run: seq<Delivery>, node: string, capacity: nat, i: nat)
    requires IsRun(run, node, capacity) && i < |run|
    ensures 0 < capacity && run[0] == Start(capacity) && (i > 0 ==> Steps(run[i - 1], node, run[i]))
  {
    assert i > 0 ==> Steps(run[i - 1], node, run[i - 1 + 1]);
  }

  lemma StartIsGood(node: string, capacity: nat)
    requires 0 < capacity
    ensures Inv(Start(capacity), node) && Start(capacity).capacity == capacity
  {
  }

  lemma InvKept(d: Delivery, node: string, d': Delivery)
    requires Inv(d, node) && Steps(d, node, d')
    ensures Inv(d', node) && d'.capacity == d.capacity
  {
    var event :| Step(d, node, event) == Some(d');
    BufferKept(d, node, event);
    AccountKept(d, node, event);
    StoreKept(d, node, event);
    WholeKept(d, node, event);
    hide BufferInv, AccountInv, StoreInv, WholeInv;
  }

  /** An accepted entry was in the store at some point of the run. */
  lemma {:induction false} AcceptedWasStored(run: seq<Delivery>, node: string, capacity: nat, i: nat, id: string) returns (k: nat)
    requires IsRun(run, node, capacity) && i < |run| && id in run[i].accepted
    ensures k <= i && (node, id) in KeysOf(run[k].stored)
  {
    assert i > 0;
    var before, after := run[i - 1], run[i - 1 + 1];
    if id in before.accepted {
      k := AcceptedWasStored(run, node, capacity, i - 1, id);
    } else {
      RunsKeepInv(run, node, capacity, i - 1);
      assert Steps(before, node, after);
      var event :| Step(before, node, event) == Some(after);
      RecordKeepsStore(before.stored, node, event.batch, event.at);
      k := i;
    }
  }

  lemma {:induction false} LoggedStays(run: seq<Delivery>, node: string, capacity: nat, k: nat, i: nat, entry: Entry)
    requires IsRun(run, node, capacity) && k <= i < |run| && entry in run[k].logged
    ensures entry in run[i].logged
    decreases i
  {
    hide *;
    if k < i {
      LoggedStays(run, node, capacity, k, i - 1, entry);
      StateAt(run, node, capacity, i);
      StepKeepsLogged(run[i - 1], node, run[i], entry);
    }
  }

  lemma StepKeepsLogged(d: Delivery, node: string, d': Delivery, entry: Entry)
    requires Steps(d, node, d') && entry in d.logged
    ensures entry in d'.logged
  {
    var event :| Step(d, node, event) == Some(d');
  }

  /** The entry, text included, was in the store in one of the first i states. */
  ghost predicate WasStored(run: seq<Delivery>, node: string, i: nat, entry: Entry)
    requires i < |run|
  {
    exists k :: 0 <= k <= i && Holds(run[k].stored, node, entry)
  }

  lemma {:induction false} AcceptedEntryWasStored(run: seq<Delivery>, node: string, capacity: nat, i: nat, entry: Entry)
    requires IsRun(run, node, capacity) && i < |run| && entry in run[i].logged && entry.id in run[i].accepted
    ensures WasStored(run, node, i, entry)
  {
    var k := AcceptedWasStored(run, node, capacity, i, entry.id);
    RunsKeepInv(run, node, capacity, k);
    RunsKeepInv(run, node, capacity, i);
    var stored := StoredUnder(run[k].stored, node, entry.id);
    hide IsRun;
    LoggedStays(run, node, capacity, k, i, stored.entry);
    SameIdSameEntry(run[i].logged, stored.entry, entry);
  }

  lemma StoredUnder(logs: seq<Stored>, node: string, id: string) returns (stored: Stored)
    requires (node, id) in KeysOf(logs)
    ensures stored in logs && stored.node == node && stored.entry.id == id
  {
    var i :| 0 <= i < |logs| && (logs[i].node, logs[i].entry.id) == (node, id);
    stored := logs[i];
  }

  lemma SameIdSameEntry(entries: seq<Entry>, a: Entry, b: Entry)
    requires UniqueIds(entries) && a in entries && b in entries && a.id == b.id
    ensures a == b
  {
  }

  /**
   Nothing is lost silently: every entry ever logged is still buffered, was in the store, text
   included, or was pushed out by newer entries; the buffer keeps its bound and the logging order;
   and the store never holds two copies, whatever was lost, delayed or repeated.
   */
  lemma EveryEntryIsAccountedFor(run: seq<Delivery>, node: string, capacity: nat, i: nat)
    requires IsRun(run, node, capacity) && i < |run|
    ensures Ids(run[i].logged) == Ids(run[i].buffer) + run[i].gone && run[i].gone <= run[i].accepted + run[i].dropped
    ensures |run[i].buffer| <= capacity && run[i].buffer == Without(run[i].logged, run[i].gone)
    ensures forall entry :: entry in run[i].logged ==>
              entry in run[i].buffer || entry.id in run[i].dropped || WasStored(run, node, i, entry)
    ensures forall stored :: stored in run[i].stored && stored.node == node ==> stored.entry in run[i].logged
    ensures UniqueKeys(run[i].stored)
  {
    RunsKeepInv(run, node, capacity, i);
    WithoutMembers(run[i].logged, run[i].gone);
    forall entry | entry in run[i].logged
      ensures entry in run[i].buffer || entry.id in run[i].dropped || WasStored(run, node, i, entry)
    {
      WithoutExactly(run[i].logged, run[i].gone, entry);
      if entry.id in run[i].accepted {
        AcceptedEntryWasStored(run, node, capacity, i, entry);
      }
    }
    hide IsRun, WasStored, Without;
  }

  /** The entry, text included, is stored for the node. */
  ghost predicate Holds(logs: seq<Stored>, node: string, entry: Entry) {
    exists stored :: stored in logs && stored.node == node && stored.entry == entry
  }

  /** A heartbeat that gets through takes the oldest hundred entries off and stores each of them. */
  lemma HeartbeatDrains(d: Delivery, node: string, at: int)
    requires Inv(d, node) && d.pending.None?
    ensures var sent := Step(d, node, Send).value;
            var recorded := Step(sent, node, Deliver(sent.pending.value, at)).value;
            var answered := Step(recorded, node, Answer).value;
            var k := if |d.buffer| > 100 then 100 else |d.buffer|;
            && answered.buffer == d.buffer[k..]
            && forall i :: 0 <= i < k ==> Holds(answered.stored, node, d.buffer[i])
  {
    hide Step, Oldest, Record, Without, Ids, Inv, Holds;
    OneHeartbeat(d, node, at);
    OldestComeOff(d, node);
    OldestAreStored(d, node, at);
  }

  function Oldest(entries: seq<Entry>): seq<Entry> {
    entries[..if BATCH < |entries| then BATCH else |entries|]
  }

  lemma OldestAt(entries: seq<Entry>)
    ensures var k := if BATCH < |entries| then BATCH else |entries|;
            |Oldest(entries)| == k && forall i :: 0 <= i < k ==> Oldest(entries)[i] == entries[i]
    ensures forall entry :: entry in Oldest(entries) ==> entry in entries
  {
  }

  lemma OneHeartbeat(d: Delivery, node: string, at: int)
    requires Inv(d, node) && d.pending.None?
    ensures var sent := Step(d, node, Send);
            && sent.Some? && sent.value.pending.Some? && sent.value.capacity == d.capacity > 0
            && var recorded := Step(sent.value, node, Deliver(sent.value.pending.value, at));
            && recorded.Some? && recorded.value.capacity == d.capacity
            && var answered := Step(recorded.value, node, Answer);
            && answered.Some? && answered.value.buffer == Without(d.buffer, Ids(Oldest(d.buffer)))
            && answered.value.stored == Record(d.stored, node, Oldest(d.buffer), at)
  {
    hide Record, Without, Ids, UniqueIds, AccountInv, StoreInv, WholeInv;
  }

  lemma OldestComeOff(d: Delivery, node: string)
    requires Inv(d, node)
    ensures Without(d.buffer, Ids(Oldest(d.buffer))) == d.buffer[if BATCH < |d.buffer| then BATCH else |d.buffer|..]
  {
    var k := if BATCH < |d.buffer| then BATCH else |d.buffer|;
    WithoutUnique(d.logged, d.gone);
    assert Oldest(d.buffer) + d.buffer[k..] == d.buffer;
    AcknowledgedPrefix(Oldest(d.buffer), d.buffer[k..]);
  }

  lemma OldestAreStored(d: Delivery, node: string, at: int)
    requires Inv(d, node)
    ensures var k := if BATCH < |d.buffer| then BATCH else |d.buffer|;
            forall i :: 0 <= i < k ==> Holds(Record(d.stored, node, Oldest(d.buffer), at), node, d.buffer[i])
  {
    hide Oldest, Record, Inv, Holds;
    OldestAt(d.buffer);
    forall i | 0 <= i < if BATCH < |d.buffer| then BATCH else |d.buffer|
      ensures Holds(Record(d.stored, node, Oldest(d.buffer), at), node, d.buffer[i])
    {
      EntryIsStored(d, node, Oldest(d.buffer), at, i);
    }
  }

  lemma EntryIsStored(d: Delivery, node: string, batch: seq<Entry>, at: int, i: nat)
    requires Inv(d, node) && i < |batch| && batch[i] in d.buffer && forall entry :: entry in batch ==> entry in d.buffer
    ensures Holds(Record(d.stored, node, batch, at), node, batch[i])
  {
    RecordKeepsStore(d.stored, node, batch, at);
    hide Record, Without, KeysOf;
    assert batch[i].id in Ids(batch);
    var stored := StoredUnder(Record(d.stored, node, batch, at), node, batch[i].id);
    RecordedIsWhole(d.stored, node, batch, at, stored);
    SameIdSameEntry(d.logged, stored.entry, batch[i]);
  }
}
