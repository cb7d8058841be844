/**
 Connection snapshots: the agent reports at most 2000 of its sessions and says whether that was
 all of them; the control store keeps at most 4000 per node.
 */
module ConnectionSnapshots {
  import opened Domain
  import opened Sequences

  const SNAPSHOTS := 2000
  const STORED := 4000

  // ---------- The agent's report ----------

  datatype Session = Session(id: string, lastActivity: int)

  datatype Traffic = Traffic(active: nat, bytesIn: nat, bytesOut: nat) {
    function Plus(other: Traffic): Traffic {
      Traffic(active + other.active, bytesIn + other.bytesIn, bytesOut + other.bytesOut)
    }
  }

  /** One forwarder: its rule, its counters and its sessions, in whatever order they are visited. */
  datatype Running = Running(rule: string, traffic: Traffic, sessions: seq<Session>)

  datatype Report = Report(rules: map<string, Traffic>, traffic: Traffic, connections: seq<Session>, complete: bool)

  function AllSessions(forwarders: seq<Running>): seq<Session> {
    if forwarders == [] then []
    else AllSessions(forwarders[..|forwarders| - 1]) + forwarders[|forwarders| - 1].sessions
  }

  function Sum(forwarders: seq<Running>): Traffic {
    if forwarders == [] then Traffic(0, 0, 0)
    else Sum(forwarders[..|forwarders| - 1]).Plus(forwarders[|forwarders| - 1].traffic)
  }

  /** What the forwarders of one rule, TCP and UDP, carry together. */
  function OfRule(forwarders: seq<Running>, rule: string): Traffic {
    if forwarders == [] then Traffic(0, 0, 0)
    else
      var before, last := OfRule(forwarders[..|forwarders| - 1], rule), forwarders[|forwarders| - 1];
      if last.rule == rule then before.Plus(last.traffic) else before
  }

  ghost function Rules(forwarders: seq<Running>): set<string> {
    set i | 0 <= i < |forwarders| :: forwarders[i].rule
  }

  /** Every rule with a forwarder, and its own traffic. */
  ghost predicate Tallies(rules: map<string, Traffic>, forwarders: seq<Running>) {
    rules.Keys == Rules(forwarders) && forall rule :: rule in rules ==> rules[rule] == OfRule(forwarders, rule)
  }

  lemma {:induction false} NoneOfRule(forwarders: seq<Running>, rule: string)
    requires rule !in Rules(forwarders)
    ensures OfRule(forwarders, rule) == Traffic(0, 0, 0)
  {
    if forwarders != [] {
      NoneOfRule(forwarders[..|forwarders| - 1], rule);
    }
  }

  lemma TalliesOneMore(rules: map<string, Traffic>, seen: seq<Running>, forwarder: Running)
    requires Tallies(rules, seen)
    ensures var known := if forwarder.rule in rules then rules[forwarder.rule] else Traffic(0, 0, 0);
            Tallies(rules[forwarder.rule := known.Plus(forwarder.traffic)], seen + [forwarder])
  {
    if forwarder.rule !in rules {
      NoneOfRule(seen, forwarder.rule);
    }
    var more := seen + [forwarder];
    assert more[..|seen|] == seen && more[|seen|] == forwarder;
    assert Rules(more) == Rules(seen) + {forwarder.rule};
  }

  /** The sum over some rules, each taken once. */
  ghost function SumOver(ids: seq<string>, forwarders: seq<Running>): Traffic {
    if ids == [] then Traffic(0, 0, 0)
    else SumOver(ids[..|ids| - 1], forwarders).Plus(OfRule(forwarders, ids[|ids| - 1]))
  }

  lemma {:induction false} SumOverOneMore(ids: seq<string>, seen: seq<Running>, forwarder: Running)
    requires AllDifferent(ids)
    ensures SumOver(ids, seen + [forwarder])
         == if forwarder.rule in Elements(ids) then SumOver(ids, seen).Plus(forwarder.traffic) else SumOver(ids, seen)
  {
    assert (seen + [forwarder])[..|seen|] == seen;
    if ids != [] {
      var n := |ids| - 1;
      SumOverOneMore(ids[..n], seen, forwarder);
      assert Elements(ids) == Elements(ids[..n]) + {ids[n]};
    }
  }

  lemma {:induction false} SumOverNothing(ids: seq<string>)
    ensures SumOver(ids, []) == Traffic(0, 0, 0)
  {
    if ids != [] {
      SumOverNothing(ids[..|ids| - 1]);
    }
  }

  /** Summing rule by rule is summing everything. */
  lemma {:induction false} RulesPartition(ids: seq<string>, forwarders: seq<Running>)
    requires AllDifferent(ids) && Rules(forwarders) <= Elements(ids)
    ensures SumOver(ids, forwarders) == Sum(forwarders)
  {
    if forwarders == [] {
      SumOverNothing(ids);
    } else {
      var n := |forwarders| - 1;
      var last := forwarders[n];
      assert last.rule in Rules(forwarders);
      assert Rules(forwarders[..n]) <= Rules(forwarders);
      RulesPartition(ids, forwarders[..n]);
      SumOverOneMore(ids, forwarders[..n], last);
      assert forwarders[..n] + [last] == forwarders;
    }
  }

  method ConnectionStats(sessions: seq<Session>, limit: int) returns (part: seq<Session>, total: nat)
    ensures total == |sessions| && part == sessions[..Min(if limit < 0 then 0 else limit, |sessions|)]
  {
    total := |sessions|;
    var room := if limit < 0 then 0 else limit;
    part := [];
    for i := 0 to |sessions|
      invariant part == sessions[..Min(room, i)]
    {
      if |part| == room {
        break;
      }
      part := part + [sessions[i]];
    }
  }

  function Capped(sessions: seq<Session>): seq<Session> {
    sessions[..Min(SNAPSHOTS, |sessions|)]
  }

  /** Filling up to the bound group by group is the same as cutting the whole. */
  lemma CappedTogether(seen: seq<Session>, more: seq<Session>)
    ensures Capped(seen + more) == Capped(seen) + more[..Min(SNAPSHOTS - |Capped(seen)|, |more|)]
    ensures |Capped(seen)| <= SNAPSHOTS
    ensures |seen| <= SNAPSHOTS && |more| <= SNAPSHOTS - |Capped(seen)| <==> |seen + more| <= SNAPSHOTS
  {
  }

  lemma OneForwarder(seen: seq<Running>, forwarder: Running)
    ensures AllSessions(seen + [forwarder]) == AllSessions(seen) + forwarder.sessions
  {
    assert (seen + [forwarder])[..|seen|] == seen;
  }

  /** What was gathered from these forwarders: every session up to the bound, whether that was all, and the tallies. */
  ghost predicate Gathered(seen: seq<Running>, rules: map<string, Traffic>, connections: seq<Session>, complete: bool) {
    && Tallies(rules, seen) && connections == Capped(AllSessions(seen))
    && (complete <==> |AllSessions(seen)| <= SNAPSHOTS)
  }

  /** Visit one network's forwarders. The first network's rules are new; the second adds to what is there. */
  method Gather(forwarders: seq<Running>, adds: bool, rules0: map<string, Traffic>, connections0: seq<Session>,
                complete0: bool, ghost seen: seq<Running>)
    returns (rules: map<string, Traffic>, connections: seq<Session>, complete: bool)
    requires Gathered(seen, rules0, connections0, complete0)
    requires !adds ==> seen == [] && forall i, j :: 0 <= i < j < |forwarders| ==> forwarders[i].rule != forwarders[j].rule
    ensures Gathered(seen + forwarders, rules, connections, complete)
  {
    rules, connections, complete := rules0, connections0, complete0;
    assert seen + forwarders[..0] == seen;
    for i := 0 to |forwarders|
      invariant Gathered(seen + forwarders[..i], rules, connections, complete)
    {
      var forwarder := forwarders[i];
      ghost var before := seen + forwarders[..i];
      assert before + [forwarder] == seen + forwarders[..i + 1];
      OneForwarder(before, forwarder);
      TalliesOneMore(rules, before, forwarder);
      CappedTogether(AllSessions(before), forwarder.sessions);
      if adds {
        var known := if forwarder.rule in rules then rules[forwarder.rule] else Traffic(0, 0, 0);
        rules := rules[forwarder.rule := known.Plus(forwarder.traffic)];
      } else {
        rules := rules[forwarder.rule := forwarder.traffic];
      }
      var part, total := ConnectionStats(forwarder.sessions, SNAPSHOTS - |connections|);
      connections := connections + part;
      if total > |part| {
        complete := false;
      }
    }
    assert forwarders[..|forwarders|] == forwarders;
  }

  /** The totals are added up rule by rule. */
  method Total(rules: map<string, Traffic>, ghost forwarders: seq<Running>) returns (traffic: Traffic)
    requires Tallies(rules, forwarders)
    ensures traffic == Sum(forwarders)
  {
    traffic := Traffic(0, 0, 0);
    var todo := rules.Keys;
    ghost var ids: seq<string> := [];
    while todo != {}
      invariant todo <= rules.Keys && Elements(ids) == rules.Keys - todo && AllDifferent(ids)
      invariant traffic == SumOver(ids, forwarders)
      decreases todo
    {
      var id :| id in todo;
      todo := todo - {id};
      traffic := traffic.Plus(rules[id]);
      assert (ids + [id])[..|ids|] == ids;
      InsertedElements(ids, |ids|, id);
      assert ids[..|ids|] + [id] + ids[|ids|..] == ids + [id];
      assert id !in Elements(ids);
      assert AllDifferent(ids + [id]);
      ids := ids + [id];
    }
    RulesPartition(ids, forwarders);
  }

  /**
   Every session is reported, up to the bound, and the report is complete iff none was left out;
   every rule's traffic is that of its TCP and UDP forwarders, and the total is that of all.
   */
  method Stats(tcp: seq<Running>, udp: seq<Running>) returns (report: Report)
    requires forall i, j :: 0 <= i < j < |tcp| ==> tcp[i].rule != tcp[j].rule
    ensures report.connections == Capped(AllSessions(tcp + udp)) && |report.connections| == Min(2000, |AllSessions(tcp + udp)|)
    ensures report.complete <==> |AllSessions(tcp + udp)| <= 2000
    ensures Tallies(report.rules, tcp + udp)
    ensures report.traffic == Sum(tcp + udp)
  {
    var rules, connections, complete := Gather(tcp, false, map[], [], true, []);
    assert [] + tcp == tcp;
    rules, connections, complete := Gather(udp, true, rules, connections, complete, tcp);
    var traffic := Total(rules, tcp + udp);
    report := Report(rules, traffic, connections, complete);
  }

  /** Nothing is carried without forwarders, and one more adds its own three counters, to its own rule only. */
  lemma TrafficAddsUp(seen: seq<Running>, more: Running, rule: string)
    ensures Sum([]) == OfRule([], rule) == Traffic(0, 0, 0)
    ensures var before, after := Sum(seen), Sum(seen + [more]);
            && after.active == before.active + more.traffic.active
            && after.bytesIn == before.bytesIn + more.traffic.bytesIn && after.bytesOut == before.bytesOut + more.traffic.bytesOut
    ensures var before, after := OfRule(seen, rule), OfRule(seen + [more], rule);
            if rule != more.rule then after == before
            else && after.active == before.active + more.traffic.active
                 && after.bytesIn == before.bytesIn + more.traffic.bytesIn && after.bytesOut == before.bytesOut + more.traffic.bytesOut
  {
    assert (seen + [more])[..|seen|] == seen;
  }

  /** The sessions are those of the forwarders, and as many. */
  lemma {:induction false} SessionsOfAll(forwarders: seq<Running>, session: Session)
    ensures session in AllSessions(forwarders) <==> exists i :: 0 <= i < |forwarders| && session in forwarders[i].sessions
    ensures forwarders != [] ==>
              |AllSessions(forwarders)| == |AllSessions(forwarders[..|forwarders| - 1])| + |forwarders[|forwarders| - 1].sessions|
  {
    if forwarders != [] {
      var n := |forwarders| - 1;
      SessionsOfAll(forwarders[..n], session);
      if i :| 0 <= i < n && session in forwarders[i].sessions {
        assert session in forwarders[..n][i].sessions;
      }
      if i :| 0 <= i < n && session in forwarders[..n][i].sessions {
        assert session in forwarders[i].sessions;
      }
    }
  }

  // ---------- The control store's copy ----------

  datatype Stored = Stored(lastActivity: int, observedAt: int)

  type Connections = map<string, Stored>

  function Ids(beat: seq<Session>): set<string> {
    set i | 0 <= i < |beat| :: beat[i].id
  }

  predicate Before(a: Stored, b: Stored) {
    a.observedAt > b.observedAt || (a.observedAt == b.observedAt && a.lastActivity > b.lastActivity)
  }

  /** Newest observation first, then the most recently active. */
  ghost predicate NewestFirst(ids: seq<string>, connections: Connections) {
    && (forall i :: 0 <= i < |ids| ==> ids[i] in connections)
    && forall i, j :: 0 <= i < j < |ids| ==> !Before(connections[ids[j]], connections[ids[i]])
  }

  method Insert(ids: seq<string>, id: string, connections: Connections) returns (more: seq<string>)
    requires NewestFirst(ids, connections) && AllDifferent(ids) && id in connections && id !in Elements(ids)
    ensures NewestFirst(more, connections) && AllDifferent(more) && Elements(more) == Elements(ids) + {id}
  {
    var k := |ids|;
    while k > 0 && Before(connections[id], connections[ids[k - 1]])
      invariant 0 <= k <= |ids|
      invariant forall i :: k <= i < |ids| ==> Before(connections[id], connections[ids[i]])
    {
      k := k - 1;
    }
    more := ids[..k] + [id] + ids[k..];
    InsertedElements(ids, k, id);
    InsertedOrder(ids, k, id, connections);
  }

  lemma InsertedOrder(ids: seq<string>, k: nat, id: string, connections: Connections)
    requires NewestFirst(ids, connections) && AllDifferent(ids) && id in connections && id !in Elements(ids)
    requires k <= |ids| && (k > 0 ==> !Before(connections[id], connections[ids[k - 1]]))
    requires forall i :: k <= i < |ids| ==> Before(connections[id], connections[ids[i]])
    ensures NewestFirst(ids[..k] + [id] + ids[k..], connections) && AllDifferent(ids[..k] + [id] + ids[k..])
  {
    var more := ids[..k] + [id] + ids[k..];
    forall i | 0 <= i < k
      ensures !Before(connections[id], connections[ids[i]])
    {
      assert i < k - 1 ==> !Before(connections[ids[k - 1]], connections[ids[i]]);
    }
    forall i | 0 <= i < |more|
      ensures more[i] == if i == k then id else ids[if i < k then i else i - 1]
      ensures more[i] in connections && (i != k ==> more[i] in Elements(ids))
    {
    }
    forall i, j | 0 <= i < j < |more|
      ensures more[i] != more[j] && !Before(connections[more[j]], connections[more[i]])
    {
    }
  }

  method Sorted(connections: Connections) returns (ids: seq<string>)
    ensures NewestFirst(ids, connections) && AllDifferent(ids) && Elements(ids) == connections.Keys
  {
    ids := [];
    var todo := connections.Keys;
    while todo != {}
      invariant todo <= connections.Keys && Elements(ids) == connections.Keys - todo
      invariant NewestFirst(ids, connections) && AllDifferent(ids)
      decreases todo
    {
      var id :| id in todo;
      ids := Insert(ids, id, connections);
      todo := todo - {id};
    }
  }

  /** What the heartbeat's connections make of the stored ones: a repeated id takes the last one's data. */
  function Observed(connections: Connections, beat: seq<Session>, now: int): Connections {
    if beat == [] then connections
    else
      var last := beat[|beat| - 1];
      Observed(connections, beat[..|beat| - 1], now)[last.id := Stored(last.lastActivity, now)]
  }

  lemma {:induction false} ObservedNow(connections: Connections, beat: seq<Session>, now: int)
    ensures Observed(connections, beat, now).Keys == connections.Keys + Ids(beat)
    ensures forall id :: id in Ids(beat) ==> Observed(connections, beat, now)[id].observedAt == now
    ensures forall id :: id in connections && id !in Ids(beat) ==> Observed(connections, beat, now)[id] == connections[id]
  {
    if beat != [] {
      var n := |beat| - 1;
      ObservedNow(connections, beat[..n], now);
      assert Ids(beat) == Ids(beat[..n]) + {beat[n].id};
    }
  }

  /** The data of a repeated id is that of its last place in the heartbeat. */
  lemma {:induction false} LastOneCounts(connections: Connections, beat: seq<Session>, now: int, i: nat)
    requires i < |beat| && forall j :: i < j < |beat| ==> beat[j].id != beat[i].id
    ensures beat[i].id in Observed(connections, beat, now)
    ensures Observed(connections, beat, now)[beat[i].id] == Stored(beat[i].lastActivity, now)
  {
    if i < |beat| - 1 {
      LastOneCounts(connections, beat[..|beat| - 1], now, i);
    }
  }

  /** At most 4000 are kept, unchanged, and only older ones had to go. */
  ghost predicate Pruned(connections: Connections, kept: Connections) {
    && kept.Keys <= connections.Keys && (forall id :: id in kept ==> kept[id] == connections[id])
    && (if |connections| <= STORED then kept == connections else |kept| == STORED)
    && (forall gone, id :: gone in connections && gone !in kept && id in kept ==> NotNewer(connections[gone], connections[id]))
  }

  /** Observed no later; and of what was observed at the same time, active no later. */
  ghost predicate NotNewer(a: Stored, b: Stored) {
    a.observedAt <= b.observedAt && (a.observedAt == b.observedAt ==> a.lastActivity <= b.lastActivity)
  }

  ghost predicate CurrentOnly(connections: Connections, current: set<string>, now: int) {
    && |current| <= SNAPSHOTS
    && forall id :: id in connections ==> if id in current then connections[id].observedAt == now else connections[id].observedAt < now
  }

  /** What was just reported is never what has to go. */
  lemma CurrentIsKept(connections: Connections, kept: Connections, current: set<string>, now: int, id: string)
    requires Pruned(connections, kept) && CurrentOnly(connections, current, now)
    requires id in current && id in connections
    ensures id in kept
  {
    if id !in kept {
      forall other | other in kept
        ensures other in current
      {
        assert NotNewer(connections[id], connections[other]);
      }
      assert |kept.Keys| == |kept|;
      Fits(kept.Keys, current);
    }
  }

  lemma Fits(part: set<string>, whole: set<string>)
    requires part <= whole
    ensures |part| <= |whole|
  {
    assert whole == part + (whole - part);
  }

  lemma {:induction false} FewIds(beat: seq<Session>)
    ensures |Ids(beat)| <= |beat|
  {
    if beat != [] {
      FewIds(beat[..|beat| - 1]);
      assert Ids(beat) == Ids(beat[..|beat| - 1]) + {beat[|beat| - 1].id};
    }
  }

  /** What a heartbeat adds to: nothing if it is complete or the node's first. */
  function Basis(all: map<string, Connections>, node: string, complete: bool): Connections {
    if complete || node !in all then map[] else all[node]
  }

  ghost predicate Bounded(all: map<string, Connections>) {
    forall node :: node in all ==> |all[node]| <= STORED
  }

  /** Everything stored was observed before this moment. */
  ghost predicate Older(connections: Connections, now: int) {
    forall id :: id in connections ==> connections[id].observedAt < now
  }

  /**
   What is stored after a heartbeat: what it reported, as of now, and what was there before, as
   much as fits. Of a heartbeat within the server's limit nothing is missing if time has moved on.
   */
  ghost predicate Reports(before: Connections, beat: seq<Session>, now: int, kept: Connections) {
    && |kept| <= 4000 && kept.Keys <= before.Keys + Ids(beat)
    && (forall id :: id in kept ==> if id in Ids(beat) then kept[id].observedAt == now else kept[id] == before[id])
    && (forall i :: 0 <= i < |beat| && beat[i].id in kept && (forall j :: i < j < |beat| ==> beat[j].id != beat[i].id) ==>
          kept[beat[i].id].lastActivity == beat[i].lastActivity)
    && Pruned(Observed(before, beat, now), kept)
    && (|before.Keys + Ids(beat)| <= 4000 ==> kept.Keys == before.Keys + Ids(beat))
    && (|before.Keys + Ids(beat)| > 4000 ==> |kept| == 4000)
    && (|beat| <= 2000 && Older(before, now) ==> Ids(beat) <= kept.Keys)
  }

  /** One heartbeat of a node, as received. */
  datatype Beat = Beat(node: string, sessions: seq<Session>, complete: bool, at: int)

  /** Only the reporting node's set changes. */
  ghost predicate Observes(all: map<string, Connections>, beat: Beat, all': map<string, Connections>) {
    && beat.node in all' && all' == all[beat.node := all'[beat.node]]
    && Reports(Basis(all, beat.node, beat.complete), beat.sessions, beat.at, all'[beat.node])
  }

  lemma Reported(before: Connections, beat: seq<Session>, now: int, kept: Connections)
    requires Pruned(Observed(before, beat, now), kept)
    ensures Reports(before, beat, now, kept)
  {
    var connections := Observed(before, beat, now);
    ObservedNow(before, beat, now);
    FewIds(beat);
    assert |connections.Keys| == |connections|;
    forall i | 0 <= i < |beat| && beat[i].id in kept && (forall j :: i < j < |beat| ==> beat[j].id != beat[i].id)
      ensures kept[beat[i].id].lastActivity == beat[i].lastActivity
    {
      LastOneCounts(before, beat, now, i);
    }
    if |beat| <= SNAPSHOTS && Older(before, now) {
      forall id | id in Ids(beat)
        ensures id in kept
      {
        CurrentIsKept(connections, kept, Ids(beat), now, id);
      }
    }
  }

  class ConnectionStore {
    var all: map<string, Connections>

    constructor ()
      ensures all == map[]
    {
      all := map[];
    }

    method Prune(connections: Connections) returns (kept: Connections)
      ensures Pruned(connections, kept)
    {
      if |connections| <= STORED {
        return connections;
      }
      var ids := Sorted(connections);
      OldestGo(connections, ids);
      var oldest := ids[STORED..];
      kept := connections - set i | 0 <= i < |oldest| :: oldest[i];
    }

    method Merge(before: Connections, beat: seq<Session>, now: int) returns (connections: Connections)
      ensures connections == Observed(before, beat, now)
    {
      connections := before;
      for i := 0 to |beat|
        invariant connections == Observed(before, beat[..i], now)
      {
        assert beat[..i + 1][..i] == beat[..i];
        connections := connections[beat[i].id := Stored(beat[i].lastActivity, now)];
      }
      assert beat[..|beat|] == beat;
    }

    method Update(before: Connections, beat: seq<Session>, now: int) returns (kept: Connections)
      ensures Reports(before, beat, now, kept)
    {
      var connections := Merge(before, beat, now);
      kept := Prune(connections);
      Reported(before, beat, now, kept);
    }

    /**
     Record a heartbeat's connections. A complete one replaces the node's set; a partial one
     adds to it; beyond the bound the oldest make room.
     */
    method Observe(node: string, beat: seq<Session>, complete: bool, now: int)
      requires Bounded(all)
      modifies this
      ensures Bounded(all) && Observes(old(all), Beat(node, beat, complete, now), all)
    {
      var before := Basis(all, node, complete);
      var kept := Update(before, beat, now);
      BoundedUpdate(all, node, before, beat, now, kept);
      all := all[node := kept];
    }
  }

  lemma BoundedUpdate(all: map<string, Connections>, node: string, before: Connections, beat: seq<Session>, now: int,
                      kept: Connections)
    requires Bounded(all) && Reports(before, beat, now, kept)
    ensures Bounded(all[node := kept])
  {
  }

  lemma OldestGo(connections: Connections, ids: seq<string>)
    requires |connections| > STORED
    requires NewestFirst(ids, connections) && AllDifferent(ids) && Elements(ids) == connections.Keys
    ensures |ids| == |connections| && Pruned(connections, connections - Elements(ids[STORED..]))
  {
    DifferentCount(ids);
    assert |connections.Keys| == |connections|;
    SplitElements(ids, STORED);
    DifferentCount(ids[..STORED]);
    var kept := connections - Elements(ids[STORED..]);
    assert kept.Keys == Elements(ids[..STORED]);
    assert |kept.Keys| == |kept|;
    forall gone, id | gone in connections && gone !in kept && id in kept
      ensures NotNewer(connections[gone], connections[id])
    {
      KeptIsNotOlder(connections, ids, gone, id);
    }
  }

  lemma KeptIsNotOlder(connections: Connections, ids: seq<string>, gone: string, id: string)
    requires STORED <= |ids| && NewestFirst(ids, connections)
    requires gone in Elements(ids[STORED..]) && id in Elements(ids[..STORED])
    ensures gone in connections && id in connections && NotNewer(connections[gone], connections[id])
  {
    var j :| 0 <= j < |ids[STORED..]| && ids[STORED..][j] == gone;
    var i :| 0 <= i < STORED && ids[..STORED][i] == id;
    assert ids[STORED + j] == gone && ids[i] == id;
  }

  lemma SplitElements(ids: seq<string>, k: nat)
    requires k <= |ids| && AllDifferent(ids)
    ensures Elements(ids[..k]) == Elements(ids) - Elements(ids[k..]) && AllDifferent(ids[..k])
  {
    forall i | k <= i < |ids|
      ensures ids[i] in Elements(ids[k..])
    {
      assert ids[k..][i - k] == ids[i];
    }
  }

  /** End to end: after a complete report the store holds exactly the agent's sessions. */
  lemma CompleteReportIsExact(forwarders: seq<Running>, report: Report, all: map<string, Connections>, node: string, now: int,
                              kept: Connections)
    requires report.connections == Capped(AllSessions(forwarders))
    requires report.complete && |AllSessions(forwarders)| <= SNAPSHOTS
    requires Reports(Basis(all, node, report.complete), report.connections, now, kept)
    ensures kept.Keys == Ids(AllSessions(forwarders))
  {
    assert report.connections == AllSessions(forwarders);
    FewIds(report.connections);
    assert Basis(all, node, true).Keys + Ids(report.connections) == Ids(report.connections);
  }

  /** A partial report takes nothing away: what fits is added to what was there, and the other nodes keep theirs. */
  lemma PartialReportAdds(all: map<string, Connections>, beat: Beat, all': map<string, Connections>)
    requires Observes(all, beat, all') && !beat.complete && beat.node in all
    requires |all[beat.node].Keys + Ids(beat.sessions)| <= STORED
    ensures all'[beat.node].Keys == all[beat.node].Keys + Ids(beat.sessions)
    ensures forall id :: id in all[beat.node] && id !in Ids(beat.sessions) ==> all'[beat.node][id] == all[beat.node][id]
    ensures forall node :: node in all && node != beat.node ==> node in all' && all'[node] == all[node]
  {
    hide Pruned, Observed;
  }

  // ---------- Over whole runs ----------

  /** The store before and after each heartbeat; each node's heartbeats are received later and later. */
  ghost predicate IsRun(states: seq<map<string, Connections>>, beats: seq<Beat>) {
    && |states| == |beats| + 1 && states[0] == map[]
    && (forall i :: 0 <= i < |beats| ==> Observes(states[i], beats[i], states[i + 1]))
    && (forall i, j :: 0 <= i < j < |beats| && beats[i].node == beats[j].node ==> beats[i].at < beats[j].at)
  }

  lemma ObservedOrKept(all: map<string, Connections>, beat: Beat, all': map<string, Connections>, node: string, id: string)
    requires Observes(all, beat, all') && node in all' && id in all'[node]
    ensures || (beat.node == node && beat.at == all'[node][id].observedAt)
            || (node in all && id in all[node] && all[node][id] == all'[node][id])
  {
    if beat.node == node {
      var before := Basis(all, node, beat.complete);
      assert id in Ids(beat.sessions) || id in before;
    }
  }

  lemma HeartbeatAt(states: seq<map<string, Connections>>, beats: seq<Beat>, i: int)
    requires IsRun(states, beats) && -1 <= i < |beats|
    ensures |states| == |beats| + 1 && states[0] == map[]
    ensures 0 <= i ==> Observes(states[i], beats[i], states[i + 1])
  {
  }

  /** A stored session was last observed by some earlier heartbeat of its node. */
  lemma {:induction false} StoredWasObserved(states: seq<map<string, Connections>>, beats: seq<Beat>, k: nat, node: string, id: string)
    returns (i: nat)
    requires IsRun(states, beats) && k <= |beats| && node in states[k] && id in states[k][node]
    ensures i < k && beats[i].node == node && beats[i].at == states[k][node][id].observedAt
  {
    hide *;
    HeartbeatAt(states, beats, k - 1);
    ObservedOrKept(states[k - 1], beats[k - 1], states[k], node, id);
    if beats[k - 1].node == node && beats[k - 1].at == states[k][node][id].observedAt {
      i := k - 1;
    } else {
      i := StoredWasObserved(states, beats, k - 1, node, id);
    }
  }

  /**
   So the bound never costs a current session: after every heartbeat within the server's limit,
   each session it reported is stored, whatever was stored before.
   */
  lemma CurrentIsAlwaysStored(states: seq<map<string, Connections>>, beats: seq<Beat>, k: nat)
    requires IsRun(states, beats) && k < |beats| && |beats[k].sessions| <= SNAPSHOTS
    ensures beats[k].node in states[k + 1] && Ids(beats[k].sessions) <= states[k + 1][beats[k].node].Keys
  {
    var beat := beats[k];
    var before := Basis(states[k], beat.node, beat.complete);
    assert Observes(states[k], beat, states[k + 1]);
    forall id | id in before
      ensures before[id].observedAt < beat.at
    {
      var i := StoredWasObserved(states, beats, k, beat.node, id);
    }
    assert Older(before, beat.at);
  }
}
