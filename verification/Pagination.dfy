/**
 Cursor pagination of audits and agent logs. A page holds the first entries older than the
 cursor; a full page hands out the time of its last entry as the next cursor. The zero time
 stands for no cursor; the server keeps it out of every listing, because audits carry the
 server's own time and agent logs without a time are refused.
 */
module CursorPagination {
  import opened Domain
  import opened Sequences

  datatype Entry = Entry(id: string, at: int, node: string, level: string)

  const ZERO_TIME := 0

  ghost predicate AfterZero(entries: seq<Entry>) {
    forall i :: 0 <= i < |entries| ==> entries[i].at > ZERO_TIME
  }

  /** Newest first; entries may share a time. */
  ghost predicate NewestFirst(entries: seq<Entry>) {
    forall i, j :: 0 <= i < j < |entries| ==> entries[i].at >= entries[j].at
  }

  predicate Visible(entry: Entry, before: int) {
    before == ZERO_TIME || entry.at < before
  }

  /** The first `limit` entries older than the cursor, from a list that is newest first. */
  function Page(entries: seq<Entry>, limit: nat, before: int): seq<Entry> {
    if entries == [] || limit == 0 then []
    else if Visible(entries[0], before) then [entries[0]] + Page(entries[1..], limit - 1, before)
    else Page(entries[1..], limit, before)
  }

  function NextBefore(page: seq<Entry>, limit: nat): Option<int> {
    if limit > 0 && |page| == limit then Some(page[limit - 1].at) else None
  }

  // ---------- The two listings ----------

  function Reversed(entries: seq<Entry>): seq<Entry> {
    if entries == [] then [] else [entries[|entries| - 1]] + Reversed(entries[..|entries| - 1])
  }

  lemma PageStep(part: seq<Entry>, entry: Entry, rest: seq<Entry>, limit: nat, before: int)
    requires |part| < limit
    ensures part + Page([entry] + rest, limit - |part|, before)
         == if Visible(entry, before) then (part + [entry]) + Page(rest, limit - |part| - 1, before)
            else part + Page(rest, limit - |part|, before)
  {
    assert ([entry] + rest)[1..] == rest;
  }

  /** Audits are stored in order of arrival and read from the end. */
  method ListAudit(audits: seq<Entry>, limit: nat, before: int) returns (page: seq<Entry>)
    ensures page == Page(Reversed(audits), limit, before)
    ensures IsPage(page, Reversed(audits), "", "", limit, before)
  {
    hide *;
    AuditPageIsExact(Reversed(audits), limit, before);
    page := [];
    var index := |audits|;
    assert audits[..index] == audits && [] + Page(Reversed(audits), limit, before) == Page(Reversed(audits), limit, before);
    while index > 0 && |page| < limit
      invariant 0 <= index <= |audits| && |page| <= limit
      invariant page + Page(Reversed(audits[..index]), limit - |page|, before) == Page(Reversed(audits), limit, before)
    {
      index := index - 1;
      var event := audits[index];
      ReversedStep(audits, index);
      PageStep(page, event, Reversed(audits[..index]), limit, before);
      if Visible(event, before) {
        page := page + [event];
      }
    }
    NothingLeft(audits[..index], limit - |page|, before);
    assert page + [] == page;
  }

  lemma ReversedStep(entries: seq<Entry>, i: nat)
    requires i < |entries|
    ensures Reversed(entries[..i + 1]) == [entries[i]] + Reversed(entries[..i])
  {
    assert entries[..i + 1][..i] == entries[..i];
  }

  lemma NothingLeft(entries: seq<Entry>, limit: nat, before: int)
    requires |entries| == 0 || limit == 0
    ensures Page(Reversed(entries), limit, before) == []
  {
  }

  predicate Matches(entry: Entry, node: string, level: string) {
    (node == "" || entry.node == node) && (level == "" || entry.level == level)
  }

  function Matching(entries: seq<Entry>, node: string, level: string): seq<Entry> {
    if entries == [] then []
    else (if Matches(entries[0], node, level) then [entries[0]] else []) + Matching(entries[1..], node, level)
  }

  /** Agent logs arrive here sorted, newest first. */
  method ListAgentLogs(sorted: seq<Entry>, node: string, level: string, limit: nat, before: int) returns (page: seq<Entry>)
    requires limit > 0
    ensures page == Page(Matching(sorted, node, level), limit, before)
    ensures IsPage(page, sorted, node, level, limit, before)
  {
    hide *;
    PageIsExact(sorted, node, level, limit, before);
    page := [];
    var i := 0;
    assert sorted[0..] == sorted;
    assert [] + Page(Matching(sorted, node, level), limit, before) == Page(Matching(sorted, node, level), limit, before);
    while i < |sorted|
      invariant 0 <= i <= |sorted| && |page| < limit
      invariant page + Page(Matching(sorted[i..], node, level), limit - |page|, before)
             == Page(Matching(sorted, node, level), limit, before)
    {
      var entry := sorted[i];
      OneEntry(page, sorted, i, node, level, limit, before);
      if Matches(entry, node, level) && Visible(entry, before) {
        page := page + [entry];
        if |page| == limit {
          PageOfZero(Matching(sorted[i + 1..], node, level), before);
          assert page + [] == page;
          return;
        }
      }
      i := i + 1;
    }
    assert sorted[i..] == [] && page + [] == page;
    NothingMore(node, level, limit - |page|, before);
  }

  lemma NothingMore(node: string, level: string, limit: nat, before: int)
    ensures Page(Matching([], node, level), limit, before) == []
  {
  }

  lemma PageOfZero(entries: seq<Entry>, before: int)
    ensures Page(entries, 0, before) == []
  {
  }

  /** Looking at one entry moves it from the rest to the page, if it matches and is visible. */
  lemma OneEntry(page: seq<Entry>, sorted: seq<Entry>, i: nat, node: string, level: string, limit: nat, before: int)
    requires i < |sorted| && |page| < limit
    ensures var entry := sorted[i]; var rest := Matching(sorted[i + 1..], node, level);
            page + Page(Matching(sorted[i..], node, level), limit - |page|, before)
            == if Matches(entry, node, level) && Visible(entry, before)
               then page + [entry] + Page(rest, limit - |page| - 1, before)
               else page + Page(rest, limit - |page|, before)
  {
    var entry := sorted[i];
    assert sorted[i..][0] == entry && sorted[i..][1..] == sorted[i + 1..];
    var rest := Matching(sorted[i + 1..], node, level);
    assert [] + rest == rest;
    if Matches(entry, node, level) {
      PageStep(page, entry, rest, limit, before);
    }
  }

  // ---------- What a page holds, in the entries' own fields ----------

  /** `picks` are the positions the page was taken from, in order: of the node and the level asked for, older than the cursor. */
  ghost predicate Taken(page: seq<Entry>, entries: seq<Entry>, picks: seq<nat>, node: string, level: string, limit: nat, before: int) {
    && |picks| == |page| <= limit
    && (forall k :: 0 <= k < |picks| ==> picks[k] < |entries| && page[k] == entries[picks[k]])
    && (forall j, k :: 0 <= j < k < |picks| ==> picks[j] < picks[k])
    && (forall k :: 0 <= k < |page| ==>
          (node == "" || page[k].node == node) && (level == "" || page[k].level == level)
          && (before == ZERO_TIME || page[k].at < before))
  }

  /** An entry of that kind that was not taken lies behind all that were, and the page is full. */
  ghost predicate NoneMissed(entries: seq<Entry>, picks: seq<nat>, node: string, level: string, limit: nat, before: int) {
    forall i :: 0 <= i < |entries| && (node == "" || entries[i].node == node)
                && (level == "" || entries[i].level == level) && (before == ZERO_TIME || entries[i].at < before) ==>
      i in picks || (|picks| == limit && forall k :: 0 <= k < |picks| ==> picks[k] < i)
  }

  ghost predicate IsPage(page: seq<Entry>, entries: seq<Entry>, node: string, level: string, limit: nat, before: int) {
    exists picks :: Taken(page, entries, picks, node, level, limit, before) && NoneMissed(entries, picks, node, level, limit, before)
  }

  lemma {:induction false} PageIsExact(entries: seq<Entry>, node: string, level: string, limit: nat, before: int)
    ensures IsPage(Page(Matching(entries, node, level), limit, before), entries, node, level, limit, before)
  {
    if entries == [] || limit == 0 {
      assert Page(Matching(entries, node, level), limit, before) == [];
      assert Taken([], entries, [], node, level, limit, before);
    } else {
      FirstOf(entries, node, level, limit, before);
      hide *;
      assert entries == [entries[0]] + entries[1..];
      if Matches(entries[0], node, level) && Visible(entries[0], before) {
        PageIsExact(entries[1..], node, level, limit - 1, before);
        OnePicked(Page(Matching(entries[1..], node, level), limit - 1, before), entries[0], entries[1..], node, level, limit, before);
      } else {
        PageIsExact(entries[1..], node, level, limit, before);
        OnePassed(Page(Matching(entries[1..], node, level), limit, before), entries[0], entries[1..], node, level, limit, before);
      }
    }
  }

  function Shifted(picks: seq<nat>): (shifted: seq<nat>)
    ensures |shifted| == |picks| && forall k :: 0 <= k < |picks| ==> shifted[k] == picks[k] + 1
  {
    seq(|picks|, k requires 0 <= k < |picks| => picks[k] + 1)
  }

  lemma FirstOf(entries: seq<Entry>, node: string, level: string, limit: nat, before: int)
    requires entries != [] && limit > 0
    ensures var entry := entries[0]; var rest := Matching(entries[1..], node, level);
            Page(Matching(entries, node, level), limit, before)
            == if Matches(entry, node, level) && Visible(entry, before) then [entry] + Page(rest, limit - 1, before)
               else Page(rest, limit, before)
  {
    var entry, rest := entries[0], Matching(entries[1..], node, level);
    assert ([entry] + rest)[1..] == rest && [] + rest == rest;
  }

  lemma OnePicked(page: seq<Entry>, entry: Entry, rest: seq<Entry>, node: string, level: string, limit: nat, before: int)
    requires limit > 0 && IsPage(page, rest, node, level, limit - 1, before)
    requires Matches(entry, node, level) && Visible(entry, before)
    ensures IsPage([entry] + page, [entry] + rest, node, level, limit, before)
  {
    var picks :| Taken(page, rest, picks, node, level, limit - 1, before) && NoneMissed(rest, picks, node, level, limit - 1, before);
    hide *;
    TakenFirst(page, entry, rest, picks, node, level, limit, before);
    MissedWithFirst(entry, rest, picks, node, level, limit, before);
    Means([entry] + page, [entry] + rest, [0] + Shifted(picks), node, level, limit, before);
  }

  lemma OnePassed(page: seq<Entry>, entry: Entry, rest: seq<Entry>, node: string, level: string, limit: nat, before: int)
    requires IsPage(page, rest, node, level, limit, before)
    requires !(Matches(entry, node, level) && Visible(entry, before))
    ensures IsPage(page, [entry] + rest, node, level, limit, before)
  {
    var picks :| Taken(page, rest, picks, node, level, limit, before) && NoneMissed(rest, picks, node, level, limit, before);
    hide *;
    TakenLater(page, entry, rest, picks, node, level, limit, before);
    MissedWithout(entry, rest, picks, node, level, limit, before);
    Means(page, [entry] + rest, Shifted(picks), node, level, limit, before);
  }

  lemma Means(page: seq<Entry>, entries: seq<Entry>, picks: seq<nat>, node: string, level: string, limit: nat, before: int)
    requires Taken(page, entries, picks, node, level, limit, before) && NoneMissed(entries, picks, node, level, limit, before)
    ensures IsPage(page, entries, node, level, limit, before)
  {
  }

  lemma TakenLater(page: seq<Entry>, entry: Entry, rest: seq<Entry>, picks: seq<nat>, node: string, level: string, limit: nat, before: int)
    requires Taken(page, rest, picks, node, level, limit, before)
    ensures Taken(page, [entry] + rest, Shifted(picks), node, level, limit, before)
  {
  }

  lemma TakenFirst(page: seq<Entry>, entry: Entry, rest: seq<Entry>, picks: seq<nat>, node: string, level: string, limit: nat, before: int)
    requires limit > 0 && Taken(page, rest, picks, node, level, limit - 1, before)
    requires Matches(entry, node, level) && Visible(entry, before)
    ensures Taken([entry] + page, [entry] + rest, [0] + Shifted(picks), node, level, limit, before)
  {
    var entries, all, page' := [entry] + rest, [0] + Shifted(picks), [entry] + page;
    forall k | 0 <= k < |all|
      ensures all[k] < |entries| && page'[k] == entries[all[k]]
      ensures (node == "" || page'[k].node == node) && (level == "" || page'[k].level == level)
              && (before == ZERO_TIME || page'[k].at < before)
    {
      if k > 0 {
        assert page'[k] == page[k - 1] && all[k] == picks[k - 1] + 1;
      }
    }
  }

  lemma MissedWithFirst(entry: Entry, rest: seq<Entry>, picks: seq<nat>, node: string, level: string, limit: nat, before: int)
    requires limit > 0 && NoneMissed(rest, picks, node, level, limit - 1, before)
    ensures NoneMissed([entry] + rest, [0] + Shifted(picks), node, level, limit, before)
  {
    var entries, all := [entry] + rest, [0] + Shifted(picks);
    forall i | 0 <= i < |entries| && (node == "" || entries[i].node == node)
               && (level == "" || entries[i].level == level) && (before == ZERO_TIME || entries[i].at < before)
      ensures i in all || (|all| == limit && forall k :: 0 <= k < |all| ==> all[k] < i)
    {
      if i > 0 {
        assert entries[i] == rest[i - 1];
        if k :| 0 <= k < |picks| && picks[k] == i - 1 {
          assert all[k + 1] == i;
        }
      } else {
        assert all[0] == i;
      }
    }
  }

  lemma MissedWithout(entry: Entry, rest: seq<Entry>, picks: seq<nat>, node: string, level: string, limit: nat, before: int)
    requires NoneMissed(rest, picks, node, level, limit, before)
    requires !(Matches(entry, node, level) && Visible(entry, before))
    ensures NoneMissed([entry] + rest, Shifted(picks), node, level, limit, before)
  {
    var entries, all := [entry] + rest, Shifted(picks);
    forall i | 0 <= i < |entries| && (node == "" || entries[i].node == node)
               && (level == "" || entries[i].level == level) && (before == ZERO_TIME || entries[i].at < before)
      ensures i in all || (|all| == limit && forall k :: 0 <= k < |all| ==> all[k] < i)
    {
      assert entries[i] == rest[i - 1];
      if k :| 0 <= k < |picks| && picks[k] == i - 1 {
        assert all[k] == i;
      }
    }
  }

  lemma {:induction false} MatchingAll(entries: seq<Entry>)
    ensures Matching(entries, "", "") == entries
  {
    if entries != [] {
      MatchingAll(entries[1..]);
    }
  }

  lemma AuditPageIsExact(entries: seq<Entry>, limit: nat, before: int)
    ensures IsPage(Page(entries, limit, before), entries, "", "", limit, before)
  {
    PageIsExact(entries, "", "", limit, before);
    MatchingAll(entries);
  }

  /** The audits are read from the last to the first. */
  lemma {:induction false} ReadFromTheEnd(entries: seq<Entry>, i: nat)
    requires i < |entries|
    ensures |Reversed(entries)| == |entries| && Reversed(entries)[i] == entries[|entries| - 1 - i]
  {
    if i > 0 {
      ReadFromTheEnd(entries[..|entries| - 1], i - 1);
    } else if |entries| > 1 {
      ReadFromTheEnd(entries[..|entries| - 1], 0);
    } else {
      assert Reversed(entries[..0]) == [];
    }
  }

  // ---------- Following the cursor ----------

  /** The cursor after k pages: the first request has none, and None means there is no further page. */
  function CursorAfter(entries: seq<Entry>, limit: nat, k: nat): Option<int> {
    if k == 0 then Some(ZERO_TIME)
    else match CursorAfter(entries, limit, k - 1)
         case None => None
         case Some(before) => NextBefore(Page(entries, limit, before), limit)
  }

  /** Everything the first k requests returned. */
  function Followed(entries: seq<Entry>, limit: nat, k: nat): seq<Entry> {
    if k == 0 then []
    else match CursorAfter(entries, limit, k - 1)
         case None => Followed(entries, limit, k - 1)
         case Some(before) => Followed(entries, limit, k - 1) + Page(entries, limit, before)
  }

  lemma FollowStep(entries: seq<Entry>, limit: nat, k: nat, before: int)
    requires CursorAfter(entries, limit, k) == Some(before)
    ensures CursorAfter(entries, limit, k + 1) == NextBefore(Page(entries, limit, before), limit)
    ensures Followed(entries, limit, k + 1) == Followed(entries, limit, k) + Page(entries, limit, before)
  {
  }

  /** The entries older than the cursor. */
  function Older(entries: seq<Entry>, before: int): seq<Entry> {
    if entries == [] then []
    else (if Visible(entries[0], before) then [entries[0]] else []) + Older(entries[1..], before)
  }

  lemma {:induction false} PageIsOldersPrefix(entries: seq<Entry>, limit: nat, before: int)
    ensures Page(entries, limit, before) == Older(entries, before)[..Min(limit, |Older(entries, before)|)]
  {
    if entries != [] && limit > 0 {
      PageIsOldersPrefix(entries[1..], limit - 1, before);
      PageIsOldersPrefix(entries[1..], limit, before);
    }
  }

  lemma {:induction false} OlderMembers(entries: seq<Entry>, before: int, entry: Entry)
    ensures entry in Older(entries, before) <==> entry in entries && Visible(entry, before)
  {
    if entries != [] {
      OlderMembers(entries[1..], before, entry);
      assert entries == [entries[0]] + entries[1..];
    }
  }

  lemma PageMembers(entries: seq<Entry>, limit: nat, before: int, entry: Entry)
    requires entry in Page(entries, limit, before)
    ensures entry in entries && Visible(entry, before)
  {
    PageIsOldersPrefix(entries, limit, before);
    OlderMembers(entries, before, entry);
  }

  // ---------- It always ends ----------

  lemma {:induction false} FewerOlder(entries: seq<Entry>, before: int, next: int, last: Entry)
    requires next != ZERO_TIME && (before == ZERO_TIME || next < before)
    ensures |Older(entries, next)| <= |Older(entries, before)|
    ensures last in entries && last.at == next && Visible(last, before) ==> |Older(entries, next)| < |Older(entries, before)|
  {
    if entries != [] {
      assert entries == [entries[0]] + entries[1..];
      FewerOlder(entries[1..], before, next, last);
    }
  }

  /** A cursor is older than everything the request before it could see. */
  lemma CursorFalls(entries: seq<Entry>, limit: nat, before: int) returns (last: Entry)
    requires AfterZero(entries) && NextBefore(Page(entries, limit, before), limit).Some?
    ensures last in entries && Visible(last, before) && last.at > ZERO_TIME
    ensures NextBefore(Page(entries, limit, before), limit) == Some(last.at)
  {
    last := Page(entries, limit, before)[limit - 1];
    PageMembers(entries, limit, before, last);
  }

  /** Whatever the times and their order, following `nextBefore` ends. */
  lemma {:induction false} FollowingEnds(entries: seq<Entry>, limit: nat, k: nat, before: int) returns (pages: nat)
    requires AfterZero(entries) && CursorAfter(entries, limit, k) == Some(before)
    ensures k < pages && CursorAfter(entries, limit, pages) == None
    decreases |Older(entries, before)|
  {
    FollowStep(entries, limit, k, before);
    if NextBefore(Page(entries, limit, before), limit) == None {
      pages := k + 1;
    } else {
      var last := CursorFalls(entries, limit, before);
      FewerOlder(entries, before, last.at, last);
      pages := FollowingEnds(entries, limit, k + 1, last.at);
    }
  }

  // ---------- When it is exact ----------

  /** After n entries the cursor separates what was returned from what is still to come. */
  ghost predicate CleanCut(entries: seq<Entry>, n: nat)
    requires 0 < n <= |entries|
  {
    && (forall i :: 0 <= i < n ==> entries[i].at >= entries[n - 1].at)
    && (forall j :: n <= j < |entries| ==> entries[j].at < entries[n - 1].at)
  }

  /** The k-th page is full and ends at a clean cut, or it is not full. */
  ghost predicate CleanPage(entries: seq<Entry>, limit: nat, k: nat) {
    0 < k * limit <= |entries| ==> CleanCut(entries, k * limit)
  }

  ghost predicate Clean(entries: seq<Entry>, limit: nat) {
    forall k: nat :: CleanPage(entries, limit, k)
  }

  lemma {:induction false} AllOlder(entries: seq<Entry>, before: int)
    requires forall i :: 0 <= i < |entries| ==> Visible(entries[i], before)
    ensures Older(entries, before) == entries
  {
    if entries != [] {
      AllOlder(entries[1..], before);
    }
  }

  lemma {:induction false} SkipNewer(entries: seq<Entry>, n: nat, before: int)
    requires n <= |entries| && forall i :: 0 <= i < n ==> !Visible(entries[i], before)
    ensures Older(entries, before) == Older(entries[n..], before)
  {
    if n > 0 {
      SkipNewer(entries[1..], n - 1, before);
      assert entries[1..][n - 1..] == entries[n..];
    } else {
      assert entries[0..] == entries;
    }
  }

  /** The walk is past the first n entries, and the cursor says just that. */
  ghost predicate At(entries: seq<Entry>, n: nat, before: int) {
    && n <= |entries|
    && if n == 0 then before == ZERO_TIME else before == entries[n - 1].at && CleanCut(entries, n)
  }

  /** From a clean cut on, the page is the slice that follows. */
  lemma PageIsSlice(entries: seq<Entry>, limit: nat, n: nat, before: int)
    requires AfterZero(entries) && At(entries, n, before)
    ensures Page(entries, limit, before) == entries[n..][..Min(limit, |entries| - n)]
  {
    SkipNewer(entries, n, before);
    AllOlder(entries[n..], before);
    PageIsOldersPrefix(entries, limit, before);
  }

  lemma Positive(k: nat, limit: nat)
    requires k > 0 && limit > 0
    ensures k * limit > 0
  {
  }

  /** From a clean cut, one more page is the next slice. */
  lemma OnePageOn(entries: seq<Entry>, limit: nat, k: nat, n: nat)
    requires AfterZero(entries) && 0 < limit && n + limit <= |entries|
    requires Followed(entries, limit, k) == entries[..n]
    requires CursorAfter(entries, limit, k) == Some(if n == 0 then ZERO_TIME else entries[n - 1].at)
    requires n > 0 ==> CleanCut(entries, n)
    ensures Followed(entries, limit, k + 1) == entries[..n + limit]
    ensures CursorAfter(entries, limit, k + 1) == Some(entries[n + limit - 1].at)
  {
    var before := CursorAfter(entries, limit, k).value;
    PageIsSlice(entries, limit, n, before);
    FollowStep(entries, limit, k, before);
    hide Page, Followed, CursorAfter, CleanCut, AfterZero;
    assert entries[..n] + entries[n..][..limit] == entries[..n + limit];
  }

  /** While the cuts are clean, k pages are the first k * limit entries. */
  lemma {:induction false} PagesAdvance(entries: seq<Entry>, limit: nat, k: nat)
    requires AfterZero(entries) && 0 < limit && k * limit <= |entries|
    requires forall m: nat :: m < k ==> CleanPage(entries, limit, m)
    ensures Followed(entries, limit, k) == entries[..k * limit]
    ensures CursorAfter(entries, limit, k) == Some(if k == 0 then ZERO_TIME else entries[k * limit - 1].at)
  {
    if k > 0 {
      var n := (k - 1) * limit;
      assert n + limit == k * limit;
      PagesAdvance(entries, limit, k - 1);
      if k > 1 {
        Positive(k - 1, limit);
        assert CleanPage(entries, limit, k - 1);
      }
      OnePageOn(entries, limit, k - 1, n);
    }
  }

  lemma {:induction false} FullPages(n: nat, limit: nat) returns (full: nat)
    requires 0 < limit
    ensures full * limit <= n < full * limit + limit
    decreases n
  {
    if n < limit {
      full := 0;
    } else {
      full := FullPages(n - limit, limit);
      full := full + 1;
    }
  }

  /** The page after the last full one is short, so it is the last. */
  lemma LastPage(entries: seq<Entry>, limit: nat, full: nat, n: nat, before: int)
    requires AfterZero(entries) && At(entries, n, before) && |entries| < n + limit
    requires CursorAfter(entries, limit, full) == Some(before) && Followed(entries, limit, full) == entries[..n]
    ensures CursorAfter(entries, limit, full + 1) == None && Followed(entries, limit, full + 1) == entries
  {
    PageIsSlice(entries, limit, n, before);
    FollowStep(entries, limit, full, before);
    assert entries[..n] + entries[n..][..|entries| - n] == entries;
  }

  /** With clean cuts the walk returns the whole listing, in order. */
  lemma CleanIsComplete(entries: seq<Entry>, limit: nat) returns (pages: nat)
    requires AfterZero(entries) && 0 < limit && Clean(entries, limit)
    ensures CursorAfter(entries, limit, pages) == None && Followed(entries, limit, pages) == entries
  {
    var full := FullPages(|entries|, limit);
    hide Page, Followed, CursorAfter;
    PagesAdvance(entries, limit, full);
    if full > 0 {
      Positive(full, limit);
      assert CleanPage(entries, limit, full);
    }
    LastPage(entries, limit, full, full * limit, CursorAfter(entries, limit, full).value);
    pages := full + 1;
  }

  lemma {:induction false} EndIsFinal(entries: seq<Entry>, limit: nat, k: nat, later: nat)
    requires CursorAfter(entries, limit, k) == None && k <= later
    ensures CursorAfter(entries, limit, later) == None && Followed(entries, limit, later) == Followed(entries, limit, k)
  {
    if k < later {
      EndIsFinal(entries, limit, k, later - 1);
    }
  }

  /** What comes after a cursor is older than it, and what came before stays. */
  lemma {:induction false} AfterCursor(entries: seq<Entry>, limit: nat, m: nat, k: nat, cursor: int)
    requires AfterZero(entries) && CursorAfter(entries, limit, m) == Some(cursor) && cursor != ZERO_TIME && m <= k
    ensures Followed(entries, limit, m) <= Followed(entries, limit, k)
    ensures forall x :: x in Followed(entries, limit, k)[|Followed(entries, limit, m)|..] ==> x.at < cursor
    ensures CursorAfter(entries, limit, k).Some? ==>
              var next := CursorAfter(entries, limit, k).value;
              ZERO_TIME < next <= cursor || next == cursor
  {
    if m < k {
      AfterCursor(entries, limit, m, k - 1, cursor);
      if CursorAfter(entries, limit, k - 1).Some? {
        var before := CursorAfter(entries, limit, k - 1).value;
        FollowStep(entries, limit, k - 1, before);
        forall x | x in Page(entries, limit, before)
          ensures x.at < cursor
        {
          PageMembers(entries, limit, before, x);
        }
        if NextBefore(Page(entries, limit, before), limit).Some? {
          var last := CursorFalls(entries, limit, before);
        }
      }
    }
  }

  /** An entry after the cut that is not older than the cursor is never returned. */
  lemma SkippedForever(entries: seq<Entry>, limit: nat, m: nat, pages: nat, n: nat, j: nat)
    requires AfterZero(entries) && AllDifferent(entries) && 0 < n <= j < |entries| && m <= pages
    requires CursorAfter(entries, limit, m) == Some(entries[n - 1].at) && Followed(entries, limit, m) == entries[..n]
    requires entries[j].at >= entries[n - 1].at
    ensures entries[j] !in Followed(entries, limit, pages)
  {
    AfterCursor(entries, limit, m, pages, entries[n - 1].at);
    var all := Followed(entries, limit, pages);
    assert all == all[..n] + all[n..] && all[..n] == entries[..n];
  }

  /** The first entry older than the cursor comes next, even if it was returned before the cut. */
  lemma {:induction false} FirstOlder(entries: seq<Entry>, before: int, i: nat)
    requires i < |entries| && Visible(entries[i], before)
    ensures Older(entries, before) != [] && Older(entries, before)[0] in entries[..i + 1]
  {
    if i > 0 && !Visible(entries[0], before) {
      FirstOlder(entries[1..], before, i - 1);
      assert entries[1..][..i] == entries[1..i + 1];
      assert entries[..i + 1] == [entries[0]] + entries[1..i + 1];
    }
  }

  lemma ReturnedTwice(entries: seq<Entry>, limit: nat, m: nat, n: nat, i: nat) returns (again: Entry)
    requires AfterZero(entries) && 0 < limit && i < n <= |entries| && entries[i].at < entries[n - 1].at
    requires CursorAfter(entries, limit, m) == Some(entries[n - 1].at) && Followed(entries, limit, m) == entries[..n]
    ensures again in entries && multiset(Followed(entries, limit, m + 1))[again] >= 2
  {
    var before := entries[n - 1].at;
    FollowStep(entries, limit, m, before);
    FirstOlder(entries, before, i);
    PageIsOldersPrefix(entries, limit, before);
    var page := Page(entries, limit, before);
    again := page[0];
    assert again in entries[..n] && again in page;
    assert multiset(entries[..n] + page) == multiset(entries[..n]) + multiset(page);
  }

  lemma {:induction false} OneOfEach(entries: seq<Entry>, entry: Entry)
    requires AllDifferent(entries)
    ensures multiset(entries)[entry] <= 1
  {
    if entries != [] {
      var n := |entries| - 1;
      OneOfEach(entries[..n], entry);
      assert entries == entries[..n] + [entries[n]];
    }
  }

  lemma PrefixCounts(part: seq<Entry>, whole: seq<Entry>, entry: Entry)
    requires part <= whole
    ensures multiset(part)[entry] <= multiset(whole)[entry]
  {
    assert whole == part + whole[|part|..];
  }

  lemma LaterEntryIsLost(entries: seq<Entry>, limit: nat, m: nat, n: nat, j: nat, pages: nat)
    requires AfterZero(entries) && AllDifferent(entries) && 0 < n <= j < |entries| && m <= pages
    requires CursorAfter(entries, limit, m) == Some(entries[n - 1].at) && Followed(entries, limit, m) == entries[..n]
    requires entries[j].at >= entries[n - 1].at
    ensures multiset(Followed(entries, limit, pages)) != multiset(entries)
  {
    SkippedForever(entries, limit, m, pages, n, j);
    hide *;
    assert entries[j] in multiset(entries) && entries[j] !in multiset(Followed(entries, limit, pages));
  }

  lemma EarlierEntryIsRepeated(entries: seq<Entry>, limit: nat, m: nat, n: nat, i: nat, pages: nat)
    requires AfterZero(entries) && AllDifferent(entries) && 0 < limit && i < n <= |entries| && m < pages
    requires CursorAfter(entries, limit, m) == Some(entries[n - 1].at) && Followed(entries, limit, m) == entries[..n]
    requires entries[i].at < entries[n - 1].at
    ensures multiset(Followed(entries, limit, pages)) != multiset(entries)
  {
    var again := ReturnedTwice(entries, limit, m, n, i);
    Grows(entries, limit, m + 1, pages);
    OneOfEach(entries, again);
    hide *;
    PrefixCounts(Followed(entries, limit, m + 1), Followed(entries, limit, pages), again);
  }

  /** A cut that is not clean loses an entry or repeats one. */
  lemma DirtyCutFails(entries: seq<Entry>, limit: nat, m: nat, n: nat, pages: nat)
    requires AfterZero(entries) && AllDifferent(entries) && 0 < limit && 0 < n <= |entries| && !CleanCut(entries, n)
    requires CursorAfter(entries, limit, m) == Some(entries[n - 1].at) && Followed(entries, limit, m) == entries[..n]
    requires CursorAfter(entries, limit, pages) == None
    ensures multiset(Followed(entries, limit, pages)) != multiset(entries)
  {
    hide Followed, CursorAfter;
    if pages <= m {
      EndIsFinal(entries, limit, pages, m);
    }
    if j: nat :| n <= j < |entries| && entries[j].at >= entries[n - 1].at {
      LaterEntryIsLost(entries, limit, m, n, j, pages);
    } else {
      var i: nat :| i < n && entries[i].at < entries[n - 1].at;
      EarlierEntryIsRepeated(entries, limit, m, n, i, pages);
    }
  }

  lemma {:induction false} Grows(entries: seq<Entry>, limit: nat, k: nat, later: nat)
    requires k <= later
    ensures Followed(entries, limit, k) <= Followed(entries, limit, later)
  {
    if k < later {
      Grows(entries, limit, k, later - 1);
    }
  }

  lemma {:induction false} FirstDirty(entries: seq<Entry>, limit: nat, m: nat) returns (first: nat)
    requires !CleanPage(entries, limit, m)
    ensures !CleanPage(entries, limit, first) && forall k: nat :: k < first ==> CleanPage(entries, limit, k)
  {
    hide CleanPage;
    if k: nat :| k < m && !CleanPage(entries, limit, k) {
      first := FirstDirty(entries, limit, k);
    } else {
      first := m;
    }
  }

  /**
   The exact condition, for any listing of different entries in any order: following
   `nextBefore` to its end returns every entry exactly once if and only if every full page ends
   at a clean cut; and then it returns the listing itself, in order.
   */
  lemma FollowingIsExactIff(entries: seq<Entry>, limit: nat, pages: nat)
    requires AfterZero(entries) && AllDifferent(entries) && 0 < limit && CursorAfter(entries, limit, pages) == None
    ensures multiset(Followed(entries, limit, pages)) == multiset(entries) <==> Clean(entries, limit)
    ensures Clean(entries, limit) ==> Followed(entries, limit, pages) == entries
  {
    hide Followed, CursorAfter;
    if Clean(entries, limit) {
      var full := CleanIsComplete(entries, limit);
      EndIsFinal(entries, limit, if full < pages then full else pages, if full < pages then pages else full);
    } else {
      var m: nat :| !CleanPage(entries, limit, m);
      var first := FirstDirty(entries, limit, m);
      PagesAdvance(entries, limit, first);
      DirtyCutFails(entries, limit, first, first * limit, pages);
    }
  }

  /** In a newest-first listing: no full page may end between two entries of the same time. */
  lemma CleanMeansNoSplitTime(entries: seq<Entry>, limit: nat)
    requires NewestFirst(entries) && 0 < limit
    ensures Clean(entries, limit) <==>
              forall k: nat :: 0 < k * limit < |entries| ==> entries[k * limit - 1].at != entries[k * limit].at
  {
    forall k: nat
      ensures CleanPage(entries, limit, k) <==> (0 < k * limit < |entries| ==> entries[k * limit - 1].at != entries[k * limit].at)
    {
      CleanCutIff(entries, k * limit);
    }
  }

  lemma CleanCutIff(entries: seq<Entry>, n: int)
    requires NewestFirst(entries)
    ensures (0 < n <= |entries| ==> CleanCut(entries, n)) <==> (0 < n < |entries| ==> entries[n - 1].at != entries[n].at)
  {
  }

  /** Such a listing: of three entries at times 5, 5 and 3, read one a page, the second never comes. */
  lemma SharedTimeIsSkipped(a: Entry, b: Entry, c: Entry)
    requires a.at == 5 && b.at == 5 && c.at == 3
    ensures CursorAfter([a, b, c], 1, 3) == None && Followed([a, b, c], 1, 3) == [a, c]
  {
    var entries := [a, b, c];
    hide CursorAfter, Followed, Page;
    StartOfWalk(entries, 1);
    PageOfThree(entries, ZERO_TIME);
    FollowStep(entries, 1, 0, ZERO_TIME);
    PageOfThree(entries, 5);
    FollowStep(entries, 1, 1, 5);
    PageOfThree(entries, 3);
    FollowStep(entries, 1, 2, 3);
  }

  lemma StartOfWalk(entries: seq<Entry>, limit: nat)
    ensures CursorAfter(entries, limit, 0) == Some(ZERO_TIME) && Followed(entries, limit, 0) == []
  {
  }

  lemma PageOfThree(entries: seq<Entry>, before: int)
    requires |entries| == 3
    ensures Page(entries, 1, before) ==
              if Visible(entries[0], before) then [entries[0]]
              else if Visible(entries[1], before) then [entries[1]]
              else if Visible(entries[2], before) then [entries[2]] else []
  {
    var second := entries[1..];
    var third := second[1..];
    assert |third[1..]| == 0 && Page(third[1..], 1, before) == [];
    assert Page(third, 1, before) == if Visible(third[0], before) then [third[0]] else [];
    assert Page(second, 1, before) == if Visible(second[0], before) then [second[0]] else Page(third, 1, before);
  }

  // ---------- Both listings are newest first ----------

  lemma {:induction false} ReversedIsNewestFirst(entries: seq<Entry>)
    requires forall i, j :: 0 <= i < j < |entries| ==> entries[i].at <= entries[j].at
    ensures NewestFirst(Reversed(entries)) && |Reversed(entries)| == |entries|
    ensures AllDifferent(entries) ==> AllDifferent(Reversed(entries))
    ensures forall i :: 0 <= i < |entries| ==> Reversed(entries)[i] == entries[|entries| - 1 - i]
  {
    if entries != [] {
      var n := |entries| - 1;
      var rest := Reversed(entries[..n]);
      assert Reversed(entries) == [entries[n]] + rest;
      hide Reversed;
      ReversedIsNewestFirst(entries[..n]);
      assert forall i :: 0 <= i < n ==> rest[i] == entries[n - 1 - i];
    }
  }

  lemma {:induction false} MatchingIsNewestFirst(entries: seq<Entry>, node: string, level: string)
    requires NewestFirst(entries)
    ensures NewestFirst(Matching(entries, node, level))
    ensures forall entry :: entry in Matching(entries, node, level) <==> entry in entries && Matches(entry, node, level)
    ensures AllDifferent(entries) ==> AllDifferent(Matching(entries, node, level))
  {
    if entries != [] {
      var rest := Matching(entries[1..], node, level);
      MatchingIsNewestFirst(entries[1..], node, level);
      assert entries == [entries[0]] + entries[1..];
      forall i | 0 <= i < |rest|
        ensures rest[i].at <= entries[0].at && (AllDifferent(entries) ==> rest[i] != entries[0])
      {
        assert rest[i] in entries[1..];
      }
    }
  }
}
