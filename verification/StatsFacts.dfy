/** What the statistics report promises: it ignores the order of the sessions, ranks, and loses nothing. */
module StatsFacts {
  import opened Model
  import opened Text
  import opened Ordering
  import opened Stats

  // ---- the tally is a commutative sum ---------------------------------------------

  lemma AddRegroups(a: Tally, b: Tally, c: Tally)
    ensures Add(Add(a, b), c) == Add(a, Add(b, c))
    ensures Add(Add(a, b), c) == Add(Add(a, c), b)
  {
    assert (a.workspaces + b.workspaces) + c.workspaces == a.workspaces + (b.workspaces + c.workspaces);
    assert (a.workspaces + b.workspaces) + c.workspaces == (a.workspaces + c.workspaces) + b.workspaces;
    assert (a.conversations + b.conversations) + c.conversations == a.conversations + (b.conversations + c.conversations);
    assert (a.conversations + b.conversations) + c.conversations == (a.conversations + c.conversations) + b.conversations;
    assert (a.adapters + b.adapters) + c.adapters == a.adapters + (b.adapters + c.adapters);
    assert (a.adapters + b.adapters) + c.adapters == (a.adapters + c.adapters) + b.adapters;
  }

  lemma SumSnoc(ss: seq<Session>, s: Session, now: Time)
    ensures Sum(ss + [s], now) == Add(Sum(ss, now), TallyOf(s, now))
  {
    hide Add, TallyOf;
    var all := ss + [s];
    assert all[..|all| - 1] == ss && all[|all| - 1] == s;
  }

  /** A session may be taken out of the middle and counted last. */
  lemma {:induction false} SumTakesOut(front: seq<Session>, s: Session, back: seq<Session>, now: Time)
    ensures Sum(front + [s] + back, now) == Add(Sum(front + back, now), TallyOf(s, now))
    decreases |back|
  {
    hide Add, TallyOf, Sum;
    if back == [] {
      assert front + [s] + back == front + [s] && front + back == front;
      SumSnoc(front, s, now);
    } else {
      var init, last := back[..|back| - 1], back[|back| - 1];
      assert front + [s] + back == (front + [s] + init) + [last];
      assert front + back == (front + init) + [last];
      SumSnoc(front + [s] + init, last, now);
      SumSnoc(front + init, last, now);
      SumTakesOut(front, s, init, now);
      AddRegroups(Sum(front + init, now), TallyOf(s, now), TallyOf(last, now));
    }
  }

  lemma TakeOut<T>(b: seq<T>, k: nat)
    requires k < |b|
    ensures b == b[..k] + [b[k]] + b[k + 1..]
    ensures multiset(b[..k] + b[k + 1..]) == multiset(b) - multiset{b[k]}
  {
    assert b == b[..k] + [b[k]] + b[k + 1..];
  }

  lemma {:induction false} SumIgnoresOrder(a: seq<Session>, b: seq<Session>, now: Time)
    requires multiset(a) == multiset(b)
    ensures Sum(a, now) == Sum(b, now)
    decreases |a|
  {
    hide Add, TallyOf, Sum;
    assert |a| == |multiset(a)| && |b| == |multiset(b)|;
    if a != [] {
      var init, last := a[..|a| - 1], a[|a| - 1];
      DropLast(a);
      assert a == init + [last];
      assert last in multiset(a);
      var k :| 0 <= k < |b| && b[k] == last;
      var front, back := b[..k], b[k + 1..];
      TakeOut(b, k);
      SumIgnoresOrder(init, front + back, now);
      SumTakesOut(front, last, back, now);
      SumSnoc(init, last, now);
    } else {
      assert b == a;
    }
  }

  lemma {:induction false} WhereCounts(ss: seq<Session>, key: Session -> string, value: string, s: Session)
    ensures multiset(Where(ss, key, value))[s] == if key(s) == value then multiset(ss)[s] else 0
  {
    if ss != [] {
      var last := |ss| - 1;
      WhereCounts(ss[..last], key, value, s);
      assert ss == ss[..last] + [ss[last]];
    }
  }

  lemma GroupIgnoresOrder(a: seq<Session>, b: seq<Session>, key: Session -> string, value: string, now: Time)
    requires multiset(a) == multiset(b)
    ensures Sum(Where(a, key, value), now) == Sum(Where(b, key, value), now)
  {
    hide Where, Sum;
    forall s ensures multiset(Where(a, key, value))[s] == multiset(Where(b, key, value))[s] {
      WhereCounts(a, key, value, s);
      WhereCounts(b, key, value, s);
    }
    SumIgnoresOrder(Where(a, key, value), Where(b, key, value), now);
  }

  lemma ValuesIgnoreOrder(a: seq<Session>, b: seq<Session>, key: Session -> string)
    requires multiset(a) == multiset(b)
    ensures Values(a, key) == Values(b, key)
  {
    forall s ensures s in a <==> s in b {
      assert s in a <==> s in multiset(a);
      assert s in b <==> s in multiset(b);
    }
  }

  /** The report is a function of the multiset of sessions. */
  lemma ReportIgnoresOrder(a: seq<Session>, b: seq<Session>, now: Time, topN: int)
    requires multiset(a) == multiset(b)
    ensures Report(a, now, topN) == Report(b, now, topN)
  {
    hide Sum, Where, Values, StableSort, Listing, AdapterRow, WorkspaceRow, ClaudecodeRow;
    SumIgnoresOrder(a, b, now);
    ValuesIgnoreOrder(a, b, AdapterName);
    ValuesIgnoreOrder(a, b, WorkspaceLabel);
    forall n ensures ByAdapter(a, n, now) == ByAdapter(b, n, now) { GroupIgnoresOrder(a, b, AdapterName, n, now); }
    forall l ensures ByWorkspace(a, l, now) == ByWorkspace(b, l, now) { GroupIgnoresOrder(a, b, WorkspaceLabel, l, now); }
    assert AdapterRows(a, now) == AdapterRows(b, now);
    assert WorkspaceRows(a, now) == WorkspaceRows(b, now);
  }

  // ---- the tables ------------------------------------------------------------------

  /** The adapter table: one row per adapter name, each the tally of its sessions, busiest first. */
  lemma AdapterTableIsExact(ss: seq<Session>, now: Time)
    ensures var rows := AdapterTable(ss, now);
      && Sorted(AdapterBefore, rows)
      && (forall i :: 0 <= i < |rows| ==> rows[i] == AdapterRow(rows[i].adapter, ByAdapter(ss, rows[i].adapter, now)))
      && (forall i, j :: 0 <= i < j < |rows| ==> rows[i].adapter != rows[j].adapter)
      && (forall s :: s in ss ==> exists i :: 0 <= i < |rows| && rows[i].adapter == AdapterName(s))
  {
    hide ByAdapter, StableSort, Listing, StrictWeakOrder, Sorted, AdapterName, AdapterBefore;
    var all, rows := AdapterRows(ss, now), AdapterTable(ss, now);
    AdapterOrder();
    StableSortSorts(AdapterBefore, Listing(all));
    assert multiset(rows) == multiset(all);
    ListsSet(rows, all);
    forall i | 0 <= i < |rows| ensures rows[i] == AdapterRow(rows[i].adapter, ByAdapter(ss, rows[i].adapter, now)) {
      assert rows[i] in all;
    }
    forall s | s in ss ensures exists i :: 0 <= i < |rows| && rows[i].adapter == AdapterName(s) {
      var row := AdapterRow(AdapterName(s), ByAdapter(ss, AdapterName(s), now));
      assert AdapterName(s) in Values(ss, AdapterName);
      assert row in all;
      assert row in rows;
    }
  }

  /** All workspaces, likewise, before the report cuts the ranking off. */
  lemma RankingIsExact(ss: seq<Session>, now: Time)
    ensures var rows := Ranking(ss, now);
      && Sorted(WorkspaceBefore, rows) && NoTies(WorkspaceBefore, rows)
      && (forall i :: 0 <= i < |rows| ==> rows[i] == WorkspaceRow(rows[i].path, ByWorkspace(ss, rows[i].path, now)))
      && (forall i, j :: 0 <= i < j < |rows| ==> rows[i].path != rows[j].path)
      && (forall s :: s in ss ==> exists i :: 0 <= i < |rows| && rows[i].path == WorkspaceLabel(s))
  {
    hide ByWorkspace, StableSort, Listing, StrictWeakOrder, Sorted, WorkspaceLabel, WorkspaceBefore, NoTies, SortedNames;
    var all, rows := WorkspaceRows(ss, now), Ranking(ss, now);
    WorkspaceOrder();
    StableSortSorts(WorkspaceBefore, Listing(all));
    assert multiset(rows) == multiset(all);
    ListsSet(rows, all);
    forall i | 0 <= i < |rows| ensures rows[i] == WorkspaceRow(rows[i].path, ByWorkspace(ss, rows[i].path, now)) {
      assert rows[i] in all;
    }
    WorkspaceNoTies(rows);
    forall s | s in ss ensures exists i :: 0 <= i < |rows| && rows[i].path == WorkspaceLabel(s) {
      var row := WorkspaceRow(WorkspaceLabel(s), ByWorkspace(ss, WorkspaceLabel(s), now));
      assert WorkspaceLabel(s) in Values(ss, WorkspaceLabel);
      assert row in all;
      assert row in rows;
    }
  }

  /** The report keeps min(topN, all) workspaces, and each kept one ranks strictly before each dropped one. */
  lemma KeptBeforeDropped(ss: seq<Session>, now: Time, topN: int, kept: WorkspaceStats, dropped: WorkspaceStats)
    requires kept in Report(ss, now, topN).topWorkspaces
    requires dropped in WorkspaceRows(ss, now) && dropped !in Report(ss, now, topN).topWorkspaces
    ensures WorkspaceBefore(kept, dropped)
    ensures |Report(ss, now, topN).topWorkspaces| == TopN(topN)
  {
    hide Sum, ByWorkspace, ByAdapter, StableSort, Listing, WorkspaceBefore, AdapterTable, WorkspaceRow, ClaudecodeRow;
    var rows, n := Ranking(ss, now), TopN(topN);
    RankingIsExact(ss, now);
    assert dropped in multiset(WorkspaceRows(ss, now));
    assert dropped in multiset(rows);
    var j :| 0 <= j < |rows| && rows[j] == dropped;
    var i :| 0 <= i < |Truncated(rows, n)| && Truncated(rows, n)[i] == kept;
    assert forall k :: 0 <= k < |Truncated(rows, n)| ==> rows[k] in Truncated(rows, n);
    assert rows[i] in rows && rows[j] in rows;
  }

  // ---- conservation -------------------------------------------------------------------

  /** The groups' tallies added up. */
  ghost function SumOver(ss: seq<Session>, key: Session -> string, names: seq<string>, now: Time): Tally
    decreases |names|
  {
    if names == [] then EMPTY
    else Add(SumOver(ss, key, names[..|names| - 1], now), Sum(Where(ss, key, names[|names| - 1]), now))
  }

  lemma {:induction false} SumOverSnoc(ss: seq<Session>, s: Session, key: Session -> string, names: seq<string>, now: Time)
    requires Distinct(names)
    ensures SumOver(ss + [s], key, names, now)
         == if key(s) in names then Add(SumOver(ss, key, names, now), TallyOf(s, now)) else SumOver(ss, key, names, now)
    decreases |names|
  {
    hide Add, TallyOf, Sum, Where;
    if names != [] {
      var init, n := names[..|names| - 1], names[|names| - 1];
      assert names == init + [n];
      SumOverSnoc(ss, s, key, init, now);
      WhereSnoc(ss, s, key, n, now);
      if key(s) in names {
        AddRegroups(SumOver(ss, key, init, now), Sum(Where(ss, key, n), now), TallyOf(s, now));
      }
    }
  }

  lemma {:induction false} NothingOver(key: Session -> string, names: seq<string>, now: Time)
    ensures SumOver([], key, names, now) == EMPTY
    decreases |names|
  {
    hide Where, Sum;
    if names != [] {
      NothingOver(key, names[..|names| - 1], now);
      NothingIn(key, names[|names| - 1]);
      NothingSummed(now);
    }
  }

  /** Grouping by any key loses nothing: over distinct names that cover the key's values, the groups add up to the whole. */
  lemma {:induction false} GroupsAddUp(ss: seq<Session>, key: Session -> string, names: seq<string>, now: Time)
    requires Distinct(names)
    requires forall s :: s in ss ==> key(s) in names
    ensures SumOver(ss, key, names, now) == Sum(ss, now)
    decreases |ss|
  {
    hide Add, TallyOf, SumOver, Distinct;
    if ss == [] {
      NothingOver(key, names, now);
    } else {
      var init, s := ss[..|ss| - 1], ss[|ss| - 1];
      assert ss == init + [s];
      forall x | x in init ensures key(x) in names { assert x in ss; }
      assert s in ss;
      GroupsAddUp(init, key, names, now);
      SumOverSnoc(init, s, key, names, now);
    }
  }

  function TotalOf(rows: seq<AdapterStats>): Counters {
    if rows == [] then NOTHING else AddCounters(TotalOf(rows[..|rows| - 1]), rows[|rows| - 1].counts)
  }

  function UniqueOf(rows: seq<AdapterStats>): nat {
    if rows == [] then 0 else UniqueOf(rows[..|rows| - 1]) + rows[|rows| - 1].uniqueWorkspaces
  }

  ghost function AdapterNames(rows: seq<AdapterStats>): seq<string> {
    seq(|rows|, i requires 0 <= i < |rows| => rows[i].adapter)
  }

  lemma {:induction false} RowsAddUp(ss: seq<Session>, rows: seq<AdapterStats>, now: Time)
    requires forall i :: 0 <= i < |rows| ==> rows[i] == AdapterRow(rows[i].adapter, ByAdapter(ss, rows[i].adapter, now))
    ensures TotalOf(rows) == SumOver(ss, AdapterName, AdapterNames(rows), now).counts
    ensures |SumOver(ss, AdapterName, AdapterNames(rows), now).workspaces| <= UniqueOf(rows)
    decreases |rows|
  {
    hide Sum, Where, AdapterName, AddCounters;
    if rows != [] {
      var init, row := rows[..|rows| - 1], rows[|rows| - 1];
      RowsAddUp(ss, init, now);
      var names := AdapterNames(rows);
      assert names[..|names| - 1] == AdapterNames(init) && names[|names| - 1] == row.adapter;
      var t := SumOver(ss, AdapterName, AdapterNames(init), now);
      UnionSize(t.workspaces, ByAdapter(ss, row.adapter, now).workspaces);
    }
  }

  lemma {:induction false} GroupWithinWhole(ss: seq<Session>, key: Session -> string, value: string, now: Time)
    ensures Sum(Where(ss, key, value), now).workspaces <= Sum(ss, now).workspaces
  {
    hide TallyOf, Sum, Where;
    if ss == [] {
      assert Where(ss, key, value) == [] by { NothingIn(key, value); }
    } else {
      var init, s := ss[..|ss| - 1], ss[|ss| - 1];
      assert ss == init + [s];
      GroupWithinWhole(init, key, value, now);
      WhereSnoc(init, s, key, value, now);
      SumSnoc(init, s, now);
    }
  }

  lemma NothingIn(key: Session -> string, value: string)
    ensures Where([], key, value) == []
  {
  }

  /** The adapters' counters add up to the totals; unique workspaces lie between the largest row and the sum of the rows. */
  lemma AdaptersAddUp(ss: seq<Session>, now: Time, topN: int)
    ensures var r := Report(ss, now, topN);
      && r.totals == TotalOf(r.adapters)
      && r.totals.sessions == |ss|
      && (forall row :: row in r.adapters ==> row.uniqueWorkspaces <= r.uniqueWorkspaces)
      && r.uniqueWorkspaces <= UniqueOf(r.adapters)
  {
    hide Sum, Where, AdapterName, AddCounters, AdapterTable, Ranking, ClaudecodeRow, SumOver, TotalOf, UniqueOf, Sorted;
    var rows := AdapterTable(ss, now);
    AdapterTableIsExact(ss, now);
    RowsAddUp(ss, rows, now);
    var names := AdapterNames(rows);
    forall s | s in ss ensures AdapterName(s) in names {
      var i :| 0 <= i < |rows| && rows[i].adapter == AdapterName(s);
      assert names[i] == AdapterName(s);
    }
    GroupsAddUp(ss, AdapterName, names, now);
    SumBounds(ss, now);
    forall row | row in rows ensures row.uniqueWorkspaces <= |Sum(ss, now).workspaces| {
      GroupWithinWhole(ss, AdapterName, row.adapter, now);
      SubsetSize(ByAdapter(ss, row.adapter, now).workspaces, Sum(ss, now).workspaces);
    }
  }

  /** What a list of workspace rows counts in all. */
  datatype Share = Share(sessions: nat, managed: nat, discovered: nat, claudecode: nat, subagent: nat)

  function ShareOf(rows: seq<WorkspaceStats>): Share {
    if rows == [] then Share(0, 0, 0, 0, 0)
    else
      var front, row := ShareOf(rows[..|rows| - 1]), rows[|rows| - 1];
      Share(front.sessions + row.sessions, front.managed + row.managed, front.discovered + row.discovered,
            front.claudecode + row.claudecodeSessions, front.subagent + row.claudecodeSubagent)
  }

  function TallyShare(t: Tally): Share {
    Share(t.counts.sessions, t.counts.managed, t.counts.discovered, t.claudecode, t.subagent)
  }

  ghost function Paths(rows: seq<WorkspaceStats>): seq<string> {
    seq(|rows|, i requires 0 <= i < |rows| => rows[i].path)
  }

  lemma {:induction false} SharesAddUp(ss: seq<Session>, rows: seq<WorkspaceStats>, now: Time)
    requires forall i :: 0 <= i < |rows| ==> rows[i] == WorkspaceRow(rows[i].path, ByWorkspace(ss, rows[i].path, now))
    ensures ShareOf(rows) == TallyShare(SumOver(ss, WorkspaceLabel, Paths(rows), now))
    decreases |rows|
  {
    hide Sum, Where, WorkspaceLabel, SortedNames;
    if rows != [] {
      var init, row := rows[..|rows| - 1], rows[|rows| - 1];
      SharesAddUp(ss, init, now);
      var paths := Paths(rows);
      assert paths[..|paths| - 1] == Paths(init) && paths[|paths| - 1] == row.path;
    }
  }

  lemma {:induction false} ClaudecodeGroup(ss: seq<Session>, now: Time)
    ensures var t := ByAdapter(ss, "claudecode", now);
      && t.claudecode == t.counts.sessions == Sum(ss, now).claudecode
      && t.subagent == Sum(ss, now).subagent
  {
    hide IsSubagent, AdapterName, HighlightOf, WorkspaceKey, Sum, Where;
    if ss == [] {
      NothingIn(AdapterName, "claudecode");
      NothingSummed(now);
    } else {
      var init, s := ss[..|ss| - 1], ss[|ss| - 1];
      assert ss == init + [s];
      ClaudecodeGroup(init, now);
      WhereSnoc(init, s, AdapterName, "claudecode", now);
      SumSnoc(init, s, now);
    }
  }

  lemma NothingSummed(now: Time)
    ensures Sum([], now) == EMPTY
  {
  }

  /**
   * Before truncation the workspaces add up to the totals too, and the claudecode
   * section splits its sessions into primary and subagent ones exactly as the
   * workspaces count them.
   */
  lemma WorkspacesAddUp(ss: seq<Session>, now: Time, topN: int)
    ensures var r, share := Report(ss, now, topN), ShareOf(Ranking(ss, now));
      && share.sessions == r.totals.sessions
      && share.managed == r.totals.managed
      && share.discovered == r.totals.discovered
      && (r.claudecode == None <==> share.claudecode == 0)
      && (r.claudecode != None ==>
            && share.claudecode == r.claudecode.value.sessions
            && share.subagent == r.claudecode.value.subagent
            && r.claudecode.value.primary + r.claudecode.value.subagent == r.claudecode.value.sessions)
  {
    hide Sum, Where, WorkspaceLabel, AdapterTable, Ranking, SumOver, ShareOf, Sorted, NoTies;
    var rows := Ranking(ss, now);
    RankingIsExact(ss, now);
    SharesAddUp(ss, rows, now);
    var paths := Paths(rows);
    forall s | s in ss ensures WorkspaceLabel(s) in paths {
      var i :| 0 <= i < |rows| && rows[i].path == WorkspaceLabel(s);
      assert paths[i] == WorkspaceLabel(s);
    }
    GroupsAddUp(ss, WorkspaceLabel, paths, now);
    ClaudecodeGroup(ss, now);
    SumBounds(ss, now);
  }
}
