/** What every number and list of the statistics report counts, in terms of the sessions themselves. */
module StatsCounts {
  import opened Model
  import opened Text
  import opened Ordering
  import opened Stats
  import opened StatsFacts

  // ---- the properties counted ---------------------------------------------------------

  predicate Any(s: Session, now: Time) { true }
  predicate IsManaged(s: Session, now: Time) { s.origin == Managed }
  predicate IsDiscovered(s: Session, now: Time) { s.origin == Discovered }
  predicate IsPending(s: Session, now: Time) { s.state == Pending }
  predicate IsRunning(s: Session, now: Time) { s.state == Running }
  predicate IsPaused(s: Session, now: Time) { s.state == Paused }
  predicate IsStopped(s: Session, now: Time) { s.state == Stopped }
  predicate IsErrored(s: Session, now: Time) { s.state == Errored }
  predicate IsClaudecode(s: Session, now: Time) { AdapterName(s) == "claudecode" }
  predicate IsClaudecodeSubagent(s: Session, now: Time) { AdapterName(s) == "claudecode" && IsSubagent(s) }

  /** No longer ago than `limit`: since it was seen, else since it was created; never in the future. */
  predicate Since(s: Session, now: Time, limit: int) {
    && limit >= 0
    && (s.lastSeen != 0 ==> now - s.lastSeen <= limit)
    && (s.lastSeen == 0 && s.createdAt != 0 ==> now - s.createdAt <= limit)
  }

  /** Paused, failed, or stopped within the last 45 minutes. */
  predicate NeedsReview(s: Session, now: Time) {
    s.state == Paused || s.state == Errored || (s.state == Stopped && Since(s, now, 2_700_000_000_000))
  }

  /** Paused, active, stopped within the last 45 minutes, or seen within the last 20. */
  predicate IsRecent(s: Session, now: Time) {
    || s.state == Paused || s.state == Running || s.state == Pending
    || (s.state == Stopped && Since(s, now, 2_700_000_000_000))
    || Since(s, now, 1_200_000_000_000)
  }

  /** One counter each. */
  lemma CountersMean(s: Session, now: Time)
    ensures CountersOf(s, now) == Counters(
              1, Bit(IsManaged(s, now)), Bit(IsDiscovered(s, now)),
              Bit(IsPending(s, now)), Bit(IsRunning(s, now)), Bit(IsPaused(s, now)), Bit(IsStopped(s, now)), Bit(IsErrored(s, now)),
              Bit(NeedsReview(s, now)), Bit(IsRecent(s, now)))
  {
  }

  /** The adapter counted for is the trimmed name, or "unknown"; the workspace the first of path, root and id that is not blank. */
  lemma KeysMean(s: Session)
    ensures AdapterName(s) == if Trim(s.adapter) == "" then "unknown" else Trim(s.adapter)
    ensures var names := [s.workspacePath, s.workspaceRoot, s.workspaceId];
            && (forall k :: 0 <= k < 3 && Trim(names[k]) != "" && (forall l :: 0 <= l < k ==> Trim(names[l]) == "")
                  ==> WorkspaceKey(s) == WorkspaceLabel(s) == Trim(names[k]))
            && ((forall k :: 0 <= k < 3 ==> Trim(names[k]) == "") ==>
                  WorkspaceKey(s) == "" && WorkspaceLabel(s) == "(unknown workspace)")
  {
    hide Trim;
    var names := [s.workspacePath, s.workspaceRoot, s.workspaceId];
    assert names[0] == s.workspacePath && names[1] == s.workspaceRoot && names[2] == s.workspaceId;
  }

  // ---- counting ---------------------------------------------------------------------------

  /** How many sessions of a group have a property. */
  function Tallied(ss: seq<Session>, key: Session -> string, value: string, p: (Session, Time) -> bool, now: Time): nat {
    |set i | 0 <= i < |ss| && key(ss[i]) == value && p(ss[i], now)|
  }

  /** The group of everything. */
  function Everywhere(s: Session): string { "" }

  lemma TalliedSnoc(ss: seq<Session>, s: Session, key: Session -> string, value: string, p: (Session, Time) -> bool, now: Time)
    ensures Tallied(ss + [s], key, value, p, now) == Tallied(ss, key, value, p, now) + Bit(key(s) == value && p(s, now))
    ensures Tallied([], key, value, p, now) == 0
  {
    var all := ss + [s];
    var before := set i | 0 <= i < |ss| && key(ss[i]) == value && p(ss[i], now);
    var after := set i | 0 <= i < |all| && key(all[i]) == value && p(all[i], now);
    assert all[|ss|] == s;
    assert forall i :: 0 <= i < |ss| ==> all[i] == ss[i];
    if key(s) == value && p(s, now) {
      assert after == before + {|ss|};
    } else {
      assert after == before;
    }
    TalliedNothing(key, value, p, now);
  }

  lemma TalliedNothing(key: Session -> string, value: string, p: (Session, Time) -> bool, now: Time)
    ensures Tallied([], key, value, p, now) == 0
  {
    var none: seq<Session> := [];
    assert (set i | 0 <= i < |none| && key(none[i]) == value && p(none[i], now)) == {};
  }

  /** The ten counters of a group. */
  ghost predicate Counts(c: Counters, ss: seq<Session>, key: Session -> string, value: string, now: Time) {
    && c.sessions == Tallied(ss, key, value, Any, now)
    && c.managed == Tallied(ss, key, value, IsManaged, now)
    && c.discovered == Tallied(ss, key, value, IsDiscovered, now)
    && c.pending == Tallied(ss, key, value, IsPending, now)
    && c.running == Tallied(ss, key, value, IsRunning, now)
    && c.paused == Tallied(ss, key, value, IsPaused, now)
    && c.stopped == Tallied(ss, key, value, IsStopped, now)
    && c.errored == Tallied(ss, key, value, IsErrored, now)
    && c.reviewRequired == Tallied(ss, key, value, NeedsReview, now)
    && c.recentActivity == Tallied(ss, key, value, IsRecent, now)
  }

  ghost predicate CountsClaudecode(t: Tally, ss: seq<Session>, key: Session -> string, value: string, now: Time) {
    && t.claudecode == Tallied(ss, key, value, IsClaudecode, now)
    && t.subagent == Tallied(ss, key, value, IsClaudecodeSubagent, now)
  }

  lemma CountsSnoc(c: Counters, ss: seq<Session>, s: Session, key: Session -> string, value: string, now: Time)
    requires Counts(c, ss, key, value, now)
    ensures Counts(if key(s) == value then AddCounters(c, CountersOf(s, now)) else c, ss + [s], key, value, now)
    ensures Counts(NOTHING, [], key, value, now)
  {
    hide Tallied, CountersOf, IsRecent, NeedsReview;
    CountersMean(s, now);
    TalliedSnoc(ss, s, key, value, Any, now);
    TalliedSnoc(ss, s, key, value, IsManaged, now);
    TalliedSnoc(ss, s, key, value, IsDiscovered, now);
    TalliedSnoc(ss, s, key, value, IsPending, now);
    TalliedSnoc(ss, s, key, value, IsRunning, now);
    TalliedSnoc(ss, s, key, value, IsPaused, now);
    TalliedSnoc(ss, s, key, value, IsStopped, now);
    TalliedSnoc(ss, s, key, value, IsErrored, now);
    TalliedSnoc(ss, s, key, value, NeedsReview, now);
    TalliedSnoc(ss, s, key, value, IsRecent, now);
  }

  lemma CountsNothing(key: Session -> string, value: string, now: Time)
    ensures Counts(NOTHING, [], key, value, now) && CountsClaudecode(EMPTY, [], key, value, now)
  {
    forall p: (Session, Time) -> bool ensures Tallied([], key, value, p, now) == 0 {
      TalliedNothing(key, value, p, now);
    }
    hide Tallied;
  }

  lemma {:induction false} GroupCounts(ss: seq<Session>, key: Session -> string, value: string, now: Time)
    ensures var t := Sum(Where(ss, key, value), now);
            Counts(t.counts, ss, key, value, now) && CountsClaudecode(t, ss, key, value, now)
    decreases |ss|
  {
    hide Counts, CountersOf, Sum, Where, Tallied, IsSubagent, AdapterName, AddCounters;
    if ss == [] {
      NothingIn(key, value);
      NothingSummed(now);
      CountsNothing(key, value, now);
    } else {
      var init, s := ss[..|ss| - 1], ss[|ss| - 1];
      assert ss == init + [s];
      GroupCounts(init, key, value, now);
      WhereSnoc(init, s, key, value, now);
      CountsSnoc(Sum(Where(init, key, value), now).counts, init, s, key, value, now);
      TalliedSnoc(init, s, key, value, IsClaudecode, now);
      TalliedSnoc(init, s, key, value, IsClaudecodeSubagent, now);
    }
  }

  lemma {:induction false} WhereEverywhere(ss: seq<Session>)
    ensures Where(ss, Everywhere, "") == ss
  {
    if ss != [] {
      WhereEverywhere(ss[..|ss| - 1]);
    }
  }

  // ---- latest times and sets of names --------------------------------------------------------

  /** The latest time a session of the group was seen, or 0. */
  ghost predicate IsLatest(t: Time, ss: seq<Session>, key: Session -> string, value: string) {
    && t >= 0
    && (forall i :: 0 <= i < |ss| && key(ss[i]) == value ==> ss[i].lastSeen <= t)
    && (t == 0 || exists i :: 0 <= i < |ss| && key(ss[i]) == value && ss[i].lastSeen == t)
  }

  function WorkspacesOf(ss: seq<Session>, key: Session -> string, value: string): set<string> {
    set s | s in ss && key(s) == value && WorkspaceKey(s) != "" :: WorkspaceKey(s)
  }

  function ConversationsOf(ss: seq<Session>, key: Session -> string, value: string): set<string> {
    set s | s in ss && key(s) == value && Trim(s.conversationId) != "" :: Trim(s.conversationId)
  }

  function AdaptersOf(ss: seq<Session>, key: Session -> string, value: string): set<string> {
    set s | s in ss && key(s) == value :: AdapterName(s)
  }

  lemma SetsSnoc(ss: seq<Session>, s: Session, key: Session -> string, value: string)
    ensures WorkspacesOf(ss + [s], key, value) == WorkspacesOf(ss, key, value) + if key(s) == value then NonEmpty(WorkspaceKey(s)) else {}
    ensures ConversationsOf(ss + [s], key, value) ==
            ConversationsOf(ss, key, value) + if key(s) == value then NonEmpty(Trim(s.conversationId)) else {}
    ensures AdaptersOf(ss + [s], key, value) == AdaptersOf(ss, key, value) + if key(s) == value then {AdapterName(s)} else {}
  {
    hide WorkspaceKey, Trim, AdapterName;
    assert forall x :: x in ss + [s] <==> x in ss || x == s;
    WorkspacesSnoc(ss, s, key, value);
    ConversationsSnoc(ss, s, key, value);
    AdaptersSnoc(ss, s, key, value);
  }

  lemma WorkspacesSnoc(ss: seq<Session>, s: Session, key: Session -> string, value: string)
    ensures WorkspacesOf(ss + [s], key, value) == WorkspacesOf(ss, key, value) + if key(s) == value then NonEmpty(WorkspaceKey(s)) else {}
  {
    hide WorkspaceKey;
    assert forall x :: x in ss + [s] <==> x in ss || x == s;
  }

  lemma ConversationsSnoc(ss: seq<Session>, s: Session, key: Session -> string, value: string)
    ensures ConversationsOf(ss + [s], key, value) ==
            ConversationsOf(ss, key, value) + if key(s) == value then NonEmpty(Trim(s.conversationId)) else {}
  {
    hide Trim;
    assert forall x :: x in ss + [s] <==> x in ss || x == s;
  }

  lemma AdaptersSnoc(ss: seq<Session>, s: Session, key: Session -> string, value: string)
    ensures AdaptersOf(ss + [s], key, value) == AdaptersOf(ss, key, value) + if key(s) == value then {AdapterName(s)} else {}
  {
    hide AdapterName;
    assert forall x :: x in ss + [s] <==> x in ss || x == s;
  }

  lemma LatestSnoc(t: Time, ss: seq<Session>, s: Session, key: Session -> string, value: string)
    requires IsLatest(t, ss, key, value)
    ensures IsLatest(if key(s) == value && s.lastSeen > t then s.lastSeen else t, ss + [s], key, value)
  {
    var all := ss + [s];
    assert all[|ss|] == s;
    assert forall i :: 0 <= i < |ss| ==> all[i] == ss[i];
    var r := if key(s) == value && s.lastSeen > t then s.lastSeen else t;
    if r != 0 && r == t {
      var i :| 0 <= i < |ss| && key(ss[i]) == value && ss[i].lastSeen == t;
      assert all[i].lastSeen == r;
    }
  }

  lemma {:induction false} GroupSets(ss: seq<Session>, key: Session -> string, value: string, now: Time)
    ensures var t := Sum(Where(ss, key, value), now);
            && IsLatest(t.lastSeen, ss, key, value)
            && t.workspaces == WorkspacesOf(ss, key, value)
            && t.conversations == ConversationsOf(ss, key, value)
            && t.adapters == AdaptersOf(ss, key, value)
    decreases |ss|
  {
    hide CountersOf, Sum, Where, IsSubagent, AdapterName, WorkspaceKey, Trim, AddCounters, NonEmpty, IsLatest,
         WorkspacesOf, ConversationsOf, AdaptersOf;
    if ss == [] {
      NothingIn(key, value);
      NothingSummed(now);
      NoSets(key, value);
    } else {
      var init, s := ss[..|ss| - 1], ss[|ss| - 1];
      assert ss == init + [s];
      GroupSets(init, key, value, now);
      WhereSnoc(init, s, key, value, now);
      SetsSnoc(init, s, key, value);
      SumBounds(Where(init, key, value), now);
      LatestSnoc(Sum(Where(init, key, value), now).lastSeen, init, s, key, value);
    }
  }

  lemma NoSets(key: Session -> string, value: string)
    ensures IsLatest(0, [], key, value)
    ensures WorkspacesOf([], key, value) == {} && ConversationsOf([], key, value) == {} && AdaptersOf([], key, value) == {}
  {
  }

  // ---- the report ---------------------------------------------------------------------------

  /** The totals count all sessions, and the different workspaces and conversations among them. */
  lemma TotalsAreCounts(ss: seq<Session>, now: Time, topN: int)
    ensures var r := Report(ss, now, topN);
            && Counts(r.totals, ss, Everywhere, "", now)
            && r.uniqueWorkspaces == |WorkspacesOf(ss, Everywhere, "")|
            && r.uniqueConversations == |ConversationsOf(ss, Everywhere, "")|
            && r.generatedAt == now
  {
    hide Counts, Sum, Where, AdapterTable, Ranking, ClaudecodeRow, IsLatest, WorkspacesOf, ConversationsOf, AdaptersOf;
    WhereEverywhere(ss);
    GroupCounts(ss, Everywhere, "", now);
    GroupSets(ss, Everywhere, "", now);
  }

  /** An adapter's row counts its own sessions. */
  lemma AdapterRowsAreCounts(ss: seq<Session>, now: Time, topN: int, row: AdapterStats)
    requires row in Report(ss, now, topN).adapters
    ensures Counts(row.counts, ss, AdapterName, row.adapter, now)
    ensures row.uniqueWorkspaces == |WorkspacesOf(ss, AdapterName, row.adapter)|
    ensures IsLatest(row.lastSeen, ss, AdapterName, row.adapter)
  {
    hide Counts, Sum, Where, AdapterTable, Ranking, ClaudecodeRow, IsLatest, WorkspacesOf, ConversationsOf, AdaptersOf,
         Sorted, AdapterName;
    AdapterTableIsExact(ss, now);
    GroupCounts(ss, AdapterName, row.adapter, now);
    GroupSets(ss, AdapterName, row.adapter, now);
  }

  lemma SortedNamesAre(names: set<string>)
    ensures forall n :: n in SortedNames(names) <==> n in names
    ensures forall i, j :: 0 <= i < j < |SortedNames(names)| ==> Before(SortedNames(names)[i], SortedNames(names)[j])
  {
    hide Before, StableSort, Listing, StrictWeakOrder, NoTies;
    var out := SortedNames(names);
    BeforeIsOrder();
    StableSortSorts(Before, Listing(names));
    assert multiset(out) == multiset(names);
    ListsSet(out, names);
    forall i, j | 0 <= i < j < |out| ensures Before(out[i], out[j]) {
      assert out[i] != out[j] && !Before(out[j], out[i]);
      BeforeTrichotomy(out[i], out[j]);
    }
  }

  /** A workspace's row counts its own sessions and lists its adapters in order, each once. */
  lemma WorkspaceRowsAreCounts(ss: seq<Session>, now: Time, row: WorkspaceStats)
    requires row in Ranking(ss, now)
    ensures row.sessions == Tallied(ss, WorkspaceLabel, row.path, Any, now)
    ensures row.managed == Tallied(ss, WorkspaceLabel, row.path, IsManaged, now)
    ensures row.discovered == Tallied(ss, WorkspaceLabel, row.path, IsDiscovered, now)
    ensures row.claudecodeSessions == Tallied(ss, WorkspaceLabel, row.path, IsClaudecode, now)
    ensures row.claudecodeSubagent == Tallied(ss, WorkspaceLabel, row.path, IsClaudecodeSubagent, now)
    ensures IsLatest(row.lastSeen, ss, WorkspaceLabel, row.path)
    ensures forall n :: n in row.adapters <==> n in AdaptersOf(ss, WorkspaceLabel, row.path)
    ensures forall i, j :: 0 <= i < j < |row.adapters| ==> Before(row.adapters[i], row.adapters[j])
  {
    hide Tallied, Sum, Where, Ranking, IsLatest, WorkspacesOf, ConversationsOf, AdaptersOf, Sorted, NoTies, WorkspaceLabel,
         SortedNames, Before;
    RankingIsExact(ss, now);
    GroupCounts(ss, WorkspaceLabel, row.path, now);
    GroupSets(ss, WorkspaceLabel, row.path, now);
    SortedNamesAre(AdaptersOf(ss, WorkspaceLabel, row.path));
  }

  /** The claudecode section is there when there are such sessions, and counts them. */
  lemma ClaudecodeIsCounted(ss: seq<Session>, now: Time, topN: int)
    ensures var r, n := Report(ss, now, topN).claudecode, Tallied(ss, AdapterName, "claudecode", IsClaudecode, now);
            && (r == None <==> n == 0)
            && (r != None ==>
                  && r.value.sessions == n
                  && r.value.subagent == Tallied(ss, AdapterName, "claudecode", IsClaudecodeSubagent, now)
                  && r.value.primary == n - r.value.subagent
                  && r.value.uniqueWorkspaces == |WorkspacesOf(ss, AdapterName, "claudecode")|)
  {
    hide Tallied, Counts, Sum, Where, AdapterTable, Ranking, IsLatest, WorkspacesOf, ConversationsOf, AdaptersOf, AdapterName;
    GroupCounts(ss, AdapterName, "claudecode", now);
    GroupSets(ss, AdapterName, "claudecode", now);
    SumBounds(Where(ss, AdapterName, "claudecode"), now);
  }

  /** Adapters with more sessions come first, then by name; workspaces by sessions, then the latest seen, then by name. */
  lemma TablesAreOrdered(ss: seq<Session>, now: Time)
    ensures var a := AdapterTable(ss, now);
            forall i, j :: 0 <= i < j < |a| ==>
              a[i].counts.sessions > a[j].counts.sessions
              || (a[i].counts.sessions == a[j].counts.sessions && Before(a[i].adapter, a[j].adapter))
    ensures var w := Ranking(ss, now);
            forall i, j :: 0 <= i < j < |w| ==>
              w[i].sessions > w[j].sessions
              || (w[i].sessions == w[j].sessions && w[i].lastSeen > w[j].lastSeen)
              || (w[i].sessions == w[j].sessions && w[i].lastSeen == w[j].lastSeen && Before(w[i].path, w[j].path))
  {
    hide Before, AdapterTable, Ranking, AdapterRow, WorkspaceRow, NoTies;
    AdapterTableIsExact(ss, now);
    RankingIsExact(ss, now);
    var a, w := AdapterTable(ss, now), Ranking(ss, now);
    forall i, j | 0 <= i < j < |a| ensures AdapterBefore(a[i], a[j]) {
      assert !AdapterBefore(a[j], a[i]);
      BeforeTrichotomy(a[i].adapter, a[j].adapter);
    }
    forall i, j | 0 <= i < j < |w| ensures WorkspaceBefore(w[i], w[j]) {
      assert !WorkspaceBefore(w[j], w[i]);
      BeforeTrichotomy(w[i].path, w[j].path);
    }
  }

  lemma {:induction false} AsManyPaths(rows: seq<WorkspaceStats>, all: set<string>)
    requires forall i :: 0 <= i < |rows| ==> rows[i].path in all
    requires forall p :: p in all ==> exists i :: 0 <= i < |rows| && rows[i].path == p
    requires forall i, j :: 0 <= i < j < |rows| ==> rows[i].path != rows[j].path
    ensures |rows| == |all|
  {
    if rows == [] {
      assert all == {};
    } else {
      var init, last := rows[..|rows| - 1], rows[|rows| - 1].path;
      forall p | p in all - {last} ensures exists i :: 0 <= i < |init| && init[i].path == p {
        var i :| 0 <= i < |rows| && rows[i].path == p;
        assert init[i].path == p;
      }
      AsManyPaths(init, all - {last});
    }
  }

  /**
    The report shows the first workspaces of the ranking of all of them: as many as
    there are, up to the number asked for, which is 15 if that is not positive and at
    most 100.
   */
  lemma TopIsCut(ss: seq<Session>, now: Time, topN: int)
    ensures var top, all := Report(ss, now, topN).topWorkspaces, Ranking(ss, now);
            var n := if topN <= 0 then 15 else if topN >= 100 then 100 else topN;
            && |all| == |set s | s in ss :: WorkspaceLabel(s)|
            && |top| == (if |all| < n then |all| else n)
            && forall i :: 0 <= i < |top| ==> top[i] == all[i]
  {
    hide Sum, ByAdapter, AdapterTable, Ranking, ClaudecodeRow, Sorted, NoTies, WorkspaceRow, ByWorkspace, WorkspaceLabel;
    RankingIsExact(ss, now);
    var rows, all := Ranking(ss, now), set s | s in ss :: WorkspaceLabel(s);
    forall i | 0 <= i < |rows| ensures rows[i].path in all {
      RankedOccurs(ss, now, rows[i]);
    }
    AsManyPaths(rows, all);
  }

  lemma RankedOccurs(ss: seq<Session>, now: Time, row: WorkspaceStats)
    requires row in Ranking(ss, now)
    ensures row.path in set s | s in ss :: WorkspaceLabel(s)
  {
    hide ByWorkspace, WorkspaceLabel, StableSort, Listing, SortedNames, WorkspaceBefore;
    assert row in multiset(Ranking(ss, now));
    assert row in WorkspaceRows(ss, now);
  }
}
