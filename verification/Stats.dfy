/** The statistics report (internal/httpapi/stats.go). */
module Stats {
  import opened Model
  import opened Text
  import opened Ordering

  const DEFAULT_TOP: int := 15
  const MAX_TOP: int := 100
  const RECENT_WINDOW: int := 20 * MINUTE
  const COMPLETION_WINDOW: int := 45 * MINUTE

  /** The counters that the totals and every adapter have in common. */
  datatype Counters = Counters(
    sessions: nat, managed: nat, discovered: nat,
    pending: nat, running: nat, paused: nat, stopped: nat, errored: nat,
    reviewRequired: nat, recentActivity: nat)

  datatype AdapterStats = AdapterStats(adapter: string, counts: Counters, uniqueWorkspaces: nat, lastSeen: Time)

  datatype ClaudecodeStats = ClaudecodeStats(sessions: nat, primary: nat, subagent: nat, uniqueWorkspaces: nat)

  datatype WorkspaceStats = WorkspaceStats(
    path: string, sessions: nat, managed: nat, discovered: nat,
    claudecodeSessions: nat, claudecodeSubagent: nat, lastSeen: Time, adapters: seq<string>)

  datatype Response = Response(
    generatedAt: Time,
    totals: Counters,
    uniqueWorkspaces: nat,
    uniqueConversations: nat,
    adapters: seq<AdapterStats>,
    claudecode: Option<ClaudecodeStats>,
    topWorkspaces: seq<WorkspaceStats>)

  // ---- what is read off one session ---------------------------------------------

  datatype Highlight = Highlight(reviewRequired: bool, recentActivity: bool)

  /** HighlightForSession, as far as the report looks at it. */
  function HighlightOf(s: Session, now: Time): Option<Highlight> {
    var updated := if s.lastSeen != ZERO_TIME then s.lastSeen else if s.createdAt != ZERO_TIME then s.createdAt else now;
    var age := if now - updated < 0 then 0 else now - updated;
    var recent := age <= RECENT_WINDOW;
    if s.state == Paused then Some(Highlight(true, true))
    else if s.state == Errored then Some(Highlight(true, recent))
    else if s.state == Stopped && age <= COMPLETION_WINDOW then Some(Highlight(true, true))
    else if s.state == Running || s.state == Pending then Some(Highlight(false, true))
    else if recent then Some(Highlight(false, true))
    else None
  }

  function AdapterName(s: Session): string {
    if Blank(s.adapter) then "unknown" else Trim(s.adapter)
  }

  function WorkspaceKey(s: Session): string {
    if !Blank(s.workspacePath) then Trim(s.workspacePath)
    else if !Blank(s.workspaceRoot) then Trim(s.workspaceRoot)
    else Trim(s.workspaceId)
  }

  function WorkspaceLabel(s: Session): string {
    if WorkspaceKey(s) != "" then WorkspaceKey(s) else "(unknown workspace)"
  }

  predicate OccursAt(s: string, part: string, i: int) {
    0 <= i <= |s| - |part| && s[i..i + |part|] == part
  }

  predicate Contains(s: string, part: string) {
    exists i :: 0 <= i <= |s| - |part| && OccursAt(s, part, i)
  }

  predicate IsSubagent(s: Session) {
    Contains(Lower(Trim(s.detailPath)), "/subagents/") || "agent-" <= Lower(Trim(s.nativeId))
  }

  // ---- adding sessions up -----------------------------------------------------------

  /** Everything the report says about a group of sessions. */
  datatype Tally = Tally(
    counts: Counters,
    claudecode: nat,
    subagent: nat,
    lastSeen: Time,
    workspaces: set<string>,
    conversations: set<string>,
    adapters: set<string>)

  const NOTHING: Counters := Counters(0, 0, 0, 0, 0, 0, 0, 0, 0, 0)
  const EMPTY: Tally := Tally(NOTHING, 0, 0, ZERO_TIME, {}, {}, {})

  function Bit(b: bool): nat {
    if b then 1 else 0
  }

  function CountersOf(s: Session, now: Time): Counters {
    var h := HighlightOf(s, now);
    Counters(1, Bit(s.origin == Managed), Bit(s.origin == Discovered),
             Bit(s.state == Pending), Bit(s.state == Running), Bit(s.state == Paused),
             Bit(s.state == Stopped), Bit(s.state == Errored),
             Bit(h != None && h.value.reviewRequired), Bit(h != None && h.value.recentActivity))
  }

  function NonEmpty(key: string): set<string> {
    if key == "" then {} else {key}
  }

  /** The tally of a single session. */
  function TallyOf(s: Session, now: Time): Tally {
    var claude := AdapterName(s) == "claudecode";
    Tally(CountersOf(s, now), Bit(claude), Bit(claude && IsSubagent(s)),
          if s.lastSeen > ZERO_TIME then s.lastSeen else ZERO_TIME,
          NonEmpty(WorkspaceKey(s)), NonEmpty(Trim(s.conversationId)), {AdapterName(s)})
  }

  function AddCounters(a: Counters, b: Counters): Counters {
    Counters(a.sessions + b.sessions, a.managed + b.managed, a.discovered + b.discovered,
             a.pending + b.pending, a.running + b.running, a.paused + b.paused,
             a.stopped + b.stopped, a.errored + b.errored,
             a.reviewRequired + b.reviewRequired, a.recentActivity + b.recentActivity)
  }

  function Add(a: Tally, b: Tally): Tally {
    Tally(AddCounters(a.counts, b.counts), a.claudecode + b.claudecode, a.subagent + b.subagent,
          if b.lastSeen > a.lastSeen then b.lastSeen else a.lastSeen,
          a.workspaces + b.workspaces, a.conversations + b.conversations, a.adapters + b.adapters)
  }

  function Sum(ss: seq<Session>, now: Time): Tally {
    if ss == [] then EMPTY else Add(Sum(ss[..|ss| - 1], now), TallyOf(ss[|ss| - 1], now))
  }

  /** The sessions with a given value of a key, in order. */
  function Where(ss: seq<Session>, key: Session -> string, value: string): seq<Session> {
    if ss == [] then []
    else
      var front, s := Where(ss[..|ss| - 1], key, value), ss[|ss| - 1];
      if key(s) == value then front + [s] else front
  }

  function Values(ss: seq<Session>, key: Session -> string): set<string> {
    set s | s in ss :: key(s)
  }

  function ByAdapter(ss: seq<Session>, name: string, now: Time): Tally {
    Sum(Where(ss, AdapterName, name), now)
  }

  function ByWorkspace(ss: seq<Session>, place: string, now: Time): Tally {
    Sum(Where(ss, WorkspaceLabel, place), now)
  }

  // ---- the report, as a function of the sessions --------------------------------------

  function AdapterRow(name: string, t: Tally): AdapterStats {
    AdapterStats(name, t.counts, |t.workspaces|, t.lastSeen)
  }

  ghost function SortedNames(names: set<string>): seq<string> {
    StableSort(Before, Listing(names))
  }

  ghost function WorkspaceRow(place: string, t: Tally): WorkspaceStats {
    WorkspaceStats(place, t.counts.sessions, t.counts.managed, t.counts.discovered,
                   t.claudecode, t.subagent, t.lastSeen, SortedNames(t.adapters))
  }

  predicate AdapterBefore(l: AdapterStats, r: AdapterStats) {
    if l.counts.sessions == r.counts.sessions then Before(l.adapter, r.adapter) else l.counts.sessions > r.counts.sessions
  }

  predicate WorkspaceBefore(l: WorkspaceStats, r: WorkspaceStats) {
    if l.sessions == r.sessions
    then if l.lastSeen == r.lastSeen then Before(l.path, r.path) else l.lastSeen > r.lastSeen
    else l.sessions > r.sessions
  }

  ghost function AdapterRows(ss: seq<Session>, now: Time): set<AdapterStats> {
    set n | n in Values(ss, AdapterName) :: AdapterRow(n, ByAdapter(ss, n, now))
  }

  ghost function WorkspaceRows(ss: seq<Session>, now: Time): set<WorkspaceStats> {
    set l | l in Values(ss, WorkspaceLabel) :: WorkspaceRow(l, ByWorkspace(ss, l, now))
  }

  ghost function AdapterTable(ss: seq<Session>, now: Time): seq<AdapterStats> {
    StableSort(AdapterBefore, Listing(AdapterRows(ss, now)))
  }

  /** All workspaces, best first. */
  ghost function Ranking(ss: seq<Session>, now: Time): seq<WorkspaceStats> {
    StableSort(WorkspaceBefore, Listing(WorkspaceRows(ss, now)))
  }

  function TopN(n: int): (r: int)
    ensures 1 <= r <= MAX_TOP
  {
    if n <= 0 then DEFAULT_TOP else if n > MAX_TOP then MAX_TOP else n
  }

  function Truncated<T>(rows: seq<T>, n: int): seq<T>
    requires n >= 0
  {
    if |rows| > n then rows[..n] else rows
  }

  function ClaudecodeRow(t: Tally): Option<ClaudecodeStats> {
    if t.claudecode == 0 then None
    else Some(ClaudecodeStats(t.claudecode, if t.claudecode >= t.subagent then t.claudecode - t.subagent else 0,
                              t.subagent, |t.workspaces|))
  }

  /** What BuildStatsResponse computes. */
  ghost function Report(ss: seq<Session>, now: Time, topN: int): Response {
    var t := Sum(ss, now);
    Response(now, t.counts, |t.workspaces|, |t.conversations|, AdapterTable(ss, now),
             ClaudecodeRow(ByAdapter(ss, "claudecode", now)), Truncated(Ranking(ss, now), TopN(topN)))
  }

  // ---- the program ------------------------------------------------------------------

  datatype AdapterAccumulator = AdapterAccumulator(stats: AdapterStats, workspaceSeen: set<string>)

  datatype WorkspaceAccumulator = WorkspaceAccumulator(stats: WorkspaceStats, adapterSeen: set<string>)

  datatype ClaudecodeAccumulator = ClaudecodeAccumulator(stats: ClaudecodeStats, workspaceSeen: set<string>)

  /** One session counted into the totals or into an adapter. */
  method Count(c: Counters, s: Session, highlight: Option<Highlight>) returns (r: Counters)
    ensures forall now :: highlight == HighlightOf(s, now) ==> r == AddCounters(c, CountersOf(s, now))
  {
    hide HighlightOf;
    r := c.(sessions := c.sessions + 1);
    match s.origin {
      case Managed => r := r.(managed := r.managed + 1);
      case Discovered => r := r.(discovered := r.discovered + 1);
      case OtherOrigin(_) =>
    }
    match s.state {
      case Pending => r := r.(pending := r.pending + 1);
      case Running => r := r.(running := r.running + 1);
      case Paused => r := r.(paused := r.paused + 1);
      case Stopped => r := r.(stopped := r.stopped + 1);
      case Errored => r := r.(errored := r.errored + 1);
      case OtherState(_) =>
    }
    if highlight != None {
      if highlight.value.reviewRequired { r := r.(reviewRequired := r.reviewRequired + 1); }
      if highlight.value.recentActivity { r := r.(recentActivity := r.recentActivity + 1); }
    }
  }

  function SeenLater(seen: Time, s: Session): Time {
    if s.lastSeen != ZERO_TIME && s.lastSeen > seen then s.lastSeen else seen
  }

  /** What the accumulator of an adapter holds for a tally; the unique workspaces are filled in at the end. */
  function AdapterState(name: string, t: Tally): AdapterAccumulator {
    AdapterAccumulator(AdapterStats(name, t.counts, 0, t.lastSeen), t.workspaces)
  }

  function WorkspaceState(place: string, t: Tally): WorkspaceAccumulator {
    WorkspaceAccumulator(WorkspaceStats(place, t.counts.sessions, t.counts.managed, t.counts.discovered,
                                        t.claudecode, t.subagent, t.lastSeen, []), t.adapters)
  }

  function ClaudecodeState(t: Tally): ClaudecodeAccumulator {
    ClaudecodeAccumulator(ClaudecodeStats(t.claudecode, if t.claudecode >= t.subagent then t.claudecode - t.subagent else 0,
                                          t.subagent, 0), t.workspaces)
  }

  method CountAdapter(agg: AdapterAccumulator, s: Session, now: Time, ghost name: string, ghost t: Tally)
    returns (r: AdapterAccumulator)
    requires agg == AdapterState(name, t) && t.lastSeen >= ZERO_TIME
    ensures r == AdapterState(name, Add(t, TallyOf(s, now)))
  {
    hide HighlightOf, CountersOf, IsSubagent, WorkspaceKey, AddCounters;
    var counts := Count(agg.stats.counts, s, HighlightOf(s, now));
    var stats := agg.stats.(counts := counts, lastSeen := SeenLater(agg.stats.lastSeen, s));
    var seen := agg.workspaceSeen;
    if WorkspaceKey(s) != "" { seen := seen + {WorkspaceKey(s)}; }
    r := AdapterAccumulator(stats, seen);
  }

  method CountWorkspace(agg: WorkspaceAccumulator, s: Session, now: Time, ghost place: string, ghost t: Tally)
    returns (r: WorkspaceAccumulator)
    requires agg == WorkspaceState(place, t) && t.lastSeen >= ZERO_TIME
    ensures r == WorkspaceState(place, Add(t, TallyOf(s, now)))
  {
    hide HighlightOf, IsSubagent, WorkspaceKey, AdapterName;
    var stats := agg.stats.(sessions := agg.stats.sessions + 1);
    match s.origin {
      case Managed => stats := stats.(managed := stats.managed + 1);
      case Discovered => stats := stats.(discovered := stats.discovered + 1);
      case OtherOrigin(_) =>
    }
    var name := AdapterName(s);
    if name == "claudecode" {
      stats := stats.(claudecodeSessions := stats.claudecodeSessions + 1);
      if IsSubagent(s) { stats := stats.(claudecodeSubagent := stats.claudecodeSubagent + 1); }
    }
    stats := stats.(lastSeen := SeenLater(stats.lastSeen, s));
    r := WorkspaceAccumulator(stats, agg.adapterSeen + {name});
  }

  method CountClaudecode(agg: ClaudecodeAccumulator, s: Session, now: Time, ghost t: Tally)
    returns (r: ClaudecodeAccumulator)
    requires agg == ClaudecodeState(t) && t.subagent <= t.claudecode && AdapterName(s) == "claudecode"
    ensures r == ClaudecodeState(Add(t, TallyOf(s, now)))
  {
    hide HighlightOf, IsSubagent, WorkspaceKey, AdapterName, CountersOf;
    var stats := agg.stats.(sessions := agg.stats.sessions + 1);
    if IsSubagent(s) {
      stats := stats.(subagent := stats.subagent + 1);
    } else {
      stats := stats.(primary := stats.primary + 1);
    }
    var seen := agg.workspaceSeen;
    if WorkspaceKey(s) != "" { seen := seen + {WorkspaceKey(s)}; }
    r := ClaudecodeAccumulator(stats, seen);
  }

  /** The accumulators agree with the sessions counted so far. */
  ghost predicate AdaptersCounted(agg: map<string, AdapterAccumulator>, ss: seq<Session>, now: Time) {
    && agg.Keys == Values(ss, AdapterName)
    && (forall n :: n in agg ==> agg[n] == AdapterState(n, ByAdapter(ss, n, now)))
  }

  ghost predicate WorkspacesCounted(agg: map<string, WorkspaceAccumulator>, ss: seq<Session>, now: Time) {
    && agg.Keys == Values(ss, WorkspaceLabel)
    && (forall l :: l in agg ==> agg[l] == WorkspaceState(l, ByWorkspace(ss, l, now)))
  }

  lemma WhereSnoc(ss: seq<Session>, s: Session, key: Session -> string, value: string, now: Time)
    ensures Sum(Where(ss + [s], key, value), now)
         == if key(s) == value then Add(Sum(Where(ss, key, value), now), TallyOf(s, now))
            else Sum(Where(ss, key, value), now)
  {
    hide TallyOf, Add;
    var all := ss + [s];
    assert all[..|all| - 1] == ss;
    var front := Where(ss, key, value);
    var more := front + [s];
    assert more[..|more| - 1] == front;
  }

  lemma ValuesSnoc(ss: seq<Session>, s: Session, key: Session -> string)
    ensures Values(ss + [s], key) == Values(ss, key) + {key(s)}
  {
    forall v ensures v in Values(ss + [s], key) <==> v in Values(ss, key) + {key(s)} {
      if v in Values(ss, key) {
        var x :| x in ss && key(x) == v;
        assert x in ss + [s];
      }
      assert s in ss + [s];
    }
  }

  lemma {:induction false} WhereAbsent(ss: seq<Session>, key: Session -> string, value: string)
    requires value !in Values(ss, key)
    ensures Where(ss, key, value) == []
  {
    if ss != [] {
      var last := |ss| - 1;
      assert ss[last] in ss && ss == ss[..last] + [ss[last]];
      ValuesSnoc(ss[..last], ss[last], key);
      WhereAbsent(ss[..last], key, value);
    }
  }

  lemma {:induction false} SumBounds(ss: seq<Session>, now: Time)
    ensures Sum(ss, now).lastSeen >= ZERO_TIME
    ensures Sum(ss, now).subagent <= Sum(ss, now).claudecode
    ensures Sum(ss, now).counts.sessions == |ss|
  {
    hide IsSubagent, AdapterName, HighlightOf, WorkspaceKey;
    if ss != [] {
      SumBounds(ss[..|ss| - 1], now);
    }
  }

  method CountIntoAdapters(agg: map<string, AdapterAccumulator>, s: Session, now: Time, ghost ss: seq<Session>)
    returns (r: map<string, AdapterAccumulator>)
    requires AdaptersCounted(agg, ss, now)
    ensures AdaptersCounted(r, ss + [s], now)
  {
    hide Where, Sum, Values, TallyOf, Add, AdapterName, AdapterState;
    var name := AdapterName(s);
    var before := if name in agg then agg[name]
               else AdapterAccumulator(AdapterStats(name, NOTHING, 0, ZERO_TIME), {});
    ghost var t := ByAdapter(ss, name, now);
    SumBounds(Where(ss, AdapterName, name), now);
    if name !in agg { FreshAdapter(ss, name, now); }
    var counted := CountAdapter(before, s, now, name, t);
    r := agg[name := counted];
    ValuesSnoc(ss, s, AdapterName);
    forall n | n in r ensures r[n] == AdapterState(n, ByAdapter(ss + [s], n, now)) {
      WhereSnoc(ss, s, AdapterName, n, now);
    }
  }

  lemma FreshAdapter(ss: seq<Session>, name: string, now: Time)
    requires name !in Values(ss, AdapterName)
    ensures AdapterState(name, ByAdapter(ss, name, now))
         == AdapterAccumulator(AdapterStats(name, NOTHING, 0, ZERO_TIME), {})
  {
    hide AdapterName, Values;
    WhereAbsent(ss, AdapterName, name);
  }

  method CountIntoWorkspaces(agg: map<string, WorkspaceAccumulator>, s: Session, now: Time, ghost ss: seq<Session>)
    returns (r: map<string, WorkspaceAccumulator>)
    requires WorkspacesCounted(agg, ss, now)
    ensures WorkspacesCounted(r, ss + [s], now)
  {
    hide Where, Sum, Values, TallyOf, Add, WorkspaceLabel, WorkspaceState;
    var place := WorkspaceLabel(s);
    var before := if place in agg then agg[place]
               else WorkspaceAccumulator(WorkspaceStats(place, 0, 0, 0, 0, 0, ZERO_TIME, []), {});
    ghost var t := ByWorkspace(ss, place, now);
    SumBounds(Where(ss, WorkspaceLabel, place), now);
    if place !in agg { FreshWorkspace(ss, place, now); }
    var counted := CountWorkspace(before, s, now, place, t);
    r := agg[place := counted];
    ValuesSnoc(ss, s, WorkspaceLabel);
    forall l | l in r ensures r[l] == WorkspaceState(l, ByWorkspace(ss + [s], l, now)) {
      WhereSnoc(ss, s, WorkspaceLabel, l, now);
    }
  }

  lemma FreshWorkspace(ss: seq<Session>, place: string, now: Time)
    requires place !in Values(ss, WorkspaceLabel)
    ensures WorkspaceState(place, ByWorkspace(ss, place, now))
         == WorkspaceAccumulator(WorkspaceStats(place, 0, 0, 0, 0, 0, ZERO_TIME, []), {})
  {
    hide WorkspaceLabel, Values;
    WhereAbsent(ss, WorkspaceLabel, place);
  }

  // ---- sorting -------------------------------------------------------------------------

  lemma BeforeIsOrder()
    ensures StrictWeakOrder(Before)
    ensures forall s: seq<string> :: NoTies(Before, s)
  {
    hide Before;
    forall a, b ensures Before(a, b) ==> !Before(b, a) { BeforeTrichotomy(a, b); }
    forall a, b, c ensures Before(a, b) && Before(b, c) ==> Before(a, c) {
      if Before(a, b) && Before(b, c) { BeforeTransitive(a, b, c); }
    }
    forall a, b, c ensures !Before(a, b) && !Before(b, c) ==> !Before(a, c) {
      NotBeforeTransitive(a, b, c);
    }
    forall s: seq<string> ensures NoTies(Before, s) {
      forall x, y | x in s && y in s && x != y ensures Before(x, y) || Before(y, x) { BeforeTrichotomy(x, y); }
    }
  }

  lemma NotBeforeTransitive(a: string, b: string, c: string)
    ensures !Before(a, b) && !Before(b, c) ==> !Before(a, c)
  {
    hide Before;
    BeforeTrichotomy(a, b);
    BeforeTrichotomy(b, c);
    BeforeTrichotomy(a, c);
    if Before(c, b) && Before(b, a) { BeforeTransitive(c, b, a); }
  }

  lemma AdapterOrder()
    ensures StrictWeakOrder(AdapterBefore)
  {
    hide Before;
    forall a, b ensures AdapterBefore(a, b) ==> !AdapterBefore(b, a) { BeforeTrichotomy(a.adapter, b.adapter); }
    forall a, b, c ensures AdapterBefore(a, b) && AdapterBefore(b, c) ==> AdapterBefore(a, c) {
      if Before(a.adapter, b.adapter) && Before(b.adapter, c.adapter) { BeforeTransitive(a.adapter, b.adapter, c.adapter); }
    }
    forall a, b, c ensures !AdapterBefore(a, b) && !AdapterBefore(b, c) ==> !AdapterBefore(a, c) {
      NotBeforeTransitive(a.adapter, b.adapter, c.adapter);
    }
  }

  lemma WorkspaceOrder()
    ensures StrictWeakOrder(WorkspaceBefore)
  {
    hide Before;
    forall a, b ensures WorkspaceBefore(a, b) ==> !WorkspaceBefore(b, a) { BeforeTrichotomy(a.path, b.path); }
    forall a, b, c ensures WorkspaceBefore(a, b) && WorkspaceBefore(b, c) ==> WorkspaceBefore(a, c) {
      if Before(a.path, b.path) && Before(b.path, c.path) { BeforeTransitive(a.path, b.path, c.path); }
    }
    forall a, b, c ensures !WorkspaceBefore(a, b) && !WorkspaceBefore(b, c) ==> !WorkspaceBefore(a, c) {
      NotBeforeTransitive(a.path, b.path, c.path);
    }
  }

  /** However a set is enumerated, sorting it without ties gives one sequence. */
  lemma SortedOnce<T(!new)>(less: (T, T) -> bool, rows: seq<T>, s: set<T>)
    requires StrictWeakOrder(less) && NoTies(less, rows)
    requires multiset(rows) == multiset(s)
    ensures StableSort(less, rows) == StableSort(less, Listing(s))
  {
    hide StrictWeakOrder, Sorted, StableSort, Listing;
    var a, b := StableSort(less, rows), StableSort(less, Listing(s));
    StableSortSorts(less, rows);
    StableSortSorts(less, Listing(s));
    forall x, y | x in a && y in a && x != y ensures less(x, y) || less(y, x) {
      assert x in multiset(a) && y in multiset(a);
      assert x in multiset(rows) && y in multiset(rows);
      assert x in rows && y in rows;
    }
    SortedUnique(less, a, b);
  }

  lemma AdapterNoTies(rows: seq<AdapterStats>)
    requires forall x, y :: x in rows && y in rows && x.adapter == y.adapter ==> x == y
    ensures NoTies(AdapterBefore, rows)
  {
    hide Before;
    forall x, y | x in rows && y in rows && x != y ensures AdapterBefore(x, y) || AdapterBefore(y, x) {
      BeforeTrichotomy(x.adapter, y.adapter);
    }
  }

  lemma WorkspaceNoTies(rows: seq<WorkspaceStats>)
    requires forall x, y :: x in rows && y in rows && x.path == y.path ==> x == y
    ensures NoTies(WorkspaceBefore, rows)
  {
    hide Before;
    forall x, y | x in rows && y in rows && x != y ensures WorkspaceBefore(x, y) || WorkspaceBefore(y, x) {
      BeforeTrichotomy(x.path, y.path);
    }
  }

  // ---- from the maps to the tables -------------------------------------------------------

  /** The values that trim to a given name. */
  ghost function TrimTo(values: set<string>, name: string): set<string> {
    set v | v in values && Trim(v) == name
  }

  /** setToSortedSlice: trims, drops what is blank, sorts; values that trim to one name are listed once each. */
  method SetToSortedSlice(values: set<string>) returns (out: seq<string>)
    ensures Sorted(Before, out)
    ensures forall name :: multiset(out)[name] == if name == "" then 0 else |TrimTo(values, name)|
  {
    hide Before, Trim, StableSort, StrictWeakOrder, NoTies, Sorted;
    var listed: seq<string> := [];
    var todo := values;
    while todo != {}
      invariant todo <= values
      invariant forall name :: multiset(listed)[name] == if name == "" then 0 else |TrimTo(values - todo, name)|
      decreases |todo|
    {
      var value :| value in todo;
      var trimmed := Trim(value);
      forall name ensures TrimTo(values - (todo - {value}), name)
                       == TrimTo(values - todo, name) + if name == trimmed then {value} else {}
      {
      }
      todo := todo - {value};
      if trimmed != "" { listed := listed + [trimmed]; }
    }
    assert values - todo == values;
    BeforeIsOrder();
    StableSortSorts(Before, listed);
    out := StableSort(Before, listed);
  }

  /** On names that are trimmed and not empty this is just sorting. */
  lemma TrimmedNames(values: set<string>, out: seq<string>)
    requires Sorted(Before, out)
    requires forall name :: multiset(out)[name] == if name == "" then 0 else |TrimTo(values, name)|
    requires forall v :: v in values ==> Unpadded(v) && v != ""
    ensures out == SortedNames(values)
  {
    hide Before, Trim, StableSort, Listing, StrictWeakOrder, NoTies, Sorted;
    forall name ensures multiset(out)[name] == multiset(values)[name] {
      assert TrimTo(values, name) == if name in values then {name} else {};
    }
    assert multiset(out) == multiset(values);
    BeforeIsOrder();
    StableSortSorts(Before, Listing(values));
    SortedUnique(Before, out, SortedNames(values));
  }

  method ListAdapters(agg: map<string, AdapterAccumulator>, ghost ss: seq<Session>, now: Time)
    returns (rows: seq<AdapterStats>)
    requires AdaptersCounted(agg, ss, now)
    ensures rows == AdapterTable(ss, now)
  {
    hide ByAdapter, Values, Before, StableSort, Listing, StrictWeakOrder, NoTies;
    var listed: seq<AdapterStats> := [];
    var todo := agg.Keys;
    while todo != {}
      invariant todo <= agg.Keys
      invariant multiset(listed) == multiset(set n | n in agg.Keys - todo :: AdapterRow(n, ByAdapter(ss, n, now)))
      decreases |todo|
    {
      var name :| name in todo;
      var row := agg[name].stats.(uniqueWorkspaces := |agg[name].workspaceSeen|);
      assert row == AdapterRow(name, ByAdapter(ss, name, now));
      ghost var done := set n | n in agg.Keys - todo :: AdapterRow(n, ByAdapter(ss, n, now));
      assert row !in done;
      assert (set n | n in agg.Keys - (todo - {name}) :: AdapterRow(n, ByAdapter(ss, n, now))) == done + {row};
      todo := todo - {name};
      listed := listed + [row];
    }
    assert agg.Keys - todo == agg.Keys;
    assert multiset(listed) == multiset(AdapterRows(ss, now));
    ListsSet(listed, AdapterRows(ss, now));
    AdapterNoTies(listed);
    AdapterOrder();
    SortedOnce(AdapterBefore, listed, AdapterRows(ss, now));
    rows := StableSort(AdapterBefore, listed);
  }

  method ListWorkspaces(agg: map<string, WorkspaceAccumulator>, ghost ss: seq<Session>, now: Time)
    returns (rows: seq<WorkspaceStats>)
    requires WorkspacesCounted(agg, ss, now)
    ensures rows == Ranking(ss, now)
  {
    hide ByWorkspace, Values, Before, StableSort, Listing, StrictWeakOrder, NoTies, SortedNames, Unpadded, Sorted, TrimTo;
    var listed: seq<WorkspaceStats> := [];
    var todo := agg.Keys;
    while todo != {}
      invariant todo <= agg.Keys
      invariant multiset(listed) == multiset(set l | l in agg.Keys - todo :: WorkspaceRow(l, ByWorkspace(ss, l, now)))
      decreases |todo|
    {
      var place :| place in todo;
      TalliedNames(ss, place, now);
      var adapters := SetToSortedSlice(agg[place].adapterSeen);
      TrimmedNames(agg[place].adapterSeen, adapters);
      var row := agg[place].stats.(adapters := adapters);
      assert row == WorkspaceRow(place, ByWorkspace(ss, place, now));
      ghost var done := set l | l in agg.Keys - todo :: WorkspaceRow(l, ByWorkspace(ss, l, now));
      assert row !in done;
      assert (set l | l in agg.Keys - (todo - {place}) :: WorkspaceRow(l, ByWorkspace(ss, l, now))) == done + {row};
      todo := todo - {place};
      listed := listed + [row];
    }
    assert agg.Keys - todo == agg.Keys;
    assert multiset(listed) == multiset(WorkspaceRows(ss, now));
    ListsSet(listed, WorkspaceRows(ss, now));
    WorkspaceNoTies(listed);
    WorkspaceOrder();
    SortedOnce(WorkspaceBefore, listed, WorkspaceRows(ss, now));
    rows := StableSort(WorkspaceBefore, listed);
  }

  /** Adapter names are trimmed and not empty. */
  lemma {:induction false} SumNames(ss: seq<Session>, now: Time, name: string)
    requires name in Sum(ss, now).adapters
    ensures Unpadded(name) && name != ""
  {
    hide HighlightOf, WorkspaceKey, IsSubagent, Trim, CountersOf;
    if ss != [] {
      var s := ss[|ss| - 1];
      if name in Sum(ss[..|ss| - 1], now).adapters {
        SumNames(ss[..|ss| - 1], now, name);
      } else {
        TrimTwice(s.adapter);
        UnknownIsUnpadded();
      }
    }
  }

  lemma UnknownIsUnpadded()
    ensures Unpadded("unknown")
  {
  }

  lemma TalliedNames(ss: seq<Session>, place: string, now: Time)
    ensures forall n :: n in ByWorkspace(ss, place, now).adapters ==> Unpadded(n) && n != ""
  {
    hide Sum, Where, Unpadded;
    forall n | n in ByWorkspace(ss, place, now).adapters ensures Unpadded(n) && n != "" {
      SumNames(Where(ss, WorkspaceLabel, place), now, n);
    }
  }

  /** BuildStatsResponse. */
  method BuildStatsResponse(sessions: seq<Session>, now: Time, topN: int) returns (resp: Response)
    ensures resp == Report(sessions, now, topN)
  {
    hide AdaptersCounted, WorkspacesCounted, HighlightOf, IsSubagent, CountersOf, AdapterTable, Ranking, Where,
         AddCounters, AdapterName, WorkspaceKey, Trim;
    var totals, workspaceSeen, conversationSeen := NOTHING, {}, {};
    var adapterAgg: map<string, AdapterAccumulator> := map[];
    var workspaceAgg: map<string, WorkspaceAccumulator> := map[];
    var claudecodeAgg := ClaudecodeAccumulator(ClaudecodeStats(0, 0, 0, 0), {});
    NothingCounted(now);
    for i := 0 to |sessions|
      invariant totals == Sum(sessions[..i], now).counts
      invariant workspaceSeen == Sum(sessions[..i], now).workspaces
      invariant conversationSeen == Sum(sessions[..i], now).conversations
      invariant AdaptersCounted(adapterAgg, sessions[..i], now)
      invariant WorkspacesCounted(workspaceAgg, sessions[..i], now)
      invariant claudecodeAgg == ClaudecodeState(ByAdapter(sessions[..i], "claudecode", now))
    {
      var s := sessions[i];
      ghost var ss := sessions[..i];
      assert sessions[..i + 1] == ss + [s];
      assert (ss + [s])[..|ss + [s]| - 1] == ss;
      totals := Count(totals, s, HighlightOf(s, now));
      if WorkspaceKey(s) != "" { workspaceSeen := workspaceSeen + {WorkspaceKey(s)}; }
      if Trim(s.conversationId) != "" { conversationSeen := conversationSeen + {Trim(s.conversationId)}; }
      adapterAgg := CountIntoAdapters(adapterAgg, s, now, ss);
      workspaceAgg := CountIntoWorkspaces(workspaceAgg, s, now, ss);
      WhereSnoc(ss, s, AdapterName, "claudecode", now);
      SumBounds(Where(ss, AdapterName, "claudecode"), now);
      if AdapterName(s) == "claudecode" {
        claudecodeAgg := CountClaudecode(claudecodeAgg, s, now, ByAdapter(ss, "claudecode", now));
      }
    }
    assert sessions[..|sessions|] == sessions;
    var adapters := ListAdapters(adapterAgg, sessions, now);
    var topWorkspaces := ListWorkspaces(workspaceAgg, sessions, now);
    if |topWorkspaces| > TopN(topN) { topWorkspaces := topWorkspaces[..TopN(topN)]; }
    var claudecode := None;
    if claudecodeAgg.stats.sessions > 0 {
      claudecode := Some(claudecodeAgg.stats.(uniqueWorkspaces := |claudecodeAgg.workspaceSeen|));
    }
    resp := Response(now, totals, |workspaceSeen|, |conversationSeen|, adapters, claudecode, topWorkspaces);
  }

  lemma NothingCounted(now: Time)
    ensures AdaptersCounted(map[], [], now) && WorkspacesCounted(map[], [], now)
    ensures ByAdapter([], "claudecode", now) == EMPTY
  {
  }
}
