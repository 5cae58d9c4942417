/**
  What one history reconciliation does to the catalogue, as functions of the
  table of sessions, the discovered records and the set of busy sessions.
 */
module Reconcile {
  import opened Model
  import opened Text
  import opened Ordering
  import opened Matching

  type Sessions = map<string, Session>

  /**
    One run: `busy` are the sessions that are live and pending, running or
    paused; `clean` is filepath.Clean, of which nothing is assumed.
   */
  datatype Run = Run(adapter: string, records: seq<Record>, busy: set<string>, clean: string -> string)

  /** Every entry is stored under its own, non-empty id. */
  ghost predicate Keyed(S: Sessions) {
    forall k :: k in S ==> S[k].id == k && k != ""
  }

  // ---- classification -----------------------------------------------------

  predicate BackfillsAdapter(adapter: string) {
    Lower(Trim(adapter)) == "codex" || Lower(Trim(adapter)) == "opencode"
  }

  function NormalPath(run: Run, path: string): string {
    if Trim(path) == "" then "" else run.clean(Trim(path))
  }

  predicate ManagedHere(run: Run, s: Session) {
    s.origin == Managed && SameName(s.adapter, run.adapter)
  }

  predicate DiscoveredHere(run: Run, s: Session) {
    s.origin == Discovered && SameName(s.adapter, run.adapter)
  }

  /** Usable to refresh a managed session that already carries its native id. */
  predicate NativeCandidate(run: Run, r: Record) {
    DiscoveredHere(run, r.session) && !Blank(r.session.nativeId) && !Blank(r.session.detailPath)
  }

  /** Usable to bind a managed session that has no native id yet. */
  predicate FreeCandidate(run: Run, used: set<string>, r: Record) {
    && DiscoveredHere(run, r.session)
    && NormalPath(run, r.session.workspacePath) != ""
    && !Blank(r.session.nativeId) && !Blank(r.session.detailPath)
    && r.session.createdAt != ZERO_TIME
    && Trim(r.session.nativeId) !in used
  }

  predicate Waiting(run: Run, s: Session) {
    && ManagedHere(run, s) && Blank(s.nativeId) && s.createdAt != ZERO_TIME
    && s.id !in run.busy
    && NormalPath(run, s.workspacePath) != ""
  }

  function UsedNatives(run: Run, S: Sessions): set<string> {
    set k | k in S && ManagedHere(run, S[k]) && !Blank(S[k].nativeId) :: Trim(S[k].nativeId)
  }

  // ---- the four phases, on the session table ------------------------------

  function AfterUpsert(S: Sessions, records: seq<Record>): Sessions {
    if records == [] then S
    else
      var last := |records| - 1;
      AfterUpsert(S, records[..last])[records[last].session.id := records[last].session]
  }

  /** The record refreshing native id `n`: the most recently seen, the first of equals. */
  function BestByNative(run: Run, records: seq<Record>, n: string): Option<Record> {
    if records == [] then None
    else
      var last := records[|records| - 1];
      var best := BestByNative(run, records[..|records| - 1], n);
      if NativeCandidate(run, last) && Trim(last.session.nativeId) == n
         && (best == None || last.session.lastSeen > best.value.session.lastSeen)
      then Some(last) else best
  }

  function Later(a: Time, b: Time): Time {
    if b > a then b else a
  }

  function Refreshed(s: Session, c: Session): Session {
    s.(resumeStrategy := NativeId,
       detailPath := c.detailPath,
       preview := if Blank(c.preview) then s.preview else c.preview,
       lastSeen := Later(s.lastSeen, c.lastSeen),
       state := c.state,
       capabilities := s.capabilities.(
         supportsResume := s.capabilities.supportsResume || c.capabilities.supportsResume,
         supportsNative := s.capabilities.supportsNative || c.capabilities.supportsNative))
  }

  predicate PathsConflict(run: Run, c: Session, s: Session) {
    !Blank(c.workspacePath) && !Blank(s.workspacePath) && run.clean(c.workspacePath) != run.clean(s.workspacePath)
  }

  function RefreshOne(run: Run, s: Session): Session {
    if !ManagedHere(run, s) || Blank(s.nativeId) || s.id in run.busy then s
    else
      var best := BestByNative(run, run.records, Trim(s.nativeId));
      if best == None || PathsConflict(run, best.value.session, s) then s
      else Refreshed(s, best.value.session)
  }

  function AfterNative(run: Run, S: Sessions): Sessions {
    map k | k in S :: RefreshOne(run, S[k])
  }

  function Bind(s: Session, c: Session): Session {
    s.(nativeId := c.nativeId,
       resumeStrategy := NativeId,
       detailPath := c.detailPath,
       preview := if Blank(c.preview) then s.preview else c.preview,
       capabilities := s.capabilities.(
         supportsResume := s.capabilities.supportsResume || c.capabilities.supportsResume,
         supportsNative := true),
       state := c.state,
       lastSeen := Later(s.lastSeen, c.lastSeen))
  }

  predicate SessionBefore(l: Session, r: Session) {
    if l.createdAt != r.createdAt then l.createdAt < r.createdAt
    else if l.lastSeen != r.lastSeen then l.lastSeen < r.lastSeen
    else Before(l.id, r.id)
  }

  predicate RecordBefore(l: Record, r: Record) {
    SessionBefore(l.session, r.session)
  }

  /** The waiting sessions of one workspace. */
  function WaitingIn(run: Run, S: Sessions, w: string): set<Session> {
    set k | k in S && Waiting(run, S[k]) && NormalPath(run, S[k].workspacePath) == w :: S[k]
  }

  ghost function Queue(run: Run, S: Sessions, w: string): (q: seq<Session>)
    ensures multiset(q) == multiset(WaitingIn(run, S, w))
  {
    StableSort(SessionBefore, Listing(WaitingIn(run, S, w)))
  }

  function FreeIn(run: Run, records: seq<Record>, used: set<string>, w: string): seq<Record> {
    if records == [] then []
    else
      var last := records[|records| - 1];
      var rest := FreeIn(run, records[..|records| - 1], used, w);
      if FreeCandidate(run, used, last) && NormalPath(run, last.session.workspacePath) == w then rest + [last] else rest
  }

  function Candidates(run: Run, used: set<string>, w: string): seq<Record> {
    StableSort(RecordBefore, FreeIn(run, run.records, used, w))
  }

  function Times(q: seq<Session>): (t: seq<Time>)
    ensures |t| == |q|
  {
    seq(|q|, i requires 0 <= i < |q| => q[i].createdAt)
  }

  function RecordTimes(q: seq<Record>): (t: seq<Time>)
    ensures |t| == |q|
  {
    seq(|q|, i requires 0 <= i < |q| => q[i].session.createdAt)
  }

  /** For each queued session of workspace `w` the position of its candidate, or -1. */
  ghost function Slots(run: Run, S: Sessions, w: string): (a: seq<Slot>)
    ensures |a| == |Queue(run, S, w)|
  {
    FullScan(Times(Queue(run, S, w)), RecordTimes(Candidates(run, UsedNatives(run, S), w)), {})
  }

  ghost function Position<T>(q: seq<T>, x: T): (i: nat)
    requires x in q
    ensures i < |q| && q[i] == x
  {
    var i :| 0 <= i < |q| && q[i] == x;
    i
  }

  /** The record a session is bound to, if any. */
  ghost function Chosen(run: Run, S: Sessions, s: Session): Option<Record> {
    var w := NormalPath(run, s.workspacePath);
    var q, c := Queue(run, S, w), Candidates(run, UsedNatives(run, S), w);
    if !Waiting(run, s) || s !in q then None
    else
      var j := Slots(run, S, w)[Position(q, s)];
      if 0 <= j < |c| then Some(c[j]) else None
  }

  ghost function BackfillOne(run: Run, S: Sessions, s: Session): Session {
    var r := Chosen(run, S, s);
    if r == None then s else Bind(s, r.value.session)
  }

  ghost function AfterBackfill(run: Run, S: Sessions): Sessions {
    map k | k in S :: BackfillOne(run, S, S[k])
  }

  /** A session may take over a record. */
  ghost predicate MayBind(run: Run, S: Sessions, s: Session, r: Record) {
    && Waiting(run, s) && r in run.records && FreeCandidate(run, UsedNatives(run, S), r)
    && NormalPath(run, r.session.workspacePath) == NormalPath(run, s.workspacePath)
    && InWindow(s.createdAt, r.session.createdAt)
  }

  predicate Kept(run: Run, s: Session) {
    DiscoveredHere(run, s) ==> exists r :: r in run.records && !Blank(r.session.id) && Trim(r.session.id) == Trim(s.id)
  }

  function AfterPurge(run: Run, S: Sessions): Sessions {
    map k | k in S && Kept(run, S[k]) :: S[k]
  }

  ghost function AfterManaged(run: Run, S: Sessions): Sessions {
    if BackfillsAdapter(run.adapter) then AfterBackfill(run, AfterNative(run, S)) else S
  }

  /** The session table after a whole successful run. */
  ghost function Reconciled(run: Run, S: Sessions): Sessions {
    AfterPurge(run, AfterManaged(run, AfterUpsert(S, run.records)))
  }

  // ---- the key sets of the two other tables -------------------------------

  function ConversationRefs(S: Sessions): set<string> {
    set k | k in S && !Blank(S[k].conversationId) :: Trim(S[k].conversationId)
  }

  function WorkspaceRefs(S: Sessions): set<string> {
    set k | k in S && !Blank(S[k].workspaceId) :: Trim(S[k].workspaceId)
  }

  /** The conversations written for sessions that a phase changed. */
  function Touched(S: Sessions, S': Sessions): set<string> {
    set k | k in S && k in S' && S'[k] != S[k] && !Blank(S[k].conversationId) :: S[k].conversationId
  }

  function RecordConversations(records: seq<Record>): set<string> {
    set r | r in records :: r.conversation.id
  }

  function RecordWorkspaces(records: seq<Record>): set<string> {
    set r | r in records :: r.workspace.id
  }

  ghost function ManagedTouched(run: Run, S: Sessions): set<string> {
    if BackfillsAdapter(run.adapter)
    then Touched(S, AfterNative(run, S)) + Touched(AfterNative(run, S), AfterManaged(run, S))
    else {}
  }

  ghost function ReconciledConversations(run: Run, S: Sessions, K: set<string>): set<string> {
    (K + RecordConversations(run.records) + ManagedTouched(run, AfterUpsert(S, run.records)))
      * ConversationRefs(Reconciled(run, S))
  }

  ghost function ReconciledWorkspaces(run: Run, S: Sessions, K: set<string>): set<string> {
    (K + RecordWorkspaces(run.records)) * WorkspaceRefs(Reconciled(run, S))
  }

  // ---- what callers are told to supply ------------------------------------

  ghost predicate DistinctIds(records: seq<Record>) {
    forall i, j :: 0 <= i < j < |records| ==> records[i].session.id != records[j].session.id
  }

  ghost predicate DistinctNatives(records: seq<Record>) {
    forall i, j :: 0 <= i < j < |records| && !Blank(records[i].session.nativeId)
                   ==> Trim(records[i].session.nativeId) != Trim(records[j].session.nativeId)
  }

  /** Discovery only reports sessions of its own adapter, marked as discovered. */
  ghost predicate FromDiscovery(run: Run) {
    forall r :: r in run.records ==> DiscoveredHere(run, r.session)
  }

  /** No record reuses the id of a session in the table that is not discovered by this adapter. */
  ghost predicate NoTakeover(run: Run, S: Sessions) {
    forall r :: r in run.records && r.session.id in S ==> DiscoveredHere(run, S[r.session.id])
  }

  // ---- the orders -----------------------------------------------------------

  lemma SessionOrder()
    ensures StrictWeakOrder(SessionBefore)
    ensures StrictWeakOrder(RecordBefore)
  {
    forall a: Session, b: Session, c: Session
      ensures SessionBefore(a, b) ==> !SessionBefore(b, a)
      ensures SessionBefore(a, b) && SessionBefore(b, c) ==> SessionBefore(a, c)
      ensures !SessionBefore(a, b) && !SessionBefore(b, c) ==> !SessionBefore(a, c)
    {
      SessionTransitive(a, b, c);
    }
  }

  lemma SessionTransitive(a: Session, b: Session, c: Session)
    ensures SessionBefore(a, b) ==> !SessionBefore(b, a)
    ensures SessionBefore(a, b) && SessionBefore(b, c) ==> SessionBefore(a, c)
    ensures !SessionBefore(a, b) && !SessionBefore(b, c) ==> !SessionBefore(a, c)
  {
    BeforeTrichotomy(a.id, b.id);
    BeforeTrichotomy(b.id, c.id);
    BeforeTrichotomy(a.id, c.id);
    if Before(a.id, b.id) && Before(b.id, c.id) { BeforeTransitive(a.id, b.id, c.id); }
    if Before(c.id, b.id) && Before(b.id, a.id) { BeforeTransitive(c.id, b.id, a.id); }
  }

  lemma SortedAscends(q: seq<Session>)
    requires Sorted(SessionBefore, q)
    ensures Ascending(Times(q))
  {
  }

  lemma SortedRecordsAscend(q: seq<Record>)
    requires Sorted(RecordBefore, q)
    ensures Ascending(RecordTimes(q))
  {
    forall i, j | 0 <= i < j < |q| ensures RecordTimes(q)[i] <= RecordTimes(q)[j] {
      assert !RecordBefore(q[j], q[i]);
    }
  }
}
