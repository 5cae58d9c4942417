/** What reconciling does to one session, field by field and in the terms of the table and the records alone. */
module SessionFacts {
  import opened Model
  import opened Text
  import opened Ordering
  import opened Matching
  import opened Reconcile
  import opened QueueFacts
  import opened ReconcileFacts
  import opened BindingFacts
  import opened Idempotence

  /** The fields no phase writes. */
  predicate SameElsewhere(s: Session, t: Session) {
    && t.id == s.id && t.adapter == s.adapter && t.origin == s.origin
    && t.workspacePath == s.workspacePath && t.workspaceRoot == s.workspaceRoot && t.workspaceId == s.workspaceId
    && t.conversationId == s.conversationId && t.createdAt == s.createdAt
    && t.capabilities.rest == s.capabilities.rest && t.rest == s.rest
  }

  /** What `t` has from the discovered session `c` in any case. */
  predicate Renewed(s: Session, c: Session, t: Session) {
    && t.resumeStrategy == NativeId
    && t.detailPath == c.detailPath && t.state == c.state
    && t.preview == (if Trim(c.preview) == "" then s.preview else c.preview)
    && t.lastSeen == (if c.lastSeen > s.lastSeen then c.lastSeen else s.lastSeen)
    && t.capabilities.supportsResume == (s.capabilities.supportsResume || c.capabilities.supportsResume)
  }

  predicate IsCodexOrOpencode(adapter: string) {
    Lower(Trim(adapter)) == "codex" || Lower(Trim(adapter)) == "opencode"
  }

  // ---- refreshing --------------------------------------------------------------------

  /** Record `i` is about the native id `n`. */
  predicate Reports(run: Run, i: nat, n: string)
    requires i < |run.records|
  {
    var c := run.records[i].session;
    && c.origin == Discovered && Lower(Trim(c.adapter)) == Lower(Trim(run.adapter))
    && Trim(c.nativeId) == n && n != "" && Trim(c.detailPath) != ""
  }

  /** Of the first `k` records, `i` is the one about `n` that was seen last, and the first of those seen then. */
  ghost predicate SeenLastAmong(run: Run, k: nat, i: nat, n: string)
    requires i < k <= |run.records|
  {
    && Reports(run, i, n)
    && (forall j :: 0 <= j < k && Reports(run, j, n) ==>
          && run.records[j].session.lastSeen <= run.records[i].session.lastSeen
          && (j < i ==> run.records[j].session.lastSeen < run.records[i].session.lastSeen))
  }

  ghost predicate SeenLast(run: Run, i: nat, n: string)
    requires i < |run.records|
  {
    SeenLastAmong(run, |run.records|, i, n)
  }

  lemma ReportsIs(run: Run, i: nat, n: string)
    requires i < |run.records|
    ensures Reports(run, i, n) <==> NativeCandidate(run, run.records[i]) && Trim(run.records[i].session.nativeId) == n
  {
    hide Trim, Lower;
  }

  lemma {:induction false} BestSoFar(run: Run, n: string, k: nat)
    requires k <= |run.records|
    ensures var best := BestByNative(run, run.records[..k], n);
            && (best == None ==> forall j :: 0 <= j < k ==> !Reports(run, j, n))
            && (best != None ==> exists i :: 0 <= i < k && run.records[i] == best.value && SeenLastAmong(run, k, i, n))
  {
    hide NativeCandidate, Reports;
    if k > 0 {
      BestSoFar(run, n, k - 1);
      ReportsIs(run, k - 1, n);
      assert run.records[..k][..k - 1] == run.records[..k - 1];
      var before, best := BestByNative(run, run.records[..k - 1], n), BestByNative(run, run.records[..k], n);
      if best != before {
        assert best == Some(run.records[k - 1]) && Reports(run, k - 1, n);
      }
    }
  }

  /** The record seen last is the one that refreshes, and without a record none does. */
  lemma BestIsSeenLast(run: Run, n: string)
    ensures forall i :: 0 <= i < |run.records| && SeenLast(run, i, n) ==> BestByNative(run, run.records, n) == Some(run.records[i])
    ensures (forall i :: 0 <= i < |run.records| ==> !Reports(run, i, n)) ==> BestByNative(run, run.records, n) == None
  {
    hide BestByNative, Reports;
    BestSoFar(run, n, |run.records|);
    assert run.records[..|run.records|] == run.records;
  }

  /** The session may be refreshed at all. */
  predicate Refreshable(run: Run, s: Session) {
    && s.origin == Managed && Lower(Trim(s.adapter)) == Lower(Trim(run.adapter))
    && Trim(s.nativeId) != "" && s.id !in run.busy
  }

  predicate SamePlace(run: Run, c: Session, s: Session) {
    Trim(c.workspacePath) == "" || Trim(s.workspacePath) == "" || run.clean(c.workspacePath) == run.clean(s.workspacePath)
  }

  /** The session is one to refresh, and the record's path does not conflict with its own. */
  predicate Renews(run: Run, i: nat, s: Session)
    requires i < |run.records|
  {
    Refreshable(run, s) && SamePlace(run, run.records[i].session, s)
  }

  /**
    A managed session that is not busy and whose native id was discovered has, after
    the phase, the detail path, state and non-blank preview of the record seen last,
    the later of the two times, and the capabilities of both; nothing else changed.
    Every other session is as it was.
   */
  lemma RefreshIsExact(run: Run, S: Sessions, k: string)
    requires k in S
    ensures k in AfterNative(run, S)
    ensures var s, t := S[k], AfterNative(run, S)[k];
            && (forall i :: 0 <= i < |run.records| && SeenLast(run, i, Trim(s.nativeId)) && Renews(run, i, s) ==>
                  var c := run.records[i].session;
                  && Renewed(s, c, t) && SameElsewhere(s, t) && t.nativeId == s.nativeId
                  && t.capabilities.supportsNative == (s.capabilities.supportsNative || c.capabilities.supportsNative))
            && (!Refreshable(run, s) ==> t == s)
            && ((forall i :: 0 <= i < |run.records| ==> !Reports(run, i, Trim(s.nativeId))) ==> t == s)
            && (forall i :: 0 <= i < |run.records| && SeenLast(run, i, Trim(s.nativeId)) && !Renews(run, i, s) ==> t == s)
  {
    hide BestByNative, Trim, Lower, Reports, SeenLast;
    BestIsSeenLast(run, Trim(S[k].nativeId));
  }

  lemma {:induction false} UpsertElsewhere(S: Sessions, records: seq<Record>, k: string)
    requires k in S && forall r :: r in records ==> r.session.id != k
    ensures k in AfterUpsert(S, records) && AfterUpsert(S, records)[k] == S[k]
  {
    if records != [] {
      UpsertElsewhere(S, records[..|records| - 1], k);
    }
  }

  /** A session that is managed or of another adapter and has a native id is only refreshed by a run. */
  lemma OnlyRefreshed(run: Run, U: Sessions, k: string)
    requires k in U && (U[k].origin == Managed || Lower(Trim(U[k].adapter)) != Lower(Trim(run.adapter)))
    requires Trim(U[k].nativeId) != "" || U[k].id in run.busy || Lower(Trim(U[k].adapter)) != Lower(Trim(run.adapter))
    ensures k in AfterPurge(run, AfterManaged(run, U))
    ensures AfterPurge(run, AfterManaged(run, U))[k] ==
            if IsCodexOrOpencode(run.adapter) then AfterNative(run, U)[k] else U[k]
  {
    hide BestByNative, Trim, Lower, Chosen, PathsConflict;
    var t := RefreshOne(run, U[k]);
    assert t.origin == U[k].origin && t.adapter == U[k].adapter && t.nativeId == U[k].nativeId && t.id == U[k].id;
    ChosenOnlyWaiting(run, AfterNative(run, U), t);
  }

  /** The refresh is what a whole run leaves of such a session, for the adapters that have it. */
  lemma RunRefreshes(run: Run, S: Sessions, k: string, i: nat)
    requires k in S && (forall r :: r in run.records ==> r.session.id != k)
    requires Lower(Trim(run.adapter)) == "codex" || Lower(Trim(run.adapter)) == "opencode"
    requires i < |run.records| && Refreshable(run, S[k])
    requires SeenLast(run, i, Trim(S[k].nativeId)) && SamePlace(run, run.records[i].session, S[k])
    ensures k in Reconciled(run, S)
    ensures var s, c, t := S[k], run.records[i].session, Reconciled(run, S)[k];
            && Renewed(s, c, t) && SameElsewhere(s, t) && t.nativeId == s.nativeId
            && t.capabilities.supportsNative == (s.capabilities.supportsNative || c.capabilities.supportsNative)
  {
    hide AfterNative, AfterManaged, AfterPurge, Trim, Lower, SeenLast, Renewed, SameElsewhere, SamePlace;
    UpsertElsewhere(S, run.records, k);
    OnlyRefreshed(run, AfterUpsert(S, run.records), k);
    RefreshIsExact(run, AfterUpsert(S, run.records), k);
  }

  /** A run for any other adapter changes no session it does not delete or store. */
  lemma OthersOnlyPurge(run: Run, S: Sessions, k: string)
    requires k in S && (forall r :: r in run.records ==> r.session.id != k)
    requires S[k].origin == Managed || Lower(Trim(S[k].adapter)) != Lower(Trim(run.adapter))
    requires (Lower(Trim(run.adapter)) != "codex" && Lower(Trim(run.adapter)) != "opencode")
             || Lower(Trim(S[k].adapter)) != Lower(Trim(run.adapter))
    ensures k in Reconciled(run, S) && Reconciled(run, S)[k] == S[k]
  {
    hide Trim, Lower, AfterNative, AfterUpsert, AfterPurge, AfterManaged, AfterBackfill;
    UpsertElsewhere(S, run.records, k);
    var U := AfterUpsert(S, run.records);
    if Lower(Trim(S[k].adapter)) != Lower(Trim(run.adapter)) {
      OnlyRefreshed(run, U, k);
      RefreshIsExact(run, U, k);
    } else {
      OnlyPurged(run, U, k);
    }
  }

  lemma OnlyPurged(run: Run, U: Sessions, k: string)
    requires k in U && U[k].origin == Managed && !IsCodexOrOpencode(run.adapter)
    ensures k in AfterPurge(run, AfterManaged(run, U)) && AfterPurge(run, AfterManaged(run, U))[k] == U[k]
  {
    hide Trim, Lower, AfterNative, AfterBackfill;
  }

  // ---- binding -----------------------------------------------------------------------

  /** A managed session of the adapter that waits for a native id. */
  predicate IsWaiting(run: Run, s: Session) {
    && s.origin == Managed && Lower(Trim(s.adapter)) == Lower(Trim(run.adapter))
    && Trim(s.nativeId) == "" && s.createdAt != 0 && s.id !in run.busy
    && Trim(s.workspacePath) != "" && run.clean(Trim(s.workspacePath)) != ""
  }

  /** No managed session of the adapter holds the native id. */
  ghost predicate IsUnheld(run: Run, S: Sessions, n: string) {
    forall k :: k in S && S[k].origin == Managed && Lower(Trim(S[k].adapter)) == Lower(Trim(run.adapter)) ==> Trim(S[k].nativeId) != n
  }

  /**
    A discovered session that fits a waiting one: complete, of the same workspace,
    created between 30 seconds before and 20 minutes after it.
   */
  predicate Fits(run: Run, s: Session, c: Session) {
    && c.origin == Discovered && Lower(Trim(c.adapter)) == Lower(Trim(run.adapter))
    && Trim(c.nativeId) != "" && Trim(c.detailPath) != "" && c.createdAt != 0
    && Trim(c.workspacePath) != "" && run.clean(Trim(c.workspacePath)) == run.clean(Trim(s.workspacePath))
    && s.createdAt - 30_000_000_000 <= c.createdAt <= s.createdAt + 1_200_000_000_000
  }

  /** When a session may take over a record. */
  lemma MayBindMeans(run: Run, S: Sessions, s: Session, r: Record)
    ensures MayBind(run, S, s, r) <==>
            IsWaiting(run, s) && r in run.records && Fits(run, s, r.session) && IsUnheld(run, S, Trim(r.session.nativeId))
  {
    hide Trim, Lower;
    assert Trim(r.session.nativeId) != "" ==>
      (Trim(r.session.nativeId) in UsedNatives(run, S) <==> !IsUnheld(run, S, Trim(r.session.nativeId)));
  }

  /**
    A session the backfill changed was waiting, and took over a record that fits and
    whose native id nobody held: its ids and paths, its state, the later time; it
    supports native conversations from then on.
   */
  lemma BindingIsExact(run: Run, S: Sessions, k: string) returns (r: Record)
    requires Keyed(S) && k in S && AfterBackfill(run, S)[k] != S[k]
    ensures r in run.records && IsWaiting(run, S[k]) && Fits(run, S[k], r.session)
    ensures IsUnheld(run, S, Trim(r.session.nativeId))
    ensures var s, c, t := S[k], r.session, AfterBackfill(run, S)[k];
            && Renewed(s, c, t) && SameElsewhere(s, t)
            && t.nativeId == c.nativeId && t.capabilities.supportsNative
  {
    hide Chosen, Trim, Lower, MayBind, IsWaiting, Fits, IsUnheld;
    r := Chosen(run, S, S[k]).value;
    BoundAt(run, S, k);
    MayBindMeans(run, S, S[k], r);
  }

  /** The sessions that are bound are the ones that change, and afterwards they hold a native id. */
  lemma BoundAreChanged(run: Run, S: Sessions, k: string)
    requires Keyed(S) && k in S
    ensures Chosen(run, S, S[k]) != None <==> AfterBackfill(run, S)[k] != S[k]
    ensures Chosen(run, S, S[k]) != None ==> Bind(S[k], Chosen(run, S, S[k]).value.session) == AfterBackfill(run, S)[k]
    ensures Chosen(run, S, S[k]) != None ==> Trim(AfterBackfill(run, S)[k].nativeId) != ""
  {
    hide Chosen, Trim, Lower;
    if Chosen(run, S, S[k]) != None { BoundAt(run, S, k); }
  }

  /** Nobody is left out: where a record fits a waiting session, that session was bound or another one took that record. */
  lemma NobodyLeftOut(run: Run, S: Sessions, k: string, r: Record)
    requires Keyed(S) && k in S && r in run.records
    requires IsWaiting(run, S[k]) && Fits(run, S[k], r.session) && IsUnheld(run, S, Trim(r.session.nativeId))
    ensures var T := AfterBackfill(run, S);
            || Trim(T[k].nativeId) != ""
            || exists l :: l in S && l != k && IsWaiting(run, S[l]) && T[l].nativeId == r.session.nativeId
                           && T[l].detailPath == r.session.detailPath
  {
    hide Chosen, Trim, Lower, MayBind, Fits, IsUnheld, IsWaiting;
    MayBindMeans(run, S, S[k], r);
    BoundAreChanged(run, S, k);
    if Chosen(run, S, S[k]) == None {
      LeftoverIsTaken(run, S, k, r);
      var l :| l in S && Chosen(run, S, S[l]) == Some(r);
      BoundAreChanged(run, S, l);
      BoundAt(run, S, l);
      MayBindMeans(run, S, S[l], r);
    }
  }

  /** Earlier created; then earlier seen; then by id. */
  predicate Earlier(l: Session, r: Session) {
    l.createdAt < r.createdAt
    || (l.createdAt == r.createdAt && l.lastSeen < r.lastSeen)
    || (l.createdAt == r.createdAt && l.lastSeen == r.lastSeen && Before(l.id, r.id))
  }

  /** Of two sessions bound in one workspace the earlier one never has the later record. */
  lemma EarlierGetsEarlier(run: Run, S: Sessions, s: Session, t: Session, p: Record, r: Record)
    requires Keyed(S) && s in S.Values && t in S.Values
    requires Chosen(run, S, s) == Some(p) && Chosen(run, S, t) == Some(r)
    requires NormalPath(run, s.workspacePath) == NormalPath(run, t.workspacePath) && Earlier(s, t)
    ensures !Earlier(r.session, p.session)
  {
    hide Chosen, NormalPath, Before;
    BindingsKeepOrder(run, S, s, t, p, r);
  }

  lemma ChangedSet(run: Run, S: Sessions)
    requires Keyed(S)
    ensures Bound(run, S).Keys == set k | k in S && AfterBackfill(run, S)[k] != S[k]
  {
    hide Chosen, BackfillOne;
    forall k | k in S ensures Chosen(run, S, S[k]) != None <==> AfterBackfill(run, S)[k] != S[k] {
      BoundAreChanged(run, S, k);
    }
  }

  /** As many sessions change as any way of giving fitting records to waiting sessions, each record once, could bind. */
  lemma AsManyAsPossible(run: Run, S: Sessions, g: map<string, Record>)
    requires Keyed(S)
    requires forall k :: k in g ==>
      k in S && IsWaiting(run, S[k]) && g[k] in run.records && Fits(run, S[k], g[k].session)
      && IsUnheld(run, S, Trim(g[k].session.nativeId))
    requires forall k, l :: k in g && l in g && g[k] == g[l] ==> k == l
    ensures |g| <= |set k | k in S && AfterBackfill(run, S)[k] != S[k]|
  {
    hide Trim, MayBind, Fits, IsUnheld, IsWaiting, BackfillOne, Bound, Keyed;
    forall k | k in g ensures MayBind(run, S, S[k], g[k]) { MayBindMeans(run, S, S[k], g[k]); }
    BackfillIsMaximum(run, S, g);
    ChangedSet(run, S);
    assert |Bound(run, S)| == |Bound(run, S).Keys|;
  }

  /** What a whole run makes of a waiting session is what the backfill makes of it. */
  lemma RunBinds(run: Run, S: Sessions, k: string)
    requires k in S && S[k].origin == Managed && (forall r :: r in run.records ==> r.session.id != k)
    requires Lower(Trim(run.adapter)) == "codex" || Lower(Trim(run.adapter)) == "opencode"
    ensures var T := AfterNative(run, AfterUpsert(S, run.records));
            && k in T && k in Reconciled(run, S) && Reconciled(run, S)[k] == AfterBackfill(run, T)[k]
            && (Trim(S[k].nativeId) == "" ==> T[k] == S[k])
  {
    hide Trim, Lower, AfterNative, AfterBackfill;
    UpsertElsewhere(S, run.records, k);
    var U := AfterUpsert(S, run.records);
    RefreshIsExact(run, U, k);
    BackfillKeepsManaged(run, AfterNative(run, U), k);
    assert AfterNative(run, U)[k].origin == Managed by { RefreshKeepsManaged(run, U, k); }
  }

  lemma RefreshKeepsManaged(run: Run, U: Sessions, k: string)
    requires k in U
    ensures k in AfterNative(run, U) && AfterNative(run, U)[k].origin == U[k].origin
  {
    hide BestByNative, PathsConflict;
  }

  lemma BackfillKeepsManaged(run: Run, T: Sessions, k: string)
    requires k in T
    ensures k in AfterBackfill(run, T) && AfterBackfill(run, T)[k].origin == T[k].origin
  {
    hide Chosen;
  }
}
