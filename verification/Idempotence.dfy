/** Reconciling twice with the same records and the same busy sessions changes nothing the second time. */
module Idempotence {
  import opened Model
  import opened Text
  import opened Ordering
  import opened Matching
  import opened Reconcile
  import opened QueueFacts
  import opened ReconcileFacts
  import opened BindingFacts

  // ---- refreshing -----------------------------------------------------------

  lemma RefreshTwice(run: Run, s: Session)
    ensures RefreshOne(run, RefreshOne(run, s)) == RefreshOne(run, s)
  {
    hide BestByNative, SameName, PathsConflict, Blank, Trim;
    var t := RefreshOne(run, s);
    if t != s {
      var best := BestByNative(run, run.records, Trim(s.nativeId)).value;
      SamePathsConflict(run, best.session, s, t);
    }
  }

  lemma SamePathsConflict(run: Run, c: Session, s: Session, t: Session)
    requires s.workspacePath == t.workspacePath
    ensures PathsConflict(run, c, s) == PathsConflict(run, c, t)
  {
  }

  /** With distinct native ids the record carrying one is the best one for it. */
  lemma {:induction false} BestIsOwn(run: Run, records: seq<Record>, r: Record)
    requires DistinctNatives(records) && r in records && NativeCandidate(run, r)
    ensures BestByNative(run, records, Trim(r.session.nativeId)) == Some(r)
  {
    hide Trim, DiscoveredHere;
    var n := Trim(r.session.nativeId);
    var front, last := records[..|records| - 1], records[|records| - 1];
    assert records == front + [last];
    if r in front {
      BestIsOwn(run, front, r);
      assert Trim(last.session.nativeId) != n;
    } else {
      forall x | x in front ensures Trim(x.session.nativeId) != n {
        var i :| 0 <= i < |front| && front[i] == x;
        assert records[i] == x && records[|records| - 1] == r;
      }
      NoBest(run, front, n);
    }
  }

  lemma {:induction false} NoBest(run: Run, records: seq<Record>, n: string)
    requires forall r :: r in records ==> Trim(r.session.nativeId) != n
    ensures BestByNative(run, records, n) == None
  {
    if records != [] {
      NoBest(run, records[..|records| - 1], n);
    }
  }

  /** A session bound to a record is not refreshed any further by it. */
  lemma RefreshAfterBind(run: Run, s: Session, r: Record)
    requires DistinctNatives(run.records) && r in run.records && NativeCandidate(run, r)
    ensures RefreshOne(run, Bind(s, r.session)) == Bind(s, r.session)
  {
    BestIsOwn(run, run.records, r);
    hide BestByNative, SameName, PathsConflict, Blank, Trim, DistinctNatives;
  }

  /** After the backfill nothing is left to refresh. */
  lemma NothingToRefresh(run: Run, U: Sessions, k: string)
    requires Keyed(AfterNative(run, U)) && DistinctNatives(run.records)
    requires k in U
    ensures var t := AfterBackfill(run, AfterNative(run, U))[k]; RefreshOne(run, t) == t
  {
    hide RefreshOne, Chosen, Bind, MayBind, DistinctNatives;
    var T := AfterNative(run, U);
    RefreshTwice(run, U[k]);
    if Chosen(run, T, T[k]) != None {
      var r := Chosen(run, T, T[k]).value;
      BoundAt(run, T, k);
      BindableIsNative(run, T, T[k], r);
      RefreshAfterBind(run, T[k], r);
    }
  }

  lemma BindableIsNative(run: Run, S: Sessions, s: Session, r: Record)
    requires MayBind(run, S, s, r)
    ensures r in run.records && NativeCandidate(run, r)
  {
  }

  // ---- binding --------------------------------------------------------------

  /** A session still waiting after the backfill was not changed by it. */
  lemma StillWaiting(run: Run, T: Sessions, k: string)
    requires Keyed(T) && k in T && Waiting(run, AfterBackfill(run, T)[k])
    ensures Chosen(run, T, T[k]) == None && AfterBackfill(run, T)[k] == T[k]
  {
    hide Chosen, MayBind, NormalPath, Blank, SameName;
    if Chosen(run, T, T[k]) != None {
      var r := Chosen(run, T, T[k]).value;
      BoundAt(run, T, k);
      BindableIsNative(run, T, T[k], r);
    }
  }

  /** Native ids held before the backfill are held after it, and so are those it gave out. */
  lemma UsedGrows(run: Run, T: Sessions)
    requires Keyed(T)
    ensures UsedNatives(run, T) <= UsedNatives(run, AfterBackfill(run, T))
    ensures forall k :: k in T && Chosen(run, T, T[k]) != None ==>
              Trim(Chosen(run, T, T[k]).value.session.nativeId) in UsedNatives(run, AfterBackfill(run, T))
  {
    hide Chosen, NormalPath, Trim, SameName, MayBind;
    var A := AfterBackfill(run, T);
    forall k | k in T && Chosen(run, T, T[k]) != None
      ensures Trim(Chosen(run, T, T[k]).value.session.nativeId) in UsedNatives(run, A)
    {
      BoundAt(run, T, k);
      BindableIsNative(run, T, T[k], Chosen(run, T, T[k]).value);
      ChosenOnlyWaiting(run, T, T[k]);
      assert ManagedHere(run, A[k]) && A[k].nativeId == Chosen(run, T, T[k]).value.session.nativeId;
    }
    forall n | n in UsedNatives(run, T) ensures n in UsedNatives(run, A) {
      var k :| k in T && ManagedHere(run, T[k]) && !Blank(T[k].nativeId) && Trim(T[k].nativeId) == n;
      ChosenOnlyWaiting(run, T, T[k]);
      assert A[k] == T[k];
    }
  }

  lemma FewerFree(run: Run, used: set<string>, more: set<string>, r: Record)
    requires used <= more && FreeCandidate(run, more, r)
    ensures FreeCandidate(run, used, r)
  {
  }

  /** No waiting session could still be bound after the backfill. */
  lemma NothingBindable(run: Run, T: Sessions, k: string, r: Record)
    requires Keyed(T) && k in T
    ensures !MayBind(run, AfterBackfill(run, T), AfterBackfill(run, T)[k], r)
  {
    var A := AfterBackfill(run, T);
    if MayBind(run, A, A[k], r) {
      StillWaiting(run, T, k);
      UsedGrows(run, T);
      FewerFree(run, UsedNatives(run, T), UsedNatives(run, A), r);
      LeftoverIsTaken(run, T, k, r);
      assert false;
    }
  }

  /** If an unbound session may bind a record, the record went to some other session. */
  lemma LeftoverIsTaken(run: Run, T: Sessions, k: string, r: Record)
    requires Keyed(T) && k in T && MayBind(run, T, T[k], r) && Chosen(run, T, T[k]) == None
    ensures exists l :: l in T && Chosen(run, T, T[l]) == Some(r)
  {
    var w := NormalPath(run, T[k].workspacePath);
    hide Queue, Candidates, Slots, Chosen, UsedNatives, Waiting, InWindow, NormalPath, FreeCandidate;
    var i := InQueue(run, T, k);
    CandidatesShape(run, UsedNatives(run, T), w);
    var q, c, a := Queue(run, T, w), Candidates(run, UsedNatives(run, T), w), Slots(run, T, w);
    var j := Position(c, r);
    SlotIsTaken(run, T, w, i, j);
    var l :| 0 <= l < |a| && a[l] == j;
    ChosenAt(run, T, w, l);
    assert q[l] in T.Values;
    QueueIdsDistinct(run, T, w);
    assert q[l] in q;
    assert T[q[l].id] == q[l];
  }

  lemma SlotIsTaken(run: Run, T: Sessions, w: string, i: nat, j: nat)
    requires i < |Queue(run, T, w)| && j < |Candidates(run, UsedNatives(run, T), w)|
    requires Slots(run, T, w)[i] < 0
    requires InWindow(Queue(run, T, w)[i].createdAt, Candidates(run, UsedNatives(run, T), w)[j].session.createdAt)
    ensures j in Slots(run, T, w)
  {
    hide Queue, Candidates, UsedNatives, InWindow, FullScan;
    var q, c := Queue(run, T, w), Candidates(run, UsedNatives(run, T), w);
    NothingLeftOver(Times(q), RecordTimes(c), {});
    assert Times(q)[i] == q[i].createdAt && RecordTimes(c)[j] == c[j].session.createdAt;
  }

  // ---- the whole run ----------------------------------------------------------

  /** The purge keeps every managed session, so the native ids in use stay the same. */
  lemma PurgeKeepsManaged(run: Run, A: Sessions)
    ensures forall k :: k in A && ManagedHere(run, A[k]) ==> k in AfterPurge(run, A)
    ensures UsedNatives(run, AfterPurge(run, A)) == UsedNatives(run, A)
  {
    hide SameName, Trim;
    var R := AfterPurge(run, A);
    forall k | k in A && ManagedHere(run, A[k]) ensures k in R && R[k] == A[k] { }
    forall n | n in UsedNatives(run, A) ensures n in UsedNatives(run, R) {
      var k :| k in A && ManagedHere(run, A[k]) && !Blank(A[k].nativeId) && Trim(A[k].nativeId) == n;
      assert k in R && R[k] == A[k];
    }
  }

  lemma NativeTwice(run: Run, U: Sessions)
    requires Keyed(AfterNative(run, U)) && DistinctNatives(run.records)
    ensures var R := AfterPurge(run, AfterBackfill(run, AfterNative(run, U))); AfterNative(run, R) == R
  {
    hide RefreshOne, BackfillOne, DistinctNatives, Kept, Keyed;
    var R := AfterPurge(run, AfterBackfill(run, AfterNative(run, U)));
    forall k | k in R ensures RefreshOne(run, R[k]) == R[k] {
      NothingToRefresh(run, U, k);
    }
  }

  lemma BackfillTwice(run: Run, T: Sessions)
    requires Keyed(T)
    ensures var R := AfterPurge(run, AfterBackfill(run, T)); AfterBackfill(run, R) == R
  {
    hide Chosen, Bind, Kept, Keyed;
    var R := AfterPurge(run, AfterBackfill(run, T));
    forall k | k in R ensures Chosen(run, R, R[k]) == None {
      UnboundAgain(run, T, k);
    }
  }

  /** The managed phases leave the result of a run alone. */
  lemma ManagedTwice(run: Run, U: Sessions)
    requires Keyed(U) && DistinctNatives(run.records)
    ensures var R := AfterPurge(run, AfterManaged(run, U));
            AfterManaged(run, R) == R && (BackfillsAdapter(run.adapter) ==> AfterNative(run, R) == R)
  {
    hide AfterNative, AfterBackfill, AfterPurge, DistinctNatives;
    if BackfillsAdapter(run.adapter) {
      ManagedKeyed(run, U);
      NativeTwice(run, U);
      BackfillTwice(run, AfterNative(run, U));
    }
  }

  lemma UnboundAgain(run: Run, T: Sessions, k: string)
    requires Keyed(T) && k in AfterPurge(run, AfterBackfill(run, T))
    ensures var R := AfterPurge(run, AfterBackfill(run, T)); Chosen(run, R, R[k]) == None
  {
    hide Chosen, FreeCandidate, Kept, Bind, UsedNatives, Waiting, NormalPath, InWindow;
    var A := AfterBackfill(run, T);
    var R := AfterPurge(run, A);
    PurgeKeepsManaged(run, A);
    BackfillKeyed(run, T);
    if Chosen(run, R, R[k]) != None {
      var r := Chosen(run, R, R[k]).value;
      BoundAt(run, R, k);
      NothingBindable(run, T, k, r);
      assert false;
    }
  }

  lemma BackfillKeyed(run: Run, T: Sessions)
    requires Keyed(T)
    ensures Keyed(AfterBackfill(run, T)) && Keyed(AfterPurge(run, AfterBackfill(run, T)))
  {
    hide Chosen, Kept;
  }

  /** The records are already in the table with their own sessions. */
  lemma {:induction false} UpsertAgain(R: Sessions, records: seq<Record>)
    requires forall r :: r in records ==> r.session.id in R && R[r.session.id] == r.session
    ensures AfterUpsert(R, records) == R
  {
    if records != [] {
      UpsertAgain(R, records[..|records| - 1]);
    }
  }

  lemma RecordsSurvive(run: Run, S: Sessions)
    requires Keyed(S) && DistinctIds(run.records) && FromDiscovery(run)
    requires forall r :: r in run.records ==> !Blank(r.session.id)
    ensures forall r :: r in run.records ==>
              r.session.id in Reconciled(run, S) && Reconciled(run, S)[r.session.id] == r.session
  {
    hide AfterManaged, Trim, SameName;
    var U := AfterUpsert(S, run.records);
    UpsertShape(S, run.records);
    ManagedShape(run, U);
    hide SameIdentity, AfterUpsert;
    forall r | r in run.records
      ensures r.session.id in Reconciled(run, S) && Reconciled(run, S)[r.session.id] == r.session
    {
      assert AfterManaged(run, U)[r.session.id] == r.session;
    }
  }

  lemma SessionsTwice(run: Run, S: Sessions)
    requires Keyed(S) && DistinctIds(run.records) && DistinctNatives(run.records) && FromDiscovery(run)
    requires forall r :: r in run.records ==> !Blank(r.session.id)
    ensures var R := Reconciled(run, S);
            Reconciled(run, R) == R && AfterUpsert(R, run.records) == R && ManagedTouched(run, R) == {}
  {
    var U := AfterUpsert(S, run.records);
    var R := Reconciled(run, S);
    NonBlankIsNonEmpty(run);
    UpsertKeyed(S, run.records);
    ManagedTwice(run, U);
    RecordsSurvive(run, S);
    hide AfterManaged, AfterNative, Kept, Blank, DistinctIds, DistinctNatives, FromDiscovery, AfterUpsert, Keyed, Reconciled;
    UpsertAgain(R, run.records);
    PurgeTwice(run, AfterManaged(run, U));
    assert R == AfterPurge(run, AfterManaged(run, U)) by { ReconciledIs(run, S); }
    ReconciledIs(run, R);
    NothingTouched(R);
  }

  lemma ReconciledIs(run: Run, S: Sessions)
    ensures Reconciled(run, S) == AfterPurge(run, AfterManaged(run, AfterUpsert(S, run.records)))
  {
  }

  lemma PurgeTwice(run: Run, A: Sessions)
    ensures AfterPurge(run, AfterPurge(run, A)) == AfterPurge(run, A)
  {
    hide Kept;
  }

  lemma NothingTouched(S: Sessions)
    ensures Touched(S, S) == {}
  {
  }

  /**
    Reconciliation is idempotent: on distinct session ids and distinct native ids
    a second run with the same records and busy sessions leaves the session table
    and the keys of conversations and workspaces as the first one left them.
   */
  lemma ReconcileTwice(run: Run, S: Sessions, conversations: set<string>, workspaces: set<string>)
    requires Keyed(S) && DistinctIds(run.records) && DistinctNatives(run.records) && FromDiscovery(run)
    requires forall r :: r in run.records ==> !Blank(r.session.id)
    ensures var R := Reconciled(run, S);
            && Reconciled(run, R) == R
            && (var C := ReconciledConversations(run, S, conversations); ReconciledConversations(run, R, C) == C)
            && (var W := ReconciledWorkspaces(run, S, workspaces); ReconciledWorkspaces(run, R, W) == W)
  {
    SessionsTwice(run, S);
    hide Reconciled, ConversationRefs, WorkspaceRefs, RecordConversations, RecordWorkspaces, ManagedTouched,
      Blank, DistinctIds, DistinctNatives, FromDiscovery, Keyed, AfterUpsert;
  }

  lemma NonBlankIsNonEmpty(run: Run)
    requires forall r :: r in run.records ==> !Blank(r.session.id)
    ensures forall r :: r in run.records ==> r.session.id != ""
  {
    assert Trim("") == "";
  }
}
