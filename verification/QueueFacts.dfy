/** The sorted work lists of the backfill do not depend on how they were gathered. */
module QueueFacts {
  import opened Model
  import opened Text
  import opened Ordering
  import opened Matching
  import opened Reconcile

  lemma WaitingNoTies(run: Run, S: Sessions, w: string, q: seq<Session>)
    requires Keyed(S) && multiset(q) == multiset(WaitingIn(run, S, w))
    ensures NoTies(SessionBefore, q)
  {
    forall x, y | x in q && y in q && x != y ensures SessionBefore(x, y) || SessionBefore(y, x) {
      assert x in multiset(q) && y in multiset(q);
      BeforeTrichotomy(x.id, y.id);
    }
  }

  /** However the waiting sessions are enumerated, sorting them gives the same queue. */
  lemma QueueIsUnique(run: Run, S: Sessions, w: string, e: seq<Session>)
    requires Keyed(S) && multiset(e) == multiset(WaitingIn(run, S, w))
    ensures StableSort(SessionBefore, e) == Queue(run, S, w)
  {
    SessionOrder();
    StableSortSorts(SessionBefore, e);
    StableSortSorts(SessionBefore, Listing(WaitingIn(run, S, w)));
    WaitingNoTies(run, S, w, StableSort(SessionBefore, e));
    SortedUnique(SessionBefore, StableSort(SessionBefore, e), Queue(run, S, w));
  }

  lemma QueueShape(run: Run, S: Sessions, w: string)
    ensures forall s :: s in Queue(run, S, w) <==> s in WaitingIn(run, S, w)
    ensures forall i, j :: 0 <= i < j < |Queue(run, S, w)| ==> Queue(run, S, w)[i] != Queue(run, S, w)[j]
  {
    ListsSet(Queue(run, S, w), WaitingIn(run, S, w));
  }

  lemma ListsAscend(run: Run, S: Sessions, used: set<string>, w: string)
    ensures Ascending(Times(Queue(run, S, w)))
    ensures Ascending(RecordTimes(Candidates(run, used, w)))
  {
    SessionOrder();
    StableSortSorts(SessionBefore, Listing(WaitingIn(run, S, w)));
    SortedAscends(Queue(run, S, w));
    StableSortSorts(RecordBefore, FreeIn(run, run.records, used, w));
    SortedRecordsAscend(Candidates(run, used, w));
  }

  lemma {:induction false} FreeInMembers(run: Run, records: seq<Record>, used: set<string>, w: string)
    ensures forall r :: r in FreeIn(run, records, used, w) <==>
              r in records && FreeCandidate(run, used, r) && NormalPath(run, r.session.workspacePath) == w
  {
    if records != [] {
      var front := records[..|records| - 1];
      FreeInMembers(run, front, used, w);
      assert records == front + [records[|records| - 1]];
    }
  }

  lemma {:induction false} FreeInDistinct(run: Run, records: seq<Record>, used: set<string>, w: string)
    requires DistinctIds(records)
    ensures DistinctIds(FreeIn(run, records, used, w))
  {
    if records != [] {
      var front := records[..|records| - 1];
      FreeInDistinct(run, front, used, w);
      FreeInMembers(run, front, used, w);
    }
  }

  lemma DistinctIdsByMultiset(a: seq<Record>, b: seq<Record>)
    requires DistinctIds(a) && multiset(a) == multiset(b)
    ensures DistinctIds(b)
  {
    forall i, j | 0 <= i < j < |b| ensures b[i].session.id != b[j].session.id {
      if b[i].session.id == b[j].session.id {
        assert b[i] in multiset(a) && b[j] in multiset(a);
        assert b[i] in a && b[j] in a;
        assert b[i] == b[j];
        TwiceCounts(b, i, j);
        AtMostOnce(a, b[i]);
        assert false;
      }
    }
  }

  lemma {:induction false} AtMostOnce(a: seq<Record>, x: Record)
    requires DistinctIds(a)
    ensures multiset(a)[x] <= 1
  {
    if a != [] {
      var front := a[..|a| - 1];
      AtMostOnce(front, x);
      assert a == front + [a[|a| - 1]];
      if x == a[|a| - 1] {
        assert x !in front;
        assert x !in multiset(front);
      }
    }
  }

  lemma CandidatesShape(run: Run, used: set<string>, w: string)
    ensures forall r :: r in Candidates(run, used, w) <==>
              r in run.records && FreeCandidate(run, used, r) && NormalPath(run, r.session.workspacePath) == w
    ensures DistinctIds(run.records) ==> DistinctIds(Candidates(run, used, w))
  {
    var f, c := FreeIn(run, run.records, used, w), Candidates(run, used, w);
    FreeInMembers(run, run.records, used, w);
    forall r ensures r in c <==> r in f {
      assert r in c <==> r in multiset(c);
      assert r in f <==> r in multiset(f);
    }
    if DistinctIds(run.records) {
      FreeInDistinct(run, run.records, used, w);
      DistinctIdsByMultiset(f, c);
    }
  }

  /** The slots of a workspace, in the program's own cursor form, with what they satisfy. */
  lemma SlotsShape(run: Run, S: Sessions, w: string)
    ensures var q, c, a := Queue(run, S, w), Candidates(run, UsedNatives(run, S), w), Slots(run, S, w);
            && a == CursorScan(Times(q), RecordTimes(c), 0)
            && (forall i :: 0 <= i < |a| && a[i] >= 0 ==>
                  a[i] < |c| && InWindow(q[i].createdAt, c[a[i]].session.createdAt))
            && (forall i, k :: 0 <= i < k < |a| && a[i] >= 0 && a[k] >= 0 ==> a[i] < a[k])
  {
    hide CursorScan, FullScan, Queue, Candidates, UsedNatives, Ascending, InWindow;
    var q, c := Queue(run, S, w), Candidates(run, UsedNatives(run, S), w);
    ListsAscend(run, S, UsedNatives(run, S), w);
    assert CursorCovers(Times(q), RecordTimes(c), {}, 0);
    CursorIsFullScan(Times(q), RecordTimes(c), {}, 0);
    SlotsFit(q, c, Slots(run, S, w));
  }

  lemma SlotsFit(q: seq<Session>, c: seq<Record>, a: seq<Slot>)
    requires a == CursorScan(Times(q), RecordTimes(c), 0)
    ensures forall i :: 0 <= i < |a| && a[i] >= 0 ==>
              a[i] < |c| && InWindow(q[i].createdAt, c[a[i]].session.createdAt)
    ensures forall i, k :: 0 <= i < k < |a| && a[i] >= 0 && a[k] >= 0 ==> a[i] < a[k]
  {
    NeverCross(Times(q), RecordTimes(c), 0);
    forall i | 0 <= i < |a| && a[i] >= 0
      ensures a[i] < |c| && InWindow(q[i].createdAt, c[a[i]].session.createdAt)
    {
      assert Times(q)[i] == q[i].createdAt;
      assert RecordTimes(c)[a[i]] == c[a[i]].session.createdAt;
    }
  }

  /** The i-th queued session is bound to what slot i says. */
  lemma ChosenAt(run: Run, S: Sessions, w: string, i: nat)
    requires i < |Queue(run, S, w)|
    ensures var q, c, a := Queue(run, S, w), Candidates(run, UsedNatives(run, S), w), Slots(run, S, w);
            && Waiting(run, q[i]) && NormalPath(run, q[i].workspacePath) == w && q[i] in S.Values
            && (a[i] >= 0 ==> a[i] < |c| && Chosen(run, S, q[i]) == Some(c[a[i]]))
            && (a[i] < 0 ==> Chosen(run, S, q[i]) == None)
  {
    hide Queue, Candidates, UsedNatives, InWindow, FullScan, CursorScan, Slots;
    var q := Queue(run, S, w);
    QueueShape(run, S, w);
    SlotsShape(run, S, w);
    assert q[i] in WaitingIn(run, S, w);
    assert Position(q, q[i]) == i;
  }
}
