/** Which sessions the backfill binds to which records, and why no other way would bind more. */
module BindingFacts {
  import opened Model
  import opened Text
  import opened Ordering
  import opened Matching
  import opened Reconcile
  import opened QueueFacts
  import opened ReconcileFacts

  /** A way of giving waiting sessions records, each record once. */
  ghost predicate Feasible(run: Run, S: Sessions, g: map<string, Record>) {
    && (forall k :: k in g ==> k in S && MayBind(run, S, S[k], g[k]))
    && (forall k, l :: k in g && l in g && g[k] == g[l] ==> k == l)
  }

  /** What the backfill itself does. */
  ghost function Bound(run: Run, S: Sessions): (g: map<string, Record>)
    ensures forall k :: k in g <==> k in S && Chosen(run, S, S[k]) != None
    ensures forall k :: k in g ==> Chosen(run, S, S[k]) == Some(g[k])
  {
    map k | k in S && Chosen(run, S, S[k]) != None :: Chosen(run, S, S[k]).value
  }

  /** The place of a waiting session in its queue, and what it was given there. */
  lemma InQueue(run: Run, S: Sessions, k: string) returns (i: nat)
    requires Keyed(S) && k in S && Waiting(run, S[k])
    ensures var w := NormalPath(run, S[k].workspacePath);
            var q, c, a := Queue(run, S, w), Candidates(run, UsedNatives(run, S), w), Slots(run, S, w);
            && i < |q| && q[i] == S[k]
            && (a[i] >= 0 ==> a[i] < |c| && Chosen(run, S, S[k]) == Some(c[a[i]]))
            && (a[i] < 0 ==> Chosen(run, S, S[k]) == None)
  {
    hide Queue, Candidates, Slots, Chosen, UsedNatives, Waiting;
    var w := NormalPath(run, S[k].workspacePath);
    QueueShape(run, S, w);
    assert S[k] in WaitingIn(run, S, w);
    i := Position(Queue(run, S, w), S[k]);
    ChosenAt(run, S, w, i);
  }

  /** The backfill only makes admissible bindings and, record ids being distinct, uses no record twice. */
  lemma BoundIsFeasible(run: Run, S: Sessions)
    requires Keyed(S) && DistinctIds(run.records)
    ensures Feasible(run, S, Bound(run, S))
  {
    hide Queue, Candidates, Slots, Chosen, UsedNatives, Waiting, DistinctIds, InWindow, FreeCandidate, NormalPath;
    var g := Bound(run, S);
    forall k | k in g ensures MayBind(run, S, S[k], g[k]) {
      BoundAt(run, S, k);
    }
    forall k, l | k in g && l in g && g[k] == g[l] ensures k == l {
      BoundApart(run, S, k, l);
    }
  }

  lemma BoundAt(run: Run, S: Sessions, k: string)
    requires Keyed(S) && k in S && Chosen(run, S, S[k]) != None
    ensures MayBind(run, S, S[k], Chosen(run, S, S[k]).value)
  {
    hide Queue, Candidates, Slots, Chosen, UsedNatives, Waiting, InWindow, FreeCandidate, NormalPath;
    ChosenOnlyWaiting(run, S, S[k]);
    var w := NormalPath(run, S[k].workspacePath);
    var i := InQueue(run, S, k);
    SlotsShape(run, S, w);
    CandidatesShape(run, UsedNatives(run, S), w);
  }

  lemma BoundApart(run: Run, S: Sessions, k: string, l: string)
    requires Keyed(S) && DistinctIds(run.records)
    requires k in S && l in S && Chosen(run, S, S[k]) != None && Chosen(run, S, S[k]) == Chosen(run, S, S[l])
    ensures k == l
  {
    hide Queue, Candidates, Slots, Chosen, UsedNatives, Waiting, InWindow, FreeCandidate, NormalPath;
    BoundAt(run, S, k);
    BoundAt(run, S, l);
    var w := NormalPath(run, S[k].workspacePath);
    var i := InQueue(run, S, k);
    var j := InQueue(run, S, l);
    SlotsShape(run, S, w);
    CandidatesShape(run, UsedNatives(run, S), w);
  }

  /** Bindings inside a workspace never cross: sessions in time order get records in time order. */
  lemma BindingsKeepOrder(run: Run, S: Sessions, s: Session, t: Session, p: Record, r: Record)
    requires Keyed(S) && s in S.Values && t in S.Values
    requires Chosen(run, S, s) == Some(p) && Chosen(run, S, t) == Some(r)
    requires NormalPath(run, s.workspacePath) == NormalPath(run, t.workspacePath)
    requires SessionBefore(s, t)
    ensures p.session.createdAt <= r.session.createdAt && !RecordBefore(r, p)
  {
    ChosenOnlyWaiting(run, S, s);
    ChosenOnlyWaiting(run, S, t);
    hide Queue, Candidates, Slots, Chosen, UsedNatives, Waiting, InWindow, NormalPath, SessionBefore, RecordBefore, Sorted;
    var i := InQueue(run, S, s.id);
    var j := InQueue(run, S, t.id);
    hide Keyed;
    var w := NormalPath(run, s.workspacePath);
    ListsSorted(run, S, w);
    SlotsShape(run, S, w);
    SlotsInOrder(Queue(run, S, w), Candidates(run, UsedNatives(run, S), w), Slots(run, S, w), i, j);
    OlderFirst(p, r);
  }

  lemma SlotsInOrder(q: seq<Session>, c: seq<Record>, a: seq<Slot>, i: nat, j: nat)
    requires Sorted(SessionBefore, q) && Sorted(RecordBefore, c)
    requires i < |q| && j < |q| && |a| == |q| && 0 <= a[i] < |c| && 0 <= a[j] < |c|
    requires forall x, y :: 0 <= x < y < |a| && a[x] >= 0 && a[y] >= 0 ==> a[x] < a[y]
    requires SessionBefore(q[i], q[j])
    ensures !RecordBefore(c[a[j]], c[a[i]])
  {
    SessionTransitive(q[i], q[j], q[i]);
    hide SessionBefore, RecordBefore;
    assert i < j;
  }

  lemma OlderFirst(l: Record, r: Record)
    ensures !RecordBefore(r, l) ==> l.session.createdAt <= r.session.createdAt
  {
  }

  lemma ListsSorted(run: Run, S: Sessions, w: string)
    ensures Sorted(SessionBefore, Queue(run, S, w))
    ensures Sorted(RecordBefore, Candidates(run, UsedNatives(run, S), w))
  {
    SessionOrder();
    StableSortSorts(SessionBefore, Listing(WaitingIn(run, S, w)));
    StableSortSorts(RecordBefore, FreeIn(run, run.records, UsedNatives(run, S), w));
  }

  /**
    First come, first served: a session is given the first record, in time order,
    that it may bind and that no session before it in the queue was given.
   */
  lemma FirstComeFirstServed(run: Run, S: Sessions, w: string, i: nat)
    requires i < |Queue(run, S, w)|
    ensures var q, c, a := Queue(run, S, w), Candidates(run, UsedNatives(run, S), w), Slots(run, S, w);
            && (a[i] >= 0 ==> a[i] < |c| && a[i] !in a[..i] && InWindow(q[i].createdAt, c[a[i]].session.createdAt))
            && (forall j :: 0 <= j < (if a[i] >= 0 then a[i] else |c|) && j !in a[..i]
                  ==> !InWindow(q[i].createdAt, c[j].session.createdAt))
  {
    var q, c, a := Queue(run, S, w), Candidates(run, UsedNatives(run, S), w), Slots(run, S, w);
    hide Queue, Candidates, UsedNatives, InWindow, FullScan;
    FullScanAt(Times(q), RecordTimes(c), {}, i);
    assert {} + Taken(a, i) == Taken(a, i);
    assert forall j :: 0 <= j ==> (j in Taken(a, i) <==> j in a[..i]);
    forall j | 0 <= j < |c| ensures RecordTimes(c)[j] == c[j].session.createdAt { }
    assert Times(q)[i] == q[i].createdAt;
  }

  // ---- native ids -------------------------------------------------------------

  /**
    No native id is given twice or taken from a session that already holds it:
    two managed sessions share a native id after the backfill only if they did before.
   */
  lemma NativesStayApart(run: Run, S: Sessions, k: string, l: string)
    requires Keyed(S) && DistinctIds(run.records) && DistinctNatives(run.records)
    requires k in S && l in S && k != l && ManagedHere(run, S[k]) && ManagedHere(run, S[l])
    requires var T := AfterBackfill(run, S);
             !Blank(T[k].nativeId) && Trim(T[k].nativeId) == Trim(T[l].nativeId)
    ensures AfterBackfill(run, S)[k] == S[k] && AfterBackfill(run, S)[l] == S[l]
    ensures Trim(S[k].nativeId) == Trim(S[l].nativeId)
  {
    hide Queue, Candidates, Slots, Chosen, InWindow, NormalPath, DistinctIds, Trim, ManagedHere, DistinctNatives;
    var p, r := Chosen(run, S, S[k]), Chosen(run, S, S[l]);
    if p != None { BoundAt(run, S, k); }
    if r != None { BoundAt(run, S, l); }
    if p != None && r != None {
      SameNativeSameRecord(run.records, p.value, r.value);
      BoundApart(run, S, k, l);
    }
  }

  lemma SameNativeSameRecord(records: seq<Record>, x: Record, y: Record)
    requires DistinctNatives(records) && x in records && y in records
    requires !Blank(x.session.nativeId) && Trim(x.session.nativeId) == Trim(y.session.nativeId)
    ensures x == y
  {
    hide Trim;
    var i :| 0 <= i < |records| && records[i] == x;
    var j :| 0 <= j < |records| && records[j] == y;
    assert i == j;
  }

  // ---- optimality ---------------------------------------------------------------

  /** The picture of a set of positions in a list without repetitions is as large as the set. */
  lemma {:induction false} ImageSize(I: set<int>, ids: seq<string>)
    requires forall i :: i in I ==> 0 <= i < |ids|
    requires forall i, j :: 0 <= i < j < |ids| ==> ids[i] != ids[j]
    ensures |set i | i in I && 0 <= i < |ids| :: ids[i]| == |I|
    decreases |I|
  {
    var image := set i | i in I && 0 <= i < |ids| :: ids[i];
    if x :| x in I {
      ImageSize(I - {x}, ids);
      var rest := set i | i in I - {x} && 0 <= i < |ids| :: ids[i];
      assert image == rest + {ids[x]};
      assert ids[x] !in rest;
    } else {
      assert forall i :: i !in I;
      assert I == {} && image == {};
    }
  }

  function Ids(q: seq<Session>): (r: seq<string>)
    ensures |r| == |q|
  {
    seq(|q|, i requires 0 <= i < |q| => q[i].id)
  }

  /** The part of a binding that concerns workspace `w`. */
  ghost function Part(run: Run, S: Sessions, g: map<string, Record>, w: string): set<string> {
    set k | k in g && k in S && NormalPath(run, S[k].workspacePath) == w
  }

  lemma QueueIdsDistinct(run: Run, S: Sessions, w: string)
    requires Keyed(S)
    ensures var ids := Ids(Queue(run, S, w)); forall i, j :: 0 <= i < j < |ids| ==> ids[i] != ids[j]
    ensures forall s :: s in Queue(run, S, w) ==> s.id in S && S[s.id] == s
  {
    hide Queue, Waiting, NormalPath;
    QueueShape(run, S, w);
    var q := Queue(run, S, w);
    forall i, j | 0 <= i < j < |q| ensures Ids(q)[i] != Ids(q)[j] {
      assert q[i] in WaitingIn(run, S, w) && q[j] in WaitingIn(run, S, w);
    }
  }

  /** In one workspace greedy binds exactly as many sessions as it has matched slots. */
  lemma PartBound(run: Run, S: Sessions, w: string)
    requires Keyed(S)
    ensures |Part(run, S, Bound(run, S), w)| == CountMatched(Slots(run, S, w))
  {
    var q, a := Queue(run, S, w), Slots(run, S, w);
    hide Queue, Candidates, UsedNatives, Waiting, Slots, Chosen, InWindow, NormalPath;
    QueueIdsDistinct(run, S, w);
    CountMatchedIsSize(a, 0);
    var I := MatchedFrom(a, 0);
    ImageSize(I, Ids(q));
    var image := set i | i in I && 0 <= i < |Ids(q)| :: Ids(q)[i];
    forall k | k in image ensures k in Part(run, S, Bound(run, S), w) {
      var i :| i in I && 0 <= i < |Ids(q)| && Ids(q)[i] == k;
      ChosenAt(run, S, w, i);
      assert q[i] in q;
    }
    forall k | k in Part(run, S, Bound(run, S), w) ensures k in image {
      ChosenOnlyWaiting(run, S, S[k]);
      var i := InQueue(run, S, k);
      assert HitAt(a, 0, i);
      assert i in I && Ids(q)[i] == k;
    }
    assert image == Part(run, S, Bound(run, S), w);
  }

  /** A feasible binding, seen as an assignment of queue places to candidate places. */
  ghost function AsAssignment(run: Run, S: Sessions, g: map<string, Record>, w: string): (f: map<int, int>)
    ensures var q, c := Queue(run, S, w), Candidates(run, UsedNatives(run, S), w);
            && (forall i :: i in f <==> 0 <= i < |q| && q[i].id in g && g[q[i].id] in c)
            && (forall i :: i in f ==> f[i] == Position(c, g[q[i].id]))
  {
    var q, c := Queue(run, S, w), Candidates(run, UsedNatives(run, S), w);
    map i | 0 <= i < |q| && q[i].id in g && g[q[i].id] in c :: Position(c, g[q[i].id])
  }

  /** In one workspace no feasible binding has more pairs than greedy. */
  lemma PartIsMaximum(run: Run, S: Sessions, g: map<string, Record>, w: string)
    requires Keyed(S) && Feasible(run, S, g)
    ensures |Part(run, S, g, w)| <= |Part(run, S, Bound(run, S), w)|
  {
    hide Queue, Candidates, UsedNatives, Slots, Chosen, InWindow, Feasible, Part, CursorScan, Bound, AsAssignment, Assignment, Ascending;
    var f := AsAssignment(run, S, g, w);
    AssignmentSize(run, S, g, w);
    PartCovered(run, S, g, w, f.Keys);
    PartBound(run, S, w);
    assert |f| == |f.Keys|;
  }

  lemma AssignmentSize(run: Run, S: Sessions, g: map<string, Record>, w: string)
    requires Keyed(S) && Feasible(run, S, g)
    ensures |AsAssignment(run, S, g, w)| <= CountMatched(Slots(run, S, w))
  {
    hide Queue, Candidates, UsedNatives, Slots, Chosen, InWindow, Feasible, CursorScan, Assignment, Ascending, AsAssignment;
    PartAssignment(run, S, g, w, AsAssignment(run, S, g, w));
    ListsAscend(run, S, UsedNatives(run, S), w);
    SlotsShape(run, S, w);
    GreedyIsMaximum(AsAssignment(run, S, g, w), 0, Times(Queue(run, S, w)), RecordTimes(Candidates(run, UsedNatives(run, S), w)), 0);
  }

  /** Every session a feasible binding covers in `w` has a place in the queue. */
  lemma PartCovered(run: Run, S: Sessions, g: map<string, Record>, w: string, I: set<int>)
    requires Keyed(S) && Feasible(run, S, g)
    requires var q, c := Queue(run, S, w), Candidates(run, UsedNatives(run, S), w);
             forall i :: i in I <==> 0 <= i < |q| && q[i].id in g && g[q[i].id] in c
    ensures |Part(run, S, g, w)| <= |I|
  {
    var q := Queue(run, S, w);
    hide Queue, Candidates, UsedNatives, Waiting, Slots, Chosen, InWindow, NormalPath, FreeCandidate;
    QueueIdsDistinct(run, S, w);
    CandidatesShape(run, UsedNatives(run, S), w);
    ImageSize(I, Ids(q));
    var image := set i | i in I && 0 <= i < |Ids(q)| :: Ids(q)[i];
    forall k | k in Part(run, S, g, w) ensures k in image {
      var i := InQueue(run, S, k);
      assert i in I && Ids(q)[i] == k;
    }
    SubsetSize(Part(run, S, g, w), image);
  }

  lemma PartAssignment(run: Run, S: Sessions, g: map<string, Record>, w: string, f: map<int, int>)
    requires Keyed(S) && Feasible(run, S, g)
    requires var q, c := Queue(run, S, w), Candidates(run, UsedNatives(run, S), w);
             forall i :: i in f ==> 0 <= i < |q| && q[i].id in g && g[q[i].id] in c && f[i] == Position(c, g[q[i].id])
    ensures Assignment(f, 0, Times(Queue(run, S, w)), RecordTimes(Candidates(run, UsedNatives(run, S), w)), 0)
  {
    var q, c := Queue(run, S, w), Candidates(run, UsedNatives(run, S), w);
    hide Queue, Candidates, UsedNatives, Waiting, InWindow, NormalPath, FreeCandidate, Position;
    QueueIdsDistinct(run, S, w);
    forall i | i in f ensures 0 <= f[i] < |c| && InWindow(Times(q)[i], RecordTimes(c)[f[i]]) {
      assert q[i] in q && S[q[i].id] == q[i];
      assert c[f[i]] == g[q[i].id];
    }
    forall i, k | i in f && k in f && f[i] == f[k] ensures i == k {
      assert Ids(q)[i] == q[i].id && Ids(q)[k] == q[k].id;
      assert g[q[i].id] == g[q[k].id];
    }
  }

  /** The parts for a set of workspaces. */
  ghost function Parts(run: Run, S: Sessions, g: map<string, Record>, W: set<string>): set<string> {
    set k | k in g && k in S && NormalPath(run, S[k].workspacePath) in W
  }

  lemma {:induction false} PartsAreMaximum(run: Run, S: Sessions, g: map<string, Record>, W: set<string>)
    requires Keyed(S) && Feasible(run, S, g)
    ensures |Parts(run, S, g, W)| <= |Parts(run, S, Bound(run, S), W)|
    decreases |W|
  {
    hide NormalPath, Feasible, Bound;
    var b := Bound(run, S);
    if W == {} {
      assert Parts(run, S, g, W) == {};
    } else {
      var w :| w in W;
      PartsAreMaximum(run, S, g, W - {w});
      PartIsMaximum(run, S, g, w);
      PartsSplit(run, S, g, W, w);
      PartsSplit(run, S, b, W, w);
    }
  }

  lemma PartsSplit(run: Run, S: Sessions, g: map<string, Record>, W: set<string>, w: string)
    requires w in W
    ensures |Parts(run, S, g, W)| == |Parts(run, S, g, W - {w})| + |Part(run, S, g, w)|
  {
    hide NormalPath;
    assert Parts(run, S, g, W) == Parts(run, S, g, W - {w}) + Part(run, S, g, w);
    assert Parts(run, S, g, W - {w}) !! Part(run, S, g, w);
  }

  /**
    The backfill is optimal: no way of giving records to waiting sessions of the
    same workspace and time window, each record once, binds more sessions.
   */
  lemma BackfillIsMaximum(run: Run, S: Sessions, g: map<string, Record>)
    requires Keyed(S) && Feasible(run, S, g)
    ensures |g| <= |Bound(run, S)|
  {
    hide NormalPath, MayBind, Chosen;
    var b := Bound(run, S);
    var W := set k | k in S :: NormalPath(run, S[k].workspacePath);
    PartsAreMaximum(run, S, g, W);
    assert Parts(run, S, g, W) == g.Keys;
    assert Parts(run, S, b, W) == b.Keys;
    assert |g| == |g.Keys| && |b| == |b.Keys|;
  }
}
