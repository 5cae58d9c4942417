/** What a reconciliation achieves: exactness, idempotence, optimality and consistency of the bindings. */
module ReconcileFacts {
  import opened Model
  import opened Text
  import opened Ordering
  import opened Matching
  import opened Reconcile
  import opened QueueFacts

  // ---- the shape of the phases -------------------------------------------

  lemma {:induction false} UpsertShape(S: Sessions, records: seq<Record>)
    requires DistinctIds(records)
    ensures forall r :: r in records ==> r.session.id in AfterUpsert(S, records) && AfterUpsert(S, records)[r.session.id] == r.session
    ensures forall k :: k in AfterUpsert(S, records) <==> k in S || exists r :: r in records && r.session.id == k
    ensures forall k :: k in S && (forall r :: r in records ==> r.session.id != k)
                        ==> k in AfterUpsert(S, records) && AfterUpsert(S, records)[k] == S[k]
  {
    if records != [] {
      var front, last := records[..|records| - 1], records[|records| - 1];
      UpsertShape(S, front);
      assert records == front + [last];
      forall r | r in front ensures r.session.id != last.session.id { }
    }
  }

  lemma UpsertKeyed(S: Sessions, records: seq<Record>)
    requires Keyed(S) && DistinctIds(records) && forall r :: r in records ==> r.session.id != ""
    ensures Keyed(AfterUpsert(S, records))
  {
    UpsertShape(S, records);
    var U := AfterUpsert(S, records);
    forall k | k in U ensures U[k].id == k && k != "" {
      if r :| r in records && r.session.id == k { }
    }
  }

  /** Refreshing and binding only rewrite managed sessions of the adapter, and keep who and where they are. */
  ghost predicate SameIdentity(s: Session, t: Session) {
    && t.id == s.id && t.adapter == s.adapter && t.origin == s.origin && t.workspacePath == s.workspacePath
    && t.workspaceRoot == s.workspaceRoot && t.workspaceId == s.workspaceId && t.conversationId == s.conversationId
    && t.createdAt == s.createdAt && t.lastSeen >= s.lastSeen && t.rest == s.rest
  }

  lemma ManagedShape(run: Run, S: Sessions)
    ensures AfterManaged(run, S).Keys == S.Keys
    ensures forall k :: k in S ==> SameIdentity(S[k], AfterManaged(run, S)[k])
    ensures forall k :: k in S && !ManagedHere(run, S[k]) ==> AfterManaged(run, S)[k] == S[k]
    ensures forall k :: k in S && !Blank(S[k].nativeId) ==> AfterManaged(run, S)[k].nativeId == S[k].nativeId
    ensures forall k :: k in S && S[k].id in run.busy ==> AfterManaged(run, S)[k] == S[k]
  {
    hide Chosen, BestByNative, SameName, Blank, NormalPath, PathsConflict;
    if BackfillsAdapter(run.adapter) {
      var T := AfterNative(run, S);
      forall k | k in S ensures BackfillOne(run, T, T[k]) == T[k] || Waiting(run, T[k]) {
        ChosenOnlyWaiting(run, T, T[k]);
      }
    }
  }

  lemma ChosenOnlyWaiting(run: Run, S: Sessions, s: Session)
    ensures Chosen(run, S, s) != None ==> Waiting(run, s)
  {
  }

  lemma ManagedKeyed(run: Run, S: Sessions)
    requires Keyed(S)
    ensures Keyed(AfterNative(run, S)) && Keyed(AfterManaged(run, S))
  {
    hide Chosen, BestByNative, ManagedHere, Blank, PathsConflict;
    ManagedShape(run, S);
  }

  // ---- exactness ------------------------------------------------------------

  /** An id that differs from a record's only by padding. */
  ghost predicate Alias(run: Run, k: string) {
    && (forall r :: r in run.records ==> r.session.id != k)
    && exists r :: r in run.records && !Blank(r.session.id) && Trim(r.session.id) == Trim(k)
  }

  /** The discovered sessions of the adapter, as a table. */
  ghost function DiscoveredPart(run: Run, S: Sessions): Sessions {
    map k | k in S && DiscoveredHere(run, S[k]) :: S[k]
  }

  ghost predicate Reported(run: Run, k: string) {
    exists r :: r in run.records && r.session.id == k
  }

  lemma IdentityDecides(run: Run, s: Session, t: Session)
    requires SameIdentity(s, t)
    ensures DiscoveredHere(run, s) == DiscoveredHere(run, t) && ManagedHere(run, s) == ManagedHere(run, t)
    ensures DiscoveredHere(run, s) ==> !ManagedHere(run, s)
  {
  }

  /** The backfill does not matter to discovered sessions; only the purge does. */
  lemma DiscoveredSurvivors(run: Run, U: Sessions)
    ensures DiscoveredPart(run, AfterPurge(run, AfterManaged(run, U))) ==
            map k | k in U && DiscoveredHere(run, U[k]) && Kept(run, U[k]) :: U[k]
  {
    hide AfterManaged, DiscoveredHere, ManagedHere, SameIdentity, Kept;
    var M := AfterManaged(run, U);
    ManagedShape(run, U);
    forall k | k in U ensures DiscoveredHere(run, U[k]) == DiscoveredHere(run, M[k])
    ensures DiscoveredHere(run, U[k]) ==> M[k] == U[k]
    {
      IdentityDecides(run, U[k], M[k]);
    }
  }

  lemma KeptByName(run: Run, s: Session)
    requires DiscoveredHere(run, s)
    ensures Kept(run, s) <==> (Reported(run, s.id) && !Blank(s.id)) || Alias(run, s.id)
  {
    hide Trim, DiscoveredHere;
    if Kept(run, s) && Reported(run, s.id) {
      var r :| r in run.records && !Blank(r.session.id) && Trim(r.session.id) == Trim(s.id);
      assert !Blank(s.id);
    }
  }

  /** A table entry after the upsert is the record of that id, or else what it was. */
  lemma UpsertCases(run: Run, S: Sessions, k: string)
    requires DistinctIds(run.records) && FromDiscovery(run)
    ensures k in AfterUpsert(map[], run.records) <==> Reported(run, k)
    ensures k in AfterUpsert(S, run.records) <==> k in S || Reported(run, k)
    ensures Reported(run, k) ==> AfterUpsert(S, run.records)[k] == AfterUpsert(map[], run.records)[k]
                                 && DiscoveredHere(run, AfterUpsert(S, run.records)[k])
    ensures !Reported(run, k) && k in S ==> AfterUpsert(S, run.records)[k] == S[k]
  {
    hide DiscoveredHere, AfterUpsert, DistinctIds;
    UpsertShape(S, run.records);
    UpsertShape(map[], run.records);
  }

  lemma SurvivorsAreRecords(run: Run, S: Sessions, U: Sessions, D: Sessions, E: Sessions)
    requires forall k :: k in E <==> Reported(run, k)
    requires forall k :: k in U <==> k in S || Reported(run, k)
    requires forall k :: Reported(run, k) ==> U[k] == E[k] && DiscoveredHere(run, U[k])
    requires forall k :: !Reported(run, k) && k in S ==> U[k] == S[k]
    requires forall k :: k in D <==> k in U && DiscoveredHere(run, U[k]) && ((Reported(run, k) && !Blank(k)) || Alias(run, k))
    requires forall k :: k in D ==> D[k] == U[k]
    ensures D == E <==> (forall r :: r in run.records ==> !Blank(r.session.id))
                        && (forall k :: k in S && DiscoveredHere(run, S[k]) ==> !Alias(run, k))
  {
    hide DiscoveredHere, Blank;
    assert forall k :: Alias(run, k) ==> !Reported(run, k);
    if D == E {
      forall r | r in run.records ensures !Blank(r.session.id) {
        assert Reported(run, r.session.id) && r.session.id in D;
      }
      forall k | k in S && DiscoveredHere(run, S[k]) ensures !Alias(run, k) {
        assert Alias(run, k) ==> k in D;
      }
    }
  }

  /**
    After a run the adapter's discovered sessions are exactly the records given,
    if and only if no record id is blank and the table held no padded alias of one.
   */
  lemma DiscoveredExactly(run: Run, S: Sessions)
    requires Keyed(S) && DistinctIds(run.records) && FromDiscovery(run)
    requires forall r :: r in run.records ==> r.session.id != ""
    ensures DiscoveredPart(run, Reconciled(run, S)) == AfterUpsert(map[], run.records)
            <==> (forall r :: r in run.records ==> !Blank(r.session.id))
                 && (forall k :: k in S && DiscoveredHere(run, S[k]) ==> !Alias(run, k))
  {
    hide DiscoveredHere, Kept, Blank, DistinctIds, AfterManaged, AfterPurge, AfterUpsert, DiscoveredPart, Reported, Alias, FromDiscovery;
    var U := AfterUpsert(S, run.records);
    DiscoveredSurvivors(run, U);
    UpsertKeyed(S, run.records);
    var D := map k | k in U && DiscoveredHere(run, U[k]) && Kept(run, U[k]) :: U[k];
    forall k | k in U && DiscoveredHere(run, U[k])
      ensures k in D <==> (Reported(run, k) && !Blank(k)) || Alias(run, k)
    {
      KeptByName(run, U[k]);
    }
    forall k { UpsertCases(run, S, k); }
    SurvivorsAreRecords(run, S, U, D, AfterUpsert(map[], run.records));
  }

  /** No managed or foreign session is lost, and only managed ones of this adapter are rewritten. */
  lemma NothingElseLost(run: Run, S: Sessions)
    requires Keyed(S) && DistinctIds(run.records) && NoTakeover(run, S)
    ensures forall k :: k in S && !DiscoveredHere(run, S[k]) ==> k in Reconciled(run, S) && SameIdentity(S[k], Reconciled(run, S)[k])
    ensures forall k :: k in S && !DiscoveredHere(run, S[k]) && !ManagedHere(run, S[k]) ==> Reconciled(run, S)[k] == S[k]
    ensures forall k :: k in S && !DiscoveredHere(run, S[k]) && k in run.busy ==> Reconciled(run, S)[k] == S[k]
  {
    hide AfterManaged, SameName, SameIdentity;
    var U := AfterUpsert(S, run.records);
    UpsertShape(S, run.records);
    ManagedShape(run, U);
    forall k | k in S && !DiscoveredHere(run, S[k]) ensures U[k] == S[k] && k in Reconciled(run, S) {
      KeptUnlessDiscovered(run, S[k], AfterManaged(run, U)[k]);
    }
  }

  lemma KeptUnlessDiscovered(run: Run, s: Session, t: Session)
    requires SameIdentity(s, t) && !DiscoveredHere(run, s)
    ensures Kept(run, t)
  {
  }

  /** What remains of conversations and workspaces is referenced, and nothing referenced was deleted. */
  lemma OrphansExactly(run: Run, S: Sessions, conversations: set<string>, workspaces: set<string>)
    ensures var R, C, W := Reconciled(run, S), ReconciledConversations(run, S, conversations), ReconciledWorkspaces(run, S, workspaces);
            && (forall k :: k in C ==> exists i :: i in R && Trim(R[i].conversationId) == k && k != "")
            && (forall k :: k in W ==> exists i :: i in R && Trim(R[i].workspaceId) == k && k != "")
            && (forall i :: i in R && Unpadded(R[i].conversationId) && R[i].conversationId != ""
                            && R[i].conversationId in conversations + RecordConversations(run.records)
                  ==> R[i].conversationId in C)
            && (forall i :: i in R && Unpadded(R[i].workspaceId) && R[i].workspaceId != ""
                            && R[i].workspaceId in workspaces + RecordWorkspaces(run.records)
                  ==> R[i].workspaceId in W)
  {
    hide Reconciled, Trim, ManagedTouched;
  }
}
