/** The store and the reconciliation that updates it in place (internal/app/app.go). */
module Catalogue {
  import opened Model
  import opened Text
  import opened Ordering
  import opened Matching
  import opened Reconcile
  import opened QueueFacts

  type Conversations = map<string, Conversation>
  type Workspaces = map<string, Workspace>

  predicate Storable(r: Record) {
    r.workspace.id != "" && r.conversation.id != "" && r.session.id != ""
  }

  /** How many leading records can be stored before the first one with an empty id. */
  function StorablePrefix(records: seq<Record>): (n: nat)
    ensures n <= |records|
    ensures forall i :: 0 <= i < n ==> Storable(records[i])
    ensures n < |records| ==> !Storable(records[n])
  {
    if records == [] || !Storable(records[0]) then 0 else 1 + StorablePrefix(records[1..])
  }

  /** `S` with the entries of `T` for the keys that are no longer to do. */
  ghost function Partly(S: Sessions, T: Sessions, todo: set<string>): Sessions {
    map k | k in S :: if k in todo || k !in T then S[k] else T[k]
  }

  /** The sessions of `S` that are no longer to do. */
  ghost function Done(S: Sessions, todo: set<string>): Sessions {
    map k | k in S && k !in todo :: S[k]
  }

  predicate CanBackfill(m: Session, c: Session) {
    && m.createdAt != ZERO_TIME && c.createdAt != ZERO_TIME
    && !Blank(c.nativeId) && !Blank(c.detailPath)
    && !(c.createdAt < m.createdAt - SKEW)
    && !(c.createdAt > m.createdAt + WINDOW)
  }

  /** The conversation written for a managed session that took over a native id. */
  function Binding(snapshot: Conversations, s: Session, found: Conversation, now: Time): (c: Conversation)
    ensures c.nativeId == s.nativeId && c.updatedAt == now
    ensures s.conversationId !in snapshot ==> c.id == s.conversationId && c.sessionId == s.id
    ensures s.conversationId in snapshot ==>
      var known := snapshot[s.conversationId];
      && c.id == known.id && c.sessionId == known.sessionId && c.state == known.state
      && (known.workspaceId != "" ==> c.workspaceId == known.workspaceId)
      && (known.createdAt != ZERO_TIME ==> c.createdAt == known.createdAt)
    ensures c.workspaceId == "" ==> s.workspaceId == ""
    ensures c.createdAt == ZERO_TIME ==> s.createdAt == ZERO_TIME && found.createdAt == ZERO_TIME
  {
    var c :=
      if s.conversationId in snapshot then snapshot[s.conversationId]
      else Conversation(s.conversationId, s.id, "", s.workspaceId, "", s.createdAt, ZERO_TIME);
    c.(nativeId := s.nativeId,
       workspaceId := if c.workspaceId == "" then s.workspaceId else c.workspaceId,
       createdAt := if c.createdAt != ZERO_TIME then c.createdAt
                    else if s.createdAt != ZERO_TIME then s.createdAt else found.createdAt,
       updatedAt := now)
  }

  function Listed(groups: map<string, seq<Session>>, w: string): seq<Session> {
    if w in groups then groups[w] else []
  }

  function ListedRecords(groups: map<string, seq<Record>>, w: string): seq<Record> {
    if w in groups then groups[w] else []
  }

  /**
    Every conversation is as it was, or carries the native id of a session that
    belongs to it and was changed between `S` and `T`.
   */
  ghost predicate Follow(before: Conversations, after: Conversations, S: Sessions, T: Sessions) {
    forall k :: k in after ==> (k in before && after[k] == before[k]) || Follows(after[k], k, S, T)
  }

  ghost predicate Follows(c: Conversation, k: string, S: Sessions, T: Sessions) {
    exists id :: id in S && id in T && T[id] != S[id] && T[id].conversationId == k && T[id].nativeId == c.nativeId
  }

  /** What writing the conversation of a changed session does. */
  ghost function Written(cs: Conversations, snapshot: Conversations, s: Session, found: Conversation, now: Time): Conversations {
    if Blank(s.conversationId) then cs else cs[s.conversationId := Binding(snapshot, s, found, now)]
  }

  /** A phase turned `S` into `T` and wrote the conversations of the changed sessions, nothing else. */
  ghost predicate Recorded(S: Sessions, T: Sessions, before: Conversations, after: Conversations) {
    && S.Keys == T.Keys
    && after.Keys == before.Keys + Touched(S, T)
    && Follow(before, after, S, T)
  }

  /** Every changed session was waiting and took over one free record of its own workspace and time window. */
  ghost predicate SafelyBound(run: Run, S: Sessions, T: Sessions) {
    forall k :: k in S && k in T && T[k] != S[k] ==>
      exists r :: MayBind(run, S, S[k], r) && T[k] == Bind(S[k], r.session)
  }

  /** The conversation carries the native id of a managed session that belongs to it and was changed between `S` and `T`. */
  ghost predicate TakenOver(run: Run, S: Sessions, T: Sessions, k: string, c: Conversation) {
    exists id :: id in S && id in T && T[id] != S[id] && ManagedHere(run, T[id])
                 && T[id].conversationId == k && T[id].nativeId == c.nativeId
  }

  function StoredConversations(cs: Conversations, records: seq<Record>): Conversations {
    if records == [] then cs
    else
      var last := records[|records| - 1].conversation;
      StoredConversations(cs, records[..|records| - 1])[last.id := last]
  }

  function StoredWorkspaces(ws: Workspaces, records: seq<Record>): Workspaces {
    if records == [] then ws
    else
      var last := records[|records| - 1].workspace;
      StoredWorkspaces(ws, records[..|records| - 1])[last.id := last]
  }

  /** The conversations when storing stops at the first refused record. */
  function ConversationsUntilRefused(cs: Conversations, records: seq<Record>): Conversations {
    var n := StorablePrefix(records);
    var stored := StoredConversations(cs, records[..n]);
    if n < |records| && records[n].workspace.id != "" && records[n].conversation.id != ""
    then stored[records[n].conversation.id := records[n].conversation] else stored
  }

  function WorkspacesUntilRefused(ws: Workspaces, records: seq<Record>): Workspaces {
    var n := StorablePrefix(records);
    var stored := StoredWorkspaces(ws, records[..n]);
    if n < |records| && records[n].workspace.id != "" then stored[records[n].workspace.id := records[n].workspace] else stored
  }

  function SessionIds(q: seq<Session>): set<string> {
    set s | s in q :: s.id
  }

  function CandidateIds(c: seq<Record>): set<string> {
    set r | r in c :: r.session.id
  }

  class Catalogue {
    var sessions: Sessions
    var workspaces: Workspaces
    var conversations: Conversations

    ghost predicate Valid()
      reads this
    {
      && Keyed(sessions)
      && (forall k :: k in workspaces ==> workspaces[k].id == k && k != "")
      && (forall k :: k in conversations ==> conversations[k].id == k && k != "")
    }

    constructor ()
      ensures Valid()
      ensures sessions == map[] && workspaces == map[] && conversations == map[]
    {
      sessions, workspaces, conversations := map[], map[], map[];
    }

    method UpsertSession(s: Session) returns (ok: bool)
      requires Valid()
      modifies this`sessions
      ensures Valid() && ok == (s.id != "")
      ensures sessions == if ok then old(sessions)[s.id := s] else old(sessions)
    {
      if s.id == "" { return false; }
      sessions := sessions[s.id := s];
      return true;
    }

    method UpsertWorkspace(w: Workspace) returns (ok: bool)
      requires Valid()
      modifies this`workspaces
      ensures Valid() && ok == (w.id != "")
      ensures workspaces == if ok then old(workspaces)[w.id := w] else old(workspaces)
    {
      if w.id == "" { return false; }
      workspaces := workspaces[w.id := w];
      return true;
    }

    method UpsertConversation(c: Conversation) returns (ok: bool)
      requires Valid()
      modifies this`conversations
      ensures Valid() && ok == (c.id != "")
      ensures conversations == if ok then old(conversations)[c.id := c] else old(conversations)
    {
      if c.id == "" { return false; }
      conversations := conversations[c.id := c];
      return true;
    }

    method StoreRecord(r: Record) returns (ok: bool)
      requires Valid()
      modifies this
      ensures Valid() && ok == Storable(r)
      ensures sessions == if ok then old(sessions)[r.session.id := r.session] else old(sessions)
      ensures workspaces == if r.workspace.id != "" then old(workspaces)[r.workspace.id := r.workspace] else old(workspaces)
      ensures conversations == if r.workspace.id != "" && r.conversation.id != ""
                               then old(conversations)[r.conversation.id := r.conversation] else old(conversations)
    {
      ok := UpsertWorkspace(r.workspace);
      if !ok { return; }
      ok := UpsertConversation(r.conversation);
      if !ok { return; }
      ok := UpsertSession(r.session);
    }

    /** Stores the records in order; stops at the first one with an empty id. */
    method UpsertHistoryRecords(records: seq<Record>) returns (ok: bool)
      requires Valid()
      modifies this
      ensures Valid()
      ensures ok <==> StorablePrefix(records) == |records|
      ensures sessions == AfterUpsert(old(sessions), records[..StorablePrefix(records)])
      ensures conversations == ConversationsUntilRefused(old(conversations), records)
      ensures workspaces == WorkspacesUntilRefused(old(workspaces), records)
    {
      hide AfterUpsert, StoredConversations, StoredWorkspaces, Keyed, StorablePrefix;
      PrefixStart(old(sessions), old(conversations), old(workspaces), records);
      for i := 0 to |records|
        invariant i <= StorablePrefix(records) && Valid()
        invariant sessions == AfterUpsert(old(sessions), records[..i])
        invariant conversations == StoredConversations(old(conversations), records[..i])
        invariant workspaces == StoredWorkspaces(old(workspaces), records[..i])
      {
        PrefixStep(old(sessions), old(conversations), old(workspaces), records, i);
        ok := StoreRecord(records[i]);
        if !ok { return; }
      }
      assert records[..|records|] == records;
      ok := true;
    }

    /** Writes the conversation of a managed session that was refreshed or bound. */
    method UpsertBinding(snapshot: Conversations, s: Session, found: Conversation, now: Time)
      requires Valid()
      requires forall k :: k in snapshot ==> snapshot[k].id == k
      modifies this`conversations
      ensures Valid()
      ensures conversations ==
              if Blank(s.conversationId) then old(conversations)
              else old(conversations)[s.conversationId := Binding(snapshot, s, found, now)]
    {
      if Blank(s.conversationId) { return; }
      assert s.conversationId != "" by { assert Trim("") == ""; }
      var ok := UpsertConversation(Binding(snapshot, s, found, now));
    }

    /** For every native id the record that refreshes the sessions carrying it. */
    static method IndexByNative(run: Run) returns (index: map<string, Record>)
      ensures forall n :: n in index ==> BestByNative(run, run.records, n) == Some(index[n])
      ensures forall n :: n !in index ==> BestByNative(run, run.records, n) == None
    {
      index := map[];
      for i := 0 to |run.records|
        invariant forall n :: n in index ==> BestByNative(run, run.records[..i], n) == Some(index[n])
        invariant forall n :: n !in index ==> BestByNative(run, run.records[..i], n) == None
      {
        var r := run.records[i];
        assert run.records[..i + 1][..i] == run.records[..i];
        assert run.records[..i + 1][i] == r;
        if !DiscoveredHere(run, r.session) { continue; }
        var n := Trim(r.session.nativeId);
        if n == "" || Blank(r.session.detailPath) { continue; }
        if n !in index || r.session.lastSeen > index[n].session.lastSeen {
          index := index[n := r];
        }
      }
      assert run.records[..|run.records|] == run.records;
    }

    /** Refreshes one managed session from the record discovered under its native id. */
    method RefreshSession(run: Run, index: map<string, Record>, snapshot: Conversations, s: Session, now: Time)
      requires Valid() && s.id in sessions && sessions[s.id] == s
      requires forall k :: k in snapshot ==> snapshot[k].id == k
      requires forall n :: n in index ==> BestByNative(run, run.records, n) == Some(index[n])
      requires forall n :: n !in index ==> BestByNative(run, run.records, n) == None
      modifies this`sessions, this`conversations
      ensures Valid()
      ensures sessions == old(sessions)[s.id := RefreshOne(run, s)]
      ensures RefreshOne(run, s) == s ==> conversations == old(conversations)
      ensures RefreshOne(run, s) != s ==>
        var best := BestByNative(run, run.records, Trim(s.nativeId));
        best != None && conversations == Written(old(conversations), snapshot, RefreshOne(run, s), best.value.conversation, now)
    {
      if !ManagedHere(run, s) { return; }
      var n := Trim(s.nativeId);
      if n == "" || s.id in run.busy || n !in index { return; }
      var record := index[n];
      if PathsConflict(run, record.session, s) { return; }
      var updated := Refreshed(s, record.session);
      if updated == s { return; }
      var ok := UpsertSession(updated);
      UpsertBinding(snapshot, updated, record.conversation, now);
    }

    /** Refreshes the managed sessions whose native id was discovered. */
    method BackfillByNativeId(run: Run, now: Time)
      requires Valid()
      modifies this`sessions, this`conversations
      ensures Valid()
      ensures sessions == AfterNative(run, old(sessions))
      ensures Recorded(old(sessions), sessions, old(conversations), conversations)
    {
      hide Touched, Binding, Follow, RefreshOne, BestByNative, Recorded, Partly, Written;
      var snapshot, bindings := sessions, conversations;
      var index := IndexByNative(run);
      RefreshKeeps(run, snapshot);
      RecordedStart(snapshot, bindings);
      ghost var goal := AfterNative(run, snapshot);
      var todo := snapshot.Keys;
      PartlyEnds(snapshot, goal);
      while todo != {}
        invariant todo <= snapshot.Keys && Valid()
        invariant sessions == Partly(snapshot, goal, todo)
        invariant Recorded(snapshot, sessions, bindings, conversations)
        decreases todo
      {
        var k :| k in todo;
        PartlyStep(snapshot, goal, todo, k);
        ghost var atS, atC := sessions, conversations;
        RefreshSession(run, index, bindings, snapshot[k], now);
        if goal[k] != snapshot[k] {
          ghost var best := BestByNative(run, run.records, Trim(snapshot[k].nativeId));
          ChangeStep(snapshot, atS, bindings, atC, k, goal[k], bindings, best.value.conversation, now);
        }
        todo := todo - {k};
      }
    }

    /** The native ids held by managed sessions of the adapter. */
    static method CollectUsed(run: Run, snapshot: Sessions) returns (used: set<string>)
      ensures used == UsedNatives(run, snapshot)
    {
      used := {};
      var todo := snapshot.Keys;
      while todo != {}
        invariant todo <= snapshot.Keys
        invariant used == UsedNatives(run, Done(snapshot, todo))
        decreases todo
      {
        var k :| k in todo;
        UsedStep(run, snapshot, todo, k);
        var existing := snapshot[k];
        todo := todo - {k};
        if existing.origin != Managed { continue; }
        if !SameName(existing.adapter, run.adapter) { continue; }
        var n := Trim(existing.nativeId);
        if n == "" { continue; }
        used := used + {n};
      }
      assert Done(snapshot, {}) == snapshot;
    }

    /** The free records by workspace, each list sorted by time. */
    static method GroupCandidates(run: Run, used: set<string>) returns (groups: map<string, seq<Record>>)
      ensures forall w :: ListedRecords(groups, w) == Candidates(run, used, w)
    {
      hide FreeCandidate;
      groups := map[];
      for i := 0 to |run.records|
        invariant forall w :: ListedRecords(groups, w) == FreeIn(run, run.records[..i], used, w)
      {
        var r := run.records[i];
        assert run.records[..i + 1][..i] == run.records[..i];
        assert run.records[..i + 1][i] == r;
        if FreeCandidate(run, used, r) {
          var path := NormalPath(run, r.session.workspacePath);
          groups := groups[path := ListedRecords(groups, path) + [r]];
        }
      }
      assert run.records[..|run.records|] == run.records;
      var todo := groups.Keys;
      ghost var unsorted := groups;
      while todo != {}
        invariant todo <= groups.Keys == unsorted.Keys
        invariant forall w :: w in groups ==>
          groups[w] == if w in todo then unsorted[w] else StableSort(RecordBefore, unsorted[w])
        decreases todo
      {
        var w :| w in todo;
        groups := groups[w := StableSort(RecordBefore, groups[w])];
        todo := todo - {w};
      }
    }

    /** The waiting sessions by workspace, each list sorted by time. */
    static method GroupWaiting(run: Run, snapshot: Sessions) returns (groups: map<string, seq<Session>>)
      requires Keyed(snapshot)
      ensures forall w :: Listed(groups, w) == Queue(run, snapshot, w)
    {
      hide Waiting, WaitingIn, Queue;
      groups := map[];
      var todo := snapshot.Keys;
      WaitingStart(run, snapshot);
      while todo != {}
        invariant todo <= snapshot.Keys
        invariant forall w :: multiset(Listed(groups, w)) == multiset(WaitingIn(run, Done(snapshot, todo), w))
        decreases todo
      {
        var k :| k in todo;
        var existing := snapshot[k];
        WaitingStep(run, snapshot, todo, k);
        todo := todo - {k};
        if Waiting(run, existing) {
          var path := NormalPath(run, existing.workspacePath);
          groups := groups[path := Listed(groups, path) + [existing]];
        }
      }
      assert Done(snapshot, {}) == snapshot;
      ghost var unsorted := groups;
      groups := SortGroups(groups);
      forall w ensures Listed(groups, w) == Queue(run, snapshot, w) {
        QueueIsUnique(run, snapshot, w, Listed(unsorted, w));
      }
    }

    static method SortGroups(unsorted: map<string, seq<Session>>) returns (groups: map<string, seq<Session>>)
      ensures forall w :: Listed(groups, w) == StableSort(SessionBefore, Listed(unsorted, w))
    {
      groups := unsorted;
      var todo := groups.Keys;
      while todo != {}
        invariant todo <= groups.Keys == unsorted.Keys
        invariant forall w :: w in groups ==>
          groups[w] == if w in todo then unsorted[w] else StableSort(SessionBefore, unsorted[w])
        decreases todo
      {
        var w :| w in todo;
        groups := groups[w := StableSort(SessionBefore, groups[w])];
        todo := todo - {w};
      }
    }

    /** Scans from the cursor; gives up at the first record created after the window. */
    static method ScanCandidates(managed: Session, candidates: seq<Record>, candidateIndex: nat, consumed: set<string>)
      returns (matchIndex: int)
      requires candidateIndex <= |candidates|
      requires Ascending(RecordTimes(candidates))
      requires managed.createdAt != ZERO_TIME
      requires forall r :: r in candidates ==>
        r.session.createdAt != ZERO_TIME && !Blank(r.session.nativeId) && !Blank(r.session.detailPath)
      ensures matchIndex == -1 || (candidateIndex <= matchIndex < |candidates|
                && InWindow(managed.createdAt, candidates[matchIndex].session.createdAt)
                && candidates[matchIndex].session.id !in consumed)
      ensures (forall j :: candidateIndex <= j < |candidates| ==> candidates[j].session.id !in consumed) ==>
        matchIndex == FirstFree(managed.createdAt, RecordTimes(candidates), {}, candidateIndex)
    {
      ghost var t := RecordTimes(candidates);
      var idx := candidateIndex;
      while idx < |candidates|
        invariant candidateIndex <= idx <= |candidates|
        invariant forall j :: candidateIndex <= j < idx ==>
          candidates[j].session.id in consumed || !InWindow(managed.createdAt, t[j])
      {
        var candidate := candidates[idx].session;
        assert candidates[idx] in candidates && t[idx] == candidate.createdAt;
        if candidate.id !in consumed {
          if !CanBackfill(managed, candidate) {
            if candidate.createdAt > managed.createdAt + WINDOW {
              assert forall j :: idx <= j < |candidates| ==> !InWindow(managed.createdAt, t[j]);
              return -1;
            }
          } else {
            return idx;
          }
        }
        idx := idx + 1;
      }
      return -1;
    }

    /** Binds a waiting session to a discovered record. */
    method BindSession(managed: Session, record: Record, snapshot: Conversations, now: Time)
      requires Valid() && managed.id != ""
      requires forall k :: k in snapshot ==> snapshot[k].id == k
      modifies this`sessions, this`conversations
      ensures Valid()
      ensures sessions == old(sessions)[managed.id := Bind(managed, record.session)]
      ensures conversations == Written(old(conversations), snapshot, Bind(managed, record.session), record.conversation, now)
    {
      var candidate := record.session;
      var updated := managed;
      updated := updated.(nativeId := candidate.nativeId);
      updated := updated.(resumeStrategy := NativeId);
      updated := updated.(detailPath := candidate.detailPath);
      if Trim(candidate.preview) != "" {
        updated := updated.(preview := candidate.preview);
      }
      var resume := updated.capabilities.supportsResume || candidate.capabilities.supportsResume;
      updated := updated.(capabilities := updated.capabilities.(supportsResume := resume, supportsNative := true));
      updated := updated.(state := candidate.state);
      if candidate.lastSeen > updated.lastSeen {
        updated := updated.(lastSeen := candidate.lastSeen);
      }
      var ok := UpsertSession(updated);
      UpsertBinding(snapshot, updated, record.conversation, now);
    }

    /** Binds the queue of one workspace to its candidates with a moving cursor. */
    method BindWorkspace(run: Run, ghost S: Sessions, ghost before: Conversations, ghost todo: set<string>, w: string,
                         queue: seq<Session>, candidates: seq<Record>, snapshot: Conversations, now: Time, used: set<string>)
      returns (consumed: set<string>)
      requires Valid() && Keyed(S) && S.Keys == sessions.Keys
      requires forall k :: k in snapshot ==> snapshot[k].id == k
      requires queue == Queue(run, S, w) && candidates == Candidates(run, UsedNatives(run, S), w)
      requires Recorded(S, sessions, before, conversations) && SafelyBound(run, S, sessions)
      requires SessionIds(queue) <= todo <= S.Keys
      requires forall k :: k in todo ==> sessions[k] == S[k]
      modifies this`sessions, this`conversations
      ensures Valid() && S.Keys == sessions.Keys
      ensures Recorded(S, sessions, before, conversations) && SafelyBound(run, S, sessions)
      ensures forall k :: k in todo - SessionIds(queue) ==> sessions[k] == S[k]
      ensures consumed <= used + CandidateIds(candidates)
      ensures DistinctIds(run.records) && old(sessions) == Partly(S, AfterBackfill(run, S), todo)
              && (forall r :: r in candidates ==> r.session.id !in used)
              ==> sessions == Partly(S, AfterBackfill(run, S), todo - SessionIds(queue))
    {
      hide Recorded, SafelyBound, Partly, AfterBackfill, Queue, Candidates, UsedNatives, BindSafe, BindExact,
        FirstFree, Waiting, Written, Bind, SessionIds, CandidateIds, DistinctIds, InWindow, Ascending, Keyed, Blank, RecordTimes;
      consumed := used;
      ghost var regular := DistinctIds(run.records) && sessions == Partly(S, AfterBackfill(run, S), todo)
                           && (forall r :: r in candidates ==> r.session.id !in used);
      BindStart(run, S, w, before, todo, used, sessions, conversations);
      var candidateIndex := 0;
      for i := 0 to |queue|
        invariant Valid() && candidateIndex <= |candidates|
        invariant BindSafe(run, S, w, before, todo, used, i, consumed, sessions, conversations)
        invariant regular ==> BindExact(run, S, w, todo, i, candidateIndex, consumed, sessions)
      {
        var managed := queue[i];
        BindFacts(run, S, w, before, todo, used, i, consumed, sessions, conversations);
        var matchIndex := ScanCandidates(managed, candidates, candidateIndex, consumed);
        if regular {
          ExactStep(run, S, w, todo, i, candidateIndex, consumed, sessions, matchIndex);
        }
        if matchIndex >= 0 {
          var record := candidates[matchIndex];
          SafeMatch(run, S, w, before, todo, used, i, consumed, sessions, conversations, matchIndex, snapshot, now);
          BindSession(managed, record, snapshot, now);
          consumed := consumed + {record.session.id};
          candidateIndex := matchIndex + 1;
        } else {
          SafeSkip(run, S, w, before, todo, used, i, consumed, sessions, conversations);
        }
      }
      BindEnd(run, S, w, before, todo, used, candidateIndex, consumed, sessions, conversations, regular);
    }

    /** Binds waiting managed sessions to free discovered records, workspace by workspace. */
    method BackfillWaiting(run: Run, now: Time)
      requires Valid()
      modifies this`sessions, this`conversations
      ensures Valid()
      ensures SafelyBound(run, old(sessions), sessions)
      ensures Recorded(old(sessions), sessions, old(conversations), conversations)
      ensures DistinctIds(run.records) ==> sessions == AfterBackfill(run, old(sessions))
    {
      hide Recorded, SafelyBound, Partly, AfterBackfill, Queue, Candidates, UsedNatives, SessionIds, CandidateIds,
        DistinctIds, Keyed, Left, UnusedBy;
      var snapshot, bindings := sessions, conversations;
      ghost var goal := AfterBackfill(run, snapshot);
      var usedNatives := CollectUsed(run, snapshot);
      var candidatesByWorkspace := GroupCandidates(run, usedNatives);
      var managedByWorkspace := GroupWaiting(run, snapshot);
      RecordedStart(snapshot, bindings);
      var todo := managedByWorkspace.Keys;
      LeftStart(run, snapshot, todo);
      var used: set<string> := {};
      UnusedStart(run, snapshot, todo);
      while todo != {}
        invariant Valid() && snapshot.Keys == sessions.Keys && todo <= managedByWorkspace.Keys
        invariant Recorded(snapshot, sessions, bindings, conversations) && SafelyBound(run, snapshot, sessions)
        invariant Left(run, snapshot, todo) <= snapshot.Keys
        invariant forall k :: k in Left(run, snapshot, todo) ==> sessions[k] == snapshot[k]
        invariant DistinctIds(run.records) ==> sessions == Partly(snapshot, goal, Left(run, snapshot, todo))
        invariant DistinctIds(run.records) ==> UnusedBy(run, snapshot, todo, used)
        decreases todo
      {
        var w :| w in todo;
        var queue, candidates := Listed(managedByWorkspace, w), ListedRecords(candidatesByWorkspace, w);
        LeftStep(run, snapshot, todo, w);
        UnusedStep(run, snapshot, todo, w, used);
        if |candidates| == 0 {
          NoCandidates(run, snapshot, w, Left(run, snapshot, todo));
        } else {
          used := BindWorkspace(run, snapshot, bindings, Left(run, snapshot, todo), w, queue, candidates, bindings, now, used);
        }
        todo := todo - {w};
      }
      LeftEnd(run, snapshot);
    }

    /** Refreshes, then binds, the managed sessions of the adapters that support it. */
    method BackfillManaged(run: Run, now: Time)
      requires Valid()
      modifies this`sessions, this`conversations
      ensures Valid()
      ensures !BackfillsAdapter(run.adapter) ==> sessions == old(sessions) && conversations == old(conversations)
      ensures BackfillsAdapter(run.adapter) ==> SafelyBound(run, AfterNative(run, old(sessions)), sessions)
      ensures BackfillsAdapter(run.adapter) ==>
        conversations.Keys == old(conversations.Keys) + Touched(old(sessions), AfterNative(run, old(sessions)))
                              + Touched(AfterNative(run, old(sessions)), sessions)
      ensures forall k :: k in conversations ==>
        (k in old(conversations) && conversations[k] == old(conversations)[k])
        || TakenOver(run, old(sessions), sessions, k, conversations[k])
      ensures DistinctIds(run.records) || !BackfillsAdapter(run.adapter) ==> sessions == AfterManaged(run, old(sessions))
    {
      hide SafelyBound, AfterNative, AfterBackfill, DistinctIds, Follow, Touched, TakenOver;
      var name := Lower(Trim(run.adapter));
      if name != "codex" && name != "opencode" { return; }
      BackfillByNativeId(run, now);
      ghost var refreshed, written := sessions, conversations;
      BackfillWaiting(run, now);
      FollowBoth(run, old(sessions), refreshed, sessions, old(conversations), written, conversations);
    }

    method DeleteSession(id: string) returns (ok: bool)
      requires Valid()
      modifies this`sessions
      ensures Valid() && ok == (id != "")
      ensures sessions == old(sessions) - {id}
    {
      if id == "" { return false; }
      sessions := sessions - {id};
      return true;
    }

    /** The trimmed ids of the records. */
    static method CollectKeep(run: Run) returns (keep: set<string>)
      ensures forall s :: DiscoveredHere(run, s) ==> (Kept(run, s) <==> Trim(s.id) in keep)
    {
      keep := {};
      for i := 0 to |run.records|
        invariant forall n :: n in keep <==> n != "" && exists j :: 0 <= j < i && Trim(run.records[j].session.id) == n
      {
        var id := Trim(run.records[i].session.id);
        if id != "" { keep := keep + {id}; }
      }
      KeepSet(run, keep);
    }

    /** Deletes the discovered sessions of the adapter that were not reported again. */
    method PurgeStale(run: Run)
      requires Valid()
      modifies this`sessions
      ensures Valid()
      ensures sessions == AfterPurge(run, old(sessions))
    {
      hide Kept, Trim, SameName;
      var keep := CollectKeep(run);
      var listed := sessions;
      var todo := listed.Keys;
      while todo != {}
        invariant todo <= listed.Keys && Valid()
        invariant forall k :: k in sessions <==> k in listed && (k in todo || Kept(run, listed[k]))
        invariant forall k :: k in sessions ==> sessions[k] == listed[k]
        decreases todo
      {
        var k :| k in todo;
        todo := todo - {k};
        var s := listed[k];
        KeptElsewhere(run, s);
        if s.origin != Discovered { continue; }
        if !SameName(s.adapter, run.adapter) { continue; }
        if Trim(s.id) in keep { continue; }
        var ok := DeleteSession(s.id);
      }
    }

    /** Deletes the conversations no session refers to. */
    method PruneConversations()
      requires Valid()
      modifies this`conversations
      ensures Valid()
      ensures conversations.Keys == old(conversations.Keys) * ConversationRefs(sessions)
      ensures forall k :: k in conversations ==> conversations[k] == old(conversations)[k]
    {
      var keep := ConversationRefs(sessions);
      hide ConversationRefs, Keyed;
      var todo := conversations.Keys;
      while todo != {}
        invariant Valid() && todo <= conversations.Keys
        invariant conversations.Keys == todo + old(conversations.Keys) * keep
        invariant forall k :: k in conversations ==> conversations[k] == old(conversations)[k]
        decreases todo
      {
        var k :| k in todo;
        todo := todo - {k};
        if k !in keep { conversations := conversations - {k}; }
      }
    }

    /** Deletes the workspaces no session refers to. */
    method PruneWorkspaces()
      requires Valid()
      modifies this`workspaces
      ensures Valid()
      ensures workspaces.Keys == old(workspaces.Keys) * WorkspaceRefs(sessions)
      ensures forall k :: k in workspaces ==> workspaces[k] == old(workspaces)[k]
    {
      var keep := WorkspaceRefs(sessions);
      hide WorkspaceRefs, Keyed;
      var todo := workspaces.Keys;
      while todo != {}
        invariant Valid() && todo <= workspaces.Keys
        invariant workspaces.Keys == todo + old(workspaces.Keys) * keep
        invariant forall k :: k in workspaces ==> workspaces[k] == old(workspaces)[k]
        decreases todo
      {
        var k :| k in todo;
        todo := todo - {k};
        if k !in keep { workspaces := workspaces - {k}; }
      }
    }

    /** One whole reconciliation of one adapter. */
    method Reconcile(run: Run, now: Time) returns (ok: bool, ghost bound: Sessions)
      requires Valid()
      modifies this
      ensures Valid()
      ensures ok <==> StorablePrefix(run.records) == |run.records|
      ensures !ok ==>
        && sessions == AfterUpsert(old(sessions), run.records[..StorablePrefix(run.records)])
        && conversations == ConversationsUntilRefused(old(conversations), run.records)
        && workspaces == WorkspacesUntilRefused(old(workspaces), run.records)
      ensures ok ==> conversations.Keys <= ConversationRefs(sessions) && workspaces.Keys <= WorkspaceRefs(sessions)
      ensures ok ==> forall k :: k in workspaces ==>
        k in StoredWorkspaces(old(workspaces), run.records) && workspaces[k] == StoredWorkspaces(old(workspaces), run.records)[k]
      ensures ok ==> forall k :: k in conversations ==>
        (k in StoredConversations(old(conversations), run.records)
         && conversations[k] == StoredConversations(old(conversations), run.records)[k])
        || TakenOver(run, AfterUpsert(old(sessions), run.records), sessions, k, conversations[k])
      ensures ok ==> sessions == AfterPurge(run, bound)
      ensures ok && BackfillsAdapter(run.adapter) ==>
        SafelyBound(run, AfterNative(run, AfterUpsert(old(sessions), run.records)), bound)
      ensures ok && (DistinctIds(run.records) || !BackfillsAdapter(run.adapter)) ==>
        && sessions == Reconciled(run, old(sessions))
        && conversations.Keys == ReconciledConversations(run, old(sessions), old(conversations.Keys))
        && workspaces.Keys == ReconciledWorkspaces(run, old(sessions), old(workspaces.Keys))
    {
      hide AfterUpsert, AfterManaged, AfterPurge, AfterNative, Touched, ConversationRefs, WorkspaceRefs,
        RecordConversations, RecordWorkspaces, DistinctIds, Keyed, SafelyBound, StoredConversations, StoredWorkspaces,
        TakenOver, StorablePrefix;
      ok := UpsertHistoryRecords(run.records);
      bound := sessions;
      if !ok { return; }
      assert run.records[..|run.records|] == run.records;
      StoredKeys(old(conversations), old(workspaces), run.records);
      ghost var stored := sessions;
      BackfillManaged(run, now);
      bound := sessions;
      ghost var written := conversations;
      if DistinctIds(run.records) || !BackfillsAdapter(run.adapter) { TouchedKeys(run, stored, sessions); }
      PurgeStale(run);
      forall k | k in written && TakenOver(run, stored, bound, k, written[k])
        ensures TakenOver(run, stored, sessions, k, written[k])
      {
        TakenOverKept(run, stored, bound, k, written[k]);
      }
      PruneConversations();
      PruneWorkspaces();
    }
  }

  lemma TouchedKeys(run: Run, S: Sessions, T: Sessions)
    requires T == AfterManaged(run, S)
    ensures ManagedTouched(run, S) ==
            if BackfillsAdapter(run.adapter) then Touched(S, AfterNative(run, S)) + Touched(AfterNative(run, S), T) else {}
  {
  }

  lemma KeptElsewhere(run: Run, s: Session)
    ensures !DiscoveredHere(run, s) ==> Kept(run, s)
  {
  }

  lemma KeepSet(run: Run, keep: set<string>)
    requires forall n :: n in keep <==> n != "" && exists j :: 0 <= j < |run.records| && Trim(run.records[j].session.id) == n
    ensures forall s :: DiscoveredHere(run, s) ==> (Kept(run, s) <==> Trim(s.id) in keep)
  {
    forall s | DiscoveredHere(run, s) ensures Kept(run, s) <==> Trim(s.id) in keep {
      if Kept(run, s) {
        var r :| r in run.records && !Blank(r.session.id) && Trim(r.session.id) == Trim(s.id);
        var j :| 0 <= j < |run.records| && run.records[j] == r;
        assert Trim(run.records[j].session.id) == Trim(s.id);
      }
      if Trim(s.id) in keep {
        var j :| 0 <= j < |run.records| && Trim(run.records[j].session.id) == Trim(s.id);
        assert run.records[j] in run.records;
      }
    }
  }

  /** The waiting sessions of workspaces still to do. */
  ghost function Left(run: Run, S: Sessions, W: set<string>): set<string> {
    set k | k in S && Waiting(run, S[k]) && NormalPath(run, S[k].workspacePath) in W
  }

  lemma LeftStart(run: Run, S: Sessions, W: set<string>)
    requires Keyed(S) && forall w :: w !in W ==> Queue(run, S, w) == []
    ensures Partly(S, AfterBackfill(run, S), Left(run, S, W)) == S
    ensures Left(run, S, W) <= S.Keys
    ensures SafelyBound(run, S, S)
  {
    hide Queue, Waiting, NormalPath;
    forall k | k in S && k !in Left(run, S, W) ensures BackfillOne(run, S, S[k]) == S[k] {
      if Waiting(run, S[k]) {
        QueueShape(run, S, NormalPath(run, S[k].workspacePath));
      }
    }
  }

  lemma LeftEnd(run: Run, S: Sessions)
    ensures Partly(S, AfterBackfill(run, S), Left(run, S, {})) == AfterBackfill(run, S)
  {
    hide Waiting, BackfillOne;
  }

  lemma LeftStep(run: Run, S: Sessions, W: set<string>, w: string)
    requires Keyed(S) && w in W
    ensures SessionIds(Queue(run, S, w)) <= Left(run, S, W) <= S.Keys
    ensures Left(run, S, W - {w}) == Left(run, S, W) - SessionIds(Queue(run, S, w))
  {
    hide Queue, Waiting, NormalPath;
    QueueShape(run, S, w);
    var ids := SessionIds(Queue(run, S, w));
    forall k | k in S && Waiting(run, S[k]) && NormalPath(run, S[k].workspacePath) == w ensures k in ids {
      assert S[k] in WaitingIn(run, S, w);
    }
  }

  /** Workspaces without candidates keep their sessions. */
  lemma NoCandidates(run: Run, S: Sessions, w: string, todo: set<string>)
    requires Keyed(S) && Candidates(run, UsedNatives(run, S), w) == []
    ensures Partly(S, AfterBackfill(run, S), todo - SessionIds(Queue(run, S, w))) == Partly(S, AfterBackfill(run, S), todo)
  {
    hide Candidates, UsedNatives, Queue, AfterBackfill, Bind;
    var q := Queue(run, S, w);
    forall k | k in SessionIds(q) ensures k in S && k in AfterBackfill(run, S) && AfterBackfill(run, S)[k] == S[k] {
      var s :| s in q && s.id == k;
      var i :| 0 <= i < |q| && q[i] == s;
      GoalAt(run, S, w, i);
      QueueFactsAt(run, S, w, i);
    }
  }

  /** No candidate of the workspaces still to do is consumed. */
  ghost predicate UnusedBy(run: Run, S: Sessions, W: set<string>, used: set<string>) {
    forall w, r :: w in W && r in Candidates(run, UsedNatives(run, S), w) ==> r.session.id !in used
  }

  lemma UnusedStart(run: Run, S: Sessions, W: set<string>)
    ensures UnusedBy(run, S, W, {})
  {
  }

  lemma UnusedStep(run: Run, S: Sessions, W: set<string>, w: string, used: set<string>)
    requires w in W
    ensures UnusedBy(run, S, W, used) ==> forall r :: r in Candidates(run, UsedNatives(run, S), w) ==> r.session.id !in used
    ensures UnusedBy(run, S, W, used) && DistinctIds(run.records) ==>
              UnusedBy(run, S, W - {w}, used + CandidateIds(Candidates(run, UsedNatives(run, S), w)))
    ensures forall more, less :: less <= more && UnusedBy(run, S, W - {w}, more) ==> UnusedBy(run, S, W - {w}, less)
  {
    hide Candidates, UsedNatives, FreeCandidate, NormalPath;
    var here := Candidates(run, UsedNatives(run, S), w);
    if UnusedBy(run, S, W, used) && DistinctIds(run.records) {
      forall v, r | v in W - {w} && r in Candidates(run, UsedNatives(run, S), v)
        ensures r.session.id !in used + CandidateIds(here)
      {
        CandidatesShape(run, UsedNatives(run, S), v);
        CandidatesShape(run, UsedNatives(run, S), w);
        if r.session.id in CandidateIds(here) {
          var x :| x in here && x.session.id == r.session.id;
          SameIdSameRecord(run.records, x, r);
        }
      }
    }
  }

  lemma SameIdSameRecord(records: seq<Record>, x: Record, y: Record)
    requires DistinctIds(records) && x in records && y in records && x.session.id == y.session.id
    ensures x == y
  {
  }

  lemma PrefixStart(S: Sessions, cs: Conversations, ws: Workspaces, records: seq<Record>)
    ensures AfterUpsert(S, records[..0]) == S
    ensures StoredConversations(cs, records[..0]) == cs && StoredWorkspaces(ws, records[..0]) == ws
  {
  }

  lemma PrefixStep(S: Sessions, cs: Conversations, ws: Workspaces, records: seq<Record>, i: nat)
    requires i < |records|
    ensures AfterUpsert(S, records[..i + 1]) == AfterUpsert(S, records[..i])[records[i].session.id := records[i].session]
    ensures StoredConversations(cs, records[..i + 1])
         == StoredConversations(cs, records[..i])[records[i].conversation.id := records[i].conversation]
    ensures StoredWorkspaces(ws, records[..i + 1])
         == StoredWorkspaces(ws, records[..i])[records[i].workspace.id := records[i].workspace]
    ensures i <= StorablePrefix(records) && Storable(records[i]) ==> i + 1 <= StorablePrefix(records)
    ensures i <= StorablePrefix(records) && !Storable(records[i]) ==> i == StorablePrefix(records)
  {
    assert records[..i + 1][..i] == records[..i];
    assert records[..i + 1] == records[..i] + [records[i]];
  }

  lemma {:induction false} StoredKeys(cs: Conversations, ws: Workspaces, records: seq<Record>)
    ensures StoredConversations(cs, records).Keys == cs.Keys + RecordConversations(records)
    ensures StoredWorkspaces(ws, records).Keys == ws.Keys + RecordWorkspaces(records)
  {
    if records != [] {
      var init, last := records[..|records| - 1], records[|records| - 1];
      StoredKeys(cs, ws, init);
      assert records == init + [last];
      assert RecordConversations(records) == RecordConversations(init) + {last.conversation.id};
      assert RecordWorkspaces(records) == RecordWorkspaces(init) + {last.workspace.id};
    }
  }

  /** Two phases that each write the conversations of the sessions they change. */
  lemma FollowBoth(run: Run, S: Sessions, T: Sessions, U: Sessions, before: Conversations, between: Conversations, after: Conversations)
    requires T == AfterNative(run, S) && S.Keys == T.Keys == U.Keys && SafelyBound(run, T, U)
    requires Follow(before, between, S, T) && Follow(between, after, T, U)
    ensures forall k :: k in after ==> (k in before && after[k] == before[k]) || TakenOver(run, S, U, k, after[k])
  {
    hide Refreshed, Bind, BestByNative, PathsConflict, InWindow, FreeCandidate, NormalPath;
    forall k | k in after && !(k in before && after[k] == before[k]) ensures TakenOver(run, S, U, k, after[k]) {
      if k in between && after[k] == between[k] {
        var id :| id in S && id in T && T[id] != S[id] && T[id].conversationId == k && T[id].nativeId == after[k].nativeId;
        RefreshedStays(run, S, T, U, id);
      } else {
        var id :| id in T && id in U && U[id] != T[id] && U[id].conversationId == k && U[id].nativeId == after[k].nativeId;
        BoundWasWaiting(run, S, T, U, id);
      }
    }
  }

  lemma RefreshedStays(run: Run, S: Sessions, T: Sessions, U: Sessions, id: string)
    requires T == AfterNative(run, S) && S.Keys == T.Keys == U.Keys && SafelyBound(run, T, U)
    requires id in S && T[id] != S[id]
    ensures U[id] == T[id] && ManagedHere(run, U[id])
  {
    hide BestByNative, PathsConflict, FreeCandidate, NormalPath;
    assert T[id].nativeId == S[id].nativeId;
  }

  lemma BoundWasWaiting(run: Run, S: Sessions, T: Sessions, U: Sessions, id: string)
    requires T == AfterNative(run, S) && S.Keys == T.Keys == U.Keys && SafelyBound(run, T, U)
    requires id in S && U[id] != T[id]
    ensures U[id] != S[id] && ManagedHere(run, U[id])
  {
    hide BestByNative, PathsConflict, FreeCandidate, NormalPath;
    var r :| MayBind(run, T, T[id], r) && U[id] == Bind(T[id], r.session);
    assert T[id] == S[id];
  }

  /** Purging keeps every managed session. */
  lemma TakenOverKept(run: Run, S: Sessions, T: Sessions, k: string, c: Conversation)
    requires TakenOver(run, S, T, k, c)
    ensures TakenOver(run, S, AfterPurge(run, T), k, c)
  {
    var id :| id in S && id in T && T[id] != S[id] && ManagedHere(run, T[id])
              && T[id].conversationId == k && T[id].nativeId == c.nativeId;
    assert AfterPurge(run, T)[id] == T[id];
  }

  lemma {:induction false} BestIsRecord(run: Run, records: seq<Record>, n: string)
    ensures var best := BestByNative(run, records, n);
            best != None ==> best.value in records && NativeCandidate(run, best.value)
                             && Trim(best.value.session.nativeId) == n
  {
    if records != [] {
      BestIsRecord(run, records[..|records| - 1], n);
    }
  }

  /** Changing one session that is still as it was, and writing its conversation. */
  lemma ChangeStep(S: Sessions, T: Sessions, before: Conversations, cs: Conversations,
                   k: string, s: Session, snapshot: Conversations, found: Conversation, now: Time)
    requires Recorded(S, T, before, cs)
    requires k in S && T[k] == S[k] && s != S[k] && s.conversationId == S[k].conversationId
    ensures Recorded(S, T[k := s], before, Written(cs, snapshot, s, found, now))
  {
    hide Touched, Binding, Follow;
    var after := Written(cs, snapshot, s, found, now);
    TouchedStep(S, T, k, s);
    FollowStep(S, before, T, cs, k, s, after);
    if Blank(s.conversationId) {
      assert after.Keys == cs.Keys;
    } else {
      assert after.Keys == cs.Keys + {s.conversationId};
    }
  }

  lemma FollowStep(S: Sessions, before: Conversations, T: Sessions, cs: Conversations,
                   k: string, s: Session, after: Conversations)
    requires Follow(before, cs, S, T)
    requires k in S && k in T && T[k] == S[k] && s != S[k]
    requires after == cs || (s.conversationId in after && after == cs[s.conversationId := after[s.conversationId]]
                              && after[s.conversationId].nativeId == s.nativeId)
    ensures Follow(before, after, S, T[k := s])
  {
    var T' := T[k := s];
    forall c | c in after && !(c in before && after[c] == before[c]) ensures Follows(after[c], c, S, T') {
      if c in cs && after[c] == cs[c] {
        var id :| id in S && id in T && T[id] != S[id] && T[id].conversationId == c && T[id].nativeId == after[c].nativeId;
        assert T'[id] == T[id];
      } else {
        assert T'[k] == s;
      }
    }
  }

  lemma PartlyStep(S: Sessions, goal: Sessions, todo: set<string>, k: string)
    requires k in S && k in goal && k in todo
    ensures Partly(S, goal, todo - {k}) == Partly(S, goal, todo)[k := goal[k]]
    ensures goal[k] == S[k] ==> Partly(S, goal, todo - {k}) == Partly(S, goal, todo)
    ensures Partly(S, goal, todo).Keys == S.Keys && Partly(S, goal, todo)[k] == S[k]
  {
  }

  lemma RecordedStart(S: Sessions, cs: Conversations)
    ensures Recorded(S, S, cs, cs)
  {
    assert Touched(S, S) == {};
  }

  lemma PartlyEnds(S: Sessions, goal: Sessions)
    requires S.Keys == goal.Keys
    ensures Partly(S, goal, S.Keys) == S && Partly(S, goal, {}) == goal
  {
  }

  lemma RefreshKeeps(run: Run, S: Sessions)
    ensures forall k :: k in S ==> RefreshOne(run, S[k]).id == S[k].id
    ensures forall k :: k in S ==> RefreshOne(run, S[k]).conversationId == S[k].conversationId
  {
  }

  /** Changing entry `k` of the table touches one conversation at most. */
  lemma TouchedStep(S: Sessions, T: Sessions, k: string, s: Session)
    requires k in S && S.Keys == T.Keys && T[k] == S[k] && s != S[k]
    ensures Touched(S, T[k := s]) ==
            Touched(S, T) + (if Blank(S[k].conversationId) then {} else {S[k].conversationId})
  {
    hide Blank;
    var T' := T[k := s];
    forall c | c in Touched(S, T) ensures c in Touched(S, T') {
      var i :| i in S && T[i] != S[i] && !Blank(S[i].conversationId) && c == S[i].conversationId;
      assert T'[i] == T[i];
    }
    forall c | c in Touched(S, T') && c !in Touched(S, T)
      ensures !Blank(S[k].conversationId) && c == S[k].conversationId
    {
      var i :| i in S && T'[i] != S[i] && !Blank(S[i].conversationId) && c == S[i].conversationId;
    }
    assert T'[k] != S[k];
  }

  /** The binding loop of workspace `w` before its i-th session, on any records. */
  ghost predicate BindSafe(run: Run, S: Sessions, w: string, before: Conversations, todo: set<string>, used: set<string>,
                           i: nat, consumed: set<string>, T: Sessions, cs: Conversations) {
    var q := Queue(run, S, w);
    && i <= |q| && Keyed(S) && SessionIds(q) <= todo <= S.Keys
    && Recorded(S, T, before, cs) && SafelyBound(run, S, T)
    && (forall k :: k in todo - SessionIds(q[..i]) ==> T[k] == S[k])
    && consumed <= used + CandidateIds(Candidates(run, UsedNatives(run, S), w))
  }

  /**
    The same loop when record ids are distinct and no candidate is consumed by
    another workspace: the sessions done are as AfterBackfill says, and the scan
    from the cursor yields the slots of the others.
   */
  ghost predicate BindExact(run: Run, S: Sessions, w: string, todo: set<string>, i: nat, cursor: nat,
                            consumed: set<string>, T: Sessions) {
    var q, c := Queue(run, S, w), Candidates(run, UsedNatives(run, S), w);
    && i <= |q| && cursor <= |c| && DistinctIds(run.records)
    && Keyed(S) && SessionIds(q) <= todo <= S.Keys
    && (forall j :: cursor <= j < |c| ==> c[j].session.id !in consumed)
    && CursorScan(Times(q[i..]), RecordTimes(c), cursor) == Slots(run, S, w)[i..]
    && T == Partly(S, AfterBackfill(run, S), todo - SessionIds(q[..i]))
  }

  lemma BindStart(run: Run, S: Sessions, w: string, before: Conversations, todo: set<string>, used: set<string>,
                  T: Sessions, cs: Conversations)
    requires Keyed(S) && Recorded(S, T, before, cs) && SafelyBound(run, S, T)
    requires SessionIds(Queue(run, S, w)) <= todo <= S.Keys && forall k :: k in todo ==> T[k] == S[k]
    ensures BindSafe(run, S, w, before, todo, used, 0, used, T, cs)
    ensures DistinctIds(run.records) && T == Partly(S, AfterBackfill(run, S), todo)
            && (forall r :: r in Candidates(run, UsedNatives(run, S), w) ==> r.session.id !in used)
            ==> BindExact(run, S, w, todo, 0, 0, used, T)
  {
    hide Queue, Candidates, CursorScan, Slots, InWindow, Partly, AfterBackfill, Touched, Follow, SafelyBound, UsedNatives, DistinctIds;
    SlotsShape(run, S, w);
    var q, a := Queue(run, S, w), Slots(run, S, w);
    assert q[0..] == q && a[0..] == a;
    assert todo - SessionIds(q[..0]) == todo;
  }

  /** What the loop body may rely on. */
  lemma BindFacts(run: Run, S: Sessions, w: string, before: Conversations, todo: set<string>, used: set<string>,
                  i: nat, consumed: set<string>, T: Sessions, cs: Conversations)
    requires BindSafe(run, S, w, before, todo, used, i, consumed, T, cs)
    requires i < |Queue(run, S, w)|
    ensures var m, c := Queue(run, S, w)[i], Candidates(run, UsedNatives(run, S), w);
            && m.createdAt != ZERO_TIME && m.id != "" && m.id in T && T[m.id] == m
            && Ascending(RecordTimes(c))
            && (forall r :: r in c ==> r.session.createdAt != ZERO_TIME && !Blank(r.session.nativeId) && !Blank(r.session.detailPath))
  {
    hide Queue, Candidates, Touched, Follow, SafelyBound, UsedNatives, SessionIds, Waiting, Blank;
    QueueFactsAt(run, S, w, i);
    CandidateFacts(run, UsedNatives(run, S), w);
    assert Queue(run, S, w)[i].id in todo - SessionIds(Queue(run, S, w)[..i]);
  }

  lemma SafeSkip(run: Run, S: Sessions, w: string, before: Conversations, todo: set<string>, used: set<string>,
                 i: nat, consumed: set<string>, T: Sessions, cs: Conversations)
    requires BindSafe(run, S, w, before, todo, used, i, consumed, T, cs)
    requires i < |Queue(run, S, w)|
    ensures BindSafe(run, S, w, before, todo, used, i + 1, consumed, T, cs)
  {
    hide Queue, Candidates, Touched, Follow, SafelyBound, UsedNatives, SessionIds, Waiting, Recorded, Keyed;
    QueueFactsAt(run, S, w, i);
  }

  lemma SafeMatch(run: Run, S: Sessions, w: string, before: Conversations, todo: set<string>, used: set<string>,
                  i: nat, consumed: set<string>, T: Sessions, cs: Conversations,
                  j: nat, snapshot: Conversations, now: Time)
    requires BindSafe(run, S, w, before, todo, used, i, consumed, T, cs)
    requires i < |Queue(run, S, w)| && j < |Candidates(run, UsedNatives(run, S), w)|
    requires InWindow(Queue(run, S, w)[i].createdAt, Candidates(run, UsedNatives(run, S), w)[j].session.createdAt)
    ensures var m, r := Queue(run, S, w)[i], Candidates(run, UsedNatives(run, S), w)[j];
            BindSafe(run, S, w, before, todo, used, i + 1, consumed + {r.session.id},
                     T[m.id := Bind(m, r.session)], Written(cs, snapshot, Bind(m, r.session), r.conversation, now))
  {
    hide Queue, Candidates, InWindow, Touched, Follow, SafelyBound, UsedNatives, SessionIds, Waiting, Bind, Written, Keyed;
    var q, c := Queue(run, S, w), Candidates(run, UsedNatives(run, S), w);
    QueueFactsAt(run, S, w, i);
    assert q[i].id in todo - SessionIds(q[..i]);
    BindKeeps(run, S, w, T, q[i], c[j]);
    ChangeStep(S, T, before, cs, q[i].id, Bind(q[i], c[j].session), snapshot, c[j].conversation, now);
    assert c[j].session.id in CandidateIds(c);
  }

  lemma ExactStep(run: Run, S: Sessions, w: string, todo: set<string>, i: nat, cursor: nat, consumed: set<string>,
                  T: Sessions, j: int)
    requires BindExact(run, S, w, todo, i, cursor, consumed, T) && i < |Queue(run, S, w)|
    requires j == -1 || cursor <= j < |Candidates(run, UsedNatives(run, S), w)|
    requires (forall k :: cursor <= k < |Candidates(run, UsedNatives(run, S), w)| ==>
               Candidates(run, UsedNatives(run, S), w)[k].session.id !in consumed)
             ==> FirstFree(Queue(run, S, w)[i].createdAt, RecordTimes(Candidates(run, UsedNatives(run, S), w)), {}, cursor) == j
    ensures j < 0 ==> BindExact(run, S, w, todo, i + 1, cursor, consumed, T)
    ensures j >= 0 ==>
              var m, r := Queue(run, S, w)[i], Candidates(run, UsedNatives(run, S), w)[j];
              BindExact(run, S, w, todo, i + 1, j + 1, consumed + {r.session.id}, T[m.id := Bind(m, r.session)])
  {
    hide Queue, Candidates, CursorScan, Slots, Partly, AfterBackfill, UsedNatives, SessionIds, DistinctIds, Waiting,
      FirstFree, Bind, Keyed;
    var q, c := Queue(run, S, w), Candidates(run, UsedNatives(run, S), w);
    QueueFactsAt(run, S, w, i);
    CandidateFacts(run, UsedNatives(run, S), w);
    CursorTurn(q, c, i, cursor);
    GoalAt(run, S, w, i);
    var left := todo - SessionIds(q[..i]);
    assert todo - SessionIds(q[..i + 1]) == left - {q[i].id};
    PartlyStep(S, AfterBackfill(run, S), left, q[i].id);
  }

  lemma BindEnd(run: Run, S: Sessions, w: string, before: Conversations, todo: set<string>, used: set<string>,
                cursor: nat, consumed: set<string>, T: Sessions, cs: Conversations, regular: bool)
    requires BindSafe(run, S, w, before, todo, used, |Queue(run, S, w)|, consumed, T, cs)
    requires regular ==> BindExact(run, S, w, todo, |Queue(run, S, w)|, cursor, consumed, T)
    ensures var q := Queue(run, S, w);
            && Recorded(S, T, before, cs) && SafelyBound(run, S, T) && S.Keys == T.Keys
            && (forall k :: k in todo - SessionIds(q) ==> T[k] == S[k])
            && consumed <= used + CandidateIds(Candidates(run, UsedNatives(run, S), w))
            && (regular ==> T == Partly(S, AfterBackfill(run, S), todo - SessionIds(q)))
  {
    hide Queue, Candidates, CursorScan, Slots, InWindow, Partly, AfterBackfill, Touched, Follow, SafelyBound, UsedNatives,
      SessionIds, DistinctIds, Waiting;
    var q := Queue(run, S, w);
    assert q[..|q|] == q;
  }

  lemma CandidateFacts(run: Run, used: set<string>, w: string)
    ensures Ascending(RecordTimes(Candidates(run, used, w)))
    ensures forall r :: r in Candidates(run, used, w) ==>
              r.session.createdAt != ZERO_TIME && !Blank(r.session.nativeId) && !Blank(r.session.detailPath)
    ensures forall i, j :: DistinctIds(run.records) && 0 <= i < j < |Candidates(run, used, w)| ==>
              Candidates(run, used, w)[i].session.id != Candidates(run, used, w)[j].session.id
  {
    hide Candidates, NormalPath, DiscoveredHere;
    ListsAscend(run, map[], used, w);
    CandidatesShape(run, used, w);
  }

  lemma QueueFactsAt(run: Run, S: Sessions, w: string, i: nat)
    requires Keyed(S) && i < |Queue(run, S, w)|
    ensures var q := Queue(run, S, w);
            && Waiting(run, q[i]) && q[i].createdAt != ZERO_TIME && NormalPath(run, q[i].workspacePath) == w
            && q[i].id in S && S[q[i].id] == q[i] && q[i].id != ""
            && SessionIds(q[..i + 1]) == SessionIds(q[..i]) + {q[i].id}
            && q[i].id !in SessionIds(q[..i]) && q[i].id in SessionIds(q)
  {
    var q := Queue(run, S, w);
    hide Queue, NormalPath, ManagedHere, Blank;
    QueueShape(run, S, w);
    assert forall k :: 0 <= k < |q| ==> q[k] in WaitingIn(run, S, w);
    assert q[..i + 1] == q[..i] + [q[i]];
    forall k | 0 <= k < i ensures q[k].id != q[i].id {
      assert q[k] != q[i];
    }
  }

  lemma CursorTurn(q: seq<Session>, c: seq<Record>, i: nat, cursor: nat)
    requires i < |q| && cursor <= |c|
    ensures var j := FirstFree(q[i].createdAt, RecordTimes(c), {}, cursor);
            CursorScan(Times(q[i..]), RecordTimes(c), cursor) ==
            [j] + CursorScan(Times(q[i + 1..]), RecordTimes(c), Advance(cursor, j))
  {
    assert Times(q[i..])[1..] == Times(q[i + 1..]);
  }

  lemma GoalAt(run: Run, S: Sessions, w: string, i: nat)
    requires Keyed(S) && i < |Queue(run, S, w)|
    ensures var q, c, a := Queue(run, S, w), Candidates(run, UsedNatives(run, S), w), Slots(run, S, w);
            && (a[i] >= 0 ==> a[i] < |c|)
            && q[i].id in S && q[i].id in AfterBackfill(run, S)
            && AfterBackfill(run, S)[q[i].id] == if a[i] >= 0 then Bind(q[i], c[a[i]].session) else q[i]
  {
    hide Queue, Candidates, UsedNatives, Slots, Chosen, Waiting;
    ChosenAt(run, S, w, i);
    QueueFactsAt(run, S, w, i);
  }

  lemma BindKeeps(run: Run, S: Sessions, w: string, T: Sessions, s: Session, r: Record)
    requires Keyed(S) && SafelyBound(run, S, T) && s.id in S && S[s.id] == s
    requires Waiting(run, s) && NormalPath(run, s.workspacePath) == w
    requires r in Candidates(run, UsedNatives(run, S), w) && InWindow(s.createdAt, r.session.createdAt)
    ensures Bind(s, r.session) != s && Bind(s, r.session).conversationId == s.conversationId
    ensures SafelyBound(run, S, T[s.id := Bind(s, r.session)])
  {
    hide Candidates, UsedNatives, NormalPath, InWindow;
    CandidatesShape(run, UsedNatives(run, S), w);
    var T' := T[s.id := Bind(s, r.session)];
    assert MayBind(run, S, s, r);
    forall k | k in S && k in T' && T'[k] != S[k]
      ensures exists x :: MayBind(run, S, S[k], x) && T'[k] == Bind(S[k], x.session)
    {
      if k != s.id { assert T'[k] == T[k]; }
    }
  }

  lemma UsedStep(run: Run, S: Sessions, todo: set<string>, k: string)
    requires k in S && k in todo
    ensures UsedNatives(run, Done(S, todo - {k})) ==
            UsedNatives(run, Done(S, todo))
            + (if ManagedHere(run, S[k]) && !Blank(S[k].nativeId) then {Trim(S[k].nativeId)} else {})
  {
    hide ManagedHere, Blank;
    var a, b := Done(S, todo), Done(S, todo - {k});
    assert b == a[k := S[k]];
    forall n | n in UsedNatives(run, a) ensures n in UsedNatives(run, b) {
      var i :| i in a && ManagedHere(run, a[i]) && !Blank(a[i].nativeId) && n == Trim(a[i].nativeId);
      assert b[i] == a[i];
    }
    forall n | n in UsedNatives(run, b) && n !in UsedNatives(run, a)
      ensures ManagedHere(run, S[k]) && !Blank(S[k].nativeId) && n == Trim(S[k].nativeId)
    {
      var i :| i in b && ManagedHere(run, b[i]) && !Blank(b[i].nativeId) && n == Trim(b[i].nativeId);
    }
    assert b[k] == S[k];
  }

  lemma WaitingStart(run: Run, S: Sessions)
    ensures forall w :: WaitingIn(run, Done(S, S.Keys), w) == {}
  {
  }

  lemma WaitingStep(run: Run, S: Sessions, todo: set<string>, k: string)
    requires Keyed(S) && k in S && k in todo
    ensures forall w ::
              multiset(WaitingIn(run, Done(S, todo - {k}), w)) ==
              multiset(WaitingIn(run, Done(S, todo), w))
              + (if Waiting(run, S[k]) && NormalPath(run, S[k].workspacePath) == w then multiset{S[k]} else multiset{})
  {
    hide Waiting, NormalPath;
    var a, b := Done(S, todo), Done(S, todo - {k});
    assert b == a[k := S[k]];
    forall w
      ensures multiset(WaitingIn(run, b, w)) == multiset(WaitingIn(run, a, w))
              + (if Waiting(run, S[k]) && NormalPath(run, S[k].workspacePath) == w then multiset{S[k]} else multiset{})
    {
      assert b[k] == S[k];
      assert forall i :: i in a ==> b[i] == a[i] && a[i].id == i;
      var x, y := WaitingIn(run, a, w), WaitingIn(run, b, w);
      assert S[k] !in x;
      if Waiting(run, S[k]) && NormalPath(run, S[k].workspacePath) == w {
        assert y == x + {S[k]};
      } else {
        assert y == x;
      }
    }
  }
}
