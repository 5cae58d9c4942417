/** What a merged transcript holds, call by call and message by message, in terms of positions in the original one. */
module ResultFacts {
  import opened Model
  import opened Text
  import opened Transcript
  import opened TranscriptFacts

  // ---- field by field: a call `u`, the results `rs` it meets, and what becomes of it ---------

  predicate HasState(u: ToolUse) { Trim(u.state) != "" }
  predicate HasOutput(u: ToolUse) { |u.output| > 0 }
  predicate HasCompletion(u: ToolUse) { u.completedAt != 0 }
  predicate HasArtifacts(u: ToolUse) { |u.artifactIds| > 0 }
  predicate HasDescription(u: ToolUse) { Trim(u.description) != "" }

  ghost predicate NoneHas(rs: seq<ToolUse>, has: ToolUse -> bool) {
    forall k :: 0 <= k < |rs| ==> !has(rs[k])
  }

  /** Result `k` is the first one with the property. */
  ghost predicate FirstWith(rs: seq<ToolUse>, k: int, has: ToolUse -> bool) {
    0 <= k < |rs| && has(rs[k]) && NoneHas(rs[..k], has)
  }

  ghost predicate LastWith(rs: seq<ToolUse>, k: int, has: ToolUse -> bool) {
    0 <= k < |rs| && has(rs[k]) && NoneHas(rs[k + 1..], has)
  }

  lemma SnocWith(rs: seq<ToolUse>, has: ToolUse -> bool)
    requires rs != []
    ensures var front, n := rs[..|rs| - 1], |rs| - 1;
            && (NoneHas(rs, has) <==> NoneHas(front, has) && !has(rs[n]))
            && (forall k :: FirstWith(rs, k, has) <==> FirstWith(front, k, has) || (k == n && NoneHas(front, has) && has(rs[n])))
            && (forall k :: LastWith(rs, k, has) <==> (LastWith(front, k, has) && !has(rs[n])) || (k == n && has(rs[n])))
  {
    var front, n := rs[..|rs| - 1], |rs| - 1;
    assert rs == front + [rs[n]];
    forall k: int ensures FirstWith(rs, k, has) <==> FirstWith(front, k, has) || (k == n && NoneHas(front, has) && has(rs[n])) {
      if 0 <= k < n { assert rs[..k] == front[..k] && rs[k] == front[k]; }
    }
    forall k: int ensures LastWith(rs, k, has) <==> (LastWith(front, k, has) && !has(rs[n])) || (k == n && has(rs[n])) {
      if 0 <= k < n { SnocNone(front[k + 1..], rs[n], has); assert rs[k + 1..] == front[k + 1..] + [rs[n]]; }
    }
    SnocNone(front, rs[n], has);
  }

  lemma SnocNone(rs: seq<ToolUse>, r: ToolUse, has: ToolUse -> bool)
    ensures NoneHas(rs + [r], has) <==> NoneHas(rs, has) && !has(r)
  {
    assert (rs + [r])[|rs|] == r;
    assert forall k :: 0 <= k < |rs| ==> (rs + [r])[k] == rs[k];
  }

  /** The state of a call is the last non-blank one it met. */
  ghost predicate LastState(u: ToolUse, rs: seq<ToolUse>, v: ToolUse) {
    && (NoneHas(rs, HasState) ==> v.state == u.state)
    && (forall k :: LastWith(rs, k, HasState) ==> v.state == rs[k].state)
  }

  /** The output of a call is the first non-empty one it met, its own included. */
  ghost predicate FirstOutput(u: ToolUse, rs: seq<ToolUse>, v: ToolUse) {
    && (HasOutput(u) || NoneHas(rs, HasOutput) ==> v.output == u.output)
    && (forall k :: !HasOutput(u) && FirstWith(rs, k, HasOutput) ==> v.output == rs[k].output)
  }

  /** The completion time of a call is the first one it met, its own included. */
  ghost predicate FirstCompletion(u: ToolUse, rs: seq<ToolUse>, v: ToolUse) {
    && (HasCompletion(u) || NoneHas(rs, HasCompletion) ==> v.completedAt == u.completedAt)
    && (forall k :: !HasCompletion(u) && FirstWith(rs, k, HasCompletion) ==> v.completedAt == rs[k].completedAt)
  }

  /** The artifacts of a call are the first non-empty list it met, its own included. */
  ghost predicate FirstArtifacts(u: ToolUse, rs: seq<ToolUse>, v: ToolUse) {
    && (HasArtifacts(u) || NoneHas(rs, HasArtifacts) ==> v.artifactIds == u.artifactIds)
    && (forall k :: !HasArtifacts(u) && FirstWith(rs, k, HasArtifacts) ==> v.artifactIds == rs[k].artifactIds)
  }

  /** The description of a call is the first non-blank one it met, its own included; if all are blank, the last one. */
  ghost predicate FirstDescription(u: ToolUse, rs: seq<ToolUse>, v: ToolUse) {
    && (HasDescription(u) || rs == [] ==> v.description == u.description)
    && (forall k :: !HasDescription(u) && FirstWith(rs, k, HasDescription) ==> v.description == rs[k].description)
    && (rs != [] && !HasDescription(u) && NoneHas(rs, HasDescription) ==> v.description == rs[|rs| - 1].description)
  }

  lemma {:induction false} StateIsLastMet(u: ToolUse, rs: seq<ToolUse>)
    ensures LastState(u, rs, AbsorbAll(u, rs))
  {
    hide Trim, NoneHas, FirstWith, LastWith;
    if rs == [] {
      NothingWith(HasState);
    } else {
      var front, r := rs[..|rs| - 1], rs[|rs| - 1];
      StateIsLastMet(u, front);
      SnocWith(rs, HasState);
      WithinFront(front, HasState);
      var o := AbsorbAll(u, front).state;
      assert AbsorbAll(u, rs).state == if HasState(r) then r.state else o;
    }
  }

  lemma {:induction false} OutputIsFirstMet(u: ToolUse, rs: seq<ToolUse>)
    ensures FirstOutput(u, rs, AbsorbAll(u, rs))
  {
    hide Trim, NoneHas, FirstWith, LastWith;
    if rs == [] {
      NothingWith(HasOutput);
    } else {
      var front, r := rs[..|rs| - 1], rs[|rs| - 1];
      OutputIsFirstMet(u, front);
      SnocWith(rs, HasOutput);
      WithinFront(front, HasOutput);
      var o := AbsorbAll(u, front).output;
      assert AbsorbAll(u, rs).output == if |o| == 0 && HasOutput(r) then r.output else o;
    }
  }

  lemma {:induction false} CompletionIsFirst(u: ToolUse, rs: seq<ToolUse>)
    ensures FirstCompletion(u, rs, AbsorbAll(u, rs))
  {
    hide Trim, NoneHas, FirstWith, LastWith;
    if rs == [] {
      NothingWith(HasCompletion);
    } else {
      var front, r := rs[..|rs| - 1], rs[|rs| - 1];
      CompletionIsFirst(u, front);
      SnocWith(rs, HasCompletion);
      WithinFront(front, HasCompletion);
      var o := AbsorbAll(u, front).completedAt;
      assert AbsorbAll(u, rs).completedAt == if o == 0 && HasCompletion(r) then r.completedAt else o;
    }
  }

  lemma {:induction false} ArtifactsAreFirst(u: ToolUse, rs: seq<ToolUse>)
    ensures FirstArtifacts(u, rs, AbsorbAll(u, rs))
  {
    hide Trim, NoneHas, FirstWith, LastWith;
    if rs == [] {
      NothingWith(HasArtifacts);
    } else {
      var front, r := rs[..|rs| - 1], rs[|rs| - 1];
      ArtifactsAreFirst(u, front);
      SnocWith(rs, HasArtifacts);
      WithinFront(front, HasArtifacts);
      var o := AbsorbAll(u, front).artifactIds;
      assert AbsorbAll(u, rs).artifactIds == if |o| == 0 && HasArtifacts(r) then r.artifactIds else o;
    }
  }

  lemma {:induction false} DescriptionIsFirst(u: ToolUse, rs: seq<ToolUse>)
    ensures FirstDescription(u, rs, AbsorbAll(u, rs))
  {
    hide Trim, NoneHas, FirstWith, LastWith;
    if rs == [] {
      NothingWith(HasDescription);
    } else {
      var front, r := rs[..|rs| - 1], rs[|rs| - 1];
      DescriptionIsFirst(u, front);
      SnocWith(rs, HasDescription);
      WithinFront(front, HasDescription);
      if front != [] { NoneAtEnd(front, HasDescription); }
      var o := AbsorbAll(u, front).description;
      assert AbsorbAll(u, rs).description == if Trim(o) == "" then r.description else o;
    }
  }

  lemma NoneAtEnd(rs: seq<ToolUse>, has: ToolUse -> bool)
    requires rs != []
    ensures NoneHas(rs, has) ==> !has(rs[|rs| - 1])
  {
  }

  lemma NothingWith(has: ToolUse -> bool)
    ensures NoneHas([], has) && forall k :: !FirstWith([], k, has) && !LastWith([], k, has)
  {
  }

  /** Either some result has the property, and then there is a first one, or none has it. */
  lemma {:induction false} WithinFront(rs: seq<ToolUse>, has: ToolUse -> bool)
    ensures forall k :: FirstWith(rs, k, has) || LastWith(rs, k, has) ==> 0 <= k < |rs| && has(rs[k]) && !NoneHas(rs, has)
    ensures NoneHas(rs, has) || exists k :: FirstWith(rs, k, has)
    ensures NoneHas(rs, has) || exists k :: LastWith(rs, k, has)
  {
    hide NoneHas, FirstWith, LastWith;
    if rs == [] {
      NothingWith(has);
    } else {
      var n := |rs| - 1;
      WithinFront(rs[..n], has);
      SnocWith(rs, has);
    }
  }

  lemma AbsorbCompletes(u: ToolUse, rs: seq<ToolUse>)
    ensures Completes(u, rs, AbsorbAll(u, rs))
  {
    hide AbsorbAll, LastState, FirstOutput, FirstCompletion, FirstArtifacts, FirstDescription;
    StateIsLastMet(u, rs);
    OutputIsFirstMet(u, rs);
    CompletionIsFirst(u, rs);
    ArtifactsAreFirst(u, rs);
    DescriptionIsFirst(u, rs);
  }

  // ---- which results a call gets -------------------------------------------------------

  /** Earlier in the transcript. */
  predicate Precedes(p: Call, q: Call) {
    p.message < q.message || (p.message == q.message && p.tool < q.tool)
  }

  predicate IsResult(ms: seq<Message>, p: Call) {
    && p.message < |ms| && Trim(ms[p.message].role) == "tool"
    && p.tool < |ms[p.message].toolUses|
  }

  /** Position `c` is a use with that id in a message that is not a tool message. */
  predicate IsCall(ms: seq<Message>, c: Call, id: string) {
    && c.message < |ms| && Trim(ms[c.message].role) != "tool"
    && c.tool < |ms[c.message].toolUses| && Trim(ms[c.message].toolUses[c.tool].id) == id
  }

  /** The result at `p` names the call at `c`, which is the latest one of its id before the result's message. */
  ghost predicate Answers(ms: seq<Message>, p: Call, c: Call)
    requires IsResult(ms, p)
  {
    var id := Trim(ms[p.message].toolUses[p.tool].id);
    && id != "" && IsCall(ms, c, id) && c.message < p.message
    && (forall d: Call :: d.message < p.message && IsCall(ms, d, id) ==> d == c || Precedes(d, c))
  }

  lemma AnswersIsOwner(ms: seq<Message>, p: Call, c: Call)
    requires IsResult(ms, p)
    ensures Answers(ms, p, c) <==> Owner(ms, p.message, ms[p.message].toolUses[p.tool]) == Some(c)
  {
    hide Trim, LatestCall;
    var id := Trim(ms[p.message].toolUses[p.tool].id);
    var o := LatestCall(ms, p.message, id);
    forall d: Call | d.message < p.message && IsCall(ms, d, id)
      ensures o != None && NotAfter(d, o.value)
    {
      LatestIsLatest(ms, p.message, id, d);
    }
    if o != None {
      assert IsCall(ms, o.value, id);
    }
  }

  lemma UnansweredIsUnowned(ms: seq<Message>, p: Call)
    requires IsResult(ms, p)
    ensures var id := Trim(ms[p.message].toolUses[p.tool].id);
            (id == "" || forall d: Call :: d.message < p.message ==> !IsCall(ms, d, id))
            <==> Owner(ms, p.message, ms[p.message].toolUses[p.tool]) == None
  {
    hide Trim, LatestCall;
    var id := Trim(ms[p.message].toolUses[p.tool].id);
    var o := LatestCall(ms, p.message, id);
    forall d: Call | d.message < p.message && IsCall(ms, d, id)
      ensures o != None
    {
      LatestIsLatest(ms, p.message, id, d);
    }
    if o != None { assert IsCall(ms, o.value, id); }
  }

  /** The positions of the results that Owned collects. */
  function PlacesIn(ms: seq<Message>, n: nat, c: Call, k: nat): seq<Call>
    requires n < |ms| && k <= |Results(ms[n])|
  {
    if k == 0 then []
    else if Owner(ms, n, Results(ms[n])[k - 1]) == Some(c) then PlacesIn(ms, n, c, k - 1) + [Call(n, k - 1)]
    else PlacesIn(ms, n, c, k - 1)
  }

  function Places(ms: seq<Message>, n: nat, c: Call): seq<Call>
    requires n <= |ms|
  {
    if n == 0 then [] else Places(ms, n - 1, c) + PlacesIn(ms, n - 1, c, |Results(ms[n - 1])|)
  }

  ghost predicate Ordered(ps: seq<Call>) {
    forall i, j :: 0 <= i < j < |ps| ==> Precedes(ps[i], ps[j])
  }

  /** `rs` are the uses at the places `ps`. */
  ghost predicate UsesAt(ms: seq<Message>, ps: seq<Call>, rs: seq<ToolUse>) {
    && |rs| == |ps|
    && (forall i :: 0 <= i < |ps| ==> IsResult(ms, ps[i]) && rs[i] == ms[ps[i].message].toolUses[ps[i].tool])
  }

  lemma {:induction false} PlacesInAre(ms: seq<Message>, n: nat, c: Call, k: nat)
    requires n < |ms| && k <= |Results(ms[n])|
    ensures UsesAt(ms, PlacesIn(ms, n, c, k), OwnedIn(ms, n, c, Results(ms[n])[..k]))
    ensures Ordered(PlacesIn(ms, n, c, k))
    ensures forall p :: p in PlacesIn(ms, n, c, k) ==> p.message == n && p.tool < k && Answers(ms, p, c)
    ensures forall t :: 0 <= t < k && Answers(ms, Call(n, t), c) ==> Call(n, t) in PlacesIn(ms, n, c, k)
  {
    hide Owner, Trim, OwnedIn, Answers;
    NoResults(ms, n, c);
    if k == 0 {
      assert Results(ms[n])[..0] == [];
    } else {
      PlacesInAre(ms, n, c, k - 1);
      var rs := Results(ms[n]);
      assert rs[..k] == rs[..k - 1] + [rs[k - 1]];
      OwnedInAppend(ms, n, c, rs[..k - 1], rs[k - 1]);
      AnswersIsOwner(ms, Call(n, k - 1), c);
    }
  }

  lemma {:induction false} PlacesAre(ms: seq<Message>, n: nat, c: Call)
    requires n <= |ms|
    ensures UsesAt(ms, Places(ms, n, c), Owned(ms, n, c))
    ensures Ordered(Places(ms, n, c))
    ensures forall p :: p in Places(ms, n, c) ==> p.message < n && IsResult(ms, p) && Answers(ms, p, c)
    ensures forall p :: IsResult(ms, p) && p.message < n && Answers(ms, p, c) ==> p in Places(ms, n, c)
  {
    hide PlacesIn, OwnedIn, Answers, Trim;
    if n > 0 {
      PlacesAre(ms, n - 1, c);
      var rs := Results(ms[n - 1]);
      PlacesInAre(ms, n - 1, c, |rs|);
      assert rs[..|rs|] == rs;
      forall p | IsResult(ms, p) && p.message == n - 1 && Answers(ms, p, c) ensures p in PlacesIn(ms, n - 1, c, |rs|) {
        assert p == Call(n - 1, p.tool);
      }
    }
  }

  /** The call made of `u` by the results `rs`, in order. */
  ghost predicate Completes(u: ToolUse, rs: seq<ToolUse>, v: ToolUse) {
    && v.id == u.id && v.name == u.name && v.rest == u.rest
    && LastState(u, rs, v) && FirstOutput(u, rs, v) && FirstCompletion(u, rs, v)
    && FirstArtifacts(u, rs, v) && FirstDescription(u, rs, v)
  }

  /**
    A call of the merged transcript: at the places `ps`, in order, stand exactly the
    results that answer it, and it has the last non-blank state, the first output,
    the first completion time, the first artifacts and the first non-blank
    description among its own and theirs.
   */
  lemma MergedCall(ms: seq<Message>, c: Call) returns (ps: seq<Call>, rs: seq<ToolUse>)
    requires c.message < |ms| && Trim(ms[c.message].role) != "tool" && c.tool < |ms[c.message].toolUses|
    ensures Ordered(ps) && UsesAt(ms, ps, rs)
    ensures forall p :: p in ps ==> IsResult(ms, p) && Answers(ms, p, c)
    ensures forall p :: IsResult(ms, p) && Answers(ms, p, c) ==> p in ps
    ensures var out, s := Merged(ms), Slot(ms, c.message);
            s < |out| && c.tool < |out[s].toolUses| && Completes(ms[c.message].toolUses[c.tool], rs, out[s].toolUses[c.tool])
  {
    hide Places, Trim, Answers, Completes, Slot, Merged, Owned, AbsorbAll;
    ps, rs := Places(ms, |ms|, c), Owned(ms, |ms|, c);
    PlacesAre(ms, |ms|, c);
    CallAfterMerge(ms, c);
    AbsorbCompletes(ms[c.message].toolUses[c.tool], rs);
  }

  // ---- what is left of a tool message -------------------------------------------------------

  function LeftIn(ms: seq<Message>, n: nat, k: nat): seq<nat>
    requires n < |ms| && k <= |ms[n].toolUses|
  {
    if k == 0 then []
    else if Owner(ms, n, ms[n].toolUses[k - 1]) == None then LeftIn(ms, n, k - 1) + [k - 1]
    else LeftIn(ms, n, k - 1)
  }

  /** No earlier call has the id of use `k` of message `n`. */
  ghost predicate Unanswered(ms: seq<Message>, n: nat, k: nat)
    requires n < |ms| && k < |ms[n].toolUses|
  {
    var id := Trim(ms[n].toolUses[k].id);
    id == "" || forall d: Call :: d.message < n ==> !IsCall(ms, d, id)
  }

  lemma {:induction false} LeftInAre(ms: seq<Message>, n: nat, k: nat)
    requires n < |ms| && IsTool(ms[n]) && k <= |ms[n].toolUses|
    ensures var ps, rs := LeftIn(ms, n, k), Unclaimed(ms, n, ms[n].toolUses[..k]);
            && |rs| == |ps|
            && (forall i :: 0 <= i < |ps| ==> ps[i] < k && rs[i] == ms[n].toolUses[ps[i]])
            && (forall i, j :: 0 <= i < j < |ps| ==> ps[i] < ps[j])
            && (forall i :: 0 <= i < k ==> (i in ps <==> Unanswered(ms, n, i)))
  {
    hide Owner, Trim, Unanswered, OwnedIn;
    NoResults(ms, n, Call(0, 0));
    var rs := ms[n].toolUses;
    if k == 0 {
      assert rs[..0] == [];
    } else {
      LeftInAre(ms, n, k - 1);
      assert rs[..k][..k - 1] == rs[..k - 1];
      LeftOne(ms, n, k - 1);
    }
  }

  lemma LeftOne(ms: seq<Message>, n: nat, k: nat)
    requires n < |ms| && IsTool(ms[n]) && k < |ms[n].toolUses|
    ensures Unanswered(ms, n, k) <==> Owner(ms, n, ms[n].toolUses[k]) == None
  {
    UnansweredIsUnowned(ms, Call(n, k));
    hide Trim, LatestCall;
  }

  /**
    A tool message of the merged transcript holds exactly its results that no earlier
    call answers to, in order; it is gone if there are none, and otherwise as it was.
   */
  lemma MergedToolMessage(ms: seq<Message>, n: nat) returns (ps: seq<nat>)
    requires n < |ms| && Trim(ms[n].role) == "tool" && ms[n].toolUses != []
    ensures forall i, j :: 0 <= i < j < |ps| ==> ps[i] < ps[j]
    ensures forall i :: 0 <= i < |ps| ==> ps[i] < |ms[n].toolUses|
    ensures forall i :: 0 <= i < |ms[n].toolUses| ==> (i in ps <==> Unanswered(ms, n, i))
    ensures ps == [] ==> Slot(ms, n + 1) == Slot(ms, n)
    ensures ps != [] ==>
      var out, s := Merged(ms), Slot(ms, n);
      && s < |out| && Slot(ms, n + 1) == s + 1
      && out[s].id == ms[n].id && out[s].role == ms[n].role && out[s].rest == ms[n].rest
      && |out[s].toolUses| == |ps| && (forall i :: 0 <= i < |ps| ==> out[s].toolUses[i] == ms[n].toolUses[ps[i]])
  {
    hide Unclaimed, LeftIn, Unanswered, Trim, Images;
    ps := LeftIn(ms, n, |ms[n].toolUses|);
    LeftInAre(ms, n, |ms[n].toolUses|);
    assert ms[n].toolUses[..|ms[n].toolUses|] == ms[n].toolUses;
    if ps != [] { ImageAtSlot(ms, |ms|, [], |ms|, n); }
  }
}
