/** Merging tool results into the calls they answer (internal/history/history.go). */
module Transcript {
  import opened Model
  import opened Text

  /** `output` is the decoded result object; only its emptiness matters here. */
  datatype ToolUse = ToolUse(
    id: string,
    name: string,
    state: string,
    description: string,
    output: map<string, string>,
    completedAt: Time,
    artifactIds: seq<string>,
    rest: map<string, string>)

  datatype Message = Message(id: string, role: string, toolUses: seq<ToolUse>, rest: map<string, string>)

  /** A tool use, by the position of its message and its position in it. */
  datatype Call = Call(message: nat, tool: nat)

  predicate IsTool(m: Message) {
    Trim(m.role) == "tool"
  }

  function Key(u: ToolUse): string {
    Trim(u.id)
  }

  // ---- which call a result answers ------------------------------------------

  /** The last use with key `id`, if any. */
  function LastUse(uses: seq<ToolUse>, id: string): (t: Option<nat>)
    ensures t != None ==> t.value < |uses| && Key(uses[t.value]) == id
  {
    if uses == [] then None
    else if Key(uses[|uses| - 1]) == id then Some(|uses| - 1)
    else LastUse(uses[..|uses| - 1], id)
  }

  predicate Calls(ms: seq<Message>, c: Call, id: string) {
    && c.message < |ms| && !IsTool(ms[c.message])
    && c.tool < |ms[c.message].toolUses| && Key(ms[c.message].toolUses[c.tool]) == id
  }

  /** The latest call of `id` by a non-tool message among the first `n`. */
  function LatestCall(ms: seq<Message>, n: nat, id: string): (c: Option<Call>)
    requires n <= |ms|
    ensures c != None ==> c.value.message < n && Calls(ms, c.value, id)
  {
    if n == 0 then None
    else
      var t := if IsTool(ms[n - 1]) then None else LastUse(ms[n - 1].toolUses, id);
      if t != None then Some(Call(n - 1, t.value)) else LatestCall(ms, n - 1, id)
  }

  predicate NotAfter(d: Call, c: Call) {
    d.message < c.message || (d.message == c.message && d.tool <= c.tool)
  }

  lemma {:induction false} LastUseIsLast(uses: seq<ToolUse>, id: string, k: nat)
    requires k < |uses| && Key(uses[k]) == id
    ensures LastUse(uses, id) != None && k <= LastUse(uses, id).value
  {
    if Key(uses[|uses| - 1]) != id { LastUseIsLast(uses[..|uses| - 1], id, k); }
  }

  /** No call of `id` comes after the one LatestCall finds. */
  lemma {:induction false} LatestIsLatest(ms: seq<Message>, n: nat, id: string, d: Call)
    requires n <= |ms| && d.message < n && Calls(ms, d, id)
    ensures LatestCall(ms, n, id) != None && NotAfter(d, LatestCall(ms, n, id).value)
  {
    hide Trim;
    if d.message == n - 1 {
      LastUseIsLast(ms[n - 1].toolUses, id, d.tool);
    } else {
      LatestIsLatest(ms, n - 1, id, d);
    }
  }

  /** The call that the result `r`, found in message `n`, answers. */
  function Owner(ms: seq<Message>, n: nat, r: ToolUse): (c: Option<Call>)
    requires n <= |ms|
    ensures c != None ==> Key(r) != "" && c.value.message < n && Calls(ms, c.value, Key(r))
  {
    if Key(r) == "" then None else LatestCall(ms, n, Key(r))
  }

  // ---- what a call absorbs ----------------------------------------------------

  function Absorb(u: ToolUse, r: ToolUse): (v: ToolUse)
    ensures v.id == u.id && v.name == u.name && v.rest == u.rest
  {
    u.(state := if Blank(r.state) then u.state else r.state,
       output := if |u.output| == 0 && |r.output| > 0 then r.output else u.output,
       completedAt := if u.completedAt == ZERO_TIME && r.completedAt != ZERO_TIME then r.completedAt else u.completedAt,
       description := if Blank(u.description) then r.description else u.description,
       artifactIds := if |u.artifactIds| == 0 && |r.artifactIds| > 0 then r.artifactIds else u.artifactIds)
  }

  function AbsorbAll(u: ToolUse, rs: seq<ToolUse>): (v: ToolUse)
    ensures v.id == u.id && v.name == u.name && v.rest == u.rest
  {
    if rs == [] then u else Absorb(AbsorbAll(u, rs[..|rs| - 1]), rs[|rs| - 1])
  }

  /** The results of message `n` that answer call `c`, in order. */
  function OwnedIn(ms: seq<Message>, n: nat, c: Call, rs: seq<ToolUse>): seq<ToolUse>
    requires n <= |ms|
  {
    if rs == [] then []
    else
      var r := rs[|rs| - 1];
      OwnedIn(ms, n, c, rs[..|rs| - 1]) + (if Owner(ms, n, r) == Some(c) then [r] else [])
  }

  function Results(m: Message): seq<ToolUse> {
    if IsTool(m) then m.toolUses else []
  }

  /** The results among the first `n` messages that answer call `c`, in order. */
  function Owned(ms: seq<Message>, n: nat, c: Call): seq<ToolUse>
    requires n <= |ms|
  {
    if n == 0 then [] else Owned(ms, n - 1, c) + OwnedIn(ms, n - 1, c, Results(ms[n - 1]))
  }

  /** The results of message `n` that answer no call, in order. */
  function Unclaimed(ms: seq<Message>, n: nat, rs: seq<ToolUse>): seq<ToolUse>
    requires n <= |ms|
  {
    if rs == [] then []
    else
      var r := rs[|rs| - 1];
      Unclaimed(ms, n, rs[..|rs| - 1]) + (if Owner(ms, n, r) == None then [r] else [])
  }

  // ---- the merged transcript, stated message by message -------------------------

  /** Call `c` when the first `n` messages and the results `extra` of message `n` have been merged. */
  function Value(ms: seq<Message>, n: nat, extra: seq<ToolUse>, c: Call): (v: ToolUse)
    requires c.message < |ms| && c.tool < |ms[c.message].toolUses| && n <= |ms|
    ensures var u := ms[c.message].toolUses[c.tool]; v.id == u.id && v.name == u.name && v.rest == u.rest
  {
    AbsorbAll(ms[c.message].toolUses[c.tool], Owned(ms, n, c) + OwnedIn(ms, n, c, extra))
  }

  function Values(ms: seq<Message>, n: nat, extra: seq<ToolUse>, j: nat): (vs: seq<ToolUse>)
    requires j < |ms| && n <= |ms|
    ensures |vs| == |ms[j].toolUses|
  {
    seq(|ms[j].toolUses|, t requires 0 <= t < |ms[j].toolUses| => Value(ms, n, extra, Call(j, t)))
  }

  /** Message `j` at that point, or nothing if it does not survive. */
  function Image(ms: seq<Message>, n: nat, extra: seq<ToolUse>, j: nat): (im: seq<Message>)
    requires j < |ms| && n <= |ms|
    ensures |im| == if Survives(ms, j) then 1 else 0
  {
    var m := ms[j];
    if !IsTool(m) then [m.(toolUses := Values(ms, n, extra, j))]
    else if m.toolUses == [] then [m]
    else
      var left := Unclaimed(ms, j, m.toolUses);
      if left == [] then [] else [m.(toolUses := left)]
  }

  predicate Survives(ms: seq<Message>, j: nat)
    requires j < |ms|
  {
    IsTool(ms[j]) && ms[j].toolUses != [] ==> Unclaimed(ms, j, ms[j].toolUses) != []
  }

  /** How many of the first `j` messages survive. */
  function Slot(ms: seq<Message>, j: nat): nat
    requires j <= |ms|
  {
    if j == 0 then 0 else Slot(ms, j - 1) + (if Survives(ms, j - 1) then 1 else 0)
  }

  function Images(ms: seq<Message>, n: nat, extra: seq<ToolUse>, upto: nat): (r: seq<Message>)
    requires upto <= |ms| && n <= |ms|
    ensures |r| == Slot(ms, upto)
  {
    if upto == 0 then [] else Images(ms, n, extra, upto - 1) + Image(ms, n, extra, upto - 1)
  }

  /**
    The merged transcript: every call with the results that answer it absorbed in
    order, every other result left where it was, emptied tool messages gone.
   */
  function Merged(ms: seq<Message>): seq<Message> {
    Images(ms, |ms|, [], |ms|)
  }

  // ---- the program ------------------------------------------------------------------

  lemma {:induction false} SlotMonotone(ms: seq<Message>, i: nat, j: nat)
    requires i <= j <= |ms|
    ensures Slot(ms, i) <= Slot(ms, j)
    ensures i < j && Survives(ms, i) ==> Slot(ms, i) < Slot(ms, j)
  {
    hide Survives;
    if i < j { SlotMonotone(ms, i, j - 1); }
  }

  /** A surviving message is found at its slot. */
  lemma {:induction false} ImageAtSlot(ms: seq<Message>, n: nat, extra: seq<ToolUse>, upto: nat, j: nat)
    requires j < upto <= |ms| && n <= |ms| && Survives(ms, j)
    ensures Slot(ms, j) < |Images(ms, n, extra, upto)|
    ensures [Images(ms, n, extra, upto)[Slot(ms, j)]] == Image(ms, n, extra, j)
  {
    hide Survives, Image;
    SlotMonotone(ms, j, upto);
    if j < upto - 1 {
      SlotMonotone(ms, j, upto - 1);
      ImageAtSlot(ms, n, extra, upto - 1, j);
    }
  }

  lemma OwnedInAppend(ms: seq<Message>, n: nat, c: Call, rs: seq<ToolUse>, r: ToolUse)
    requires n <= |ms|
    ensures OwnedIn(ms, n, c, rs + [r]) == OwnedIn(ms, n, c, rs) + (if Owner(ms, n, r) == Some(c) then [r] else [])
  {
    hide Owner;
    assert (rs + [r])[..|rs|] == rs;
  }

  lemma AbsorbAllAppend(u: ToolUse, rs: seq<ToolUse>, r: ToolUse)
    ensures AbsorbAll(u, rs + [r]) == Absorb(AbsorbAll(u, rs), r)
  {
    hide Absorb;
    assert (rs + [r])[..|rs|] == rs;
  }

  /** One more result reaches its owner and nobody else. */
  lemma ValueStep(ms: seq<Message>, n: nat, extra: seq<ToolUse>, r: ToolUse, c: Call)
    requires c.message < |ms| && c.tool < |ms[c.message].toolUses| && n <= |ms|
    ensures Value(ms, n, extra + [r], c) ==
            if Owner(ms, n, r) == Some(c) then Absorb(Value(ms, n, extra, c), r) else Value(ms, n, extra, c)
  {
    hide Owner, Owned, OwnedIn, AbsorbAll, Absorb;
    var rs := Owned(ms, n, c) + OwnedIn(ms, n, c, extra);
    OwnedInAppend(ms, n, c, extra, r);
    if Owner(ms, n, r) == Some(c) {
      AbsorbAllAppend(ms[c.message].toolUses[c.tool], rs, r);
      assert Owned(ms, n, c) + OwnedIn(ms, n, c, extra + [r]) == rs + [r];
    } else {
      assert OwnedIn(ms, n, c, extra + [r]) == OwnedIn(ms, n, c, extra);
    }
  }

  function WithTool(m: Message, t: nat, u: ToolUse): Message
    requires t < |m.toolUses|
  {
    m.(toolUses := m.toolUses[t := u])
  }

  /** A result changes the image of the message its owner is in, if any, and no other. */
  lemma ImageStep(ms: seq<Message>, n: nat, extra: seq<ToolUse>, r: ToolUse, j: nat)
    requires j < n <= |ms|
    ensures var o := Owner(ms, n, r);
            if o == None || o.value.message != j then Image(ms, n, extra + [r], j) == Image(ms, n, extra, j)
            else
              && Survives(ms, j) && o.value.tool < |Image(ms, n, extra, j)[0].toolUses|
              && (var m := Image(ms, n, extra, j)[0];
                  Image(ms, n, extra + [r], j) == [WithTool(m, o.value.tool, Absorb(m.toolUses[o.value.tool], r))])
  {
    hide Owner, Value, Absorb, Unclaimed;
    if !IsTool(ms[j]) {
      forall t | 0 <= t < |ms[j].toolUses|
        ensures Values(ms, n, extra + [r], j)[t] ==
                if Owner(ms, n, r) == Some(Call(j, t)) then Absorb(Values(ms, n, extra, j)[t], r) else Values(ms, n, extra, j)[t]
      {
        ValueStep(ms, n, extra, r, Call(j, t));
      }
      hide Values;
      var o := Owner(ms, n, r);
      if o != None && o.value.message == j {
        assert Values(ms, n, extra + [r], j) ==
               Values(ms, n, extra, j)[o.value.tool := Absorb(Values(ms, n, extra, j)[o.value.tool], r)];
      } else {
        assert Values(ms, n, extra + [r], j) == Values(ms, n, extra, j);
      }
    }
  }

  /** A result with no owner among the first `upto` messages changes no image there. */
  lemma {:induction false} ImagesSkip(ms: seq<Message>, n: nat, extra: seq<ToolUse>, r: ToolUse, upto: nat)
    requires upto <= n <= |ms| && (Owner(ms, n, r) == None || upto <= Owner(ms, n, r).value.message)
    ensures Images(ms, n, extra + [r], upto) == Images(ms, n, extra, upto)
  {
    hide Owner, Image, Survives;
    if upto > 0 {
      ImagesSkip(ms, n, extra, r, upto - 1);
      ImageStep(ms, n, extra, r, upto - 1);
    }
  }

  /** A result with an owner changes exactly the tool use of the owner. */
  lemma {:induction false} ImagesAbsorb(ms: seq<Message>, n: nat, extra: seq<ToolUse>, r: ToolUse, c: Call, upto: nat)
    requires c.message < upto <= n <= |ms| && Owner(ms, n, r) == Some(c)
    ensures var before, s := Images(ms, n, extra, upto), Slot(ms, c.message);
            && s < |before| && c.tool < |before[s].toolUses|
            && Images(ms, n, extra + [r], upto) ==
               before[s := WithTool(before[s], c.tool, Absorb(before[s].toolUses[c.tool], r))]
  {
    hide Owner, Image, Survives, Absorb;
    ImageStep(ms, n, extra, r, upto - 1);
    if c.message < upto - 1 {
      ImagesAbsorb(ms, n, extra, r, c, upto - 1);
    } else {
      ImagesSkip(ms, n, extra, r, upto - 1);
    }
  }

  /** Once all results of message `n` are merged, it counts as merged. */
  lemma {:induction false} ImagesNext(ms: seq<Message>, n: nat, upto: nat)
    requires upto <= n < |ms|
    ensures Images(ms, n + 1, [], upto) == Images(ms, n, Results(ms[n]), upto)
  {
    hide Image, Survives, Results, IsTool;
    if upto > 0 {
      ImagesNext(ms, n, upto - 1);
      ImageNext(ms, n, upto - 1);
    }
  }

  lemma ImageNext(ms: seq<Message>, n: nat, j: nat)
    requires j < |ms| && n < |ms|
    ensures Image(ms, n + 1, [], j) == Image(ms, n, Results(ms[n]), j)
  {
    hide Unclaimed, Value, Results;
    forall t | 0 <= t < |ms[j].toolUses|
      ensures Value(ms, n + 1, [], Call(j, t)) == Value(ms, n, Results(ms[n]), Call(j, t))
    {
      ValueNext(ms, n, Call(j, t));
    }
    assert Values(ms, n + 1, [], j) == Values(ms, n, Results(ms[n]), j);
  }

  lemma ValueNext(ms: seq<Message>, n: nat, c: Call)
    requires n < |ms| && c.message < |ms| && c.tool < |ms[c.message].toolUses|
    ensures Value(ms, n + 1, [], c) == Value(ms, n, Results(ms[n]), c)
  {
    hide AbsorbAll, Results, Owner;
    assert Owned(ms, n + 1, c) + OwnedIn(ms, n + 1, c, []) == Owned(ms, n, c) + OwnedIn(ms, n, c, Results(ms[n]));
  }

  /** A message that was just reached has absorbed nothing yet. */
  lemma {:induction false} NothingOwnedYet(ms: seq<Message>, n: nat, c: Call)
    requires n <= |ms| && n <= c.message + 1
    ensures Owned(ms, n, c) == []
  {
    hide Results, OwnedIn, Owner;
    if n > 0 {
      NothingOwnedYet(ms, n - 1, c);
      NotOwnedIn(ms, n - 1, c, Results(ms[n - 1]));
    }
  }

  lemma {:induction false} NotOwnedIn(ms: seq<Message>, n: nat, c: Call, rs: seq<ToolUse>)
    requires n <= |ms| && n <= c.message
    ensures OwnedIn(ms, n, c, rs) == []
  {
    hide LatestCall;
    if rs != [] { NotOwnedIn(ms, n, c, rs[..|rs| - 1]); }
  }

  lemma FreshImage(ms: seq<Message>, n: nat)
    requires n < |ms| && (!IsTool(ms[n]) || ms[n].toolUses == [])
    ensures Image(ms, n + 1, [], n) == [ms[n]]
  {
    hide Owned, OwnedIn, Unclaimed, Trim;
    if !IsTool(ms[n]) {
      forall t | 0 <= t < |ms[n].toolUses| ensures Values(ms, n + 1, [], n)[t] == ms[n].toolUses[t] {
        FreshValue(ms, n, Call(n, t));
      }
      assert Values(ms, n + 1, [], n) == ms[n].toolUses;
    }
  }

  lemma FreshValue(ms: seq<Message>, n: nat, c: Call)
    requires n < |ms| && c.message == n && c.tool < |ms[n].toolUses|
    ensures Value(ms, n + 1, [], c) == ms[n].toolUses[c.tool]
  {
    NothingOwnedYet(ms, n + 1, c);
    hide Owned, Owner;
    assert OwnedIn(ms, n + 1, c, []) == [];
  }

  datatype ToolRef = ToolRef(messageIndex: nat, toolIndex: nat)

  /** Every entry points at the latest call of its id so far, and every id called so far has one. */
  ghost predicate RefsCorrect(ms: seq<Message>, n: nat, refs: map<string, ToolRef>)
    requires n <= |ms|
  {
    forall id :: if id != "" && LatestCall(ms, n, id) != None
                 then id in refs && refs[id] == RefTo(ms, LatestCall(ms, n, id).value)
                 else id !in refs
  }

  function RefTo(ms: seq<Message>, c: Call): ToolRef
    requires c.message <= |ms|
  {
    ToolRef(Slot(ms, c.message), c.tool)
  }

  /** One result absorbed field by field, as the program does through a pointer. */
  method AbsorbInto(u: ToolUse, result: ToolUse) returns (target: ToolUse)
    ensures target == Absorb(u, result)
  {
    target := u;
    if Trim(result.state) != "" {
      target := target.(state := result.state);
    }
    if |target.output| == 0 && |result.output| > 0 {
      target := target.(output := result.output);
    }
    if target.completedAt == ZERO_TIME && result.completedAt != ZERO_TIME {
      target := target.(completedAt := result.completedAt);
    }
    if Trim(target.description) == "" {
      target := target.(description := result.description);
    }
    if |target.artifactIds| == 0 && |result.artifactIds| > 0 {
      target := target.(artifactIds := result.artifactIds);
    }
  }

  lemma ImagesStart(ms: seq<Message>, n: nat)
    requires n < |ms|
    ensures ms[n].toolUses[..0] == [] && Unclaimed(ms, n, []) == []
  {
  }

  lemma UnclaimedStep(ms: seq<Message>, n: nat, rs: seq<ToolUse>, k: nat)
    requires n <= |ms| && k < |rs|
    ensures rs[..k + 1] == rs[..k] + [rs[k]]
    ensures Unclaimed(ms, n, rs[..k + 1]) == Unclaimed(ms, n, rs[..k]) + (if Owner(ms, n, rs[k]) == None then [rs[k]] else [])
  {
    hide Owner;
    assert rs[..k + 1][..k] == rs[..k];
  }

  /** The results of one tool message, merged into `merged` or returned. */
  method MergeResults(ms: seq<Message>, n: nat, before: seq<Message>, refs: map<string, ToolRef>)
    returns (merged: seq<Message>, unmerged: seq<ToolUse>)
    requires n < |ms| && IsTool(ms[n])
    requires before == Images(ms, n, [], n) && RefsCorrect(ms, n, refs)
    ensures merged == Images(ms, n, ms[n].toolUses, n)
    ensures unmerged == Unclaimed(ms, n, ms[n].toolUses)
  {
    hide Owned, Images, LatestCall, WithTool, Absorb, Unclaimed;
    ImagesStart(ms, n);
    merged, unmerged := before, [];
    var results := ms[n].toolUses;
    for k := 0 to |results|
      invariant merged == Images(ms, n, results[..k], n)
      invariant unmerged == Unclaimed(ms, n, results[..k])
    {
      var result := results[k];
      UnclaimedStep(ms, n, results, k);
      var id := Trim(result.id);
      if id == "" || id !in refs {
        ImagesSkip(ms, n, results[..k], result, n);
        unmerged := unmerged + [result];
      } else {
        var ref := refs[id];
        ImagesAbsorb(ms, n, results[..k], result, LatestCall(ms, n, id).value, n);
        var target := AbsorbInto(merged[ref.messageIndex].toolUses[ref.toolIndex], result);
        merged := merged[ref.messageIndex := WithTool(merged[ref.messageIndex], ref.toolIndex, target)];
      }
    }
    assert results[..|results|] == results;
  }

  /** The references after the uses of the non-tool message `n` are registered. */
  method AddRefs(ms: seq<Message>, n: nat, messageIndex: nat, refs: map<string, ToolRef>) returns (refs': map<string, ToolRef>)
    requires n < |ms| && !IsTool(ms[n]) && messageIndex == Slot(ms, n) && RefsCorrect(ms, n, refs)
    ensures RefsCorrect(ms, n + 1, refs')
  {
    hide LatestCall, Slot, Trim, RefsCorrect, LastUse;
    refs' := refs;
    LastUseNone();
    var uses := ms[n].toolUses;
    for t := 0 to |uses|
      invariant forall id :: id != "" && LastUse(uses[..t], id) != None ==>
        id in refs' && refs'[id] == ToolRef(messageIndex, LastUse(uses[..t], id).value)
      invariant forall id :: id == "" || LastUse(uses[..t], id) == None ==>
        (id in refs' <==> id in refs) && (id in refs ==> refs'[id] == refs[id])
    {
      LastUseStep(uses, t);
      var id := Trim(uses[t].id);
      if id != "" {
        refs' := refs'[id := ToolRef(messageIndex, t)];
      }
    }
    assert uses[..|uses|] == uses;
    RefsAdded(ms, n, refs, refs');
  }

  lemma RefsAdded(ms: seq<Message>, n: nat, refs: map<string, ToolRef>, refs': map<string, ToolRef>)
    requires n < |ms| && !IsTool(ms[n]) && RefsCorrect(ms, n, refs)
    requires forall id :: id != "" && LastUse(ms[n].toolUses, id) != None ==>
               id in refs' && refs'[id] == ToolRef(Slot(ms, n), LastUse(ms[n].toolUses, id).value)
    requires forall id :: id == "" || LastUse(ms[n].toolUses, id) == None ==>
               (id in refs' <==> id in refs) && (id in refs ==> refs'[id] == refs[id])
    ensures RefsCorrect(ms, n + 1, refs')
  {
    hide Slot, Trim;
    forall id
      ensures if id != "" && LatestCall(ms, n + 1, id) != None
              then id in refs' && refs'[id] == RefTo(ms, LatestCall(ms, n + 1, id).value)
              else id !in refs'
    {
      LatestStep(ms, n, id);
    }
  }

  lemma LastUseNone()
    ensures forall id :: LastUse([], id) == None
  {
  }

  lemma LastUseStep(uses: seq<ToolUse>, t: nat)
    requires t < |uses|
    ensures forall id :: LastUse(uses[..t + 1], id) == if Key(uses[t]) == id then Some(t) else LastUse(uses[..t], id)
  {
    hide Trim;
    var longer := uses[..t + 1];
    assert longer[..|longer| - 1] == uses[..t] && longer[|longer| - 1] == uses[t];
    forall id ensures LastUse(longer, id) == if Key(uses[t]) == id then Some(t) else LastUse(uses[..t], id) { }
  }

  lemma LatestStep(ms: seq<Message>, n: nat, id: string)
    requires n < |ms|
    ensures LatestCall(ms, n + 1, id) ==
            if !IsTool(ms[n]) && LastUse(ms[n].toolUses, id) != None
            then Some(Call(n, LastUse(ms[n].toolUses, id).value)) else LatestCall(ms, n, id)
  {
    var t := if IsTool(ms[n]) then None else LastUse(ms[n].toolUses, id);
    if t != None {
      assert LatestCall(ms, n + 1, id) == Some(Call(n, t.value));
    } else {
      assert LatestCall(ms, n + 1, id) == LatestCall(ms, n, id);
    }
  }

  lemma RefsKept(ms: seq<Message>, n: nat, refs: map<string, ToolRef>)
    requires n < |ms| && RefsCorrect(ms, n, refs)
    ensures IsTool(ms[n]) ==> RefsCorrect(ms, n + 1, refs)
  {
    hide Slot, Trim;
    forall id ensures IsTool(ms[n]) ==> LatestCall(ms, n + 1, id) == LatestCall(ms, n, id) {
      LatestStep(ms, n, id);
    }
  }

  lemma ToolImage(ms: seq<Message>, n: nat)
    requires n < |ms| && IsTool(ms[n]) && ms[n].toolUses != []
    ensures var left := Unclaimed(ms, n, Results(ms[n]));
            Image(ms, n + 1, [], n) == if left == [] then [] else [ms[n].(toolUses := left)]
    ensures Results(ms[n]) == ms[n].toolUses
  {
  }

  lemma RefsStart(ms: seq<Message>)
    ensures RefsCorrect(ms, 0, map[]) && Images(ms, 0, [], 0) == []
  {
    assert forall id :: LatestCall(ms, 0, id) == None;
  }

  /** mergeToolUseResultMessages */
  method Merge(messages: seq<Message>) returns (merged: seq<Message>)
    ensures merged == Merged(messages)
  {
    hide Image, LatestCall, Unclaimed, RefsCorrect, Survives, Trim;
    RefsStart(messages);
    if |messages| == 0 { return messages; }
    var refs: map<string, ToolRef> := map[];
    merged := [];
    for i := 0 to |messages|
      invariant merged == Images(messages, i, [], i)
      invariant RefsCorrect(messages, i, refs)
    {
      var message := messages[i];
      ImagesNext(messages, i, i);
      RefsKept(messages, i, refs);
      if IsTool(message) && |message.toolUses| > 0 {
        var unmerged;
        ToolImage(messages, i);
        merged, unmerged := MergeResults(messages, i, merged, refs);
        if |unmerged| == 0 { continue; }
        message := message.(toolUses := unmerged);
      } else {
        FreshImage(messages, i);
      }
      merged := merged + [message];
      var messageIndex := |merged| - 1;
      if IsTool(message) { continue; }
      refs := AddRefs(messages, i, messageIndex, refs);
    }
  }
}
