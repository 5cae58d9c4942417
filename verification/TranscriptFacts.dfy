/** What merging preserves: attribution, conservation, idempotence and distribution over concatenation. */
module TranscriptFacts {
  import opened Model
  import opened Text
  import opened Transcript

  // ---- attribution ------------------------------------------------------------

  /** References are in bounds and name the latest call of their id, at the place it has in the merged list. */
  lemma RefsPointAtLatestCall(ms: seq<Message>, n: nat, extra: seq<ToolUse>, refs: map<string, ToolRef>, id: string)
    requires n <= |ms| && RefsCorrect(ms, n, refs) && id in refs
    ensures var merged, ref := Images(ms, n, extra, n), refs[id];
            && ref.messageIndex < |merged| && !IsTool(merged[ref.messageIndex])
            && ref.toolIndex < |merged[ref.messageIndex].toolUses|
            && Key(merged[ref.messageIndex].toolUses[ref.toolIndex]) == id
    ensures exists c: Call :: c.message < n && Calls(ms, c, id) && refs[id] == RefTo(ms, c)
                              && forall d: Call :: d.message < n && Calls(ms, d, id) ==> NotAfter(d, c)
  {
    var c := LatestCall(ms, n, id).value;
    hide LatestCall, Slot, Trim;
    ImageAtSlot(ms, n, extra, n, c.message);
    forall d: Call | d.message < n && Calls(ms, d, id) ensures NotAfter(d, c) {
      LatestIsLatest(ms, n, id, d);
    }
  }

  /** What a call has absorbed only grows, at the end. */
  lemma {:induction false} OwnedGrows(ms: seq<Message>, n: nat, m: nat, c: Call)
    requires n <= m <= |ms|
    ensures Owned(ms, n, c) <= Owned(ms, m, c)
  {
    hide OwnedIn, Results;
    if n < m { OwnedGrows(ms, n, m - 1, c); }
  }

  lemma {:induction false} OwnedInGrows(ms: seq<Message>, n: nat, c: Call, rs: seq<ToolUse>, k: nat)
    requires n <= |ms| && k <= |rs|
    ensures OwnedIn(ms, n, c, rs[..k]) <= OwnedIn(ms, n, c, rs)
  {
    hide Owner;
    if k < |rs| {
      OwnedInGrows(ms, n, c, rs[..|rs| - 1], k);
      assert rs[..|rs| - 1][..k] == rs[..k];
    } else {
      assert rs[..k] == rs;
    }
  }

  /** A result with an owner is absorbed by it, after exactly the results absorbed before. */
  lemma ResultReachesOwner(ms: seq<Message>, i: nat, k: nat, c: Call)
    requires i < |ms| && IsTool(ms[i]) && k < |ms[i].toolUses|
    requires Owner(ms, i, ms[i].toolUses[k]) == Some(c)
    ensures Owned(ms, i, c) + OwnedIn(ms, i, c, ms[i].toolUses[..k]) + [ms[i].toolUses[k]] <= Owned(ms, |ms|, c)
  {
    hide OwnedIn, Owned;
    var rs := ms[i].toolUses;
    OwnedGrows(ms, i + 1, |ms|, c);
    OwnedStep(ms, i, c);
    OwnedInReaches(ms, i, c, rs, k);
    PrefixExtends(Owned(ms, i, c), OwnedIn(ms, i, c, rs[..k]), rs[k], OwnedIn(ms, i, c, rs));
  }

  lemma OwnedInReaches(ms: seq<Message>, i: nat, c: Call, rs: seq<ToolUse>, k: nat)
    requires i < |ms| && k < |rs| && Owner(ms, i, rs[k]) == Some(c)
    ensures OwnedIn(ms, i, c, rs[..k]) + [rs[k]] <= OwnedIn(ms, i, c, rs)
  {
    hide OwnedIn, Owner;
    OwnedInGrows(ms, i, c, rs, k + 1);
    OwnedInAppend(ms, i, c, rs[..k], rs[k]);
    assert rs[..k + 1] == rs[..k] + [rs[k]];
  }

  lemma OwnedStep(ms: seq<Message>, i: nat, c: Call)
    requires i < |ms|
    ensures Owned(ms, i + 1, c) == Owned(ms, i, c) + OwnedIn(ms, i, c, Results(ms[i]))
  {
  }

  lemma PrefixExtends<T>(s: seq<T>, p: seq<T>, x: T, q: seq<T>)
    requires p + [x] <= q
    ensures s + p + [x] <= s + q
  {
    assert s + p + [x] == s + (p + [x]);
  }

  /** The state of a call is the last non-blank one it met. */
  lemma {:induction false} StateIsLast(u: ToolUse, rs: seq<ToolUse>)
    ensures (forall k :: 0 <= k < |rs| ==> Blank(rs[k].state)) ==> AbsorbAll(u, rs).state == u.state
    ensures forall k :: 0 <= k < |rs| && !Blank(rs[k].state) && (forall l :: k < l < |rs| ==> Blank(rs[l].state))
                        ==> AbsorbAll(u, rs).state == rs[k].state
  {
    hide Blank;
    if rs != [] {
      var front, r := rs[..|rs| - 1], rs[|rs| - 1];
      StateIsLast(u, front);
      assert AbsorbAll(u, rs).state == if Blank(r.state) then AbsorbAll(u, front).state else r.state;
      assert forall k :: 0 <= k < |front| ==> front[k] == rs[k];
    }
  }

  /** The output of a call is the first non-empty one it met, its own included. */
  lemma {:induction false} OutputIsFirst(u: ToolUse, rs: seq<ToolUse>)
    ensures |u.output| > 0 || (forall k :: 0 <= k < |rs| ==> |rs[k].output| == 0) ==> AbsorbAll(u, rs).output == u.output
    ensures forall k :: 0 <= k < |rs| && |u.output| == 0 && |rs[k].output| > 0 && (forall l :: 0 <= l < k ==> |rs[l].output| == 0)
                        ==> AbsorbAll(u, rs).output == rs[k].output
  {
    if rs != [] {
      var front, r := rs[..|rs| - 1], rs[|rs| - 1];
      OutputIsFirst(u, front);
      var o := AbsorbAll(u, front).output;
      assert AbsorbAll(u, rs).output == if |o| == 0 && |r.output| > 0 then r.output else o;
      assert forall k :: 0 <= k < |front| ==> front[k] == rs[k];
    }
  }

  /** After any run a call is found, still a call, with everything it owns absorbed. */
  lemma CallAfterMerge(ms: seq<Message>, c: Call)
    requires c.message < |ms| && !IsTool(ms[c.message]) && c.tool < |ms[c.message].toolUses|
    ensures var out, s := Merged(ms), Slot(ms, c.message);
            && s < |out| && c.tool < |out[s].toolUses|
            && out[s].toolUses[c.tool] == AbsorbAll(ms[c.message].toolUses[c.tool], Owned(ms, |ms|, c))
  {
    hide Slot, Owned, AbsorbAll;
    ImageAtSlot(ms, |ms|, [], |ms|, c.message);
    assert Owned(ms, |ms|, c) + OwnedIn(ms, |ms|, c, []) == Owned(ms, |ms|, c);
  }

  // ---- nothing is lost ----------------------------------------------------------

  function Bare(u: ToolUse): ToolUse {
    u.(state := "", description := "", output := map[], completedAt := ZERO_TIME, artifactIds := [])
  }

  /** A message without what merging may fill in. */
  function Skeleton(m: Message): Message {
    m.(toolUses := seq(|m.toolUses|, t requires 0 <= t < |m.toolUses| => Bare(m.toolUses[t])))
  }

  /** The non-tool messages, in order, without what merging may fill in. */
  function Spine(ms: seq<Message>): seq<Message> {
    if ms == [] then []
    else
      var m := ms[|ms| - 1];
      Spine(ms[..|ms| - 1]) + (if IsTool(m) then [] else [Skeleton(m)])
  }

  lemma {:induction false} SpineConcat(a: seq<Message>, b: seq<Message>)
    ensures Spine(a + b) == Spine(a) + Spine(b)
  {
    hide Skeleton, IsTool;
    if b == [] {
      assert a + b == a;
    } else {
      SpineConcat(a, b[..|b| - 1]);
      assert (a + b)[..|a + b| - 1] == a + b[..|b| - 1];
    }
  }

  lemma ImageSpine(ms: seq<Message>, n: nat, extra: seq<ToolUse>, j: nat)
    requires j < |ms| && n <= |ms|
    ensures Spine(Image(ms, n, extra, j)) == if IsTool(ms[j]) then [] else [Skeleton(ms[j])]
  {
    hide Value, Unclaimed, Trim;
    var im := Image(ms, n, extra, j);
    if im != [] {
      assert im[..|im| - 1] == [] && Spine([]) == [];
      if !IsTool(ms[j]) {
        assert Skeleton(im[0]).toolUses == Skeleton(ms[j]).toolUses;
      }
    }
  }

  lemma {:induction false} ImagesSpine(ms: seq<Message>, n: nat, extra: seq<ToolUse>, upto: nat)
    requires upto <= |ms| && n <= |ms|
    ensures Spine(Images(ms, n, extra, upto)) == Spine(ms[..upto])
  {
    hide Image, Skeleton, IsTool, Survives;
    if upto > 0 {
      ImagesSpine(ms, n, extra, upto - 1);
      ImageSpine(ms, n, extra, upto - 1);
      SpineConcat(Images(ms, n, extra, upto - 1), Image(ms, n, extra, upto - 1));
      assert ms[..upto][..upto - 1] == ms[..upto - 1];
    }
  }

  /** Merging never drops, reorders or renames a non-tool message or one of its calls. */
  lemma NonToolMessagesKept(ms: seq<Message>)
    ensures Spine(Merged(ms)) == Spine(ms)
  {
    ImagesSpine(ms, |ms|, [], |ms|);
    assert ms[..|ms|] == ms;
  }

  /** How many tool uses a transcript holds. */
  function Uses(ms: seq<Message>): nat {
    if ms == [] then 0 else Uses(ms[..|ms| - 1]) + |ms[|ms| - 1].toolUses|
  }

  lemma {:induction false} UsesConcat(a: seq<Message>, b: seq<Message>)
    ensures Uses(a + b) == Uses(a) + Uses(b)
  {
    if b == [] {
      assert a + b == a;
    } else {
      UsesConcat(a, b[..|b| - 1]);
      assert (a + b)[..|a + b| - 1] == a + b[..|b| - 1];
    }
  }

  /** How many of the results of message `n` have an owner. */
  function OwnedCount(ms: seq<Message>, n: nat, rs: seq<ToolUse>): nat
    requires n <= |ms|
  {
    if rs == [] then 0
    else OwnedCount(ms, n, rs[..|rs| - 1]) + (if Owner(ms, n, rs[|rs| - 1]) == None then 0 else 1)
  }

  lemma {:induction false} CountSplits(ms: seq<Message>, n: nat, rs: seq<ToolUse>)
    requires n <= |ms|
    ensures OwnedCount(ms, n, rs) + |Unclaimed(ms, n, rs)| == |rs|
  {
    hide Owner;
    if rs != [] { CountSplits(ms, n, rs[..|rs| - 1]); }
  }

  /** How many results among the first `n` messages answer a call. */
  function MergedCount(ms: seq<Message>, n: nat): nat
    requires n <= |ms|
  {
    if n == 0 then 0 else MergedCount(ms, n - 1) + OwnedCount(ms, n - 1, Results(ms[n - 1]))
  }

  lemma {:induction false} ImagesUses(ms: seq<Message>, n: nat, extra: seq<ToolUse>, upto: nat)
    requires upto <= |ms| && n <= |ms|
    ensures Uses(Images(ms, n, extra, upto)) + MergedCount(ms, upto) == Uses(ms[..upto])
  {
    UsesPrefix(ms, upto);
    hide Image, OwnedCount, Survives, Uses, Results;
    if upto > 0 {
      ImagesUses(ms, n, extra, upto - 1);
      UsesConcat(Images(ms, n, extra, upto - 1), Image(ms, n, extra, upto - 1));
      ImageUses(ms, n, extra, upto - 1);
    }
  }

  lemma UsesPrefix(ms: seq<Message>, n: nat)
    requires n <= |ms|
    ensures Uses(ms[..0]) == 0
    ensures n > 0 ==> Uses(ms[..n]) == Uses(ms[..n - 1]) + |ms[n - 1].toolUses|
  {
    if n > 0 { assert ms[..n][..n - 1] == ms[..n - 1]; }
  }

  lemma ImageUses(ms: seq<Message>, n: nat, extra: seq<ToolUse>, j: nat)
    requires j < |ms| && n <= |ms|
    ensures Uses(Image(ms, n, extra, j)) + OwnedCount(ms, j, Results(ms[j])) == |ms[j].toolUses|
  {
    hide Owner, Trim, OwnedCount, Unclaimed;
    CountSplits(ms, j, Results(ms[j]));
    assert OwnedCount(ms, j, []) == 0 by { NoneOwned(ms, j); }
    var im := Image(ms, n, extra, j);
    if im != [] {
      assert im[..|im| - 1] == [] && Uses([]) == 0;
    }
  }

  lemma NoneOwned(ms: seq<Message>, n: nat)
    requires n <= |ms|
    ensures OwnedCount(ms, n, []) == 0
  {
  }

  /** Conservation: what went in came out or was merged into a call. */
  lemma MergeConservesUses(ms: seq<Message>)
    ensures Uses(ms) == Uses(Merged(ms)) + MergedCount(ms, |ms|)
  {
    ImagesUses(ms, |ms|, [], |ms|);
    assert ms[..|ms|] == ms;
  }

  // ---- idempotence --------------------------------------------------------------

  /** No result answers an earlier call. */
  ghost predicate Settled(ms: seq<Message>, n: nat)
    requires n <= |ms|
  {
    forall i :: 0 <= i < n ==> OwnedCount(ms, i, Results(ms[i])) == 0
  }

  lemma {:induction false} SettledOwnsNothing(ms: seq<Message>, n: nat, c: Call)
    requires n <= |ms| && Settled(ms, n)
    ensures Owned(ms, n, c) == []
  {
    hide Owner, Results;
    if n > 0 {
      SettledOwnsNothing(ms, n - 1, c);
      CountZero(ms, n - 1, c, Results(ms[n - 1]));
    }
  }

  lemma {:induction false} CountZero(ms: seq<Message>, n: nat, c: Call, rs: seq<ToolUse>)
    requires n <= |ms| && OwnedCount(ms, n, rs) == 0
    ensures OwnedIn(ms, n, c, rs) == [] && Unclaimed(ms, n, rs) == rs
  {
    hide Owner;
    if rs != [] {
      CountZero(ms, n, c, rs[..|rs| - 1]);
      assert rs == rs[..|rs| - 1] + [rs[|rs| - 1]];
    }
  }

  lemma SettledImage(ms: seq<Message>, j: nat)
    requires j < |ms| && Settled(ms, |ms|)
    ensures Image(ms, |ms|, [], j) == [ms[j]]
  {
    hide Owned, OwnedIn, Unclaimed, OwnedCount, Trim;
    if IsTool(ms[j]) {
      CountZero(ms, j, Call(0, 0), ms[j].toolUses);
    } else {
      forall t | 0 <= t < |ms[j].toolUses| ensures Values(ms, |ms|, [], j)[t] == ms[j].toolUses[t] {
        SettledOwnsNothing(ms, |ms|, Call(j, t));
        NoResults(ms, |ms|, Call(j, t));
      }
      assert Values(ms, |ms|, [], j) == ms[j].toolUses;
    }
  }

  lemma {:induction false} SettledImages(ms: seq<Message>, upto: nat)
    requires upto <= |ms| && Settled(ms, |ms|)
    ensures Images(ms, |ms|, [], upto) == ms[..upto]
  {
    hide Image, Settled, Survives;
    if upto > 0 {
      SettledImages(ms, upto - 1);
      SettledImage(ms, upto - 1);
    }
  }

  lemma {:induction false} CountedBefore(ms: seq<Message>, n: nat, i: nat)
    requires i < n <= |ms|
    ensures OwnedCount(ms, i, Results(ms[i])) <= MergedCount(ms, n)
  {
    hide OwnedCount;
    if i < n - 1 { CountedBefore(ms, n - 1, i); }
  }

  /** Merging leaves a transcript alone exactly when no result in it answers an earlier call. */
  lemma FixedPoints(ms: seq<Message>)
    ensures Merged(ms) == ms <==> Settled(ms, |ms|)
  {
    hide OwnedCount;
    if Settled(ms, |ms|) {
      SettledImages(ms, |ms|);
      assert ms[..|ms|] == ms;
    }
    if Merged(ms) == ms {
      MergeConservesUses(ms);
      forall i | 0 <= i < |ms| ensures OwnedCount(ms, i, Results(ms[i])) == 0 {
        CountedBefore(ms, |ms|, i);
      }
    }
  }

  /** An id is called in the merged list exactly if it is called in the original. */
  lemma {:induction false} CalledInImages(ms: seq<Message>, n: nat, upto: nat, id: string)
    requires upto <= |ms| && n <= |ms|
    ensures var out := Images(ms, n, [], upto); LatestCall(out, |out|, id) == None <==> LatestCall(ms, upto, id) == None
  {
    hide Image, LastUse, Survives, Trim;
    if upto > 0 {
      var out, im := Images(ms, n, [], upto - 1), Image(ms, n, [], upto - 1);
      CalledInImages(ms, n, upto - 1, id);
      CalledInImage(ms, n, upto - 1, id);
      LatestPrefix(out, im, |out|, id);
    }
  }

  lemma CalledInImage(ms: seq<Message>, n: nat, j: nat, id: string)
    requires j < |ms| && n <= |ms|
    ensures var im := Image(ms, n, [], j);
            if IsTool(ms[j]) then im == [] || (|im| == 1 && IsTool(im[0]))
            else |im| == 1 && !IsTool(im[0]) && (LastUse(im[0].toolUses, id) == None <==> LastUse(ms[j].toolUses, id) == None)
  {
    hide Value, Unclaimed, Trim;
    if !IsTool(ms[j]) {
      SameKeysSameUse(Values(ms, n, [], j), ms[j].toolUses, id);
    }
  }

  lemma {:induction false} SameKeysSameUse(a: seq<ToolUse>, b: seq<ToolUse>, id: string)
    requires |a| == |b| && forall t :: 0 <= t < |a| ==> a[t].id == b[t].id
    ensures LastUse(a, id) == LastUse(b, id)
  {
    if a != [] { SameKeysSameUse(a[..|a| - 1], b[..|b| - 1], id); }
  }

  lemma {:induction false} LatestPrefix(a: seq<Message>, b: seq<Message>, n: nat, id: string)
    requires n <= |a|
    ensures LatestCall(a + b, n, id) == LatestCall(a, n, id)
  {
    hide LastUse, Trim;
    if n > 0 {
      LatestPrefix(a, b, n - 1, id);
      assert (a + b)[n - 1] == a[n - 1];
    }
  }

  /** What survives has no owner before it. */
  lemma {:induction false} UnclaimedStays(ms: seq<Message>, n: nat, rs: seq<ToolUse>, out: seq<Message>)
    requires n <= |ms|
    requires forall id :: LatestCall(out, |out|, id) == None <==> LatestCall(ms, n, id) == None
    ensures OwnedCount(out, |out|, Unclaimed(ms, n, rs)) == 0
  {
    hide LatestCall, Trim, OwnedCount;
    NoneOwned(out, |out|);
    if rs != [] {
      var r := rs[|rs| - 1];
      UnclaimedStays(ms, n, rs[..|rs| - 1], out);
      CountAppend(out, |out|, Unclaimed(ms, n, rs[..|rs| - 1]), r);
      assert Owner(ms, n, r) == None ==> Owner(out, |out|, r) == None;
      assert Unclaimed(ms, n, rs[..|rs| - 1]) + [] == Unclaimed(ms, n, rs[..|rs| - 1]);
    }
  }

  lemma CountAppend(ms: seq<Message>, n: nat, rs: seq<ToolUse>, r: ToolUse)
    requires n <= |ms|
    ensures OwnedCount(ms, n, rs + [r]) == OwnedCount(ms, n, rs) + (if Owner(ms, n, r) == None then 0 else 1)
  {
    hide Owner;
    assert (rs + [r])[..|rs|] == rs;
  }

  lemma {:induction false} OwnerPrefix(a: seq<Message>, b: seq<Message>, n: nat, rs: seq<ToolUse>)
    requires n <= |a|
    ensures OwnedCount(a + b, n, rs) == OwnedCount(a, n, rs)
  {
    hide LatestCall, Trim;
    if rs != [] {
      LatestPrefix(a, b, n, Key(rs[|rs| - 1]));
      OwnerPrefix(a, b, n, rs[..|rs| - 1]);
    }
  }

  lemma {:induction false} ImagesSettled(ms: seq<Message>, n: nat, upto: nat)
    requires upto <= |ms| && n <= |ms|
    ensures var out := Images(ms, n, [], upto); Settled(out, |out|)
  {
    hide Image, OwnedCount, LatestCall, Survives, Results;
    if upto > 0 {
      var out, im := Images(ms, n, [], upto - 1), Image(ms, n, [], upto - 1);
      ImagesSettled(ms, n, upto - 1);
      forall i | 0 <= i < |out + im| ensures OwnedCount(out + im, i, Results((out + im)[i])) == 0 {
        if i < |out| {
          OwnerPrefix(out, im, i, Results(out[i]));
        } else {
          ImageSettled(ms, n, upto - 1);
          OwnerPrefix(out, im, |out|, Results(im[0]));
        }
      }
    }
  }

  lemma ImageSettled(ms: seq<Message>, n: nat, j: nat)
    requires j < |ms| && n <= |ms|
    ensures var out, im := Images(ms, n, [], j), Image(ms, n, [], j);
            im != [] ==> OwnedCount(out, |out|, Results(im[0])) == 0
  {
    hide LatestCall, Values, Images, Trim, Owner;
    var out := Images(ms, n, [], j);
    forall id ensures LatestCall(out, |out|, id) == None <==> LatestCall(ms, j, id) == None {
      CalledInImages(ms, n, j, id);
    }
    UnclaimedStays(ms, j, ms[j].toolUses, out);
  }

  /** Merging is idempotent. */
  lemma MergeTwice(ms: seq<Message>)
    ensures Merged(Merged(ms)) == Merged(ms)
  {
    hide Settled;
    ImagesSettled(ms, |ms|, |ms|);
    FixedPoints(Merged(ms));
  }

  // ---- distribution over concatenation --------------------------------------------

  function Shift(c: Option<Call>, k: nat): Option<Call> {
    if c == None then None else Some(Call(c.value.message + k, c.value.tool))
  }

  /** A result of message `j` of the second part that names a call only the first part has. */
  predicate Crosses(a: seq<Message>, b: seq<Message>, j: nat, r: ToolUse)
    requires j <= |b|
  {
    Key(r) != "" && LatestCall(b, j, Key(r)) == None && LatestCall(a, |a|, Key(r)) != None
  }

  /** No result of the second part names a call that only the first part has. */
  ghost predicate NoCrossing(a: seq<Message>, b: seq<Message>) {
    forall j, r :: 0 <= j < |b| && r in Results(b[j]) ==> !Crosses(a, b, j, r)
  }

  lemma {:induction false} LatestConcat(a: seq<Message>, b: seq<Message>, j: nat, id: string)
    requires j <= |b|
    ensures LatestCall(a + b, |a| + j, id) ==
            if LatestCall(b, j, id) != None then Shift(LatestCall(b, j, id), |a|) else LatestCall(a, |a|, id)
  {
    hide LatestCall, Calls, LastUse, Trim;
    LatestZero(b, id);
    if j == 0 {
      LatestPrefix(a, b, |a|, id);
    } else {
      LatestConcat(a, b, j - 1, id);
      LatestBoth(a + b, |a| + j - 1, b, j - 1, id);
    }
  }

  lemma LatestZero(ms: seq<Message>, id: string)
    ensures LatestCall(ms, 0, id) == None
  {
  }

  /** The same message is reached in two lists. */
  lemma LatestBoth(x: seq<Message>, n: nat, y: seq<Message>, m: nat, id: string)
    requires n < |x| && m < |y| && x[n] == y[m]
    ensures var t := if IsTool(y[m]) then None else LastUse(y[m].toolUses, id);
            && LatestCall(x, n + 1, id) == (if t == None then LatestCall(x, n, id) else Some(Call(n, t.value)))
            && LatestCall(y, m + 1, id) == (if t == None then LatestCall(y, m, id) else Some(Call(m, t.value)))
  {
    LatestStep(x, n, id);
    LatestStep(y, m, id);
    hide LatestCall, LastUse, Trim;
  }

  lemma OwnerConcat(a: seq<Message>, b: seq<Message>, j: nat, r: ToolUse, c: Call)
    requires j <= |b|
    ensures Owner(a + b, |a| + j, r) == Some(Call(c.message + |a|, c.tool)) <==> Owner(b, j, r) == Some(c)
    ensures !Crosses(a, b, j, r) && c.message < |a| ==> Owner(a + b, |a| + j, r) != Some(c)
    ensures Owner(a + b, |a| + j, r) == None <==> Owner(b, j, r) == None && !Crosses(a, b, j, r)
    ensures Crosses(a, b, j, r) ==> Owner(b, j, r) == None
  {
    hide LatestCall, Trim;
    LatestConcat(a, b, j, Key(r));
  }

  /** What a call of the second part owns does not depend on the first part. */
  lemma {:induction false} SecondIn(a: seq<Message>, b: seq<Message>, j: nat, c: Call, rs: seq<ToolUse>)
    requires j <= |b|
    ensures OwnedIn(a + b, |a| + j, Call(c.message + |a|, c.tool), rs) == OwnedIn(b, j, c, rs)
  {
    hide OwnedIn, Unclaimed, Owner, Crosses, Calls;
    var d := Call(c.message + |a|, c.tool);
    if rs == [] {
      NoResults(a + b, |a| + j, d);
      NoResults(b, j, c);
    } else {
      var front, r := rs[..|rs| - 1], rs[|rs| - 1];
      SecondIn(a, b, j, c, front);
      OwnerConcat(a, b, j, r, c);
      OwnedInUnfold(a + b, |a| + j, d, rs);
      OwnedInUnfold(b, j, c, rs);
    }
  }

  lemma {:induction false} SecondOwned(a: seq<Message>, b: seq<Message>, j: nat, c: Call)
    requires j <= |b|
    ensures Owned(a + b, |a| + j, Call(c.message + |a|, c.tool)) == Owned(b, j, c)
  {
    hide Owned, OwnedIn, Results;
    var d := Call(c.message + |a|, c.tool);
    OwnedZero(b, c);
    if j == 0 {
      NothingOwnedYet(a + b, |a|, d);
    } else {
      SecondOwned(a, b, j - 1, c);
      assert (a + b)[|a| + j - 1] == b[j - 1];
      SecondIn(a, b, j - 1, c, Results(b[j - 1]));
      OwnedStep(a + b, |a| + j - 1, d);
      OwnedStep(b, j - 1, c);
    }
  }

  lemma {:induction false} InConcat(a: seq<Message>, b: seq<Message>, j: nat, c: Call, rs: seq<ToolUse>)
    requires j <= |b| && forall r :: r in rs ==> !Crosses(a, b, j, r)
    ensures c.message < |a| ==> OwnedIn(a + b, |a| + j, c, rs) == []
    ensures Unclaimed(a + b, |a| + j, rs) == Unclaimed(b, j, rs)
  {
    hide OwnedIn, Unclaimed, Owner, Crosses, Calls;
    if rs == [] {
      NoResults(a + b, |a| + j, c);
      NoResults(b, j, c);
    } else {
      var front, r := rs[..|rs| - 1], rs[|rs| - 1];
      InConcat(a, b, j, c, front);
      OwnerConcat(a, b, j, r, c);
      OwnedInUnfold(a + b, |a| + j, c, rs);
      OwnedInUnfold(b, j, c, rs);
    }
  }

  lemma OwnedInUnfold(ms: seq<Message>, n: nat, c: Call, rs: seq<ToolUse>)
    requires n <= |ms| && rs != []
    ensures var front, r := rs[..|rs| - 1], rs[|rs| - 1];
            && OwnedIn(ms, n, c, rs) == OwnedIn(ms, n, c, front) + (if Owner(ms, n, r) == Some(c) then [r] else [])
            && Unclaimed(ms, n, rs) == Unclaimed(ms, n, front) + (if Owner(ms, n, r) == None then [r] else [])
  {
    hide Owner;
  }

  lemma NoResults(ms: seq<Message>, n: nat, c: Call)
    requires n <= |ms|
    ensures OwnedIn(ms, n, c, []) == [] && Unclaimed(ms, n, []) == []
  {
  }

  lemma {:induction false} OwnedPrefix(a: seq<Message>, b: seq<Message>, n: nat, c: Call)
    requires n <= |a|
    ensures Owned(a + b, n, c) == Owned(a, n, c)
  {
    hide Results, OwnedIn;
    if n > 0 {
      OwnedPrefix(a, b, n - 1, c);
      assert (a + b)[n - 1] == a[n - 1];
      InPrefix(a, b, n - 1, c, Results(a[n - 1]));
    }
  }

  lemma {:induction false} InPrefix(a: seq<Message>, b: seq<Message>, n: nat, c: Call, rs: seq<ToolUse>)
    requires n <= |a|
    ensures OwnedIn(a + b, n, c, rs) == OwnedIn(a, n, c, rs)
    ensures Unclaimed(a + b, n, rs) == Unclaimed(a, n, rs)
  {
    hide LatestCall, Trim;
    if rs != [] {
      InPrefix(a, b, n, c, rs[..|rs| - 1]);
      LatestPrefix(a, b, n, Key(rs[|rs| - 1]));
    }
  }

  lemma {:induction false} OwnedConcat(a: seq<Message>, b: seq<Message>, j: nat, c: Call)
    requires j <= |b| && NoCrossing(a, b) && c.message < |a|
    ensures Owned(a + b, |a| + j, c) == Owned(a, |a|, c)
  {
    hide Owned, NoCrossing;
    if j == 0 {
      OwnedPrefix(a, b, |a|, c);
    } else {
      OwnedConcat(a, b, j - 1, c);
      OwnedConcatStep(a, b, j - 1, c);
    }
  }

  lemma OwnedZero(ms: seq<Message>, c: Call)
    ensures Owned(ms, 0, c) == []
  {
  }

  lemma OwnedConcatStep(a: seq<Message>, b: seq<Message>, j: nat, c: Call)
    requires j < |b| && NoCrossing(a, b) && c.message < |a|
    ensures Owned(a + b, |a| + j + 1, c) == Owned(a + b, |a| + j, c)
  {
    assert (a + b)[|a| + j] == b[j];
    InConcat(a, b, j, c, Results(b[j]));
    OwnedStep(a + b, |a| + j, c);
    hide Results, OwnedIn, Crosses, Owned;
    assert Owned(a + b, |a| + j, c) + [] == Owned(a + b, |a| + j, c);
  }

  lemma ImageOfFirst(a: seq<Message>, b: seq<Message>, j: nat)
    requires j < |a| && NoCrossing(a, b)
    ensures Image(a + b, |a + b|, [], j) == Image(a, |a|, [], j)
  {
    hide Owned, Crosses, NoCrossing, Trim, OwnedIn, Unclaimed;
    assert (a + b)[j] == a[j];
    InPrefix(a, b, j, Call(0, 0), a[j].toolUses);
    forall t | 0 <= t < |a[j].toolUses| ensures Values(a + b, |a + b|, [], j)[t] == Values(a, |a|, [], j)[t] {
      OwnedConcat(a, b, |b|, Call(j, t));
      assert OwnedIn(a + b, |a + b|, Call(j, t), []) == OwnedIn(a, |a|, Call(j, t), []) by {
        NoResults(a + b, |a + b|, Call(j, t));
        NoResults(a, |a|, Call(j, t));
      }
    }
    assert Values(a + b, |a + b|, [], j) == Values(a, |a|, [], j);
  }

  /** A message of the second part none of whose results crosses looks the same in both lists. */
  lemma ImageOfSecond(a: seq<Message>, b: seq<Message>, j: nat)
    requires j < |b| && forall r :: r in Results(b[j]) ==> !Crosses(a, b, j, r)
    ensures Image(a + b, |a + b|, [], |a| + j) == Image(b, |b|, [], j)
  {
    hide Owned, Crosses, Trim, OwnedIn, Unclaimed;
    assert (a + b)[|a| + j] == b[j];
    if IsTool(b[j]) {
      InConcat(a, b, j, Call(0, 0), b[j].toolUses);
    } else {
      forall t | 0 <= t < |b[j].toolUses| ensures Values(a + b, |a + b|, [], |a| + j)[t] == Values(b, |b|, [], j)[t] {
        SecondOwned(a, b, |b|, Call(j, t));
        NoResults(a + b, |a + b|, Call(|a| + j, t));
        NoResults(b, |b|, Call(j, t));
      }
      assert Values(a + b, |a + b|, [], |a| + j) == Values(b, |b|, [], j);
    }
  }

  lemma NothingCrosses(a: seq<Message>, b: seq<Message>, j: nat)
    requires NoCrossing(a, b) && j < |b|
    ensures forall r :: r in Results(b[j]) ==> !Crosses(a, b, j, r)
  {
  }

  lemma {:induction false} ImagesConcat(a: seq<Message>, b: seq<Message>, i: nat, j: nat)
    requires NoCrossing(a, b) && i <= |a| && j <= |b| && (j > 0 ==> i == |a|)
    ensures Images(a + b, |a + b|, [], i + j) == Images(a, |a|, [], i) + Images(b, |b|, [], j)
    decreases i + j
  {
    hide Image, NoCrossing, Survives;
    if j > 0 {
      ImagesConcat(a, b, i, j - 1);
      NothingCrosses(a, b, j - 1);
      ImageOfSecond(a, b, j - 1);
    } else if i > 0 {
      ImagesConcat(a, b, i - 1, 0);
      ImageOfFirst(a, b, i - 1);
    }
  }

  /** How many results of the first `j` messages of the second part cross. */
  function CrossCount(a: seq<Message>, b: seq<Message>, j: nat, rs: seq<ToolUse>): nat
    requires j <= |b|
  {
    if rs == [] then 0
    else CrossCount(a, b, j, rs[..|rs| - 1]) + (if Crosses(a, b, j, rs[|rs| - 1]) then 1 else 0)
  }

  lemma {:induction false} CrossCountZero(a: seq<Message>, b: seq<Message>, j: nat, rs: seq<ToolUse>)
    requires j <= |b|
    ensures CrossCount(a, b, j, rs) == 0 <==> forall r :: r in rs ==> !Crosses(a, b, j, r)
  {
    hide Crosses;
    if rs != [] {
      CrossCountZero(a, b, j, rs[..|rs| - 1]);
      assert rs == rs[..|rs| - 1] + [rs[|rs| - 1]];
    }
  }

  function Crossings(a: seq<Message>, b: seq<Message>, j: nat): nat
    requires j <= |b|
  {
    if j == 0 then 0 else Crossings(a, b, j - 1) + CrossCount(a, b, j - 1, Results(b[j - 1]))
  }

  lemma {:induction false} CrossingsCounted(a: seq<Message>, b: seq<Message>, j: nat, i: nat)
    requires i < j <= |b|
    ensures CrossCount(a, b, i, Results(b[i])) <= Crossings(a, b, j)
  {
    hide CrossCount;
    if i < j - 1 { CrossingsCounted(a, b, j - 1, i); }
  }

  lemma {:induction false} CountConcat(a: seq<Message>, b: seq<Message>, j: nat, rs: seq<ToolUse>)
    requires j <= |b|
    ensures OwnedCount(a + b, |a| + j, rs) == OwnedCount(b, j, rs) + CrossCount(a, b, j, rs)
  {
    if rs != [] {
      CountConcat(a, b, j, rs[..|rs| - 1]);
      OwnerConcat(a, b, j, rs[|rs| - 1], Call(0, 0));
      hide Owner, Crosses;
    }
  }

  lemma {:induction false} MergedConcat(a: seq<Message>, b: seq<Message>, i: nat, j: nat)
    requires i <= |a| && j <= |b| && (j > 0 ==> i == |a|)
    ensures MergedCount(a + b, i + j) == MergedCount(a, i) + MergedCount(b, j) + Crossings(a, b, j)
    decreases i + j
  {
    hide OwnedCount, CrossCount, Results;
    if j > 0 {
      MergedConcat(a, b, i, j - 1);
      assert (a + b)[|a| + j - 1] == b[j - 1];
      CountConcat(a, b, j - 1, Results(b[j - 1]));
    } else if i > 0 {
      MergedConcat(a, b, i - 1, 0);
      assert (a + b)[i - 1] == a[i - 1];
      OwnerPrefix(a, b, i - 1, Results(a[i - 1]));
    }
  }

  lemma NoCrossingIfZero(a: seq<Message>, b: seq<Message>)
    requires Crossings(a, b, |b|) == 0
    ensures NoCrossing(a, b)
  {
    hide Crossings, CrossCount, Crosses, Results;
    forall j, r | 0 <= j < |b| && r in Results(b[j]) ensures !Crosses(a, b, j, r) {
      CrossingsCounted(a, b, |b|, j);
      CrossCountZero(a, b, j, Results(b[j]));
    }
  }

  /** If merging distributes, the counts agree and so nothing crosses. */
  lemma DistributesOnlyIf(a: seq<Message>, b: seq<Message>)
    requires Merged(a + b) == Merged(a) + Merged(b)
    ensures NoCrossing(a, b)
  {
    hide Merged, MergedCount, Uses, NoCrossing, Crossings;
    MergeConservesUses(a);
    MergeConservesUses(b);
    MergeConservesUses(a + b);
    UsesConcat(a, b);
    UsesConcat(Merged(a), Merged(b));
    MergedConcat(a, b, |a|, |b|);
    NoCrossingIfZero(a, b);
  }

  lemma DistributesIf(a: seq<Message>, b: seq<Message>)
    requires NoCrossing(a, b)
    ensures Merged(a + b) == Merged(a) + Merged(b)
  {
    hide NoCrossing, Images;
    ImagesConcat(a, b, |a|, |b|);
  }

  /**
    Merging distributes over concatenation exactly when no result of the second
    part names a call that only the first part has.
   */
  lemma MergeDistributes(a: seq<Message>, b: seq<Message>)
    ensures Merged(a + b) == Merged(a) + Merged(b) <==> NoCrossing(a, b)
  {
    hide NoCrossing, Merged;
    if NoCrossing(a, b) {
      DistributesIf(a, b);
    } else if Merged(a + b) == Merged(a) + Merged(b) {
      DistributesOnlyIf(a, b);
    }
  }
}
