/**
  When the page computed from the tail of a transcript is the page of the whole
  transcript: exactly which calls before the tail may be answered inside it.

  Throughout, `a` holds the messages before the tail and `b` those of the tail.
 */
module PageAgreement {
  import opened Model
  import opened Transcript
  import opened TranscriptFacts
  import opened Paging

  /** Message `j` of the tail, merged on its own and merged behind `a`. */
  function Alone(b: seq<Message>, j: nat): seq<Message>
    requires j < |b|
  {
    Image(b, |b|, [], j)
  }

  function Behind(a: seq<Message>, b: seq<Message>, j: nat): seq<Message>
    requires j < |b|
  {
    Image(a + b, |a + b|, [], |a| + j)
  }

  /** Some result of message `j` names a call only `a` has. */
  ghost predicate Crossed(a: seq<Message>, b: seq<Message>, j: nat)
    requires j < |b|
  {
    exists r :: r in Results(b[j]) && Crosses(a, b, j, r)
  }

  /** All that message `j` would leave in the tail view crosses, so that it is absent from the whole view. */
  predicate Vanishes(a: seq<Message>, b: seq<Message>, j: nat)
    requires j < |b|
  {
    Survives(b, j) && !Survives(a + b, |a| + j)
  }

  /** How many messages of the tail view come after message `j`. */
  function Followers(b: seq<Message>, j: nat): int
    requires j < |b|
  {
    Slot(b, |b|) - Slot(b, j + 1)
  }

  /**
    No message of the page has a result that names a call only before the tail, and
    no message after the page consists of nothing else.
   */
  ghost predicate Undisturbed(a: seq<Message>, b: seq<Message>, o: Options) {
    forall j :: 0 <= j < |b| && Survives(b, j) ==> UndisturbedAt(a, b, Normalize(o), j)
  }

  ghost predicate UndisturbedAt(a: seq<Message>, b: seq<Message>, o: Options, j: nat)
    requires j < |b|
  {
    && (Followers(b, j) < o.offset ==> !Vanishes(a, b, j))
    && (o.offset <= Followers(b, j) < o.offset + o.limit ==> !Crossed(a, b, j))
  }

  ghost predicate DistinctMessages(ms: seq<Message>) {
    forall i, j :: 0 <= i < j < |ms| ==> ms[i].id != ms[j].id
  }

  // ---- one message ---------------------------------------------------------------------

  lemma {:induction false} UnclaimedConcat(a: seq<Message>, b: seq<Message>, j: nat, rs: seq<ToolUse>)
    requires j <= |b|
    ensures |Unclaimed(a + b, |a| + j, rs)| + CrossCount(a, b, j, rs) == |Unclaimed(b, j, rs)|
  {
    hide Unclaimed, OwnedCount, CrossCount, Owner;
    CountSplits(a + b, |a| + j, rs);
    CountSplits(b, j, rs);
    CountConcat(a, b, j, rs);
  }

  /** Without crossing results a message looks the same; with one it loses tool uses or is gone. */
  lemma CrossedChanges(a: seq<Message>, b: seq<Message>, j: nat)
    requires j < |b|
    ensures !Crossed(a, b, j) ==> Behind(a, b, j) == Alone(b, j)
    ensures Crossed(a, b, j) ==> Survives(b, j) && Behind(a, b, j) != Alone(b, j)
    ensures Survives(a + b, |a| + j) ==> Survives(b, j)
    ensures Vanishes(a, b, j) ==> Crossed(a, b, j)
  {
    hide Unclaimed, Crosses, CrossCount, IsTool, Values;
    assert (a + b)[|a| + j] == b[j];
    UnclaimedConcat(a, b, j, Results(b[j]));
    CrossCountZero(a, b, j, Results(b[j]));
    if !Crossed(a, b, j) {
      ImageOfSecond(a, b, j);
    } else {
      var r :| r in Results(b[j]) && Crosses(a, b, j, r);
      assert IsTool(b[j]) && b[j].toolUses != [];
    }
  }

  /** A crossing result means that `a` holds a call, which survives. */
  lemma CrossedHasCall(a: seq<Message>, b: seq<Message>, j: nat)
    requires j < |b| && Crossed(a, b, j)
    ensures Slot(a + b, |a|) > 0
  {
    hide LatestCall, Slot, Survives;
    var r :| r in Results(b[j]) && Crosses(a, b, j, r);
    var c := LatestCall(a, |a|, Key(r)).value;
    assert Calls(a, c, Key(r));
    assert (a + b)[c.message] == a[c.message];
    CallSurvives(a + b, c.message);
    SlotMonotone(a + b, c.message, |a|);
  }

  lemma CallSurvives(ms: seq<Message>, j: nat)
    requires j < |ms| && !IsTool(ms[j])
    ensures Survives(ms, j)
  {
  }

  // ---- counting from the end -----------------------------------------------------------

  /** The merged list from the image of message `j` on. */
  function EndOf(ms: seq<Message>, j: nat): (r: seq<Message>)
    requires j <= |ms|
    ensures |r| == Slot(ms, |ms|) - Slot(ms, j)
    decreases |ms| - j
  {
    if j == |ms| then [] else Image(ms, |ms|, [], j) + EndOf(ms, j + 1)
  }

  lemma {:induction false} MergedSplits(ms: seq<Message>, j: nat)
    requires j <= |ms|
    ensures Merged(ms) == Images(ms, |ms|, [], j) + EndOf(ms, j)
    decreases |ms| - j
  {
    hide Image, Survives;
    if j < |ms| { MergedSplits(ms, j + 1); }
  }

  /** One message more from the end, in both views. */
  lemma EndStep(a: seq<Message>, b: seq<Message>, j: nat)
    requires j < |b|
    ensures EndOf(b, j) == Alone(b, j) + EndOf(b, j + 1)
    ensures EndOf(a + b, |a| + j) == Behind(a, b, j) + EndOf(a + b, |a| + j + 1)
    ensures |EndOf(b, j + 1)| == Followers(b, j)
    ensures |Behind(a, b, j)| <= |Alone(b, j)| <= 1
    ensures |Alone(b, j)| == 1 <==> Survives(b, j)
    ensures |Behind(a, b, j)| < |Alone(b, j)| <==> Vanishes(a, b, j)
  {
    CrossedChanges(a, b, j);
    hide Image, Survives, Slot, Crosses;
  }

  /** From message `j` on the whole view has as many messages as the tail view, less those that vanish. */
  lemma {:induction false} EndCounts(a: seq<Message>, b: seq<Message>, j: nat)
    requires j <= |b|
    ensures |EndOf(a + b, |a| + j)| <= |EndOf(b, j)|
    ensures |EndOf(a + b, |a| + j)| == |EndOf(b, j)| ==> forall k :: j <= k < |b| ==> !Vanishes(a, b, k)
    decreases |b| - j
  {
    hide EndOf, Slot, Vanishes, Survives, Image;
    if j < |b| {
      EndCounts(a, b, j + 1);
      EndStep(a, b, j);
    } else {
      NothingEnds(a, b);
    }
  }

  /** Every message of a merged list is the image of one surviving message, and keeps its id. */
  lemma {:induction false} ImageHolder(ms: seq<Message>, upto: nat, p: nat) returns (j: nat)
    requires upto <= |ms| && p < Slot(ms, upto)
    ensures j < upto && Survives(ms, j) && Slot(ms, j) == p
    ensures [Images(ms, |ms|, [], upto)[p]] == Image(ms, |ms|, [], j)
    ensures Images(ms, |ms|, [], upto)[p].id == ms[j].id
  {
    hide Image, Survives;
    if p < Slot(ms, upto - 1) {
      j := ImageHolder(ms, upto - 1, p);
    } else {
      j := upto - 1;
      ImageId(ms, j);
    }
  }

  lemma ImageId(ms: seq<Message>, j: nat)
    requires j < |ms| && Survives(ms, j)
    ensures Image(ms, |ms|, [], j)[0].id == ms[j].id
  {
    hide Unclaimed, Values;
  }

  // ---- the condition is enough ------------------------------------------------------------

  /** The last messages of both views agree, except in what comes after the page. */
  ghost predicate EndsAlike(w: seq<Message>, t: seq<Message>, offset: int) {
    && |w| == |t|
    && (|t| >= offset >= 0 ==> w[..|t| - offset] == t[..|t| - offset])
  }

  lemma {:induction false} UndisturbedEnds(a: seq<Message>, b: seq<Message>, o: Options, j: nat)
    requires j <= |b| && Undisturbed(a, b, o)
    requires |EndOf(b, j)| <= Normalize(o).offset + Normalize(o).limit
    ensures EndsAlike(EndOf(a + b, |a| + j), EndOf(b, j), Normalize(o).offset)
    decreases |b| - j
  {
    hide EndOf, Slot, Vanishes, Survives, Image, Crossed, Followers, Alone, Behind, Normalize;
    if j < |b| {
      EndStep(a, b, j);
      UndisturbedEnds(a, b, o, j + 1);
      CrossedChanges(a, b, j);
      assert Survives(b, j) ==> UndisturbedAt(a, b, Normalize(o), j);
    } else {
      NothingEnds(a, b);
    }
  }

  lemma NothingEnds(a: seq<Message>, b: seq<Message>)
    ensures EndOf(b, |b|) == [] && EndOf(a + b, |a| + |b|) == []
  {
  }

  /** The end of the tail view can be cut to any length. */
  lemma {:induction false} EndOfLength(b: seq<Message>, n: nat, j: nat) returns (k: nat)
    requires j <= |b| && n <= |EndOf(b, j)|
    ensures j <= k <= |b| && |EndOf(b, k)| == n
    decreases |b| - j
  {
    hide EndOf, Slot, Image;
    if n == |EndOf(b, j)| {
      k := j;
    } else {
      NothingEnds([], b);
      EndStep([], b, j);
      k := EndOfLength(b, n, j + 1);
    }
  }

  /** What comes before the page in the tail view leaves something before it in the whole view. */
  lemma FrontRemains(a: seq<Message>, b: seq<Message>, k: nat)
    requires k <= |b| && Slot(b, k) > 0
    ensures Slot(a + b, |a| + k) > 0
  {
    hide Slot, Image, Images, Crossed, Survives, Crosses;
    var i := ImageHolder(b, k, 0);
    CrossedChanges(a, b, i);
    if Survives(a + b, |a| + i) {
      SlotMonotone(a + b, |a| + i, |a| + k);
    } else {
      CrossedHasCall(a, b, i);
      SlotMonotone(a + b, |a|, |a| + k);
    }
  }

  /** A page with something before it. */
  lemma PageOfEnd(u: seq<Message>, v: seq<Message>, o: Options)
    requires u != [] && |v| == Normalize(o).offset + Normalize(o).limit
    ensures var n := Normalize(o);
            Paginate(u + v, o) == Page(v[..n.limit], n.limit, n.offset, n.limit, true, n.offset + n.limit)
  {
    var n := Normalize(o);
    assert (u + v)[|u|..|u| + n.limit] == v[..n.limit];
  }

  lemma AgreesIf(a: seq<Message>, b: seq<Message>, o: Options)
    requires |Merged(b)| >= Need(o) && Undisturbed(a, b, o)
    ensures Paginate(Merged(a + b), o) == Paginate(Merged(b), o)
  {
    hide EndOf, Slot, Images, Undisturbed, Paginate, Normalize;
    NoSlots(b);
    var n := Normalize(o);
    var k := EndOfLength(b, n.offset + n.limit, 0);
    MergedSplits(b, k);
    MergedSplits(a + b, |a| + k);
    UndisturbedEnds(a, b, o, k);
    FrontRemains(a, b, k);
    PageOfEnd(Images(b, |b|, [], k), EndOf(b, k), o);
    PageOfEnd(Images(a + b, |a + b|, [], |a| + k), EndOf(a + b, |a| + k), o);
  }

  lemma NoSlots(b: seq<Message>)
    ensures Slot(b, 0) == 0 && |EndOf(b, 0)| == |Merged(b)|
  {
  }

  // ---- and it is needed -----------------------------------------------------------------------

  /** If the pages are equal, so are the messages counted from the end. */
  lemma EqualPages(w: seq<Message>, t: seq<Message>, o: Options, i: int)
    requires |t| >= Need(o) && Paginate(w, o) == Paginate(t, o)
    requires Normalize(o).offset <= i < Normalize(o).offset + Normalize(o).limit
    ensures |w| >= Need(o) && w[|w| - 1 - i] == t[|t| - 1 - i]
  {
    var n := Normalize(o);
    var p := Paginate(t, o).messages;
    assert p == t[|t| - n.offset - n.limit..|t| - n.offset];
    assert |w| > n.offset + n.limit && p == w[|w| - n.offset - n.limit..|w| - n.offset];
    var x := n.offset + n.limit - 1 - i;
    assert p[x] == t[|t| - 1 - i] && p[x] == w[|w| - 1 - i];
  }

  /** A message on both pages is in the same place and looks the same in both views. */
  lemma OnBothPages(a: seq<Message>, b: seq<Message>, o: Options, j: nat)
    requires DistinctMessages(a + b) && |Merged(b)| >= Need(o)
    requires Paginate(Merged(a + b), o) == Paginate(Merged(b), o)
    requires j < |b| && Survives(b, j) && Normalize(o).offset <= Followers(b, j) < Normalize(o).offset + Normalize(o).limit
    ensures Survives(a + b, |a| + j) && Behind(a, b, j) == Alone(b, j)
    ensures |EndOf(a + b, |a| + j + 1)| == Followers(b, j)
  {
    hide Image, Images, Survives, Paginate, Normalize, EndOf;
    var w, t, i := Merged(a + b), Merged(b), Followers(b, j);
    SlotMonotone(b, j + 1, |b|);
    assert Slot(b, j + 1) == Slot(b, j) + 1;
    EqualPages(w, t, o, i);
    ImageAtSlot(b, |b|, [], |b|, j);
    ImageId(b, j);
    var h := ImageHolder(a + b, |a + b|, |w| - 1 - i);
    assert (a + b)[|a| + j].id == t[|t| - 1 - i].id == (a + b)[h].id;
    assert h == |a| + j;
    assert Slot(a + b, h + 1) == Slot(a + b, h) + 1;
  }

  lemma AgreesOnlyIf(a: seq<Message>, b: seq<Message>, o: Options)
    requires DistinctMessages(a + b) && |Merged(b)| >= Need(o)
    requires Paginate(Merged(a + b), o) == Paginate(Merged(b), o)
    ensures Undisturbed(a, b, o)
  {
    hide Image, Images, Paginate, Normalize, EndOf, Crossed, DistinctMessages, Merged, Survives;
    var n := Normalize(o);
    var last := LastOfPage(b, o);
    OnBothPages(a, b, o, last);
    EndStep(a, b, last);
    EndCounts(a, b, last + 1);
    forall j | 0 <= j < |b| && Survives(b, j) ensures UndisturbedAt(a, b, n, j) {
      if Followers(b, j) < n.offset {
        if j <= last { SlotMonotone(b, j + 1, last + 1); }
      } else if Followers(b, j) < n.offset + n.limit {
        OnBothPages(a, b, o, j);
        CrossedChanges(a, b, j);
      }
    }
  }

  /** The last message of the page of the tail view. */
  lemma LastOfPage(b: seq<Message>, o: Options) returns (j: nat)
    requires |Merged(b)| >= Need(o)
    ensures j < |b| && Survives(b, j) && Followers(b, j) == Normalize(o).offset
  {
    hide Image, Images, Survives, Normalize;
    j := ImageHolder(b, |b|, |Merged(b)| - 1 - Normalize(o).offset);
    assert Slot(b, j + 1) == Slot(b, j) + 1;
  }

  // ---- files --------------------------------------------------------------------------------

  lemma NothingBefore(b: seq<Message>, o: Options)
    ensures Undisturbed([], b, o)
  {
    assert [] + b == b;
    forall j, r | 0 <= j < |b| && r in Results(b[j]) ensures !Crosses([], b, j, r) {
    }
  }

  /** If the file stops being readable before the tail, the pages have no message in common. */
  lemma ForeignPages(a: seq<Message>, b: seq<Message>, o: Options)
    requires DistinctMessages(a + b) && |Merged(b)| >= Need(o)
    ensures Paginate(Merged(a), o) != Paginate(Merged(b), o)
  {
    hide Image, Images, Survives, Normalize, Slot, Paginate;
    if Paginate(Merged(a), o) == Paginate(Merged(b), o) {
      var i := Normalize(o).offset;
      EqualPages(Merged(a), Merged(b), o, i);
      var j := ImageHolder(a, |a|, |Merged(a)| - 1 - i);
      var k := ImageHolder(b, |b|, |Merged(b)| - 1 - i);
      Apart(a, b, j, k);
    }
  }

  lemma Apart(a: seq<Message>, b: seq<Message>, j: nat, k: nat)
    requires DistinctMessages(a + b) && j < |a| && k < |b|
    ensures a[j].id != b[k].id
  {
    assert (a + b)[j] == a[j] && (a + b)[|a| + k] == b[k];
  }

  /**
    The page read from the tail is the page of the whole file if no line before the
    tail is too long and the page is undisturbed; and, when the decoded messages
    have distinct ids, only if.
   */
  lemma TailPageAgrees(parse: Parser, file: string, o: Options)
    ensures var s := TailOf(parse, file, o);
            var a, b := Raw(parse, file[..s]), Raw(parse, file[s..]);
            var agree := Paginate(Parsed(parse, file[s..]), o) == Paginate(Parsed(parse, file), o);
            && (ShortLines(file[..s]) && Undisturbed(a, b, o) ==> agree)
            && (DistinctMessages(a + b) && agree ==> ShortLines(file[..s]) && Undisturbed(a, b, o))
  {
    hide Raw, Merged, Paginate, ShortLines, Undisturbed, DistinctMessages, Normalize;
    var s := TailOf(parse, file, o);
    var head, tail := file[..s], file[s..];
    var a, b := Raw(parse, head), Raw(parse, tail);
    assert file == head + tail;
    if s > 0 {
      LoadSettles(parse, file, Need(o), FirstRead(file));
      RawConcat(parse, head, tail);
      if ShortLines(head) {
        if Undisturbed(a, b, o) { AgreesIf(a, b, o); }
        if DistinctMessages(a + b) && Paginate(Merged(b), o) == Paginate(Merged(a + b), o) { AgreesOnlyIf(a, b, o); }
      } else if DistinctMessages(a + b) {
        ForeignPages(a, b, o);
      }
    } else {
      assert tail == file && head == "";
      NothingRead(parse);
      NothingBefore(b, o);
    }
  }

  lemma NothingRead(parse: Parser)
    ensures Raw(parse, "") == [] && ShortLines("")
  {
  }
}
