/**
  All interleavings of subscribing, unsubscribing, closing and publishing, with
  publish split at its unlock: the locked part picks the channels, the sends come
  later and one by one.
 */
module HubProtocol {
  import opened Model
  import opened Ordering
  import opened Hub

  type Channel = nat

  /**
    A subscription: how many events had been accepted when it began, what it was
    given as Recent, whether the feed was open then, and how many events had been
    accepted when it was removed, if it was.
   */
  datatype Sub = Sub(joined: nat, replay: seq<Event>, live: bool, left: Option<nat>)

  /** A send still to do, or done: event number `event` to `channel`. */
  datatype Send = Send(event: nat, channel: Channel)

  datatype World = World(
    buffer: int,
    feed: FeedState<Channel>,
    /** every event accepted, and for each the channels its publish picked */
    accepted: seq<Event>,
    picked: seq<set<Channel>>,
    subs: map<Channel, Sub>,
    pending: set<Send>,
    dropped: set<Send>,
    /** the events put into each channel, by number, and how many of them were received */
    stream: map<Channel, seq<nat>>,
    received: map<Channel, nat>,
    /** channels that Close has still to close, and how often each was closed */
    closing: set<Channel>,
    closes: map<Channel, nat>)

  datatype Action =
    | Publish(e: Event)
    | Deliver(send: Send)
    | Receive(channel: Channel)
    | Subscribe(channel: Channel)
    | Unsubscribe(channel: Channel)
    | Close
    | CloseChannel(channel: Channel)

  function Start(buffer: int): World {
    World(buffer, FeedState([], {}, false), [], [], map[], {}, {}, map[], map[], {}, map[])
  }

  /**
    A send to a channel that is closed by then is left out: whether the program
    survives it is not modelled.
   */
  predicate Enabled(w: World, a: Action) {
    match a
    case Publish(_) => true
    case Deliver(s) => s in w.pending && s.channel in w.closes && w.closes[s.channel] == 0
    case Receive(c) => c in w.stream && c in w.received && w.received[c] < |w.stream[c]|
    case Subscribe(c) => c !in w.subs
    case Unsubscribe(c) => c in w.subs && w.subs[c].live
    case Close => true
    case CloseChannel(c) => c in w.closing
  }

  function Closed(w: World, c: Channel): World {
    if c in w.closes then w.(closes := w.closes[c := w.closes[c] + 1]) else w
  }

  function Next(w: World, a: Action): World {
    match a
    case Publish(e) =>
      if w.feed.closed then w
      else w.(feed := AfterPublish(w.buffer, w.feed, e),
              accepted := w.accepted + [e],
              picked := w.picked + [w.feed.subs],
              pending := w.pending + (set c | c in w.feed.subs :: Send(|w.accepted|, c)))
    case Deliver(s) =>
      var c := s.channel;
      var v := w.(pending := w.pending - {s});
      if c in w.stream && c in w.received && |w.stream[c]| < w.received[c] + CHANNEL_CAPACITY
      then v.(stream := w.stream[c := w.stream[c] + [s.event]])
      else v.(dropped := w.dropped + {s})
    case Receive(c) =>
      if c in w.received then w.(received := w.received[c := w.received[c] + 1]) else w
    case Subscribe(c) =>
      var n := |w.accepted|;
      w.(feed := AfterSubscribe(w.feed, c),
         subs := w.subs[c := if w.feed.closed then Sub(n, [], false, Some(n)) else Sub(n, w.feed.recent, true, None)],
         stream := w.stream[c := []], received := w.received[c := 0],
         closes := w.closes[c := if w.feed.closed then 1 else 0])
    case Unsubscribe(c) =>
      if c in w.feed.subs && c in w.subs
      then Closed(w.(feed := AfterUnsubscribe(w.feed, c), subs := w.subs[c := w.subs[c].(left := Some(|w.accepted|))]), c)
      else w
    case Close =>
      if w.feed.closed then w
      else w.(feed := AfterClose(w.feed), closing := w.feed.subs,
              subs := map c | c in w.subs :: if c in w.feed.subs then w.subs[c].(left := Some(|w.accepted|)) else w.subs[c])
    case CloseChannel(c) => Closed(w.(closing := w.closing - {c}), c)
  }

  /** Every run: each action enabled when it is taken. */
  predicate Possible(w: World, actions: seq<Action>)
    decreases |actions|
  {
    actions == [] || (Enabled(w, actions[0]) && Possible(Next(w, actions[0]), actions[1..]))
  }

  function RunOf(w: World, actions: seq<Action>): World
    decreases |actions|
  {
    if actions == [] then w else RunOf(Next(w, actions[0]), actions[1..])
  }

  // ---- the invariant ----------------------------------------------------------------

  /** The recent events are the newest accepted ones. */
  ghost predicate RecentIsNewest(w: World) {
    w.feed.recent == Newest(w.accepted, w.buffer) && |w.picked| == |w.accepted|
  }

  /** Who is subscribed, since when and until when. */
  ghost predicate Membership(w: World) {
    && (forall c :: c in w.feed.subs <==> c in w.subs && w.subs[c].left == None)
    && (w.feed.closed ==> w.feed.subs == {})
    && (forall c :: c in w.subs ==>
          && w.subs[c].joined <= |w.accepted|
          && (w.subs[c].left != None ==> w.subs[c].joined <= w.subs[c].left.value <= |w.accepted|)
          && (!w.subs[c].live ==> w.subs[c].left == Some(w.subs[c].joined))
          && w.subs[c].replay == if w.subs[c].live then Newest(w.accepted[..w.subs[c].joined], w.buffer) else [])
  }

  predicate Within(s: Sub, i: nat) {
    s.joined <= i && (s.left == None || i < s.left.value)
  }

  /** An event was picked for exactly the channels subscribed when it was accepted. */
  ghost predicate PickedExactly(w: World) {
    && |w.picked| == |w.accepted|
    && (forall i, c :: 0 <= i < |w.picked| && c in w.picked[i] ==> c in w.subs)
    && (forall i, c :: 0 <= i < |w.picked| && c in w.subs ==> (c in w.picked[i] <==> Within(w.subs[c], i)))
  }

  /** Each channel is closed at most once, and only after it has left. */
  ghost predicate ClosedOnce(w: World) {
    && w.closes.Keys == w.subs.Keys
    && w.closing <= w.subs.Keys && w.closing !! w.feed.subs
    && (forall c :: c in w.closes ==> w.closes[c] <= 1)
    && (forall c :: c in w.feed.subs || c in w.closing ==> c in w.closes && w.closes[c] == 0)
    && (forall c :: c in w.closes && w.closes[c] == 0 ==> c in w.feed.subs || c in w.closing)
    && (w.feed.closed || w.closing == {})
  }

  ghost predicate Streamed(w: World, s: Send) {
    s.channel in w.stream && s.event in w.stream[s.channel]
  }

  ghost predicate Picked(w: World, s: Send) {
    s.event < |w.picked| && s.channel in w.picked[s.event]
  }

  /** Every picked send is pending, dropped or in its channel: exactly one of them, and in the channel once. */
  ghost predicate SentExactlyOnce(w: World) {
    && w.stream.Keys == w.subs.Keys && w.received.Keys == w.subs.Keys
    && (forall s :: Picked(w, s) <==> s in w.pending || s in w.dropped || Streamed(w, s))
    && (forall s :: s in w.pending ==> s !in w.dropped && !Streamed(w, s))
    && (forall s :: s in w.dropped ==> !Streamed(w, s))
    && (forall c :: c in w.stream ==> Distinct(w.stream[c]) && w.received[c] <= |w.stream[c]| <= w.received[c] + CHANNEL_CAPACITY)
  }

  ghost predicate Inv(w: World) {
    RecentIsNewest(w) && Membership(w) && PickedExactly(w) && ClosedOnce(w) && SentExactlyOnce(w)
  }

  // ---- every action keeps it -------------------------------------------------------------

  lemma NewestAppend(log: seq<Event>, e: Event, n: int)
    ensures Newest(Newest(log, n) + [e], n) == Newest(log + [e], n)
  {
  }

  lemma NewestPrefix(log: seq<Event>, e: Event, n: nat)
    requires n <= |log|
    ensures (log + [e])[..n] == log[..n]
  {
  }

  // ... as long as what a part of the invariant speaks about is untouched, it stays

  lemma RecentStays(w: World, v: World)
    requires RecentIsNewest(w)
    requires v.feed.recent == w.feed.recent && v.accepted == w.accepted && v.buffer == w.buffer && v.picked == w.picked
    ensures RecentIsNewest(v)
  {
  }

  lemma MembershipStays(w: World, v: World)
    requires Membership(w)
    requires v.feed.subs == w.feed.subs && v.feed.closed == w.feed.closed && v.subs == w.subs
    requires v.accepted == w.accepted && v.buffer == w.buffer
    ensures Membership(v)
  {
  }

  lemma PickedStays(w: World, v: World)
    requires PickedExactly(w)
    requires v.accepted == w.accepted && v.picked == w.picked && v.subs == w.subs
    ensures PickedExactly(v)
  {
  }

  lemma ClosesStay(w: World, v: World)
    requires ClosedOnce(w)
    requires v.feed.subs == w.feed.subs && v.feed.closed == w.feed.closed && v.subs.Keys == w.subs.Keys
    requires v.closing == w.closing && v.closes == w.closes
    ensures ClosedOnce(v)
  {
  }

  lemma SentStays(w: World, v: World)
    requires SentExactlyOnce(w)
    requires v.subs.Keys == w.subs.Keys && v.picked == w.picked && v.pending == w.pending && v.dropped == w.dropped
    requires v.stream == w.stream && v.received == w.received
    ensures SentExactlyOnce(v)
  {
    hide Distinct;
    forall s: Send ensures Streamed(v, s) == Streamed(w, s) && Picked(v, s) == Picked(w, s) { }
  }

  lemma PublishKeeps(w: World, e: Event)
    requires Inv(w)
    ensures Inv(Next(w, Publish(e)))
  {
    hide RecentIsNewest, Membership, SentExactlyOnce, ClosedOnce, PickedExactly, Newest;
    var v := Next(w, Publish(e));
    if !w.feed.closed {
      PublishRecent(w, e);
      PublishMembership(w, e);
      PublishPicked(w, e);
      PublishSent(w, e);
      ClosesStay(w, v);
    }
  }

  lemma PublishRecent(w: World, e: Event)
    requires RecentIsNewest(w) && !w.feed.closed
    ensures RecentIsNewest(Next(w, Publish(e)))
  {
    NewestAppend(w.accepted, e, w.buffer);
  }

  lemma PublishMembership(w: World, e: Event)
    requires Membership(w) && !w.feed.closed
    ensures Membership(Next(w, Publish(e)))
  {
    hide Newest;
    var v := Next(w, Publish(e));
    forall c | c in v.subs ensures v.accepted[..v.subs[c].joined] == w.accepted[..w.subs[c].joined] {
      NewestPrefix(w.accepted, e, w.subs[c].joined);
    }
  }

  lemma PublishPicked(w: World, e: Event)
    requires PickedExactly(w) && Membership(w) && !w.feed.closed
    ensures PickedExactly(Next(w, Publish(e)))
  {
    hide Newest;
  }

  lemma PublishSent(w: World, e: Event)
    requires SentExactlyOnce(w) && RecentIsNewest(w) && !w.feed.closed
    ensures SentExactlyOnce(Next(w, Publish(e)))
  {
    hide Newest, Distinct;
    var v, n := Next(w, Publish(e)), |w.accepted|;
    forall s: Send
      ensures Picked(v, s) <==> s in v.pending || s in v.dropped || Streamed(v, s)
      ensures s in v.pending ==> s !in v.dropped && !Streamed(v, s)
    {
      assert Streamed(v, s) == Streamed(w, s);
      if s.event == n {
        assert !Picked(w, s);
        assert s in v.pending <==> s.channel in w.feed.subs;
      } else {
        assert Picked(v, s) == Picked(w, s);
      }
    }
  }

  lemma DeliverKeeps(w: World, s: Send)
    requires Inv(w) && Enabled(w, Deliver(s))
    ensures Inv(Next(w, Deliver(s)))
  {
    hide RecentIsNewest, Membership, SentExactlyOnce, ClosedOnce, PickedExactly, Newest;
    var v := Next(w, Deliver(s));
    DeliverSent(w, s);
    RecentStays(w, v);
    MembershipStays(w, v);
    PickedStays(w, v);
    ClosesStay(w, v);
  }

  lemma DeliverSent(w: World, s: Send)
    requires SentExactlyOnce(w) && s in w.pending
    ensures SentExactlyOnce(Next(w, Deliver(s)))
  {
    var v, c := Next(w, Deliver(s)), s.channel;
    if c in w.stream && |w.stream[c]| < w.received[c] + CHANNEL_CAPACITY {
      DeliverPut(w, s);
    } else {
      hide Distinct;
      forall t: Send ensures Streamed(v, t) == Streamed(w, t) && Picked(v, t) == Picked(w, t) { }
    }
  }

  lemma DeliverPut(w: World, s: Send)
    requires SentExactlyOnce(w) && s in w.pending
    requires s.channel in w.stream && |w.stream[s.channel]| < w.received[s.channel] + CHANNEL_CAPACITY
    ensures SentExactlyOnce(Next(w, Deliver(s)))
  {
    hide Distinct;
    var v, c := Next(w, Deliver(s)), s.channel;
    assert v.stream == w.stream[c := w.stream[c] + [s.event]];
    forall t: Send ensures (Streamed(v, t) <==> Streamed(w, t) || t == s) && Picked(v, t) == Picked(w, t) {
      assert t.event in w.stream[c] + [s.event] <==> t.event in w.stream[c] || t.event == s.event;
    }
    assert !Streamed(w, s);
    DistinctAppend(w.stream[c], s.event);
  }

  lemma DistinctAppend(q: seq<nat>, x: nat)
    requires Distinct(q) && x !in q
    ensures Distinct(q + [x])
  {
  }

  lemma ReceiveKeeps(w: World, c: Channel)
    requires Inv(w) && Enabled(w, Receive(c))
    ensures Inv(Next(w, Receive(c)))
  {
    hide RecentIsNewest, Membership, SentExactlyOnce, ClosedOnce, PickedExactly, Newest;
    var v := Next(w, Receive(c));
    ReceiveSent(w, c);
    RecentStays(w, v);
    MembershipStays(w, v);
    PickedStays(w, v);
    ClosesStay(w, v);
  }

  lemma ReceiveSent(w: World, c: Channel)
    requires SentExactlyOnce(w) && Enabled(w, Receive(c))
    ensures SentExactlyOnce(Next(w, Receive(c)))
  {
    hide Distinct;
    var v := Next(w, Receive(c));
    forall s: Send ensures Streamed(v, s) == Streamed(w, s) && Picked(v, s) == Picked(w, s) { }
  }

  lemma SubscribeKeeps(w: World, c: Channel)
    requires Inv(w) && Enabled(w, Subscribe(c))
    ensures Inv(Next(w, Subscribe(c)))
  {
    hide RecentIsNewest, Membership, SentExactlyOnce, ClosedOnce, PickedExactly, Newest;
    RecentStays(w, Next(w, Subscribe(c)));
    SubscribeMembership(w, c);
    SubscribePicked(w, c);
    SubscribeCloses(w, c);
    SubscribeSent(w, c);
  }

  lemma SubscribeMembership(w: World, c: Channel)
    requires Membership(w) && RecentIsNewest(w) && c !in w.subs
    ensures Membership(Next(w, Subscribe(c)))
  {
    hide Newest;
    assert w.accepted[..|w.accepted|] == w.accepted;
  }

  lemma SubscribePicked(w: World, c: Channel)
    requires PickedExactly(w) && c !in w.subs
    ensures PickedExactly(Next(w, Subscribe(c)))
  {
    hide Newest;
  }

  lemma SubscribeCloses(w: World, c: Channel)
    requires ClosedOnce(w) && c !in w.subs
    ensures ClosedOnce(Next(w, Subscribe(c)))
  {
    hide Newest;
  }

  lemma SubscribeSent(w: World, c: Channel)
    requires SentExactlyOnce(w) && PickedExactly(w) && c !in w.subs
    ensures SentExactlyOnce(Next(w, Subscribe(c)))
  {
    hide Newest, Within, Distinct;
    assert Distinct<nat>([]) by { NoneDistinct(); }
    var v := Next(w, Subscribe(c));
    forall s: Send ensures Streamed(v, s) == Streamed(w, s) && Picked(v, s) == Picked(w, s) { }
  }

  lemma NoneDistinct()
    ensures Distinct<nat>([])
  {
  }

  lemma UnsubscribeKeeps(w: World, c: Channel)
    requires Inv(w) && Enabled(w, Unsubscribe(c))
    ensures Inv(Next(w, Unsubscribe(c)))
  {
    hide RecentIsNewest, Membership, SentExactlyOnce, ClosedOnce, PickedExactly, Newest;
    var v := Next(w, Unsubscribe(c));
    RecentStays(w, v);
    UnsubscribeMembership(w, c);
    UnsubscribePicked(w, c);
    UnsubscribeCloses(w, c);
    SentStays(w, v);
  }

  lemma UnsubscribeMembership(w: World, c: Channel)
    requires Membership(w)
    ensures Membership(Next(w, Unsubscribe(c)))
  {
    hide Newest;
  }

  lemma UnsubscribePicked(w: World, c: Channel)
    requires PickedExactly(w) && Membership(w)
    ensures PickedExactly(Next(w, Unsubscribe(c)))
  {
    hide Newest;
  }

  lemma UnsubscribeCloses(w: World, c: Channel)
    requires ClosedOnce(w)
    ensures ClosedOnce(Next(w, Unsubscribe(c)))
  {
    hide Newest;
  }

  lemma CloseKeeps(w: World)
    requires Inv(w)
    ensures Inv(Next(w, Close))
  {
    hide RecentIsNewest, Membership, SentExactlyOnce, ClosedOnce, PickedExactly, Newest;
    var v := Next(w, Close);
    RecentStays(w, v);
    CloseMembership(w);
    ClosePicked(w);
    CloseCloses(w);
    SentStays(w, v);
  }

  lemma CloseMembership(w: World)
    requires Membership(w)
    ensures Membership(Next(w, Close))
  {
    hide Newest;
  }

  lemma ClosePicked(w: World)
    requires PickedExactly(w) && Membership(w)
    ensures PickedExactly(Next(w, Close))
  {
    hide Newest;
  }

  lemma CloseCloses(w: World)
    requires ClosedOnce(w)
    ensures ClosedOnce(Next(w, Close))
  {
    hide Newest;
  }

  lemma CloseChannelKeeps(w: World, c: Channel)
    requires Inv(w) && Enabled(w, CloseChannel(c))
    ensures Inv(Next(w, CloseChannel(c)))
  {
    hide RecentIsNewest, Membership, SentExactlyOnce, ClosedOnce, PickedExactly, Newest;
    var v := Next(w, CloseChannel(c));
    CloseChannelCloses(w, c);
    RecentStays(w, v);
    MembershipStays(w, v);
    PickedStays(w, v);
    SentStays(w, v);
  }

  lemma CloseChannelCloses(w: World, c: Channel)
    requires ClosedOnce(w) && c in w.closing
    ensures ClosedOnce(Next(w, CloseChannel(c)))
  {
    hide Newest;
  }

  lemma ActionKeeps(w: World, a: Action)
    requires Inv(w) && Enabled(w, a)
    ensures Inv(Next(w, a))
  {
    hide Inv, Enabled, Next;
    match a
    case Publish(e) => PublishKeeps(w, e);
    case Deliver(s) => DeliverKeeps(w, s);
    case Receive(c) => ReceiveKeeps(w, c);
    case Subscribe(c) => SubscribeKeeps(w, c);
    case Unsubscribe(c) => UnsubscribeKeeps(w, c);
    case Close => CloseKeeps(w);
    case CloseChannel(c) => CloseChannelKeeps(w, c);
  }

  lemma {:induction false} RunKeeps(w: World, actions: seq<Action>)
    requires Inv(w) && Possible(w, actions)
    ensures Inv(RunOf(w, actions))
    decreases |actions|
  {
    hide Inv, Enabled, Next;
    if actions != [] {
      ActionKeeps(w, actions[0]);
      RunKeeps(Next(w, actions[0]), actions[1..]);
    }
  }

  lemma StartKeeps(buffer: int)
    ensures Inv(Start(buffer))
  {
    assert forall s: Send :: !Picked(Start(buffer), s) && !Streamed(Start(buffer), s);
  }

  /**
    Replay is exact on every run: for a subscription that is still open each
    accepted event was either accepted before it began, and then is in its Recent
    if it was among the last `buffer`, or its publish picked the subscription;
    never both and never neither. Recent is a suffix of what was accepted, as long
    as the buffer allows: of all of it for a new subscriber, and of what had been
    accepted when it joined for each that found the feed open.
   */
  lemma ReplayIsExact(buffer: int, actions: seq<Action>, c: Channel)
    requires Possible(Start(buffer), actions)
    requires c in RunOf(Start(buffer), actions).subs
    ensures var w := RunOf(Start(buffer), actions);
            var s, recent, room := w.subs[c], w.feed.recent, if buffer <= 0 then 0 else buffer;
            && |recent| == (if |w.accepted| <= room then |w.accepted| else room)
            && (forall i :: 0 <= i < |recent| ==> recent[i] == w.accepted[|w.accepted| - |recent| + i])
            && s.joined <= |w.accepted|
            && (s.live ==> |s.replay| == if s.joined <= room then s.joined else room)
            && (!s.live ==> s.replay == [])
            && (forall i :: 0 <= i < |s.replay| ==> s.replay[i] == w.accepted[s.joined - |s.replay| + i])
            && |w.picked| == |w.accepted|
            && (forall i :: 0 <= i < |w.accepted| ==>
                  (c in w.picked[i] <==> s.joined <= i && (s.left == None || i < s.left.value)))
            && (s.left == None ==> forall i :: 0 <= i < |w.accepted| ==> (i < s.joined) != (c in w.picked[i]))
  {
    hide Newest, ClosedOnce, SentExactlyOnce, RunOf, Possible;
    StartKeeps(buffer);
    RunKeeps(Start(buffer), actions);
    BufferStays(Start(buffer), actions);
    SubFacts(RunOf(Start(buffer), actions), c);
  }

  /** What the invariant says of the recent events and of one subscription. */
  lemma SubFacts(w: World, c: Channel)
    requires RecentIsNewest(w) && Membership(w) && PickedExactly(w) && c in w.subs
    ensures var s, recent, room := w.subs[c], w.feed.recent, if w.buffer <= 0 then 0 else w.buffer;
            && |recent| == (if |w.accepted| <= room then |w.accepted| else room)
            && (forall i :: 0 <= i < |recent| ==> recent[i] == w.accepted[|w.accepted| - |recent| + i])
            && s.joined <= |w.accepted|
            && (s.live ==> |s.replay| == if s.joined <= room then s.joined else room)
            && (!s.live ==> s.replay == [])
            && (forall i :: 0 <= i < |s.replay| ==> s.replay[i] == w.accepted[s.joined - |s.replay| + i])
            && |w.picked| == |w.accepted|
            && (forall i :: 0 <= i < |w.accepted| ==>
                  (c in w.picked[i] <==> s.joined <= i && (s.left == None || i < s.left.value)))
            && (s.left == None ==> forall i :: 0 <= i < |w.accepted| ==> (i < s.joined) != (c in w.picked[i]))
  {
    hide Newest;
    NewestIsSuffix(w.accepted, w.buffer);
    NewestIsSuffix(w.accepted[..w.subs[c].joined], w.buffer);
  }

  lemma NewestIsSuffix(log: seq<Event>, n: int)
    ensures var r := Newest(log, n);
            && |r| == (if n <= 0 then 0 else if |log| <= n then |log| else n)
            && forall i :: 0 <= i < |r| ==> r[i] == log[|log| - |r| + i]
  {
  }

  lemma {:induction false} BufferStays(w: World, actions: seq<Action>)
    ensures RunOf(w, actions).buffer == w.buffer
    decreases |actions|
  {
    hide Next;
    if actions != [] {
      BufferStaysOnce(w, actions[0]);
      BufferStays(Next(w, actions[0]), actions[1..]);
    }
  }

  lemma BufferStaysOnce(w: World, a: Action)
    ensures Next(w, a).buffer == w.buffer
  {
  }

  /**
    Nothing is sent twice: the events a channel holds or has handed out are
    distinct, were picked for it, and every other picked one is still pending or
    was dropped; no channel is closed twice.
   */
  lemma SendsAreExact(buffer: int, actions: seq<Action>, c: Channel)
    requires Possible(Start(buffer), actions)
    requires c in RunOf(Start(buffer), actions).subs
    ensures var w := RunOf(Start(buffer), actions);
            && c in w.stream && Distinct(w.stream[c]) && c in w.closes && w.closes[c] <= 1
            && (forall i: nat :: i in w.stream[c] ==> i < |w.picked| && c in w.picked[i])
            && (forall i: nat :: i < |w.picked| && c in w.picked[i] ==>
                  i in w.stream[c] || Send(i, c) in w.pending || Send(i, c) in w.dropped)
            && (forall i: nat :: i in w.stream[c] ==> Send(i, c) !in w.pending && Send(i, c) !in w.dropped)
  {
    hide Newest, Distinct, Within;
    StartKeeps(buffer);
    RunKeeps(Start(buffer), actions);
    var w := RunOf(Start(buffer), actions);
    forall i: nat ensures i in w.stream[c] <==> Streamed(w, Send(i, c)) { }
    forall i: nat ensures i < |w.picked| && c in w.picked[i] <==> Picked(w, Send(i, c)) { }
  }

  /** A send reaches a channel that has room for it, behind what is there, and is dropped only by a full one. */
  lemma DeliverIsExact(w: World, s: Send)
    requires Inv(w) && Enabled(w, Deliver(s))
    ensures var v, c := Next(w, Deliver(s)), s.channel;
            && c in w.stream && c in w.received && v.pending == w.pending - {s}
            && (|w.stream[c]| - w.received[c] < 64 ==> v.dropped == w.dropped && v.stream == w.stream[c := w.stream[c] + [s.event]])
            && (|w.stream[c]| - w.received[c] >= 64 ==> v.dropped == w.dropped + {s} && v.stream == w.stream)
  {
    hide RecentIsNewest, Membership, ClosedOnce, Distinct;
    assert Picked(w, s);
  }

  /** An open feed accepts every event published; a closed one accepts none, whatever happens later. */
  lemma {:induction false} ClosedForGood(w: World, actions: seq<Action>)
    requires w.feed.closed
    ensures RunOf(w, actions).feed.closed && RunOf(w, actions).accepted == w.accepted
    ensures RunOf(w, actions).feed.recent == w.feed.recent
    decreases |actions|
  {
    if actions != [] {
      ClosedOneStep(w, actions[0]);
      hide Next;
      ClosedForGood(Next(w, actions[0]), actions[1..]);
    }
  }

  lemma ClosedOneStep(w: World, a: Action)
    ensures w.feed.closed ==> Next(w, a).feed.closed && Next(w, a).accepted == w.accepted && Next(w, a).feed.recent == w.feed.recent
    ensures !w.feed.closed && a.Publish? ==> Next(w, a).accepted == w.accepted + [a.e]
    ensures !a.Publish? ==> Next(w, a).accepted == w.accepted
    ensures a.Close? && !w.feed.closed ==> Next(w, a).feed.closed && Next(w, a).feed.subs == {}
  {
  }
}
