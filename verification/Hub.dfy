/** Publishing to late and early subscribers (internal/event/hub.go). */
module Hub {
  import opened Model

  datatype Event = Event(payload: string)

  const DEFAULT_BUFFER: int := 32
  const CHANNEL_CAPACITY: nat := 64

  /** A session's feed: the newest events, the channels of its subscribers, and whether it is closed. */
  datatype FeedState<C(==)> = FeedState(recent: seq<Event>, subs: set<C>, closed: bool)

  /** The last `n` events, or all there are. */
  function Newest(log: seq<Event>, n: int): seq<Event> {
    if n <= 0 then [] else if |log| <= n then log else log[|log| - n..]
  }

  // ---- the critical sections, as functions ------------------------------------------

  function AfterPublish<C>(buffer: int, f: FeedState<C>, e: Event): FeedState<C> {
    if f.closed then f else f.(recent := Newest(f.recent + [e], buffer))
  }

  function AfterSubscribe<C>(f: FeedState<C>, c: C): FeedState<C> {
    if f.closed then f else f.(subs := f.subs + {c})
  }

  function AfterUnsubscribe<C>(f: FeedState<C>, c: C): FeedState<C> {
    f.(subs := f.subs - {c})
  }

  function AfterClose<C>(f: FeedState<C>): FeedState<C> {
    f.(subs := {}, closed := true)
  }

  // ---- the program ------------------------------------------------------------------

  /** A buffered channel. */
  class Channel {
    var queue: seq<Event>
    var open: bool

    constructor ()
      ensures queue == [] && open
    {
      queue, open := [], true;
    }

    /** A send that does not block: a full channel drops the event. */
    method TrySend(e: Event)
      requires open
      modifies this
      ensures open == old(open)
      ensures queue == if |old(queue)| < CHANNEL_CAPACITY then old(queue) + [e] else old(queue)
    {
      if |queue| < CHANNEL_CAPACITY {
        queue := queue + [e];
      }
    }

    /** Closing is allowed once. */
    method Close()
      requires open
      modifies this
      ensures !open && queue == old(queue)
    {
      open := false;
    }
  }

  class SessionFeed {
    var recent: seq<Event>
    var subs: set<Channel>
    const buffer: int
    var closed: bool

    constructor (buffer: int)
      ensures this.buffer == buffer && View() == FeedState([], {}, false)
    {
      this.buffer := buffer;
      recent, subs, closed := [], {}, false;
    }

    ghost function View(): FeedState<Channel>
      reads this
    {
      FeedState(recent, subs, closed)
    }

    /** Subscribed channels are open; a closed feed has none; the recent events fit the buffer. */
    ghost predicate Valid()
      reads this, subs
    {
      (forall c :: c in subs ==> c.open) && (closed ==> subs == {}) && (buffer <= 0 ==> recent == [])
    }

    /** The locked part of publish: the event is stored and the channels to send to are picked. */
    method PublishLocked(e: Event) returns (accepted: bool, targets: set<Channel>)
      requires Valid()
      modifies this`recent
      ensures Valid() && View() == AfterPublish(buffer, old(View()), e)
      ensures accepted == !closed && targets == subs
      ensures closed || buffer <= 0 ==> recent == old(recent)
      ensures !closed && buffer > 0 ==>
        && |recent| == (if |old(recent)| < buffer then |old(recent)| + 1 else buffer)
        && recent[|recent| - 1] == e
        && forall i :: 0 <= i < |recent| - 1 ==> recent[i] == old(recent)[|old(recent)| + 1 - |recent| + i]
    {
      targets := subs;
      if closed { return false, targets; }
      if buffer > 0 {
        recent := recent + [e];
        if |recent| > buffer {
          var drop := |recent| - buffer;
          recent := recent[drop..];
        }
      }
      accepted := true;
    }

    /** publish, when nothing happens between its two parts. */
    method Publish(e: Event)
      requires Valid()
      modifies this`recent, subs
      ensures Valid() && View() == AfterPublish(buffer, old(View()), e)
      ensures forall c :: c in subs ==>
        c.queue == if |old(c.queue)| < CHANNEL_CAPACITY then old(c.queue) + [e] else old(c.queue)
    {
      var accepted, targets := PublishLocked(e);
      if !accepted { return; }
      var todo := targets;
      while todo != {}
        invariant todo <= subs && Valid() && View() == AfterPublish(buffer, old(View()), e)
        invariant forall c :: c in todo ==> c.queue == old(c.queue)
        invariant forall c :: c in subs - todo ==>
          c.queue == if |old(c.queue)| < CHANNEL_CAPACITY then old(c.queue) + [e] else old(c.queue)
        decreases todo
      {
        var c :| c in todo;
        todo := todo - {c};
        c.TrySend(e);
      }
    }

    method Snapshot() returns (out: seq<Event>)
      ensures out == recent
    {
      out := recent;
    }

    /** A new channel and the events it has missed; on a closed feed the channel is closed at once. */
    method Subscribe() returns (replay: seq<Event>, ch: Channel)
      requires Valid()
      modifies this`subs
      ensures Valid() && fresh(ch) && ch.queue == []
      ensures View() == AfterSubscribe(old(View()), ch)
      ensures ch.open == !closed
      ensures replay == if closed then [] else recent
    {
      ch := new Channel();
      if closed {
        ch.Close();
        return [], ch;
      }
      replay := recent;
      subs := subs + {ch};
    }

    /** The close closure of a subscription. */
    method Unsubscribe(ch: Channel)
      requires Valid()
      modifies this`subs, ch
      ensures Valid() && View() == AfterUnsubscribe(old(View()), ch)
      ensures ch.open == (old(ch.open) && ch !in old(subs)) && ch.queue == old(ch.queue)
    {
      if ch in subs {
        subs := subs - {ch};
        ch.Close();
      }
    }

    /** Closes the feed and every channel still subscribed, once. */
    method Close()
      requires Valid()
      modifies this, subs
      ensures Valid() && View() == AfterClose(old(View()))
      ensures forall c :: c in old(subs) ==> !c.open && c.queue == old(c.queue)
    {
      if closed { return; }
      closed := true;
      var targets := subs;
      subs := {};
      var todo := targets;
      while todo != {}
        invariant todo <= targets && View() == AfterClose(old(View()))
        invariant forall c :: c in targets ==> c.queue == old(c.queue)
        invariant forall c :: c in todo ==> c.open
        invariant forall c :: c in targets - todo ==> !c.open
        decreases todo
      {
        var c :| c in todo;
        todo := todo - {c};
        c.Close();
      }
    }
  }

  class Hub {
    var feeds: map<string, SessionFeed>
    const buffer: int

    constructor (buffer: int)
      ensures feeds == map[] && this.buffer == if buffer <= 0 then DEFAULT_BUFFER else buffer
    {
      feeds := map[];
      this.buffer := if buffer <= 0 then DEFAULT_BUFFER else buffer;
    }

    /** Sessions have feeds and channels of their own. */
    ghost predicate Valid()
      reads this, feeds.Values, set f, c | f in feeds.Values && c in f.subs :: c
    {
      && (forall id :: id in feeds ==> feeds[id].Valid())
      && (forall id, other :: id in feeds && other in feeds && id != other ==>
            feeds[id] != feeds[other] && feeds[id].subs !! feeds[other].subs)
    }

    /** The feed of a session and the channels subscribed to it. */
    ghost function Touched(id: string): set<object>
      reads this, feeds.Values
    {
      if id in feeds then (set c: object | c in feeds[id].subs) + {feeds[id]} else {}
    }

    /** The feed of a session, created on first use. */
    method Feed(id: string) returns (f: SessionFeed)
      requires Valid()
      modifies this`feeds
      ensures Valid() && feeds == old(feeds)[id := f]
      ensures id in old(feeds) ==> f == old(feeds)[id]
      ensures id !in old(feeds) ==> fresh(f) && f.buffer == buffer && f.View() == FeedState([], {}, false)
    {
      if id in feeds { return feeds[id]; }
      f := new SessionFeed(buffer);
      feeds := feeds[id := f];
    }

    /** Only the session's own feed and channels can change. */
    method Publish(id: string, e: Event)
      requires Valid()
      modifies this`feeds, Touched(id)
      ensures Valid()
      ensures id == "" ==> feeds == old(feeds) && (id in feeds ==> feeds[id].View() == old(feeds[id].View()))
      ensures id != "" ==> id in feeds && feeds == old(feeds)[id := feeds[id]]
      ensures id != "" && id in old(feeds) ==>
        && feeds[id] == old(feeds)[id] && feeds[id].View() == AfterPublish(feeds[id].buffer, old(feeds[id].View()), e)
        && forall c :: c in feeds[id].subs ==>
             c.queue == if |old(c.queue)| < CHANNEL_CAPACITY then old(c.queue) + [e] else old(c.queue)
      ensures id != "" && id !in old(feeds) ==> feeds[id].View() == AfterPublish(buffer, FeedState([], {}, false), e)
    {
      if id == "" { return; }
      var f := Feed(id);
      f.Publish(e);
    }

    method Snapshot(id: string) returns (out: seq<Event>)
      requires Valid()
      modifies this`feeds
      ensures Valid() && id in feeds && feeds == old(feeds)[id := feeds[id]]
      ensures out == if id in old(feeds) then old(feeds)[id].recent else []
    {
      var f := Feed(id);
      out := f.Snapshot();
    }

    /** A subscription to the session's feed; other sessions do not notice. */
    method Subscribe(id: string) returns (replay: seq<Event>, ch: Channel)
      requires Valid()
      modifies this`feeds, Touched(id)
      ensures Valid() && id in feeds && feeds == old(feeds)[id := feeds[id]]
      ensures fresh(ch) && ch.queue == []
      ensures id in old(feeds) ==>
        && feeds[id] == old(feeds)[id] && feeds[id].View() == AfterSubscribe(old(feeds[id].View()), ch)
        && ch.open == !feeds[id].closed && replay == if feeds[id].closed then [] else feeds[id].recent
      ensures id !in old(feeds) ==> feeds[id].View() == FeedState([], {ch}, false) && replay == [] && ch.open
    {
      var f := Feed(id);
      replay, ch := f.Subscribe();
    }

    /** Forgets the feed, then closes it; a later subscriber gets a new feed. */
    method Close(id: string)
      requires Valid()
      modifies this`feeds, Touched(id)
      ensures Valid() && feeds == old(feeds) - {id}
      ensures id in old(feeds) ==>
        var f := old(feeds)[id];
        f.View() == AfterClose(old(f.View())) && forall c :: c in old(f.subs) ==> !c.open
    {
      if id in feeds {
        var f := feeds[id];
        feeds := feeds - {id};
        f.Close();
      } else {
        assert feeds - {id} == feeds;
      }
    }
  }
}
