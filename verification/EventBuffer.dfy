/** The fixed-capacity, sequence-numbered event buffer (internal/runtime/buffer.go). */
module EventBuffer {
  import opened Model

  const DEFAULT_CAPACITY: int := 128

  /** Sequence numbers are 64 bits wide and wrap around. */
  const SEQUENCES: nat := 0x1_0000_0000_0000_0000

  /** `payload` stands for the fields the buffer passes through. */
  datatype Event = Event(sequence: nat, at: Time, payload: string)

  /** The last `n` elements, or all of them. */
  function Last<T>(log: seq<T>, n: nat): seq<T> {
    if |log| <= n then log else log[|log| - n..]
  }

  function After(events: seq<Event>, sequence: nat): seq<Event> {
    if events == [] then []
    else
      var front, e := After(events[..|events| - 1], sequence), events[|events| - 1];
      if e.sequence > sequence then front + [e] else front
  }

  /** Events are numbered from 1 in the order they were appended. */
  ghost predicate Numbered(log: seq<Event>) {
    forall i :: 0 <= i < |log| ==> log[i].sequence == (i + 1) % SEQUENCES
  }

  class EventBuffer {
    const capacity: nat
    var latest: nat
    const events: array<Event>
    var count: nat
    /** Every event ever appended, as it was stored. */
    ghost var log: seq<Event>

    ghost predicate Valid()
      reads this, events
    {
      && capacity > 0 && events.Length == capacity
      && count <= capacity && latest == |log| % SEQUENCES
      && Numbered(log)
      && events[..count] == Last(log, capacity)
    }

    constructor (capacity: int)
      ensures Valid() && log == []
      ensures this.capacity == if capacity <= 0 then DEFAULT_CAPACITY else capacity
      ensures fresh(events)
    {
      var size := if capacity <= 0 then DEFAULT_CAPACITY else capacity;
      this.capacity := size;
      events := new Event[size](_ => Event(0, ZERO_TIME, ""));
      latest, count, log := 0, 0, [];
    }

    /** Numbers and stores an event; when the buffer is full the oldest one is shifted out. */
    method Append(event: Event, now: Time) returns (stored: Event)
      requires Valid()
      modifies this, events
      ensures Valid()
      ensures log == old(log) + [stored]
      ensures stored == Event((|old(log)| + 1) % SEQUENCES, if event.at == ZERO_TIME then now else event.at, event.payload)
    {
      hide Numbered, Last;
      latest := (latest + 1) % SEQUENCES;
      stored := event;
      if event.at == ZERO_TIME {
        stored := stored.(at := now);
      }
      stored := stored.(sequence := latest);
      NumberNext(log, stored, latest);
      LastAppend(log, stored, capacity);
      Store(stored);
      log := log + [stored];
    }

    /** Appends to the array, or shifts it by one and overwrites the last place. */
    method Store(event: Event)
      requires 0 < capacity == events.Length && count <= capacity
      modifies this`count, events
      ensures count == if old(count) == capacity then capacity else old(count) + 1
      ensures count <= capacity
      ensures events[..count] ==
              (if old(count) == capacity then old(events[..count])[1..] else old(events[..count])) + [event]
    {
      if count == capacity {
        forall i | 0 <= i < count - 1 {
          events[i] := events[i + 1];
        }
        events[count - 1] := event;
      } else {
        events[count] := event;
        count := count + 1;
      }
    }

    method LatestSequence() returns (s: nat)
      requires Valid()
      ensures s == |log| % SEQUENCES
    {
      s := latest;
    }

    method Snapshot() returns (out: seq<Event>)
      requires Valid()
      ensures out == Last(log, capacity)
    {
      out := events[..count];
    }

    method Since(sequence: nat) returns (out: seq<Event>)
      requires Valid()
      ensures out == After(Last(log, capacity), sequence)
    {
      out := [];
      if count == 0 { return; }
      for i := 0 to count
        invariant out == After(events[..i], sequence)
      {
        assert events[..i + 1][..i] == events[..i];
        if events[i].sequence > sequence {
          out := out + [events[i]];
        }
      }
    }
  }

  lemma LastAppend<T>(log: seq<T>, e: T, n: nat)
    requires n > 0
    ensures Last(log + [e], n) == if |log| < n then log + [e] else Last(log, n)[1..] + [e]
    ensures |log| < n ==> Last(log, n) == log
    ensures |Last(log, n)| == if |log| < n then |log| else n
  {
  }

  lemma NumberNext(log: seq<Event>, e: Event, number: nat)
    requires Numbered(log) && e.sequence == number == (|log| % SEQUENCES + 1) % SEQUENCES
    ensures Numbered(log + [e]) && number == (|log| + 1) % SEQUENCES
  {
    NextModulo(|log|);
  }

  lemma NextModulo(n: nat)
    ensures (n % SEQUENCES + 1) % SEQUENCES == (n + 1) % SEQUENCES
  {
  }

  /** The numbers as they are before they wrap around. */
  ghost predicate Counted(log: seq<Event>) {
    forall i :: 0 <= i < |log| ==> log[i].sequence == i + 1
  }

  lemma NumberedIsCounted(log: seq<Event>)
    requires Numbered(log) && |log| < SEQUENCES
    ensures Counted(log)
  {
    forall i | 0 <= i < |log| ensures log[i].sequence == i + 1 {
      assert (i + 1) % SEQUENCES == i + 1;
    }
  }

  /** Where the log after `sequence` begins in the window that starts at `from`. */
  function Cut(from: nat, end: nat, sequence: nat): nat
    requires from <= end
  {
    if sequence < from then from else if sequence > end then end else sequence
  }

  lemma {:induction false} AfterCounted(log: seq<Event>, from: nat, sequence: nat)
    requires Counted(log) && from <= |log|
    ensures After(log[from..], sequence) == log[Cut(from, |log|, sequence)..]
    decreases |log|
  {
    hide After, Counted;
    if from == |log| {
      AfterNothing(sequence);
    } else {
      var last := |log| - 1;
      CountedLast(log);
      AfterCounted(log[..last], from, sequence);
      assert log[from..] == log[..last][from..] + [log[last]];
      AfterLast(log[..last][from..], log[last], sequence);
      var c := Cut(from, last, sequence);
      assert log[..last][c..] + [log[last]] == log[c..];
    }
  }

  lemma AfterNothing(sequence: nat)
    ensures After([], sequence) == []
  {
  }

  lemma AfterLast(front: seq<Event>, e: Event, sequence: nat)
    ensures After(front + [e], sequence) == if e.sequence > sequence then After(front, sequence) + [e] else After(front, sequence)
  {
    assert (front + [e])[..|front|] == front;
  }

  lemma CountedLast(log: seq<Event>)
    requires Counted(log) && log != []
    ensures Counted(log[..|log| - 1]) && log[|log| - 1].sequence == |log|
  {
  }

  /**
    As long as sequence numbers have not wrapped around, the buffer refines the
    unbounded log: Since(s) is the log after s exactly when nothing after s has
    been shifted out.
   */
  lemma SinceIsLogSuffix(log: seq<Event>, capacity: nat, s: nat)
    requires Numbered(log) && |log| < SEQUENCES && capacity > 0 && s <= |log|
    ensures After(Last(log, capacity), s) == log[s..] <==> s >= |log| - capacity
    ensures s < |log| - capacity ==> After(Last(log, capacity), s) == Last(log, capacity)
  {
    var from := if |log| <= capacity then 0 else |log| - capacity;
    assert Last(log, capacity) == log[from..];
    NumberedIsCounted(log);
    AfterCounted(log, from, s);
    if s < from { assert |log[from..]| != |log[s..]|; }
  }

  /** The buffer holds the newest min(n, capacity) events, numbered consecutively up to n. */
  lemma WindowIsConsecutive(log: seq<Event>, capacity: nat)
    requires Numbered(log) && |log| < SEQUENCES
    ensures var w := Last(log, capacity);
            && |w| == (if |log| < capacity then |log| else capacity)
            && forall i :: 0 <= i < |w| ==> w[i].sequence == |log| - |w| + i + 1
  {
    NumberedIsCounted(log);
  }
}
