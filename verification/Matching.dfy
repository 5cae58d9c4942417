/**
  The greedy match of managed sessions to discovered ones inside one workspace,
  on creation times only: `ms[i]` may be bound to `cs[j]` when the discovered
  session was created between 30 seconds before and 20 minutes after it.
 */
module Matching {
  import opened Model

  const SKEW: int := 30 * SECOND
  const WINDOW: int := 20 * MINUTE

  type Slot = s: int | -1 <= s

  predicate InWindow(m: Time, c: Time) {
    m - SKEW <= c <= m + WINDOW
  }

  predicate Ascending(s: seq<Time>) {
    forall i, j :: 0 <= i < j < |s| ==> s[i] <= s[j]
  }

  /** The first index from `from` on that is unused and inside the window of `m`, or -1. */
  function FirstFree(m: Time, cs: seq<Time>, used: set<int>, from: nat): (j: Slot)
    requires from <= |cs|
    ensures j >= 0 ==> from <= j < |cs| && j !in used && InWindow(m, cs[j])
    ensures j >= 0 ==> forall k :: from <= k < j && k !in used ==> !InWindow(m, cs[k])
    ensures j < 0 ==> forall k :: from <= k < |cs| && k !in used ==> !InWindow(m, cs[k])
    decreases |cs| - from
  {
    if from == |cs| then -1
    else if from !in used && InWindow(m, cs[from]) then from
    else FirstFree(m, cs, used, from + 1)
  }

  function Consume(used: set<int>, j: Slot): set<int> {
    if j < 0 then used else used + {j}
  }

  /**
    The specification of the match: every managed session in turn takes the
    first candidate of the whole list that is eligible and not yet consumed.
   */
  function FullScan(ms: seq<Time>, cs: seq<Time>, used: set<int>): (a: seq<Slot>)
    ensures |a| == |ms|
  {
    if ms == [] then []
    else
      var j := FirstFree(ms[0], cs, used, 0);
      [j] + FullScan(ms[1..], cs, Consume(used, j))
  }

  /** Moving the cursor: the position behind slot `j`. */
  function Advance(cursor: nat, j: Slot): nat {
    if j < 0 then cursor else j + 1
  }

  /** The program's form: the scan starts at a cursor and keeps no set of used indices. */
  function CursorScan(ms: seq<Time>, cs: seq<Time>, cursor: nat): (a: seq<Slot>)
    requires cursor <= |cs|
    ensures |a| == |ms|
  {
    if ms == [] then []
    else
      var j := FirstFree(ms[0], cs, {}, cursor);
      [j] + CursorScan(ms[1..], cs, Advance(cursor, j))
  }

  /** Everything before the cursor is consumed or too old for all sessions still to come. */
  ghost predicate CursorCovers(ms: seq<Time>, cs: seq<Time>, used: set<int>, cursor: nat) {
    && cursor <= |cs|
    && (forall j :: j in used ==> 0 <= j < cursor)
    && (forall i, j :: 0 <= i < |ms| && 0 <= j < cursor && j !in used ==> cs[j] < ms[i] - SKEW)
  }

  lemma CursorCoversNext(ms: seq<Time>, cs: seq<Time>, used: set<int>, cursor: nat)
    requires ms != [] && Ascending(ms) && Ascending(cs) && CursorCovers(ms, cs, used, cursor)
    ensures FirstFree(ms[0], cs, used, 0) == FirstFree(ms[0], cs, {}, cursor)
    ensures var j := FirstFree(ms[0], cs, {}, cursor);
            CursorCovers(ms[1..], cs, Consume(used, j), Advance(cursor, j))
  {
    var a, b := FirstFree(ms[0], cs, used, 0), FirstFree(ms[0], cs, {}, cursor);
    assert a >= 0 ==> cursor <= a && InWindow(ms[0], cs[a]);
    assert b >= 0 ==> b !in used && InWindow(ms[0], cs[b]);
    if b >= 0 {
      forall i, j | 0 <= i < |ms[1..]| && 0 <= j < b + 1 && j !in Consume(used, b)
        ensures cs[j] < ms[1..][i] - SKEW
      {
        assert ms[1..][i] == ms[i + 1] >= ms[0];
        if j >= cursor {
          assert !InWindow(ms[0], cs[j]) && cs[j] <= cs[b];
        }
      }
    }
  }

  /**
    The moving cursor loses nothing: on lists sorted by time it finds for each
    session exactly what a scan of the whole list would.
   */
  lemma {:induction false} CursorIsFullScan(ms: seq<Time>, cs: seq<Time>, used: set<int>, cursor: nat)
    requires Ascending(ms) && Ascending(cs) && CursorCovers(ms, cs, used, cursor)
    ensures CursorScan(ms, cs, cursor) == FullScan(ms, cs, used)
  {
    if ms != [] {
      CursorCoversNext(ms, cs, used, cursor);
      var j := FirstFree(ms[0], cs, {}, cursor);
      CursorIsFullScan(ms[1..], cs, Consume(used, j), Advance(cursor, j));
    }
  }

  /** The sessions that got a candidate, the first of them being number `base`. */
  function MatchedFrom(a: seq<Slot>, base: nat): set<int> {
    set i | base <= i < base + |a| && HitAt(a, base, i)
  }

  predicate HitAt(a: seq<Slot>, base: nat, i: int) {
    base <= i < base + |a| && a[i - base] >= 0
  }

  function CountMatched(a: seq<Slot>): nat {
    if a == [] then 0 else (if a[0] >= 0 then 1 else 0) + CountMatched(a[1..])
  }

  lemma {:induction false} CountMatchedIsSize(a: seq<Slot>, base: nat)
    ensures |MatchedFrom(a, base)| == CountMatched(a)
  {
    if a == [] {
      assert MatchedFrom(a, base) == {};
    } else {
      CountMatchedIsSize(a[1..], base + 1);
      var first: set<int> := if a[0] >= 0 then {base} else {};
      assert MatchedFrom(a, base) == MatchedFrom(a[1..], base + 1) + first;
    }
  }

  /** Matched pairs follow the order of both lists: they never cross and never share a candidate. */
  lemma {:induction false} NeverCross(ms: seq<Time>, cs: seq<Time>, cursor: nat)
    requires cursor <= |cs|
    ensures var a := CursorScan(ms, cs, cursor);
            && (forall i :: 0 <= i < |a| && a[i] >= 0 ==> cursor <= a[i] < |cs| && InWindow(ms[i], cs[a[i]]))
            && (forall i, k :: 0 <= i < k < |a| && a[i] >= 0 && a[k] >= 0 ==> a[i] < a[k])
  {
    if ms != [] {
      var j := FirstFree(ms[0], cs, {}, cursor);
      NeverCross(ms[1..], cs, Advance(cursor, j));
      var a, rest := CursorScan(ms, cs, cursor), CursorScan(ms[1..], cs, Advance(cursor, j));
      forall i | 0 <= i < |a| && a[i] >= 0
        ensures cursor <= a[i] < |cs| && InWindow(ms[i], cs[a[i]])
      {
        if i > 0 { assert a[i] == rest[i - 1] && ms[i] == ms[1..][i - 1]; }
      }
      forall i, k | 0 <= i < k < |a| && a[i] >= 0 && a[k] >= 0 ensures a[i] < a[k] {
        assert a[k] == rest[k - 1];
        if i > 0 { assert a[i] == rest[i - 1]; }
      }
    }
  }

  /** The slots given to the sessions before the i-th. */
  function Taken(a: seq<Slot>, i: nat): set<int>
    requires i <= |a|
  {
    set k | 0 <= k < i && a[k] >= 0 :: a[k]
  }

  /** Session by session: the i-th takes the first eligible candidate nobody before it took. */
  lemma {:induction false} FullScanAt(ms: seq<Time>, cs: seq<Time>, used: set<int>, i: nat)
    requires i < |ms|
    ensures FullScan(ms, cs, used)[i] == FirstFree(ms[i], cs, used + Taken(FullScan(ms, cs, used), i), 0)
  {
    var a := FullScan(ms, cs, used);
    if i == 0 {
      assert used + Taken(a, 0) == used;
    } else {
      var used' := Consume(used, a[0]);
      var rest := FullScan(ms[1..], cs, used');
      FullScanAt(ms[1..], cs, used', i - 1);
      assert used + Taken(a, i) == used' + Taken(rest, i - 1) by {
        forall x | x in Taken(a, i) ensures x in used' + Taken(rest, i - 1) {
          var k :| 0 <= k < i && a[k] >= 0 && a[k] == x;
          if k > 0 { assert rest[k - 1] == x; }
        }
        forall x | x in Taken(rest, i - 1) ensures x in Taken(a, i) {
          var k :| 0 <= k < i - 1 && rest[k] >= 0 && rest[k] == x;
          assert a[k + 1] == x;
        }
      }
    }
  }

  /** What greedy leaves over: an unmatched session has no unmatched candidate in its window. */
  lemma {:induction false} NothingLeftOver(ms: seq<Time>, cs: seq<Time>, used: set<int>)
    ensures var a := FullScan(ms, cs, used);
            forall i, j :: 0 <= i < |ms| && a[i] < 0 && 0 <= j < |cs| && j !in used && j !in a
                           ==> !InWindow(ms[i], cs[j])
  {
    if ms != [] {
      var f := FirstFree(ms[0], cs, used, 0);
      var a, rest := FullScan(ms, cs, used), FullScan(ms[1..], cs, Consume(used, f));
      NothingLeftOver(ms[1..], cs, Consume(used, f));
      forall i, j | 0 <= i < |ms| && a[i] < 0 && 0 <= j < |cs| && j !in used && j !in a
        ensures !InWindow(ms[i], cs[j])
      {
        if i > 0 {
          assert a[i] == rest[i - 1] && ms[i] == ms[1..][i - 1];
          assert a == [f] + rest;
        }
      }
    }
  }

  /**
    Any way of giving sessions (numbered from `base`) candidates from the cursor
    on, one each, inside their windows.
   */
  ghost predicate Assignment(f: map<int, int>, base: nat, ms: seq<Time>, cs: seq<Time>, cursor: nat) {
    && (forall i :: i in f ==> base <= i < base + |ms|)
    && (forall i :: i in f ==> cursor <= f[i] < |cs| && InWindow(ms[i - base], cs[f[i]]))
    && (forall i, k :: i in f && k in f && f[i] == f[k] ==> i == k)
  }

  lemma RemoveSize(f: map<int, int>, x: int)
    ensures |f| <= |f - {x}| + 1
  {
    assert (f - {x}).Keys == f.Keys - {x};
    assert |f| == |f.Keys| && |f - {x}| == |(f - {x}).Keys|;
    if x in f { assert |f.Keys - {x}| == |f.Keys| - 1; } else { assert f.Keys - {x} == f.Keys; }
  }

  /** Nothing an assignment uses lies before the slot greedy gives the first session. */
  lemma BehindSlot(f: map<int, int>, base: nat, ms: seq<Time>, cs: seq<Time>, cursor: nat, j: nat)
    requires ms != [] && Ascending(ms) && Ascending(cs) && cursor <= |cs| && Assignment(f, base, ms, cs, cursor)
    requires j == FirstFree(ms[0], cs, {}, cursor)
    ensures forall i :: i in f ==> j <= f[i]
  {
    forall i | i in f ensures j <= f[i] {
      assert ms[0] <= ms[i - base];
    }
  }

  /**
    The exchange step: when the first session takes slot `j`, any assignment can
    be turned into one for the other sessions, behind `j`, that lost one pair at most.
   */
  lemma Exchange(f: map<int, int>, base: nat, ms: seq<Time>, cs: seq<Time>, cursor: nat, j: nat)
    returns (g: map<int, int>)
    requires ms != [] && Ascending(ms) && Ascending(cs) && cursor <= |cs| && Assignment(f, base, ms, cs, cursor)
    requires j == FirstFree(ms[0], cs, {}, cursor)
    ensures Assignment(g, base + 1, ms[1..], cs, j + 1)
    ensures |f| <= |g| + 1
  {
    BehindSlot(f, base, ms, cs, cursor, j);
    hide FirstFree, InWindow;
    if i :| i in f && f[i] == j {
      g := if base in f && i != base then (f - {base})[i := f[base]] else f - {i};
      if base in f && i != base {
        HandOver(f, base, ms, cs, i);
      } else {
        RemoveSize(f, i);
      }
    } else {
      RemoveSize(f, base);
      g := f - {base};
    }
    Shift(g, base, ms, cs, j + 1);
  }

  /** Dropping the first session from an assignment that does not use it. */
  lemma Shift(g: map<int, int>, base: nat, ms: seq<Time>, cs: seq<Time>, cursor: nat)
    requires ms != [] && base !in g
    requires Assignment(g, base, ms, cs, 0)
    requires forall i :: i in g ==> cursor <= g[i]
    ensures Assignment(g, base + 1, ms[1..], cs, cursor)
  {
    forall i | i in g ensures InWindow(ms[1..][i - (base + 1)], cs[g[i]]) {
      assert ms[1..][i - (base + 1)] == ms[i - base];
    }
  }

  /** Session `i` gives up its candidate, the earliest one in use, and takes over the first session's. */
  lemma HandOver(f: map<int, int>, base: nat, ms: seq<Time>, cs: seq<Time>, i: int)
    requires Ascending(ms) && Ascending(cs) && Assignment(f, base, ms, cs, 0)
    requires base in f && i in f && i != base
    requires forall k :: k in f ==> f[i] <= f[k]
    ensures var g := (f - {base})[i := f[base]];
            Assignment(g, base, ms, cs, 0) && (forall k :: k in g ==> f[i] < g[k]) && |f| <= |g| + 1
  {
    RemoveSize(f, base);
    var g := (f - {base})[i := f[base]];
    assert g.Keys == (f - {base}).Keys;
    assert |g| == |g.Keys| && |f - {base}| == |(f - {base}).Keys|;
    assert InWindow(ms[i - base], cs[f[base]]) by {
      assert ms[0] <= ms[i - base] && cs[f[i]] <= cs[f[base]];
      assert InWindow(ms[i - base], cs[f[i]]) && InWindow(ms[0], cs[f[base]]);
    }
  }

  /** Greedy is optimal: no assignment binds more sessions. */
  lemma {:induction false} GreedyIsMaximum(f: map<int, int>, base: nat, ms: seq<Time>, cs: seq<Time>, cursor: nat)
    requires Ascending(ms) && Ascending(cs) && cursor <= |cs| && Assignment(f, base, ms, cs, cursor)
    ensures |f| <= CountMatched(CursorScan(ms, cs, cursor))
    decreases |ms|
  {
    if ms == [] {
      assert forall i :: i !in f;
      assert f == map[];
    } else {
      var j := FirstFree(ms[0], cs, {}, cursor);
      var a := CursorScan(ms, cs, cursor);
      assert a[0] == j && a[1..] == CursorScan(ms[1..], cs, Advance(cursor, j));
      if j >= 0 {
        var g := Exchange(f, base, ms, cs, cursor, j);
        GreedyIsMaximum(g, base + 1, ms[1..], cs, j + 1);
      } else {
        assert base !in f;
        Shift(f, base, ms, cs, cursor);
        GreedyIsMaximum(f, base + 1, ms[1..], cs, cursor);
      }
    }
  }
}
