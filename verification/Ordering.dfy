/** Stable sorting (sort.SliceStable) and what a sorted sequence is determined by. */
module Ordering {

  ghost predicate StrictWeakOrder<T(!new)>(less: (T, T) -> bool) {
    && (forall a, b :: less(a, b) ==> !less(b, a))
    && (forall a, b, c :: less(a, b) && less(b, c) ==> less(a, c))
    && (forall a, b, c :: !less(a, b) && !less(b, c) ==> !less(a, c))
  }

  ghost predicate Sorted<T>(less: (T, T) -> bool, s: seq<T>) {
    forall i, j :: 0 <= i < j < |s| ==> !less(s[j], s[i])
  }

  /** Distinct elements of `s` are never ties. */
  ghost predicate NoTies<T>(less: (T, T) -> bool, s: seq<T>) {
    forall x, y :: x in s && y in s && x != y ==> less(x, y) || less(y, x)
  }

  /** Puts `x` behind everything it is not less than. */
  function Insert<T>(less: (T, T) -> bool, x: T, s: seq<T>): (r: seq<T>)
    ensures multiset(r) == multiset(s) + multiset{x}
  {
    if s == [] then [x]
    else
      var last := |s| - 1;
      assert s == s[..last] + [s[last]];
      if less(x, s[last]) then Insert(less, x, s[..last]) + [s[last]] else s + [x]
  }

  function StableSort<T>(less: (T, T) -> bool, s: seq<T>): (r: seq<T>)
    ensures multiset(r) == multiset(s)
    ensures |r| == |s|
  {
    if s == [] then []
    else
      var last := |s| - 1;
      assert s == s[..last] + [s[last]];
      var r := Insert(less, s[last], StableSort(less, s[..last]));
      assert |r| == |multiset(r)| && |s| == |multiset(s)|;
      r
  }

  lemma {:induction false} InsertSorted<T(!new)>(less: (T, T) -> bool, x: T, s: seq<T>)
    requires StrictWeakOrder(less) && Sorted(less, s)
    ensures Sorted(less, Insert(less, x, s))
  {
    if s != [] {
      var last := |s| - 1;
      if less(x, s[last]) {
        var front := Insert(less, x, s[..last]);
        InsertSorted(less, x, s[..last]);
        forall i | 0 <= i < |front| ensures !less(s[last], front[i]) {
          assert front[i] in multiset(front);
          assert front[i] in multiset(s[..last]) + multiset{x};
          if front[i] != x {
            assert front[i] in s[..last];
          }
        }
      } else {
        forall i | 0 <= i < |s| ensures !less(x, s[i]) {
          if i < last { assert !less(s[last], s[i]); }
        }
      }
    }
  }

  lemma {:induction false} StableSortSorts<T(!new)>(less: (T, T) -> bool, s: seq<T>)
    requires StrictWeakOrder(less)
    ensures Sorted(less, StableSort(less, s))
  {
    if s != [] {
      var last := |s| - 1;
      StableSortSorts(less, s[..last]);
      InsertSorted(less, s[last], StableSort(less, s[..last]));
    }
  }

  /** The last element of a sorted sequence is the greatest of its multiset. */
  lemma LastAgrees<T>(less: (T, T) -> bool, a: seq<T>, b: seq<T>)
    requires Sorted(less, a) && Sorted(less, b) && NoTies(less, a)
    requires multiset(a) == multiset(b) && a != [] && b != []
    ensures a[|a| - 1] == b[|b| - 1]
  {
    var x, y := a[|a| - 1], b[|b| - 1];
    assert x in multiset(b) && y in multiset(a);
    assert x in b && y in a && x in a;
    var i :| 0 <= i < |b| && b[i] == x;
    var j :| 0 <= j < |a| && a[j] == y;
    assert i == |b| - 1 || !less(y, x);
    assert j == |a| - 1 || !less(x, y);
  }

  lemma DropLast<T>(a: seq<T>)
    requires a != []
    ensures multiset(a[..|a| - 1]) == multiset(a) - multiset{a[|a| - 1]}
  {
    assert a == a[..|a| - 1] + [a[|a| - 1]];
  }

  lemma PrefixSorted<T>(less: (T, T) -> bool, a: seq<T>, n: nat)
    requires Sorted(less, a) && n <= |a|
    ensures Sorted(less, a[..n])
  {
  }

  lemma PrefixNoTies<T>(less: (T, T) -> bool, a: seq<T>, n: nat)
    requires NoTies(less, a) && n <= |a|
    ensures NoTies(less, a[..n])
  {
    forall x, y | x in a[..n] && y in a[..n] && x != y ensures less(x, y) || less(y, x) {
      assert x in a && y in a;
    }
  }

  /** Without ties, the multiset of elements determines the sorted sequence. */
  lemma {:induction false} SortedUnique<T>(less: (T, T) -> bool, a: seq<T>, b: seq<T>)
    requires Sorted(less, a) && Sorted(less, b) && NoTies(less, a)
    requires multiset(a) == multiset(b)
    ensures a == b
  {
    hide Sorted, NoTies;
    assert |a| == |multiset(a)| && |b| == |multiset(b)|;
    if a != [] {
      LastAgrees(less, a, b);
      DropLast(a);
      DropLast(b);
      PrefixNoTies(less, a, |a| - 1);
      PrefixSorted(less, a, |a| - 1);
      PrefixSorted(less, b, |b| - 1);
      SortedUnique(less, a[..|a| - 1], b[..|b| - 1]);
      calc {
        a;
        a[..|a| - 1] + [a[|a| - 1]];
        b[..|b| - 1] + [b[|b| - 1]];
        b;
      }
    }
  }

  /** The elements of a set in some order. */
  ghost function Listing<T>(s: set<T>): (r: seq<T>)
    ensures multiset(r) == multiset(s)
  {
    if s == {} then [] else
      var x :| x in s;
      assert multiset(s) == multiset(s - {x}) + multiset{x};
      [x] + Listing(s - {x})
  }

  ghost predicate Distinct<T>(s: seq<T>) {
    forall i, j :: 0 <= i < j < |s| ==> s[i] != s[j]
  }

  lemma TwiceCounts<T>(q: seq<T>, i: nat, j: nat)
    requires i < j < |q| && q[i] == q[j]
    ensures multiset(q)[q[i]] >= 2
  {
    assert q == q[..j] + q[j..];
    assert q[i] in q[..j] && q[j] == q[j..][0];
    assert multiset(q) == multiset(q[..j]) + multiset(q[j..]);
    assert q[i] in multiset(q[..j]) && q[j] in multiset(q[j..]);
  }

  /** A listing of a set has exactly its elements, each once. */
  lemma ListsSet<T>(q: seq<T>, s: set<T>)
    requires multiset(q) == multiset(s)
    ensures forall x :: x in q <==> x in s
    ensures forall i, j :: 0 <= i < j < |q| ==> q[i] != q[j]
  {
    forall x ensures x in q <==> x in s {
      assert x in q <==> x in multiset(q);
      assert x in s <==> x in multiset(s);
    }
    forall i, j | 0 <= i < j < |q| ensures q[i] != q[j] {
      if q[i] == q[j] { TwiceCounts(q, i, j); }
    }
  }

  lemma SubsetSize<T>(a: set<T>, b: set<T>)
    requires a <= b
    ensures |a| <= |b|
  {
    assert b == a + (b - a);
  }

  lemma UnionSize<T>(a: set<T>, b: set<T>)
    ensures |a + b| <= |a| + |b|
  {
    assert a + b == a + (b - a);
    assert |a + (b - a)| == |a| + |b - a|;
    SubsetSize(b - a, b);
  }

  // ---- stability --------------------------------------------------------------------------------

  /** The elements with a property, in order. */
  function Those<T>(p: T -> bool, s: seq<T>): seq<T>
    decreases |s|
  {
    if s == [] then []
    else if p(s[|s| - 1]) then Those(p, s[..|s| - 1]) + [s[|s| - 1]]
    else Those(p, s[..|s| - 1])
  }

  lemma ThoseSnoc<T>(p: T -> bool, s: seq<T>, x: T)
    ensures Those(p, s + [x]) == if p(x) then Those(p, s) + [x] else Those(p, s)
  {
    assert (s + [x])[..|s|] == s;
  }

  lemma {:induction false} InsertBehindTies<T(!new)>(less: (T, T) -> bool, p: T -> bool, x: T, s: seq<T>)
    requires StrictWeakOrder(less) && Sorted(less, s)
    requires forall a, b :: p(a) && p(b) ==> !less(a, b)
    ensures Those(p, Insert(less, x, s)) == if p(x) then Those(p, s) + [x] else Those(p, s)
    decreases |s|
  {
    hide Those;
    if s == [] {
      ThoseSnoc(p, [], x);
      assert [] + [x] == [x];
      ThoseNone(p);
    } else {
      var init, last := s[..|s| - 1], s[|s| - 1];
      assert s == init + [last];
      ThoseSnoc(p, init, last);
      ThoseSnoc(p, s, x);
      if less(x, last) {
        InsertBehindTies(less, p, x, init);
        ThoseSnoc(p, Insert(less, x, init), last);
      }
    }
  }

  lemma ThoseNone<T>(p: T -> bool)
    ensures Those(p, []) == []
  {
  }

  /** The sort is stable: elements that are ties of one another keep their order. */
  lemma {:induction false} TiesKeepOrder<T(!new)>(less: (T, T) -> bool, p: T -> bool, s: seq<T>)
    requires StrictWeakOrder(less)
    requires forall a, b :: p(a) && p(b) ==> !less(a, b)
    ensures Those(p, StableSort(less, s)) == Those(p, s)
    decreases |s|
  {
    hide StrictWeakOrder, Those;
    if s != [] {
      var init, last := s[..|s| - 1], s[|s| - 1];
      assert s == init + [last];
      TiesKeepOrder(less, p, init);
      StableSortSorts(less, init);
      InsertBehindTies(less, p, last, StableSort(less, init));
      ThoseSnoc(p, init, last);
    }
  }
}
