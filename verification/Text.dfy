/** The string operations the program relies on: trimming, folding and ordering. */
module Text {

  /** The white space of Go's unicode.IsSpace. */
  predicate IsSpace(c: char) {
    var n := c as int;
    || 9 <= n <= 13 || n == 32 || n == 0x85 || n == 0xA0 || n == 0x1680
    || 0x2000 <= n <= 0x200A || n == 0x2028 || n == 0x2029 || n == 0x202F
    || n == 0x205F || n == 0x3000
  }

  function TrimLeft(s: string): string {
    if s != [] && IsSpace(s[0]) then TrimLeft(s[1..]) else s
  }

  function TrimRight(s: string): string {
    if s != [] && IsSpace(s[|s| - 1]) then TrimRight(s[..|s| - 1]) else s
  }

  /** strings.TrimSpace */
  function Trim(s: string): string {
    TrimRight(TrimLeft(s))
  }

  lemma {:induction false} TrimLeftStarts(s: string)
    ensures TrimLeft(s) != "" ==> !IsSpace(TrimLeft(s)[0])
  {
    if s != [] && IsSpace(s[0]) { TrimLeftStarts(s[1..]); }
  }

  lemma {:induction false} TrimRightEnds(s: string)
    ensures TrimRight(s) <= s
    ensures TrimRight(s) != "" ==> !IsSpace(TrimRight(s)[|TrimRight(s)| - 1])
  {
    if s != [] && IsSpace(s[|s| - 1]) { TrimRightEnds(s[..|s| - 1]); }
  }

  lemma TrimTwice(s: string)
    ensures Trim(Trim(s)) == Trim(s)
  {
    TrimLeftStarts(s);
    TrimRightEnds(TrimLeft(s));
  }

  predicate Blank(s: string) {
    Trim(s) == ""
  }

  /** An identifier that trimming leaves alone. */
  predicate Unpadded(s: string) {
    Trim(s) == s
  }

  function LowerChar(c: char): char {
    if 'A' <= c <= 'Z' then c - 'A' + 'a' else c
  }

  /** Lower case of ASCII letters; the identity elsewhere. */
  function Lower(s: string): (r: string)
    ensures |r| == |s|
  {
    seq(|s|, i requires 0 <= i < |s| => LowerChar(s[i]))
  }

  /** Trimmed, case-insensitive comparison of adapter names. */
  predicate SameName(a: string, b: string) {
    Lower(Trim(a)) == Lower(Trim(b))
  }

  /** The `<` of Go strings: lexicographic by character. */
  predicate Before(a: string, b: string) {
    b != [] && (a == [] || a[0] < b[0] || (a[0] == b[0] && Before(a[1..], b[1..])))
  }

  lemma {:induction false} BeforeTransitive(a: string, b: string, c: string)
    requires Before(a, b) && Before(b, c)
    ensures Before(a, c)
  {
    if a != [] && a[0] == b[0] && b[0] == c[0] {
      BeforeTransitive(a[1..], b[1..], c[1..]);
    }
  }

  /** Exactly one of a < b, a == b and b < a holds. */
  lemma {:induction false} BeforeTrichotomy(a: string, b: string)
    ensures !(Before(a, b) && Before(b, a))
    ensures Before(a, b) || Before(b, a) || a == b
    ensures a == b ==> !Before(a, b)
  {
    if a != [] && b != [] && a[0] == b[0] {
      BeforeTrichotomy(a[1..], b[1..]);
      assert a == [a[0]] + a[1..] && b == [b[0]] + b[1..];
    }
  }

  /** The index of the first newline, or the length. */
  function NewLine(s: string): (i: nat)
    ensures i <= |s|
    ensures i < |s| ==> s[i] == '\n'
    ensures forall k :: 0 <= k < i ==> s[k] != '\n'
  {
    if s == "" || s[0] == '\n' then 0 else 1 + NewLine(s[1..])
  }

  lemma NewLineIs(s: string, i: nat)
    requires i <= |s| && (i < |s| ==> s[i] == '\n') && forall k :: 0 <= k < i ==> s[k] != '\n'
    ensures NewLine(s) == i
  {
  }

  lemma NewLineConcat(a: string, b: string)
    requires NewLine(a) < |a|
    ensures var i := NewLine(a);
            NewLine(a + b) == i && (a + b)[..i] == a[..i] && (a + b)[i + 1..] == a[i + 1..] + b
  {
    var i := NewLine(a);
    assert forall k :: 0 <= k <= i ==> (a + b)[k] == a[k];
    NewLineIs(a + b, i);
  }

  // ---- what trimming, folding and ordering mean ---------------------------------------------

  ghost predicate AllSpace(s: string) {
    forall i :: 0 <= i < |s| ==> IsSpace(s[i])
  }

  /** Trimming takes white space, and nothing else, off both ends, as much as there is. */
  lemma TrimIsCore(s: string) returns (l: string, r: string)
    ensures s == l + Trim(s) + r && AllSpace(l) && AllSpace(r)
    ensures Trim(s) != "" ==> !IsSpace(Trim(s)[0]) && !IsSpace(Trim(s)[|Trim(s)| - 1])
    ensures Trim(s) == "" <==> AllSpace(s)
  {
    l := TrimLeftIsSuffix(s);
    r := TrimRightIsPrefix(TrimLeft(s));
    TrimLeftStarts(s);
    TrimRightEnds(TrimLeft(s));
    var t := Trim(s);
    assert s == l + (t + r) && s == l + t + r;
    if t != "" {
      assert s[|l|] == t[0] == TrimLeft(s)[0];
    } else {
      assert TrimLeft(s) == r;
      assert r == "" && s == l;
    }
  }

  lemma {:induction false} TrimLeftIsSuffix(s: string) returns (l: string)
    ensures s == l + TrimLeft(s) && AllSpace(l)
  {
    if s != [] && IsSpace(s[0]) {
      l := TrimLeftIsSuffix(s[1..]);
      l := [s[0]] + l;
    } else {
      l := "";
    }
  }

  lemma {:induction false} TrimRightIsPrefix(s: string) returns (r: string)
    ensures s == TrimRight(s) + r && AllSpace(r)
  {
    if s != [] && IsSpace(s[|s| - 1]) {
      r := TrimRightIsPrefix(s[..|s| - 1]);
      r := r + [s[|s| - 1]];
    } else {
      r := "";
    }
  }

  /** One string comes before another if it is a proper beginning of it or has the smaller character where they first differ. */
  lemma {:induction false} BeforeIsLexicographic(a: string, b: string)
    ensures Before(a, b) <==> a < b || exists k :: 0 <= k < |a| && k < |b| && a[..k] == b[..k] && a[k] < b[k]
  {
    if a != [] && b != [] {
      if a[0] == b[0] {
        BeforeIsLexicographic(a[1..], b[1..]);
        assert a < b <==> a[1..] < b[1..] by {
          assert a == [a[0]] + a[1..] && b == [b[0]] + b[1..];
          assert a[1..] <= b[1..] ==> b[1..][..|a[1..]|] == a[1..];
        }
        forall k | 0 <= k < |a[1..]| && k < |b[1..]|
          ensures (a[1..][..k] == b[1..][..k] <==> a[..k + 1] == b[..k + 1])
        {
          assert a[..k + 1] == [a[0]] + a[1..][..k] && b[..k + 1] == [b[0]] + b[1..][..k];
          assert a[1..][..k] == a[..k + 1][1..] && b[1..][..k] == b[..k + 1][1..];
        }
        if k :| 0 <= k < |a[1..]| && k < |b[1..]| && a[1..][..k] == b[1..][..k] && a[1..][k] < b[1..][k] {
          assert a[..k + 1] == b[..k + 1] && a[k + 1] < b[k + 1];
        }
        if k :| 0 <= k < |a| && k < |b| && a[..k] == b[..k] && a[k] < b[k] {
          assert k > 0;
          assert a[1..][k - 1] < b[1..][k - 1] && a[1..][..k - 1] == b[1..][..k - 1];
        }
      } else if a[0] < b[0] {
        assert a[..0] == b[..0];
      } else {
        assert forall k :: 0 < k < |a| && k < |b| && a[..k] == b[..k] ==> a[..k][0] == b[..k][0];
      }
    }
  }

  /** Folding touches the letters A to Z and nothing else. */
  lemma LowerIsPointwise(s: string)
    ensures |Lower(s)| == |s|
    ensures forall i :: 0 <= i < |s| ==>
      Lower(s)[i] as int == if 65 <= s[i] as int <= 90 then s[i] as int + 32 else s[i] as int
  {
  }
}
