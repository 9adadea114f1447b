/** Magnitudes, and Python's order on tuples of integers and, through their code points, on strings. */
module Ordering {
  function Min(a: int, b: int): int { if a <= b then a else b }
  function Max(a: int, b: int): int { if a >= b then a else b }
  function Abs(a: int): nat { if a < 0 then -a else a }

  function SumAbs(xs: seq<int>): nat {
    if xs == [] then 0 else Abs(xs[0]) + SumAbs(xs[1..])
  }

  function MaxAbs(xs: seq<int>): nat {
    if xs == [] then 0 else Max(Abs(xs[0]), MaxAbs(xs[1..]))
  }

  predicate LexLe(a: seq<int>, b: seq<int>) {
    a == [] || (b != [] && (a[0] < b[0] || (a[0] == b[0] && LexLe(a[1..], b[1..]))))
  }

  /** The sum of magnitudes adds up over parts, and counts a number without its sign. */
  lemma {:induction false} SumAbsMeaning(xs: seq<int>, ys: seq<int>, x: int)
    ensures SumAbs(xs + ys) == SumAbs(xs) + SumAbs(ys) && SumAbs([x]) == if x < 0 then -x else x
  {
    if xs == [] {
      assert xs + ys == ys;
    } else {
      assert (xs + ys)[1..] == xs[1..] + ys;
      SumAbsMeaning(xs[1..], ys, x);
    }
  }

  /** The largest magnitude bounds every number from both sides, and some number has it. */
  lemma {:induction false} MaxAbsMeaning(xs: seq<int>)
    requires xs != []
    ensures forall i :: 0 <= i < |xs| ==> xs[i] <= MaxAbs(xs) && 0 - xs[i] <= MaxAbs(xs)
    ensures exists i :: 0 <= i < |xs| && (xs[i] == MaxAbs(xs) || 0 - xs[i] == MaxAbs(xs))
  {
    if |xs| > 1 {
      MaxAbsMeaning(xs[1..]);
      forall i | 0 < i < |xs| ensures xs[i] <= MaxAbs(xs) && 0 - xs[i] <= MaxAbs(xs) {
        assert xs[1..][i - 1] == xs[i];
      }
      var k :| 0 <= k < |xs[1..]| && (xs[1..][k] == MaxAbs(xs[1..]) || 0 - xs[1..][k] == MaxAbs(xs[1..]));
      assert xs[k + 1] == xs[1..][k];
    }
    assert xs[0] == Abs(xs[0]) || 0 - xs[0] == Abs(xs[0]);
  }

  /** At position k the first tuple is smaller, and before it the two agree. */
  predicate FirstSmallerAt(a: seq<int>, b: seq<int>, k: int) {
    0 <= k < |a| && k < |b| && a[..k] == b[..k] && a[k] < b[k]
  }

  /** One tuple is at most another when it is its beginning, or is smaller where they first differ. */
  lemma {:induction false} LexLeIff(a: seq<int>, b: seq<int>)
    ensures LexLe(a, b) <==> a <= b || exists k :: FirstSmallerAt(a, b, k)
  {
    if a != [] && b != [] {
      LexLeIff(a[1..], b[1..]);
      if a[0] == b[0] {
        assert a <= b <==> a[1..] <= b[1..];
        forall k | FirstSmallerAt(a, b, k) ensures FirstSmallerAt(a[1..], b[1..], k - 1) {
          assert a[..k][1..] == a[1..][..k - 1] && b[..k][1..] == b[1..][..k - 1];
        }
        forall k | FirstSmallerAt(a[1..], b[1..], k) ensures FirstSmallerAt(a, b, k + 1) {
          assert a[..k + 1] == [a[0]] + a[1..][..k] && b[..k + 1] == [b[0]] + b[1..][..k];
        }
      } else {
        assert a[0] < b[0] ==> FirstSmallerAt(a, b, 0);
        forall k | 0 < k < |a| && k < |b| ensures a[..k] != b[..k] {
          assert a[..k][0] == a[0] && b[..k][0] == b[0];
        }
      }
    }
  }

  lemma LexFront(a: int, s: seq<int>, b: int, t: seq<int>)
    ensures LexLe([a] + s, [b] + t) <==> a < b || (a == b && LexLe(s, t))
  {
    assert ([a] + s)[1..] == s && ([b] + t)[1..] == t;
  }

  lemma {:induction false} LexTotal(a: seq<int>, b: seq<int>)
    ensures LexLe(a, b) || LexLe(b, a)
  {
    if a != [] && b != [] { LexTotal(a[1..], b[1..]); }
  }

  lemma {:induction false} LexAntisymmetric(a: seq<int>, b: seq<int>)
    requires LexLe(a, b) && LexLe(b, a)
    ensures a == b
  {
    if a != [] {
      LexAntisymmetric(a[1..], b[1..]);
      assert a == [a[0]] + a[1..] && b == [b[0]] + b[1..];
    }
  }

  lemma {:induction false} LexTransitive(a: seq<int>, b: seq<int>, c: seq<int>)
    requires LexLe(a, b) && LexLe(b, c)
    ensures LexLe(a, c)
  {
    if a != [] && a[0] == b[0] == c[0] { LexTransitive(a[1..], b[1..], c[1..]); }
  }

  function Codes(s: string): (c: seq<int>)
    ensures |c| == |s| && forall i :: 0 <= i < |s| ==> c[i] == s[i] as int
  {
    seq(|s|, i requires 0 <= i < |s| => s[i] as int)
  }

  lemma CodesInjective(s: string, t: string)
    requires Codes(s) == Codes(t)
    ensures s == t
  {
    forall i | 0 <= i < |s| ensures s[i] == t[i] {
      assert Codes(s)[i] == Codes(t)[i];
    }
  }
}
