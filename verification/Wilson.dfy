/**
  The confidence interval of the scorer, before rounding. It subtracts a margin that is not divided
  by the denominator, so it is wider than the score interval it is named after.
*/
module Wilson {
  const Z: real := 1.959963984540054

  function Proportion(k: nat, n: nat): real
    requires n > 0
  {
    k as real / n as real
  }

  /** z squared over n. */
  function Weight(n: nat): real
    requires n > 0
  {
    Z * Z / n as real
  }

  function Centre(p: real, w: real): real
    requires w > 0.0
  {
    (p + w / 2.0) / (1.0 + w)
  }

  /** z squared times what the code takes the square root of. */
  function Spread(p: real, w: real): real {
    w * (p * (1.0 - p) + w / 4.0)
  }

  /** `root` is z times the square root taken by the code. */
  predicate IsMargin(p: real, w: real, root: real) {
    root >= 0.0 && root * root == Spread(p, w)
  }

  function Clamp(low: real, high: real): (real, real) {
    (if low < 0.0 then 0.0 else low, if high > 1.0 then 1.0 else high)
  }

  /** The two fractions, unrounded, for `k` successes of `n`. */
  function Interval(k: nat, n: nat, root: real): (real, real) {
    if n == 0 then (0.0, 0.0)
    else
      var p, w := Proportion(k, n), Weight(n);
      Clamp(Centre(p, w) - root, Centre(p, w) + root)
  }

  /** The score test at the same level does not reject the rate `q`. */
  predicate NotRejected(p: real, w: real, q: real) {
    (p - q) * (p - q) <= w * q * (1.0 - q)
  }

  // ---------------------------------------------------------------- order and products

  lemma NonNegative(a: real, b: real)
    requires a >= 0.0 && b >= 0.0
    ensures a * b >= 0.0
  {
  }

  lemma Positive(a: real, b: real)
    requires a > 0.0 && b > 0.0
    ensures a * b > 0.0
  {
  }

  lemma SignOfProduct(a: real, d: real)
    requires d > 0.0
    ensures a * d <= 0.0 <==> a <= 0.0
    ensures a * d == 0.0 <==> a == 0.0
  {
    if a > 0.0 { Positive(a, d); }
    if a < 0.0 { Positive(-a, d); }
    assert (-a) * d == -(a * d);
  }

  lemma Cancel(a: real, b: real, t: real)
    requires t > 0.0
    ensures a * t <= b * t <==> a <= b
    ensures a * t == b * t <==> a == b
  {
    SignOfProduct(a - b, t);
    assert (a - b) * t == a * t - b * t;
  }

  lemma Quotient(a: real, d: real)
    requires d > 0.0
    ensures (a / d) * d == a
  {
  }

  lemma SquareDifference(a: real, b: real)
    ensures (a - b) * (a + b) == a * a - b * b
  {
  }

  lemma SquareGrows(a: real, b: real)
    requires 0.0 <= b < a
    ensures b * b < a * a
  {
    SquareDifference(a, b);
    Positive(a - b, a + b);
  }

  lemma SquareKeeps(a: real, b: real)
    requires 0.0 <= a <= b
    ensures a * a <= b * b
  {
    SquareDifference(b, a);
    NonNegative(b - a, b + a);
  }

  lemma SquareOrder(a: real, b: real)
    requires b >= 0.0
    ensures a * a <= b * b <==> -b <= a <= b
  {
    var size := if a < 0.0 then -a else a;
    assert size * size == a * a;
    if size > b { SquareGrows(size, b); } else { SquareKeeps(size, b); }
  }

  // ---------------------------------------------------------------- the score test

  /** The score test times the denominator is a square around the shifted proportion, less the spread. */
  lemma TestIdentity(p: real, w: real, q: real)
    ensures ((p - q) * (p - q) - w * q * (1.0 - q)) * (1.0 + w)
         == (q * (1.0 + w) - (p + w / 2.0)) * (q * (1.0 + w) - (p + w / 2.0)) - Spread(p, w)
  {
  }

  lemma TestForm(gap: real, d: real, x: real, root: real, square: real)
    requires d > 0.0 && root >= 0.0 && root * root == square && gap * d == x * x - square
    ensures gap <= 0.0 <==> -root <= x <= root
  {
    SignOfProduct(gap, d);
    SquareOrder(x, root);
  }

  /** Dividing the margin by the denominator gives exactly the rates the score test does not reject. */
  lemma ScoreIntervalIff(p: real, w: real, root: real, q: real)
    requires w > 0.0 && IsMargin(p, w, root)
    ensures NotRejected(p, w, q) <==> -root <= q * (1.0 + w) - (p + w / 2.0) <= root
  {
    TestIdentity(p, w, q);
    TestForm((p - q) * (p - q) - w * q * (1.0 - q), 1.0 + w, q * (1.0 + w) - (p + w / 2.0), root, Spread(p, w));
  }

  /** A rate within the divided margin of the centre `c` is within the undivided one. */
  lemma WithinMargin(c: real, d: real, s: real, q: real, root: real)
    requires d > 1.0 && c * d == s && -root <= q * d - s <= root && root >= 0.0
    ensures c - root <= q <= c + root
  {
    NonNegative(root, d - 1.0);
    Cancel(q - c, root, d);
    Cancel(c - q, root, d);
    assert (q - c) * d == q * d - s && (c - q) * d == s - q * d;
    assert root * d == root + root * (d - 1.0);
  }

  /** Stepping the whole margin down from the centre leaves the divided margin. */
  lemma StepsOutside(c: real, d: real, s: real, root: real)
    requires d > 1.0 && c * d == s && root > 0.0
    ensures (c - root) * d - s < -root
  {
    Positive(root, d - 1.0);
    assert (c - root) * d == s - root - root * (d - 1.0);
  }

  lemma BetweenZeroAndOne(w: real, q: real, square: real)
    requires w > 0.0 && 0.0 <= square <= w * q * (1.0 - q)
    ensures 0.0 <= q <= 1.0
  {
    assert w * q * (1.0 - q) == (q * (1.0 - q)) * w;
    SignOfProduct(-(q * (1.0 - q)), w);
    if q < 0.0 { Positive(-q, 1.0 - q); }
    if q > 1.0 { Positive(q, q - 1.0); }
  }

  lemma SquareIsNonNegative(a: real)
    ensures a * a >= 0.0
  {
    if a >= 0.0 { NonNegative(a, a); } else { NonNegative(-a, -a); }
  }

  /** No rate outside the unit interval survives the test. */
  lemma RejectsOutside(p: real, w: real, q: real)
    requires w > 0.0 && NotRejected(p, w, q)
    ensures 0.0 <= q <= 1.0
  {
    SquareIsNonNegative(p - q);
    BetweenZeroAndOne(w, q, (p - q) * (p - q));
  }

  lemma NearCentre(p: real, w: real, root: real, q: real)
    requires w > 0.0 && IsMargin(p, w, root) && NotRejected(p, w, q)
    ensures Centre(p, w) - root <= q <= Centre(p, w) + root
  {
    ScoreIntervalIff(p, w, root, q);
    Quotient(p + w / 2.0, 1.0 + w);
    WithinMargin(Centre(p, w), 1.0 + w, p + w / 2.0, q, root);
  }

  // ---------------------------------------------------------------- proportions and weights

  lemma WeightPositive(n: nat)
    requires n > 0
    ensures Weight(n) > 0.0
  {
    Quotient(Z * Z, n as real);
    SignOfProduct(Weight(n), n as real);
  }

  lemma ProportionOf(k: nat, n: nat, p: real, total: real)
    requires total > 0.0 && total == n as real && p * total == k as real && k <= n
    ensures 0.0 <= p <= 1.0 && (p == 0.0 <==> k == 0) && (p == 1.0 <==> k == n)
  {
    Cancel(0.0, p, total);
    Cancel(p, 1.0, total);
  }

  lemma ProportionRange(k: nat, n: nat)
    requires n > 0 && k <= n
    ensures 0.0 <= Proportion(k, n) <= 1.0
    ensures Proportion(k, n) == 0.0 <==> k == 0
    ensures Proportion(k, n) == 1.0 <==> k == n
  {
    Quotient(k as real, n as real);
    ProportionOf(k, n, Proportion(k, n), n as real);
  }

  lemma Mirror(p: real, q: real, k: real, total: real)
    requires total > 0.0 && p * total == k && q * total == total - k
    ensures q == 1.0 - p
  {
    Cancel(q, 1.0 - p, total);
    assert (1.0 - p) * total == total - p * total;
  }

  lemma ProportionMirrors(k: nat, n: nat)
    requires n > 0 && k <= n
    ensures Proportion(n - k, n) == 1.0 - Proportion(k, n)
  {
    Quotient(k as real, n as real);
    Quotient((n - k) as real, n as real);
    Mirror(Proportion(k, n), Proportion(n - k, n), k as real, n as real);
  }

  // ---------------------------------------------------------------- the reported interval

  lemma ClampContains(low: real, high: real, q: real)
    requires low <= q <= high && 0.0 <= q <= 1.0
    ensures 0.0 <= Clamp(low, high).0 <= q <= Clamp(low, high).1 <= 1.0
  {
  }

  /** Every rate the score test does not reject lies in the reported interval, which lies in the unit interval. */
  lemma ContainsScoreInterval(k: nat, n: nat, root: real, q: real)
    requires n > 0 && k <= n && IsMargin(Proportion(k, n), Weight(n), root)
    requires NotRejected(Proportion(k, n), Weight(n), q)
    ensures 0.0 <= Interval(k, n, root).0 <= q <= Interval(k, n, root).1 <= 1.0
  {
    var p, w := Proportion(k, n), Weight(n);
    WeightPositive(n);
    NearCentre(p, w, root, q);
    RejectsOutside(p, w, q);
    ClampContains(Centre(p, w) - root, Centre(p, w) + root, q);
  }

  lemma OwnRateNotRejected(p: real, w: real)
    requires w > 0.0 && 0.0 <= p <= 1.0
    ensures NotRejected(p, w, p)
  {
    NonNegative(w, p);
    NonNegative(w * p, 1.0 - p);
  }

  /** In particular it contains the observed proportion. */
  lemma ContainsProportion(k: nat, n: nat, root: real)
    requires n > 0 && k <= n && IsMargin(Proportion(k, n), Weight(n), root)
    ensures 0.0 <= Interval(k, n, root).0 <= Proportion(k, n) <= Interval(k, n, root).1 <= 1.0
  {
    ProportionRange(k, n);
    WeightPositive(n);
    OwnRateNotRejected(Proportion(k, n), Weight(n));
    ContainsScoreInterval(k, n, root, Proportion(k, n));
  }

  // ---------------------------------------------------------------- symmetry

  lemma MirroredQuotient(a: real, b: real, s: real, d: real)
    requires d > 0.0 && a * d == d - s && b * d == s
    ensures a == 1.0 - b
  {
    Cancel(a, 1.0 - b, d);
    assert (1.0 - b) * d == d - b * d;
  }

  lemma CentreMirrors(p: real, w: real)
    requires w > 0.0
    ensures Centre(1.0 - p, w) == 1.0 - Centre(p, w)
  {
    Quotient(p + w / 2.0, 1.0 + w);
    Quotient(1.0 - p + w / 2.0, 1.0 + w);
    MirroredQuotient(Centre(1.0 - p, w), Centre(p, w), p + w / 2.0, 1.0 + w);
  }

  lemma SpreadMirrors(p: real, w: real)
    ensures Spread(1.0 - p, w) == Spread(p, w)
  {
  }

  /** There is one margin, whatever computes it. */
  lemma MarginIsUnique(root: real, other: real, square: real)
    requires root >= 0.0 && other >= 0.0 && root * root == square && other * other == square
    ensures root == other
  {
    SquareOrder(root, other);
    SquareOrder(other, root);
  }

  /** Swapping successes and failures mirrors the interval. */
  lemma IntervalMirrors(k: nat, n: nat, root: real, other: real)
    requires n > 0 && k <= n
    requires IsMargin(Proportion(k, n), Weight(n), root)
    requires IsMargin(Proportion(n - k, n), Weight(n), other)
    ensures Interval(n - k, n, other).0 == 1.0 - Interval(k, n, root).1
    ensures Interval(n - k, n, other).1 == 1.0 - Interval(k, n, root).0
  {
    var p, w := Proportion(k, n), Weight(n);
    ProportionMirrors(k, n);
    WeightPositive(n);
    CentreMirrors(p, w);
    SpreadMirrors(p, w);
    MarginIsUnique(root, other, Spread(p, w));
  }

  // ---------------------------------------------------------------- wider than the score interval

  lemma SpreadPositive(p: real, w: real)
    requires 0.0 <= p <= 1.0 && w > 0.0
    ensures Spread(p, w) > 0.0
  {
    NonNegative(p, 1.0 - p);
    Positive(w, p * (1.0 - p) + w / 4.0);
  }

  lemma RootPositive(root: real, square: real)
    requires root >= 0.0 && root * root == square && square > 0.0
    ensures root > 0.0
  {
    assert root == 0.0 ==> root * root == 0.0;
  }

  lemma MarginPositive(p: real, w: real, root: real)
    requires 0.0 <= p <= 1.0 && w > 0.0 && IsMargin(p, w, root)
    ensures root > 0.0
  {
    SpreadPositive(p, w);
    RootPositive(root, Spread(p, w));
  }

  lemma MarginEndRejected(p: real, w: real, root: real)
    requires 0.0 <= p <= 1.0 && w > 0.0 && IsMargin(p, w, root)
    ensures !NotRejected(p, w, Centre(p, w) - root)
  {
    MarginPositive(p, w, root);
    Quotient(p + w / 2.0, 1.0 + w);
    StepsOutside(Centre(p, w), 1.0 + w, p + w / 2.0, root);
    ScoreIntervalIff(p, w, root, Centre(p, w) - root);
  }

  lemma ZeroRejectedIff(p: real, w: real)
    ensures NotRejected(p, w, 0.0) <==> p == 0.0
  {
    assert (p - 0.0) * (p - 0.0) == p * p && w * 0.0 * (1.0 - 0.0) == 0.0;
    if p > 0.0 { Positive(p, p); } else if p < 0.0 { Positive(-p, -p); }
  }

  lemma HalfSquared(w: real)
    ensures Spread(0.0, w) == (w / 2.0) * (w / 2.0)
  {
  }

  lemma HalfAboveCentre(c: real, h: real, w: real)
    requires w > 0.0 && h == w / 2.0 && c * (1.0 + w) == h
    ensures c < h
  {
    Positive(h, w);
    Cancel(h, c, 1.0 + w);
    assert h * (1.0 + w) == h + h * w;
  }

  lemma SmallMargin(w: real, root: real)
    requires w > 0.0 && IsMargin(0.0, w, root)
    ensures Centre(0.0, w) < root
  {
    HalfSquared(w);
    MarginIsUnique(root, w / 2.0, Spread(0.0, w));
    Quotient(0.0 + w / 2.0, 1.0 + w);
    HalfAboveCentre(Centre(0.0, w), w / 2.0, w);
  }

  /**
    The reported interval is the score interval only at its trivial end: the lower end is a rate the
    score test accepts exactly when there is no success.
  */
  lemma LowerEndIsTightIff(k: nat, n: nat, root: real)
    requires n > 0 && k <= n && IsMargin(Proportion(k, n), Weight(n), root)
    ensures NotRejected(Proportion(k, n), Weight(n), Interval(k, n, root).0) <==> k == 0
  {
    var p, w := Proportion(k, n), Weight(n);
    var low := Interval(k, n, root).0;
    ProportionRange(k, n);
    WeightPositive(n);
    ZeroRejectedIff(p, w);
    if k == 0 {
      SmallMargin(w, root);
    } else if low != 0.0 {
      MarginEndRejected(p, w, root);
    }
  }

  lemma TestMirrors(p: real, w: real, q: real)
    ensures NotRejected(1.0 - p, w, 1.0 - q) <==> NotRejected(p, w, q)
  {
    assert (1.0 - p - (1.0 - q)) * (1.0 - p - (1.0 - q)) == (p - q) * (p - q);
    assert w * (1.0 - q) * (1.0 - (1.0 - q)) == w * q * (1.0 - q);
  }

  /** And the upper end exactly when every one is a success. */
  lemma UpperEndIsTightIff(k: nat, n: nat, root: real)
    requires n > 0 && k <= n && IsMargin(Proportion(k, n), Weight(n), root)
    ensures NotRejected(Proportion(k, n), Weight(n), Interval(k, n, root).1) <==> k == n
  {
    var p, w, high := Proportion(k, n), Weight(n), Interval(k, n, root).1;
    ProportionMirrors(k, n);
    SpreadMirrors(p, w);
    IntervalMirrors(k, n, root, root);
    LowerEndIsTightIff(n - k, n, root);
    TestMirrors(p, w, high);
  }
}
