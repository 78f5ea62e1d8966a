/** Arithmetic helpers over sequences of reals shared by the indicators, the
    backtester metrics and the event analysis. */
module Numeric {

  function Max(a: real, b: real): (r: real)
    ensures r >= a && r >= b && (r == a || r == b)
  {
    if a >= b then a else b
  }

  function Min(a: real, b: real): (r: real)
    ensures r <= a && r <= b && (r == a || r == b)
  {
    if a <= b then a else b
  }

  function Abs(x: real): (r: real)
    ensures r >= 0.0 && (r == x || r == -x)
  {
    if x < 0.0 then -x else x
  }

  /** Sum of a sequence, peeled from the back so that extending a running
      total by one element is immediate. */
  function Sum(s: seq<real>): real
  {
    if s == [] then 0.0 else Sum(s[..|s| - 1]) + s[|s| - 1]
  }

  lemma SumSnoc(s: seq<real>, x: real)
    ensures Sum(s + [x]) == Sum(s) + x
  {
    assert (s + [x])[..|s|] == s;
  }

  /** Every element within [lo, hi] bounds the sum by n*lo and n*hi. */
  lemma {:induction false} SumBounds(s: seq<real>, lo: real, hi: real)
    requires forall i :: 0 <= i < |s| ==> lo <= s[i] <= hi
    ensures |s| as real * lo <= Sum(s) <= |s| as real * hi
  {
    if s != [] {
      SumBounds(s[..|s| - 1], lo, hi);
    }
  }

  /** The mean of a non-empty window whose elements lie in [lo, hi] lies there too. */
  lemma MeanBounds(s: seq<real>, lo: real, hi: real)
    requires |s| > 0
    requires forall i :: 0 <= i < |s| ==> lo <= s[i] <= hi
    ensures lo <= Sum(s) / |s| as real <= hi
  {
    SumBounds(s, lo, hi);
    var n := |s| as real;
    assert Sum(s) / n * n == Sum(s);
  }

  /** Smallest element of a non-empty sequence. */
  function SeqMin(s: seq<real>): (m: real)
    requires |s| > 0
    ensures m in s
    ensures forall i :: 0 <= i < |s| ==> m <= s[i]
  {
    if |s| == 1 then s[0] else Min(SeqMin(s[..|s| - 1]), s[|s| - 1])
  }

  /** Largest element of a non-empty sequence. */
  function SeqMax(s: seq<real>): (m: real)
    requires |s| > 0
    ensures m in s
    ensures forall i :: 0 <= i < |s| ==> s[i] <= m
  {
    if |s| == 1 then s[0] else Max(SeqMax(s[..|s| - 1]), s[|s| - 1])
  }

  /** The elements of `s` that are strictly positive, in order. */
  function Positives(s: seq<real>): (r: seq<real>)
    ensures |r| <= |s|
    ensures forall i :: 0 <= i < |r| ==> r[i] > 0.0
  {
    if s == [] then []
    else if s[|s| - 1] > 0.0 then Positives(s[..|s| - 1]) + [s[|s| - 1]]
    else Positives(s[..|s| - 1])
  }

  /** The elements of `s` that are zero or negative, in order. */
  function NonPositives(s: seq<real>): (r: seq<real>)
    ensures |r| <= |s|
    ensures forall i :: 0 <= i < |r| ==> r[i] <= 0.0
  {
    if s == [] then []
    else if s[|s| - 1] <= 0.0 then NonPositives(s[..|s| - 1]) + [s[|s| - 1]]
    else NonPositives(s[..|s| - 1])
  }

  /** Positives and NonPositives split `s` into two parts that together hold
      every element exactly once. */
  lemma {:induction false} PartitionSigns(s: seq<real>)
    ensures |Positives(s)| + |NonPositives(s)| == |s|
    ensures multiset(Positives(s)) + multiset(NonPositives(s)) == multiset(s)
  {
    if s != [] {
      var init := s[..|s| - 1];
      PartitionSigns(init);
      assert s == init + [s[|s| - 1]];
    }
  }

  lemma PartitionCount(s: seq<real>)
    ensures |Positives(s)| + |NonPositives(s)| == |s|
  {
    PartitionSigns(s);
  }

  lemma {:induction false} SumPositivesNonNegative(s: seq<real>)
    ensures Sum(Positives(s)) >= 0.0
  {
    if s != [] {
      SumPositivesNonNegative(s[..|s| - 1]);
      if s[|s| - 1] > 0.0 {
        SumSnoc(Positives(s[..|s| - 1]), s[|s| - 1]);
      }
    }
  }

  lemma {:induction false} SumNonPositivesNonPositive(s: seq<real>)
    ensures Sum(NonPositives(s)) <= 0.0
  {
    if s != [] {
      SumNonPositivesNonPositive(s[..|s| - 1]);
      if s[|s| - 1] <= 0.0 {
        SumSnoc(NonPositives(s[..|s| - 1]), s[|s| - 1]);
      }
    }
  }

  /** Dividing by a positive number keeps order. */
  lemma DivMonotone(x: real, y: real, n: real)
    requires n > 0.0 && x <= y
    ensures x / n <= y / n
  {
    assert x / n * n == x && y / n * n == y;
  }

  /** A positive number over a positive number is positive. */
  lemma DivPositive(x: real, n: real)
    requires x > 0.0 && n > 0.0
    ensures x / n > 0.0
  {
    assert x / n * n == x;
  }

  /** Scaling by a non-negative factor keeps order. */
  lemma MulMonotone(a: real, u: real, v: real)
    requires a >= 0.0 && u <= v
    ensures a * u <= a * v
  {
    assert a * v - a * u == a * (v - u);
  }

  lemma MulDivCancel(x: real, n: real)
    requires n != 0.0
    ensures n * x / n == x
  {
  }

  /** A weighted mean of two values lies between them. */
  lemma WeightedMeanBetween(a: real, b: real, x: real, y: real)
    requires a >= 0.0 && b > 0.0
    ensures (a + b) * ((a * x + b * y) / (a + b)) == a * x + b * y
    ensures Min(x, y) <= (a * x + b * y) / (a + b) <= Max(x, y)
  {
    var n := a + b;
    var lo := Min(x, y);
    var hi := Max(x, y);
    var w := a * x + b * y;
    MulMonotone(a, lo, x);
    MulMonotone(a, x, hi);
    MulMonotone(b, lo, y);
    MulMonotone(b, y, hi);
    assert n * lo == a * lo + b * lo && n * hi == a * hi + b * hi;
    DivMonotone(n * lo, w, n);
    DivMonotone(w, n * hi, n);
    MulDivCancel(lo, n);
    MulDivCancel(hi, n);
    assert n * (w / n) == w;
  }

  /** Scaling by a positive factor keeps strict order. */
  lemma MulStrict(c: real, u: real, v: real)
    requires c > 0.0 && u < v
    ensures c * u < c * v
  {
    assert c * v - c * u == c * (v - u);
  }

  /** A positive factor can be cancelled from both sides of an inequality. */
  lemma MulCancelLe(c: real, u: real, v: real)
    requires c > 0.0 && c * u <= c * v
    ensures u <= v
  {
    if v < u {
      MulStrict(c, v, u);
    }
  }

  lemma DivMul(w: real, d: real)
    requires d != 0.0
    ensures d * (w / d) == w
  {
  }

  /** A value `m` that, weighted by the total `a + b`, balances `a` units at
      `x` and `b` units at `y` lies between `x` and `y`, and is `y` when `a`
      is 0. */
  lemma BalancedBetween(a: real, b: real, x: real, y: real, m: real)
    requires a >= 0.0 && b > 0.0 && (a + b) * m == a * x + b * y
    ensures Min(x, y) <= m <= Max(x, y)
    ensures a == 0.0 ==> m == y
  {
    BalancedAbove(a, b, x, y, m, Min(x, y));
    BalancedAbove(a, b, -x, -y, -m, -Max(x, y));
    if a == 0.0 {
      BalancedZero(a, b, x, y, m);
    }
  }

  /** The lower half of `BalancedBetween`, for any common lower bound `lo`. */
  lemma BalancedAbove(a: real, b: real, x: real, y: real, m: real, lo: real)
    requires a >= 0.0 && b > 0.0 && (a + b) * m == a * x + b * y
    requires lo <= x && lo <= y
    ensures lo <= m
  {
    MulMonotone(a, lo, x);
    MulMonotone(b, lo, y);
    assert (a + b) * lo == a * lo + b * lo <= a * x + b * y;
    MulCancelLe(a + b, lo, m);
  }

  lemma BalancedZero(a: real, b: real, x: real, y: real, m: real)
    requires a == 0.0 && b > 0.0 && (a + b) * m == a * x + b * y
    ensures m == y
  {
    assert b * m == b * y;
    if m < y {
      MulStrict(b, m, y);
    } else if y < m {
      MulStrict(b, y, m);
    }
  }

  lemma NegDiv(w: real, l: real)
    requires l != 0.0
    ensures w / (-l) == -(w / l)
  {
    assert (w / l) * l == w;
    assert (-(w / l)) * (-l) == w;
  }

  /** A part of a positive whole is a fraction in [0, 1] that scales back. */
  lemma Fraction(p: real, n: real)
    requires 0.0 <= p <= n && n > 0.0
    ensures 0.0 <= p / n <= 1.0
    ensures p / n * n == p
  {
    DivMonotone(0.0, p, n);
    DivMonotone(p, n, n);
  }
}
