/** Mean and population variance of a list of numbers. */
module Variance {
  function Sum(d: seq<real>): real {
    if d == [] then 0.0 else Sum(d[..|d| - 1]) + d[|d| - 1]
  }

  function Times(a: real, b: real): real { a * b }

  function Square(x: real): real { Times(x, x) }

  function Mean(d: seq<real>): real
    requires d != []
  {
    Sum(d) / |d| as real
  }

  /** The squared deviations from `m`, added up. */
  function Deviation(d: seq<real>, m: real): real {
    if d == [] then 0.0
    else Deviation(d[..|d| - 1], m) + Square(d[|d| - 1] - m)
  }

  function Var(d: seq<real>): real
    requires d != []
  {
    Deviation(d, Mean(d)) / |d| as real
  }

  /** `np.diff`: the steps from each number to the next. */
  function Diff(t: seq<real>): (d: seq<real>)
    ensures |d| == if t == [] then 0 else |t| - 1
    ensures forall i :: 0 <= i < |d| ==> d[i] == t[i + 1] - t[i]
  {
    seq(if t == [] then 0 else |t| - 1, i requires 0 <= i < |t| - 1 => t[i + 1] - t[i])
  }

  lemma {:induction false} DiffTelescopes(t: seq<real>)
    requires t != []
    ensures Sum(Diff(t)) == t[|t| - 1] - t[0]
  {
    if |t| > 1 {
      DiffTelescopes(t[..|t| - 1]);
      assert Diff(t)[..|t| - 2] == Diff(t[..|t| - 1]);
    }
  }

  lemma {:induction false} SumBetween(d: seq<real>, lo: real, hi: real)
    requires forall i :: 0 <= i < |d| ==> lo <= d[i] <= hi
    ensures |d| as real * lo <= Sum(d) <= |d| as real * hi
  {
    if d != [] {
      SumBetween(d[..|d| - 1], lo, hi);
    }
  }

  lemma {:induction false} Extremes(d: seq<real>) returns (i: nat, k: nat)
    requires d != []
    ensures i < |d| && k < |d| && forall j :: 0 <= j < |d| ==> d[i] <= d[j] <= d[k]
  {
    i, k := |d| - 1, |d| - 1;
    if |d| > 1 {
      var i', k' := Extremes(d[..|d| - 1]);
      i := if d[i'] <= d[i] then i' else i;
      k := if d[k'] >= d[k] then k' else k;
    }
  }

  lemma {:induction false} QuotientBetween(n: real, s: real, lo: real, hi: real)
    requires n > 0.0 && n * lo <= s <= n * hi
    ensures lo <= s / n <= hi
  {
    var q := s / n;
    assert q * n == s;
    assert q < lo ==> q * n < lo * n;
    assert q > hi ==> q * n > hi * n;
  }

  /** The mean lies between the least and the greatest element. */
  lemma {:induction false} MeanBetween(d: seq<real>) returns (i: nat, k: nat)
    requires d != []
    ensures i < |d| && k < |d| && forall j :: 0 <= j < |d| ==> d[i] <= d[j] <= d[k]
    ensures d[i] <= Mean(d) <= d[k]
  {
    i, k := Extremes(d);
    SumBetween(d, d[i], d[k]);
    QuotientBetween(|d| as real, Sum(d), d[i], d[k]);
  }

  lemma {:induction false} TimesPositive(a: real, b: real)
    requires (a > 0.0 && b > 0.0) || (a < 0.0 && b < 0.0)
    ensures Times(a, b) > 0.0
  {
    if a < 0.0 {
      assert a * b == (-a) * (-b);
    }
  }

  lemma {:induction false} TimesZero(a: real, b: real)
    requires a == 0.0
    ensures Times(a, b) == 0.0
  {
  }

  lemma {:induction false} SquareSign(x: real)
    ensures Square(x) >= 0.0
    ensures Square(x) == 0.0 <==> x == 0.0
  {
    hide Times;
    if x == 0.0 {
      TimesZero(x, x);
    } else {
      TimesPositive(x, x);
    }
  }

  lemma {:induction false} DeviationSign(d: seq<real>, m: real)
    ensures Deviation(d, m) >= 0.0
    ensures (forall i :: 0 <= i < |d| ==> d[i] == m) ==> Deviation(d, m) == 0.0
    ensures (exists i :: 0 <= i < |d| && d[i] != m) ==> Deviation(d, m) > 0.0
  {
    hide Square;
    if d != [] {
      var last := |d| - 1;
      DeviationSign(d[..last], m);
      SquareSign(d[last] - m);
      assert forall i :: 0 <= i < last ==> d[..last][i] == d[i];
      if d[last] == m && exists i :: 0 <= i < |d| && d[i] != m {
        var i :| 0 <= i < |d| && d[i] != m;
        assert d[..last][i] != m;
      }
    }
  }

  lemma {:induction false} VarNonNegative(d: seq<real>)
    requires d != []
    ensures Var(d) >= 0.0 && Var(d) * |d| as real == Deviation(d, Mean(d))
  {
    hide Mean;
    DeviationSign(d, Mean(d));
    Divide(Deviation(d, Mean(d)), |d| as real);
  }

  lemma {:induction false} Divide(s: real, n: real)
    requires n > 0.0
    ensures s / n * n == s && (s >= 0.0 ==> s / n >= 0.0) && (s / n == 0.0 <==> s == 0.0)
  {
  }

  /** Zero variance means that all elements are equal. */
  lemma {:induction false} VarZeroIff(d: seq<real>)
    requires d != []
    ensures Var(d) == 0.0 <==> forall i, j :: 0 <= i < |d| && 0 <= j < |d| ==> d[i] == d[j]
  {
    DeviationSign(d, Mean(d));
    Divide(Deviation(d, Mean(d)), |d| as real);
    if forall i, j :: 0 <= i < |d| && 0 <= j < |d| ==> d[i] == d[j] {
      var i, k := MeanBetween(d);
    }
  }

  lemma {:induction false} ExpandStep(a: real, b: real, s: real, n: real, x: real, m: real)
    requires a == b - 2.0 * m * s + n * (m * m)
    ensures a + Square(x - m) == b + Square(x - 0.0) - 2.0 * m * (s + x) + (n + 1.0) * (m * m)
  {
    assert (x - m) * (x - m) == x * x - 2.0 * m * x + m * m;
    assert 2.0 * m * (s + x) == 2.0 * m * s + 2.0 * m * x;
    assert (n + 1.0) * (m * m) == n * (m * m) + m * m;
  }

  lemma {:induction false} DeviationExpanded(d: seq<real>, m: real)
    ensures Deviation(d, m) == Deviation(d, 0.0) - 2.0 * m * Sum(d) + |d| as real * (m * m)
  {
    hide Square;
    if d != [] {
      var n := |d| - 1;
      DeviationExpanded(d[..n], m);
      ExpandStep(Deviation(d[..n], m), Deviation(d[..n], 0.0), Sum(d[..n]), n as real, d[n], m);
    }
  }

  /** For numbers that are not negative, the squares add up to at most the square of the sum. */
  lemma {:induction false} SquaresBelowSquare(d: seq<real>)
    requires forall i :: 0 <= i < |d| ==> d[i] >= 0.0
    ensures Sum(d) >= 0.0 && Deviation(d, 0.0) <= Sum(d) * Sum(d)
  {
    if d != [] {
      var s, x := Sum(d[..|d| - 1]), d[|d| - 1];
      SquaresBelowSquare(d[..|d| - 1]);
      assert (s + x) * (s + x) == s * s + 2.0 * (s * x) + x * x;
      assert s * x >= 0.0;
    }
  }

  lemma {:induction false} QuarterBound(v: real, q: real, n: real)
    requires n >= 1.0 && q >= 0.0 && v * n <= q * n - q
    ensures v <= q * n / 4.0
  {
    SquareSign(n - 2.0);
    assert (n - 2.0) * (n - 2.0) == n * n - 4.0 * n + 4.0;
    assert q * ((n - 2.0) * (n - 2.0)) >= 0.0;
    assert q * ((n - 2.0) * (n - 2.0)) == q * n * n - 4.0 * (q * n) + 4.0 * q;
    assert (q * n / 4.0) * n == q * n * n / 4.0;
    var b := q * n / 4.0;
    assert v > b ==> v * n > b * n;
  }

  /** The arithmetic of the bound, on plain numbers: mean m, sum s, variance v, n elements. */
  lemma {:induction false} QuarterOfSquare(v: real, squares: real, s: real, m: real, n: real)
    requires n >= 1.0 && m * n == s
    requires v * n == squares - 2.0 * m * s + n * (m * m)
    requires squares <= s * s
    ensures v <= s * s / 4.0
  {
    var q := m * s;
    assert n * (m * m) == (m * n) * m == q;
    assert q * n == (m * n) * s == s * s;
    SquareSign(m);
    assert q == (m * m) * n >= 0.0;
    QuarterBound(v, q, n);
  }

  /** The variance of numbers that are not negative is at most a quarter of the square of their sum. */
  lemma {:induction false} VarAtMostQuarter(d: seq<real>)
    requires d != [] && forall i :: 0 <= i < |d| ==> d[i] >= 0.0
    ensures Var(d) <= Square(Sum(d)) / 4.0
  {
    hide Mean, Var, Deviation, Sum;
    MeanTimes(d);
    VarNonNegative(d);
    SquaresBelowSquare(d);
    DeviationExpanded(d, Mean(d));
    QuarterOfSquare(Var(d), Deviation(d, 0.0), Sum(d), Mean(d), |d| as real);
  }

  lemma {:induction false} MeanTimes(d: seq<real>)
    requires d != []
    ensures Mean(d) * |d| as real == Sum(d)
  {
    Divide(Sum(d), |d| as real);
  }
}
