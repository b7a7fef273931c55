/**
 * Streaming moments against batch moments, over exact reals (GoStats stats.go).
 */
module Moments {

  /** A float as far as it matters here: not-a-number is the quotient 0/0. */
  datatype Float = NaN | Num(r: real)

  function Ratio(a: real, b: real): Float
    requires b == 0.0 ==> a == 0.0
  {
    if b == 0.0 then NaN else Num(a / b)
  }

  function Sum(data: seq<real>): real {
    if data == [] then 0.0 else Sum(data[..|data| - 1]) + data[|data| - 1]
  }

  function Power(x: real, k: nat): real {
    if k == 0 then 1.0 else x * Power(x, k - 1)
  }

  /** The sum of the `k`-th powers of the deviations from `c`. */
  function Deviations(data: seq<real>, c: real, k: nat): real {
    if data == [] then 0.0
    else Deviations(data[..|data| - 1], c, k) + Power(data[|data| - 1] - c, k)
  }

  function Mean(data: seq<real>): real
    requires data != []
  {
    Sum(data) / (|data| as real)
  }

  function Centre(data: seq<real>): real {
    if data == [] then 0.0 else Mean(data)
  }

  predicate IsLeast(x: real, data: seq<real>) {
    x in data && forall y :: y in data ==> x <= y
  }

  predicate IsGreatest(x: real, data: seq<real>) {
    x in data && forall y :: y in data ==> y <= x
  }

  // ---------------------------------------------------------------- moving the centre

  lemma Powers(x: real)
    ensures Power(x, 1) == x && Power(x, 2) == x * x && Power(x, 3) == x * x * x && Power(x, 4) == x * x * x * x
  {
    assert Power(x, 0) == 1.0;
    assert Power(x, 1) == x;
    assert Power(x, 2) == x * x;
    assert Power(x, 3) == x * (x * x);
  }

  lemma {:induction false} DeviationsSumUp(data: seq<real>, c: real)
    ensures Deviations(data, c, 1) == Sum(data) - |data| as real * c
  {
    if data != [] {
      DeviationsSumUp(data[..|data| - 1], c);
      Powers(data[|data| - 1] - c);
    }
  }

  /** The second, third and fourth sums after the centre has moved by `e`. */
  function Shifted2(n: real, d1: real, d2: real, e: real): real {
    d2 - 2.0 * e * d1 + n * (e * e)
  }

  function Shifted3(n: real, d1: real, d2: real, d3: real, e: real): real {
    d3 - 3.0 * e * d2 + 3.0 * (e * e) * d1 - n * (e * e * e)
  }

  function Shifted4(n: real, d1: real, d2: real, d3: real, d4: real, e: real): real {
    d4 - 4.0 * e * d3 + 6.0 * (e * e) * d2 - 4.0 * (e * e * e) * d1 + n * (e * e * e * e)
  }

  lemma Polynomials(n: real, d1: real, d2: real, d3: real, d4: real, e: real, y: real)
    ensures Shifted2(n, d1, d2, e) + (y - e) * (y - e) == Shifted2(n + 1.0, d1 + y, d2 + y * y, e)
    ensures Shifted3(n, d1, d2, d3, e) + (y - e) * (y - e) * (y - e) ==
            Shifted3(n + 1.0, d1 + y, d2 + y * y, d3 + y * y * y, e)
    ensures Shifted4(n, d1, d2, d3, d4, e) + (y - e) * (y - e) * (y - e) * (y - e) ==
            Shifted4(n + 1.0, d1 + y, d2 + y * y, d3 + y * y * y, d4 + y * y * y * y, e)
  {}

  /** A datum deviating by `y` deviates by `y - e` from the moved centre. */
  lemma ShiftedGrows(n: real, d1: real, d2: real, d3: real, d4: real, e: real, y: real)
    ensures Shifted2(n, d1, d2, e) + Power(y - e, 2) == Shifted2(n + 1.0, d1 + y, d2 + Power(y, 2), e)
    ensures Shifted3(n, d1, d2, d3, e) + Power(y - e, 3) == Shifted3(n + 1.0, d1 + y, d2 + Power(y, 2), d3 + Power(y, 3), e)
    ensures Shifted4(n, d1, d2, d3, d4, e) + Power(y - e, 4) ==
            Shifted4(n + 1.0, d1 + y, d2 + Power(y, 2), d3 + Power(y, 3), d4 + Power(y, 4), e)
  {
    hide Power, Shifted2, Shifted3, Shifted4;
    Powers(y);
    Powers(y - e);
    Polynomials(n, d1, d2, d3, d4, e, y);
  }

  lemma LastDeviation(front: seq<real>, x: real, c: real, k: nat)
    ensures Deviations(front + [x], c, k) == Deviations(front, c, k) + Power(x - c, k)
  {
    hide Power;
    assert (front + [x])[..|front|] == front;
  }

  lemma LastDeviations(front: seq<real>, x: real, c: real, y: real)
    requires y == x - c
    ensures var data := front + [x];
            && Deviations(data, c, 1) == Deviations(front, c, 1) + y
            && Deviations(data, c, 2) == Deviations(front, c, 2) + Power(y, 2)
            && Deviations(data, c, 3) == Deviations(front, c, 3) + Power(y, 3)
            && Deviations(data, c, 4) == Deviations(front, c, 4) + Power(y, 4)
  {
    hide Power, Deviations;
    Powers(y);
    LastDeviation(front, x, c, 1);
    LastDeviation(front, x, c, 2);
    LastDeviation(front, x, c, 3);
    LastDeviation(front, x, c, 4);
  }

  lemma ShiftNothing(e: real)
    ensures Shifted2(0.0, 0.0, 0.0, e) == Shifted3(0.0, 0.0, 0.0, 0.0, e) == Shifted4(0.0, 0.0, 0.0, 0.0, 0.0, e) == 0.0
  {}

  lemma NoDeviations(c: real, k: nat)
    ensures Deviations([], c, k) == 0.0
  {}

  lemma {:induction false} ShiftDeviations(data: seq<real>, c: real, e: real)
    ensures var n, d1, d2 := |data| as real, Deviations(data, c, 1), Deviations(data, c, 2);
            var d3, d4 := Deviations(data, c, 3), Deviations(data, c, 4);
            && Deviations(data, c + e, 2) == Shifted2(n, d1, d2, e)
            && Deviations(data, c + e, 3) == Shifted3(n, d1, d2, d3, e)
            && Deviations(data, c + e, 4) == Shifted4(n, d1, d2, d3, d4, e)
  {
    hide Deviations, Power, Shifted2, Shifted3, Shifted4;
    if data == [] {
      ShiftNothing(e);
      forall a, k: nat ensures Deviations([], a, k) == 0.0 {
        NoDeviations(a, k);
      }
    } else {
      var front, x := data[..|data| - 1], data[|data| - 1];
      assert data == front + [x];
      var y := x - c;
      ShiftDeviations(front, c, e);
      LastDeviations(front, x, c, y);
      LastDeviations(front, x, c + e, y - e);
      ShiftedGrows(|front| as real, Deviations(front, c, 1), Deviations(front, c, 2), Deviations(front, c, 3),
                   Deviations(front, c, 4), e, y);
    }
  }

  // ---------------------------------------------------------------- one update

  /** What an update adds to the third and the fourth sum. */
  function AddToM3(term1: real, e: real, n: real, m2: real): real {
    term1 * e * (n - 2.0) - 3.0 * e * m2
  }

  function AddToM4(term1: real, e: real, e2: real, n: real, m2: real, m3: real): real {
    term1 * e2 * (n * n - 3.0 * n + 3.0) + 6.0 * e2 * m2 - 4.0 * e * m3
  }

  function Term1(delta: real, e: real, nMinus1: real): real {
    delta * e * nMinus1
  }

  lemma UpdatePolynomials(n: real, d2: real, d3: real, d4: real, e: real)
    ensures var z, term1 := (n - 1.0) * e, Term1(n * e, e, n - 1.0);
            && Shifted2(n - 1.0, 0.0, d2, e) + z * z == d2 + term1
            && Shifted3(n - 1.0, 0.0, d2, d3, e) + z * z * z == d3 + AddToM3(term1, e, n, d2)
            && Shifted4(n - 1.0, 0.0, d2, d3, d4, e) + z * z * z * z == d4 + AddToM4(term1, e, e * e, n, d2, d3)
  {}

  /** What one more datum does to the sums, in the program's own formulas. */
  lemma UpdateFormulas(n: real, d2: real, d3: real, d4: real, delta: real, e: real, e2: real, term1: real)
    requires delta == n * e && e2 == e * e && term1 == Term1(delta, e, n - 1.0)
    ensures Shifted2(n - 1.0, 0.0, d2, e) + Power(delta - e, 2) == d2 + term1
    ensures Shifted3(n - 1.0, 0.0, d2, d3, e) + Power(delta - e, 3) == d3 + AddToM3(term1, e, n, d2)
    ensures Shifted4(n - 1.0, 0.0, d2, d3, d4, e) + Power(delta - e, 4) == d4 + AddToM4(term1, e, e2, n, d2, d3)
  {
    hide *;
    var z := (n - 1.0) * e;
    assert delta - e == z;
    Powers(z);
    UpdatePolynomials(n, d2, d3, d4, e);
  }

  lemma MeanCentres(data: seq<real>, c: real)
    requires data != [] ==> c == Mean(data)
    ensures Deviations(data, c, 1) == 0.0
  {
    DeviationsSumUp(data, c);
  }

  /** The figures the batch functions compute from the data. */
  predicate Summary(data: seq<real>, sum: real, mean: real, m2: real, m3: real, m4: real) {
    && sum == Sum(data) && mean == Centre(data)
    && m2 == Deviations(data, mean, 2) && m3 == Deviations(data, mean, 3) && m4 == Deviations(data, mean, 4)
  }

  predicate Extremes(data: seq<real>, min: real, max: real) {
    data != [] ==> IsLeast(min, data) && IsGreatest(max, data)
  }

  /** The program's formulas take the figures of some data to those of the data with one more datum. */
  lemma {:induction false} OneMore(
    data: seq<real>, sum: real, mean: real, m2: real, m3: real, m4: real, x: real,
    n: real, delta: real, e: real, e2: real, term1: real)
    requires Summary(data, sum, mean, m2, m3, m4) && n == |data| as real + 1.0
    requires delta == x - mean && e == delta / n && e2 == e * e && term1 == Term1(delta, e, n - 1.0)
    ensures Summary(data + [x], sum + x, mean + e, m2 + term1, m3 + AddToM3(term1, e, n, m2),
                    m4 + AddToM4(term1, e, e2, n, m2, m3))
  {
    hide Deviations, Power, Shifted2, Shifted3, Shifted4, Sum, Mean, Term1, AddToM3, AddToM4;
    MeanCentres(data, mean);
    ShiftDeviations(data, mean, e);
    LastDeviations(data, x, mean + e, delta - e);
    assert delta == n * e;
    UpdateFormulas(n, m2, m3, m4, delta, e, e2, term1);
    NewMean(data, mean, x, e);
    SumGrows(data, x);
  }

  lemma ExtremesGrow(data: seq<real>, min: real, max: real, x: real)
    requires Extremes(data, min, max)
    ensures Extremes(data + [x], if data == [] || x < min then x else min, if data == [] || x > max then x else max)
  {}

  lemma NewMean(data: seq<real>, mean: real, x: real, e: real)
    requires data != [] ==> mean == Mean(data)
    requires x - mean == (|data| as real + 1.0) * e
    ensures Mean(data + [x]) == mean + e
  {
    var all, n := data + [x], |data| as real;
    assert all[..|data|] == data && Sum(all) == Sum(data) + x;
    assert data == [] ==> Sum(data) == 0.0;
    assert Sum(data) == n * mean;
    assert Sum(all) == (n + 1.0) * (mean + e);
  }

  // ---------------------------------------------------------------- the streaming object

  class Stats {
    var n: real
    var min: real
    var max: real
    var sum: real
    var mean: real
    var m2: real
    var m3: real
    var m4: real
    ghost var data: seq<real>

    constructor ()
      ensures Valid() && data == []
    {
      n, min, max, sum, mean, m2, m3, m4, data := 0.0, 0.0, 0.0, 0.0, 0.0, 0.0, 0.0, 0.0, [];
    }

    /** The fields are the batch figures of the data seen so far. */
    ghost predicate Valid()
      reads this
    {
      n == |data| as real && Summary(data, sum, mean, m2, m3, m4) && Extremes(data, min, max)
    }

    method Update(x: real)
      requires Valid()
      modifies this
      ensures Valid() && data == old(data) + [x]
    {
      hide Summary, Extremes, Term1, AddToM3, AddToM4;
      ExtremesGrow(data, min, max, x);
      if n == 0.0 || x < min {
        min := x;
      }
      if n == 0.0 || x > max {
        max := x;
      }
      sum := sum + x;
      var nMinus1 := n;
      n := n + 1.0;
      var delta := x - mean;
      var deltaN := delta / n;
      var deltaN2 := deltaN * deltaN;
      var term1 := Term1(delta, deltaN, nMinus1);
      OneMore(data, old(sum), mean, m2, m3, m4, x, n, delta, deltaN, deltaN2, term1);
      mean := mean + deltaN;
      m4 := m4 + AddToM4(term1, deltaN, deltaN2, n, m2, m3);
      m3 := m3 + AddToM3(term1, deltaN, n, m2);
      m2 := m2 + term1;
      data := data + [x];
    }

    method UpdateArray(values: seq<real>)
      requires Valid()
      modifies this
      ensures Valid() && data == old(data) + values
    {
      hide Summary, Extremes;
      assert values[..0] == [];
      for i := 0 to |values|
        invariant Valid() && data == old(data) + values[..i]
      {
        assert values[..i + 1] == values[..i] + [values[i]];
        Update(values[i]);
      }
      assert values[..|values|] == values;
    }

    function PopulationVariance(): Float
      requires n >= 0.0
      reads this
    {
      if n == 0.0 || n == 1.0 then NaN else Num(m2 / n)
    }

    function SampleVariance(): Float
      requires n >= 0.0
      reads this
    {
      if n == 0.0 || n == 1.0 then NaN else Num(m2 / (n - 1.0))
    }

    /** n m4 / m2^2 - 3, where 0/0 is not a number. */
    function PopulationKurtosis(): Float
      requires m2 == 0.0 ==> m4 == 0.0
      reads this
    {
      if m2 == 0.0 then NaN else Num(StreamedExcess(n, m2, m4))
    }
  }

  lemma SumGrows(data: seq<real>, x: real)
    ensures Sum(data + [x]) == Sum(data) + x
  {
    assert (data + [x])[..|data|] == data;
  }

  // ---------------------------------------------------------------- the batch functions

  method StatsMin(data: seq<real>) returns (min: Float)
    ensures if data == [] then min == NaN else min.Num? && IsLeast(min.r, data)
  {
    if data == [] {
      return NaN;
    }
    var m := data[0];
    for i := 0 to |data|
      invariant m in data && forall j :: 0 <= j < i ==> m <= data[j]
    {
      if data[i] < m {
        m := data[i];
      }
    }
    return Num(m);
  }

  method StatsMax(data: seq<real>) returns (max: Float)
    ensures if data == [] then max == NaN else max.Num? && IsGreatest(max.r, data)
  {
    if data == [] {
      return NaN;
    }
    var m := data[0];
    for i := 0 to |data|
      invariant m in data && forall j :: 0 <= j < i ==> data[j] <= m
    {
      if data[i] > m {
        m := data[i];
      }
    }
    return Num(m);
  }

  method StatsSum(data: seq<real>) returns (sum: real)
    ensures sum == Sum(data)
  {
    sum := 0.0;
    for i := 0 to |data|
      invariant sum == Sum(data[..i])
    {
      assert data[..i + 1] == data[..i] + [data[i]];
      SumGrows(data[..i], data[i]);
      sum := sum + data[i];
    }
    assert data[..|data|] == data;
  }

  method StatsMean(data: seq<real>) returns (mean: Float)
    ensures mean == if data == [] then NaN else Num(Mean(data))
  {
    var sum := StatsSum(data);
    assert data == [] ==> sum == 0.0;
    mean := Ratio(sum, |data| as real);
  }

  /** The loops over the deviations from the mean; over no data they do nothing, whatever the mean is. */
  method SumPoweredDeltas(data: seq<real>, k: nat) returns (sum: real)
    ensures sum == Deviations(data, Centre(data), k)
  {
    hide Power, Mean;
    var mean := StatsMean(data);
    sum := 0.0;
    for i := 0 to |data|
      invariant sum == Deviations(data[..i], Centre(data), k)
    {
      assert data[..i + 1] == data[..i] + [data[i]];
      LastDeviation(data[..i], data[i], Centre(data), k);
      sum := sum + Power(data[i] - mean.r, k);
    }
    assert data[..|data|] == data;
  }

  function BatchPopulationVariance(data: seq<real>): Float {
    NoDataNoDeviations(data);
    Ratio(Deviations(data, Centre(data), 2), |data| as real)
  }

  function BatchSampleVariance(data: seq<real>): Float {
    NoDataNoDeviations(data);
    Ratio(Deviations(data, Centre(data), 2), |data| as real - 1.0)
  }

  function Over(a: real, b: real): (q: real)
    requires b != 0.0
    ensures q * b == a
  {
    a / b
  }

  function Times(x: real, y: real): real {
    x * y
  }

  lemma ProductIsPositive(x: real, y: real)
    requires x > 0.0 && y > 0.0
    ensures Times(x, y) > 0.0
  {}

  lemma OppositeSquare(x: real)
    ensures Times(-x, -x) == Times(x, x)
  {}

  function Square(x: real): (y: real)
    ensures x != 0.0 ==> y > 0.0
  {
    SquareIsPositive(x);
    Times(x, x)
  }

  lemma SquareIsPositive(x: real)
    ensures x != 0.0 ==> Times(x, x) > 0.0
  {
    if x > 0.0 {
      ProductIsPositive(x, x);
    } else if x < 0.0 {
      ProductIsPositive(-x, -x);
      OppositeSquare(x);
    }
  }

  function Excess(sum4: real, variance: real, n: real): real
    requires variance != 0.0 && n != 0.0
  {
    Over(Over(sum4, Square(variance)), n) - 3.0
  }

  function StreamedExcess(n: real, m2: real, m4: real): real
    requires m2 != 0.0
  {
    Over(n * m4, Square(m2)) - 3.0
  }

  function BatchPopulationKurtosis(data: seq<real>): Float {
    var v := BatchPopulationVariance(data);
    if v == NaN || v == Num(0.0) then NaN
    else Num(Excess(Deviations(data, Centre(data), 4), v.r, |data| as real))
  }

  lemma NoDataNoDeviations(data: seq<real>)
    ensures |data| <= 1 ==> Deviations(data, Centre(data), 2) == 0.0
  {
    if |data| == 1 {
      assert data[..0] == [] && Sum(data) == Sum([]) + data[0] == data[0];
      assert Mean(data) == data[0];
      Powers(data[0] - Mean(data));
      assert Deviations(data, data[0], 2) == Deviations([], data[0], 2) + Power(0.0, 2);
    }
  }

  method StatsPopulationVariance(data: seq<real>) returns (v: Float)
    ensures v == BatchPopulationVariance(data)
  {
    var ssd := SumPoweredDeltas(data, 2);
    NoDataNoDeviations(data);
    v := Ratio(ssd, |data| as real);
  }

  method StatsSampleVariance(data: seq<real>) returns (v: Float)
    ensures v == BatchSampleVariance(data)
  {
    var ssd := SumPoweredDeltas(data, 2);
    NoDataNoDeviations(data);
    v := Ratio(ssd, |data| as real - 1.0);
  }

  method StatsPopulationKurtosis(data: seq<real>) returns (kurtosis: Float)
    ensures kurtosis == BatchPopulationKurtosis(data)
  {
    hide Deviations, Excess;
    var n := |data| as real;
    var sum4 := SumPoweredDeltas(data, 4);
    var variance := StatsPopulationVariance(data);
    if variance == NaN || variance == Num(0.0) {
      return NaN;
    }
    kurtosis := Num(Excess(sum4, variance.r, n));
  }

  // ---------------------------------------------------------------- streaming against batch

  /** The two population variances agree except over a single datum: streaming has none, batch has zero. */
  lemma PopulationVariancesAgree(s: Stats)
    requires s.Valid()
    ensures s.PopulationVariance() == BatchPopulationVariance(s.data) <==> |s.data| != 1
  {
    NoDataNoDeviations(s.data);
  }

  /** The two sample variances agree except over no data: streaming has none, batch divides zero by minus one. */
  lemma SampleVariancesAgree(s: Stats)
    requires s.Valid()
    ensures s.SampleVariance() == BatchSampleVariance(s.data) <==> s.data != []
  {
    NoDataNoDeviations(s.data);
  }

  lemma {:induction false} NoSpread(data: seq<real>, c: real)
    ensures Deviations(data, c, 2) >= 0.0
    ensures Deviations(data, c, 2) == 0.0 ==> Deviations(data, c, 4) == 0.0
  {
    if data != [] {
      var y := data[|data| - 1] - c;
      NoSpread(data[..|data| - 1], c);
      Powers(y);
      assert y * y >= 0.0 && (y * y == 0.0 ==> y == 0.0);
    }
  }

  lemma KurtosisFormulas(n: real, m2: real, m4: real)
    requires n > 0.0 && m2 != 0.0
    ensures m2 / n != 0.0 && Excess(m4, m2 / n, n) == StreamedExcess(n, m2, m4)
  {
    hide Over, Square;
    var v := m2 / n;
    assert v * n == m2;
    var w, u, c := Square(v), Square(m2), n * m4;
    SquareOfProduct(v, n, m2);
    var q := Over(m4, w);
    Regroup(Over(q, n), n, w, q, m4, u);
    Quotient(Over(q, n), u, c);
  }

  lemma SquareOfProduct(v: real, n: real, m: real)
    requires v * n == m
    ensures Square(m) == Square(v) * (n * n)
  {}

  lemma Regroup(k: real, n: real, w: real, q: real, m4: real, u: real)
    requires k * n == q && q * w == m4 && u == w * (n * n)
    ensures k * u == n * m4
  {
    assert k * u == (k * n) * w * n;
  }

  lemma Quotient(a: real, b: real, c: real)
    requires b != 0.0 && a * b == c
    ensures a == Over(c, b)
  {}

  /** The two excess kurtoses agree on all data; where there is no spread, neither is a number. */
  lemma KurtosesAgree(s: Stats)
    requires s.Valid()
    ensures s.m2 == 0.0 ==> s.m4 == 0.0
    ensures s.PopulationKurtosis() == BatchPopulationKurtosis(s.data)
  {
    hide Deviations, Mean, Excess, StreamedExcess;
    NoSpread(s.data, s.mean);
    NoDataNoDeviations(s.data);
    if s.data != [] && s.m2 != 0.0 {
      KurtosisFormulas(s.n, s.m2, s.m4);
    }
  }
}
