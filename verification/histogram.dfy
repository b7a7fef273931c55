/** The histogram of a report card (simulation/visualization/report_card.go), over exact reals. */
module Histogram {
  import opened Moments

  predicate Ascending(s: seq<real>) {
    forall i, j :: 0 <= i <= j < |s| ==> s[i] <= s[j]
  }

  /** Bin `k` takes what lies above its lower boundary, up to its upper one; bin 0 also takes all below. */
  predicate InBin(d: real, boundaries: seq<real>, k: nat)
    requires k + 1 < |boundaries|
  {
    (k == 0 || boundaries[k] < d) && d <= boundaries[k + 1]
  }

  function Count(data: seq<real>, boundaries: seq<real>, k: nat): (c: nat)
    requires k + 1 < |boundaries|
    ensures c <= |data|
  {
    if data == [] then 0
    else Count(data[..|data| - 1], boundaries, k) + (if InBin(data[|data| - 1], boundaries, k) then 1 else 0)
  }

  /** The merge stays in bounds exactly when the last datum does. */
  predicate Covered(data: seq<real>, boundaries: seq<real>) {
    data == [] || (|boundaries| > 1 && data[|data| - 1] <= boundaries[|boundaries| - 1])
  }

  lemma OneBin(d: real, boundaries: seq<real>, j: nat, k: nat)
    requires Ascending(boundaries) && j + 1 < |boundaries| && k + 1 < |boundaries|
    requires InBin(d, boundaries, j) && InBin(d, boundaries, k)
    ensures j == k
  {}

  lemma CountGrows(data: seq<real>, d: real, boundaries: seq<real>, k: nat)
    requires k + 1 < |boundaries|
    ensures Count(data + [d], boundaries, k) == Count(data, boundaries, k) + (if InBin(d, boundaries, k) then 1 else 0)
  {
    assert (data + [d])[..|data|] == data;
  }

  /** The next datum is counted in the one bin it lies in. */
  lemma Tally(data: seq<real>, i: nat, boundaries: seq<real>, bin: nat)
    requires i < |data| && bin + 1 < |boundaries| && Ascending(boundaries) && InBin(data[i], boundaries, bin)
    ensures forall k :: 0 <= k < |boundaries| - 1 ==>
              Count(data[..i + 1], boundaries, k) == Count(data[..i], boundaries, k) + (if k == bin then 1 else 0)
  {
    hide Count, Ascending;
    assert data[..i + 1] == data[..i] + [data[i]];
    forall k | 0 <= k < |boundaries| - 1
      ensures Count(data[..i + 1], boundaries, k) == Count(data[..i], boundaries, k) + (if k == bin then 1 else 0)
    {
      CountGrows(data[..i], data[i], boundaries, k);
      if InBin(data[i], boundaries, k) {
        OneBin(data[i], boundaries, k, bin);
      }
    }
  }

  lemma NothingCountedYet(data: seq<real>, boundaries: seq<real>)
    ensures forall k :: 0 <= k < |boundaries| - 1 ==> Count(data[..0], boundaries, k) == 0
  {}

  function Fraction(count: nat, total: nat): Float {
    if total == 0 then NaN else Num(count as real / total as real)
  }

  /**
   * One pass over sorted data and ascending boundaries. `ok` is false when it runs past the last
   * boundary and crashes; otherwise every bin holds the fraction of the data that lies in it, which
   * is not a number when there is no data.
   */
  method BinUp(boundaries: seq<real>, data: seq<real>) returns (ok: bool, bins: array<Float>)
    requires boundaries != [] && Ascending(boundaries) && Ascending(data)
    ensures fresh(bins) && bins.Length == |boundaries| - 1
    ensures ok <==> Covered(data, boundaries)
    ensures ok ==> forall k :: 0 <= k < bins.Length ==>
              bins[k] == Fraction(Count(data, boundaries, k), |data|)
  {
    hide Count;
    NothingCountedYet(data, boundaries);
    bins := new Float[|boundaries| - 1](_ => Num(0.0));
    var currentBin := 0;
    for i := 0 to |data|
      invariant 0 <= currentBin && (currentBin == 0 || currentBin + 1 < |boundaries|)
      invariant currentBin > 0 ==> i > 0 && boundaries[currentBin] < data[i - 1]
      invariant i > 0 ==> |boundaries| > 1 && data[i - 1] <= boundaries[|boundaries| - 1]
      invariant forall k :: 0 <= k < bins.Length ==> bins[k] == Num(Count(data[..i], boundaries, k) as real)
    {
      var d := data[i];
      while true
        invariant 0 <= currentBin < |boundaries|
        invariant currentBin > 0 ==> boundaries[currentBin] < d
        decreases |boundaries| - currentBin
      {
        if currentBin + 1 >= |boundaries| {
          return false, bins;
        }
        if boundaries[currentBin + 1] >= d {
          break;
        }
        currentBin := currentBin + 1;
      }
      Tally(data, i, boundaries, currentBin);
      bins[currentBin] := Num(bins[currentBin].r + 1.0);
    }
    assert data[..|data|] == data;
    for i := 0 to bins.Length
      invariant forall k :: i <= k < bins.Length ==> bins[k] == Num(Count(data, boundaries, k) as real)
      invariant forall k :: 0 <= k < i ==>
                  bins[k] == Fraction(Count(data, boundaries, k), |data|)
    {
      bins[i] := Ratio(bins[i].r, |data| as real);
    }
    ok := true;
  }

  // ---------------------------------------------------------------- all the fractions together

  /** The counts of the first `k` bins together. */
  function Counted(data: seq<real>, boundaries: seq<real>, k: nat): nat
    requires k < |boundaries|
  {
    if k == 0 then 0 else Counted(data, boundaries, k - 1) + Count(data, boundaries, k - 1)
  }

  /** The fractions of the first `k` bins together. */
  function Fractions(data: seq<real>, boundaries: seq<real>, k: nat): real
    requires k < |boundaries| && data != []
  {
    if k == 0 then 0.0
    else Fractions(data, boundaries, k - 1) + Fraction(Count(data, boundaries, k - 1), |data|).r
  }

  /** One datum more is counted once among the first `k` bins if it is not above their last boundary. */
  lemma {:induction false} CountedGrows(data: seq<real>, d: real, boundaries: seq<real>, k: nat)
    requires Ascending(boundaries) && 0 < k < |boundaries|
    ensures Counted(data + [d], boundaries, k) == Counted(data, boundaries, k) + (if d <= boundaries[k] then 1 else 0)
    decreases k
  {
    CountGrows(data, d, boundaries, k - 1);
    if k > 1 {
      CountedGrows(data, d, boundaries, k - 1);
      assert boundaries[k - 1] <= boundaries[k];
    }
  }

  lemma {:induction false} NothingCounted(boundaries: seq<real>, k: nat)
    requires k < |boundaries|
    ensures Counted([], boundaries, k) == 0
  {
    if k > 0 {
      NothingCounted(boundaries, k - 1);
    }
  }

  /** The first `k` bins together count the data up to their last boundary, each datum once. */
  lemma {:induction false} AllCounted(data: seq<real>, boundaries: seq<real>, k: nat)
    requires Ascending(boundaries) && 0 < k < |boundaries|
    requires forall i :: 0 <= i < |data| ==> data[i] <= boundaries[k]
    ensures Counted(data, boundaries, k) == |data|
    decreases |data|
  {
    if data == [] {
      NothingCounted(boundaries, k);
    } else {
      var front, d := data[..|data| - 1], data[|data| - 1];
      assert data == front + [d];
      AllCounted(front, boundaries, k);
      CountedGrows(front, d, boundaries, k);
    }
  }

  /** How many data are not above a value. */
  function AtMost(data: seq<real>, x: real): nat {
    if data == [] then 0 else AtMost(data[..|data| - 1], x) + if data[|data| - 1] <= x then 1 else 0
  }

  /** The first bins together hold just the data that are not above their last boundary: a datum on a boundary goes below it. */
  lemma {:induction false} CumulativeCount(data: seq<real>, boundaries: seq<real>, k: nat)
    requires Ascending(boundaries) && 0 < k < |boundaries|
    ensures Counted(data, boundaries, k) == AtMost(data, boundaries[k])
    decreases |data|
  {
    if data == [] {
      NothingCounted(boundaries, k);
    } else {
      var front, d := data[..|data| - 1], data[|data| - 1];
      assert data == front + [d];
      CumulativeCount(front, boundaries, k);
      CountedGrows(front, d, boundaries, k);
    }
  }

  lemma AddFractions(a: nat, b: nat, n: nat)
    requires n > 0
    ensures Fraction(a, n).r + Fraction(b, n).r == Fraction(a + b, n).r
  {}

  lemma {:induction false} FractionsAreCounts(data: seq<real>, boundaries: seq<real>, k: nat)
    requires data != [] && k < |boundaries|
    ensures Fractions(data, boundaries, k) == Fraction(Counted(data, boundaries, k), |data|).r
  {
    hide Count;
    if k == 0 {
      assert Fraction(0, |data|).r == 0.0;
    } else {
      FractionsAreCounts(data, boundaries, k - 1);
      AddFractions(Counted(data, boundaries, k - 1), Count(data, boundaries, k - 1), |data|);
    }
  }

  /** Where the merge does not crash, the bars of the histogram add up to the whole. */
  lemma FractionsSumToOne(data: seq<real>, boundaries: seq<real>)
    requires Ascending(boundaries) && Ascending(data) && data != [] && Covered(data, boundaries)
    ensures Fractions(data, boundaries, |boundaries| - 1) == 1.0
  {
    hide Count, Counted, Fractions, Fraction;
    var k := |boundaries| - 1;
    AllCounted(data, boundaries, k);
    FractionsAreCounts(data, boundaries, k);
    Whole(|data|);
  }

  lemma Whole(n: nat)
    requires n > 0
    ensures Fraction(n, n).r == 1.0
  {}
}
