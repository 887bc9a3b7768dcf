/** The Summary accumulator of OsiFeatures.cpp: running min / max, min-abs /
    max-abs over the values that are not treated as zero, a running sum and
    counters of integral, positive and negative values. The specification
    functions below give each field as a function of the sequence of values
    added so far; the class keeps its fields equal to them. */
module Stats {
  import opened Numerics

  /** Running minimum, starting from the sentinel numeric_limits<double>::max(). */
  function MinOf(s: seq<Double>): (m: real)
    ensures m <= DblMax
  {
    if s == [] then DblMax else Min(s[|s| - 1], MinOf(s[..|s| - 1]))
  }

  /** Running maximum, starting from numeric_limits<double>::min(), which is
      the smallest positive double: the result is never below it. */
  function MaxOf(s: seq<Double>): (m: real)
    ensures DblMin <= m
  {
    if s == [] then DblMin else Max(s[|s| - 1], MaxOf(s[..|s| - 1]))
  }

  /** Smallest absolute value among the values not treated as zero; never
      below the tolerance, so finish() never sees it at 0. */
  function MinAbsOf(s: seq<Double>): (m: real)
    ensures Tol <= m <= DblMax
  {
    if s == [] then DblMax
    else if Abs(s[|s| - 1]) >= Tol then Min(Abs(s[|s| - 1]), MinAbsOf(s[..|s| - 1]))
    else MinAbsOf(s[..|s| - 1])
  }

  /** Largest absolute value among the values not treated as zero. */
  function MaxAbsOf(s: seq<Double>): (m: real)
    ensures DblMin <= m
  {
    if s == [] then DblMin
    else if Abs(s[|s| - 1]) >= Tol then Max(Abs(s[|s| - 1]), MaxAbsOf(s[..|s| - 1]))
    else MaxAbsOf(s[..|s| - 1])
  }

  /** The running minimum is the least of the values and the sentinel. */
  lemma {:induction false} MinOfIsLeast(s: seq<Double>)
    ensures forall i | 0 <= i < |s| :: MinOf(s) <= s[i]
    ensures MinOf(s) == DblMax || exists i | 0 <= i < |s| :: MinOf(s) == s[i]
  {
    if s != [] {
      var init := s[..|s| - 1];
      MinOfIsLeast(init);
      assert forall i | 0 <= i < |init| :: init[i] == s[i];
    }
  }

  /** The running maximum is the greatest of the values and the sentinel. */
  lemma {:induction false} MaxOfIsGreatest(s: seq<Double>)
    ensures forall i | 0 <= i < |s| :: s[i] <= MaxOf(s)
    ensures MaxOf(s) == DblMin || exists i | 0 <= i < |s| :: MaxOf(s) == s[i]
  {
    if s != [] {
      var init := s[..|s| - 1];
      MaxOfIsGreatest(init);
      assert forall i | 0 <= i < |init| :: init[i] == s[i];
    }
  }

  /** The min-abs field is the least absolute value among the values not
      treated as zero, or the sentinel when there is none. */
  lemma {:induction false} MinAbsOfIsLeast(s: seq<Double>)
    ensures forall i | 0 <= i < |s| && Abs(s[i]) >= Tol :: MinAbsOf(s) <= Abs(s[i])
    ensures MinAbsOf(s) == DblMax || exists i | 0 <= i < |s| :: Abs(s[i]) >= Tol && MinAbsOf(s) == Abs(s[i])
  {
    if s != [] {
      var init := s[..|s| - 1];
      MinAbsOfIsLeast(init);
      assert forall i | 0 <= i < |init| :: init[i] == s[i];
    }
  }

  /** The max-abs field is the greatest absolute value among the values not
      treated as zero, or the sentinel when there is none. */
  lemma {:induction false} MaxAbsOfIsGreatest(s: seq<Double>)
    ensures forall i | 0 <= i < |s| && Abs(s[i]) >= Tol :: Abs(s[i]) <= MaxAbsOf(s)
    ensures MaxAbsOf(s) == DblMin || exists i | 0 <= i < |s| :: Abs(s[i]) >= Tol && MaxAbsOf(s) == Abs(s[i])
  {
    if s != [] {
      var init := s[..|s| - 1];
      MaxAbsOfIsGreatest(init);
      assert forall i | 0 <= i < |init| :: init[i] == s[i];
    }
  }

  function Sum(s: seq<Double>): real
  {
    if s == [] then 0.0 else Sum(s[..|s| - 1]) + s[|s| - 1]
  }

  /** Number of values accepted by intVal. */
  function CountIntegral(s: seq<Double>): (n: nat)
    ensures n <= |s|
  {
    if s == [] then 0 else CountIntegral(s[..|s| - 1]) + (if IntVal(s[|s| - 1]) then 1 else 0)
  }

  /** Number of values at or above the tolerance. */
  function CountPositive(s: seq<Double>): (n: nat)
    ensures n <= |s|
  {
    if s == [] then 0 else CountPositive(s[..|s| - 1]) + (if s[|s| - 1] >= Tol then 1 else 0)
  }

  /** Number of values at or below minus the tolerance. */
  function CountNegative(s: seq<Double>): (n: nat)
    ensures n <= |s|
  {
    if s == [] then 0 else CountNegative(s[..|s| - 1]) + (if s[|s| - 1] <= -Tol then 1 else 0)
  }

  /** No value is both positive and negative, so the two counters together
      never exceed the number of values. */
  lemma {:induction false} SignCountsBounded(s: seq<Double>)
    ensures CountPositive(s) + CountNegative(s) <= |s|
  {
    if s != [] {
      SignCountsBounded(s[..|s| - 1]);
    }
  }

  /** The integral counter reaches the number of values exactly when every
      value passes intVal. */
  lemma {:induction false} CountIntegralAll(s: seq<Double>)
    ensures CountIntegral(s) == |s| <==> forall i | 0 <= i < |s| :: IntVal(s[i])
  {
    if s != [] {
      var init := s[..|s| - 1];
      CountIntegralAll(init);
      assert forall i | 0 <= i < |init| :: init[i] == s[i];
    }
  }

  /** A positive counter above zero has a witness at or above the tolerance. */
  lemma {:induction false} PositiveWitness(s: seq<Double>) returns (i: nat)
    requires CountPositive(s) > 0
    ensures i < |s| && s[i] >= Tol
  {
    if s[|s| - 1] >= Tol {
      i := |s| - 1;
    } else {
      i := PositiveWitness(s[..|s| - 1]);
    }
  }

  /** A negative counter above zero has a witness at or below minus the tolerance. */
  lemma {:induction false} NegativeWitness(s: seq<Double>) returns (i: nat)
    requires CountNegative(s) > 0
    ensures i < |s| && s[i] <= -Tol
  {
    if s[|s| - 1] <= -Tol {
      i := |s| - 1;
    } else {
      i := NegativeWitness(s[..|s| - 1]);
    }
  }

  /** A zero negative counter means that every value lies above minus the tolerance. */
  lemma {:induction false} NoNegativeMeansAboveTol(s: seq<Double>)
    requires CountNegative(s) == 0
    ensures forall i | 0 <= i < |s| :: s[i] > -Tol
  {
    if s != [] {
      var init := s[..|s| - 1];
      NoNegativeMeansAboveTol(init);
      assert forall i | 0 <= i < |init| :: init[i] == s[i];
    }
  }

  /** A negative counter of exactly one names the one negative value. */
  lemma {:induction false} SingleNegative(s: seq<Double>) returns (i: nat)
    requires CountNegative(s) == 1
    ensures i < |s| && s[i] <= -Tol
    ensures forall j | 0 <= j < |s| && j != i :: s[j] > -Tol
  {
    var init := s[..|s| - 1];
    assert forall j | 0 <= j < |init| :: init[j] == s[j];
    if s[|s| - 1] <= -Tol {
      i := |s| - 1;
      NoNegativeMeansAboveTol(init);
    } else {
      i := SingleNegative(init);
    }
  }

  /** How each running field of Summary moves when one value is appended. */
  lemma AppendUpdates(s: seq<Double>, v: Double)
    ensures MinOf(s + [v]) == Min(v, MinOf(s)) && MaxOf(s + [v]) == Max(v, MaxOf(s))
    ensures MinAbsOf(s + [v]) == if Abs(v) >= Tol then Min(Abs(v), MinAbsOf(s)) else MinAbsOf(s)
    ensures MaxAbsOf(s + [v]) == if Abs(v) >= Tol then Max(Abs(v), MaxAbsOf(s)) else MaxAbsOf(s)
    ensures Sum(s + [v]) == Sum(s) + v
    ensures CountIntegral(s + [v]) == CountIntegral(s) + if IntVal(v) then 1 else 0
    ensures CountPositive(s + [v]) == CountPositive(s) + if v >= Tol then 1 else 0
    ensures CountNegative(s + [v]) == CountNegative(s) + if v <= -Tol then 1 else 0
  {
    assert (s + [v])[..|s|] == s;
  }

  /** A lower bound of every value bounds the sum by |s| times it. */
  lemma {:induction false} SumAtLeast(s: seq<Double>, lo: real)
    requires forall i | 0 <= i < |s| :: lo <= s[i]
    ensures |s| as real * lo <= Sum(s)
  {
    if s != [] {
      var t := s[..|s| - 1];
      SumAtLeast(t, lo);
      assert |s| as real * lo == |t| as real * lo + lo;
    }
  }

  /** An upper bound of every value bounds the sum by |s| times it. */
  lemma {:induction false} SumAtMost(s: seq<Double>, hi: real)
    requires forall i | 0 <= i < |s| :: s[i] <= hi
    ensures Sum(s) <= |s| as real * hi
  {
    if s != [] {
      var t := s[..|s| - 1];
      SumAtMost(t, hi);
      assert |s| as real * hi == |t| as real * hi + hi;
    }
  }

  lemma QuotientBetween(x: real, n: real, lo: real, hi: real)
    requires n > 0.0 && n * lo <= x <= n * hi
    ensures lo <= x / n <= hi
  {
    var q := x / n;
    assert q * n == x;
    if q < lo {
      ProductSign(lo - q, n);
    }
    if q > hi {
      ProductSign(q - hi, n);
    }
  }

  /** The sum over the count is at least the running minimum ... */
  lemma MeanAtLeastMin(s: seq<Double>)
    requires |s| > 0
    ensures MinOf(s) <= Sum(s) / |s| as real
  {
    var lo := MinOf(s);
    MinOfIsLeast(s);
    SumAtLeast(s, lo);
    QuotientBetween(Sum(s), |s| as real, lo, Sum(s) / |s| as real);
  }

  /** ... and at most the running maximum. */
  lemma MeanAtMostMax(s: seq<Double>)
    requires |s| > 0
    ensures Sum(s) / |s| as real <= MaxOf(s)
  {
    var hi := MaxOf(s);
    MaxOfIsGreatest(s);
    SumAtMost(s, hi);
    QuotientBetween(Sum(s), |s| as real, Sum(s) / |s| as real, hi);
  }

  /** avg as computed by finish(): it lies between the running minimum and
      the running maximum. */
  function Average(s: seq<Double>): (r: real)
    requires |s| > 0
    ensures MinOf(s) <= r <= MaxOf(s)
  {
    MeanAtLeastMin(s);
    MeanAtMostMax(s);
    Sum(s) / |s| as real
  }

  /** ratioLSA as computed by finish(): largest over smallest absolute value.
      The smallest one is never below the tolerance, so the quotient is
      always defined; it is at least one as soon as one value is not treated
      as zero, and below one (both fields still at their sentinels) otherwise. */
  function RatioLSA(s: seq<Double>): (r: real)
    ensures r > 0.0
    ensures (exists i | 0 <= i < |s| :: Abs(s[i]) >= Tol) <==> r >= 1.0
  {
    var hi, lo := MaxAbsOf(s), MinAbsOf(s);
    MinAbsOfIsLeast(s);
    MaxAbsOfIsGreatest(s);
    QuotientBounds(hi, lo);
    hi / lo
  }

  /** allIntEl as computed by finish(): 1 exactly when every value passes intVal. */
  function AllIntFlag(s: seq<Double>): (r: nat)
    ensures r <= 1
    ensures r == 1 <==> forall i | 0 <= i < |s| :: IntVal(s[i])
  {
    CountIntegralAll(s);
    if CountIntegral(s) == |s| then 1 else 0
  }

  /** percIntEl as computed by finish(): the percentage of values passing intVal. */
  function PercIntegral(s: seq<Double>): (r: real)
    requires |s| > 0
    ensures 0.0 <= r <= 100.0
    ensures r == 100.0 <==> AllIntFlag(s) == 1
  {
    var c, n := CountIntegral(s) as real, |s| as real;
    QuotientBounds(c, n);
    (c / n) * 100.0
  }

  class Summary {
    var minV: real
    var maxV: real
    var minAbsV: real
    var maxAbsV: real
    var avg: real
    var ratioLSA: real
    var percIntEl: real
    var summV: real
    var nEl: nat
    var intEl: nat
    var allIntEl: nat
    var nPosVal: nat
    var nNegVal: nat

    /** The values added so far, in order. */
    ghost var values: seq<Double>

    /** The running fields are the specification functions of the values. */
    ghost predicate Valid()
      reads this
    {
      && nEl == |values|
      && minV == MinOf(values)
      && maxV == MaxOf(values)
      && minAbsV == MinAbsOf(values)
      && maxAbsV == MaxAbsOf(values)
      && summV == Sum(values)
      && intEl == CountIntegral(values)
      && nPosVal == CountPositive(values)
      && nNegVal == CountNegative(values)
    }

    constructor ()
      ensures Valid() && values == []
      ensures minV == DblMax && maxV == DblMin && minAbsV == DblMax && maxAbsV == DblMin
      ensures avg == 0.0 && ratioLSA == 0.0 && percIntEl == 0.0 && summV == 0.0
      ensures nEl == 0 && intEl == 0 && allIntEl == 0 && nPosVal == 0 && nNegVal == 0
    {
      minV, maxV := DblMax, DblMin;
      minAbsV, maxAbsV := DblMax, DblMin;
      avg, ratioLSA, percIntEl := 0.0, 0.0, 0.0;
      summV := 0.0;
      nEl, intEl, allIntEl, nPosVal, nNegVal := 0, 0, 0, 0, 0;
      values := [];
    }

    method Add(val: Double)
      requires Valid()
      modifies this
      ensures Valid() && values == old(values) + [val]
      ensures nEl == old(nEl) + 1
      ensures nPosVal + nNegVal <= nEl && intEl <= nEl
      ensures minV <= val <= maxV
      ensures Abs(val) < Tol ==> minAbsV == old(minAbsV) && maxAbsV == old(maxAbsV)
      ensures Abs(val) >= Tol ==> minAbsV <= Abs(val) <= maxAbsV
      ensures avg == old(avg) && ratioLSA == old(ratioLSA)
      ensures percIntEl == old(percIntEl) && allIntEl == old(allIntEl)
    {
      AppendUpdates(values, val);
      AddToExtremes(val);
      AddToCounters(val);
      nEl := nEl + 1;
      values := values + [val];
      SignCountsBounded(values);
    }

    /** The min / max / min-abs / max-abs part of add(). */
    method AddToExtremes(val: Double)
      modifies this`minV, this`maxV, this`minAbsV, this`maxAbsV
      ensures minV == Min(val, old(minV)) && maxV == Max(val, old(maxV))
      ensures minAbsV == if Abs(val) >= Tol then Min(Abs(val), old(minAbsV)) else old(minAbsV)
      ensures maxAbsV == if Abs(val) >= Tol then Max(Abs(val), old(maxAbsV)) else old(maxAbsV)
    {
      minV := Min(val, minV);
      maxV := Max(val, maxV);
      var absv := Abs(val);
      if absv >= Tol {
        minAbsV := Min(absv, minAbsV);
        maxAbsV := Max(absv, maxAbsV);
      }
    }

    /** The sum and counter part of add(). */
    method AddToCounters(val: Double)
      modifies this`summV, this`intEl, this`nPosVal, this`nNegVal
      ensures summV == old(summV) + val
      ensures intEl == old(intEl) + if IntVal(val) then 1 else 0
      ensures nPosVal == old(nPosVal) + if val >= Tol then 1 else 0
      ensures nNegVal == old(nNegVal) + if val <= -Tol then 1 else 0
    {
      summV := summV + val;
      if IntVal(val) {
        intEl := intEl + 1;
      }
      if val >= Tol {
        nPosVal := nPosVal + 1;
      } else {
        if val <= -Tol {
          nNegVal := nNegVal + 1;
        }
      }
    }

    /** The outputs finish() computes agree with the values added. */
    ghost predicate Finished()
      reads this
    {
      && Valid() && |values| > 0
      && avg == Average(values) && ratioLSA == RatioLSA(values)
      && allIntEl == AllIntFlag(values) && percIntEl == PercIntegral(values)
    }

    method Finish()
      requires Valid() && nEl > 0
      modifies this`avg, this`ratioLSA, this`allIntEl, this`percIntEl
      ensures Valid() && Finished()
      ensures avg == Average(values) && ratioLSA == RatioLSA(values)
      ensures allIntEl == AllIntFlag(values) && percIntEl == PercIntegral(values)
    {
      avg := summV / nEl as real;
      if minAbsV != 0.0 {
        ratioLSA := maxAbsV / minAbsV;
      }
      if intEl == nEl {
        allIntEl := 1;
      } else {
        allIntEl := 0;
      }
      percIntEl := (intEl as real / nEl as real) * 100.0;
    }
  }
}
