/** ROC analysis of the harness: the threshold ladder, the TAR/FAR of every
    threshold, the trapezoidal area under the curve and the FRR read off
    the curve at a target FAR. Similarities, thresholds and rates are
    reals; counts are naturals. */
module Roc {
  import opened Irpv

  /** One point of the curve: the rates at one threshold. */
  datatype ROCPoint = ROCPoint(tar: real, far: real, similarity: real)

  // ---------------------------------------------------------------------
  // Extremes of the similarity vector (std::min_element / max_element)

  function MinOf(s: seq<real>): (m: real)
    requires |s| > 0
    ensures exists j :: 0 <= j < |s| && s[j] == m
    ensures forall j :: 0 <= j < |s| ==> m <= s[j]
  {
    if |s| == 1 then s[0]
    else
      var m := MinOf(s[..|s| - 1]);
      if s[|s| - 1] < m then s[|s| - 1] else m
  }

  function MaxOf(s: seq<real>): (m: real)
    requires |s| > 0
    ensures exists j :: 0 <= j < |s| && s[j] == m
    ensures forall j :: 0 <= j < |s| ==> s[j] <= m
  {
    if |s| == 1 then s[0]
    else
      var m := MaxOf(s[..|s| - 1]);
      if m < s[|s| - 1] then s[|s| - 1] else m
  }

  // ---------------------------------------------------------------------
  // Classification counts

  /** Pairs predicted "same" (similarity not below `t`) and flagged 1. */
  function TruePositives(sims: seq<real>, flags: seq<Byte>, t: real): nat
    requires |flags| == |sims|
  {
    if sims == [] then 0
    else
      var k := |sims| - 1;
      TruePositives(sims[..k], flags[..k], t) + (if sims[k] >= t && flags[k] == 1 then 1 else 0)
  }

  /** Pairs predicted "not same" (similarity below `t`) and flagged 0. */
  function TrueNegatives(sims: seq<real>, flags: seq<Byte>, t: real): nat
    requires |flags| == |sims|
  {
    if sims == [] then 0
    else
      var k := |sims| - 1;
      TrueNegatives(sims[..k], flags[..k], t) + (if sims[k] < t && flags[k] == 0 then 1 else 0)
  }

  /** How many flags equal `v`. */
  function CountFlag(flags: seq<Byte>, v: Byte): nat
  {
    if flags == [] then 0
    else CountFlag(flags[..|flags| - 1], v) + (if flags[|flags| - 1] == v then 1 else 0)
  }

  // ---------------------------------------------------------------------
  // The curve as a specification

  /** Rung `i` of a ladder of `n` equal steps from `lo` towards `hi`. */
  function Ladder(lo: real, hi: real, n: nat, i: nat): real
    requires i < n
  {
    lo + (i as real) * ((hi - lo) / (n as real))
  }

  /** Threshold `i` of `points`: `minsim + i * (maxsim - minsim) / points`. */
  function Threshold(sims: seq<real>, points: nat, i: nat): real
    requires |sims| > 0 && i < points
  {
    Ladder(MinOf(sims), MaxOf(sims), points, i)
  }

  /** TAR at a threshold: true positives over the positive-pair total. */
  function Tar(sims: seq<real>, flags: seq<Byte>, totalPositive: nat, t: real): real
    requires |flags| == |sims| && totalPositive > 0
  {
    (TruePositives(sims, flags, t) as real) / (totalPositive as real)
  }

  /** FAR at a threshold: one minus true negatives over the negative-pair total. */
  function Far(sims: seq<real>, flags: seq<Byte>, totalNegative: nat, t: real): real
    requires |flags| == |sims| && totalNegative > 0
  {
    1.0 - (TrueNegatives(sims, flags, t) as real) / (totalNegative as real)
  }

  function PointAt(points: nat, flags: seq<Byte>, totalPositive: nat, totalNegative: nat,
                   sims: seq<real>, i: nat): ROCPoint
    requires |sims| > 0 && |flags| == |sims| && i < points
    requires totalPositive > 0 && totalNegative > 0
  {
    var t := Threshold(sims, points, i);
    ROCPoint(Tar(sims, flags, totalPositive, t), Far(sims, flags, totalNegative, t), t)
  }

  /** The curve `computeROC` returns: one point per threshold index. */
  function Curve(points: nat, flags: seq<Byte>, totalPositive: nat, totalNegative: nat,
                 sims: seq<real>): (roc: seq<ROCPoint>)
    requires |sims| > 0 && |flags| == |sims|
    requires totalPositive > 0 && totalNegative > 0
    ensures |roc| == points
  {
    seq(points, i requires 0 <= i < points =>
      PointAt(points, flags, totalPositive, totalNegative, sims, i))
  }

  /** `computeROC`: fills a preallocated vector of `points` entries; entry
      `i` classifies every pair against threshold `i` and counts the true
      positives and true negatives. A similarity vector must be non-empty
      (its extremes are taken) and both pair totals non-zero (they divide). */
  method ComputeROC(points: nat, issameperson: seq<Byte>, totalPositive: nat, totalNegative: nat,
                    similarity: seq<real>) returns (roc: seq<ROCPoint>)
    requires |similarity| > 0 && |issameperson| == |similarity|
    requires totalPositive > 0 && totalNegative > 0
    ensures |roc| == points
    ensures forall i :: 0 <= i < points ==>
      roc[i] == PointAt(points, issameperson, totalPositive, totalNegative, similarity, i)
  {
    var vroc := new ROCPoint[points];
    var maxsim := MaxOf(similarity);
    var minsim := MinOf(similarity);
    var i := 0;
    while i < points
      invariant 0 <= i <= points
      invariant forall k :: 0 <= k < i ==>
        vroc[k] == PointAt(points, issameperson, totalPositive, totalNegative, similarity, k)
    {
      var thresh := minsim + (i as real) * ((maxsim - minsim) / (points as real));
      assert thresh == Ladder(minsim, maxsim, points, i);
      var truePositive, trueNegative := 0, 0;
      var j := 0;
      while j < |similarity|
        invariant 0 <= j <= |similarity|
        invariant truePositive == TruePositives(similarity[..j], issameperson[..j], thresh)
        invariant trueNegative == TrueNegatives(similarity[..j], issameperson[..j], thresh)
      {
        var same: Byte := if similarity[j] < thresh then 0 else 1;
        if same == 1 && issameperson[j] == 1 {
          truePositive := truePositive + 1;
        } else if same == 0 && issameperson[j] == 0 {
          trueNegative := trueNegative + 1;
        }
        assert similarity[..j + 1][..j] == similarity[..j];
        assert issameperson[..j + 1][..j] == issameperson[..j];
        j := j + 1;
      }
      assert similarity[..j] == similarity && issameperson[..j] == issameperson;
      vroc[i] := ROCPoint((truePositive as real) / (totalPositive as real),
                          1.0 - (trueNegative as real) / (totalNegative as real),
                          thresh);
      assert vroc[i].tar == Tar(similarity, issameperson, totalPositive, thresh);
      assert vroc[i].far == Far(similarity, issameperson, totalNegative, thresh);
      i := i + 1;
    }
    roc := vroc[..];
  }

  // ---------------------------------------------------------------------
  // Properties of the threshold ladder

  lemma ScaleOrdered(x: real, y: real, step: real)
    requires 0.0 <= x <= y && 0.0 <= step
    ensures x * step <= y * step
    ensures x < y && 0.0 < step ==> x * step < y * step
  {
    assert (y - x) * step >= 0.0;
    if x < y && 0.0 < step {
      assert (y - x) * step > 0.0;
    }
  }

  /** The rung spacing of a ladder: non-negative, zero exactly when the
      bounds agree, and `n` rungs of it span the interval. */
  lemma StepFacts(lo: real, hi: real, n: nat)
    requires lo <= hi && n > 0
    ensures 0.0 <= (hi - lo) / (n as real)
    ensures (n as real) * ((hi - lo) / (n as real)) == hi - lo
    ensures lo < hi ==> 0.0 < (hi - lo) / (n as real)
    ensures lo == hi ==> (hi - lo) / (n as real) == 0.0
  {
  }

  lemma LadderOrdered(lo: real, hi: real, n: nat, i: nat, k: nat)
    requires lo <= hi && i <= k < n
    ensures lo <= Ladder(lo, hi, n, i) <= Ladder(lo, hi, n, k)
    ensures lo < hi && i < k ==> Ladder(lo, hi, n, i) < Ladder(lo, hi, n, k)
    ensures lo < hi ==> Ladder(lo, hi, n, k) < hi
    ensures lo == hi ==> Ladder(lo, hi, n, k) == lo
  {
    var step := (hi - lo) / (n as real);
    StepFacts(lo, hi, n);
    ScaleOrdered(0.0, i as real, step);
    ScaleOrdered(i as real, k as real, step);
    ScaleOrdered(k as real, n as real, step);
    var a, b := (i as real) * step, (k as real) * step;
    assert 0.0 <= a;
    assert a <= b;
    assert b <= (n as real) * step == hi - lo;
    assert Ladder(lo, hi, n, i) == lo + a;
    assert Ladder(lo, hi, n, k) == lo + b;
  }

  /** Thresholds rise with the index, strictly when the similarities are
      not all equal, and stay in [minsim, maxsim) (at minsim when all equal). */
  lemma ThresholdsOrdered(sims: seq<real>, points: nat, i: nat, k: nat)
    requires |sims| > 0 && i <= k < points
    ensures Threshold(sims, points, i) <= Threshold(sims, points, k)
    ensures MaxOf(sims) > MinOf(sims) && i < k ==>
      Threshold(sims, points, i) < Threshold(sims, points, k)
    ensures MinOf(sims) <= Threshold(sims, points, i)
    ensures MaxOf(sims) > MinOf(sims) ==> Threshold(sims, points, k) < MaxOf(sims)
    ensures MaxOf(sims) == MinOf(sims) ==> Threshold(sims, points, k) == MinOf(sims)
  {
    assert MinOf(sims) <= sims[0] <= MaxOf(sims);
    LadderOrdered(MinOf(sims), MaxOf(sims), points, i, k);
  }

  // ---------------------------------------------------------------------
  // Monotonicity of the counts

  lemma {:induction false} TruePositivesAntitone(sims: seq<real>, flags: seq<Byte>, t1: real, t2: real)
    requires |flags| == |sims| && t1 <= t2
    ensures TruePositives(sims, flags, t2) <= TruePositives(sims, flags, t1)
    decreases |sims|
  {
    if sims != [] {
      var k := |sims| - 1;
      TruePositivesAntitone(sims[..k], flags[..k], t1, t2);
    }
  }

  lemma {:induction false} TrueNegativesMonotone(sims: seq<real>, flags: seq<Byte>, t1: real, t2: real)
    requires |flags| == |sims| && t1 <= t2
    ensures TrueNegatives(sims, flags, t1) <= TrueNegatives(sims, flags, t2)
    decreases |sims|
  {
    if sims != [] {
      var k := |sims| - 1;
      TrueNegativesMonotone(sims[..k], flags[..k], t1, t2);
    }
  }

  lemma QuotientOrdered(a: nat, b: nat, total: nat)
    requires a <= b && total > 0
    ensures (a as real) / (total as real) <= (b as real) / (total as real)
  {
  }

  /** A higher threshold never raises TAR and never raises FAR. */
  lemma RatesAntitone(sims: seq<real>, flags: seq<Byte>, totalPositive: nat, totalNegative: nat,
                      t1: real, t2: real)
    requires |flags| == |sims| && totalPositive > 0 && totalNegative > 0 && t1 <= t2
    ensures Tar(sims, flags, totalPositive, t2) <= Tar(sims, flags, totalPositive, t1)
    ensures Far(sims, flags, totalNegative, t2) <= Far(sims, flags, totalNegative, t1)
  {
    TruePositivesAntitone(sims, flags, t1, t2);
    TrueNegativesMonotone(sims, flags, t1, t2);
    QuotientOrdered(TruePositives(sims, flags, t2), TruePositives(sims, flags, t1), totalPositive);
    QuotientOrdered(TrueNegatives(sims, flags, t1), TrueNegatives(sims, flags, t2), totalNegative);
  }

  /** Along the curve both TAR and FAR never increase. */
  lemma CurveMonotone(points: nat, flags: seq<Byte>, totalPositive: nat, totalNegative: nat,
                      sims: seq<real>, i: nat, k: nat)
    requires |sims| > 0 && |flags| == |sims|
    requires totalPositive > 0 && totalNegative > 0
    requires i <= k < points
    ensures PointAt(points, flags, totalPositive, totalNegative, sims, k).tar
         <= PointAt(points, flags, totalPositive, totalNegative, sims, i).tar
    ensures PointAt(points, flags, totalPositive, totalNegative, sims, k).far
         <= PointAt(points, flags, totalPositive, totalNegative, sims, i).far
  {
    ThresholdsOrdered(sims, points, i, k);
    RatesAntitone(sims, flags, totalPositive, totalNegative,
                  Threshold(sims, points, i), Threshold(sims, points, k));
  }

  // ---------------------------------------------------------------------
  // The first point

  lemma {:induction false} NothingBelowMinimum(sims: seq<real>, flags: seq<Byte>, t: real)
    requires |flags| == |sims|
    requires forall j :: 0 <= j < |sims| ==> t <= sims[j]
    ensures TrueNegatives(sims, flags, t) == 0
    ensures TruePositives(sims, flags, t) == CountFlag(flags, 1)
    decreases |sims|
  {
    if sims != [] {
      var k := |sims| - 1;
      assert flags[..k + 1] == flags;
      NothingBelowMinimum(sims[..k], flags[..k], t);
    }
  }

  /** At index 0 the threshold is the smallest similarity: every pair is
      predicted "same", so FAR is 1 and TAR counts every same-person flag. */
  lemma FirstPoint(points: nat, flags: seq<Byte>, totalPositive: nat, totalNegative: nat,
                   sims: seq<real>)
    requires |sims| > 0 && |flags| == |sims|
    requires totalPositive > 0 && totalNegative > 0 && points > 0
    ensures PointAt(points, flags, totalPositive, totalNegative, sims, 0)
         == ROCPoint((CountFlag(flags, 1) as real) / (totalPositive as real), 1.0, MinOf(sims))
  {
    var lo := MinOf(sims);
    var t := Threshold(sims, points, 0);
    assert t == lo + 0.0 * ((MaxOf(sims) - lo) / (points as real));
    assert t == lo;
    NothingBelowMinimum(sims, flags, t);
    var tn := TrueNegatives(sims, flags, t);
    assert tn == 0;
    assert Far(sims, flags, totalNegative, t) == 1.0 - (tn as real) / (totalNegative as real) == 1.0;
    assert Tar(sims, flags, totalPositive, t) == (CountFlag(flags, 1) as real) / (totalPositive as real);
  }

  // ---------------------------------------------------------------------
  // Rates lie in [0, 1] when the totals are the flag counts

  lemma {:induction false} CountsBoundedByFlags(sims: seq<real>, flags: seq<Byte>, t: real)
    requires |flags| == |sims|
    ensures TruePositives(sims, flags, t) <= CountFlag(flags, 1)
    ensures TrueNegatives(sims, flags, t) <= CountFlag(flags, 0)
    decreases |sims|
  {
    if sims != [] {
      var k := |sims| - 1;
      assert flags[..k + 1] == flags;
      CountsBoundedByFlags(sims[..k], flags[..k], t);
    }
  }

  /** Whole-curve predicates used by the area and FRR lemmas. */
  predicate FarNonIncreasing(roc: seq<ROCPoint>)
  {
    forall i :: 1 <= i < |roc| ==> roc[i].far <= roc[i - 1].far
  }

  predicate RatesInUnit(roc: seq<ROCPoint>)
  {
    forall i :: 0 <= i < |roc| ==> 0.0 <= roc[i].tar <= 1.0 && 0.0 <= roc[i].far <= 1.0
  }

  /** A count that does not exceed its total is a fraction in [0, 1]. */
  lemma QuotientInUnit(a: nat, total: nat)
    requires a <= total && total > 0
    ensures 0.0 <= (a as real) / (total as real) <= 1.0
  {
  }

  /** With the flag counts as totals, both rates of a point lie in [0, 1]. */
  lemma PointInUnit(points: nat, flags: seq<Byte>, totalPositive: nat, totalNegative: nat,
                    sims: seq<real>, i: nat)
    requires |sims| > 0 && |flags| == |sims| && i < points
    requires totalPositive > 0 && totalNegative > 0
    requires totalPositive == CountFlag(flags, 1) && totalNegative == CountFlag(flags, 0)
    ensures var p := PointAt(points, flags, totalPositive, totalNegative, sims, i);
      0.0 <= p.tar <= 1.0 && 0.0 <= p.far <= 1.0
  {
    var t := Threshold(sims, points, i);
    CountsBoundedByFlags(sims, flags, t);
    QuotientInUnit(TruePositives(sims, flags, t), totalPositive);
    QuotientInUnit(TrueNegatives(sims, flags, t), totalNegative);
  }

  /** When the totals are the numbers of 1 and 0 flags, the curve has FAR
      non-increasing and every rate in [0, 1]. */
  lemma CurveWellFormed(points: nat, flags: seq<Byte>, totalPositive: nat, totalNegative: nat,
                        sims: seq<real>)
    requires |sims| > 0 && |flags| == |sims|
    requires totalPositive > 0 && totalNegative > 0
    requires totalPositive == CountFlag(flags, 1) && totalNegative == CountFlag(flags, 0)
    ensures FarNonIncreasing(Curve(points, flags, totalPositive, totalNegative, sims))
    ensures RatesInUnit(Curve(points, flags, totalPositive, totalNegative, sims))
  {
    var roc := Curve(points, flags, totalPositive, totalNegative, sims);
    forall i | 1 <= i < |roc|
      ensures roc[i].far <= roc[i - 1].far
    {
      CurveMonotone(points, flags, totalPositive, totalNegative, sims, i - 1, i);
    }
    forall i | 0 <= i < |roc|
      ensures 0.0 <= roc[i].tar <= 1.0 && 0.0 <= roc[i].far <= 1.0
    {
      PointInUnit(points, flags, totalPositive, totalNegative, sims, i);
    }
  }

  lemma ScenarioThreshold(sims: seq<real>)
    requires sims == [5.0, 1.0, 1.0, 5.0]
    ensures Threshold(sims, 2, 1) == 3.0
  {
    assert sims[..3] == [5.0, 1.0, 1.0] && sims[..3][..2] == [5.0, 1.0];
    assert MinOf([5.0, 1.0]) == 1.0 && MaxOf([5.0, 1.0]) == 5.0;
    assert MinOf(sims[..3]) == 1.0 && MaxOf(sims[..3]) == 5.0;
    assert Ladder(1.0, 5.0, 2, 1) == 3.0;
  }

  lemma ScenarioCounts(sims: seq<real>, flags: seq<Byte>)
    requires sims == [5.0, 1.0, 1.0, 5.0] && flags == [1, 0, 0, 1]
    ensures TruePositives(sims, flags, 3.0) == 2 && TrueNegatives(sims, flags, 3.0) == 2
  {
    assert sims[..3] == [5.0, 1.0, 1.0] && sims[..3][..2] == [5.0, 1.0] && sims[..3][..2][..1] == [5.0];
    assert flags[..3] == [1, 0, 0] && flags[..3][..2] == [1, 0] && flags[..3][..2][..1] == [1];
    assert [5.0][..0] == [] && [1][..0] == [];
    assert TruePositives([5.0], [1], 3.0) == 1 && TrueNegatives([5.0], [1], 3.0) == 0;
    assert TruePositives([5.0, 1.0], [1, 0], 3.0) == 1 && TrueNegatives([5.0, 1.0], [1, 0], 3.0) == 1;
    assert TruePositives(sims[..3], flags[..3], 3.0) == 1 && TrueNegatives(sims[..3], flags[..3], 3.0) == 2;
  }

  /** The scenario of two identities with one enrollment and one
      verification image each (similarities 5, 1, 1, 5 for same, different,
      different, same): at the second of two thresholds, 3, both
      same-person pairs are accepted and both impostor pairs rejected. */
  lemma TwoIdentityScenario()
    ensures Curve(2, [1, 0, 0, 1], 2, 2, [5.0, 1.0, 1.0, 5.0])[1] == ROCPoint(1.0, 0.0, 3.0)
  {
    var sims := [5.0, 1.0, 1.0, 5.0];
    var flags: seq<Byte> := [1, 0, 0, 1];
    ScenarioThreshold(sims);
    ScenarioCounts(sims, flags);
  }

  // ---------------------------------------------------------------------
  // Area under the curve (findArea)

  /** The trapezoid between points `i - 1` and `i`. */
  function Trapezoid(roc: seq<ROCPoint>, i: nat): real
    requires 1 <= i < |roc|
  {
    (roc[i - 1].far - roc[i].far) * (roc[i - 1].tar + roc[i].tar) / 2.0
  }

  /** The sum of the trapezoids between the first `k` points. */
  function AreaUpTo(roc: seq<ROCPoint>, k: nat): real
    requires k <= |roc|
  {
    if k <= 1 then 0.0 else AreaUpTo(roc, k - 1) + Trapezoid(roc, k - 1)
  }

  function Area(roc: seq<ROCPoint>): real
  {
    AreaUpTo(roc, |roc|)
  }

  /** `findArea`: accumulates the trapezoids in one pass; fewer than two
      points give 0. */
  method FindArea(roc: seq<ROCPoint>) returns (area: real)
    ensures area == Area(roc)
    ensures |roc| < 2 ==> area == 0.0
  {
    area := 0.0;
    var i := 1;
    while i < |roc|
      invariant 1 <= i && (|roc| == 0 || i <= |roc|)
      invariant area == if |roc| == 0 then 0.0 else AreaUpTo(roc, i)
    {
      area := area + (roc[i - 1].far - roc[i].far) * (roc[i - 1].tar + roc[i].tar) / 2.0;
      i := i + 1;
    }
  }

  lemma TrapezoidBounds(roc: seq<ROCPoint>, i: nat)
    requires 1 <= i < |roc|
    requires roc[i].far <= roc[i - 1].far
    requires 0.0 <= roc[i - 1].tar <= 1.0 && 0.0 <= roc[i].tar <= 1.0
    ensures 0.0 <= Trapezoid(roc, i) <= roc[i - 1].far - roc[i].far
  {
    var w := roc[i - 1].far - roc[i].far;
    var h := roc[i - 1].tar + roc[i].tar;
    ScaleOrdered(0.0, h, w);
    ScaleOrdered(h, 2.0, w);
    assert Trapezoid(roc, i) == h * w / 2.0;
  }

  /** With FAR non-increasing and TAR in [0, 1], the area over the first
      `k` points lies between 0 and the FAR drop across them. */
  lemma {:induction false} AreaUpToBounds(roc: seq<ROCPoint>, k: nat)
    requires FarNonIncreasing(roc) && RatesInUnit(roc)
    requires 1 <= k <= |roc|
    ensures 0.0 <= AreaUpTo(roc, k) <= roc[0].far - roc[k - 1].far
  {
    if k > 1 {
      AreaUpToBounds(roc, k - 1);
      TrapezoidBounds(roc, k - 1);
    }
  }

  /** The area lies in [0, FAR[0] - FAR[last]], a subset of [0, 1]. */
  lemma AreaBounds(roc: seq<ROCPoint>)
    requires FarNonIncreasing(roc) && RatesInUnit(roc)
    ensures 0.0 <= Area(roc) <= 1.0
    ensures |roc| > 0 ==> Area(roc) <= roc[0].far - roc[|roc| - 1].far
  {
    if |roc| > 0 {
      AreaUpToBounds(roc, |roc|);
    }
  }

  /** End to end: the area of a curve whose totals are the flag counts is
      in [0, 1]. */
  lemma CurveAreaInUnit(points: nat, flags: seq<Byte>, totalPositive: nat, totalNegative: nat,
                        sims: seq<real>)
    requires |sims| > 0 && |flags| == |sims|
    requires totalPositive > 0 && totalNegative > 0
    requires totalPositive == CountFlag(flags, 1) && totalNegative == CountFlag(flags, 0)
    ensures 0.0 <= Area(Curve(points, flags, totalPositive, totalNegative, sims)) <= 1.0
  {
    CurveWellFormed(points, flags, totalPositive, totalNegative, sims);
    AreaBounds(Curve(points, flags, totalPositive, totalNegative, sims));
  }

  // ---------------------------------------------------------------------
  // FRR at a target FAR (findFRR)

  /** Scanning down from index `i`: the first index >= 1 whose FAR exceeds
      the target, or 0. */
  function OperatingIndexFrom(roc: seq<ROCPoint>, target: real, i: nat): (k: nat)
    requires i < |roc|
    ensures k <= i
  {
    if i == 0 then 0
    else if roc[i].far > target then i
    else OperatingIndexFrom(roc, target, i - 1)
  }

  function OperatingIndex(roc: seq<ROCPoint>, target: real): (k: nat)
    requires |roc| > 0
    ensures k < |roc|
  {
    OperatingIndexFrom(roc, target, |roc| - 1)
  }

  /** `findFRR`: the descending scan with early return; the curve must not
      be empty (its last index is taken). */
  method FindFRR(roc: seq<ROCPoint>, targetFar: real) returns (frr: real)
    requires |roc| > 0
    ensures frr == 1.0 - roc[OperatingIndex(roc, targetFar)].tar
    ensures |roc| == 1 ==> frr == 1.0 - roc[0].tar
  {
    var i := |roc| - 1;
    while i >= 1
      invariant 0 <= i < |roc|
      invariant OperatingIndex(roc, targetFar) == OperatingIndexFrom(roc, targetFar, i)
    {
      if roc[i].far > targetFar {
        return 1.0 - roc[i].tar;
      }
      i := i - 1;
    }
    return 1.0 - roc[0].tar;
  }

  lemma {:induction false} OperatingIndexFromIsLastAbove(roc: seq<ROCPoint>, target: real, i: nat)
    requires i < |roc|
    ensures var k := OperatingIndexFrom(roc, target, i);
      && (k == 0 || roc[k].far > target)
      && forall j :: k < j <= i ==> roc[j].far <= target
  {
    if i > 0 && roc[i].far <= target {
      OperatingIndexFromIsLastAbove(roc, target, i - 1);
    }
  }

  /** The chosen index is the largest `i >= 1` whose FAR exceeds the target,
      or 0 when there is none: every later point has FAR at most the target. */
  lemma OperatingIndexIsLastAbove(roc: seq<ROCPoint>, target: real)
    requires |roc| > 0
    ensures var k := OperatingIndex(roc, target);
      && (k == 0 || roc[k].far > target)
      && forall j :: k < j < |roc| ==> roc[j].far <= target
  {
    OperatingIndexFromIsLastAbove(roc, target, |roc| - 1);
  }

  /** When no point after the first has FAR above the target, the FRR is
      read at the lowest threshold. */
  lemma {:induction false} NoneAboveGivesFirst(roc: seq<ROCPoint>, target: real, i: nat)
    requires i < |roc|
    requires forall j :: 1 <= j <= i ==> roc[j].far <= target
    ensures OperatingIndexFrom(roc, target, i) == 0
  {
    if i > 0 {
      NoneAboveGivesFirst(roc, target, i - 1);
    }
  }
}
