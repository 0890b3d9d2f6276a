/** `computeEmotionScores`: weighted linear evidence per category, clamped
    at zero, a `neutral` score derived from the total evidence, and a final
    division by the sum so that the scores form a distribution.

    The training and test screens carry near-identical copies; they differ
    only in whether the derived neutral score is floored at zero again, so
    that choice is a parameter here.
 */
module Scoring {
  import opened JsValues
  import opened WeightTables

  /** The training copy stores `1 - min(1, ...)` as is; the test copy wraps
      it in an outer `Math.max(0, ...)`. */
  datatype NeutralRule = Unclamped | ClampedAtZero

  /** The floor on the divisor of the neutral formula. */
  const Epsilon: real := 0.0001

  /** One weight entry's contribution `v * w`, `v = blendshapes[bs] ?? 0`. */
  function Term(b: Dict, e: (string, real)): real {
    Lookup(b, e.0) * e.1
  }

  /** `Σ v * w` over the weight entries in order. */
  function Raw(w: Weights, b: Dict): real {
    if |w| == 0 then 0.0
    else Raw(w[..|w| - 1], b) + Term(b, w[|w| - 1])
  }

  /** `Math.max(0, s)` */
  function Clamp(s: real): real { Max(0.0, s) }

  /** One clamped score per table entry, in table order. */
  function CategoryScores(t: WeightTable, b: Dict): (r: Record)
    ensures |r| == |t|
    ensures forall i :: 0 <= i < |t| ==> r[i].0 == t[i].0 && 0.0 <= r[i].1
  {
    seq(|t|, i requires 0 <= i < |t| => (t[i].0, Clamp(Raw(t[i].1, b))))
  }

  /** The running `total` of the clamped scores. */
  function Total(t: WeightTable, b: Dict): real {
    SumValues(CategoryScores(t, b))
  }

  /** `1 - min(1, total / max(ε, count))`, floored at 0 under `ClampedAtZero`. */
  function Neutral(rule: NeutralRule, total: real, count: nat): real {
    var base := 1.0 - Min(1.0, total / Max(Epsilon, count as real));
    match rule
    case Unclamped => base
    case ClampedAtZero => Max(0.0, base)
  }

  /** `sumAll || 1`: a zero sum is replaced by 1. */
  function Divisor(sumAll: real): (d: real)
    ensures d != 0.0
    ensures sumAll != 0.0 ==> d == sumAll
  {
    if sumAll == 0.0 then 1.0 else sumAll
  }

  /** The scores record just before the final division. */
  function Unnormalised(rule: NeutralRule, t: WeightTable, b: Dict): Record {
    Put(CategoryScores(t, b), "neutral", Neutral(rule, Total(t, b), |t|))
  }

  /** `computeEmotionScores(blendshapes)` */
  function ComputeScores(rule: NeutralRule, t: WeightTable, b: Dict): Record {
    var pre := Unnormalised(rule, t, b);
    Scale(pre, Divisor(SumValues(pre)))
  }

  // ---------------------------------------------------------------------
  // The neutral formula

  /** For a non-negative total and at least one category, neutral lies in
      [0, 1], is 1 exactly when there is no evidence, 0 exactly once the
      evidence reaches the category count, and the outer floor of the test
      copy never changes it. */
  lemma NeutralFacts(total: real, count: nat)
    requires 0.0 <= total && 1 <= count
    ensures 0.0 <= Neutral(Unclamped, total, count) <= 1.0
    ensures Neutral(ClampedAtZero, total, count) == Neutral(Unclamped, total, count)
    ensures Neutral(Unclamped, total, count) == 1.0 <==> total == 0.0
    ensures Neutral(Unclamped, total, count) == 0.0 <==> total >= count as real
    ensures total < count as real ==>
      Neutral(Unclamped, total, count) == 1.0 - total / count as real
  {
    var n := count as real;
    assert Max(Epsilon, n) == n;
    if total < n {
      assert total / n < 1.0;
    } else {
      assert total / n >= 1.0;
    }
  }

  /** Neutral together with a non-negative total is positive: the sum the
      scores are divided by is never 0. */
  lemma NeutralCompletes(total: real, count: nat)
    requires 0.0 <= total && 1 <= count
    ensures var nu := Neutral(Unclamped, total, count);
            0.0 <= nu <= 1.0 && 0.0 < total + nu
  {
    NeutralFacts(total, count);
  }

  /** For a non-negative total the outer floor of the test copy never
      changes neutral. */
  lemma NeutralRulesAgree(rule: NeutralRule, total: real, count: nat)
    requires 0.0 <= total && 1 <= count
    ensures Neutral(rule, total, count) == Neutral(Unclamped, total, count)
  {
    NeutralFacts(total, count);
  }

  /** More evidence never raises neutral, and below saturation it strictly
      lowers it. */
  lemma NeutralDecreasing(rule: NeutralRule, t1: real, t2: real, count: nat)
    requires 0.0 <= t1 <= t2 && 1 <= count
    ensures Neutral(rule, t2, count) <= Neutral(rule, t1, count)
    ensures t1 < t2 && t1 < count as real ==> Neutral(rule, t2, count) < Neutral(rule, t1, count)
  {
    NeutralFacts(t1, count);
    NeutralFacts(t2, count);
    var n := count as real;
    assert Max(Epsilon, n) == n;
    DivMonotone(t1, t2, n);
  }

  /** Dividing by a positive number keeps the order. */
  lemma DivMonotone(a: real, c: real, n: real)
    requires a <= c && 0.0 < n
    ensures a / n <= c / n
    ensures a < c ==> a / n < c / n
  {
    assert c / n - a / n == (c - a) / n;
  }

  // ---------------------------------------------------------------------
  // The weighted sum

  /** `l * x <= v * x` for `l <= v` and `x` of either sign. */
  lemma MulMonotone(l: real, v: real, x: real)
    requires l <= v
    ensures 0.0 <= x ==> l * x <= v * x
    ensures x <= 0.0 ==> v * x <= l * x
  {
  }

  lemma AddMonotone(a: real, a': real, x: real, x': real)
    requires a <= a' && x <= x'
    ensures a + x <= a' + x'
  {
  }

  /** One term `v * w` of the weighted sum when signal `k` is raised: a
      term on another signal is unchanged, and a term on `k` with a
      non-negative weight does not fall. */
  lemma TermExcited(b: Dict, k: string, v: real, e: (string, real))
    requires Lookup(b, k) <= v && (e.0 != k || 0.0 <= e.1)
    ensures Term(b, e) <= Term(b[k := v], e)
  {
    if e.0 == k {
      MulMonotone(Lookup(b, k), v, e.1);
    } else {
      assert Lookup(b[k := v], e.0) == Lookup(b, e.0);
    }
  }

  /** The same for a term on `k` with a non-positive weight: it does not
      rise. */
  lemma TermInhibited(b: Dict, k: string, v: real, e: (string, real))
    requires Lookup(b, k) <= v && (e.0 != k || e.1 <= 0.0)
    ensures Term(b[k := v], e) <= Term(b, e)
  {
    if e.0 == k {
      MulMonotone(Lookup(b, k), v, e.1);
    } else {
      assert Lookup(b[k := v], e.0) == Lookup(b, e.0);
    }
  }

  /** Raising a signal that only excites never lowers the weighted sum. */
  lemma {:induction false} RawExcited(w: Weights, b: Dict, k: string, v: real)
    requires Lookup(b, k) <= v && Excites(w, k)
    ensures Raw(w, b) <= Raw(w, b[k := v])
  {
    if |w| > 0 {
      var p := w[..|w| - 1];
      assert Excites(p, k) by {
        forall i | 0 <= i < |p| && p[i].0 == k ensures 0.0 <= p[i].1 {
          assert p[i] == w[i];
        }
      }
      var last := w[|w| - 1];
      assert last.0 != k || 0.0 <= last.1;
      RawExcited(p, b, k, v);
      TermExcited(b, k, v, last);
      AddMonotone(Raw(p, b), Raw(p, b[k := v]), Term(b, last), Term(b[k := v], last));
    }
  }

  /** Raising a signal that only inhibits never raises the weighted sum. */
  lemma {:induction false} RawInhibited(w: Weights, b: Dict, k: string, v: real)
    requires Lookup(b, k) <= v && Inhibits(w, k)
    ensures Raw(w, b[k := v]) <= Raw(w, b)
  {
    if |w| > 0 {
      var p := w[..|w| - 1];
      assert Inhibits(p, k) by {
        forall i | 0 <= i < |p| && p[i].0 == k ensures p[i].1 <= 0.0 {
          assert p[i] == w[i];
        }
      }
      var last := w[|w| - 1];
      assert last.0 != k || last.1 <= 0.0;
      RawInhibited(p, b, k, v);
      TermInhibited(b, k, v, last);
      AddMonotone(Raw(p, b[k := v]), Raw(p, b), Term(b[k := v], last), Term(b, last));
    }
  }

  /** Raising one signal never lowers a weighted sum in which that signal
      only excites, and never raises one in which it only inhibits. */
  lemma RawMonotone(w: Weights, b: Dict, k: string, v: real)
    requires Lookup(b, k) <= v
    ensures Excites(w, k) ==> Raw(w, b) <= Raw(w, b[k := v])
    ensures Inhibits(w, k) ==> Raw(w, b[k := v]) <= Raw(w, b)
  {
    if Excites(w, k) {
      RawExcited(w, b, k, v);
    }
    if Inhibits(w, k) {
      RawInhibited(w, b, k, v);
    }
  }

  /** The raw score depends on the signals only through `?? 0` lookups. */
  lemma {:induction false} RawCongruent(w: Weights, b1: Dict, b2: Dict)
    requires forall k :: Lookup(b1, k) == Lookup(b2, k)
    ensures Raw(w, b1) == Raw(w, b2)
  {
    if |w| > 0 {
      RawCongruent(w[..|w| - 1], b1, b2);
    }
  }

  /** With no signals at all, every raw score is 0. */
  lemma {:induction false} RawOfEmpty(w: Weights)
    ensures Raw(w, map[]) == 0.0
  {
    if |w| > 0 {
      RawOfEmpty(w[..|w| - 1]);
    }
  }

  /** Non-negative weights on non-negative signals give a non-negative sum,
      so the clamp leaves it as it is. */
  lemma {:induction false} RawNonNegative(w: Weights, b: Dict)
    requires NonNegativeWeights(w)
    requires forall k :: k in b ==> 0.0 <= b[k]
    ensures 0.0 <= Raw(w, b)
    ensures Clamp(Raw(w, b)) == Raw(w, b)
  {
    if |w| > 0 {
      var p := w[..|w| - 1];
      assert NonNegativeWeights(p) by {
        forall i | 0 <= i < |p| ensures 0.0 <= p[i].1 {
          assert p[i] == w[i];
        }
      }
      RawNonNegative(p, b);
      assert 0.0 <= Lookup(b, w[|w| - 1].0);
    }
  }

  /** Monotonicity of a category's clamped score in one signal: raising a
      signal with positive weight for the category never lowers the score,
      raising one with negative weight never raises it. */
  lemma ClampedMonotone(w: Weights, b: Dict, k: string, v: real)
    requires Lookup(b, k) <= v
    ensures Excites(w, k) ==> Clamp(Raw(w, b)) <= Clamp(Raw(w, b[k := v]))
    ensures Inhibits(w, k) ==> Clamp(Raw(w, b[k := v])) <= Clamp(Raw(w, b))
  {
    RawMonotone(w, b, k, v);
  }

  // ---------------------------------------------------------------------
  // The whole pipeline, for a valid table

  /** The clamped scores of the categories other than `neutral`. */
  function Evidence(t: WeightTable, b: Dict): Record
    requires ValidTable(t)
  {
    CategoryScores(t[..|t| - 1], b)
  }

  lemma CategoryScoresSplit(t: WeightTable, b: Dict)
    requires ValidTable(t)
    ensures CategoryScores(t, b) == Evidence(t, b) + [("neutral", 0.0)]
    ensures Total(t, b) == SumValues(Evidence(t, b))
  {
    var n := |t|;
    assert Raw(t[n - 1].1, b) == 0.0;
    assert CategoryScores(t, b) == Evidence(t, b) + [("neutral", 0.0)];
    SumAppend(Evidence(t, b), ("neutral", 0.0));
  }

  /** Before the division: the clamped evidence of the other categories,
      in table order, then `neutral` overwritten in place with
      `1 - min(1, total / |t|)`. */
  lemma UnnormalisedForm(rule: NeutralRule, t: WeightTable, b: Dict)
    requires ValidTable(t)
    ensures var nu := Neutral(Unclamped, SumValues(Evidence(t, b)), |t|);
            Unnormalised(rule, t, b) == Evidence(t, b) + [("neutral", nu)]
  {
    var n := |t|;
    var ev := Evidence(t, b);
    var total := SumValues(ev);
    CategoryScoresSplit(t, b);
    SumBoundsEach(ev);
    NeutralRulesAgree(rule, total, n);
    forall i | 0 <= i < |ev| ensures ev[i].0 != "neutral" {
      assert ev[i].0 == t[i].0 != t[n - 1].0;
    }
    PutLast(ev, "neutral", 0.0, Neutral(rule, total, n));
  }

  /** Closed form of `computeEmotionScores` on a valid table: the record
      lists the table's categories in order; each non-neutral score is its
      clamped weighted sum, neutral is `1 - min(1, total / |t|)`, and all of
      them are divided by `total + neutral`, which is positive, so the
      `|| 1` fallback is never taken. */
  lemma ScoresClosedForm(rule: NeutralRule, t: WeightTable, b: Dict)
    requires ValidTable(t)
    ensures var total := SumValues(Evidence(t, b));
            var nu := Neutral(Unclamped, total, |t|);
            && 0.0 <= total
            && 0.0 <= nu <= 1.0
            && SumValues(Unnormalised(rule, t, b)) == total + nu
            && 0.0 < total + nu
            && ComputeScores(rule, t, b) == Scale(Evidence(t, b) + [("neutral", nu)], total + nu)
  {
    var ev := Evidence(t, b);
    var total := SumValues(ev);
    var nu := Neutral(Unclamped, total, |t|);
    var pre := Unnormalised(rule, t, b);
    UnnormalisedForm(rule, t, b);
    assert pre == ev + [("neutral", nu)];
    SumBoundsEach(ev);
    NeutralCompletes(total, |t|);
    SumAppend(ev, ("neutral", nu));
    assert SumValues(pre) == total + nu;
    assert Divisor(SumValues(pre)) == total + nu;
  }

  /** The result is a probability distribution: every score is in [0, 1]
      and the scores sum to exactly 1. */
  lemma ScoresAreDistribution(rule: NeutralRule, t: WeightTable, b: Dict)
    requires ValidTable(t)
    ensures var r := ComputeScores(rule, t, b);
            && |r| == |t|
            && (forall i :: 0 <= i < |r| ==> r[i].0 == t[i].0 && 0.0 <= r[i].1 <= 1.0)
            && SumValues(r) == 1.0
  {
    ScoresClosedForm(rule, t, b);
    var n := |t|;
    var ev := Evidence(t, b);
    var nu := Neutral(Unclamped, SumValues(ev), n);
    ScaledEvidenceIsDistribution(ev, nu);
    var r := ComputeScores(rule, t, b);
    forall i | 0 <= i < |r| ensures r[i].0 == t[i].0 {
      if i < n - 1 { assert r[i].0 == ev[i].0; }
    }
  }

  /** The evidence followed by neutral, divided by their sum, is a
      distribution with the same keys. */
  lemma ScaledEvidenceIsDistribution(ev: Record, nu: real)
    requires NonNegative(ev) && 0.0 <= nu && 0.0 < SumValues(ev) + nu
    ensures var pre := ev + [("neutral", nu)];
            var q := Scale(pre, SumValues(ev) + nu);
            && |q| == |ev| + 1
            && (forall i :: 0 <= i < |ev| ==> q[i].0 == ev[i].0)
            && q[|ev|].0 == "neutral"
            && (forall i :: 0 <= i < |q| ==> 0.0 <= q[i].1 <= 1.0)
            && SumValues(q) == 1.0
  {
    var pre := ev + [("neutral", nu)];
    SumAppend(ev, ("neutral", nu));
    assert NonNegative(pre) by {
      forall i | 0 <= i < |pre| ensures 0.0 <= pre[i].1 {
        if i < |ev| { assert pre[i] == ev[i]; }
      }
    }
    ScaleBySumIsDistribution(pre);
    forall i | 0 <= i < |ev| ensures Scale(pre, SumValues(pre))[i].0 == ev[i].0 {
      assert pre[i] == ev[i];
    }
  }

  /** The two copies of the formula agree: on a valid table the outer floor
      of the test copy never changes any score. */
  lemma RulesAgree(t: WeightTable, b: Dict)
    requires ValidTable(t)
    ensures ComputeScores(ClampedAtZero, t, b) == ComputeScores(Unclamped, t, b)
  {
    ScoresClosedForm(ClampedAtZero, t, b);
    ScoresClosedForm(Unclamped, t, b);
  }

  /** Only `?? 0` lookups matter: two dictionaries that read the same for
      every key (one may carry extra keys explicitly set to 0) score the same. */
  lemma ScoresCongruent(rule: NeutralRule, t: WeightTable, b1: Dict, b2: Dict)
    requires forall k :: Lookup(b1, k) == Lookup(b2, k)
    ensures ComputeScores(rule, t, b1) == ComputeScores(rule, t, b2)
  {
    forall i | 0 <= i < |t| ensures Raw(t[i].1, b1) == Raw(t[i].1, b2) {
      RawCongruent(t[i].1, b1, b2);
    }
    assert CategoryScores(t, b1) == CategoryScores(t, b2);
  }

  /** A signal absent from the dictionary contributes exactly what a 0
      reading would. */
  lemma AbsentSignalIsZero(rule: NeutralRule, t: WeightTable, b: Dict, k: string)
    requires k !in b
    ensures ComputeScores(rule, t, b[k := 0.0]) == ComputeScores(rule, t, b)
  {
    ScoresCongruent(rule, t, b[k := 0.0], b);
  }

  /** No face: every category scores 0 and neutral scores 1. */
  lemma EmptySignalsAreNeutral(rule: NeutralRule, t: WeightTable)
    requires ValidTable(t)
    ensures var r := ComputeScores(rule, t, map[]);
            && |r| == |t|
            && r[|t| - 1] == ("neutral", 1.0)
            && forall i :: 0 <= i < |t| - 1 ==> r[i] == (t[i].0, 0.0)
  {
    var n := |t|;
    var ev := Evidence(t, map[]);
    forall i | 0 <= i < n - 1 ensures ev[i] == (t[i].0, 0.0) {
      RawOfEmpty(t[i].1);
    }
    ZeroSum(ev);
    ScoresClosedForm(rule, t, map[]);
    NeutralFacts(0.0, n);
  }

  lemma {:induction false} ZeroSum(r: Record)
    requires forall i :: 0 <= i < |r| ==> r[i].1 == 0.0
    ensures SumValues(r) == 0.0
  {
    if |r| > 0 {
      ZeroSum(r[..|r| - 1]);
    }
  }

  /** Normalising an already normalised record changes nothing. */
  lemma NormaliseIdempotent(r: Record)
    requires SumValues(r) == 1.0
    ensures Scale(r, Divisor(SumValues(r))) == r
  {
  }

  /** The test table has no negative weight, so for non-negative signals
      the clamp never changes a category's score. */
  lemma TestTableNeedsNoClamp(b: Dict)
    requires forall k :: k in b ==> 0.0 <= b[k]
    ensures forall i :: 0 <= i < |TestWeights| ==>
      Clamp(Raw(TestWeights[i].1, b)) == Raw(TestWeights[i].1, b)
  {
    TestWeightsNonNegative();
    forall i | 0 <= i < |TestWeights|
      ensures Clamp(Raw(TestWeights[i].1, b)) == Raw(TestWeights[i].1, b)
    {
      RawNonNegative(TestWeights[i].1, b);
    }
  }
}
