/** scripts/validation/diagnostic_differentiel.py: the multiplicative and the
    additive rule for the limiting factor among O, L and M, the efficiency
    gain of choosing the multiplicative diagnosis, and the comparison of the
    two diagnoses that `main` runs on the COVID data (where O = 1). */
module Diagnostic {
  import opened Common
  import opened Numpy
  import opened Sklearn
  import Metrics

  /** The three factors, in the insertion order of the Python dicts. */
  datatype Factor = O | L | M

  const FactorOrder: seq<Factor> := [O, L, M]

  function Index(f: Factor): nat {
    match f
    case O => 0
    case L => 1
    case M => 2
  }

  /** `factors[f]` for factors = {'O': o, 'L': l, 'M': m}. */
  function Value(f: Factor, o: real, l: real, m: real): real {
    match f
    case O => o
    case L => l
    case M => m
  }

  /** f has the smallest value, and every factor before f is strictly larger. */
  predicate FirstMinimum(f: Factor, o: real, l: real, m: real) {
    && Value(f, o, l, m) <= o && Value(f, o, l, m) <= l && Value(f, o, l, m) <= m
    && (forall g: Factor :: Index(g) < Index(f) ==> Value(g, o, l, m) > Value(f, o, l, m))
  }

  /** f has the largest value, and every factor before f is strictly smaller. */
  predicate FirstMaximum(f: Factor, o: real, l: real, m: real) {
    && Value(f, o, l, m) >= o && Value(f, o, l, m) >= l && Value(f, o, l, m) >= m
    && (forall g: Factor :: Index(g) < Index(f) ==> Value(g, o, l, m) < Value(f, o, l, m))
  }

  /** `identify_limiting_factor_multiplicative(O, L, M)` on numbers:
      `min(factors, key=factors.get)` walks O, L, M and moves on only to a
      strictly smaller value. */
  function MultiplicativeLabel(o: real, l: real, m: real): (f: Factor)
    ensures FirstMinimum(f, o, l, m)
  {
    var first := if l < o then L else O;
    if m < Value(first, o, l, m) then M else first
  }

  /** `identify_limiting_factor_additive(αO, αL, αM, O, L, M)` on numbers:
      `max(contributions, key=contributions.get)` over the contributions
      α·value, moving on only to a strictly larger one. */
  function AdditiveLabel(aO: real, aL: real, aM: real, o: real, l: real, m: real): (f: Factor)
    ensures FirstMaximum(f, aO * o, aL * l, aM * m)
  {
    var co, cl, cm := aO * o, aL * l, aM * m;
    var first := if cl > co then L else O;
    if cm > Value(first, co, cl, cm) then M else first
  }

  /** The row `np.column_stack([O, L, M])[i]`. */
  function Row(o: real, l: real, m: real): seq<real> {
    [o, l, m]
  }

  /** The row of `np.column_stack` over the three contributions. */
  function Contributions(aO: real, aL: real, aM: real, o: real, l: real, m: real): seq<real> {
    [aO * o, aL * l, aM * m]
  }

  /** The vectorised multiplicative rule: `np.argmin(..., axis=1)` over the
      stacked columns, read back through ['O', 'L', 'M']. column_stack
      raises when the arrays differ in length. Every row gets the label the
      scalar rule gives it. */
  function MultiplicativeLabels(os: seq<real>, ls: seq<real>, ms: seq<real>): (r: Result<seq<Factor>>)
    ensures r.Err? <==> !(|os| == |ls| == |ms|)
    ensures r.Err? ==> r.error == InconsistentLength
    ensures r.Ok? ==> |r.value| == |os|
    ensures r.Ok? ==> forall i :: 0 <= i < |os| ==> r.value[i] == MultiplicativeLabel(os[i], ls[i], ms[i])
  {
    if !(|os| == |ls| == |ms|) then Err(InconsistentLength)
    else
      var labels := seq(|os|, i requires 0 <= i < |os| => FactorOrder[ArgMin(Row(os[i], ls[i], ms[i]))]);
      forall i | 0 <= i < |os|
        ensures labels[i] == MultiplicativeLabel(os[i], ls[i], ms[i])
      {
        RowArgMinIsScalarRule(os[i], ls[i], ms[i]);
      }
      Ok(labels)
  }

  lemma RowArgMinIsScalarRule(o: real, l: real, m: real)
    ensures FactorOrder[ArgMin(Row(o, l, m))] == MultiplicativeLabel(o, l, m)
  {
    var s, f := Row(o, l, m), MultiplicativeLabel(o, l, m);
    ArgMinUnique(s, Index(f));
    assert FactorOrder[Index(f)] == f;
  }

  /** The vectorised additive rule: `np.argmax(..., axis=1)` over the
      stacked contributions. Every row gets the label the scalar rule gives it. */
  function AdditiveLabels(aO: real, aL: real, aM: real, os: seq<real>, ls: seq<real>, ms: seq<real>)
    : (r: Result<seq<Factor>>)
    ensures r.Err? <==> !(|os| == |ls| == |ms|)
    ensures r.Err? ==> r.error == InconsistentLength
    ensures r.Ok? ==> |r.value| == |os|
    ensures r.Ok? ==> forall i :: 0 <= i < |os| ==> r.value[i] == AdditiveLabel(aO, aL, aM, os[i], ls[i], ms[i])
  {
    if !(|os| == |ls| == |ms|) then Err(InconsistentLength)
    else
      var labels := seq(|os|, i requires 0 <= i < |os| =>
                          FactorOrder[ArgMax(Contributions(aO, aL, aM, os[i], ls[i], ms[i]))]);
      forall i | 0 <= i < |os|
        ensures labels[i] == AdditiveLabel(aO, aL, aM, os[i], ls[i], ms[i])
      {
        RowArgMaxIsScalarRule(aO, aL, aM, os[i], ls[i], ms[i]);
      }
      Ok(labels)
  }

  lemma RowArgMaxIsScalarRule(aO: real, aL: real, aM: real, o: real, l: real, m: real)
    ensures FactorOrder[ArgMax(Contributions(aO, aL, aM, o, l, m))] == AdditiveLabel(aO, aL, aM, o, l, m)
  {
    var s, f := Contributions(aO, aL, aM, o, l, m), AdditiveLabel(aO, aL, aM, o, l, m);
    ArgMaxUnique(s, Index(f));
    assert FactorOrder[Index(f)] == f;
  }

  /** `calculate_efficiency_gain(O, L, M, limiting_mult, limiting_add)`:
      1 when the diagnoses agree; otherwise the value of the additive choice
      over the value of the multiplicative one, or 1 when the latter is not
      positive. */
  function EfficiencyGain(o: real, l: real, m: real, limitingMult: Factor, limitingAdd: Factor): (g: real)
    ensures limitingMult == limitingAdd ==> g == 1.0
    ensures limitingMult != limitingAdd && Value(limitingMult, o, l, m) <= 0.0 ==> g == 1.0
    ensures limitingMult != limitingAdd && Value(limitingMult, o, l, m) > 0.0 ==>
              g * Value(limitingMult, o, l, m) == Value(limitingAdd, o, l, m)
  {
    if limitingMult == limitingAdd then 1.0
    else
      var correct, wrong := Value(limitingMult, o, l, m), Value(limitingAdd, o, l, m);
      if correct > 0.0 then wrong / correct else 1.0
  }

  /** Against the multiplicative diagnosis the gain is never below 1, since
      that diagnosis picks the smallest value; it exceeds 1 exactly when the
      additive diagnosis picks a strictly larger positive value. */
  lemma GainOfMultiplicativeDiagnosis(o: real, l: real, m: real, limitingAdd: Factor)
    ensures var lm := MultiplicativeLabel(o, l, m);
            && EfficiencyGain(o, l, m, lm, limitingAdd) >= 1.0
            && (EfficiencyGain(o, l, m, lm, limitingAdd) > 1.0 <==>
                  Value(lm, o, l, m) > 0.0 && Value(limitingAdd, o, l, m) > Value(lm, o, l, m))
  {
    var lm := MultiplicativeLabel(o, l, m);
    var c, w := Value(lm, o, l, m), Value(limitingAdd, o, l, m);
    assert c <= w;
    if lm != limitingAdd && c > 0.0 {
      QuotientAtLeastOne(w, c);
    }
  }

  lemma QuotientAtLeastOne(w: real, c: real)
    requires c > 0.0 && w >= c
    ensures w / c >= 1.0
    ensures w / c > 1.0 <==> w > c
  {
  }

  /** The additive rule `main` applies to the COVID data, where O is left
      out: `np.where(α_L·L > α_M·M, 'L', 'M')`, so a tie goes to M. */
  function CovidAdditiveLabel(aL: real, aM: real, l: real, m: real): (f: Factor)
    ensures f == L <==> aL * l > aM * m
    ensures f == L || f == M
  {
    if aL * l > aM * m then L else M
  }

  /** When O contributes less than both L and M, the helper's rule and the
      inline COVID rule pick the same factor except on a tie between L and
      M, where the helper keeps L (first in order) and the inline rule M. */
  lemma CovidRuleDiffersFromHelperOnlyOnTies(aO: real, aL: real, aM: real, o: real, l: real, m: real)
    requires aO * o < aL * l && aO * o < aM * m
    ensures AdditiveLabel(aO, aL, aM, o, l, m) != CovidAdditiveLabel(aL, aM, l, m) <==> aL * l == aM * m
    ensures aL * l == aM * m ==> AdditiveLabel(aO, aL, aM, o, l, m) == L && CovidAdditiveLabel(aL, aM, l, m) == M
  {
  }

  /** The comparison `main` computes for the COVID data. */
  datatype CovidComparison = CovidComparison(
    limitingMult: seq<Factor>, limitingAdd: seq<Factor>,
    convergent: seq<bool>, divergent: seq<bool>,
    convergenceRate: Num, divergenceRate: Num)

  function Ones(n: nat): (s: seq<real>)
    ensures |s| == n && forall i :: 0 <= i < n ==> s[i] == 1.0
  {
    seq(n, _ => 1.0)
  }

  /** The two diagnoses of every department and how often they agree, given
      the additive coefficients α_L and α_M and the columns L and M of one
      table (O = 1 throughout). */
  function CompareDiagnoses(aL: real, aM: real, ls: seq<real>, ms: seq<real>): (c: CovidComparison)
    requires |ls| == |ms|
    ensures |c.limitingMult| == |ls| && |c.limitingAdd| == |ls|
    ensures |c.convergent| == |ls| && |c.divergent| == |ls|
    ensures forall i :: 0 <= i < |ls| ==>
              && c.limitingMult[i] == MultiplicativeLabel(1.0, ls[i], ms[i])
              && c.limitingAdd[i] == CovidAdditiveLabel(aL, aM, ls[i], ms[i])
              && c.convergent[i] == (c.limitingMult[i] == c.limitingAdd[i])
              && c.divergent[i] == !c.convergent[i]
    ensures |ls| == 0 <==> c.convergenceRate == NotFinite
    ensures |ls| == 0 <==> c.divergenceRate == NotFinite
    ensures |ls| > 0 ==>
              && c.convergenceRate == Finite(100.0 * (Metrics.CountTrue(c.convergent) as real) / (|ls| as real))
              && c.divergenceRate == Finite(100.0 * (Metrics.CountTrue(c.divergent) as real) / (|ls| as real))
              && c.convergenceRate.value + c.divergenceRate.value == 100.0
  {
    var n := |ls|;
    var mult := MultiplicativeLabels(Ones(n), ls, ms).value;
    var add := seq(n, i requires 0 <= i < n => CovidAdditiveLabel(aL, aM, ls[i], ms[i]));
    var convergent := seq(n, i requires 0 <= i < n => mult[i] == add[i]);
    var divergent := seq(n, i requires 0 <= i < n => !convergent[i]);
    Metrics.CountComplement(convergent, divergent);
    Metrics.RatesSumTo100(Metrics.CountTrue(convergent), Metrics.CountTrue(divergent), n);
    CovidComparison(mult, add, convergent, divergent,
                    Metrics.Percentage(Metrics.CountTrue(convergent), n),
                    Metrics.Percentage(Metrics.CountTrue(divergent), n))
  }

  /** main's inline statistics are those of `diagnostic_divergence_rate`
      applied to the two label arrays. */
  lemma CompareDiagnosesIsDivergenceRate(aL: real, aM: real, ls: seq<real>, ms: seq<real>)
    requires |ls| == |ms|
    ensures var c := CompareDiagnoses(aL, aM, ls, ms);
            var d := Metrics.DiagnosticDivergenceRate(c.limitingMult, c.limitingAdd);
            && c.convergent == d.convergentMask && c.divergent == d.divergentMask
            && c.convergenceRate == d.convergenceRate && c.divergenceRate == d.divergenceRate
  {
    var c := CompareDiagnoses(aL, aM, ls, ms);
    var d := Metrics.DiagnosticDivergenceRate(c.limitingMult, c.limitingAdd);
    assert c.convergent == d.convergentMask;
    assert c.divergent == d.divergentMask;
  }

  /** Every gain `main` collects over the divergent departments is at least 1. */
  lemma DivergentGainsAtLeastOne(aL: real, aM: real, ls: seq<real>, ms: seq<real>)
    requires |ls| == |ms|
    ensures var c := CompareDiagnoses(aL, aM, ls, ms);
            forall i :: 0 <= i < |ls| && c.divergent[i] ==>
              EfficiencyGain(1.0, ls[i], ms[i], c.limitingMult[i], c.limitingAdd[i]) >= 1.0
  {
    var c := CompareDiagnoses(aL, aM, ls, ms);
    forall i | 0 <= i < |ls| && c.divergent[i]
      ensures EfficiencyGain(1.0, ls[i], ms[i], c.limitingMult[i], c.limitingAdd[i]) >= 1.0
    {
      GainOfMultiplicativeDiagnosis(1.0, ls[i], ms[i], c.limitingAdd[i]);
    }
  }

  /** The first step of `main`: `LinearRegression().fit(column_stack([L, M]), F)`
      and its two coefficients α_L, α_M, then the comparison. */
  function DiagnoseCovid(solve: Solver, ls: seq<real>, ms: seq<real>, fs: seq<real>): (r: Result<CovidComparison>)
    requires |ls| == |ms|
    ensures r.Err? <==> |ls| == 0 || |fs| != |ls|
    ensures r.Err? ==> r.error == if |ls| == 0 then EmptyArray else InconsistentLength
    ensures r.Ok? ==>
              var X := Array2(seq(|ls|, i requires 0 <= i < |ls| => [ls[i], ms[i]]), 2);
              r.value == CompareDiagnoses(solve(X, fs).1[0], solve(X, fs).1[1], ls, ms)
  {
    var X: Matrix := Array2(seq(|ls|, i requires 0 <= i < |ls| => [ls[i], ms[i]]), 2);
    var reg :- Sklearn.Fit(solve, X, fs);
    Ok(CompareDiagnoses(reg.coef[0], reg.coef[1], ls, ms))
  }
}
