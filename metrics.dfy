/** scripts/utils/metrics.py without its cross-validation loop (see
    CrossValidation): RMSE, AIC, BIC, the metric dictionary, the comparison
    of two prediction sets, and the divergence between two diagnoses. */
module Metrics {
  import opened Common
  import opened Numpy
  import opened Sklearn

  /** `calculate_rmse`: the square root of the mean squared error. */
  function CalculateRmse(num: Numerics, yt: seq<real>, yp: seq<real>): (r: real)
    requires |yt| == |yp| > 0
    ensures r >= 0.0
    ensures r == 0.0 <==> yt == yp
  {
    var mse := MeanSquaredError(yt, yp);
    assert mse > 0.0 ==> num.sqrt(0.0) < num.sqrt(mse);
    num.sqrt(mse)
  }

  /** n ln(RSS / n) + penalty, the shape of both information criteria. With
      no samples numpy divides 0 by 0 (nan), and a perfect prediction takes
      the logarithm of 0 (-inf). */
  function InformationCriterion(num: Numerics, yt: seq<real>, yp: seq<real>, penalty: real): (r: Num)
    requires |yt| == |yp|
    ensures r.Finite? <==> |yt| > 0 && yt != yp
  {
    RssZeroIffPerfect(yt, yp);
    var n := |yt| as real;
    var rss := Rss(yt, yp);
    if |yt| == 0 || rss == 0.0 then NotFinite
    else Finite(LogLikelihoodTerm(num, n, rss) + penalty)
  }

  /** n ln(RSS / n). */
  function LogLikelihoodTerm(num: Numerics, n: real, rss: real): real
    requires n > 0.0
  {
    n * num.ln(rss / n)
  }

  /** `calculate_aic`: n ln(RSS / n) + 2k. */
  function CalculateAic(num: Numerics, yt: seq<real>, yp: seq<real>, nParams: int): (r: Num)
    requires |yt| == |yp|
    ensures r.Finite? <==> |yt| > 0 && yt != yp
  {
    InformationCriterion(num, yt, yp, 2.0 * (nParams as real))
  }

  /** `calculate_bic`: n ln(RSS / n) + k ln(n). */
  function CalculateBic(num: Numerics, yt: seq<real>, yp: seq<real>, nParams: int): (r: Num)
    requires |yt| == |yp|
    ensures r.Finite? <==> |yt| > 0 && yt != yp
  {
    InformationCriterion(num, yt, yp, (nParams as real) * num.ln(|yt| as real))
  }

  /** AIC and BIC share the likelihood term n ln(RSS / n) and differ only in
      the penalty: 2k against k ln(n). */
  lemma AicBicDifferOnlyInPenalty(num: Numerics, yt: seq<real>, yp: seq<real>, k: int)
    requires |yt| == |yp|
    ensures CalculateAic(num, yt, yp, k).Finite? == CalculateBic(num, yt, yp, k).Finite?
    ensures CalculateAic(num, yt, yp, k).Finite? ==>
              CalculateAic(num, yt, yp, k).value - 2.0 * (k as real)
              == CalculateBic(num, yt, yp, k).value - (k as real) * num.ln(|yt| as real)
  {
  }

  /** For one sample size and one parameter count, AIC ranks two prediction
      sets exactly as their residual sums of squares do. */
  lemma AicRanksByRss(num: Numerics, yt: seq<real>, yp1: seq<real>, yp2: seq<real>, k: int)
    requires |yt| == |yp1| == |yp2|
    requires CalculateAic(num, yt, yp1, k).Finite? && CalculateAic(num, yt, yp2, k).Finite?
    ensures CalculateAic(num, yt, yp1, k).value < CalculateAic(num, yt, yp2, k).value
            <==> Rss(yt, yp1) < Rss(yt, yp2)
  {
    RssZeroIffPerfect(yt, yp1);
    RssZeroIffPerfect(yt, yp2);
    LikelihoodRanks(num, |yt| as real, Rss(yt, yp1), Rss(yt, yp2), 2.0 * (k as real));
  }

  lemma LikelihoodRanks(num: Numerics, n: real, r1: real, r2: real, c: real)
    requires n > 0.0 && r1 > 0.0 && r2 > 0.0
    ensures LogLikelihoodTerm(num, n, r1) + c < LogLikelihoodTerm(num, n, r2) + c <==> r1 < r2
  {
    var a, b := r1 / n, r2 / n;
    QuotientOrder(n, r1, r2);
    if a < b {
      assert num.ln(a) < num.ln(b);
      ScaleStrict(n, num.ln(a), num.ln(b));
    } else if b < a {
      assert num.ln(b) < num.ln(a);
      ScaleStrict(n, num.ln(b), num.ln(a));
    }
  }

  lemma QuotientOrder(n: real, r1: real, r2: real)
    requires n > 0.0
    ensures r1 / n < r2 / n <==> r1 < r2
  {
    var d := r2 / n - r1 / n;
    assert d * n == r2 - r1;
    if d > 0.0 {
      ScaleStrict(n, 0.0, d);
    } else if d < 0.0 {
      ScaleStrict(n, d, 0.0);
    }
  }

  lemma ScaleStrict(n: real, u: real, v: real)
    requires n > 0.0 && u < v
    ensures n * u < n * v
  {
  }

  const BaseMetricKeys: set<string> := {"r2", "rmse", "mae"}
  const InformationCriterionKeys: set<string> := {"aic", "bic"}

  /** `calculate_all_metrics`: r2, rmse and mae, and aic and bic exactly when
      a parameter count is given. scikit-learn raises on lengths that differ
      and on empty inputs. */
  function CalculateAllMetrics(num: Numerics, yt: seq<real>, yp: seq<real>, nParams: Option<int>)
    : (r: Result<map<string, Num>>)
    ensures r.Err? <==> |yt| != |yp| || |yt| == 0
    ensures r.Err? ==> r.error == (if |yt| != |yp| then InconsistentLength else EmptyArray)
    ensures r.Ok? ==> r.value.Keys == BaseMetricKeys + (if nParams.Some? then InformationCriterionKeys else {})
    ensures r.Ok? ==> && r.value["r2"] == R2Score(yt, yp)
                      && r.value["rmse"] == Finite(CalculateRmse(num, yt, yp))
                      && r.value["mae"] == Finite(MeanAbsoluteError(yt, yp))
    ensures r.Ok? && nParams.Some? ==>
              && r.value["aic"] == CalculateAic(num, yt, yp, nParams.value)
              && r.value["bic"] == CalculateBic(num, yt, yp, nParams.value)
  {
    if |yt| != |yp| then Err(InconsistentLength)
    else if |yt| == 0 then Err(EmptyArray)
    else
      var base := map["r2" := R2Score(yt, yp),
                      "rmse" := Finite(CalculateRmse(num, yt, yp)),
                      "mae" := Finite(MeanAbsoluteError(yt, yp))];
      match nParams
      case None => Ok(base)
      case Some(k) => Ok(base["aic" := CalculateAic(num, yt, yp, k)]["bic" := CalculateBic(num, yt, yp, k)])
  }

  const GainKeys: set<string> :=
    {"delta_r2", "delta_rmse", "delta_mae", "pct_rmse_improvement", "pct_mae_improvement"}

  /** (m1 - m2) / m1 * 100: nan or inf when m1 is 0. */
  function PercentImprovement(m1: Num, m2: Num): (r: Num)
    ensures r.Finite? <==> m1.Finite? && m2.Finite? && m1.value != 0.0
    ensures r.Finite? ==> r.value == (m1.value - m2.value) / m1.value * 100.0
    ensures r.Finite? && m1.value > 0.0 ==> (r.value > 0.0 <==> m2.value < m1.value)
  {
    Scale(Div(Sub(m1, m2), m1), 100.0)
  }

  function Gains(m1: map<string, Num>, m2: map<string, Num>): (g: map<string, Num>)
    requires BaseMetricKeys <= m1.Keys && BaseMetricKeys <= m2.Keys
    ensures g.Keys == GainKeys
  {
    map["delta_r2" := Sub(m2["r2"], m1["r2"]),
        "delta_rmse" := Sub(m2["rmse"], m1["rmse"]),
        "delta_mae" := Sub(m2["mae"], m1["mae"]),
        "pct_rmse_improvement" := PercentImprovement(m1["rmse"], m2["rmse"]),
        "pct_mae_improvement" := PercentImprovement(m1["mae"], m2["mae"])]
  }

  const DefaultName1: string := "Model 1"
  const DefaultName2: string := "Model 2"

  /** `compare_predictions`: the metrics of both prediction sets under their
      names, then the gains of set 2 over set 1 under "gains". As in the
      Python dict literal, a later key overwrites an earlier equal one. */
  function ComparePredictions(num: Numerics, yt: seq<real>, yp1: seq<real>, yp2: seq<real>,
                              name1: string, name2: string)
    : (r: Result<map<string, map<string, Num>>>)
    ensures r.Err? <==> |yt| == 0 || |yp1| != |yt| || |yp2| != |yt|
    ensures r.Ok? ==> r.value.Keys == {name1, name2, "gains"}
    ensures r.Ok? ==> r.value["gains"].Keys == GainKeys
    ensures r.Ok? && name2 != "gains" ==>
              r.value[name2] == CalculateAllMetrics(num, yt, yp2, None).value
    ensures r.Ok? && name1 != name2 && name1 != "gains" ==>
              r.value[name1] == CalculateAllMetrics(num, yt, yp1, None).value
  {
    var m1 :- CalculateAllMetrics(num, yt, yp1, None);
    var m2 :- CalculateAllMetrics(num, yt, yp2, None);
    Ok(map[name1 := m1][name2 := m2]["gains" := Gains(m1, m2)])
  }

  /** What the gains say: each delta is metric 2 minus metric 1, and the
      percentage improvement is finite exactly when metric 1 is non-zero and
      then positive exactly when model 2 has the smaller error. */
  lemma GainsMeaning(num: Numerics, yt: seq<real>, yp1: seq<real>, yp2: seq<real>, n1: string, n2: string)
    requires |yt| > 0 && |yp1| == |yt| && |yp2| == |yt|
    ensures var g := ComparePredictions(num, yt, yp1, yp2, n1, n2).value["gains"];
            var rmse1, rmse2 := CalculateRmse(num, yt, yp1), CalculateRmse(num, yt, yp2);
            var mae1, mae2 := MeanAbsoluteError(yt, yp1), MeanAbsoluteError(yt, yp2);
            && g["delta_r2"] == Sub(R2Score(yt, yp2), R2Score(yt, yp1))
            && g["delta_rmse"] == Finite(rmse2 - rmse1)
            && g["delta_mae"] == Finite(mae2 - mae1)
            && (g["delta_r2"].Finite? <==> |yt| >= 2)
            && (g["pct_rmse_improvement"].Finite? <==> yp1 != yt)
            && (g["pct_rmse_improvement"].Finite? ==>
                  && g["pct_rmse_improvement"].value == (rmse1 - rmse2) / rmse1 * 100.0
                  && (g["pct_rmse_improvement"].value > 0.0 <==> rmse2 < rmse1))
            && (g["pct_mae_improvement"].Finite? <==> yp1 != yt)
            && (g["pct_mae_improvement"].Finite? ==>
                  && g["pct_mae_improvement"].value == (mae1 - mae2) / mae1 * 100.0
                  && (g["pct_mae_improvement"].value > 0.0 <==> mae2 < mae1))
  {
    var rmse1, rmse2 := CalculateRmse(num, yt, yp1), CalculateRmse(num, yt, yp2);
    var mae1, mae2 := MeanAbsoluteError(yt, yp1), MeanAbsoluteError(yt, yp2);
    if rmse1 != 0.0 { PercentSign(rmse1, rmse2); }
    if mae1 != 0.0 { PercentSign(mae1, mae2); }
  }

  lemma PercentSign(m1: real, m2: real)
    requires m1 > 0.0
    ensures (m1 - m2) / m1 * 100.0 > 0.0 <==> m2 < m1
  {
  }

  /** Comparing a prediction set with itself gains nothing: the deltas are 0
      (the r2 delta is nan when r2 is), and each percentage is 0, or nan when
      the shared error is 0. */
  lemma SelfComparisonGainsNothing(num: Numerics, yt: seq<real>, yp: seq<real>, n1: string, n2: string)
    requires |yt| > 0 && |yp| == |yt|
    ensures var g := ComparePredictions(num, yt, yp, yp, n1, n2).value["gains"];
            && g["delta_rmse"] == Finite(0.0) && g["delta_mae"] == Finite(0.0)
            && g["delta_r2"] == (if |yt| >= 2 then Finite(0.0) else NotFinite)
            && g["pct_rmse_improvement"] == (if yp != yt then Finite(0.0) else NotFinite)
            && g["pct_mae_improvement"] == (if yp != yt then Finite(0.0) else NotFinite)
  {
  }

  /** The statistics `diagnostic_divergence_rate` returns. */
  datatype Divergence = Divergence(
    nTotal: nat, nConvergent: nat, nDivergent: nat,
    convergenceRate: Num, divergenceRate: Num,
    convergentMask: seq<bool>, divergentMask: seq<bool>)

  function CountTrue(s: seq<bool>): nat {
    if |s| == 0 then 0 else (if s[0] then 1 else 0) + CountTrue(s[1..])
  }

  /** `np.mean(mask) * 100`, and equally `np.sum(mask) / n * 100`: nan for an empty mask. */
  function Percentage(count: nat, n: nat): (r: Num)
    ensures r.Finite? <==> n > 0
    ensures r.Finite? ==> r.value == 100.0 * (count as real) / (n as real)
    ensures r.Finite? && count <= n ==> 0.0 <= r.value <= 100.0
  {
    if n == 0 then NotFinite else Finite((count as real) / (n as real) * 100.0)
  }

  lemma {:induction false} CountComplement(a: seq<bool>, b: seq<bool>)
    requires |a| == |b|
    requires forall i :: 0 <= i < |a| ==> b[i] == !a[i]
    ensures CountTrue(a) + CountTrue(b) == |a|
  {
    if |a| > 0 {
      CountComplement(a[1..], b[1..]);
    }
  }

  lemma {:induction false} CountNone(a: seq<bool>)
    requires forall i :: 0 <= i < |a| ==> !a[i]
    ensures CountTrue(a) == 0
  {
    if |a| > 0 {
      CountNone(a[1..]);
    }
  }

  lemma {:induction false} CountAll(a: seq<bool>)
    requires forall i :: 0 <= i < |a| ==> a[i]
    ensures CountTrue(a) == |a|
  {
    if |a| > 0 {
      CountAll(a[1..]);
    }
  }

  /** `diagnostic_divergence_rate`: elementwise agreement of two label arrays
      of one length. */
  function DiagnosticDivergenceRate<T(==)>(l1: seq<T>, l2: seq<T>): (d: Divergence)
    requires |l1| == |l2|
    ensures d.nTotal == |l1| && |d.convergentMask| == |l1| && |d.divergentMask| == |l1|
    ensures forall i :: 0 <= i < |l1| ==>
              && d.convergentMask[i] == (l1[i] == l2[i])
              && d.divergentMask[i] == !d.convergentMask[i]
    ensures d.nConvergent == CountTrue(d.convergentMask) && d.nDivergent == CountTrue(d.divergentMask)
    ensures d.nConvergent + d.nDivergent == d.nTotal
    ensures d.nTotal == 0 <==> d.divergenceRate == NotFinite
    ensures d.nTotal == 0 <==> d.convergenceRate == NotFinite
    ensures d.nTotal > 0 ==>
              && d.divergenceRate == Finite(100.0 * (d.nDivergent as real) / (d.nTotal as real))
              && d.convergenceRate == Finite(100.0 * (d.nConvergent as real) / (d.nTotal as real))
              && d.convergenceRate.value + d.divergenceRate.value == 100.0
  {
    var convergent := seq(|l1|, i requires 0 <= i < |l1| => l1[i] == l2[i]);
    var divergent := seq(|l1|, i requires 0 <= i < |l1| => !convergent[i]);
    var n, nc, nd := |l1|, CountTrue(convergent), CountTrue(divergent);
    CountComplement(convergent, divergent);
    RatesSumTo100(nc, nd, n);
    Divergence(n, nc, nd, Percentage(nc, n), Percentage(nd, n), convergent, divergent)
  }

  lemma RatesSumTo100(nc: nat, nd: nat, n: nat)
    requires nc + nd == n
    ensures n > 0 ==> && Percentage(nd, n).value == 100.0 * (nd as real) / (n as real)
                      && Percentage(nc, n).value + Percentage(nd, n).value == 100.0
  {
    if n > 0 {
      var a, b, c := nc as real, nd as real, n as real;
      assert a + b == c;
      assert a / c + b / c == (a + b) / c == 1.0;
      assert a / c * 100.0 + b / c * 100.0 == (a / c + b / c) * 100.0;
    }
  }

  /** Identical label arrays never diverge. */
  lemma IdenticalLabelsConverge<T>(l: seq<T>)
    ensures var d := DiagnosticDivergenceRate(l, l);
            && d.nDivergent == 0 && d.nConvergent == |l|
            && (|l| > 0 ==> d.convergenceRate == Finite(100.0) && d.divergenceRate == Finite(0.0))
  {
    var d := DiagnosticDivergenceRate(l, l);
    CountNone(d.divergentMask);
  }

  /** Label arrays that disagree everywhere diverge everywhere. */
  lemma DisjointLabelsDiverge<T>(l1: seq<T>, l2: seq<T>)
    requires |l1| == |l2|
    requires forall i :: 0 <= i < |l1| ==> l1[i] != l2[i]
    ensures var d := DiagnosticDivergenceRate(l1, l2);
            && d.nDivergent == |l1| && d.nConvergent == 0
            && (|l1| > 0 ==> d.divergenceRate == Finite(100.0) && d.convergenceRate == Finite(0.0))
  {
    var d := DiagnosticDivergenceRate(l1, l2);
    CountAll(d.divergentMask);
  }

  /** The partially divergent expectation of the test suite: three of five
      labels differ, so 40% converge and 60% diverge. */
  lemma ThreeOfFiveDiverge()
    ensures var d := DiagnosticDivergenceRate(["L", "M", "L", "M", "L"], ["M", "M", "L", "L", "M"]);
            && d.nTotal == 5 && d.nConvergent == 2 && d.nDivergent == 3
            && d.convergenceRate == Finite(40.0) && d.divergenceRate == Finite(60.0)
  {
    var d := DiagnosticDivergenceRate(["L", "M", "L", "M", "L"], ["M", "M", "L", "L", "M"]);
    assert d.divergentMask == [true, false, false, true, true];
    assert d.convergentMask == [false, true, true, false, false];
    assert CountTrue([true, true]) == 2;
    assert CountTrue([false, true, true]) == 2;
    assert CountTrue([true, false, false]) == 1;
    assert CountTrue([true, true, false, false]) == 2;
  }
}
