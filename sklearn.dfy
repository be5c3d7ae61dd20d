/** The part of scikit-learn the repository calls: LinearRegression (its input
    checks, its stored state and its linear prediction) and the three metric
    functions r2_score, mean_squared_error and mean_absolute_error.
    The least-squares solve itself is not modelled: it is a Solver, any
    function that returns an intercept and one coefficient per column. */
module Sklearn {
  import opened Common
  import opened Numpy

  /** A LinearRegression object: freshly constructed, or fitted with its
      intercept_, coef_ and n_features_in_. */
  datatype LinearRegression = Unfitted | Fitted(intercept: real, coef: seq<real>, nFeaturesIn: nat)

  type Regressor = r: LinearRegression | r.Fitted? ==> |r.coef| == r.nFeaturesIn witness Unfitted

  ghost predicate OneCoefficientPerColumn(s: (Matrix, seq<real>) -> (real, seq<real>)) {
    forall X: Matrix, y: seq<real> :: |s(X, y).1| == X.cols
  }

  /** The ordinary least-squares solve (X, y) |-> (intercept, coefficients). */
  type Solver = s: (Matrix, seq<real>) -> (real, seq<real>) | OneCoefficientPerColumn(s)
    witness (X: Matrix, y: seq<real>) => (0.0, seq(X.cols, j => 0.0))

  /** The input validation of LinearRegression.fit: at least one sample and one
      feature, then as many targets as samples. */
  function FitError(X: Matrix, y: seq<real>): (e: Option<Error>)
    ensures e.None? <==> |X.rows| > 0 && X.cols > 0 && |y| == |X.rows|
    ensures e.Some? ==> (e.value == EmptyArray <==> |X.rows| == 0 || X.cols == 0)
    ensures e.Some? && e.value != EmptyArray ==> e.value == InconsistentLength
  {
    if |X.rows| == 0 || X.cols == 0 then Some(EmptyArray)
    else if |y| != |X.rows| then Some(InconsistentLength)
    else None
  }

  /** `LinearRegression().fit(X, y)`. */
  function Fit(solve: Solver, X: Matrix, y: seq<real>): (r: Result<Regressor>)
    ensures r.Err? <==> FitError(X, y).Some?
    ensures r.Err? ==> r.error == FitError(X, y).value
    ensures r.Ok? ==> && r.value.Fitted? && r.value.nFeaturesIn == X.cols
                      && (r.value.intercept, r.value.coef) == solve(X, y)
  {
    match FitError(X, y)
    case Some(e) => Err(e)
    case None => Ok(Fitted(solve(X, y).0, solve(X, y).1, X.cols))
  }

  /** The checks of LinearRegression.predict: fitted, a non-empty input, and
      the column count seen at fit time. */
  function PredictError(reg: Regressor, X: Matrix): (e: Option<Error>)
    ensures e.None? <==> reg.Fitted? && |X.rows| > 0 && X.cols > 0 && X.cols == reg.nFeaturesIn
    ensures e == Some(RegressorNotFitted) <==> reg.Unfitted?
    ensures e == Some(FeatureMismatch) <==> && reg.Fitted? && |X.rows| > 0 && X.cols > 0
                                            && X.cols != reg.nFeaturesIn
  {
    if reg.Unfitted? then Some(RegressorNotFitted)
    else if |X.rows| == 0 || X.cols == 0 then Some(EmptyArray)
    else if X.cols != reg.nFeaturesIn then Some(FeatureMismatch)
    else None
  }

  function Dot(a: seq<real>, b: seq<real>): real
    requires |a| == |b|
  {
    if |a| == 0 then 0.0 else a[0] * b[0] + Dot(a[1..], b[1..])
  }

  /** `reg.predict(X)`: intercept_ + X @ coef_, one value per row. */
  function Predict(reg: Regressor, X: Matrix): (r: Result<seq<real>>)
    ensures r.Err? <==> PredictError(reg, X).Some?
    ensures r.Err? ==> r.error == PredictError(reg, X).value
    ensures r.Ok? ==> |r.value| == |X.rows|
    ensures r.Ok? ==> forall i :: 0 <= i < |X.rows| ==>
                        r.value[i] == reg.intercept + Dot(reg.coef, X.rows[i])
  {
    match PredictError(reg, X)
    case Some(e) => Err(e)
    case None => Ok(seq(|X.rows|, i requires 0 <= i < |X.rows| => reg.intercept + Dot(reg.coef, X.rows[i])))
  }

  function Mean(s: seq<real>): real
    requires |s| > 0
  {
    Sum(s) / (|s| as real)
  }

  /** `r2_score(y_true, y_pred)` with scikit-learn's defaults: nan for fewer
      than two samples, 1.0 when the residuals vanish, 0.0 when only the
      target is constant, and 1 - SS_res / SS_tot otherwise. */
  function R2Score(yt: seq<real>, yp: seq<real>): (r: Num)
    requires |yt| == |yp| > 0
    ensures r.Finite? <==> |yt| >= 2
    ensures r.Finite? ==> r.value <= 1.0
    ensures r == Finite(1.0) <==> |yt| >= 2 && yt == yp
  {
    if |yt| < 2 then NotFinite
    else
      var ssRes := Rss(yt, yp);
      var ssTot := Rss(yt, seq(|yt|, _ => Mean(yt)));
      RssZeroIffPerfect(yt, yp);
      RssZeroIffPerfect(yt, seq(|yt|, _ => Mean(yt)));
      if ssRes == 0.0 then Finite(1.0)
      else if ssTot == 0.0 then Finite(0.0)
      else Finite(1.0 - ssRes / ssTot)
  }

  /** `mean_squared_error(y_true, y_pred)`. */
  function MeanSquaredError(yt: seq<real>, yp: seq<real>): (r: real)
    requires |yt| == |yp| > 0
    ensures r >= 0.0
    ensures r == 0.0 <==> yt == yp
  {
    RssZeroIffPerfect(yt, yp);
    Rss(yt, yp) / (|yt| as real)
  }

  /** `mean_absolute_error(y_true, y_pred)`. */
  function MeanAbsoluteError(yt: seq<real>, yp: seq<real>): (r: real)
    requires |yt| == |yp| > 0
    ensures r >= 0.0
    ensures r == 0.0 <==> yt == yp
  {
    AbsErrorSumZeroIffPerfect(yt, yp);
    AbsErrorSum(yt, yp) / (|yt| as real)
  }
}
