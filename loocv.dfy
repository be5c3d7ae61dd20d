/** `loocv_validation` of scripts/utils/metrics.py: leave-one-out
    cross-validation that refits one model object once per sample. */
module CrossValidation {
  import opened Common
  import opened Numpy
  import opened Sklearn
  import Metrics
  import opened Models

  /** The dictionary loocv_validation returns. */
  datatype LoocvResult = LoocvResult(r2: Num, rmse: real, mae: real, predictions: seq<real>, actuals: seq<real>)

  /** Why the loop raises, if it does: LeaveOneOut refuses fewer than two
      samples; `y[train_idx]` indexes past a y shorter than X in the first
      fold; the first fit rejects an array without columns. */
  function LoocvError(X: Matrix, y: seq<real>): (e: Option<Error>)
    ensures e.None? <==> 2 <= |X.rows| <= |y| && X.cols > 0
    ensures e.Some? ==> (e.value == TooFewSamples <==> |X.rows| <= 1)
  {
    if |X.rows| <= 1 then Some(TooFewSamples)
    else if |y| < |X.rows| then Some(IndexOutOfRange)
    else if X.cols == 0 then Some(EmptyArray)
    else None
  }

  /** The training data of fold i: every row of X but row i, and the targets
      at the same indices (indices of X, so a longer y is cut at |X.rows|). */
  function FoldTraining(X: Matrix, y: seq<real>, i: nat): (fold: (Matrix, seq<real>))
    requires i < |X.rows| <= |y|
    ensures |fold.0.rows| == |X.rows| - 1 && fold.0.cols == X.cols && |fold.1| == |X.rows| - 1
  {
    (DeleteRow(X, i), y[..i] + y[i + 1..|X.rows|])
  }

  /** The training data of the first `count` folds, in fold order. */
  function FoldHistory(X: Matrix, y: seq<real>, count: nat): seq<(Matrix, seq<real>)>
    requires count <= |X.rows| <= |y|
  {
    seq(count, k requires 0 <= k < count => FoldTraining(X, y, k))
  }

  lemma FoldHistoryStep(X: Matrix, y: seq<real>, i: nat)
    requires i < |X.rows| <= |y|
    ensures FoldHistory(X, y, i + 1) == FoldHistory(X, y, i) + [FoldTraining(X, y, i)]
  {
  }

  /** The prediction of fold i: a model trained on fold i's training data,
      applied to row i alone. */
  function FoldPrediction(variant: Variant, solve: Solver, num: Numerics, X: Matrix, y: seq<real>, i: nat): (p: real)
    requires LoocvError(X, y).None? && i < |X.rows|
    ensures var reg := FoldModel(variant, solve, num, X, y, i);
            p == Response(variant, num, reg.intercept + Dot(reg.coef, Features(variant, num, SelectRow(X, i)).rows[0]))
  {
    var (Xtrain, ytrain) := FoldTraining(X, y, i);
    TrainedModelAcceptsTrainingWidth(variant, solve, num, Xtrain, ytrain, SelectRow(X, i));
    Apply(variant, num, Train(variant, solve, num, Xtrain, ytrain).value, SelectRow(X, i)).value[0]
  }

  /** What loocv_validation computes: one prediction per row, each from its
      own fold, against the targets in row order, and the three metrics of
      these aggregated vectors. */
  function Loocv(variant: Variant, solve: Solver, num: Numerics, X: Matrix, y: seq<real>): (r: Result<LoocvResult>)
    ensures r.Err? <==> LoocvError(X, y).Some?
    ensures r.Err? ==> r.error == LoocvError(X, y).value
    ensures r.Ok? ==> && |r.value.predictions| == |X.rows| && |r.value.actuals| == |X.rows|
                      && r.value.actuals == y[..|X.rows|]
                      && forall i :: 0 <= i < |X.rows| ==>
                           r.value.predictions[i] == FoldPrediction(variant, solve, num, X, y, i)
    ensures r.Ok? ==> && r.value.r2 == R2Score(r.value.actuals, r.value.predictions) && r.value.r2.Finite?
                      && r.value.rmse == Metrics.CalculateRmse(num, r.value.actuals, r.value.predictions)
                      && r.value.mae == MeanAbsoluteError(r.value.actuals, r.value.predictions)
    ensures r.Ok? ==> (r.value.rmse == 0.0 <==> r.value.predictions == y[..|X.rows|])
  {
    match LoocvError(X, y)
    case Some(e) => Err(e)
    case None =>
      var n := |X.rows|;
      var predictions := seq(n, i requires 0 <= i < n => FoldPrediction(variant, solve, num, X, y, i));
      var actuals := y[..n];
      Ok(LoocvResult(R2Score(actuals, predictions), Metrics.CalculateRmse(num, actuals, predictions),
                     MeanAbsoluteError(actuals, predictions), predictions, actuals))
  }

  /** The held-out target takes no part in its own fold: changing y[i] leaves
      fold i's prediction as it was. */
  lemma FoldIgnoresHeldOutTarget(variant: Variant, solve: Solver, num: Numerics,
                                 X: Matrix, y: seq<real>, i: nat, v: real)
    requires LoocvError(X, y).None? && i < |X.rows|
    ensures LoocvError(X, y[i := v]).None?
    ensures FoldPrediction(variant, solve, num, X, y[i := v], i) == FoldPrediction(variant, solve, num, X, y, i)
  {
    var n := |X.rows|;
    assert y[i := v][..i] == y[..i];
    assert y[i := v][i + 1..n] == y[i + 1..n];
  }

  /** Fold i trains on n - 1 rows, none of them row i: every training row is
      the row of X at the same index below i, or one index further on. */
  lemma FoldLeavesOneOut(X: Matrix, y: seq<real>, i: nat)
    requires i < |X.rows| <= |y|
    ensures var (Xtrain, ytrain) := FoldTraining(X, y, i);
            && |Xtrain.rows| == |X.rows| - 1
            && (forall k :: 0 <= k < i ==> Xtrain.rows[k] == X.rows[k] && ytrain[k] == y[k])
            && (forall k :: i <= k < |X.rows| - 1 ==> Xtrain.rows[k] == X.rows[k + 1] && ytrain[k] == y[k + 1])
  {
  }

  /** The regressor fitted in fold i. */
  function FoldModel(variant: Variant, solve: Solver, num: Numerics, X: Matrix, y: seq<real>, i: nat): (reg: Regressor)
    requires LoocvError(X, y).None? && i < |X.rows|
    ensures reg.Fitted? && reg.nFeaturesIn == FeatureWidth(variant, X.cols)
    ensures var (Xtrain, ytrain) := FoldTraining(X, y, i);
            (reg.intercept, reg.coef) == solve(Features(variant, num, Xtrain), Target(variant, num, ytrain))
  {
    Train(variant, solve, num, FoldTraining(X, y, i).0, FoldTraining(X, y, i).1).value
  }

  /** `loocv_validation(model, X, y)`: n folds in row order, each refitting the
      same model object; the first exception ends the loop. */
  method LoocvValidation(model: SaviesaModel, X: Matrix, y: seq<real>, solve: Solver, num: Numerics)
    returns (r: Result<LoocvResult>)
    requires model.Valid()
    modifies model
    ensures model.Valid()
    ensures r == Loocv(model.variant, solve, num, X, y)
    ensures r.Ok? ==> model.history == old(model.history) + FoldHistory(X, y, |X.rows|)
    ensures r == Err(EmptyArray) ==> model.history == old(model.history) + FoldHistory(X, y, 1)
    ensures r.Err? && r.error != EmptyArray ==> model.history == old(model.history)
    ensures r.Ok? ==> model.isFitted && model.model == Some(FoldModel(model.variant, solve, num, X, y, |X.rows| - 1))
    ensures r.Ok? ==> model.nFeatures == (if model.variant.Interaction? then Some(X.cols) else old(model.nFeatures))
    ensures r == Err(EmptyArray) ==> model.model == Some(Unfitted) && model.isFitted == old(model.isFitted)
                                     && model.nFeatures == old(model.nFeatures)
    ensures r.Err? && r.error != EmptyArray ==> && model.model == old(model.model) && model.isFitted == old(model.isFitted)
                                                && model.nFeatures == old(model.nFeatures)
  {
    var n := |X.rows|;
    if n <= 1 {
      return Err(TooFewSamples);
    }
    // `y[train_idx]` of the first fold is the first expression that fails.
    if |y| < n {
      return Err(IndexOutOfRange);
    }
    var folds := RunFolds(model, X, y, solve, num);
    match folds {
      case Err(e) =>
        r := Err(e);
      case Ok((predictions, actuals)) =>
        LoocvFromFolds(model.variant, solve, num, X, y, predictions);
        r := Ok(LoocvResult(R2Score(actuals, predictions), Metrics.CalculateRmse(num, actuals, predictions),
                            MeanAbsoluteError(actuals, predictions), predictions, actuals));
    }
  }

  /** The predictions of the first `count` folds. */
  function FoldPredictions(variant: Variant, solve: Solver, num: Numerics, X: Matrix, y: seq<real>, count: nat)
    : (ps: seq<real>)
    requires LoocvError(X, y).None? && count <= |X.rows|
    ensures |ps| == count
    ensures forall k :: 0 <= k < count ==> ps[k] == FoldPrediction(variant, solve, num, X, y, k)
  {
    seq(count, k requires 0 <= k < count => FoldPrediction(variant, solve, num, X, y, k))
  }

  lemma FoldPredictionsStep(variant: Variant, solve: Solver, num: Numerics, X: Matrix, y: seq<real>, i: nat)
    requires LoocvError(X, y).None? && i < |X.rows|
    ensures FoldPredictions(variant, solve, num, X, y, i + 1)
            == FoldPredictions(variant, solve, num, X, y, i) + [FoldPrediction(variant, solve, num, X, y, i)]
  {
  }

  /** The fold loop of loocv_validation: the predictions and the actuals it
      appends, or the exception of the first fit. */
  method RunFolds(model: SaviesaModel, X: Matrix, y: seq<real>, solve: Solver, num: Numerics)
    returns (r: Result<(seq<real>, seq<real>)>)
    requires model.Valid() && 2 <= |X.rows| <= |y|
    modifies model
    ensures model.Valid()
    ensures r.Err? <==> X.cols == 0
    ensures r.Err? ==> r.error == EmptyArray && model.history == old(model.history) + FoldHistory(X, y, 1)
    ensures r.Ok? ==> && |r.value.0| == |X.rows| && r.value.1 == y[..|X.rows|]
                      && (forall k :: 0 <= k < |X.rows| ==> r.value.0[k] == FoldPrediction(model.variant, solve, num, X, y, k))
                      && model.history == old(model.history) + FoldHistory(X, y, |X.rows|)
                      && model.isFitted && model.model == Some(FoldModel(model.variant, solve, num, X, y, |X.rows| - 1))
                      && model.nFeatures == (if model.variant.Interaction? then Some(X.cols) else old(model.nFeatures))
    ensures r.Err? ==> && model.model == Some(Unfitted) && model.isFitted == old(model.isFitted)
                       && model.nFeatures == old(model.nFeatures)
  {
    var n := |X.rows|;
    var predictions: seq<real> := [];
    var actuals: seq<real> := [];
    var i := 0;
    while i < n
      invariant 0 <= i <= n
      invariant model.Valid()
      invariant i > 0 ==> X.cols > 0
      invariant |predictions| == i && actuals == y[..i]
      invariant i > 0 ==> predictions == FoldPredictions(model.variant, solve, num, X, y, i)
      invariant model.history == old(model.history) + FoldHistory(X, y, i)
      invariant i > 0 ==> model.isFitted && model.model == Some(FoldModel(model.variant, solve, num, X, y, i - 1))
      invariant i > 0 ==> model.nFeatures == (if model.variant.Interaction? then Some(X.cols) else old(model.nFeatures))
      invariant i == 0 ==> model.isFitted == old(model.isFitted) && model.nFeatures == old(model.nFeatures)
    {
      var prediction := RunFold(model, X, y, i, solve, num);
      FoldHistoryStep(X, y, i);
      if prediction.Err? {
        return Err(prediction.error);
      }
      FoldPredictionsStep(model.variant, solve, num, X, y, i);
      predictions := predictions + [prediction.value];
      actuals := actuals + [y[i]];
      assert y[..i + 1] == y[..i] + [y[i]];
      i := i + 1;
    }
    return Ok((predictions, actuals));
  }

  /** One pass of the loop body: fit on fold i's training data, predict row
      i, keep the first prediction. */
  method RunFold(model: SaviesaModel, X: Matrix, y: seq<real>, i: nat, solve: Solver, num: Numerics)
    returns (p: Result<real>)
    requires model.Valid() && 2 <= |X.rows| <= |y| && i < |X.rows|
    modifies model
    ensures model.Valid()
    ensures model.history == old(model.history) + [FoldTraining(X, y, i)]
    ensures p.Err? <==> X.cols == 0
    ensures p.Err? ==> p.error == EmptyArray
    ensures p.Ok? ==> && p.value == FoldPrediction(model.variant, solve, num, X, y, i)
                      && model.isFitted && model.model == Some(FoldModel(model.variant, solve, num, X, y, i))
                      && model.nFeatures == (if model.variant.Interaction? then Some(X.cols) else old(model.nFeatures))
    ensures p.Err? ==> && model.model == Some(Unfitted) && model.isFitted == old(model.isFitted)
                       && model.nFeatures == old(model.nFeatures)
  {
    var (Xtrain, ytrain) := FoldTraining(X, y, i);
    var Xtest := SelectRow(X, i);
    var fitted := model.Fit(Xtrain, ytrain, solve, num);
    if fitted.Err? {
      return Err(fitted.error);
    }
    var predicted := model.Predict(Xtest, num);
    p := Ok(predicted.value[0]);
  }

  lemma LoocvFromFolds(variant: Variant, solve: Solver, num: Numerics, X: Matrix, y: seq<real>, predictions: seq<real>)
    requires LoocvError(X, y).None? && |predictions| == |X.rows|
    requires forall k :: 0 <= k < |X.rows| ==> predictions[k] == FoldPrediction(variant, solve, num, X, y, k)
    ensures var actuals := y[..|X.rows|];
            Loocv(variant, solve, num, X, y)
            == Ok(LoocvResult(R2Score(actuals, predictions), Metrics.CalculateRmse(num, actuals, predictions),
                              MeanAbsoluteError(actuals, predictions), predictions, actuals))
  {
    var n := |X.rows|;
    assert predictions == seq(n, i requires 0 <= i < n => FoldPrediction(variant, solve, num, X, y, i));
  }
}
