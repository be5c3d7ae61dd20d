# Saviesa framework: a verified model of the diagnostic core

The Saviesa framework compares two readings of a production-like outcome `F`
that depends on three factors, Orientation `O`, Levier `L` and Milieu
`M`:

- An additive reading, `F = α0 + Σ αi·Xi`. Here the factors compensate for one another.
- A multiplicative reading, `log F = β0 + Σ βi·log Xi`. This follows Liebig's law of the minimum: the scarcest factor limits the outcome.

On top of these two readings the framework builds:

- an interaction model, which adds the pairwise products of the features;
- a limiting-factor rule (argmin);
- regression metrics: R², RMSE, MAE, AIC, BIC and leave-one-out cross-validation;
- a two-model comparison;
- the "differential diagnosis" of the COVID data set. It measures how often the multiplicative rule (invest in the smallest factor) and the additive rule (invest in the largest contribution αi·Xi) name the same factor, and how much is gained where they disagree.

This Dafny project models that core as it is written:

- `common.dfy`: `Common`. Options, results whose errors stand for the Python exceptions, and `Num` for values that numpy turns into nan or inf.
- `numpy.dfy`: `Numpy`. The array operations used: column stacking, argmin and argmax with numpy's first-occurrence tie rule, and sums of squares. It also holds `Numerics`, the laws assumed of `ln`, `exp` and `sqrt`.
- `sklearn.dfy`: `Sklearn`. `LinearRegression` with its input checks and its linear prediction, plus `r2_score`, `mean_squared_error` and `mean_absolute_error`.
- `models.dfy`: `Models`, for `scripts/utils/models.py`:
  - the model objects, as a class `SaviesaModel` whose fields `fit` updates;
  - `_add_interactions`, as a method with its two nested loops;
  - `identify_limiting_factor`;
  - `compare_models`, as a method with its loop over the three models.
- `metrics.py` is covered by two files:
  - `metrics.dfy`, module `Metrics`, holds the metric functions, `calculate_all_metrics`, `compare_predictions` and `diagnostic_divergence_rate`;
  - `loocv.dfy`, module `CrossValidation`, holds `loocv_validation`, a loop that refits one model object once per sample.
- `diagnostic_differentiel.dfy`: `Diagnostic`, for `scripts/validation/diagnostic_differentiel.py`. It holds:
  - the multiplicative and additive labelling rules and the efficiency gain;
  - what `main` computes from a table: the least-squares coefficients α_L and α_M, the two diagnoses per department, the convergence and divergence masks and rates, and the gains of the divergent departments.

The least-squares solve is a parameter, `Solver`: any function that returns an intercept and one coefficient per column. `ln`, `exp` and `sqrt` are a parameter too, `Numerics`. Only a few laws are assumed of them:

- `ln` is strictly increasing on the positive reals;
- `exp` is positive;
- `sqrt` is strictly increasing on the non-negative reals and `sqrt(0) = 0`.

Every property below therefore holds whatever the solver returns.

Three points of behaviour follow the code, not the documentation:

- **A failed refit leaves a stale flag.** `fit` stores a fresh `LinearRegression` before fitting it. A refit that raises therefore leaves `is_fitted` as it was, with an unfitted regressor behind it. `predict` then fails inside scikit-learn (`RegressorNotFitted`), not at the model's own guard. `get_coefficients` and `get_elasticities` raise `AttributeError` (`MissingAttribute`). `SaviesaModel.Fit`, `SaviesaModel.Predict` and the two getters state this.
- **The COVID rule breaks ties differently.** For the COVID data, `main` does not call `identify_limiting_factor_additive`. It applies `np.where(α_L·L > α_M·M, 'L', 'M')` inline, so a tie goes to M. The helper's `argmax` gives a tie to L, the first in order. `CovidRuleDiffersFromHelperOnlyOnTies` proves that this is the only difference whenever O's contribution is the smallest.
- **`n_features` is never read.** `InteractionModel.fit` records `n_features`, but `predict` does not use it. A width mismatch is caught by scikit-learn's check on the augmented array. `TrainedModelAcceptsTrainingWidth` proves this check rejects exactly the inputs whose own width differs: the augmented width n + n(n-1)/2 is injective.

## Model

| member | source | states |
|---|---|---|
| Sklearn.Fit | scripts/utils/models.py:51-52 | `LinearRegression().fit` raises exactly on an empty array or a target of the wrong length. Otherwise it is fitted, records the column count and stores the solver's intercept and coefficients. |
| Sklearn.FitError | scripts/utils/models.py:52 | Fit is accepted exactly when there is a sample and a column and one target per sample. An empty array gives EmptyArray, and otherwise the error is InconsistentLength. |
| Sklearn.Predict | scripts/utils/models.py:60 | `predict` raises exactly when the regressor is unfitted, the input is empty or its width differs from the width at fit time. Otherwise it gives one value per row, intercept plus the dot product of the coefficients with the row. |
| Sklearn.PredictError | scripts/utils/models.py:60 | Predict is accepted exactly when the regressor is fitted and the input is non-empty with the fit-time width. An unfitted regressor gives RegressorNotFitted; a non-empty input of another width gives FeatureMismatch. |
| Sklearn.R2Score | scripts/utils/metrics.py:14-25 | r2 is finite exactly when there are at least two samples. It is never above 1, and equals 1 exactly when the predictions equal the targets. |
| Sklearn.MeanSquaredError | scripts/utils/metrics.py:38 | The mean squared error is non-negative and zero exactly on a perfect prediction. |
| Sklearn.MeanAbsoluteError | scripts/utils/metrics.py:40-51 | The MAE is non-negative and zero exactly on a perfect prediction. |
| Numpy.ColumnStack | scripts/utils/models.py:104 | `np.column_stack` keeps the rows. Its width is X's plus one per extra column, with X's entries first and then the extra columns in order. |
| Numpy.DeleteRow | scripts/utils/metrics.py:104 | `X[train_idx]` for a leave-one-out split keeps the width and every row except row i, in order. |
| Numpy.SelectRow | scripts/utils/metrics.py:104 | `X[test_idx]` is the one-row array holding row i. |
| Numpy.ArgMin | scripts/utils/models.py:207 | `np.argmin` gives an index of a minimum with no smaller or equal value before it: the first minimum. |
| Numpy.ArgMax | scripts/validation/diagnostic_differentiel.py:67 | `np.argmax` gives an index of a maximum with no larger or equal value before it: the first maximum. |
| Numpy.RssZeroIffPerfect | scripts/utils/metrics.py:66 | The residual sum of squares is non-negative and zero exactly when the predictions equal the targets. |
| Numpy.AbsErrorSumZeroIffPerfect | scripts/utils/metrics.py:51 | The sum of absolute errors is non-negative and zero exactly on a perfect prediction. |
| Metrics.CalculateRmse | scripts/utils/metrics.py:27-38 | RMSE is non-negative and zero exactly when the predictions equal the targets. |
| Metrics.InformationCriterion | scripts/utils/metrics.py:65-67 | n ln(RSS/n) + penalty is finite exactly when there is a sample and the prediction is imperfect. An empty input gives nan; a perfect prediction takes ln 0. |
| Metrics.CalculateAic | scripts/utils/metrics.py:53-68 | AIC is finite exactly when there are samples and RSS > 0. |
| Metrics.CalculateBic | scripts/utils/metrics.py:70-85 | BIC is finite exactly when there are samples and RSS > 0. |
| Metrics.AicBicDifferOnlyInPenalty | scripts/utils/metrics.py:82-84 | AIC and BIC are finite together, and they agree once the penalties 2k and k ln n are removed. |
| Metrics.AicRanksByRss | scripts/utils/metrics.py:65-67 | For the same n and k, AIC orders two prediction sets exactly as their residual sums of squares do. |
| Metrics.CalculateAllMetrics | scripts/utils/metrics.py:131-153 | Raises exactly on inputs of different lengths (InconsistentLength) or empty inputs (EmptyArray). The keys are r2, rmse and mae, plus aic and bic exactly when a parameter count is given. Each value is the corresponding metric. |
| Metrics.Gains | scripts/utils/metrics.py:175-181 | The gains dictionary has exactly the five keys delta_r2, delta_rmse, delta_mae, pct_rmse_improvement and pct_mae_improvement. |
| Metrics.PercentImprovement | scripts/utils/metrics.py:179-180 | (m1 - m2)/m1·100 is finite exactly when both metrics are finite and m1 is non-zero. For a positive m1 it is positive exactly when m2 < m1. |
| Metrics.ComparePredictions | scripts/utils/metrics.py:155-184 | Raises exactly on an empty target or a prediction set of the wrong length. The keys are the two names and "gains". Each name maps to its metrics, with a later equal key overwriting an earlier one. |
| Metrics.GainsMeaning | scripts/utils/metrics.py:176-180 | Every delta, delta_r2 included, is metric 2 minus metric 1, nan where either is nan. delta_r2 is finite exactly when there are two samples or more. Each percentage improvement is finite exactly when model 1 is imperfect; it then equals (m1 - m2)/m1·100 and is positive exactly when model 2's error is smaller. |
| Metrics.SelfComparisonGainsNothing | scripts/utils/metrics.py:169-181 | Comparing a prediction set with itself gives zero deltas and zero percentages. They are nan where the metric or the denominator is. |
| Metrics.CountComplement | scripts/utils/metrics.py:200-205 | The convergent and divergent counts of complementary masks add up to the total. |
| Metrics.Percentage | scripts/utils/metrics.py:211-212 | A count out of n as a percentage: nan exactly when n = 0, otherwise 100·count/n, which lies in [0, 100] for a count no larger than n. |
| Metrics.DiagnosticDivergenceRate | scripts/utils/metrics.py:186-215 | Each mask entry says whether the two labels agree, and the divergent mask is its negation. n_convergent and n_divergent are the numbers of true entries of the two masks, and they add up to n. The rates are nan exactly for n = 0. Otherwise they are 100·n_conv/n and 100·n_div/n, and they sum to 100. |
| Metrics.RatesSumTo100 | scripts/utils/metrics.py:211-212 | Two complementary counts give percentages that sum to 100. |
| Metrics.IdenticalLabelsConverge | tests/test_metrics.py:69-79 | Identical label arrays give no divergent case, 100% convergence and 0% divergence. |
| Metrics.ThreeOfFiveDiverge | tests/test_metrics.py:81-92 | The test suite's partially divergent arrays give 2 convergent and 3 divergent cases, at 40% and 60%. |
| Metrics.DisjointLabelsDiverge | tests/test_metrics.py:94-103 | Arrays that differ everywhere give 100% divergence. |
| Models.PairsBelowWithin | scripts/utils/models.py:99-101 | Every pair visited before outer index i has i' < j' < n and i' < i. |
| Models.PairsBelowSorted | scripts/utils/models.py:99-101 | The nested loops visit the pairs in strictly increasing lexicographic order. |
| Models.PairsBelowComplete | scripts/utils/models.py:99-101 | Every pair with first index below i is visited. |
| Models.PairsBelowCount | scripts/utils/models.py:99-101 | The loops visit as many pairs as the triangle count gives. |
| Models.PairsFacts | scripts/utils/models.py:99-101 | The loops visit every pair i < j < n exactly once, in lexicographic order, n(n-1)/2 of them. |
| Models.AugmentedWidth | scripts/utils/models.py:96-105 | The augmented width w satisfies 2w = n(n + 1), i.e. n columns plus n(n - 1)/2 products. It is at least n, and equals n when there are fewer than two columns. |
| Models.AugmentedWidthInjective | scripts/utils/models.py:107-112 | Different input widths give different augmented widths. |
| Models.InteractionColumns | scripts/utils/models.py:101 | There is one product column per visited pair, each with one entry per sample. |
| Models.Augmented | scripts/utils/models.py:94-105 | `_add_interactions` keeps the rows and X's entries. Column n + k is the product of the columns of the k-th pair. X is returned unchanged when it has fewer than two columns. |
| Models.AddInteractions | scripts/utils/models.py:94-105 | The nested loops followed by the stacking compute exactly `Augmented(X)`. |
| Models.Features | scripts/utils/models.py:142 | The array given to the regressor keeps the rows and has the variant's feature width. |
| Models.Target | scripts/utils/models.py:143 | The target given to the regressor has one value per sample. |
| Models.Train | scripts/utils/models.py:133-149 | Each class's fit raises exactly when LinearRegression's input checks fail. Otherwise the regressor is fitted on the transformed features and target, with the transformed width. |
| Models.Apply | scripts/utils/models.py:151-165 | Each class's predict fails exactly on an unfitted regressor, an empty input or a width the regressor does not accept, and each failure is classified. Otherwise it gives one value per row: the response of the linear predictor on the transformed row. Multiplicative predictions are positive. |
| Models.TrainedModelAcceptsTrainingWidth | scripts/utils/models.py:87-112 | A trained model rejects exactly the empty inputs and those whose width differs from the training width. |
| Models.InSamplePredictionSucceeds | scripts/utils/models.py:240-241 | After a fit that succeeds, predicting the training data succeeds with one value per sample. |
| Models.SaviesaModel.constructor | scripts/utils/models.py:17-19 | A new object has no regressor, is not fitted and has no recorded width. |
| Models.SaviesaModel.Fit | scripts/utils/models.py:43-54 | A fit succeeds exactly when training does. On success the object is fitted with the trained regressor, and the interaction model records the width. On failure an unfitted regressor is left with is_fitted unchanged. |
| Models.SaviesaModel.Predict | scripts/utils/models.py:56-60 | Predict raises NotFitted before any successful fit and RegressorNotFitted behind a failed refit. Otherwise it fails exactly on an empty input or a wrong width. It gives one value per sample, positive for the multiplicative model. |
| Models.SaviesaModel.Score | scripts/utils/models.py:31-34 | score fails exactly when predict does or the target length differs. Otherwise it is r2 of the target against the predictions. |
| Models.SaviesaModel.GetCoefficients | scripts/utils/models.py:62-69 | Only the additive class has the method. It raises NotFitted before a fit, and MissingAttribute when a failed refit left an unfitted regressor. Otherwise it returns the regressor's intercept and coefficients. |
| Models.SaviesaModel.GetElasticities | scripts/utils/models.py:167-179 | Only the multiplicative class has the method. It raises NotFitted before a fit, and MissingAttribute when a failed refit left an unfitted regressor. Otherwise it returns the regressor's intercept and coefficients. |
| Models.SaviesaModel.Weights | scripts/utils/models.py:64-69 | The shared guard of the two getters: NotFitted before a fit, MissingAttribute over an unfitted regressor, and otherwise the stored intercept_ and coef_. |
| Models.ModelLifecycle | scripts/utils/models.py:21-69 | For one object: predicting before fit raises. A fit succeeds exactly on valid data, and afterwards the in-sample prediction has one value per sample. The weights are the solver's on the transformed data. After a failed fit, predict raises. |
| Models.DecimalStringInjective | scripts/utils/models.py:201 | Different numbers have different decimal forms. |
| Models.DefaultFactorNames | scripts/utils/models.py:199-201 | The default names are "F1", …, "Fn", pairwise distinct. |
| Models.IdentifyLimitingFactor | scripts/utils/models.py:181-212 | Raises EmptyArray exactly when there are no factors, and IndexOutOfRange exactly when some minimum's index has no name. A single observation gives the name of its first minimum. A table gives, row by row, the name of each row's first minimum. |
| Models.DefaultNamesNeverMissing | scripts/utils/models.py:199-212 | With the default names, identification fails exactly when there are no factors. |
| Models.RowsAgreeWithSingleObservations | scripts/utils/models.py:205-212 | The answer for each row of a table is the answer for that row on its own. |
| Models.LimitingFactorExamples | tests/test_models.py:103-127 | The three test cases: L for (0.8, 0.5, 0.9) with the names O, L, M; F2 for the same values with the default names; and L, O, M for the three-row table. |
| Models.InSampleScore | scripts/utils/models.py:243-252 | A model's score row carries its name, a non-negative RMSE and MAE, and an r2 that is finite exactly when there are two samples or more. |
| Models.FitAndScore | scripts/utils/models.py:239-252 | One loop pass raises exactly when the fit does. Otherwise it returns the in-sample score of that model. |
| Models.CompareModels | scripts/utils/models.py:214-254 | Raises exactly when some name is given and the data fail LinearRegression's checks. Otherwise it returns one row per model zipped with a name, at most three, in order, each the in-sample score of that model. |
| CrossValidation.FoldTraining | scripts/utils/metrics.py:104-105 | Fold i trains on n - 1 rows of the same width and n - 1 targets. |
| CrossValidation.LoocvError | scripts/utils/metrics.py:99-108 | The loop can run exactly when there are two samples or more, y reaches every row, and X has a column. TooFewSamples is raised exactly for fewer than two samples. |
| CrossValidation.FoldModel | scripts/utils/metrics.py:108 | The regressor of fold i is fitted at the variant's feature width on the transformed training data of that fold. |
| CrossValidation.FoldPrediction | scripts/utils/metrics.py:104-113 | The prediction of fold i is the response of fold i's regressor on the transformed row i. |
| CrossValidation.FoldLeavesOneOut | scripts/utils/metrics.py:103-105 | Each training row of fold i is the row of X at the same index below i, or one index further on, so row i is left out. |
| CrossValidation.FoldIgnoresHeldOutTarget | scripts/utils/metrics.py:103-111 | Changing the held-out target leaves the fold's prediction unchanged. |
| CrossValidation.Loocv | scripts/utils/metrics.py:87-129 | Raises exactly for n < 2 (TooFewSamples), a short y (IndexOutOfRange) or no columns (EmptyArray). Otherwise there is one prediction per row, each from its own fold, and the actuals are y in row order. r2 is finite, and RMSE is zero exactly when the predictions equal the actuals. |
| CrossValidation.LoocvValidation | scripts/utils/metrics.py:87-129 | The loop over the one mutable model returns exactly `Loocv`. It refits the model on each fold's data in order. On success the model keeps the last fold's regressor, and n_features is X's width for the interaction model. TooFewSamples and IndexOutOfRange leave the model untouched. EmptyArray leaves an unfitted regressor, with is_fitted and n_features as they were. |
| CrossValidation.FoldPredictions | scripts/utils/metrics.py:113 | The first count predictions are those of folds 0 to count - 1. |
| CrossValidation.RunFolds | scripts/utils/metrics.py:103-117 | The fold loop fails exactly when X has no columns, after one fit that leaves an unfitted regressor and the flags as they were. Otherwise it collects each fold's prediction and y in row order. The model is refitted once per fold and keeps the last fold's regressor. |
| CrossValidation.RunFold | scripts/utils/metrics.py:104-114 | A fit on fold i's data and a prediction of row i give fold i's prediction, and the model then holds fold i's regressor. When X has no columns it gives EmptyArray and leaves an unfitted regressor, with the flags as they were. |
| CrossValidation.LoocvFromFolds | scripts/utils/metrics.py:116-121 | The fold predictions assembled with y in row order are the result of `Loocv`. |
| Diagnostic.MultiplicativeLabel | scripts/validation/diagnostic_differentiel.py:34-37 | The multiplicative rule names the first factor, in the order O, L, M, whose value is the minimum. |
| Diagnostic.AdditiveLabel | scripts/validation/diagnostic_differentiel.py:56-63 | The additive rule names the first factor whose contribution αi·Xi is the maximum. |
| Diagnostic.MultiplicativeLabels | scripts/validation/diagnostic_differentiel.py:38-43 | The array form raises InconsistentLength when the columns differ in length. Otherwise it gives one label per row, equal to the scalar rule. |
| Diagnostic.RowArgMinIsScalarRule | scripts/validation/diagnostic_differentiel.py:40-43 | The argmin of one stacked row names the same factor as `min` over the dictionary. |
| Diagnostic.AdditiveLabels | scripts/validation/diagnostic_differentiel.py:64-69 | The array form raises InconsistentLength when the columns differ in length. Otherwise it gives one label per row, equal to the scalar rule. |
| Diagnostic.RowArgMaxIsScalarRule | scripts/validation/diagnostic_differentiel.py:66-69 | The argmax of one row of contributions names the same factor as `max` over the dictionary. |
| Diagnostic.EfficiencyGain | scripts/validation/diagnostic_differentiel.py:71-101 | The gain is 1 when the diagnoses agree or the multiplicative factor's value is not positive. Otherwise the gain times that value is the additive factor's value. |
| Diagnostic.GainOfMultiplicativeDiagnosis | scripts/validation/diagnostic_differentiel.py:87-99 | Measured against the multiplicative diagnosis, the gain is at least 1. It exceeds 1 exactly when that factor is positive and the additive choice is strictly larger. |
| Diagnostic.CovidAdditiveLabel | scripts/validation/diagnostic_differentiel.py:142-144 | The inline COVID rule names L exactly when α_L·L > α_M·M, and M otherwise. |
| Diagnostic.CovidRuleDiffersFromHelperOnlyOnTies | scripts/validation/diagnostic_differentiel.py:142-144 | When O contributes least, the inline rule and the helper disagree exactly on an L/M tie. The helper then names L and the inline rule M. |
| Diagnostic.CompareDiagnoses | scripts/validation/diagnostic_differentiel.py:139-151 | Per department: the multiplicative label with O = 1, the inline additive label, whether they agree, and the negation. The rates are nan exactly for an empty table. Otherwise they are 100 times the share of convergent and of divergent departments, and they sum to 100. |
| Diagnostic.CompareDiagnosesIsDivergenceRate | scripts/validation/diagnostic_differentiel.py:147-151 | main's inline masks and rates equal those of `diagnostic_divergence_rate` on the two label arrays. |
| Diagnostic.DivergentGainsAtLeastOne | scripts/validation/diagnostic_differentiel.py:170-176 | Every efficiency gain collected over the divergent departments is at least 1. |
| Diagnostic.DiagnoseCovid | scripts/validation/diagnostic_differentiel.py:114-151 | The regression of F on column_stack([L, M]) raises exactly on an empty table or an F of another length. Otherwise its two coefficients drive the comparison. |

## Left out

- The least-squares solve of `LinearRegression` is a parameter (`Solver`), so nothing is proved about the coefficients' values. The same goes for `ln`, `exp` and `sqrt`, which are parameters with the monotonicity and positivity laws above. Floating-point rounding is not modelled: values are exact reals.
- Models.Train: `np.log` of a non-positive `X + ε` or `y + ε` yields nan or -inf, and scikit-learn's input check then makes the multiplicative model's fit raise. Here `ln` is total, so that error path is not modelled and such data fit successfully.
- Models.Apply: for the same reason, the multiplicative model's predict on an input with a non-positive `X + ε` succeeds here, where scikit-learn would raise on the nan or -inf.
- Models.SaviesaModel.Predict: inherits that gap from Models.Apply.
- Models.Apply: the positivity of multiplicative predictions rests on `exp` being positive on every real. It ignores the overflow to inf of floating point.
- The base class `SaviesaModel`'s `fit` and `predict`, which raise `NotImplementedError`, are not modelled. Only the three concrete classes exist, as `Variant`.
- Arrays are two-dimensional tables with one width (`Matrix`). numpy's handling of ragged or higher-dimensional input, of plain lists and of 1-D feature arrays is not modelled.
- Metrics.DiagnosticDivergenceRate requires the two label arrays to have one length. numpy's broadcasting of unequal shapes, and its elementwise-comparison fallback, are not modelled.
- Metrics.InformationCriterion: y_true and y_pred must have one length. numpy's broadcasting of a length-1 y_pred is not modelled.
- Metrics.CalculateAic: requires one length, for the reason above.
- Metrics.CalculateBic: requires one length, for the reason above.
- Diagnostic.CompareDiagnoses requires L and M of one length, as two columns of one table. For the same reason, so do Diagnostic.DiagnoseCovid, Diagnostic.CompareDiagnosesIsDivergenceRate and Diagnostic.DivergentGainsAtLeastOne.
- The scalar/array dispatch of the two labelling helpers on `isinstance(O, (int, float))` is modelled as two separate functions per rule. Mixed scalar and array arguments are not modelled.
- `calculate_efficiency_gain`'s `KeyError` for a label other than O, L or M cannot arise, because labels are the datatype `Factor`.
- `main`'s input loading and output are not modelled: CSV reading and writing, directory creation, printing, the data frame of divergent departments, `np.unique` counts, and the mean and median of the gains. Its three columns are parameters of `DiagnoseCovid`.
- `compare_models` returns a pandas DataFrame. Here it returns the sequence of its rows (`ModelScore`). The model objects are created inside the loop rather than in a list before it, which cannot be observed.
- In `loocv_validation` the `hasattr(…, '__len__')` branches always take the array path, because predictions and targets are sequences.
- Driver scripts, plotting, the package `__init__` files and the dataset generators are not part of this model.
