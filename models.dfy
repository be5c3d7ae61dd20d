/** scripts/utils/models.py: the additive, interaction and multiplicative
    models, the limiting factor of Liebig's law of the minimum, and the
    in-sample comparison of the three models. */
module Models {
  import opened Common
  import opened Numpy
  import opened Sklearn
  import Metrics

  // ---------------------------------------------------------------------
  // Pairwise interaction terms
  // ---------------------------------------------------------------------

  /** The pairs (i, j), i < j < hi, for one fixed i, in increasing j: what
      the inner loop of `_add_interactions` visits when it runs up to hi. */
  function RowPairs(i: nat, hi: nat): seq<(nat, nat)> {
    seq(if hi > i + 1 then hi - i - 1 else 0, t => (i, i + 1 + t))
  }

  /** The pairs visited before the outer loop index reaches i. */
  function PairsBelow(i: nat, n: nat): seq<(nat, nat)> {
    if i == 0 then [] else PairsBelow(i - 1, n) + RowPairs(i - 1, n)
  }

  /** Every pair (i, j) with i < j < n, in the order of the two nested loops. */
  function Pairs(n: nat): seq<(nat, nat)> {
    PairsBelow(n, n)
  }

  predicate LexLess(p: (nat, nat), q: (nat, nat)) {
    p.0 < q.0 || (p.0 == q.0 && p.1 < q.1)
  }

  predicate PairsWithin(ps: seq<(nat, nat)>, n: nat) {
    forall k :: 0 <= k < |ps| ==> ps[k].0 < ps[k].1 < n
  }

  lemma {:induction false} PairsBelowWithin(i: nat, n: nat)
    requires i <= n
    ensures PairsWithin(PairsBelow(i, n), n)
    ensures forall k :: 0 <= k < |PairsBelow(i, n)| ==> PairsBelow(i, n)[k].0 < i
  {
    if i > 0 {
      PairsBelowWithin(i - 1, n);
    }
  }

  lemma {:induction false} PairsBelowSorted(i: nat, n: nat)
    requires i <= n
    ensures forall a, b :: 0 <= a < b < |PairsBelow(i, n)| ==> LexLess(PairsBelow(i, n)[a], PairsBelow(i, n)[b])
  {
    if i > 0 {
      PairsBelowSorted(i - 1, n);
      PairsBelowWithin(i - 1, n);
    }
  }

  lemma {:induction false} PairsBelowComplete(i: nat, n: nat)
    requires i <= n
    ensures forall p: nat, q: nat :: p < i && p < q < n ==> (p, q) in PairsBelow(i, n)
  {
    if i > 0 {
      var m := i - 1;
      PairsBelowComplete(m, n);
      var below, row := PairsBelow(m, n), RowPairs(m, n);
      assert PairsBelow(i, n) == below + row;
      forall p: nat, q: nat | p < i && p < q < n
        ensures (p, q) in PairsBelow(i, n)
      {
        if p < m {
          assert (p, q) in below;
        } else {
          assert row[q - m - 1] == (p, q);
        }
      }
    }
  }

  lemma {:induction false} PairsBelowCount(i: nat, n: nat)
    requires i <= n
    ensures 2 * |PairsBelow(i, n)| == i * (2 * n - i - 1)
  {
    if i > 0 {
      var m := i - 1;
      PairsBelowCount(m, n);
      assert |PairsBelow(i, n)| == |PairsBelow(m, n)| + (n - m - 1);
    }
  }

  /** What `_add_interactions` enumerates: all pairs i < j < n, each once, in
      lexicographic order, n (n - 1) / 2 of them. */
  lemma PairsFacts(n: nat)
    ensures PairsWithin(Pairs(n), n)
    ensures forall a, b :: 0 <= a < b < |Pairs(n)| ==> LexLess(Pairs(n)[a], Pairs(n)[b])
    ensures forall i: nat, j: nat :: i < j < n ==> (i, j) in Pairs(n)
    ensures 2 * |Pairs(n)| == n * (n - 1)
  {
    PairsBelowWithin(n, n);
    PairsBelowSorted(n, n);
    PairsBelowComplete(n, n);
    PairsBelowCount(n, n);
  }

  /** The column count after the interaction terms are appended: n plus
      n (n - 1) / 2 products. */
  function AugmentedWidth(n: nat): (w: nat)
    ensures 2 * w == n * (n + 1)
    ensures w >= n
    ensures n < 2 ==> w == n
  {
    PairsFacts(n);
    n + |Pairs(n)|
  }

  /** Different input widths give different augmented widths, so the column
      check of LinearRegression.predict on the augmented array rejects exactly
      the inputs whose own width differs from the training width. */
  lemma AugmentedWidthInjective(a: nat, b: nat)
    requires AugmentedWidth(a) == AugmentedWidth(b)
    ensures a == b
  {
    if a < b {
      StrictlyIncreasingSquare(a, b);
    } else if b < a {
      StrictlyIncreasingSquare(b, a);
    }
  }

  lemma StrictlyIncreasingSquare(a: nat, b: nat)
    requires a < b
    ensures a * (a + 1) < b * (b + 1)
  {
    assert a * (a + 1) <= a * b;
    assert a * b < b * (b + 1);
  }

  /** The product columns `X[:, i] * X[:, j]`, one per listed pair. */
  function InteractionColumns(X: Matrix, ps: seq<(nat, nat)>): (c: seq<seq<real>>)
    requires PairsWithin(ps, X.cols)
    ensures |c| == |ps|
    ensures forall k :: 0 <= k < |c| ==> |c[k]| == |X.rows|
  {
    seq(|ps|, k requires 0 <= k < |ps| => Product(Column(X, ps[k].0), Column(X, ps[k].1)))
  }

  /** The array `_add_interactions` returns: X itself when there are no
      pairs, else X followed by the product of every pair of its columns. */
  function Augmented(X: Matrix): (r: Matrix)
    ensures |r.rows| == |X.rows| && r.cols == AugmentedWidth(X.cols)
    ensures forall i, j :: 0 <= i < |X.rows| && 0 <= j < X.cols ==> r.rows[i][j] == X.rows[i][j]
    ensures PairsWithin(Pairs(X.cols), X.cols)
    ensures forall i, k :: 0 <= i < |X.rows| && 0 <= k < |Pairs(X.cols)| ==>
              r.rows[i][X.cols + k] == X.rows[i][Pairs(X.cols)[k].0] * X.rows[i][Pairs(X.cols)[k].1]
    ensures X.cols < 2 ==> r == X
  {
    PairsFacts(X.cols);
    var extra := InteractionColumns(X, Pairs(X.cols));
    if |extra| == 0 then X else ColumnStack(X, extra)
  }

  lemma RowPairsStep(i: nat, j: nat)
    requires i + 1 <= j
    ensures RowPairs(i, j + 1) == RowPairs(i, j) + [(i, j)]
  {
  }

  lemma InteractionColumnsStep(X: Matrix, ps: seq<(nat, nat)>, p: (nat, nat))
    requires PairsWithin(ps, X.cols) && p.0 < p.1 < X.cols
    ensures InteractionColumns(X, ps + [p])
            == InteractionColumns(X, ps) + [Product(Column(X, p.0), Column(X, p.1))]
  {
    assert forall k :: 0 <= k < |ps| ==> (ps + [p])[k] == ps[k];
  }

  /** `_add_interactions`: the two nested loops collect the product columns,
      which are then stacked after X. */
  method AddInteractions(X: Matrix) returns (r: Matrix)
    ensures r == Augmented(X)
  {
    var n := X.cols;
    var interactions: seq<seq<real>> := [];
    var i := 0;
    while i < n
      invariant 0 <= i <= n
      invariant PairsWithin(PairsBelow(i, n), n)
      invariant interactions == InteractionColumns(X, PairsBelow(i, n))
    {
      var j := i + 1;
      assert PairsBelow(i, n) + RowPairs(i, j) == PairsBelow(i, n);
      while j < n
        invariant i + 1 <= j <= n
        invariant PairsWithin(PairsBelow(i, n) + RowPairs(i, j), n)
        invariant interactions == InteractionColumns(X, PairsBelow(i, n) + RowPairs(i, j))
      {
        RowPairsStep(i, j);
        var before := PairsBelow(i, n) + RowPairs(i, j);
        assert PairsBelow(i, n) + RowPairs(i, j + 1) == before + [(i, j)];
        InteractionColumnsStep(X, before, (i, j));
        interactions := interactions + [Product(Column(X, i), Column(X, j))];
        j := j + 1;
      }
      assert PairsBelow(i + 1, n) == PairsBelow(i, n) + RowPairs(i, n);
      PairsBelowWithin(i + 1, n);
      i := i + 1;
    }
    PairsFacts(n);
    if |interactions| > 0 {
      r := ColumnStack(X, interactions);
    } else {
      r := X;
    }
  }

  // ---------------------------------------------------------------------
  // The three models as pure pipelines
  // ---------------------------------------------------------------------

  /** Which of the three model classes an object is; the multiplicative model
      carries the epsilon it was constructed with. */
  datatype Variant = Additive | Interaction | Multiplicative(epsilon: real)

  /** The default `epsilon=1e-10` of MultiplicativeModel. */
  const DefaultEpsilon: real := 0.0000000001

  /** `np.log(v + epsilon)`. */
  function LogShift(num: Numerics, epsilon: real): real -> real {
    v => num.ln(v + epsilon)
  }

  /** The column count LinearRegression sees for an input of `cols` columns. */
  function FeatureWidth(variant: Variant, cols: nat): nat {
    if variant.Interaction? then AugmentedWidth(cols) else cols
  }

  lemma FeatureWidthInjective(variant: Variant, a: nat, b: nat)
    requires FeatureWidth(variant, a) == FeatureWidth(variant, b)
    ensures a == b
  {
    if variant.Interaction? {
      AugmentedWidthInjective(a, b);
    }
  }

  /** The array handed to LinearRegression, at fit and at predict time alike. */
  function Features(variant: Variant, num: Numerics, X: Matrix): (F: Matrix)
    ensures |F.rows| == |X.rows| && F.cols == FeatureWidth(variant, X.cols)
  {
    match variant
    case Additive => X
    case Interaction => Augmented(X)
    case Multiplicative(eps) => Entrywise(X, LogShift(num, eps))
  }

  /** The target handed to LinearRegression.fit. */
  function Target(variant: Variant, num: Numerics, y: seq<real>): (t: seq<real>)
    ensures |t| == |y|
  {
    if variant.Multiplicative? then Map(y, LogShift(num, variant.epsilon)) else y
  }

  /** How one linear response becomes a prediction: `np.exp` back from log
      space for the multiplicative model, unchanged otherwise. */
  function Response(variant: Variant, num: Numerics, z: real): real {
    if variant.Multiplicative? then num.exp(z) else z
  }

  /** `model.fit(X, y)` of each class, on its own: the regressor it stores. */
  function Train(variant: Variant, solve: Solver, num: Numerics, X: Matrix, y: seq<real>)
    : (r: Result<Regressor>)
    ensures r.Err? <==> FitError(X, y).Some?
    ensures r.Err? ==> r.error == FitError(X, y).value
    ensures r.Ok? ==> && r.value.Fitted?
                      && r.value.nFeaturesIn == FeatureWidth(variant, X.cols)
                      && (r.value.intercept, r.value.coef) == solve(Features(variant, num, X), Target(variant, num, y))
  {
    assert FeatureWidth(variant, X.cols) == 0 <==> X.cols == 0;
    Sklearn.Fit(solve, Features(variant, num, X), Target(variant, num, y))
  }

  /** `model.predict(X)` of each class once its regressor is `reg`. */
  function Apply(variant: Variant, num: Numerics, reg: Regressor, X: Matrix): (r: Result<seq<real>>)
    ensures r.Err? <==> reg.Unfitted? || |X.rows| == 0 || X.cols == 0
                        || FeatureWidth(variant, X.cols) != reg.nFeaturesIn
    ensures r.Err? ==> r.error == if reg.Unfitted? then RegressorNotFitted
                                  else if |X.rows| == 0 || X.cols == 0 then EmptyArray
                                  else FeatureMismatch
    ensures r.Ok? ==> |r.value| == |X.rows|
    ensures r.Ok? ==> forall i :: 0 <= i < |X.rows| ==>
              r.value[i] == Response(variant, num, reg.intercept + Dot(reg.coef, Features(variant, num, X).rows[i]))
    ensures r.Ok? && variant.Multiplicative? ==> forall i :: 0 <= i < |r.value| ==> r.value[i] > 0.0
  {
    assert FeatureWidth(variant, X.cols) == 0 <==> X.cols == 0;
    var F := Features(variant, num, X);
    var p :- Sklearn.Predict(reg, F);
    Ok(seq(|p|, i requires 0 <= i < |p| => Response(variant, num, p[i])))
  }

  /** A model trained on X accepts exactly the non-empty inputs with X's
      column count; for the interaction model this rests on the augmented
      width being injective. */
  lemma TrainedModelAcceptsTrainingWidth(variant: Variant, solve: Solver, num: Numerics,
                                         X: Matrix, y: seq<real>, X2: Matrix)
    requires Train(variant, solve, num, X, y).Ok?
    ensures Apply(variant, num, Train(variant, solve, num, X, y).value, X2).Err?
            <==> |X2.rows| == 0 || X2.cols == 0 || X2.cols != X.cols
  {
    if FeatureWidth(variant, X2.cols) == FeatureWidth(variant, X.cols) {
      FeatureWidthInjective(variant, X2.cols, X.cols);
    }
  }

  /** The in-sample prediction of a successful fit always succeeds, one value per sample. */
  lemma InSamplePredictionSucceeds(variant: Variant, solve: Solver, num: Numerics, X: Matrix, y: seq<real>)
    requires FitError(X, y).None?
    ensures Apply(variant, num, Train(variant, solve, num, X, y).value, X).Ok?
    ensures |Apply(variant, num, Train(variant, solve, num, X, y).value, X).value| == |y|
  {
  }

  /** `intercept_` and `coef_` as returned by get_coefficients (under
      "coefficients") and get_elasticities (under "elasticities"). */
  datatype LinearWeights = LinearWeights(intercept: real, slopes: seq<real>)

  // ---------------------------------------------------------------------
  // The model objects
  // ---------------------------------------------------------------------

  /** One object of AdditiveModel, InteractionModel or MultiplicativeModel.
      `model` is None until the first fit; `nFeatures` is the attribute
      n_features only InteractionModel sets. `history` records the training
      data of every fit call. */
  class SaviesaModel {
    const variant: Variant
    var model: Option<Regressor>
    var isFitted: bool
    var nFeatures: Option<nat>
    ghost var history: seq<(Matrix, seq<real>)>

    /** Once is_fitted is set there is a regressor behind it. */
    ghost predicate Valid()
      reads this
    {
      isFitted ==> model.Some?
    }

    constructor (variant: Variant)
      ensures this.variant == variant
      ensures model == None && !isFitted && nFeatures == None && history == []
      ensures Valid()
    {
      this.variant := variant;
      model := None;
      isFitted := false;
      nFeatures := None;
      history := [];
    }

    /** `fit(X, y)`: a fresh LinearRegression is stored before it is fitted,
        so a fit that raises leaves an unfitted regressor behind and
        is_fitted as it was. */
    method Fit(X: Matrix, y: seq<real>, solve: Solver, num: Numerics) returns (r: Result<SaviesaModel>)
      modifies this
      ensures Valid()
      ensures history == old(history) + [(X, y)]
      ensures r.Ok? <==> Train(variant, solve, num, X, y).Ok?
      ensures r.Ok? ==> && r.value == this && isFitted
                        && model == Some(Train(variant, solve, num, X, y).value)
                        && nFeatures == (if variant.Interaction? then Some(X.cols) else old(nFeatures))
      ensures r.Err? ==> && r.error == Train(variant, solve, num, X, y).error
                         && model == Some(Unfitted) && isFitted == old(isFitted)
                         && nFeatures == old(nFeatures)
    {
      history := history + [(X, y)];
      var features: Matrix;
      if variant.Interaction? {
        features := AddInteractions(X);
      } else {
        features := Features(variant, num, X);
      }
      var target := Target(variant, num, y);
      model := Some(Unfitted);
      var fitted := Sklearn.Fit(solve, features, target);
      match fitted {
        case Err(e) =>
          r := Err(e);
        case Ok(reg) =>
          model := Some(reg);
          isFitted := true;
          if variant.Interaction? {
            nFeatures := Some(X.cols);
          }
          r := Ok(this);
      }
    }

    /** `predict(X)`: the models' own guard first, then the regressor's checks. */
    function Predict(X: Matrix, num: Numerics): (r: Result<seq<real>>)
      reads this
      requires Valid()
      ensures !isFitted ==> r == Err(NotFitted)
      ensures isFitted && model.value.Unfitted? ==> r == Err(RegressorNotFitted)
      ensures isFitted && model.value.Fitted? ==>
                (r.Err? <==> |X.rows| == 0 || X.cols == 0 || FeatureWidth(variant, X.cols) != model.value.nFeaturesIn)
      ensures r.Ok? ==> |r.value| == |X.rows|
      ensures r.Ok? && variant.Multiplicative? ==> forall i :: 0 <= i < |r.value| ==> r.value[i] > 0.0
    {
      if !isFitted then Err(NotFitted) else Apply(variant, num, model.value, X)
    }

    /** `score(X, y)`: r2_score of y against the predictions, which raises
        when their lengths differ. */
    function Score(X: Matrix, y: seq<real>, num: Numerics): (r: Result<Num>)
      reads this
      requires Valid()
      ensures r.Err? <==> Predict(X, num).Err? || |y| != |X.rows|
      ensures r.Ok? ==> r.value == R2Score(y, Predict(X, num).value)
    {
      var p :- Predict(X, num);
      if |y| != |p| then Err(InconsistentLength) else Ok(R2Score(y, p))
    }

    /** `get_coefficients()`, a method of AdditiveModel only: the other two
        classes raise AttributeError, as does a regressor that was never fitted. */
    function GetCoefficients(): (r: Result<LinearWeights>)
      reads this
      requires Valid()
      ensures !variant.Additive? ==> r == Err(MissingAttribute)
      ensures variant.Additive? && !isFitted ==> r == Err(NotFitted)
      ensures variant.Additive? && isFitted && model.value.Unfitted? ==> r == Err(MissingAttribute)
      ensures r.Ok? <==> variant.Additive? && isFitted && model.value.Fitted?
      ensures r.Ok? ==> model.value == Fitted(r.value.intercept, r.value.slopes, |r.value.slopes|)
    {
      if !variant.Additive? then Err(MissingAttribute)
      else Weights()
    }

    /** `get_elasticities()`, a method of MultiplicativeModel only. */
    function GetElasticities(): (r: Result<LinearWeights>)
      reads this
      requires Valid()
      ensures !variant.Multiplicative? ==> r == Err(MissingAttribute)
      ensures variant.Multiplicative? && !isFitted ==> r == Err(NotFitted)
      ensures variant.Multiplicative? && isFitted && model.value.Unfitted? ==> r == Err(MissingAttribute)
      ensures r.Ok? <==> variant.Multiplicative? && isFitted && model.value.Fitted?
      ensures r.Ok? ==> model.value == Fitted(r.value.intercept, r.value.slopes, |r.value.slopes|)
    {
      if !variant.Multiplicative? then Err(MissingAttribute)
      else Weights()
    }

    /** The guard of both getters, then `intercept_` and `coef_`. */
    function Weights(): (r: Result<LinearWeights>)
      reads this
      requires Valid()
      ensures !isFitted ==> r == Err(NotFitted)
      ensures isFitted && model.value.Unfitted? ==> r == Err(MissingAttribute)
      ensures r.Ok? <==> isFitted && model.value.Fitted?
      ensures r.Ok? ==> model.value == Fitted(r.value.intercept, r.value.slopes, |r.value.slopes|)
    {
      if !isFitted then Err(NotFitted)
      else match model.value
        case Unfitted => Err(MissingAttribute)
        case Fitted(b, coef, _) => Ok(LinearWeights(b, coef))
    }
  }

  /** The life of one model object, as the test suite walks it: predict
      before fit raises; a fit on valid data enables predict, whose in-sample
      result has one value per sample; the weights are the solver's for the
      transformed data, one per feature column; a fit that raises on a fresh
      object leaves it unfitted. */
  method ModelLifecycle(variant: Variant, X: Matrix, y: seq<real>, solve: Solver, num: Numerics)
    returns (early: Result<seq<real>>, fitted: bool, late: Result<seq<real>>, weights: Result<LinearWeights>)
    ensures early == Err(NotFitted)
    ensures fitted <==> FitError(X, y).None?
    ensures fitted ==> late.Ok? && |late.value| == |y|
    ensures !fitted ==> late == Err(NotFitted) && weights.Err?
    ensures fitted && (variant.Additive? || variant.Multiplicative?) ==>
              && weights.Ok?
              && |weights.value.slopes| == X.cols
              && (weights.value.intercept, weights.value.slopes)
                 == solve(Features(variant, num, X), Target(variant, num, y))
    ensures fitted && variant.Interaction? ==> weights == Err(MissingAttribute)
  {
    var m := new SaviesaModel(variant);
    early := m.Predict(X, num);
    var r := m.Fit(X, y, solve, num);
    fitted := r.Ok?;
    late := m.Predict(X, num);
    weights := if variant.Multiplicative? then m.GetElasticities() else m.GetCoefficients();
  }

  // ---------------------------------------------------------------------
  // The limiting factor
  // ---------------------------------------------------------------------

  function DigitChar(d: nat): char
    requires d < 10
  {
    "0123456789"[d]
  }

  /** The decimal numeral of n, as an f-string writes it. */
  function DecimalString(n: nat): (s: string)
    ensures |s| >= 1
    decreases n
  {
    if n < 10 then [DigitChar(n)] else DecimalString(n / 10) + [DigitChar(n % 10)]
  }

  lemma {:induction false} DecimalStringInjective(a: nat, b: nat)
    requires DecimalString(a) == DecimalString(b)
    ensures a == b
    decreases a
  {
    var s := DecimalString(a);
    if a < 10 && b < 10 {
      assert DigitChar(a) == s[0] == DigitChar(b);
    } else if a >= 10 && b >= 10 {
      var pa, pb := DecimalString(a / 10), DecimalString(b / 10);
      assert s == pa + [DigitChar(a % 10)];
      assert s == pb + [DigitChar(b % 10)];
      assert |pa| == |pb|;
      assert pa == s[..|s| - 1] == pb;
      assert DigitChar(a % 10) == s[|s| - 1] == DigitChar(b % 10);
      DecimalStringInjective(a / 10, b / 10);
    }
  }

  /** `[f'F{i+1}' for i in range(n_factors)]`: n distinct names. */
  function DefaultFactorNames(n: nat): (names: seq<string>)
    ensures |names| == n
    ensures forall i :: 0 <= i < n ==> names[i] == "F" + DecimalString(i + 1)
    ensures forall i, j :: 0 <= i < j < n ==> names[i] != names[j]
  {
    var names := seq(n, i requires 0 <= i < n => "F" + DecimalString(i + 1));
    forall i, j | 0 <= i < j < n
      ensures names[i] != names[j]
    {
      if names[i] == names[j] {
        assert names[i][1..] == DecimalString(i + 1);
        assert names[j][1..] == DecimalString(j + 1);
        DecimalStringInjective(i + 1, j + 1);
      }
    }
    names
  }

  /** The argument of identify_limiting_factor: one observation (a 1-D array
      of factor values) or one observation per row (a 2-D array). */
  datatype Factors = Observation(values: seq<real>) | Observations(table: Matrix)

  /** A single name, or one name per row. */
  datatype Limiting = Name(name: string) | Names(names: seq<string>)

  /** The factor count `factors.shape[-1]`. */
  function FactorCount(factors: Factors): nat {
    match factors
    case Observation(v) => |v|
    case Observations(t) => t.cols
  }

  /** The names given, or the default ones. */
  function NamesFor(factors: Factors, factorNames: Option<seq<string>>): seq<string> {
    if factorNames.Some? then factorNames.value else DefaultFactorNames(FactorCount(factors))
  }

  /** k is where the smallest value first occurs. */
  ghost predicate FirstMinimum(s: seq<real>, k: nat) {
    && k < |s|
    && (forall j :: 0 <= j < |s| ==> s[k] <= s[j])
    && (forall j :: 0 <= j < k ==> s[j] > s[k])
  }

  /** `name` is the name at the first minimum of s. */
  ghost predicate NamesMinimum(s: seq<real>, names: seq<string>, name: string) {
    exists k: nat :: FirstMinimum(s, k) && k < |names| && name == names[k]
  }

  /** The first minimum of s lies past the end of the names. */
  ghost predicate MinimumUnnamed(s: seq<real>, names: seq<string>) {
    exists k: nat :: FirstMinimum(s, k) && k >= |names|
  }

  /** `identify_limiting_factor(factors, factor_names)`: the name of the
      factor with the smallest value, the first one on ties. numpy raises on
      an empty argmin and on an index past the end of the names. */
  function IdentifyLimitingFactor(factors: Factors, factorNames: Option<seq<string>>): (r: Result<Limiting>)
    ensures var names := NamesFor(factors, factorNames);
            && (FactorCount(factors) == 0 ==> r == Err(EmptyArray))
            && (r.Err? ==> r.error == EmptyArray || r.error == IndexOutOfRange)
            && (r.Err? && factorNames.None? ==> r.error == EmptyArray)
            && (r.Err? && FactorCount(factors) > 0 ==> r.error == IndexOutOfRange)
            && (factors.Observation? && r.Ok? ==> r.value.Name? && NamesMinimum(factors.values, names, r.value.name))
            && (factors.Observation? && r.Err? && FactorCount(factors) > 0 ==> MinimumUnnamed(factors.values, names))
            && (factors.Observations? && r.Ok? ==>
                  && r.value.Names? && |r.value.names| == |factors.table.rows|
                  && forall i :: 0 <= i < |factors.table.rows| ==>
                       NamesMinimum(factors.table.rows[i], names, r.value.names[i]))
            && (factors.Observations? && r.Err? && FactorCount(factors) > 0 ==>
                  exists i :: 0 <= i < |factors.table.rows| && MinimumUnnamed(factors.table.rows[i], names))
  {
    var names := NamesFor(factors, factorNames);
    match factors
    case Observation(v) =>
      if |v| == 0 then Err(EmptyArray)
      else
        var k := ArgMin(v);
        assert FirstMinimum(v, k);
        if k >= |names| then Err(IndexOutOfRange) else Ok(Name(names[k]))
    case Observations(t) =>
      if t.cols == 0 then Err(EmptyArray)
      else if exists i :: 0 <= i < |t.rows| && ArgMin(t.rows[i]) >= |names| then
        var i :| 0 <= i < |t.rows| && ArgMin(t.rows[i]) >= |names|;
        assert FirstMinimum(t.rows[i], ArgMin(t.rows[i]));
        assert MinimumUnnamed(t.rows[i], names);
        Err(IndexOutOfRange)
      else
        var out := seq(|t.rows|, i requires 0 <= i < |t.rows| => names[ArgMin(t.rows[i])]);
        forall i | 0 <= i < |t.rows|
          ensures NamesMinimum(t.rows[i], names, out[i])
        {
          var k := ArgMin(t.rows[i]);
          assert FirstMinimum(t.rows[i], k) && k < |names| && out[i] == names[k];
        }
        Ok(Names(out))
  }

  /** The default names cover every factor, so identification only fails
      when there are no factors. */
  lemma DefaultNamesNeverMissing(factors: Factors)
    ensures IdentifyLimitingFactor(factors, None).Err? <==> FactorCount(factors) == 0
  {
  }

  /** Applied to a table, the function names, row by row, what it names for
      that row on its own. */
  lemma RowsAgreeWithSingleObservations(t: Matrix, names: seq<string>)
    requires IdentifyLimitingFactor(Observations(t), Some(names)).Ok?
    ensures forall i :: 0 <= i < |t.rows| ==>
              IdentifyLimitingFactor(Observation(t.rows[i]), Some(names))
              == Ok(Name(IdentifyLimitingFactor(Observations(t), Some(names)).value.names[i]))
  {
    forall i | 0 <= i < |t.rows|
      ensures IdentifyLimitingFactor(Observation(t.rows[i]), Some(names))
              == Ok(Name(IdentifyLimitingFactor(Observations(t), Some(names)).value.names[i]))
    {
      var out := IdentifyLimitingFactor(Observations(t), Some(names)).value.names;
      assert NamesMinimum(t.rows[i], names, out[i]);
      var k: nat :| FirstMinimum(t.rows[i], k) && k < |names| && out[i] == names[k];
      ArgMinUnique(t.rows[i], k);
    }
  }

  /** The examples of the test suite and of the docstring. */
  lemma LimitingFactorExamples()
    ensures IdentifyLimitingFactor(Observation([0.8, 0.5, 0.9]), Some(["O", "L", "M"])) == Ok(Name("L"))
    ensures IdentifyLimitingFactor(Observation([0.8, 0.5, 0.9]), None) == Ok(Name("F2"))
    ensures IdentifyLimitingFactor(
              Observations(Array2([[0.8, 0.5, 0.9], [0.3, 0.7, 0.6], [0.6, 0.8, 0.4]], 3)),
              Some(["O", "L", "M"])) == Ok(Names(["L", "O", "M"]))
  {
    var r0, r1, r2 := [0.8, 0.5, 0.9], [0.3, 0.7, 0.6], [0.6, 0.8, 0.4];
    ArgMinUnique(r0, 1);
    ArgMinUnique(r1, 0);
    ArgMinUnique(r2, 2);
    assert DigitChar(2) == '2';
    assert DefaultFactorNames(3)[1] == "F2";
    var t := Array2([r0, r1, r2], 3);
    assert t.rows[0] == r0 && t.rows[1] == r1 && t.rows[2] == r2;
    assert ArgMin(t.rows[0]) == 1 && ArgMin(t.rows[1]) == 0 && ArgMin(t.rows[2]) == 2;
    var out := IdentifyLimitingFactor(Observations(t), Some(["O", "L", "M"])).value.names;
    assert |out| == 3 && out[0] == "L" && out[1] == "O" && out[2] == "M";
    assert out == ["L", "O", "M"];
  }

  // ---------------------------------------------------------------------
  // Comparing the three models
  // ---------------------------------------------------------------------

  /** One row of the DataFrame compare_models returns. */
  datatype ModelScore = ModelScore(model: string, r2: Num, rmse: real, mae: real)

  const DefaultModelNames: seq<string> := ["Additive", "Interaction", "Multiplicative"]

  /** The models compare_models builds, in order. */
  const ComparedVariants: seq<Variant> := [Additive, Interaction, Multiplicative(DefaultEpsilon)]

  /** The in-sample scores of one model fitted on (X, y). */
  function InSampleScore(variant: Variant, name: string, solve: Solver, num: Numerics, X: Matrix, y: seq<real>)
    : (s: ModelScore)
    requires FitError(X, y).None?
    ensures s.model == name && s.rmse >= 0.0 && s.mae >= 0.0
    ensures s.r2.Finite? <==> |y| >= 2
  {
    InSamplePredictionSucceeds(variant, solve, num, X, y);
    var p := Apply(variant, num, Train(variant, solve, num, X, y).value, X).value;
    ModelScore(name, R2Score(y, p), Metrics.CalculateRmse(num, y, p), MeanAbsoluteError(y, p))
  }

  /** One pass of the loop of compare_models: a new model object is fitted
      on (X, y), predicts X, and its predictions are scored. */
  method FitAndScore(variant: Variant, name: string, X: Matrix, y: seq<real>, solve: Solver, num: Numerics)
    returns (r: Result<ModelScore>)
    ensures r.Err? <==> FitError(X, y).Some?
    ensures r.Err? ==> r.error == FitError(X, y).value
    ensures r.Ok? ==> FitError(X, y).None? && r.value == InSampleScore(variant, name, solve, num, X, y)
  {
    var m := new SaviesaModel(variant);
    var fitted := m.Fit(X, y, solve, num);
    if fitted.Err? {
      return Err(fitted.error);
    }
    InSamplePredictionSucceeds(variant, solve, num, X, y);
    var p := m.Predict(X, num);
    r := Ok(ModelScore(name, R2Score(y, p.value), Metrics.CalculateRmse(num, y, p.value),
                       MeanAbsoluteError(y, p.value)));
  }

  /** `compare_models(X, y, model_names)`: the three models are zipped with
      the names (so only as many rows as names, at most three), each fitted
      and scored on its own training data. The first fit that raises ends the
      call. */
  method CompareModels(X: Matrix, y: seq<real>, modelNames: Option<seq<string>>, solve: Solver, num: Numerics)
    returns (r: Result<seq<ModelScore>>)
    ensures var names := if modelNames.Some? then modelNames.value else DefaultModelNames;
            && (r.Err? <==> |names| > 0 && FitError(X, y).Some?)
            && (r.Err? ==> r.error == FitError(X, y).value)
            && (r.Ok? ==> && |r.value| == Min(3, |names|)
                          && forall k :: 0 <= k < |r.value| ==>
                               FitError(X, y).None?
                               && r.value[k] == InSampleScore(ComparedVariants[k], names[k], solve, num, X, y))
  {
    var names := if modelNames.Some? then modelNames.value else DefaultModelNames;
    var count := Min(3, |names|);
    var results: seq<ModelScore> := [];
    var t := 0;
    while t < count
      invariant 0 <= t <= count
      invariant t > 0 ==> FitError(X, y).None?
      invariant |results| == t
      invariant forall k :: 0 <= k < t ==>
                  FitError(X, y).None? && results[k] == InSampleScore(ComparedVariants[k], names[k], solve, num, X, y)
    {
      var score := FitAndScore(ComparedVariants[t], names[t], X, y, solve, num);
      if score.Err? {
        return Err(score.error);
      }
      results := results + [score.value];
      t := t + 1;
    }
    r := Ok(results);
  }
}
