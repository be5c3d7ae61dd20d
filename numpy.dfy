/** The slice of numpy the repository relies on: two-dimensional float arrays,
    column access and stacking, sums, and first-occurrence argmin/argmax.
    The transcendental functions log, exp and sqrt are not computed: they are
    a parameter, constrained only by the few laws the model relies on. */
module Numpy {

  /** A two-dimensional array. The width is kept apart from the rows so that an
      array of shape (0, k) still has k columns, as in numpy. */
  datatype Array2 = Array2(rows: seq<seq<real>>, cols: nat)

  predicate Rectangular(a: Array2) {
    forall i :: 0 <= i < |a.rows| ==> |a.rows[i]| == a.cols
  }

  type Matrix = a: Array2 | Rectangular(a) witness Array2([], 0)

  /** Column j, `X[:, j]`. */
  function Column(X: Matrix, j: nat): (c: seq<real>)
    requires j < X.cols
    ensures |c| == |X.rows|
    ensures forall i :: 0 <= i < |c| ==> c[i] == X.rows[i][j]
  {
    seq(|X.rows|, i requires 0 <= i < |X.rows| => X.rows[i][j])
  }

  /** The elementwise product `a * b` of two vectors of one length. */
  function Product(a: seq<real>, b: seq<real>): (p: seq<real>)
    requires |a| == |b|
    ensures |p| == |a|
    ensures forall i :: 0 <= i < |p| ==> p[i] == a[i] * b[i]
  {
    seq(|a|, i requires 0 <= i < |a| => a[i] * b[i])
  }

  /** `np.column_stack([X] + extra)`: the columns of X followed by the vectors of `extra`. */
  function ColumnStack(X: Matrix, extra: seq<seq<real>>): (r: Matrix)
    requires forall k :: 0 <= k < |extra| ==> |extra[k]| == |X.rows|
    ensures |r.rows| == |X.rows| && r.cols == X.cols + |extra|
    ensures forall i, j :: 0 <= i < |X.rows| && 0 <= j < X.cols ==> r.rows[i][j] == X.rows[i][j]
    ensures forall i, k :: 0 <= i < |X.rows| && 0 <= k < |extra| ==> r.rows[i][X.cols + k] == extra[k][i]
  {
    Array2(seq(|X.rows|, i requires 0 <= i < |X.rows| =>
                 X.rows[i] + seq(|extra|, k requires 0 <= k < |extra| => extra[k][i])),
           X.cols + |extra|)
  }

  /** `f(X)` applied entry by entry, as numpy's ufuncs do. */
  function Entrywise(X: Matrix, f: real -> real): (r: Matrix)
    ensures |r.rows| == |X.rows| && r.cols == X.cols
    ensures forall i, j :: 0 <= i < |X.rows| && 0 <= j < X.cols ==> r.rows[i][j] == f(X.rows[i][j])
  {
    Array2(seq(|X.rows|, i requires 0 <= i < |X.rows| =>
                 seq(X.cols, j requires 0 <= j < X.cols => f(X.rows[i][j]))),
           X.cols)
  }

  function Map(s: seq<real>, f: real -> real): (r: seq<real>)
    ensures |r| == |s|
    ensures forall i :: 0 <= i < |s| ==> r[i] == f(s[i])
  {
    seq(|s|, i requires 0 <= i < |s| => f(s[i]))
  }

  /** `X[train_idx]` for the leave-one-out training indices: every row but row i. */
  function DeleteRow(X: Matrix, i: nat): (r: Matrix)
    requires i < |X.rows|
    ensures |r.rows| == |X.rows| - 1 && r.cols == X.cols
    ensures forall k :: 0 <= k < i ==> r.rows[k] == X.rows[k]
    ensures forall k :: i <= k < |r.rows| ==> r.rows[k] == X.rows[k + 1]
  {
    Array2(X.rows[..i] + X.rows[i + 1..], X.cols)
  }

  /** `X[test_idx]` for the leave-one-out test index: the one-row array holding row i. */
  function SelectRow(X: Matrix, i: nat): (r: Matrix)
    requires i < |X.rows|
    ensures |r.rows| == 1 && r.cols == X.cols && r.rows[0] == X.rows[i]
  {
    Array2([X.rows[i]], X.cols)
  }

  function Sum(s: seq<real>): real {
    if |s| == 0 then 0.0 else s[0] + Sum(s[1..])
  }

  /** `np.sum((y_true - y_pred)**2)`, the residual sum of squares. */
  function Rss(yt: seq<real>, yp: seq<real>): real
    requires |yt| == |yp|
  {
    if |yt| == 0 then 0.0 else (yt[0] - yp[0]) * (yt[0] - yp[0]) + Rss(yt[1..], yp[1..])
  }

  function Abs(x: real): real { if x < 0.0 then -x else x }

  /** The sum of absolute residuals. */
  function AbsErrorSum(yt: seq<real>, yp: seq<real>): real
    requires |yt| == |yp|
  {
    if |yt| == 0 then 0.0 else Abs(yt[0] - yp[0]) + AbsErrorSum(yt[1..], yp[1..])
  }

  lemma {:induction false} RssZeroIffPerfect(yt: seq<real>, yp: seq<real>)
    requires |yt| == |yp|
    ensures Rss(yt, yp) >= 0.0
    ensures Rss(yt, yp) == 0.0 <==> yt == yp
  {
    if |yt| > 0 {
      RssZeroIffPerfect(yt[1..], yp[1..]);
      AddSquare(yt[0] - yp[0], Rss(yt[1..], yp[1..]));
      assert yt == [yt[0]] + yt[1..] && yp == [yp[0]] + yp[1..];
    }
  }

  // The solver loses strict facts about a square d * d of one term; these two
  // lemmas state them for a product of two names and are then used at (d, d).
  lemma ProductPlusNonnegative(a: real, b: real, r: real)
    requires (a > 0.0 && b > 0.0) || (a < 0.0 && b < 0.0)
    requires r >= 0.0
    ensures a * b + r > 0.0
  {
  }

  lemma AddSquare(d: real, r: real)
    requires r >= 0.0
    ensures d * d + r >= 0.0
    ensures d * d + r == 0.0 ==> d == 0.0 && r == 0.0
  {
    if d != 0.0 { ProductPlusNonnegative(d, d, r); }
  }

  lemma {:induction false} AbsErrorSumZeroIffPerfect(yt: seq<real>, yp: seq<real>)
    requires |yt| == |yp|
    ensures AbsErrorSum(yt, yp) >= 0.0
    ensures AbsErrorSum(yt, yp) == 0.0 <==> yt == yp
  {
    if |yt| > 0 {
      AbsErrorSumZeroIffPerfect(yt[1..], yp[1..]);
      assert yt == [yt[0]] + yt[1..] && yp == [yp[0]] + yp[1..];
    }
  }

  /** `np.argmin`: the index of the smallest value, the earliest one on ties
      (the scan goes left to right and moves only on a strictly smaller value). */
  function ArgMin(s: seq<real>): (k: nat)
    requires |s| > 0
    ensures k < |s|
    ensures forall j :: 0 <= j < |s| ==> s[k] <= s[j]
    ensures forall j :: 0 <= j < k ==> s[j] > s[k]
  {
    if |s| == 1 then 0
    else
      var k := ArgMin(s[..|s| - 1]);
      if s[|s| - 1] < s[k] then |s| - 1 else k
  }

  /** `np.argmax`: the index of the largest value, the earliest one on ties. */
  function ArgMax(s: seq<real>): (k: nat)
    requires |s| > 0
    ensures k < |s|
    ensures forall j :: 0 <= j < |s| ==> s[k] >= s[j]
    ensures forall j :: 0 <= j < k ==> s[j] < s[k]
  {
    if |s| == 1 then 0
    else
      var k := ArgMax(s[..|s| - 1]);
      if s[|s| - 1] > s[k] then |s| - 1 else k
  }

  /** The two postconditions of ArgMin pin the index down: any index that is a
      minimum with no earlier minimum is the one ArgMin returns. */
  lemma ArgMinUnique(s: seq<real>, k: nat)
    requires k < |s|
    requires forall j :: 0 <= j < |s| ==> s[k] <= s[j]
    requires forall j :: 0 <= j < k ==> s[j] > s[k]
    ensures ArgMin(s) == k
  {
  }

  lemma ArgMaxUnique(s: seq<real>, k: nat)
    requires k < |s|
    requires forall j :: 0 <= j < |s| ==> s[k] >= s[j]
    requires forall j :: 0 <= j < k ==> s[j] < s[k]
    ensures ArgMax(s) == k
  {
  }

  /** log, exp and sqrt, given from outside. */
  datatype Transcendentals = Transcendentals(ln: real -> real, exp: real -> real, sqrt: real -> real)

  /** The only facts about them the model uses: exp is positive, log is
      increasing on the positive reals, sqrt is increasing from sqrt(0) = 0. */
  ghost predicate Lawful(t: Transcendentals) {
    && (forall x :: t.exp(x) > 0.0)
    && (forall a, b :: 0.0 < a < b ==> t.ln(a) < t.ln(b))
    && t.sqrt(0.0) == 0.0
    && (forall a, b :: 0.0 <= a < b ==> t.sqrt(a) < t.sqrt(b))
  }

  type Numerics = t: Transcendentals | Lawful(t)
    witness Transcendentals(x => x, x => 1.0, x => if x < 0.0 then 0.0 else x)
}
