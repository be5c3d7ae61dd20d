/** Values shared by every module: optional values, results carrying the
    exceptions the Python code raises, and numpy floats that may be nan or
    infinite. */
module Common {

  datatype Option<+T> = None | Some(value: T)

  /** The exceptions raised by the repository or by the libraries it calls. */
  datatype Error =
    | NotFitted            // the models' own guard: ValueError("Model must be fitted ...")
    | RegressorNotFitted   // scikit-learn's NotFittedError from a fresh LinearRegression
    | MissingAttribute     // AttributeError: intercept_/coef_ read on a fresh LinearRegression
    | EmptyArray           // ValueError: an array with zero samples or zero features
    | InconsistentLength   // ValueError: arrays whose lengths must agree do not
    | FeatureMismatch      // ValueError: predict sees another column count than fit
    | TooFewSamples        // ValueError: LeaveOneOut on fewer than two samples
    | IndexOutOfRange      // IndexError

  /** A value, or the exception that replaced it. */
  datatype Result<+T> = Ok(value: T) | Err(error: Error) {
    predicate IsFailure() { Err? }
    function PropagateFailure<U>(): Result<U> requires Err? { Err(error) }
    function Extract(): T requires Ok? { value }
  }

  /** A numpy float: a finite number, or nan / +-inf (which the model does not tell apart). */
  datatype Num = Finite(value: real) | NotFinite

  function Sub(a: Num, b: Num): Num {
    if a.Finite? && b.Finite? then Finite(a.value - b.value) else NotFinite
  }

  /** Division as numpy does it on floats: dividing by zero gives nan or +-inf.
      Only finite divisors occur in this model, so x / inf is never needed. */
  function Div(a: Num, b: Num): Num {
    if a.Finite? && b.Finite? && b.value != 0.0 then Finite(a.value / b.value) else NotFinite
  }

  function Scale(a: Num, c: real): Num {
    if a.Finite? then Finite(a.value * c) else NotFinite
  }

  function Min(a: nat, b: nat): nat { if a <= b then a else b }
}
