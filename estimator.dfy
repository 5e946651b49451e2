/** `test_estimator`: the smallest object with the fit/transform protocol. `fit` keeps
    its argument; `transform` ignores its own argument and hands back what was kept. */
module Estimator {
  import opened Outcomes

  class StubEstimator<T> {
    /** The `_return_value` attribute; None until `fit` first sets it. */
    var returnValue: Option<T>

    constructor ()
      ensures returnValue == None
    {
      returnValue := None;
    }

    method Fit(x: T)
      modifies this
      ensures returnValue == Some(x)
    {
      returnValue := Some(x);
    }

    /** Reading the attribute before any `fit` fails, as the source's attribute lookup does. */
    method Transform(y: T) returns (r: Result<T>)
      ensures returnValue.None? ==> r == Err(NotFitted)
      ensures returnValue.Some? ==> r == Ok(returnValue.value)
    {
      if returnValue.None? {
        return Err(NotFitted);
      }
      return Ok(returnValue.value);
    }
  }

  /** After fit(x), transform(y) returns x whatever y is, and a later fit(z) replaces x:
      only the most recent fit is kept. */
  method RefitReplaces<T>(x: T, y: T, z: T) returns (first: Result<T>, second: Result<T>)
    ensures first == Ok(x)
    ensures second == Ok(z)
  {
    var e := new StubEstimator<T>();
    var before := e.Transform(y);
    assert before == Err(NotFitted);
    e.Fit(x);
    first := e.Transform(y);
    e.Fit(z);
    second := e.Transform(x);
  }
}
