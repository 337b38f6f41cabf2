/**
 * `to_numeric`: coercion of a cell or of a list of cells to numbers, where
 * `errors="coerce"` turns what `float(...)` rejects into NaN and any other
 * setting lets the error through.
 */
module Numeric {
  import opened Wrappers
  import opened Values
  import opened Series

  /** `to_numeric(value, errors)` on a single cell. */
  function ToNumericScalar(v: Value, errors: string): (r: Result<Value, PyError>)
    ensures r.Ok? ==> r.value.Num? || r.value.NaN?
    ensures errors == "coerce" ==> r.Ok?
    ensures Float(v).Ok? ==> r == Float(v)
    ensures Float(v).Err? ==> r == if errors == "coerce" then Ok(NaN) else Err(Float(v).error)
  {
    match Float(v)
    case Ok(y) => Ok(y)
    case Err(e) => if errors == "coerce" then Ok(NaN) else Err(e)
  }

  /** The coercion of one cell under `errors="coerce"`. */
  function Coerced(v: Value): Value {
    match Float(v)
    case Ok(y) => y
    case Err(_) => NaN
  }

  /**
   * `to_numeric(values, errors)` on a list, built up one prefix at a time as
   * the loop builds it, stopping at the first error let through.
   */
  function ToNumericOf(values: Series, errors: string): Result<Series, PyError>
  {
    if values == [] then Ok([])
    else
      match ToNumericOf(values[..|values| - 1], errors)
      case Err(e) => Err(e)
      case Ok(out) =>
        match ToNumericScalar(values[|values| - 1], errors)
        case Err(e) => Err(e)
        case Ok(y) => Ok(out + [y])
  }

  /** Once a prefix raises, the whole list raises the same error. */
  lemma {:induction false} ToNumericErrExtends(values: Series, errors: string, k: nat, e: PyError)
    requires k <= |values|
    requires ToNumericOf(values[..k], errors) == Err(e)
    ensures ToNumericOf(values, errors) == Err(e)
    decreases |values| - k
  {
    if k < |values| {
      assert values[..k + 1][..k] == values[..k];
      ToNumericErrExtends(values, errors, k + 1, e);
    } else {
      assert values[..k] == values;
    }
  }

  /**
   * `to_numeric` on a list succeeds iff errors is "coerce" or every cell
   * converts; then it has one cell per input cell, each the converted value
   * or NaN, all of them numbers or NaN.
   */
  lemma {:induction false} ToNumericValues(values: Series, errors: string)
    ensures ToNumericOf(values, errors).Ok? <==>
      errors == "coerce" || forall i :: 0 <= i < |values| ==> Float(values[i]).Ok?
    ensures ToNumericOf(values, errors).Ok? ==>
      var out := ToNumericOf(values, errors).value;
      && |out| == |values|
      && (forall i :: 0 <= i < |values| ==> out[i] == Coerced(values[i]))
      && (forall i :: 0 <= i < |values| ==> out[i].Num? || out[i].NaN?)
  {
    if values != [] {
      var n := |values| - 1;
      var init := values[..n];
      ToNumericValues(init, errors);
      assert forall i :: 0 <= i < n ==> init[i] == values[i];
    }
  }

  /** When `to_numeric` raises, it raises the error of the first cell that does not convert. */
  lemma {:induction false} ToNumericFirstError(values: Series, errors: string)
    requires ToNumericOf(values, errors).Err?
    ensures errors != "coerce"
    ensures exists i :: 0 <= i < |values| && Float(values[i]) == Err(ToNumericOf(values, errors).error) &&
                        forall k :: 0 <= k < i ==> Float(values[k]).Ok?
  {
    var n := |values| - 1;
    var init := values[..n];
    var prev := ToNumericOf(init, errors);
    if prev.Err? {
      ToNumericFirstError(init, errors);
      var i :| 0 <= i < n && Float(init[i]) == Err(prev.error) &&
               forall k :: 0 <= k < i ==> Float(init[k]).Ok?;
      assert forall k :: 0 <= k <= i ==> init[k] == values[k];
    } else {
      ToNumericValues(init, errors);
      assert forall k :: 0 <= k < n ==> init[k] == values[k];
    }
  }

  /** `to_numeric(values, errors)` on a list: the loop that converts each cell with `float(...)`. */
  method ToNumeric(values: Series, errors: string) returns (r: Result<Series, PyError>)
    ensures r == ToNumericOf(values, errors)
  {
    var out: Series := [];
    var i := 0;
    while i < |values|
      invariant 0 <= i <= |values|
      invariant ToNumericOf(values[..i], errors) == Ok(out)
    {
      assert values[..i + 1][..i] == values[..i];
      var y := Float(values[i]);
      if y.Ok? {
        out := out + [y.value];
      } else if errors == "coerce" {
        out := out + [NaN];
      } else {
        ToNumericErrExtends(values, errors, i + 1, y.error);
        return Err(y.error);
      }
      i := i + 1;
    }
    assert values[..i] == values;
    r := Ok(out);
  }

  /** A numeric-looking string coerces to its number, anything else to NaN. */
  lemma ToNumericExamples()
    ensures ToNumericScalar(Str("25"), "coerce") == Ok(Num(25.0))
    ensures ToNumericScalar(Str("abc"), "coerce") == Ok(NaN)
    ensures ToNumericScalar(Str("abc"), "raise") == Err(ValueError)
    ensures ToNumericScalar(Null, "coerce") == Ok(NaN)
    ensures ToNumericScalar(Null, "raise") == Err(TypeError)
  {
    assert NatDigits(25) == "25";
    ParseNatDigits(25);
    assert ParseNum("abc") == None by {
      assert !IsDigit("abc"[0]);
    }
  }

  /** Converting a printed natural number gives the number back. */
  lemma ToNumericOfPrinted(n: nat, errors: string)
    ensures ToNumericScalar(Str(NatDigits(n)), errors) == Ok(Num(n as real))
  {
    ParseNatDigits(n);
  }

  /** Coercing is idempotent: what it returns converts to itself. */
  lemma {:induction false} CoercedIdempotent(v: Value, errors: string)
    ensures ToNumericScalar(Coerced(v), errors) == Ok(Coerced(v))
  {
  }
}
