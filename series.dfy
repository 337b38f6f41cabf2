/**
 * The list-based Series: a sequence of cells with percentage change,
 * missing-value filling, summation and element-wise arithmetic and comparison.
 */
module Series {
  import opened Wrappers
  import opened Values

  type Series = seq<Value>

  function Max(a: int, b: int): int {
    if a < b then b else a
  }

  /**
   * The return at position i of `pct_change`, from prev = s[i-1] and
   * curr = s[i]. A zero, None or NaN prior value gives NaN; otherwise the
   * arithmetic `(curr - prev) / prev` runs and raises TypeError on a string
   * or None operand.
   */
  function PctStep(prev: Value, curr: Value): (r: Result<Value, PyError>)
    ensures r.Ok? ==> Arithmetic(r.value)
    ensures r.Err? ==> r.error == TypeError
    ensures prev == Num(0.0) || IsMissing(prev) ==> r == Ok(NaN)
    ensures r.Err? <==> !(prev == Num(0.0) || IsMissing(prev)) && !(Arithmetic(prev) && Arithmetic(curr))
  {
    if prev == Num(0.0) || prev == NaN || prev == Null then Ok(NaN)
    else if prev.Str? || curr.Null? || curr.Str? then Err(TypeError)
    else if curr.NaN? then Ok(NaN)
    else Ok(Num((curr.x - prev.x) / prev.x))
  }

  /** `pct_change` of s, built up one prefix at a time as the loop builds it. */
  function PctChangeOf(s: Series): Result<Series, PyError>
  {
    if |s| <= 1 then Ok([NaN])
    else
      match PctChangeOf(s[..|s| - 1])
      case Err(e) => Err(e)
      case Ok(out) =>
        match PctStep(s[|s| - 2], s[|s| - 1])
        case Err(e) => Err(e)
        case Ok(v) => Ok(out + [v])
  }

  /** Once a prefix raises, every longer series raises too. */
  lemma {:induction false} PctChangeErrExtends(s: Series, k: nat)
    requires k <= |s|
    requires PctChangeOf(s[..k]) == Err(TypeError)
    ensures PctChangeOf(s) == Err(TypeError)
    decreases |s| - k
  {
    if k < |s| {
      assert s[..k + 1][..k] == s[..k];
      PctChangeErrExtends(s, k + 1);
    } else {
      assert s[..k] == s;
    }
  }

  /**
   * `pct_change` fails exactly when some step's arithmetic fails; otherwise
   * the result has length max(1, |s|), starts with NaN, and holds at each
   * later position the step computed from that position and the one before.
   */
  lemma {:induction false} PctChangeSteps(s: Series)
    ensures PctChangeOf(s).Ok? <==> forall i :: 1 <= i < |s| ==> PctStep(s[i - 1], s[i]).Ok?
    ensures PctChangeOf(s).Ok? ==>
      var out := PctChangeOf(s).value;
      && |out| == Max(1, |s|)
      && out[0] == NaN
      && (forall i :: 1 <= i < |s| ==> out[i] == PctStep(s[i - 1], s[i]).value)
  {
    if |s| > 1 {
      var t := s[..|s| - 1];
      PctChangeSteps(t);
      assert forall i :: 0 <= i < |t| ==> t[i] == s[i];
    }
  }

  /**
   * Where `pct_change` puts NaN and where the relative change: NaN at 0 and
   * after a zero, None or NaN prior value; (s[i] - s[i-1]) / s[i-1] after a
   * non-zero number followed by a number.
   */
  lemma {:induction false} PctChangeSpec(s: Series)
    requires PctChangeOf(s).Ok?
    ensures |PctChangeOf(s).value| == Max(1, |s|)
    ensures PctChangeOf(s).value[0] == NaN
    ensures forall i :: 1 <= i < |s| && (s[i - 1] == Num(0.0) || IsMissing(s[i - 1])) ==>
      PctChangeOf(s).value[i] == NaN
    ensures forall i :: 1 <= i < |s| && s[i - 1].Num? && s[i - 1].x != 0.0 && s[i].Num? ==>
      PctChangeOf(s).value[i] == Num((s[i].x - s[i - 1].x) / s[i - 1].x)
    ensures forall i :: 1 <= i < |s| && s[i - 1].Num? && s[i - 1].x != 0.0 && s[i].NaN? ==>
      PctChangeOf(s).value[i] == NaN
  {
    PctChangeSteps(s);
    var out := PctChangeOf(s).value;
    forall i | 1 <= i < |s|
      ensures (s[i - 1] == Num(0.0) || IsMissing(s[i - 1])) ==> out[i] == NaN
      ensures s[i - 1].Num? && s[i - 1].x != 0.0 && s[i].Num? ==>
        out[i] == Num((s[i].x - s[i - 1].x) / s[i - 1].x)
      ensures s[i - 1].Num? && s[i - 1].x != 0.0 && s[i].NaN? ==> out[i] == NaN
    {
      assert out[i] == PctStep(s[i - 1], s[i]).value;
    }
  }

  /**
   * The steps whose arithmetic raises TypeError: a string prior value, or a
   * non-zero prior number followed by None or a string.
   */
  predicate StepRaises(prev: Value, curr: Value) {
    prev.Str? || (prev.Num? && prev.x != 0.0 && (curr.Null? || curr.Str?))
  }

  /** `pct_change` raises exactly when one of its steps does. */
  lemma {:induction false} PctChangeRaises(s: Series)
    ensures PctChangeOf(s).Err? <==> exists i :: 1 <= i < |s| && StepRaises(s[i - 1], s[i])
  {
    PctChangeSteps(s);
    assert forall i :: 1 <= i < |s| ==> (PctStep(s[i - 1], s[i]).Err? <==> StepRaises(s[i - 1], s[i]));
  }

  /** The closes [2, 3, 4] give the returns [NaN, 0.5, 1/3]. */
  lemma PctChangeExample()
    ensures PctChangeOf([Num(2.0), Num(3.0), Num(4.0)]) == Ok([NaN, Num(0.5), Num(1.0 / 3.0)])
  {
    var s := [Num(2.0), Num(3.0), Num(4.0)];
    assert PctStep(s[0], s[1]) == Ok(Num(0.5));
    assert PctStep(s[1], s[2]) == Ok(Num(1.0 / 3.0));
    PctChangeSteps(s);
    var out := PctChangeOf(s).value;
    assert out == [NaN, Num(0.5), Num(1.0 / 3.0)];
  }

  /** `Series.pct_change`: the loop that appends one return per position. */
  method PctChange(s: Series) returns (r: Result<Series, PyError>)
    ensures r == PctChangeOf(s)
  {
    var out := [NaN];
    var i := 1;
    while i < |s|
      invariant 1 <= i <= Max(1, |s|)
      invariant |s| == 0 ==> out == [NaN]
      invariant |s| > 0 ==> PctChangeOf(s[..i]) == Ok(out)
    {
      var prev, curr := s[i - 1], s[i];
      assert s[..i + 1][..i] == s[..i];
      if prev == Num(0.0) || prev == NaN || prev == Null {
        out := out + [NaN];
      } else if prev.Str? || curr.Null? || curr.Str? {
        assert PctChangeOf(s[..i + 1]) == Err(TypeError);
        PctChangeErrExtends(s, i + 1);
        return Err(TypeError);
      } else if curr.NaN? {
        out := out + [NaN];
      } else {
        out := out + [Num((curr.x - prev.x) / prev.x)];
      }
      i := i + 1;
    }
    if |s| > 0 {
      assert s[..i] == s;
    }
    r := Ok(out);
  }

  /** `Series.fillna(value)`: every None and NaN becomes value. */
  function Fillna(s: Series, value: Value): (r: Series)
    ensures |r| == |s|
    ensures forall i :: 0 <= i < |s| && IsMissing(s[i]) ==> r[i] == value
    ensures forall i :: 0 <= i < |s| && !IsMissing(s[i]) ==> r[i] == s[i]
    ensures !IsMissing(value) ==> forall i :: 0 <= i < |r| ==> !IsMissing(r[i])
  {
    seq(|s|, i requires 0 <= i < |s| => if IsMissing(s[i]) then value else s[i])
  }

  /** Filling twice with the same value is filling once. */
  lemma {:induction false} FillnaIdempotent(s: Series, value: Value)
    ensures Fillna(Fillna(s, value), value) == Fillna(s, value)
  {
  }

  /**
   * `Series.sum` of s, as the accumulator stands after the loop has seen s:
   * missing cells are skipped, numbers are added, a string raises TypeError.
   */
  function SumOf(s: Series): Result<real, PyError>
  {
    if s == [] then Ok(0.0)
    else
      match SumOf(s[..|s| - 1])
      case Err(e) => Err(e)
      case Ok(total) =>
        var x := s[|s| - 1];
        if IsMissing(x) then Ok(total)
        else if x.Str? then Err(TypeError)
        else Ok(total + x.x)
  }

  /** Once a prefix raises, every longer series raises too. */
  lemma {:induction false} SumErrExtends(s: Series, k: nat)
    requires k <= |s|
    requires SumOf(s[..k]) == Err(TypeError)
    ensures SumOf(s) == Err(TypeError)
    decreases |s| - k
  {
    if k < |s| {
      assert s[..k + 1][..k] == s[..k];
      SumErrExtends(s, k + 1);
    } else {
      assert s[..k] == s;
    }
  }

  /** The cells that are not missing, in order. */
  function Present(s: Series): (r: Series)
    ensures forall i :: 0 <= i < |r| ==> !IsMissing(r[i])
    ensures |r| <= |s|
  {
    if s == [] then []
    else Present(s[..|s| - 1]) + (if IsMissing(s[|s| - 1]) then [] else [s[|s| - 1]])
  }

  /** Plain addition of numeric cells, the sum the skip rule reduces to. */
  function Total(s: Series): real
    requires forall i :: 0 <= i < |s| ==> s[i].Num?
  {
    if s == [] then 0.0 else Total(s[..|s| - 1]) + s[|s| - 1].x
  }

  /**
   * `sum` fails exactly on a string cell; otherwise it is the total of the
   * cells that are not missing (0 for a series without any).
   */
  lemma {:induction false} SumSpec(s: Series)
    ensures SumOf(s).Ok? <==> forall i :: 0 <= i < |s| ==> !s[i].Str?
    ensures SumOf(s).Ok? ==>
      (forall i :: 0 <= i < |Present(s)| ==> Present(s)[i].Num?) &&
      SumOf(s).value == Total(Present(s))
  {
    if s != [] {
      var t := s[..|s| - 1];
      SumSpec(t);
      assert forall i :: 0 <= i < |t| ==> t[i] == s[i];
      if SumOf(s).Ok? {
        var p := Present(t);
        var x := s[|s| - 1];
        if IsMissing(x) {
          assert Present(s) == p;
        }
      }
    }
  }

  /** Summing skips exactly what `fillna(0)` would fill: both sums agree. */
  lemma {:induction false} SumFillnaZero(s: Series)
    ensures SumOf(Fillna(s, Num(0.0))) == SumOf(s)
  {
    if s != [] {
      var f := Fillna(s, Num(0.0));
      SumFillnaZero(s[..|s| - 1]);
      assert f[..|f| - 1] == Fillna(s[..|s| - 1], Num(0.0));
    }
  }

  /** `Series.sum`: the accumulator loop. */
  method Sum(s: Series) returns (r: Result<real, PyError>)
    ensures r == SumOf(s)
  {
    var total := 0.0;
    var i := 0;
    while i < |s|
      invariant 0 <= i <= |s|
      invariant SumOf(s[..i]) == Ok(total)
    {
      var x := s[i];
      assert s[..i + 1][..i] == s[..i];
      if IsMissing(x) {
        i := i + 1;
        continue;
      }
      if x.Str? {
        assert s[..i + 1][i] == x;
        SumErrExtends(s, i + 1);
        return Err(TypeError);
      }
      total := total + x.x;
      i := i + 1;
    }
    assert s[..i] == s;
    r := Ok(total);
  }

  function Power(x: real, n: nat): real {
    if n == 0 then 1.0 else x * Power(x, n - 1)
  }

  /** Python's `x ** n` on one cell for a natural exponent n; None stays None. */
  function PowCell(x: Value, n: nat): Result<Value, PyError>
  {
    match x
    case Null => Ok(Null)
    case Num(a) => Ok(Num(Power(a, n)))
    case NaN => Ok(if n == 0 then Num(1.0) else NaN)
    case Str(_) => Err(TypeError)
  }

  /** `Series.__pow__(n)`: element-wise power, raising on the first string. */
  function Pow(s: Series, n: nat): (r: Result<Series, PyError>)
    ensures r.Ok? <==> forall i :: 0 <= i < |s| ==> !s[i].Str?
    ensures r.Ok? ==> |r.value| == |s|
    ensures r.Ok? ==> forall i :: 0 <= i < |s| ==> Ok(r.value[i]) == PowCell(s[i], n)
    ensures r.Ok? ==> forall i :: 0 <= i < |s| ==> (s[i].Null? <==> r.value[i].Null?)
  {
    if exists i :: 0 <= i < |s| && s[i].Str? then Err(TypeError)
    else Ok(seq(|s|, i requires 0 <= i < |s| => PowCell(s[i], n).value))
  }

  /** Python's `a * b` on two cells; None or a string operand raises. */
  function MulCell(a: Value, b: Value): Result<Value, PyError>
  {
    if a.Null? || a.Str? || b.Null? || b.Str? then Err(TypeError)
    else if a.NaN? || b.NaN? then Ok(NaN)
    else Ok(Num(a.x * b.x))
  }

  predicate Arithmetic(v: Value) {
    v.Num? || v.NaN?
  }

  /** `Series.__mul__` with another Series: zip truncates to the shorter one. */
  function MulSeries(s: Series, t: Series): (r: Result<Series, PyError>)
    ensures r.Ok? <==> forall i :: 0 <= i < |s| && i < |t| ==> Arithmetic(s[i]) && Arithmetic(t[i])
    ensures r.Ok? ==> |r.value| == if |s| < |t| then |s| else |t|
    ensures r.Ok? ==> forall i :: 0 <= i < |r.value| ==> Ok(r.value[i]) == MulCell(s[i], t[i])
  {
    var n := if |s| < |t| then |s| else |t|;
    if exists i :: 0 <= i < n && MulCell(s[i], t[i]).Err? then Err(TypeError)
    else Ok(seq(n, i requires 0 <= i < n => MulCell(s[i], t[i]).value))
  }

  /** `Series.__mul__` with a scalar: every cell times the same operand. */
  function MulScalar(s: Series, c: Value): (r: Result<Series, PyError>)
    ensures r.Ok? <==> s == [] || (Arithmetic(c) && forall i :: 0 <= i < |s| ==> Arithmetic(s[i]))
    ensures r.Ok? ==> |r.value| == |s|
    ensures r.Ok? ==> forall i :: 0 <= i < |s| ==> Ok(r.value[i]) == MulCell(s[i], c)
  {
    if exists i :: 0 <= i < |s| && MulCell(s[i], c).Err? then Err(TypeError)
    else
      assert s != [] ==> MulCell(s[0], c).Ok?;
      Ok(seq(|s|, i requires 0 <= i < |s| => MulCell(s[i], c).value))
  }

  /** Element-wise multiplication commutes. */
  lemma MulSeriesCommutes(s: Series, t: Series)
    ensures MulSeries(s, t) == MulSeries(t, s)
  {
    var n := if |s| < |t| then |s| else |t|;
    forall i | 0 <= i < n
      ensures MulCell(s[i], t[i]) == MulCell(t[i], s[i])
    {
      if s[i].Num? && t[i].Num? {
        assert s[i].x * t[i].x == t[i].x * s[i].x;
      }
    }
    if MulSeries(s, t).Ok? {
      assert MulSeries(t, s).Ok?;
      assert MulSeries(s, t).value == MulSeries(t, s).value;
    } else {
      var i :| 0 <= i < n && MulCell(s[i], t[i]).Err?;
      assert MulCell(t[i], s[i]).Err?;
    }
  }

  /** On numbers and NaN, squaring is multiplying a series by itself. */
  lemma PowTwoIsSelfProduct(s: Series)
    requires forall i :: 0 <= i < |s| ==> Arithmetic(s[i])
    ensures Pow(s, 2) == MulSeries(s, s)
  {
    forall i | 0 <= i < |s|
      ensures PowCell(s[i], 2) == MulCell(s[i], s[i])
    {
      if s[i].Num? {
        var a := s[i].x;
        assert Power(a, 1) == a;
        assert Power(a, 2) == a * a;
        assert PowCell(s[i], 2) == Ok(Num(a * a));
      } else {
        assert PowCell(s[i], 2) == Ok(NaN);
      }
    }
    assert Pow(s, 2).value == MulSeries(s, s).value;
  }

  /** `Series.__eq__(x)`: the boolean mask of the cells equal to x. */
  function Eq(s: Series, x: Value): (mask: seq<bool>)
    ensures |mask| == |s|
    ensures forall i :: 0 <= i < |s| ==> (mask[i] <==> s[i] == x && !x.NaN?)
  {
    seq(|s|, i requires 0 <= i < |s| => PyEq(s[i], x))
  }

  /**
   * `Series.iloc[idx]`: Python list indexing, where a negative index counts
   * from the end and anything outside [-|s|, |s|) raises IndexError.
   */
  function ILoc(s: Series, idx: int): (r: Result<Value, PyError>)
    ensures r.Err? <==> idx < -|s| || |s| <= idx
    ensures r.Err? ==> r.error == IndexError
    ensures 0 <= idx < |s| ==> r == Ok(s[idx])
    ensures -|s| <= idx < 0 ==> r == Ok(s[|s| + idx])
  {
    if 0 <= idx < |s| then Ok(s[idx])
    else if -|s| <= idx < 0 then Ok(s[|s| + idx])
    else Err(IndexError)
  }
}
