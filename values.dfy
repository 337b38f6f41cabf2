/**
 * The cells of a Series or a DataFrame column, and the two Python builtins
 * the table library applies to a single cell: `==` and `float(...)`.
 */
module Values {
  import opened Wrappers

  /**
   * A cell. Python ints and floats are both numbers (`Num`); the float NaN
   * is a tag of its own rather than an IEEE-754 bit pattern; `Null` is None.
   */
  datatype Value = Num(x: real) | NaN | Null | Str(s: string)

  /** The cells the library treats as missing: None and a float NaN. */
  predicate IsMissing(v: Value) {
    v.Null? || v.NaN?
  }

  /**
   * Python's `a == b` on two cells: NaN equals nothing (not even NaN), values
   * of different kinds are never equal, and None equals None.
   */
  function PyEq(a: Value, b: Value): (r: bool)
    ensures r ==> a == b && !a.NaN?
    ensures a == b && !a.NaN? ==> r
  {
    match (a, b)
    case (Num(x), Num(y)) => x == y
    case (Str(s), Str(t)) => s == t
    case (Null, Null) => true
    case _ => false
  }

  predicate IsDigit(c: char) {
    '0' <= c <= '9'
  }

  predicate AllDigits(s: string) {
    forall i :: 0 <= i < |s| ==> IsDigit(s[i])
  }

  /** The number a string of decimal digits denotes (0 for the empty string). */
  function DigitsValue(s: string): nat
    requires AllDigits(s)
  {
    if s == [] then 0
    else DigitsValue(s[..|s| - 1]) * 10 + ((s[|s| - 1] as int) - ('0' as int))
  }

  function Pow10(n: nat): (r: nat)
    ensures r > 0
  {
    if n == 0 then 1 else 10 * Pow10(n - 1)
  }

  /** Position of the first '.' in s, or |s| when there is none. */
  function DotIndex(s: string): (k: nat)
    ensures k <= |s|
    ensures forall i :: 0 <= i < k ==> s[i] != '.'
    ensures k < |s| ==> s[k] == '.'
  {
    if s == [] then 0
    else if s[0] == '.' then 0
    else 1 + DotIndex(s[1..])
  }

  /**
   * An unsigned decimal `digits`, `digits.digits`, `digits.` or `.digits`
   * with at least one digit.
   */
  function ParseUnsigned(s: string): Option<real>
  {
    var k := DotIndex(s);
    var whole := s[..k];
    var frac := if k < |s| then s[k + 1..] else "";
    if AllDigits(whole) && AllDigits(frac) && |whole| + |frac| > 0 then
      Some(DigitsValue(whole) as real + (DigitsValue(frac) as real) / (Pow10(|frac|) as real))
    else
      None
  }

  /**
   * The strings `float(...)` accepts, restricted to an optional sign followed
   * by an unsigned decimal number.
   */
  function ParseNum(s: string): Option<real>
  {
    if |s| > 0 && (s[0] == '+' || s[0] == '-') then
      match ParseUnsigned(s[1..])
      case Some(x) => Some(if s[0] == '-' then -x else x)
      case None => None
    else
      ParseUnsigned(s)
  }

  /**
   * Python's `float(v)` on a cell: numbers and NaN pass through, None raises
   * TypeError, and a string either parses or raises ValueError.
   */
  function Float(v: Value): (r: Result<Value, PyError>)
    ensures r.Ok? ==> r.value.Num? || r.value.NaN?
    ensures v.Num? || v.NaN? ==> r == Ok(v)
    ensures r.Err? <==> v.Null? || (v.Str? && ParseNum(v.s).None?)
    ensures v.Null? ==> r == Err(TypeError)
    ensures v.Str? && ParseNum(v.s).None? ==> r == Err(ValueError)
    ensures v.Str? && ParseNum(v.s).Some? ==> r == Ok(Num(ParseNum(v.s).value))
  {
    match v
    case Num(x) => Ok(Num(x))
    case NaN => Ok(NaN)
    case Null => Err(TypeError)
    case Str(s) =>
      match ParseNum(s)
      case Some(x) => Ok(Num(x))
      case None => Err(ValueError)
  }

  /** The decimal digits of n, most significant first, as `str(n)` prints them. */
  function NatDigits(n: nat): (s: string)
    ensures |s| > 0 && AllDigits(s)
  {
    if n < 10 then [('0' as int + n) as char]
    else NatDigits(n / 10) + [('0' as int + n % 10) as char]
  }

  lemma {:induction false} NatDigitsValue(n: nat)
    ensures DigitsValue(NatDigits(n)) == n
  {
    if n >= 10 {
      NatDigitsValue(n / 10);
    }
  }

  lemma {:induction false} DotIndexOfDigits(s: string)
    requires AllDigits(s)
    ensures DotIndex(s) == |s|
  {
    if s != [] {
      DotIndexOfDigits(s[1..]);
    }
  }

  lemma ParseUnsignedDigits(n: nat)
    ensures ParseUnsigned(NatDigits(n)) == Some(n as real)
  {
    var s := NatDigits(n);
    DotIndexOfDigits(s);
    assert s[..|s|] == s;
    NatDigitsValue(n);
  }

  /** `float(str(n))` gives back n: parsing inverts printing a natural number. */
  lemma ParseNatDigits(n: nat)
    ensures ParseNum(NatDigits(n)) == Some(n as real)
    ensures ParseNum("-" + NatDigits(n)) == Some(-(n as real))
  {
    var s := NatDigits(n);
    ParseUnsignedDigits(n);
    assert ("-" + s)[1..] == s;
  }
}
