/**
 * The JavaScript value semantics the wrapper depends on: `undefined`, the
 * number produced by unary `+` on a string, `+` on numbers, and the text a
 * template literal `${...}` gives for a number or a possibly undefined string.
 * Numbers are modelled as integers or NaN.
 */
module JsValues {

  /** A value that may be `undefined` (`None`). */
  datatype Option<T> = None | Some(value: T)

  /** A JavaScript number restricted to the integers, or NaN. */
  datatype Num = Num(value: int) | NaN

  /** Numeric `+`: NaN absorbs everything. */
  function Add(a: Num, b: Num): Num {
    if a.Num? && b.Num? then Num(a.value + b.value) else NaN
  }

  /** `${s}` for a string that may be undefined. */
  function Interpolate(s: Option<string>): string {
    match s
    case None => "undefined"
    case Some(t) => t
  }

  predicate IsDigit(c: char) {
    '0' <= c <= '9'
  }

  predicate AllDigits(s: string) {
    forall i :: 0 <= i < |s| ==> IsDigit(s[i])
  }

  /** The value of a string of decimal digits, most significant first. */
  function DigitsValue(ds: string): nat
    requires AllDigits(ds)
  {
    if ds == [] then 0
    else DigitsValue(ds[..|ds| - 1]) * 10 + (ds[|ds| - 1] as int - '0' as int)
  }

  function Digit(d: nat): (c: char)
    requires d < 10
  {
    ('0' as int + d) as char
  }

  /** The decimal text of a natural number: non-empty, digits only, no
      leading zero (0 itself is exactly "0"), and its value is the number it
      was made from. */
  function NatToString(n: nat): (s: string)
    ensures |s| > 0 && AllDigits(s)
    ensures s[0] == '0' ==> s == "0"
    ensures DigitsValue(s) == n
  {
    if n < 10 then [Digit(n)]
    else
      var prefix := NatToString(n / 10);
      var s := prefix + [Digit(n % 10)];
      assert s[..|s| - 1] == prefix;
      s
  }

  /** Unary `+` applied to a string (or to `undefined`): the empty string is 0,
      an optionally signed run of decimal digits is its value, `undefined` and
      anything else are NaN. */
  function ToNumber(s: Option<string>): Num {
    match s
    case None => NaN
    case Some(t) =>
      if t == "" then Num(0)
      else if t[0] == '-' && |t| > 1 && AllDigits(t[1..]) then Num(-(DigitsValue(t[1..]) as int))
      else if t[0] == '+' && |t| > 1 && AllDigits(t[1..]) then Num(DigitsValue(t[1..]))
      else if AllDigits(t) then Num(DigitsValue(t))
      else NaN
  }

  /** `${n}` for an integer: digits without a leading zero (0 itself is
      exactly "0"), preceded by `-` exactly when `n` is negative; reading the
      text back with unary `+` gives `n`. */
  function IntToString(n: int): (s: string)
    ensures |s| > 0
    ensures n >= 0 ==> AllDigits(s) && (s[0] == '0' ==> s == "0")
    ensures n < 0 ==> |s| > 1 && s[0] == '-' && AllDigits(s[1..]) && s[1] != '0'
    ensures ToNumber(Some(s)) == Num(n)
  {
    if n < 0 then
      var s := "-" + NatToString(-n);
      assert s[1..] == NatToString(-n);
      s
    else
      NatToString(n)
  }

  /** `${m}` for a number that may be undefined. */
  function InterpolateNumber(m: Option<int>): string {
    match m
    case None => "undefined"
    case Some(n) => IntToString(n)
  }
}
