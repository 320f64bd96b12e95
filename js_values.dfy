/**
  Values as they arrive in the parsed JSON body of a request, and the few
  JavaScript coercions the event handler applies to them: truthiness, loose
  equality with null, `parseInt`, `parseFloat` and the numeric conversion that
  a relational comparison (`<`, `>`) performs. A coercion that yields NaN is
  `None`; every comparison with NaN is false.
*/
module JsValues {
  import opened Wrappers

  /** One field of a request body; `Undefined` is a key that is absent. */
  datatype JsValue = Undefined | Null | Bool(b: bool) | Num(n: real) | Str(s: string)

  /** Truthiness, as in `!v`, `v || d` and `v ? a : b`. */
  predicate Truthy(v: JsValue) {
    match v
    case Undefined => false
    case Null => false
    case Bool(b) => b
    case Num(n) => n != 0.0
    case Str(s) => s != ""
  }

  /** `v == null` (loose equality: true of both null and undefined). */
  predicate IsNullish(v: JsValue) {
    v.Undefined? || v.Null?
  }

  predicate IsDigit(c: char) {
    '0' <= c <= '9'
  }

  predicate AllDigits(s: string) {
    forall i :: 0 <= i < |s| ==> IsDigit(s[i])
  }

  function Pow10(n: nat): (r: nat)
    ensures r >= 1
  {
    if n == 0 then 1 else 10 * Pow10(n - 1)
  }

  function DigitValue(c: char): (d: nat)
    requires IsDigit(c)
    ensures d <= 9
  {
    c as int - '0' as int
  }

  /** The value of a string of decimal digits, most significant first. */
  function DigitsValue(s: string): (r: nat)
    requires AllDigits(s)
    ensures r < Pow10(|s|)
    decreases |s|
  {
    if s == [] then 0
    else
      var init := s[..|s| - 1];
      assert AllDigits(init) by {
        forall i | 0 <= i < |init| ensures IsDigit(init[i]) {
          assert init[i] == s[i];
        }
      }
      10 * DigitsValue(init) + DigitValue(s[|s| - 1])
  }

  /** The number of decimal digits `s` starts with. */
  function LeadingDigits(s: string): (k: nat)
    ensures k <= |s|
    ensures AllDigits(s[..k])
    ensures k < |s| ==> !IsDigit(s[k])
    decreases |s|
  {
    if s == [] || !IsDigit(s[0]) then 0
    else
      var k := 1 + LeadingDigits(s[1..]);
      assert s[..k] == [s[0]] + s[1..][..k - 1];
      k
  }

  /**
    `parseInt(s)` for a string without leading blanks, sign or `0x` prefix:
    the value of the longest run of digits it starts with, or NaN when it
    does not start with a digit.
  */
  function ParseInt(s: string): (r: Option<nat>)
    ensures r.None? <==> s == [] || !IsDigit(s[0])
    ensures r.Some? ==> r.value == DigitsValue(s[..LeadingDigits(s)])
  {
    var k := LeadingDigits(s);
    if k == 0 then None else Some(DigitsValue(s[..k]))
  }

  /**
    The numeric conversion a relational comparison applies to one operand
    (`v < 10.0`): null and false are 0, true is 1, an empty string is 0, a
    string of decimal digits is its value; undefined and other strings are NaN.
  */
  function ToNumber(v: JsValue): (r: Option<real>)
    ensures v.Num? ==> r == Some(v.n)
    ensures v.Undefined? ==> r.None?
  {
    match v
    case Undefined => None
    case Null => Some(0.0)
    case Bool(b) => Some(if b then 1.0 else 0.0)
    case Num(n) => Some(n)
    case Str(s) =>
      if s == "" then Some(0.0)
      else if AllDigits(s) then Some(DigitsValue(s) as real)
      else None
  }

  /**
    `parseFloat(v)`: a number is itself, a non-empty string of decimal digits
    is its value; null, undefined, booleans and other strings are NaN.
  */
  function ParseFloat(v: JsValue): (r: Option<real>)
    ensures v.Num? ==> r == Some(v.n)
    ensures !v.Num? && !v.Str? ==> r.None?
  {
    match v
    case Num(n) => Some(n)
    case Str(s) => if s != "" && AllDigits(s) then Some(DigitsValue(s) as real) else None
    case _ => None
  }

  /** `x > y` where `x` may be NaN. */
  predicate Exceeds(x: Option<real>, y: real) {
    x.Some? && x.value > y
  }

  /** `x < y` where `x` may be NaN. */
  predicate FallsBelow(x: Option<real>, y: real) {
    x.Some? && x.value < y
  }

  /** The digits parser reads exactly the leading digits: `parseInt("120km/h")` is 120. */
  lemma {:induction false} ParseIntOfDigitsThenText(digits: string, rest: string)
    requires digits != [] && AllDigits(digits)
    requires rest == [] || !IsDigit(rest[0])
    ensures ParseInt(digits + rest) == Some(DigitsValue(digits))
  {
    LeadingDigitsOfConcat(digits, rest);
    assert (digits + rest)[..|digits|] == digits;
  }

  lemma {:induction false} LeadingDigitsOfConcat(digits: string, rest: string)
    requires AllDigits(digits)
    requires rest == [] || !IsDigit(rest[0])
    ensures LeadingDigits(digits + rest) == |digits|
    decreases |digits|
  {
    if digits == [] {
      assert digits + rest == rest;
    } else {
      assert (digits + rest)[1..] == digits[1..] + rest;
      assert AllDigits(digits[1..]) by {
        forall i | 0 <= i < |digits[1..]| ensures IsDigit(digits[1..][i]) {
          assert digits[1..][i] == digits[i + 1];
        }
      }
      LeadingDigitsOfConcat(digits[1..], rest);
    }
  }
}
