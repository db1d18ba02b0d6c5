/**
  JavaScript values as the form code handles them: the value a field holds, what
  `FormData.get` returns, JavaScript truthiness and the `Number(...)` conversion.
  Numbers are unbounded integers with NaN as a separate value.
 */
module Js {

  datatype Option<+T> = None | Some(value: T)

  /** A JavaScript value: undefined, null, a string, an (integer) number, NaN or a boolean. */
  datatype JsValue = Undef | Null | Str(s: string) | Num(n: int) | NaN | Bool(b: bool)

  /** JavaScript truthiness: undefined, null, "", 0, NaN and false are falsy. */
  predicate Truthy(v: JsValue) {
    match v
    case Undef => false
    case Null => false
    case Str(s) => s != ""
    case Num(n) => n != 0
    case NaN => false
    case Bool(b) => b
  }

  /** The falsy values are exactly the six listed ones. */
  lemma FalsyValues(v: JsValue)
    ensures !Truthy(v) <==> v in {Undef, Null, Str(""), Num(0), NaN, Bool(false)}
  {
  }

  /** Characters that `String.prototype.trim` and the regular expression class `\s` treat as
      white space: the WhiteSpace and LineTerminator code points of ECMAScript. */
  predicate IsSpace(c: char) {
    var n := c as int;
    n == 0x09 || n == 0x0A || n == 0x0B || n == 0x0C || n == 0x0D || n == 0x20 ||
    n == 0xA0 || n == 0x1680 || (0x2000 <= n <= 0x200A) || n == 0x2028 || n == 0x2029 ||
    n == 0x202F || n == 0x205F || n == 0x3000 || n == 0xFEFF
  }

  /** The regular expression class `\d`: ASCII digits only. */
  predicate IsDigit(c: char) {
    '0' <= c <= '9'
  }

  predicate AllDigits(s: string) {
    forall i :: 0 <= i < |s| ==> IsDigit(s[i])
  }

  function TrimStart(s: string): string {
    if s != [] && IsSpace(s[0]) then TrimStart(s[1..]) else s
  }

  function TrimEnd(s: string): string {
    if s != [] && IsSpace(s[|s| - 1]) then TrimEnd(s[..|s| - 1]) else s
  }

  function Trim(s: string): string {
    TrimEnd(TrimStart(s))
  }

  function DigitValue(c: char): nat
    requires IsDigit(c)
  {
    (c as int) - ('0' as int)
  }

  /** The value of a string of decimal digits, most significant first. */
  function DigitsValue(s: string): nat
    requires AllDigits(s)
  {
    if s == [] then 0 else 10 * DigitsValue(s[..|s| - 1]) + DigitValue(s[|s| - 1])
  }

  function DigitChar(d: nat): char
    requires d < 10
  {
    ('0' as int + d) as char
  }

  /** `String(n)` for a non-negative integer. */
  function NatToString(n: nat): (s: string)
    ensures |s| > 0 && AllDigits(s)
  {
    if n < 10 then [DigitChar(n)] else NatToString(n / 10) + [DigitChar(n % 10)]
  }

  /** `String(n)` for an integer. */
  function IntToString(n: int): string {
    if n < 0 then "-" + NatToString(-n) else NatToString(n)
  }

  /**
    `Number(s)` for a string: surrounding white space is ignored, the empty string is 0, an
    optionally signed run of decimal digits is that integer, and anything else is NaN.
   */
  function ParseNumber(s: string): (r: JsValue)
    ensures r.Num? || r.NaN?
  {
    var t := Trim(s);
    if t == "" then Num(0)
    else if |t| > 1 && t[0] == '-' && AllDigits(t[1..]) then Num(-(DigitsValue(t[1..]) as int))
    else if |t| > 1 && t[0] == '+' && AllDigits(t[1..]) then Num(DigitsValue(t[1..]))
    else if AllDigits(t) then Num(DigitsValue(t))
    else NaN
  }

  /** `Number(v)`: always a number or NaN. */
  function ToNumber(v: JsValue): (r: JsValue)
    ensures r.Num? || r.NaN?
    ensures v.Num? ==> r == v
    ensures v == Undef || v == NaN ==> r == NaN
  {
    match v
    case Undef => NaN
    case Null => Num(0)
    case Str(s) => ParseNumber(s)
    case Num(n) => v
    case NaN => NaN
    case Bool(b) => Num(if b then 1 else 0)
  }

  /** `v < bound` for a number `bound`: `v` is converted with `Number`, and NaN compares false. */
  predicate LessThan(v: JsValue, bound: int) {
    var x := ToNumber(v);
    x.Num? && x.n < bound
  }

  /** `v > bound` for a number `bound`. */
  predicate GreaterThan(v: JsValue, bound: int) {
    var x := ToNumber(v);
    x.Num? && x.n > bound
  }

  lemma {:induction false} TrimDigits(t: string)
    requires AllDigits(t)
    ensures Trim(t) == t
  {
    assert TrimStart(t) == t;
    assert TrimEnd(t) == t;
  }

  lemma {:induction false} DigitsValueOfNatToString(n: nat)
    ensures DigitsValue(NatToString(n)) == n
  {
    if n >= 10 {
      var s := NatToString(n);
      assert s[..|s| - 1] == NatToString(n / 10);
      DigitsValueOfNatToString(n / 10);
    }
  }

  /** Reading back the decimal text of an integer gives that integer: `Number(String(n)) == n`. */
  lemma {:induction false} ParseNumberRoundTrip(n: int)
    ensures ParseNumber(IntToString(n)) == Num(n)
  {
    var t := IntToString(n);
    if n < 0 {
      var d := NatToString(-n);
      assert t[1..] == d;
      assert TrimStart(t) == t;
      assert TrimEnd(t) == t;
      DigitsValueOfNatToString(-n);
    } else {
      TrimDigits(t);
      DigitsValueOfNatToString(n);
    }
  }

  /** A submitted form body: each key's (first) submitted string. */
  type Submission = map<string, string>

  /** `formData.get(key)`: the submitted string, or null when the key is absent. */
  function Get(sub: Submission, key: string): (v: JsValue)
    ensures v == Null <==> key !in sub
    ensures key in sub ==> v == Str(sub[key])
  {
    if key in sub then Str(sub[key]) else Null
  }
}
