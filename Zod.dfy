/**
  The schema validators the builder generation of the forms relies on, stated by what their
  `parseAsync` does with one value: `z.string()`, `z.string().email()`, `z.coerce.number()`,
  a schema with one `.refine(check, { message })`, and any other schema a caller supplies.
  The email test of the validator library and the schemas a caller supplies are given
  functions (an `Oracle`), not part of this model.
 */
module Zod {
  import opened Js
  import Patterns

  /** What parsing a value yields: the output value, or the messages of the issues raised. */
  datatype ParseResult = Parsed(value: JsValue) | Rejected(issues: seq<string>)

  /** The refinement predicates the forms attach. */
  datatype Refinement =
    | NotBlank         // `data !== "" && data !== undefined && data !== null`
    | TelephoneFormat  // `/^\d{3}-\d{3}-\d{4}$/.test(value)`

  datatype Validator =
    | ZString                                               // z.string()
    | ZEmail                                                // z.string().email()
    | ZCoerceNumber                                         // z.coerce.number()
    | Refined(base: Validator, check: Refinement, message: string)  // base.refine(check, { message })
    | Custom(id: nat)                                       // a schema supplied by the caller

  /** The behaviour the model takes as given: the library's email test, and how each
      caller-supplied schema parses a value. */
  datatype Oracle = Oracle(isEmail: string -> bool, custom: (nat, JsValue) -> ParseResult)

  /** The name the library's type check gives a value that is not what it expected. */
  function ReceivedName(v: JsValue): string {
    match v
    case Undef => "undefined"
    case Null => "null"
    case Str(_) => "string"
    case Num(_) => "number"
    case NaN => "nan"
    case Bool(_) => "boolean"
  }

  /** `String(v)`, as `RegExp.prototype.test` converts its argument. */
  function ToJsString(v: JsValue): string {
    match v
    case Undef => "undefined"
    case Null => "null"
    case Str(s) => s
    case Num(n) => IntToString(n)
    case NaN => "NaN"
    case Bool(b) => if b then "true" else "false"
  }

  predicate Holds(check: Refinement, v: JsValue) {
    match check
    case NotBlank => v != Str("") && v != Undef && v != Null
    case TelephoneFormat => Patterns.IsTelephone(ToJsString(v))
  }

  /** The string schema's type check: a missing value is "Required", anything else that is
      not a string is reported with the type it has. */
  function ParseString(v: JsValue): (r: ParseResult)
    ensures r.Parsed? <==> v.Str?
    ensures r.Parsed? ==> r.value == v
    ensures r.Rejected? ==> |r.issues| == 1
  {
    match v
    case Str(_) => Parsed(v)
    case Undef => Rejected(["Required"])
    case _ => Rejected(["Expected string, received " + ReceivedName(v)])
  }

  /** `parseAsync(v)` of a schema. A refinement runs only on the output of a base schema that
      succeeded, and raises its one message when the check fails. */
  function Parse(o: Oracle, val: Validator, v: JsValue): (r: ParseResult)
    ensures (val.ZString? || val.ZEmail?) ==> (r.Parsed? ==> v.Str? && r.value == v)
    ensures val.ZCoerceNumber? ==> (r.Parsed? <==> ToNumber(v).Num?)
    ensures val.ZCoerceNumber? && r.Parsed? ==> r.value == ToNumber(v)
    ensures val.Refined? && r.Parsed? ==> Holds(val.check, r.value) && Parse(o, val.base, v) == r
    ensures val.Refined? && r.Rejected? && Parse(o, val.base, v).Parsed? ==> r.issues == [val.message]
    ensures (val.ZString? || val.ZEmail? || val.ZCoerceNumber?) && r.Rejected? ==> |r.issues| == 1
  {
    match val
    case ZString => ParseString(v)
    case ZEmail =>
      if !v.Str? then ParseString(v)
      else if o.isEmail(v.s) then Parsed(v)
      else Rejected(["Invalid email"])
    case ZCoerceNumber =>
      var n := ToNumber(v);
      if n.NaN? then Rejected(["Expected number, received nan"]) else Parsed(n)
    case Refined(base, check, message) =>
      var r := Parse(o, base, v);
      if r.Rejected? then r
      else if Holds(check, r.value) then r
      else Rejected([message])
    case Custom(id) => o.custom(id, v)
  }

  /** The string schema accepts exactly strings, unchanged. */
  lemma StringSchema(o: Oracle, v: JsValue)
    ensures Parse(o, ZString, v).Parsed? <==> v.Str?
    ensures Parse(o, ZString, v).Parsed? ==> Parse(o, ZString, v).value == v
    ensures Parse(o, ZString, Null) == Rejected(["Expected string, received null"])
    ensures Parse(o, ZString, Undef) == Rejected(["Required"])
  {
    assert "Expected string, received " + "null" == "Expected string, received null";
  }

  /** The email schema accepts exactly the strings the email test accepts, unchanged. */
  lemma EmailSchema(o: Oracle, v: JsValue)
    ensures Parse(o, ZEmail, v).Parsed? <==> v.Str? && o.isEmail(v.s)
    ensures Parse(o, ZEmail, v).Parsed? ==> Parse(o, ZEmail, v).value == v
    ensures v.Str? && !o.isEmail(v.s) ==> Parse(o, ZEmail, v) == Rejected(["Invalid email"])
  {
  }

  /** The coercing number schema accepts whatever `Number` turns into a number: null and ""
      become 0, while undefined and non-numeric text are rejected as NaN. */
  lemma CoerceNumberSchema(o: Oracle, v: JsValue)
    ensures Parse(o, ZCoerceNumber, v).Parsed? <==> ToNumber(v).Num?
    ensures Parse(o, ZCoerceNumber, v).Parsed? ==> Parse(o, ZCoerceNumber, v).value == ToNumber(v)
    ensures Parse(o, ZCoerceNumber, Null) == Parsed(Num(0))
    ensures Parse(o, ZCoerceNumber, Str("")) == Parsed(Num(0))
    ensures Parse(o, ZCoerceNumber, Undef) == Rejected(["Expected number, received nan"])
  {
  }

  /** A refined schema accepts what its base accepts and its check holds of; the output is
      the base's; a failed check raises exactly the refinement's message. */
  lemma RefinedSchema(o: Oracle, base: Validator, check: Refinement, message: string, v: JsValue)
    ensures var r := Parse(o, Refined(base, check, message), v);
      var b := Parse(o, base, v);
      && (r.Parsed? <==> b.Parsed? && Holds(check, b.value))
      && (r.Parsed? ==> r == b)
      && (b.Rejected? ==> r == b)
      && (b.Parsed? && !Holds(check, b.value) ==> r == Rejected([message]))
  {
  }
}
