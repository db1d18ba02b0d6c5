/**
  The class-based field strategies of src/fields.ts. The seven field classes share one
  Dafny class `Field` whose constant `spec.kind` selects the strategy; `value` is the
  mutable property that `Cast` and `Validate` overwrite in place. A thrown exception
  becomes an `Outcome`.
 */
module Fields {
  import opened Js
  import opened Messages
  import Patterns

  /** The field classes: TextField, TextAreaField, EmailField, PasswordField, UrlField,
      NumberField and CheckboxField. */
  datatype Kind = Text | TextArea | Email | Password | Url | Number | Checkbox

  /** The `type` property each class sets. */
  function TypeTag(kind: Kind): string {
    match kind
    case Text => "text"
    case TextArea => "textarea"
    case Email => "email"
    case Password => "password"
    case Url => "url"
    case Number => "number"
    case Checkbox => "checkbox"
  }

  /** TextField and its four subclasses. */
  predicate IsTextLike(kind: Kind) {
    !kind.Number? && !kind.Checkbox?
  }

  /** The constructor-set properties of a field. `required` absent is `false`. */
  datatype FieldSpec = FieldSpec(
    kind: Kind,
    labelText: string,
    placeholder: string,
    maxlength: Option<int>,
    min: Option<int>,
    max: Option<int>,
    required: bool,
    error: Option<string>)

  /** What a validation can throw: a FieldError, or a TypeError from the JavaScript runtime. */
  datatype Exception = FieldError(message: string) | TypeError(message: string)

  datatype Outcome = Passed | Threw(exception: Exception)

  /** `this.error || Form.errors[key]`: the custom error unless it is unset or empty. */
  function MessageFor(error: Option<string>, key: ErrorKey): string {
    if error.Some? && error.value != "" then error.value else DefaultMessage(key)
  }

  function Reject(spec: FieldSpec, key: ErrorKey): Outcome {
    Threw(FieldError(MessageFor(spec.error, key)))
  }

  /** A numeric property that is truthy: defined and not 0. */
  predicate IsSet(bound: Option<int>) {
    bound.Some? && bound.value != 0
  }

  /** The TypeError of reading `property` of null or undefined. */
  function NothingError(v: JsValue, property: string): Exception {
    TypeError("Cannot read properties of " + (if v == Undef then "undefined" else "null") +
              " (reading '" + property + "')")
  }

  /** The TypeError of calling a method that a non-string value does not have. */
  function NotAFunction(property: string): Exception {
    TypeError("this.value." + property + " is not a function")
  }

  /** The `cast()` of each class: the new `value` computed from the old one. */
  function CastValue(kind: Kind, v: JsValue): JsValue {
    match kind
    case Number => if v == Undef then Null else ToNumber(v)
    case Checkbox => if v == Undef then Null else Bool(v == Str("true"))
    case _ => if v == Undef then Null else v
  }

  /** The checks of TextField.validate after its cast: required, then maxlength. */
  function TextCheck(spec: FieldSpec, v: JsValue): Outcome {
    if spec.required && (!Truthy(v) || v == Str("")) then Reject(spec, RequiredError)
    else if IsSet(spec.maxlength) then
      match v
      case Str(s) => if |s| > spec.maxlength.value then Reject(spec, MaxLengthError) else Passed
      case Undef => Threw(NothingError(v, "length"))
      case Null => Threw(NothingError(v, "length"))
      case _ => Passed  // a non-string has no length, and `undefined > maxlength` is false
    else Passed
  }

  /** `this.value.match(pattern)`, rejecting with `key` when there is no match. */
  function PatternCheck(spec: FieldSpec, v: JsValue, matches: string -> bool, key: ErrorKey): Outcome {
    match v
    case Str(s) => if matches(s) then Passed else Reject(spec, key)
    case Undef => Threw(NothingError(v, "match"))
    case Null => Threw(NothingError(v, "match"))
    case _ => Threw(NotAFunction("match"))
  }

  /** The checks of NumberField.validate after its cast: required, then min, else max. */
  function NumberCheck(spec: FieldSpec, v: JsValue): Outcome {
    if spec.required && !Truthy(v) then Reject(spec, RequiredError)
    else if spec.min.Some? && LessThan(v, spec.min.value) then Reject(spec, MinError)
    else if spec.max.Some? && GreaterThan(v, spec.max.value) then Reject(spec, MaxError)
    else Passed
  }

  /** The checks each class's `validate()` runs on the cast value. */
  function CheckValue(spec: FieldSpec, v: JsValue): Outcome {
    match spec.kind
    case Number => NumberCheck(spec, v)
    case Checkbox => if spec.required && !Truthy(v) then Reject(spec, RequiredError) else Passed
    case Email =>
      var t := TextCheck(spec, v);
      if t.Threw? then t else PatternCheck(spec, v, Patterns.IsEmailAddress, EmailError)
    case Url =>
      var t := TextCheck(spec, v);
      if t.Threw? then t else PatternCheck(spec, v, Patterns.HasHttpUrl, UrlError)
    case _ => TextCheck(spec, v)
  }

  /** `validate()` from a field holding `v`: the value it leaves behind, and its outcome. */
  function Validation(spec: FieldSpec, v: JsValue): (JsValue, Outcome) {
    var c := CastValue(spec.kind, v);
    (c, CheckValue(spec, c))
  }

  /** One field object: constant properties and the mutable `value` and `name`. */
  class Field {
    const spec: FieldSpec
    var value: JsValue
    /** Absent until a form's `fields()` assigns the field's key. */
    var name: Option<string>

    /** The TextField constructor, shared by its four subclasses. */
    constructor TextField(kind: Kind, labelText: string, placeholder: string, value: Option<string>,
                          maxlength: Option<int>, required: bool, error: Option<string>)
      requires IsTextLike(kind)
      ensures spec == FieldSpec(kind, labelText, placeholder, maxlength, None, None, required, error)
      ensures this.value == (if value.Some? then Str(value.value) else Undef)
      ensures name == None
    {
      spec := FieldSpec(kind, labelText, placeholder, maxlength, None, None, required, error);
      this.value := if value.Some? then Str(value.value) else Undef;
      name := None;
    }

    constructor NumberField(labelText: string, placeholder: string, value: Option<int>,
                            min: Option<int>, max: Option<int>, required: bool, error: Option<string>)
      ensures spec == FieldSpec(Number, labelText, placeholder, None, min, max, required, error)
      ensures this.value == (if value.Some? then Num(value.value) else Undef)
      ensures name == None
    {
      spec := FieldSpec(Number, labelText, placeholder, None, min, max, required, error);
      this.value := if value.Some? then Num(value.value) else Undef;
      name := None;
    }

    constructor CheckboxField(labelText: string, placeholder: string, value: Option<bool>,
                              required: bool, error: Option<string>)
      ensures spec == FieldSpec(Checkbox, labelText, placeholder, None, None, None, required, error)
      ensures this.value == (if value.Some? then Bool(value.value) else Undef)
      ensures name == None
    {
      spec := FieldSpec(Checkbox, labelText, placeholder, None, None, None, required, error);
      this.value := if value.Some? then Bool(value.value) else Undef;
      name := None;
    }

    method Cast()
      modifies this`value
      ensures value == CastValue(spec.kind, old(value))
    {
      match spec.kind {
        case Number =>
          if value == Undef { value := Null; } else { value := ToNumber(value); }
        case Checkbox =>
          if value == Undef { value := Null; } else { value := Bool(value == Str("true")); }
        case _ =>
          if value == Undef { value := Null; }
      }
    }

    /** TextField.validate: cast, then the required and maxlength checks. */
    method ValidateText() returns (outcome: Outcome)
      requires IsTextLike(spec.kind)
      modifies this`value
      ensures value == CastValue(spec.kind, old(value))
      ensures outcome == TextCheck(spec, value)
    {
      Cast();
      if spec.required && (!Truthy(value) || value == Str("")) {
        return Reject(spec, RequiredError);
      }
      if IsSet(spec.maxlength) {
        match value {
          case Str(s) =>
            if |s| > spec.maxlength.value {
              return Reject(spec, MaxLengthError);
            }
          case Undef =>
            return Threw(NothingError(value, "length"));
          case Null =>
            return Threw(NothingError(value, "length"));
          case _ =>
        }
      }
      return Passed;
    }

    /** The pattern test that EmailField and UrlField add after TextField.validate. */
    method MatchValue(matches: string -> bool, key: ErrorKey) returns (outcome: Outcome)
      ensures outcome == PatternCheck(spec, value, matches, key)
    {
      match value {
        case Str(s) =>
          outcome := if matches(s) then Passed else Reject(spec, key);
        case Undef =>
          outcome := Threw(NothingError(value, "match"));
        case Null =>
          outcome := Threw(NothingError(value, "match"));
        case _ =>
          outcome := Threw(NotAFunction("match"));
      }
    }

    /** NumberField.validate: cast, required, then min or else max. */
    method ValidateNumber() returns (outcome: Outcome)
      requires spec.kind == Number
      modifies this`value
      ensures value == CastValue(spec.kind, old(value))
      ensures outcome == NumberCheck(spec, value)
    {
      Cast();
      if spec.required && !Truthy(value) {
        return Reject(spec, RequiredError);
      }
      if spec.min.Some? && LessThan(value, spec.min.value) {
        return Reject(spec, MinError);
      } else if spec.max.Some? && GreaterThan(value, spec.max.value) {
        return Reject(spec, MaxError);
      }
      return Passed;
    }

    /** `validate()` of the field's class. */
    method Validate() returns (outcome: Outcome)
      modifies this`value
      ensures (value, outcome) == Validation(spec, old(value))
    {
      match spec.kind {
        case Number =>
          outcome := ValidateNumber();
        case Checkbox =>
          Cast();
          outcome := if spec.required && !Truthy(value) then Reject(spec, RequiredError) else Passed;
        case Email =>
          outcome := ValidateText();
          if outcome == Passed {
            outcome := MatchValue(Patterns.IsEmailAddress, EmailError);
          }
        case Url =>
          outcome := ValidateText();
          if outcome == Passed {
            outcome := MatchValue(Patterns.HasHttpUrl, UrlError);
          }
        case _ =>
          outcome := ValidateText();
      }
    }
  }

  // Properties of the strategies.

  /** The custom error replaces the default message whenever it is a non-empty string; an
      absent or empty one (falsy for `||`) leaves the default. */
  lemma CustomErrorOverrides(error: Option<string>, key: ErrorKey)
    ensures error.Some? && error.value != "" ==> MessageFor(error, key) == error.value
    ensures error.None? ==> MessageFor(error, key) == DefaultMessage(key)
    ensures error == Some("") ==> MessageFor(error, key) == DefaultMessage(key)
  {
  }

  /** Text casting only replaces undefined by null, so casting twice is casting once. */
  lemma TextCastIdempotent(kind: Kind, v: JsValue)
    requires IsTextLike(kind)
    ensures CastValue(kind, v) != Undef
    ensures v != Undef ==> CastValue(kind, v) == v
    ensures CastValue(kind, CastValue(kind, v)) == CastValue(kind, v)
  {
  }

  /** A required text-like field holding "", null or undefined fails with the required message. */
  lemma RequiredTextRejectsBlank(spec: FieldSpec, v: JsValue)
    requires IsTextLike(spec.kind) && spec.required
    requires v == Str("") || v == Null || v == Undef
    ensures Validation(spec, v).1 == Threw(FieldError(MessageFor(spec.error, RequiredError)))
    ensures spec.error.None? ==> Validation(spec, v).1 == Threw(FieldError("Field is required"))
  {
  }

  /** The maxlength check fails exactly when maxlength is truthy and the length exceeds it;
      a string of exactly maxlength characters passes. */
  lemma MaxLengthBoundary(spec: FieldSpec, s: string)
    requires IsTextLike(spec.kind)
    requires !spec.required || s != ""
    ensures TextCheck(spec, Str(s)) == Passed <==>
            !(IsSet(spec.maxlength) && |s| > spec.maxlength.value)
    ensures TextCheck(spec, Str(s)) != Passed ==> TextCheck(spec, Str(s)) == Reject(spec, MaxLengthError)
    ensures spec.maxlength == Some(|s|) ==> TextCheck(spec, Str(s)) == Passed
  {
  }

  /** An optional text-like field with a truthy maxlength and no value throws a TypeError
      (reading `length` of null), not a FieldError. */
  lemma MaxLengthOnNullThrowsTypeError(spec: FieldSpec, v: JsValue)
    requires IsTextLike(spec.kind) && !spec.required && IsSet(spec.maxlength)
    requires v == Null || v == Undef
    ensures Validation(spec, v).1 == Threw(TypeError("Cannot read properties of null (reading 'length')"))
  {
    NullLengthMessage();
  }

  /** The message of reading `length` of null, written out. */
  lemma NullLengthMessage()
    ensures NothingError(Null, "length") == TypeError("Cannot read properties of null (reading 'length')")
  {
    assert "Cannot read properties of " + "null" + " (reading '" + "length" + "')" ==
           "Cannot read properties of null (reading 'length')";
  }

  /** Casting the decimal text of an integer gives back that integer. */
  lemma {:induction false} NumberCastRoundTrip(n: int)
    ensures CastValue(Number, Str(IntToString(n))) == Num(n)
    ensures CastValue(Number, CastValue(Number, Str(IntToString(n)))) == Num(n)
  {
    ParseNumberRoundTrip(n);
  }

  /** Number casting is idempotent except on undefined, which becomes null and then 0. */
  lemma NumberCastTwice(v: JsValue)
    ensures v != Undef ==> CastValue(Number, CastValue(Number, v)) == CastValue(Number, v)
    ensures CastValue(Number, Undef) == Null && CastValue(Number, Null) == Num(0)
  {
  }

  /** A required number field whose cast value is falsy (null, 0 or NaN) fails as required. */
  lemma RequiredNumberRejectsFalsy(spec: FieldSpec, v: JsValue)
    requires spec.kind == Number && spec.required
    requires !Truthy(CastValue(Number, v))
    ensures Validation(spec, v).1 == Reject(spec, RequiredError)
  {
  }

  /** "asdf" is not a number: casting it gives NaN, so a required number field rejects it. */
  lemma NonNumericIsNaN(spec: FieldSpec)
    requires spec.kind == Number && spec.required
    ensures CastValue(Number, Str("asdf")) == NaN
    ensures Validation(spec, Str("asdf")).1 == Reject(spec, RequiredError)
  {
    var s := "asdf";
    assert TrimStart(s) == s;
    assert TrimEnd(s) == s;
    assert !IsDigit(s[0]);
  }

  /** Bounds are inclusive and checked only when defined; min is checked first, so a value
      below min reports min even when it also violates max. */
  lemma NumberBounds(spec: FieldSpec, n: int)
    requires spec.kind == Number
    requires !spec.required || n != 0
    ensures Validation(spec, Num(n)).1 == Passed <==>
            (spec.min.None? || spec.min.value <= n) && (spec.max.None? || n <= spec.max.value)
    ensures Validation(spec, Num(n)).1 == Reject(spec, MinError) || spec.min.None? || spec.min.value <= n
    ensures spec.min.Some? && n < spec.min.value ==> Validation(spec, Num(n)).1 == Reject(spec, MinError)
    ensures (spec.min.None? || spec.min.value <= n) && spec.max.Some? && n > spec.max.value ==>
            Validation(spec, Num(n)).1 == Reject(spec, MaxError)
  {
  }

  /** An optional number field left undefined holds null, which compares as 0 against the
      bounds: it fails min exactly when min is positive, and max exactly when max is negative. */
  lemma OptionalNumberNullComparesAsZero(spec: FieldSpec)
    requires spec.kind == Number && !spec.required
    ensures Validation(spec, Undef).0 == Null
    ensures Validation(spec, Undef).1 == Passed <==>
            (spec.min.None? || spec.min.value <= 0) && (spec.max.None? || 0 <= spec.max.value)
    ensures spec.min.Some? && spec.min.value > 0 ==> Validation(spec, Undef).1 == Reject(spec, MinError)
  {
  }

  /** Email validation runs all text checks first; only when they pass is the address
      pattern tested, and a string fails it with the email message. */
  lemma EmailChecksTextFirst(spec: FieldSpec, v: JsValue)
    requires spec.kind == Email
    ensures var c := CastValue(Email, v);
      && (TextCheck(spec, c).Threw? ==> Validation(spec, v).1 == TextCheck(spec, c))
      && (TextCheck(spec, c) == Passed && c.Str? ==>
            (Validation(spec, v).1 == Passed <==> Patterns.IsEmailAddress(c.s)))
      && (TextCheck(spec, c) == Passed && c.Str? && !Patterns.IsEmailAddress(c.s) ==>
            Validation(spec, v).1 == Reject(spec, EmailError))
  {
  }

  /** Url validation runs all text checks first, then needs an http(s) scheme anywhere. */
  lemma UrlChecksTextFirst(spec: FieldSpec, v: JsValue)
    requires spec.kind == Url
    ensures var c := CastValue(Url, v);
      && (TextCheck(spec, c).Threw? ==> Validation(spec, v).1 == TextCheck(spec, c))
      && (TextCheck(spec, c) == Passed && c.Str? ==>
            (Validation(spec, v).1 == Passed <==> Patterns.HasHttpUrl(c.s)))
      && (TextCheck(spec, c) == Passed && c.Str? && !Patterns.HasHttpUrl(c.s) ==>
            Validation(spec, v).1 == Reject(spec, UrlError))
  {
  }

  /** An optional email or url field with no value passes the text checks and then throws a
      TypeError from calling `match` on null. */
  lemma PatternOnNullThrowsTypeError(spec: FieldSpec)
    requires (spec.kind == Email || spec.kind == Url) && !spec.required && !IsSet(spec.maxlength)
    ensures Validation(spec, Undef).1 == Threw(TypeError("Cannot read properties of null (reading 'match')"))
  {
    NullMatchMessage();
  }

  /** The message of calling `match` on null, written out. */
  lemma NullMatchMessage()
    ensures NothingError(Null, "match") == TypeError("Cannot read properties of null (reading 'match')")
  {
    assert "Cannot read properties of " + "null" + " (reading '" + "match" + "')" ==
           "Cannot read properties of null (reading 'match')";
  }

  /** "a@b.com" passes an email field and "not-an-email" fails it with the email message. */
  lemma EmailFieldExamples(spec: FieldSpec)
    requires spec.kind == Email && !IsSet(spec.maxlength)
    ensures Validation(spec, Str("a@b.com")).1 == Passed
    ensures Validation(spec, Str("not-an-email")).1 == Reject(spec, EmailError)
  {
    Patterns.EmailAccepted();
    Patterns.EmailRejected();
  }

  /** Checkbox casting: "true" is true, any other defined value is false, undefined is null. */
  lemma CheckboxCast(v: JsValue)
    ensures CastValue(Checkbox, Str("true")) == Bool(true)
    ensures v != Undef && v != Str("true") ==> CastValue(Checkbox, v) == Bool(false)
    ensures CastValue(Checkbox, Undef) == Null
  {
  }

  /** Checkbox casting is not idempotent: a cast `true` is not the string "true", so a second
      cast turns it into false. */
  lemma CheckboxCastNotIdempotent()
    ensures CastValue(Checkbox, CastValue(Checkbox, Str("true"))) == Bool(false)
  {
  }

  /** A required checkbox fails as required exactly when its cast value is falsy; any other
      checkbox passes. */
  lemma RequiredCheckbox(spec: FieldSpec, v: JsValue)
    requires spec.kind == Checkbox
    ensures Validation(spec, v).1 != Passed <==> spec.required && CastValue(Checkbox, v) != Bool(true)
    ensures Validation(spec, v).1 != Passed ==> Validation(spec, v).1 == Reject(spec, RequiredError)
  {
  }

  /** TextAreaField and PasswordField behave as TextField; only their type tag differs. */
  lemma TextAreaAndPasswordAreText(spec: FieldSpec, v: JsValue)
    requires spec.kind == TextArea || spec.kind == Password
    ensures Validation(spec, v) == Validation(spec.(kind := Text), v)
    ensures TypeTag(spec.kind) != TypeTag(Text)
  {
  }

  // As written, src/fields.ts reads its default messages from `Form.errors`, which
  // src/form.ts does not define (its table is `Form.errorMessages`).

  /** The message lookup as written: with no custom error it reads a property of undefined. */
  function MessageAsWritten(error: Option<string>, key: ErrorKey): (e: Exception)
    ensures e.FieldError? <==> error.Some? && error.value != ""
    ensures e.FieldError? ==> e.message == MessageFor(error, key)
    ensures e.TypeError? ==> e.message != MessageFor(error, key)
  {
    if error.Some? && error.value != "" then FieldError(error.value)
    else TypeError("Cannot read properties of undefined (reading '" + KeyName(key) + "')")
  }

  /** As written, a failing check without a custom error throws a TypeError instead of a
      FieldError carrying the default message: a required text field holding "" reaches the
      required check, whose message lookup reads `required` of undefined. */
  lemma AsWrittenLookupThrows(spec: FieldSpec, key: ErrorKey)
    requires IsTextLike(spec.kind) && spec.required && spec.error.None?
    ensures MessageAsWritten(None, key).TypeError?
    ensures Validation(spec, Str("")).1 == Threw(FieldError("Field is required"))
    ensures MessageAsWritten(spec.error, RequiredError) ==
            TypeError("Cannot read properties of undefined (reading 'required')")
  {
    assert "Cannot read properties of undefined (reading '" + "required" + "')" ==
           "Cannot read properties of undefined (reading 'required')";
  }
}
