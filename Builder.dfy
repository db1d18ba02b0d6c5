/**
  The field builders of src/field.ts and of their compiled copy in dist/index.mjs: `create`
  builds a field definition from the caller's parameters, choosing its validator and
  refining it when the field is required; the typed builders fix the type tag and the
  default validator. The two copies differ only in that src/field.ts seals the definition
  (`Object.seal`), which does not change its contents.
 */
module Builder {
  import opened Js
  import opened Zod
  import Patterns

  /** The parameters a caller passes. `required` absent is `false`. */
  datatype FieldParams = FieldParams(
    name: Option<string>,
    labelText: string,
    placeholder: string,
    value: Option<JsValue>,
    validation: Option<Validator>,
    required: bool)

  /** A field definition: the parameters with `name` settled, the validator chosen and the
      type tag added. A definition written by hand may lack a validator. */
  datatype FieldDef = FieldDef(
    name: string,
    labelText: string,
    placeholder: string,
    value: Option<JsValue>,
    validation: Option<Validator>,
    required: bool,
    typeTag: string)

  const RequiredMessage := "Field is required."
  const TelephoneMessage := "Invalid telephone number format."

  /** `params.validation || defaultValidation || DEFAULT_VALIDATION` (a schema is never falsy). */
  function ChosenValidator(params: FieldParams, default: Option<Validator>): (val: Validator)
    ensures params.validation.Some? ==> val == params.validation.value
    ensures params.validation.None? && default.Some? ==> val == default.value
    ensures params.validation.None? && default.None? ==> val == ZString
  {
    if params.validation.Some? then params.validation.value
    else if default.Some? then default.value
    else ZString
  }

  /** The validator a definition carries: the chosen one, refined to refuse blank values
      when the field is required. */
  function Guarded(required: bool, val: Validator): (g: Validator)
    ensures !required ==> g == val
    ensures required ==> g.Refined? && g.base == val && g.check == NotBlank && g.message == RequiredMessage
  {
    if required then Refined(val, NotBlank, RequiredMessage) else val
  }

  /** What a guarded validator does to a value: an optional field parses as `val`; a
      required one rejects with "Field is required." what `val` turns into "", undefined or
      null, and otherwise parses as `val`. */
  lemma GuardedMeaning(o: Oracle, required: bool, val: Validator, v: JsValue)
    ensures var b := Parse(o, val, v);
      Parse(o, Guarded(required, val), v) ==
        if required && b.Parsed? && b.value in {Str(""), Undef, Null} then Rejected([RequiredMessage]) else b
  {
  }

  /** `field.create(type, params, defaultValidation)`. */
  function Create(typeTag: string, params: FieldParams, default: Option<Validator>): (d: FieldDef)
    ensures d.typeTag == typeTag && d.required == params.required && d.value == params.value
    ensures d.validation == Some(Guarded(params.required, ChosenValidator(params, default)))
    ensures params.name.Some? && params.name.value != "" ==> d.name == params.name.value
    ensures params.name.None? ==> d.name == ""
  {
    var chosen := ChosenValidator(params, default);
    var validation := Guarded(params.required, chosen);
    FieldDef(
      if params.name.Some? then params.name.value else "",
      params.labelText, params.placeholder, params.value, Some(validation), params.required, typeTag)
  }

  const TelephoneValidator := Refined(ZString, TelephoneFormat, TelephoneMessage)

  /** `field.text`: a text field validated as a string unless the caller says otherwise. */
  function Text(params: FieldParams): (d: FieldDef)
    ensures d.typeTag == "text"
    ensures d.validation == Some(Guarded(params.required, ChosenValidator(params, None)))
  {
    Create("text", params, None)
  }

  /** `field.number`: coerces the submitted value to a number by default. */
  function Number(params: FieldParams): (d: FieldDef)
    ensures d.typeTag == "number"
    ensures d.validation == Some(Guarded(params.required, ChosenValidator(params, Some(ZCoerceNumber))))
  {
    Create("number", params, Some(ZCoerceNumber))
  }

  /** `field.textArea`: validated as a string by default. */
  function TextArea(params: FieldParams): (d: FieldDef)
    ensures d.typeTag == "textarea"
    ensures d.validation == Some(Guarded(params.required, ChosenValidator(params, None)))
  {
    Create("textarea", params, None)
  }

  /** `field.email`: validated as an email address by default. */
  function Email(params: FieldParams): (d: FieldDef)
    ensures d.typeTag == "email"
    ensures d.validation == Some(Guarded(params.required, ChosenValidator(params, Some(ZEmail))))
  {
    Create("email", params, Some(ZEmail))
  }

  /** `field.password`: validated as a string by default. */
  function Password(params: FieldParams): (d: FieldDef)
    ensures d.typeTag == "password"
    ensures d.validation == Some(Guarded(params.required, ChosenValidator(params, None)))
  {
    Create("password", params, None)
  }

  /** `field.telephone`: validated against the ddd-ddd-dddd format by default. */
  function Telephone(params: FieldParams): (d: FieldDef)
    ensures d.typeTag == "tel"
    ensures d.validation == Some(Guarded(params.required, ChosenValidator(params, Some(TelephoneValidator))))
  {
    Create("tel", params, Some(TelephoneValidator))
  }

  /** The definition copies the display parameters, the value and `required`, takes the
      given name or "" and always carries a validator. */
  lemma CreateCopiesParams(typeTag: string, params: FieldParams, default: Option<Validator>)
    ensures var d := Create(typeTag, params, default);
      && d.typeTag == typeTag
      && d.labelText == params.labelText && d.placeholder == params.placeholder
      && d.value == params.value && d.required == params.required
      && d.validation.Some?
      && (params.name.None? ==> d.name == "")
      && (params.name.Some? ==> d.name == params.name.value)
  {
  }

  /** Without `required`, the definition parses every value exactly as the chosen validator. */
  lemma OptionalKeepsValidator(o: Oracle, typeTag: string, params: FieldParams, default: Option<Validator>, v: JsValue)
    requires !params.required
    ensures Parse(o, Create(typeTag, params, default).validation.value, v) ==
            Parse(o, ChosenValidator(params, default), v)
  {
  }

  /** With `required`, the definition rejects with "Field is required." exactly the values
      the chosen validator turns into "", undefined or null, and otherwise parses as the
      chosen validator. */
  lemma RequiredRejectsBlank(o: Oracle, typeTag: string, params: FieldParams, default: Option<Validator>, v: JsValue)
    requires params.required
    ensures var r := Parse(o, Create(typeTag, params, default).validation.value, v);
      var b := Parse(o, ChosenValidator(params, default), v);
      && (b.Parsed? && b.value in {Str(""), Undef, Null} <==> r == Rejected(["Field is required."]) && b.Parsed?)
      && (b.Rejected? || b.value !in {Str(""), Undef, Null} ==> r == b)
  {
  }

  /** A required text field rejects an empty submission and a missing one, with the
      required message and the string check's message respectively. */
  lemma RequiredTextExamples(o: Oracle, params: FieldParams)
    requires params.required && params.validation.None?
    ensures Parse(o, Text(params).validation.value, Str("")) == Rejected(["Field is required."])
    ensures Parse(o, Text(params).validation.value, Null) == Rejected(["Expected string, received null"])
    ensures Parse(o, Text(params).validation.value, Str("x")) == Parsed(Str("x"))
  {
    StringSchema(o, Null);
  }

  /** A required number field accepts an empty or missing submission: `Number` turns both
      into 0, which is not blank. */
  lemma RequiredNumberAcceptsMissing(o: Oracle, params: FieldParams)
    requires params.required && params.validation.None?
    ensures Parse(o, Number(params).validation.value, Null) == Parsed(Num(0))
    ensures Parse(o, Number(params).validation.value, Str("")) == Parsed(Num(0))
  {
  }

  /** Each builder sets its own type tag, and the tags are distinct. */
  lemma BuilderTypeTags(params: FieldParams)
    ensures Text(params).typeTag == "text"
    ensures Number(params).typeTag == "number"
    ensures TextArea(params).typeTag == "textarea"
    ensures Email(params).typeTag == "email"
    ensures Password(params).typeTag == "password"
    ensures Telephone(params).typeTag == "tel"
    ensures |{Text(params).typeTag, Number(params).typeTag, TextArea(params).typeTag,
              Email(params).typeTag, Password(params).typeTag, Telephone(params).typeTag}| == 6
  {
  }

  /** The builders' default validators: strings for text, text area and password, the
      coercing number schema, the email schema and the telephone format. */
  lemma BuilderDefaults(params: FieldParams)
    requires !params.required && params.validation.None?
    ensures Text(params).validation == TextArea(params).validation == Password(params).validation == Some(ZString)
    ensures Number(params).validation == Some(ZCoerceNumber)
    ensures Email(params).validation == Some(ZEmail)
    ensures Telephone(params).validation == Some(TelephoneValidator)
  {
  }

  /** The telephone validator accepts exactly the strings of the form ddd-ddd-dddd,
      unchanged, and rejects other strings with its format message. */
  lemma TelephoneAcceptsExactly(o: Oracle, s: string)
    ensures Parse(o, TelephoneValidator, Str(s)).Parsed? <==> Patterns.IsTelephone(s)
    ensures Patterns.IsTelephone(s) ==> Parse(o, TelephoneValidator, Str(s)) == Parsed(Str(s))
    ensures !Patterns.IsTelephone(s) ==> Parse(o, TelephoneValidator, Str(s)) == Rejected([TelephoneMessage])
  {
  }

  /** "555-123-4567" is a telephone number; "5551234567" is not. */
  lemma TelephoneExamples(o: Oracle)
    ensures Parse(o, TelephoneValidator, Str("555-123-4567")) == Parsed(Str("555-123-4567"))
    ensures Parse(o, TelephoneValidator, Str("5551234567")) == Rejected(["Invalid telephone number format."])
  {
    Patterns.TelephoneFromGroups("555", "123", "4567");
    assert "555" + "-" + "123" + "-" + "4567" == "555-123-4567";
  }

  /** A validator the caller passes wins over the builder's default, required or not. */
  lemma ExplicitValidatorWins(typeTag: string, params: FieldParams, default: Option<Validator>)
    requires params.validation.Some?
    ensures var d := Create(typeTag, params, default);
      d.validation == Some(if params.required then Refined(params.validation.value, NotBlank, RequiredMessage)
                           else params.validation.value)
  {
  }
}
