# zluvo/forms: field validation and casting, in Dafny

This project models the form-field validation and casting pipeline of zluvo/forms. The repository holds three generations of that pipeline, and each is modelled:

- **The class-based fields and form of `src/`.**
  - `src/fields.ts` has seven field classes. Each `cast()` normalises the field's mutable `value` in place, and `validate()` casts, then runs the required check and the type's own check. A failure throws one `FieldError` whose message is the field's custom `error` or a default from the message table.
  - `src/form.ts` holds that table (`Form.errorMessages`), `fields()` (which writes each field's key into its `name`) and `consume`. `consume` validates each submitted value in key order and stops at the first failure.
- **The older compiled copy in `dist/index.js`.** Its field classes cast and validate slightly differently. Its `Form.consume` does not stop at a failure: it collects every field's message, keeps a field's previous value when nothing truthy was submitted, and throws when a field is keyed `name`.
- **The builder generation.** `field.create` and the typed builders are in `src/field.ts` and, compiled, in `dist/index.mjs`; the two copies differ only in that `src/field.ts` seals each definition with `Object.seal`. `form.create` is in `dist/index.mjs`. Validators are schemas of the zod validation library, so `form.create` validates each field with a schema and succeeds only as a whole. It keeps a plugin list and the last validated data in its closure.

## Modules

- **`Js`**:
  - the JavaScript values a field holds: undefined, null, strings, numbers as integers plus NaN, and booleans;
  - truthiness and `Number(...)`;
  - `FormData.get` over a submission, modelled as a map from key to string.
- **`Patterns`**: the email, url and telephone regular expressions, each as the set of strings it accepts.
- **`Messages`**: the default message table. It is the same in `src/form.ts` and `dist/index.js`.
- **`Fields`**: `src/fields.ts`.
  - The class `Field` has the constant `spec` (its kind, bounds, `required` and `error`) and the mutable `value` and `name`.
  - `Cast` and `Validate` are proved against the functions `CastValue` and `Validation`.
  - A thrown exception is an `Outcome`. JavaScript TypeErrors (`null.length`, `null.match`) are kept apart from `FieldError`s, because `consume` catches both.
- **`SrcForm`**: `src/form.ts`. `Form.Fields` and `Form.Consume` are loops over the form's keys and fields. They are proved against `FirstFailure` and `ConsumeResult`.
- **`DistIndex`**: `dist/index.js`.
  - It has its own `Field` class and `Form` class.
  - `Form.Consume` is proved against `ConsumeResult`, which is built on `Errors`.
  - `Errors` is the list of failure messages in field order.
- **`Zod`**: the schemas the builders use.
  - `z.string()`, `z.string().email()`, `z.coerce.number()`, `.refine`, and any schema a caller supplies.
  - What each schema does to one value is stated as `Parse`.
  - The library's email test and caller-supplied schemas are given functions (`Oracle`).
- **`Builder`**: `field.create` and its builders.
- **`FormFactory`**:
  - `form.create`: the name back-fill, the all-or-nothing `ValidateAll`, and the class `FormInstance` whose `validatedData` and `plugins` change in place.

## Behaviour worth noting

The model follows the code as written, including where it behaves differently from what its names suggest:

- **Casting is not always idempotent.** A checkbox's cast `true` is not the string `"true"`, so a second cast yields `false`. A number field holding undefined becomes null, and a second cast makes it 0. See `Fields.CheckboxCastNotIdempotent` and `Fields.NumberCastTwice`.
- **`src/form.ts` calls `validate(value)` and uses `cast(value)` as a value.** The field methods take no argument and return nothing. The model reads the call as intended: the submitted value is given to the field and validated, and the data and the field then hold its cast. The behaviour as written is under Findings.
- **`src/fields.ts` reads its defaults from `Form.errors`.** `src/form.ts` names its table `Form.errorMessages`. The model uses the table, whose strings are the same as those of `Form.errors` in `dist/index.js`. The lookup as written is under Findings.

## Model

| member | source | states |
|---|---|---|
| `Js.ToNumber` | src/fields.ts:151 | `Number(v)` is always a number or NaN; numbers are unchanged; undefined and NaN give NaN |
| `Js.ParseNumberRoundTrip` | src/fields.ts:151 | `Number(String(n)) == n` for every integer n |
| `Js.FalsyValues` | src/fields.ts:105 | the falsy values that `!this.value` tests for are exactly undefined, null, "", 0, NaN and false |
| `Patterns.TelephoneFromGroups` | src/field.ts:56 | three digits, a dash, three digits, a dash and four digits always match the telephone pattern |
| `Patterns.TelephoneGroups` | src/field.ts:56 | every match of the telephone pattern splits into those digit groups |
| `Patterns.EmailAccepted` | src/fields.ts:186-189 | "a@b.com" matches the email pattern |
| `Patterns.EmailRejected` | src/fields.ts:186-189 | "not-an-email" does not match the email pattern |
| `Messages.DefaultMessagesDistinct` | src/form.ts:10-20 | the eight default messages are pairwise distinct |
| `Fields.Field.TextField` | src/fields.ts:71-94 | a text-like field starts with the given properties, the given value or undefined, and no name |
| `Fields.Field.NumberField` | src/fields.ts:121-145 | a number field starts with its bounds and the given value or undefined |
| `Fields.Field.CheckboxField` | src/fields.ts:229-251 | a checkbox starts with the given value or undefined |
| `Fields.Field.Cast` | src/fields.ts:96-100 | the new value is the kind's cast of the old value |
| `Fields.Field.ValidateText` | src/fields.ts:102-112 | TextField.validate leaves the cast value and yields the required and then maxlength verdict on it |
| `Fields.Field.MatchValue` | src/fields.ts:186-192 | a string is tested against the pattern; calling `match` on null or a non-string throws a TypeError |
| `Fields.Field.ValidateNumber` | src/fields.ts:155-167 | NumberField.validate leaves the cast value and yields the required, then min, else max verdict |
| `Fields.Field.Validate` | src/fields.ts:102-266 | each class's validate leaves `Validation(spec, old value)`: the cast value and the verdict on it |
| `Fields.CustomErrorOverrides` | src/fields.ts:106 | a non-empty custom error replaces the default message; an absent or empty one leaves the default |
| `Fields.TextCastIdempotent` | src/fields.ts:96-100 | text casting maps only undefined (to null), so casting twice is casting once |
| `Fields.RequiredTextRejectsBlank` | src/fields.ts:105-107 | a required text-like field holding "", null or undefined fails with the required message |
| `Fields.MaxLengthBoundary` | src/fields.ts:109-111 | the maxlength check fails iff maxlength is truthy and the length is strictly greater; length == maxlength passes |
| `Fields.MaxLengthOnNullThrowsTypeError` | src/fields.ts:108-109 | an optional field with a truthy maxlength and no value throws a TypeError, not a FieldError |
| `Fields.NumberCastRoundTrip` | src/fields.ts:147-153 | casting the decimal text of an integer gives that integer, and so does casting it twice |
| `Fields.NumberCastTwice` | src/fields.ts:147-153 | number casting is idempotent except on undefined, which becomes null and then 0 |
| `Fields.RequiredNumberRejectsFalsy` | src/fields.ts:158-160 | a required number field whose cast is null, 0 or NaN fails with the required message |
| `Fields.NonNumericIsNaN` | src/fields.ts:151 | "asdf" casts to NaN, so a required number field rejects it |
| `Fields.NumberBounds` | src/fields.ts:162-166 | a number passes iff it lies within the defined bounds (inclusive); min is checked first and reported alone |
| `Fields.OptionalNumberNullComparesAsZero` | src/fields.ts:162-165 | an empty optional number holds null, which fails min iff min is positive and max iff max is negative |
| `Fields.EmailChecksTextFirst` | src/fields.ts:182-193 | email validation reports a text-check failure first; otherwise a string passes iff it matches the email pattern |
| `Fields.UrlChecksTextFirst` | src/fields.ts:209-220 | url validation reports a text-check failure first; otherwise a string passes iff it contains http(s):// and a non-space character |
| `Fields.PatternOnNullThrowsTypeError` | src/fields.ts:183-187 | an optional, empty email or url field without a maxlength throws a TypeError from calling `match` on null |
| `Fields.EmailFieldExamples` | src/fields.ts:186-191 | "a@b.com" passes an email field and "not-an-email" fails it with the email message |
| `Fields.CheckboxCast` | src/fields.ts:253-259 | "true" casts to true, any other defined value to false, undefined to null |
| `Fields.CheckboxCastNotIdempotent` | src/fields.ts:253-259 | casting "true" twice yields false |
| `Fields.RequiredCheckbox` | src/fields.ts:261-266 | a checkbox fails iff it is required and its cast is not true, and then with the required message |
| `Fields.TextAreaAndPasswordAreText` | src/fields.ts:172-201 | text area and password fields validate as text fields and differ only in their type tag |
| `Fields.AsWrittenLookupThrows` | src/fields.ts:105-106 | a required text field holding "" with no custom error reaches the required check, whose lookup as written throws `TypeError("Cannot read properties of undefined (reading 'required')")` instead of `FieldError("Field is required")` |
| `Fields.MessageAsWritten` | src/fields.ts:106 | the lookup as written yields a FieldError exactly when a non-empty custom error is set, and then with the intended message; otherwise a TypeError whose message is not the intended one |
| `SrcForm.FirstFailure` | src/form.ts:62-77 | the position of the first field whose validation throws: every field before it passes |
| `SrcForm.ConsumeResult` | src/form.ts:54-84 | `consume` ends with an error message exactly when some active field fails, and then with the first failing field's message |
| `SrcForm.ConsumeSucceedsIffNoFailure` | src/form.ts:62-83 | `consume` returns data exactly when no active field's validation throws |
| `SrcForm.ConsumeReportsFirstFailure` | src/form.ts:72-77 | on failure `consume` returns the message of the first failing field, every earlier field having passed |
| `SrcForm.ConsumeDataIsCast` | src/form.ts:70-83 | on success the data has exactly one entry per active key, holding the cast of the submitted value |
| `SrcForm.Form.constructor` | src/form.ts:58-59 | a form is its keys and the values stored under them; distinct property names and distinct field objects make it `Valid` |
| `SrcForm.Form.Fields` | src/form.ts:33-48 | returns the values in key order and sets each field's name to its non-empty key; no other name changes |
| `SrcForm.Form.SubmitAt` | src/form.ts:68-71 | one step: the field takes the submitted value and is left with its cast, with the outcome of validating it |
| `SrcForm.Form.StepAt` | src/form.ts:63-79 | one turn of the loop: an active field's failure ends `consume` with its message, a pass adds its cast value under its key and `consume` goes on; only that field's value changes |
| `SrcForm.Form.Consume` | src/form.ts:54-84 | returns `ConsumeResult`; fields up to and including the first failure hold their cast submission, later fields are untouched |
| `SrcForm.AsWrittenLosesSubmission` | src/form.ts:69-71 | as written, a submitted "abc" reaches the data as undefined; as intended it reaches it as "abc" |
| `SrcForm.ConsumeAsWritten` | src/form.ts:62-83 | `consume` as written: every value it stores in the data is undefined, and keys already stored stay (failure messages use the intended lookup) |
| `DistIndex.Field.TextField` | dist/index.js:176-189 | a text-like field starts with the given properties and value |
| `DistIndex.Field.NumberField` | dist/index.js:204-217 | a number field starts with its bounds and value |
| `DistIndex.Field.CheckboxField` | dist/index.js:264-277 | a checkbox starts with the given value |
| `DistIndex.Field.Cast` | dist/index.js:190-192 | the new value is this variant's cast of the old value |
| `DistIndex.Field.ValidateText` | dist/index.js:193-202 | TextField.validate leaves the cast value and yields the required and then maxlength verdict |
| `DistIndex.Field.MatchValue` | dist/index.js:242-246 | a string is tested against the pattern; `match` on null or a non-string throws a TypeError |
| `DistIndex.Field.ValidateNumber` | dist/index.js:221-232 | NumberField.validate leaves the cast value and yields the number-message, then min, else max verdict |
| `DistIndex.Field.Validate` | dist/index.js:193-289 | each class's validate leaves `Validation(spec, old value)` |
| `DistIndex.TextCastBlankIsNull` | dist/index.js:190-192 | text casting maps exactly the falsy values, "" included, to null; casting twice is casting once |
| `DistIndex.RequiredNumberReportsNumberMessage` | dist/index.js:223-224 | a required number field with a falsy cast fails with the number message |
| `DistIndex.ZeroBoundsIgnored` | dist/index.js:227-230 | a bound of 0 behaves exactly as no bound |
| `DistIndex.CheckboxAlwaysNull` | dist/index.js:278-289 | the checkbox cast always leaves null: a required checkbox always fails, an optional one always passes |
| `DistIndex.Contribution` | dist/index.js:101-106 | a field adds at most one message, and adds one exactly when it fails |
| `DistIndex.FirstReserved` | dist/index.js:96-99 | the position of the first field keyed `name`; no earlier field has that key |
| `DistIndex.ErrorsAreFailureMessages` | dist/index.js:101-106 | every message in `errors` is the message of some failing field |
| `DistIndex.ConsumeResult` | dist/index.js:89-125 | `consume` throws exactly when a key is `name`; otherwise it reports `Errors`, is valid exactly when there are none, and records exactly when invalid with `record` set |
| `DistIndex.ErrorsAppend` | dist/index.js:93-108 | the errors of consecutive runs of fields are concatenated: a failure never stops the loop |
| `DistIndex.ErrorsEmptyIffNoFailure` | dist/index.js:93-108 | the error list is empty exactly when no field fails, and has at most one message per field |
| `DistIndex.ConsumeReport` | dist/index.js:109-124 | valid iff no errors iff no field fails; invalid reports have no values; valid ones list every field's value; recorded iff errors and `record` |
| `DistIndex.FirstReservedFinds` | dist/index.js:96-99 | some field is keyed `name` iff the search for the first one finds it |
| `DistIndex.ReservedNameThrows` | dist/index.js:96-99 | `consume` throws the reserved-name error exactly when some field is keyed `name` |
| `DistIndex.SubmissionFallback` | dist/index.js:100 | a missing or empty submission keeps the field's value; any other replaces it |
| `DistIndex.RequiredFieldExample` | dist/index.js:112-117 | one required text field and nothing submitted: invalid, `["Field is required"]`, no values |
| `DistIndex.RequiredBesideNumberExample` | dist/index.js:93-117 | a required text field left empty beside a filled number field: invalid with only the required message and no values |
| `DistIndex.Form.constructor` | dist/index.js:90-91 | a form is its keys and the fields stored under them; distinct property names and distinct field objects make it `Valid` |
| `DistIndex.Form.ProcessAt` | dist/index.js:100-106 | one step: the field takes the submission or keeps its value, validates, and contributes its message |
| `DistIndex.Form.VisitAt` | dist/index.js:94-107 | one turn of the loop: a field with an empty key is skipped, any other is processed and its failure message appended to `errors` (the `name` check is left to `VisitFields`); only that field's value changes |
| `DistIndex.Form.FieldValues` | dist/index.js:122 | the fields' current values in key order |
| `DistIndex.Form.VisitFields` | dist/index.js:93-108 | the loop collects `Errors`, throws iff a key is `name`, and leaves each field before that key processed |
| `DistIndex.Form.Consume` | dist/index.js:89-125 | returns `ConsumeResult` of the form as it stood, and leaves fields before a reserved key processed and the rest untouched |
| `Zod.ParseString` | src/field.ts:4 | the string schema accepts exactly strings, unchanged, and otherwise raises one issue |
| `Zod.Parse` | src/field.ts:4-59 | `parseAsync`: the string and email schemas output only the string they were given; the number schema succeeds iff `Number` gives a number, and outputs it; a refinement's output satisfies its check and is its base's output; a failed check on a parsed value raises only the refinement's message |
| `Zod.StringSchema` | src/field.ts:4 | the string schema rejects null as "Expected string, received null" and undefined as "Required" |
| `Zod.EmailSchema` | src/field.ts:45 | the email schema accepts exactly the strings the library's email test accepts |
| `Zod.CoerceNumberSchema` | src/field.ts:37 | the coercing schema accepts whatever `Number` makes a number: null and "" become 0, undefined is rejected |
| `Zod.RefinedSchema` | src/field.ts:17-23 | a refined schema accepts what its base accepts and its check holds of; a failed check raises only its message |
| `Builder.GuardedMeaning` | src/field.ts:15-24 | an optional field's validator parses every value as the chosen one; a required field's rejects with "Field is required." exactly what the chosen one turns into "", undefined or null, and otherwise parses as it |
| `Builder.Create` | src/field.ts:7-32 | the definition keeps the type tag, `required` and the value, carries the chosen validator guarded by `required`, and takes the given non-empty name or "" |
| `Builder.Text` | src/field.ts:33-35 | type "text", validated by the caller's validator or else as a string, guarded by `required` |
| `Builder.Number` | src/field.ts:36-38 | type "number", validated by the caller's validator or else by number coercion, guarded by `required` |
| `Builder.TextArea` | src/field.ts:40-42 | type "textarea", validated by the caller's validator or else as a string, guarded by `required` |
| `Builder.Email` | src/field.ts:44-46 | type "email", validated by the caller's validator or else as an email address, guarded by `required` |
| `Builder.Password` | src/field.ts:48-50 | type "password", validated by the caller's validator or else as a string, guarded by `required` |
| `Builder.Telephone` | src/field.ts:52-59 | type "tel", validated by the caller's validator or else by the ddd-ddd-dddd format, guarded by `required` |
| `Builder.CreateCopiesParams` | src/field.ts:26-31 | the definition copies the parameters, takes the given name or "", carries a validator and the type tag |
| `Builder.OptionalKeepsValidator` | src/field.ts:15 | without `required` the definition parses every value as the chosen validator |
| `Builder.RequiredRejectsBlank` | src/field.ts:15-24 | with `required`, "Field is required." is raised exactly for values the chosen validator turns into "", undefined or null |
| `Builder.RequiredTextExamples` | src/field.ts:33-35 | a required text field rejects "" as required and null as not a string, and accepts "x" |
| `Builder.RequiredNumberAcceptsMissing` | src/field.ts:36-38 | a required number field accepts an empty or missing submission as 0 |
| `Builder.BuilderTypeTags` | src/field.ts:33-60 | each builder sets its own, distinct type tag |
| `Builder.BuilderDefaults` | src/field.ts:33-60 | the builders' default validators: string, coerced number, email, telephone format |
| `Builder.TelephoneAcceptsExactly` | src/field.ts:52-59 | the telephone validator accepts exactly the strings ddd-ddd-dddd and rejects others with its format message |
| `Builder.TelephoneExamples` | src/field.ts:56 | "555-123-4567" is accepted, "5551234567" is rejected |
| `Builder.ExplicitValidatorWins` | dist/index.mjs:9-17 | a validator the caller passes is used, refined when the field is required |
| `FormFactory.Backfill` | dist/index.mjs:58-67 | the fields keep registration order; a field with an empty name gets its key, any other keeps its name |
| `FormFactory.ValidateAll` | dist/index.mjs:68-85 | success means no field is rejected, and its data has only registration keys; a failure carries the issues of some rejected field |
| `FormFactory.FirstRejection` | dist/index.mjs:70-80 | the position of the first field whose value is rejected: every earlier field parses |
| `FormFactory.ValidateAllOutcome` | dist/index.mjs:68-85 | validation succeeds iff no field is rejected; a failure carries the first rejected field's issues |
| `FormFactory.ValidateAllData` | dist/index.mjs:70-82 | on success the data has exactly the registration keys, each holding its field's parsed value |
| `FormFactory.ValidationIgnoresNames` | dist/index.mjs:72-73 | values are looked up by registration key: renaming a definition does not change the result |
| `FormFactory.NoValidatorPassesRaw` | dist/index.mjs:74-78 | a field without a validator passes the submitted value, or null, through |
| `FormFactory.MissingSubmissions` | dist/index.mjs:73-78 | nothing submitted: an optional number field yields 0, a text field fails the form |
| `FormFactory.FormInstance.Create` | dist/index.mjs:53-67 | a new form has the back-filled fields, no plugins and no validated data |
| `FormFactory.FormInstance.Validate` | dist/index.mjs:68-86 | returns `ValidateAll`; `validatedData` is replaced on success and kept on failure |
| `FormFactory.FormInstance.AddPlugin` | dist/index.mjs:88-90 | appends the plugin |
| `FormFactory.FormInstance.RunPlugins` | dist/index.mjs:91-95 | no call without validated data; otherwise every plugin, in order, called with it |

## Left out

- `src/security.ts` (HMAC tokens, random identifiers, an environment secret) is not part of this model.
- The logger (`src/logger.ts` and its inlined copy in `dist/index.js`) writes to the console and posts over HTTP. `DistIndex.Form.Consume` (through `DistIndex.ConsumeResult`) reports only whether it would be called (`recorded`).
- `Form.name` (the class name by reflection), `Form.settings` and the `crsf` field that one test expects are not modelled. The `crsf` field appears in no implementation.
- The `fields` getter of `dist/index.js` returns the form's values unchanged. It is `DistIndex.Form.members`.
- Numbers are integers plus NaN. `Number(...)` on a string reads optionally signed decimal digits after trimming white space, and "" is 0. Fractions, exponents, hexadecimal, `Infinity` and floating-point comparison are not modelled. Such text becomes NaN in the model.
- String lengths count characters, not UTF-16 code units.
- A submission maps each key to one string. File values and repeated keys of `FormData` are not modelled.
- Form properties are modelled as fields, or as null in `src/form.ts`. A property that is some other kind of value (its `validate` is not a function) is not modelled. The same field object stored under two keys (aliasing) is excluded by `Valid()`.
- The order of `Object.keys` is taken as given. JavaScript's placement of integer-like keys first is not modelled.
- The zod library is abstracted:
  - Its email test and caller-supplied schemas are given functions.
  - Its error for a failed `validate` is the list of issue messages, not the JSON text of `ZodError.message`.
  - A refinement runs only after its base schema succeeded. Zod's continuation on non-fatal issues is not modelled.
- `form.create`'s `validate` and `plugins.run` are asynchronous (`Promise.all`).
  - The model runs them in sequence.
  - A failure reports the first rejected field in registration order, where `Promise.all` reports the first rejection in completion order.
  - Plugins are identified by number, and their effects are outside the model.
- Object sealing (`Object.seal`) and the type-level declarations (`src/types.ts`, `dist/index.d.ts`) are not modelled.

## Findings

| source | as written | input that shows it | evidently intended | confidence | as-written member | corrected member |
|---|---|---|---|---|---|---|
| src/form.ts:69-71 | `validate(value)` ignores its argument and `cast(value)` returns undefined, so `data[name]` becomes undefined | an optional text field "x" holding undefined, submission x = "abc": data is `{x: undefined}` | the submitted value is validated, and the data and the field hold its cast: `{x: "abc"}` | high (not executed) | `SrcForm.AsWrittenLosesSubmission` | `SrcForm.ConsumeDataIsCast` |
| src/fields.ts:106 | the default messages are read from `Form.errors`, which `src/form.ts` does not define (its table is `Form.errorMessages`) | any failing check on a field without a custom error: reading `required` of undefined throws a TypeError | a `FieldError` carrying the table's default message | high (not executed) | `Fields.AsWrittenLookupThrows` | `Fields.CustomErrorOverrides` |
| dist/index.js:278-283 | `cast()` sets the value from "true" and then unconditionally overwrites it with null | a required checkbox submitted as "true" fails with "Value is not true or false" | "true" casts to true and passes, as `src/fields.ts:253-259` does | high (not executed) | `DistIndex.CheckboxAlwaysNull` | `Fields.RequiredCheckbox` |
