/**
  The older, compiled variant of the class-based forms in dist/index.js. Its field classes
  cast and validate differently from src/fields.ts, and its `Form.consume` keeps going after
  a failure: it collects one message per failing field, keeps a field's previous value when
  nothing truthy was submitted, and refuses a field keyed `name`.
 */
module DistIndex {
  import opened Js
  import opened Messages
  import F = Fields
  import Patterns

  /** The `cast()` of each class in this variant. A falsy text value becomes null, a falsy
      number value becomes null, and the checkbox cast always ends by setting null. */
  function CastValue(kind: F.Kind, v: JsValue): JsValue {
    match kind
    case Number => if Truthy(v) then ToNumber(v) else Null
    case Checkbox => Null
    case _ => if Truthy(v) then v else Null
  }

  /** NumberField.validate after its cast: a falsy value of a required field fails with the
      number message; then min, else max, each checked only when truthy. */
  function NumberCheck(spec: F.FieldSpec, v: JsValue): F.Outcome {
    if spec.required && !Truthy(v) then F.Reject(spec, NumberError)
    else if F.IsSet(spec.min) && LessThan(v, spec.min.value) then F.Reject(spec, MinError)
    else if F.IsSet(spec.max) && GreaterThan(v, spec.max.value) then F.Reject(spec, MaxError)
    else F.Passed
  }

  /** The checks each class's `validate()` runs on the cast value. The text checks and the
      pattern checks are the same code as in src/fields.ts. */
  function CheckValue(spec: F.FieldSpec, v: JsValue): F.Outcome {
    match spec.kind
    case Number => NumberCheck(spec, v)
    case Checkbox => if spec.required && !Truthy(v) then F.Reject(spec, CheckboxError) else F.Passed
    case Email =>
      var t := F.TextCheck(spec, v);
      if t.Threw? then t else F.PatternCheck(spec, v, Patterns.IsEmailAddress, EmailError)
    case Url =>
      var t := F.TextCheck(spec, v);
      if t.Threw? then t else F.PatternCheck(spec, v, Patterns.HasHttpUrl, UrlError)
    case _ => F.TextCheck(spec, v)
  }

  /** `validate()` from a field holding `v`: the value it leaves behind, and its outcome. */
  function Validation(spec: F.FieldSpec, v: JsValue): (JsValue, F.Outcome) {
    var c := CastValue(spec.kind, v);
    (c, CheckValue(spec, c))
  }

  /** A field object of this variant. */
  class Field {
    const spec: F.FieldSpec
    var value: JsValue

    constructor TextField(kind: F.Kind, labelText: string, placeholder: string, value: Option<string>,
                          maxlength: Option<int>, required: bool, error: Option<string>)
      requires F.IsTextLike(kind)
      ensures spec == F.FieldSpec(kind, labelText, placeholder, maxlength, None, None, required, error)
      ensures this.value == (if value.Some? then Str(value.value) else Undef)
    {
      spec := F.FieldSpec(kind, labelText, placeholder, maxlength, None, None, required, error);
      this.value := if value.Some? then Str(value.value) else Undef;
    }

    constructor NumberField(labelText: string, placeholder: string, value: Option<int>,
                            min: Option<int>, max: Option<int>, required: bool, error: Option<string>)
      ensures spec == F.FieldSpec(F.Number, labelText, placeholder, None, min, max, required, error)
      ensures this.value == (if value.Some? then Num(value.value) else Undef)
    {
      spec := F.FieldSpec(F.Number, labelText, placeholder, None, min, max, required, error);
      this.value := if value.Some? then Num(value.value) else Undef;
    }

    constructor CheckboxField(labelText: string, placeholder: string, value: Option<bool>,
                              required: bool, error: Option<string>)
      ensures spec == F.FieldSpec(F.Checkbox, labelText, placeholder, None, None, None, required, error)
      ensures this.value == (if value.Some? then Bool(value.value) else Undef)
    {
      spec := F.FieldSpec(F.Checkbox, labelText, placeholder, None, None, None, required, error);
      this.value := if value.Some? then Bool(value.value) else Undef;
    }

    method Cast()
      modifies this`value
      ensures value == CastValue(spec.kind, old(value))
    {
      match spec.kind {
        case Number =>
          value := if Truthy(value) then ToNumber(value) else Null;
        case Checkbox =>
          if Truthy(value) {
            value := Bool(value == Str("true"));
          }
          value := Null;
        case _ =>
          value := if Truthy(value) then value else Null;
      }
    }

    /** TextField.validate: cast, then the required and maxlength checks. */
    method ValidateText() returns (outcome: F.Outcome)
      requires F.IsTextLike(spec.kind)
      modifies this`value
      ensures value == CastValue(spec.kind, old(value))
      ensures outcome == F.TextCheck(spec, value)
    {
      Cast();
      if spec.required && (!Truthy(value) || value == Str("")) {
        return F.Reject(spec, RequiredError);
      }
      if F.IsSet(spec.maxlength) {
        match value {
          case Str(s) =>
            if |s| > spec.maxlength.value {
              return F.Reject(spec, MaxLengthError);
            }
          case Undef =>
            return F.Threw(F.NothingError(value, "length"));
          case Null =>
            return F.Threw(F.NothingError(value, "length"));
          case _ =>
        }
      }
      return F.Passed;
    }

    /** The pattern test that EmailField and UrlField add after TextField.validate. */
    method MatchValue(matches: string -> bool, key: ErrorKey) returns (outcome: F.Outcome)
      ensures outcome == F.PatternCheck(spec, value, matches, key)
    {
      match value {
        case Str(s) =>
          outcome := if matches(s) then F.Passed else F.Reject(spec, key);
        case Undef =>
          outcome := F.Threw(F.NothingError(value, "match"));
        case Null =>
          outcome := F.Threw(F.NothingError(value, "match"));
        case _ =>
          outcome := F.Threw(F.NotAFunction("match"));
      }
    }

    /** NumberField.validate: cast, required, then min or else max. */
    method ValidateNumber() returns (outcome: F.Outcome)
      requires spec.kind == F.Number
      modifies this`value
      ensures value == CastValue(spec.kind, old(value))
      ensures outcome == NumberCheck(spec, value)
    {
      Cast();
      if spec.required && !Truthy(value) {
        return F.Reject(spec, NumberError);
      }
      if F.IsSet(spec.min) && LessThan(value, spec.min.value) {
        return F.Reject(spec, MinError);
      } else if F.IsSet(spec.max) && GreaterThan(value, spec.max.value) {
        return F.Reject(spec, MaxError);
      }
      return F.Passed;
    }

    /** `validate()` of the field's class. */
    method Validate() returns (outcome: F.Outcome)
      modifies this`value
      ensures (value, outcome) == Validation(spec, old(value))
    {
      match spec.kind {
        case Number =>
          outcome := ValidateNumber();
        case Checkbox =>
          Cast();
          outcome := if spec.required && !Truthy(value) then F.Reject(spec, CheckboxError) else F.Passed;
        case Email =>
          outcome := ValidateText();
          if outcome == F.Passed {
            outcome := MatchValue(Patterns.IsEmailAddress, EmailError);
          }
        case Url =>
          outcome := ValidateText();
          if outcome == F.Passed {
            outcome := MatchValue(Patterns.HasHttpUrl, UrlError);
          }
        case _ =>
          outcome := ValidateText();
      }
    }
  }

  // Properties of the field classes of this variant.

  /** Text casting maps every falsy value, "" included, to null and keeps the rest; casting
      twice is casting once. */
  lemma TextCastBlankIsNull(kind: F.Kind, v: JsValue)
    requires F.IsTextLike(kind)
    ensures CastValue(kind, v) == Null <==> !Truthy(v)
    ensures Truthy(v) ==> CastValue(kind, v) == v
    ensures CastValue(kind, CastValue(kind, v)) == CastValue(kind, v)
    ensures CastValue(kind, Str("")) == Null && F.CastValue(kind, Str("")) == Str("")
  {
  }

  /** A required number field whose cast value is falsy fails with the number message, where
      src/fields.ts reports the required message. */
  lemma RequiredNumberReportsNumberMessage(spec: F.FieldSpec, v: JsValue)
    requires spec.kind == F.Number && spec.required
    requires !Truthy(CastValue(F.Number, v))
    ensures Validation(spec, v).1 == F.Reject(spec, NumberError)
    ensures spec.error.None? ==> Validation(spec, v).1 == F.Threw(F.FieldError("Value is not a valid number"))
  {
  }

  /** A bound of 0 is falsy and therefore ignored: it behaves as no bound at all. */
  lemma ZeroBoundsIgnored(spec: F.FieldSpec, v: JsValue)
    requires spec.kind == F.Number
    ensures spec.min == Some(0) ==> Validation(spec, v) == Validation(spec.(min := None), v)
    ensures spec.max == Some(0) ==> Validation(spec, v) == Validation(spec.(max := None), v)
    ensures !spec.required && spec.min == Some(0) && spec.max == None ==> Validation(spec, Num(-5)).1 == F.Passed
  {
  }

  /** The checkbox cast always leaves null, so a required checkbox always fails with the
      checkbox message and an optional one always passes, whatever was submitted. */
  lemma CheckboxAlwaysNull(spec: F.FieldSpec, v: JsValue)
    requires spec.kind == F.Checkbox
    ensures Validation(spec, v).0 == Null
    ensures Validation(spec, v).1 == F.Passed <==> !spec.required
    ensures spec.required ==> Validation(spec, v).1 == F.Reject(spec, CheckboxError)
    ensures spec.required ==> Validation(spec, Str("true")).1 != F.Passed
  {
  }

  // The form.

  /** One property of a form before `consume`: its key, the field's constant part and its value. */
  datatype Slot = Slot(key: string, spec: F.FieldSpec, value: JsValue)

  /** `formData.get(name) || field.value`: a falsy submission keeps the previous value. */
  function Submitted(sub: Submission, key: string, current: JsValue): JsValue {
    var got := Get(sub, key);
    if Truthy(got) then got else current
  }

  /** Validating the slot's field after taking the submitted value. */
  function Process(s: Slot, sub: Submission): (JsValue, F.Outcome) {
    Validation(s.spec, Submitted(sub, s.key, s.value))
  }

  /** A slot with an empty key is skipped; any other is processed and fails when its
      validation throws. */
  predicate Fails(s: Slot, sub: Submission) {
    s.key != "" && Process(s, sub).1.Threw?
  }

  /** The message a slot adds to `errors`: its exception's message when it fails, else none. */
  function Contribution(s: Slot, sub: Submission): (m: seq<string>)
    ensures |m| <= 1
    ensures m != [] <==> Fails(s, sub)
  {
    if Fails(s, sub) then [Process(s, sub).1.exception.message] else []
  }

  /** The value a slot's field holds after the loop has passed it. */
  function After(s: Slot, sub: Submission): JsValue {
    if s.key == "" then s.value else Process(s, sub).0
  }

  /** The values the fields hold once the loop has visited the first `i` slots: processed
      before `i`, untouched from `i` on. */
  function Visit(slots: seq<Slot>, i: nat, sub: Submission): (vs: seq<JsValue>)
    requires i <= |slots|
  {
    seq(|slots|, j requires 0 <= j < |slots| => if j < i then After(slots[j], sub) else slots[j].value)
  }

  /** Visiting one more slot updates that slot's value and no other; a slot with an empty
      key is skipped and keeps its value. */
  lemma VisitStep(slots: seq<Slot>, i: nat, sub: Submission)
    requires i < |slots|
    ensures Visit(slots, i + 1, sub) == Visit(slots, i, sub)[i := After(slots[i], sub)]
    ensures slots[i].key == "" ==> Visit(slots, i + 1, sub) == Visit(slots, i, sub)
  {
  }

  /** The `errors` array after the loop has visited `slots`, in slot order. */
  function Errors(slots: seq<Slot>, sub: Submission): seq<string> {
    if slots == [] then []
    else Errors(slots[..|slots| - 1], sub) + Contribution(slots[|slots| - 1], sub)
  }

  /** Every message in `errors` is the message of some failing field. */
  lemma {:induction false} ErrorsAreFailureMessages(slots: seq<Slot>, sub: Submission)
    ensures forall m :: m in Errors(slots, sub) ==>
      exists i :: 0 <= i < |slots| && Fails(slots[i], sub) && Contribution(slots[i], sub) == [m]
  {
    if slots != [] {
      var init := slots[..|slots| - 1];
      ErrorsAreFailureMessages(init, sub);
      forall m | m in Errors(slots, sub)
        ensures exists i :: 0 <= i < |slots| && Fails(slots[i], sub) && Contribution(slots[i], sub) == [m]
      {
        if m in Errors(init, sub) {
          var i :| 0 <= i < |init| && Fails(init[i], sub) && Contribution(init[i], sub) == [m];
          assert slots[i] == init[i];
        } else {
          assert Contribution(slots[|slots| - 1], sub) == [m];
        }
      }
    }
  }

  predicate HasReserved(slots: seq<Slot>) {
    exists i :: 0 <= i < |slots| && slots[i].key == "name"
  }

  /** The position of the first slot keyed `name`, or |slots|. */
  function FirstReserved(slots: seq<Slot>): (k: nat)
    ensures k <= |slots|
    ensures k < |slots| ==> slots[k].key == "name"
    ensures forall j :: 0 <= j < k ==> slots[j].key != "name"
  {
    if slots == [] then 0
    else if slots[0].key == "name" then 0
    else 1 + FirstReserved(slots[1..])
  }

  const ReservedMessage := "name is a reserved property. Use _name or something else."

  datatype Report = Report(valid: bool, errors: seq<string>, values: seq<JsValue>)

  /** What `consume` does: return a report (with whether the failure recorder was called),
      or throw the reserved-name error. */
  datatype Consumption = Returned(report: Report, recorded: bool) | ConfigurationError(message: string)

  function ConsumeResult(slots: seq<Slot>, sub: Submission, record: bool): (r: Consumption)
    ensures r.ConfigurationError? <==> HasReserved(slots)
    ensures r.Returned? ==> r.report.errors == Errors(slots, sub)
    ensures r.Returned? ==> (r.report.valid <==> r.report.errors == [])
    ensures r.Returned? ==> (r.recorded <==> !r.report.valid && record)
  {
    if HasReserved(slots) then ConfigurationError(ReservedMessage)
    else
      var errors := Errors(slots, sub);
      if errors != [] then Returned(Report(false, errors, []), record)
      else Returned(Report(true, [], seq(|slots|, i requires 0 <= i < |slots| => After(slots[i], sub))), false)
  }

  /** Adding one slot at the end adds that slot's contribution. */
  lemma ErrorsSnoc(slots: seq<Slot>, s: Slot, sub: Submission)
    ensures Errors(slots + [s], sub) == Errors(slots, sub) + Contribution(s, sub)
  {
    assert (slots + [s])[..|slots|] == slots;
  }

  /** The messages of consecutive runs of slots are concatenated: no failure stops the loop. */
  lemma {:induction false} ErrorsAppend(a: seq<Slot>, b: seq<Slot>, sub: Submission)
    ensures Errors(a + b, sub) == Errors(a, sub) + Errors(b, sub)
  {
    if b == [] {
      assert a + b == a;
    } else {
      var b', last := b[..|b| - 1], b[|b| - 1];
      assert b == b' + [last];
      assert a + b == (a + b') + [last];
      calc {
        Errors(a + b, sub);
      == { ErrorsSnoc(a + b', last, sub); }
        Errors(a + b', sub) + Contribution(last, sub);
      == { ErrorsAppend(a, b', sub); }
        Errors(a, sub) + Errors(b', sub) + Contribution(last, sub);
      == { ErrorsSnoc(b', last, sub); }
        Errors(a, sub) + Errors(b, sub);
      }
    }
  }

  /** The loop's step: visiting one more slot appends that slot's contribution. */
  lemma ErrorsStep(slots: seq<Slot>, i: nat, sub: Submission)
    requires i < |slots|
    ensures Errors(slots[..i + 1], sub) == Errors(slots[..i], sub) + Contribution(slots[i], sub)
  {
    assert slots[..i + 1][..i] == slots[..i];
  }

  /** Every failing slot contributes exactly one message, so `errors` is empty exactly when
      no slot fails, and it never has more messages than slots. */
  lemma {:induction false} ErrorsEmptyIffNoFailure(slots: seq<Slot>, sub: Submission)
    ensures Errors(slots, sub) == [] <==> forall i :: 0 <= i < |slots| ==> !Fails(slots[i], sub)
    ensures |Errors(slots, sub)| <= |slots|
  {
    if slots != [] {
      var init := slots[..|slots| - 1];
      var last := slots[|slots| - 1];
      ErrorsEmptyIffNoFailure(init, sub);
      assert Errors(slots, sub) == Errors(init, sub) + Contribution(last, sub);
      assert |Contribution(last, sub)| <= 1;
      if Errors(slots, sub) == [] {
        assert Errors(init, sub) == [] && !Fails(last, sub);
        forall i | 0 <= i < |slots| ensures !Fails(slots[i], sub) {
          if i < |init| { assert slots[i] == init[i]; }
        }
      } else if Errors(init, sub) != [] {
        var i :| 0 <= i < |init| && Fails(init[i], sub);
        assert slots[i] == init[i];
      } else {
        assert Fails(slots[|slots| - 1], sub);
      }
    }
  }

  /** `valid` holds exactly when no field failed; an invalid report has no values, a valid
      one lists every field's value in order; the recorder runs only on errors and `record`. */
  lemma ConsumeReport(slots: seq<Slot>, sub: Submission, record: bool)
    requires !HasReserved(slots)
    ensures var r := ConsumeResult(slots, sub, record);
      && r.Returned?
      && (r.report.valid <==> r.report.errors == [])
      && (r.report.valid <==> forall i :: 0 <= i < |slots| ==> !Fails(slots[i], sub))
      && (!r.report.valid ==> r.report.values == [] && r.report.errors == Errors(slots, sub))
      && (r.report.valid ==> |r.report.values| == |slots|)
      && (r.report.valid ==> forall i :: 0 <= i < |slots| ==> r.report.values[i] == After(slots[i], sub))
      && (r.recorded <==> !r.report.valid && record)
  {
    ErrorsEmptyIffNoFailure(slots, sub);
  }

  /** The search for a reserved key stops at the first slot keyed `name`. */
  lemma FirstReservedAt(slots: seq<Slot>, i: nat)
    requires i < |slots| && slots[i].key == "name"
    requires forall j :: 0 <= j < i ==> slots[j].key != "name"
    ensures FirstReserved(slots) == i && HasReserved(slots)
  {
  }

  /** Without a slot keyed `name`, the search runs to the end. */
  lemma NoReserved(slots: seq<Slot>)
    requires forall j :: 0 <= j < |slots| ==> slots[j].key != "name"
    ensures FirstReserved(slots) == |slots| && !HasReserved(slots)
  {
  }

  /** Without a reserved key `consume` returns: invalid with the errors and no values when
      there are errors, else valid with every field's value after its visit. */
  lemma ConsumeReturns(slots: seq<Slot>, sub: Submission, record: bool, errors: seq<string>)
    requires !HasReserved(slots) && errors == Errors(slots, sub)
    ensures errors != [] ==> ConsumeResult(slots, sub, record) == Returned(Report(false, errors, []), record)
    ensures errors == [] ==> ConsumeResult(slots, sub, record) == Returned(Report(true, [], Visit(slots, |slots|, sub)), false)
  {
  }

  /** Some field is keyed `name` exactly when the search for the first such key finds one. */
  lemma FirstReservedFinds(slots: seq<Slot>)
    ensures HasReserved(slots) <==> FirstReserved(slots) < |slots|
  {
  }

  /** `consume` throws exactly when some field is keyed `name`, and then with the
      reserved-name message. */
  lemma ReservedNameThrows(slots: seq<Slot>, sub: Submission, record: bool)
    ensures ConsumeResult(slots, sub, record).ConfigurationError? <==> FirstReserved(slots) < |slots|
    ensures HasReserved(slots) ==>
      ConsumeResult(slots, sub, record) == ConfigurationError("name is a reserved property. Use _name or something else.")
  {
    FirstReservedFinds(slots);
  }

  /** A falsy submission (absent or "") keeps the field's value; anything else replaces it. */
  lemma SubmissionFallback(sub: Submission, key: string, current: JsValue)
    ensures key !in sub || sub[key] == "" ==> Submitted(sub, key, current) == current
    ensures key in sub && sub[key] != "" ==> Submitted(sub, key, current) == Str(sub[key])
  {
  }

  /** A form with one required text field and nothing submitted is invalid, reports the
      required message, and has no values. */
  lemma RequiredFieldExample(text: string)
    ensures var spec := F.FieldSpec(F.Text, text, text, None, None, None, true, None);
      ConsumeResult([Slot("test1", spec, Undef)], map[], false) ==
      Returned(Report(false, ["Field is required"], []), false)
  {
    var spec := F.FieldSpec(F.Text, text, text, None, None, None, true, None);
    var slots := [Slot("test1", spec, Undef)];
    assert slots[..0] == [];
    assert !HasReserved(slots);
    assert Submitted(map[], "test1", Undef) == Undef;
    assert Process(slots[0], map[]).1 == F.Threw(F.FieldError("Field is required"));
    assert Errors(slots, map[]) == ["Field is required"];
  }

  /** A required text field left empty beside an optional number field that was filled in:
      the form is invalid with the required message only, and has no values. */
  lemma RequiredBesideNumberExample(text: string, number: string)
    ensures var username := F.FieldSpec(F.Text, text, text, None, None, None, true, None);
      var age := F.FieldSpec(F.Number, number, number, None, None, None, false, None);
      ConsumeResult([Slot("username", username, Undef), Slot("age", age, Undef)], map["age" := "42"], false) ==
      Returned(Report(false, ["Field is required"], []), false)
  {
    var username := F.FieldSpec(F.Text, text, text, None, None, None, true, None);
    var age := F.FieldSpec(F.Number, number, number, None, None, None, false, None);
    var slots := [Slot("username", username, Undef), Slot("age", age, Undef)];
    var sub := map["age" := "42"];
    assert !HasReserved(slots);
    assert Process(slots[0], sub).1 == F.Threw(F.FieldError("Field is required"));
    assert !Fails(slots[1], sub);
    assert slots[..1] == [slots[0]] && slots[..1][..0] == [];
    assert Errors(slots, sub) == Errors(slots[..1], sub) + Contribution(slots[1], sub);
    assert Errors(slots[..1], sub) == ["Field is required"];
  }

  /** A form of this variant: its keys and the fields stored under them, in key order. */
  class Form {
    const keys: seq<string>
    const members: seq<Field>

    constructor (keys: seq<string>, members: seq<Field>)
      requires |keys| == |members|
      requires forall i, j :: 0 <= i < j < |keys| ==> keys[i] != keys[j]
      requires forall i, j :: 0 <= i < j < |members| ==> members[i] != members[j]
      ensures this.keys == keys && this.members == members
      ensures Valid()
    {
      this.keys := keys;
      this.members := members;
    }

    /** Keys and fields pair up, keys are distinct, and no field is stored under two keys. */
    ghost predicate Valid() {
      && |keys| == |members|
      && (forall i, j :: 0 <= i < j < |keys| ==> keys[i] != keys[j])
      && (forall i, j :: 0 <= i < j < |members| ==> members[i] != members[j])
    }

    ghost function Objects(): set<Field> {
      set i | 0 <= i < |members| :: members[i]
    }

    /** The form's properties as they stand. */
    function Slots(): (slots: seq<Slot>)
      requires |keys| == |members|
      reads Objects()
      ensures |slots| == |keys|
      ensures forall i :: 0 <= i < |slots| ==>
        slots[i] == Slot(keys[i], members[i].spec, members[i].value)
    {
      seq(|keys|, i requires 0 <= i < |keys| reads Objects() =>
        Slot(keys[i], members[i].spec, members[i].value))
    }

    /** One step of the loop: the field under key `i` takes the submitted value unless it
        is falsy, and validates; the outcome's message is that slot's contribution. */
    method ProcessAt(i: nat, sub: Submission, ghost slot: Slot, ghost now: seq<JsValue>) returns (message: seq<string>)
      requires Valid() && i < |members| && keys[i] != ""
      requires slot == Slot(keys[i], members[i].spec, members[i].value)
      requires |now| == |members| && forall j :: 0 <= j < |members| ==> members[j].value == now[j]
      modifies {members[i]}`value
      ensures members[i].value == After(slot, sub)
      ensures forall j :: 0 <= j < |members| ==> members[j].value == now[i := After(slot, sub)][j]
      ensures message == Contribution(slot, sub)
    {
      var field := members[i];
      var got := Get(sub, keys[i]);
      field.value := if Truthy(got) then got else field.value;
      var outcome := field.Validate();
      message := if outcome.Threw? then [outcome.exception.message] else [];
      forall j | 0 <= j < |members| ensures members[j].value == now[i := After(slot, sub)][j] {
        if j < i {
          assert members[j] != members[i];
        } else if j > i {
          assert members[i] != members[j];
        }
      }
    }

    /** One turn of the loop over the original `slots`: a field with an empty key is
        skipped, any other is processed and its failure pushed onto `errors`; `next` is
        what the fields hold afterwards. */
    method VisitAt(i: nat, sub: Submission, ghost slots: seq<Slot>, ghost now: seq<JsValue>, errors: seq<string>)
      returns (errors': seq<string>, ghost next: seq<JsValue>)
      requires Valid() && i < |members| && |slots| == |members|
      requires forall j :: 0 <= j < |members| ==> slots[j].key == keys[j] && slots[j].spec == members[j].spec
      requires now == Visit(slots, i, sub) && errors == Errors(slots[..i], sub)
      requires forall j :: 0 <= j < |members| ==> members[j].value == now[j]
      modifies {members[i]}`value
      ensures errors' == Errors(slots[..i + 1], sub)
      ensures next == Visit(slots, i + 1, sub)
      ensures forall j :: 0 <= j < |members| ==> members[j].value == next[j]
    {
      ErrorsStep(slots, i, sub);
      VisitStep(slots, i, sub);
      if keys[i] == "" {
        errors', next := errors, now;
      } else {
        assert slots[i] == Slot(keys[i], members[i].spec, members[i].value);
        var message := ProcessAt(i, sub, slots[i], now);
        errors', next := errors + message, now[i := After(slots[i], sub)];
      }
    }

    /** `fields.map((field) => field.value)`: the fields' values in key order. */
    method FieldValues() returns (values: seq<JsValue>)
      ensures |values| == |members|
      ensures forall k :: 0 <= k < |members| ==> values[k] == members[k].value
    {
      values := [];
      var j := 0;
      while j < |members|
        invariant 0 <= j <= |members|
        invariant |values| == j
        invariant forall k :: 0 <= k < j ==> values[k] == members[k].value
      {
        values := values + [members[j].value];
        j := j + 1;
      }
    }

    /**
      The `forEach` of `consume`: every field keyed with a non-empty key is given its
      submission and validated, and each failure adds its message to `errors`. A key `name`
      throws (`reserved`) when the loop reaches it, after the fields before it were processed.
     */
    method VisitFields(sub: Submission) returns (errors: seq<string>, reserved: bool)
      requires Valid()
      modifies Objects()`value
      ensures reserved <==> HasReserved(old(Slots()))
      ensures !reserved ==> errors == Errors(old(Slots()), sub)
      ensures forall i :: 0 <= i < |members| ==>
        members[i].value == Visit(old(Slots()), FirstReserved(old(Slots())), sub)[i]
    {
      ghost var slots := Slots();
      // The values the fields hold.
      ghost var now := Visit(slots, 0, sub);
      errors := [];
      var i := 0;
      while i < |members|
        invariant 0 <= i <= |members|
        invariant forall j :: 0 <= j < i ==> slots[j].key != "name"
        invariant errors == Errors(slots[..i], sub)
        invariant now == Visit(slots, i, sub)
        invariant forall j :: 0 <= j < |members| ==> members[j].value == now[j]
      {
        if keys[i] == "name" {
          FirstReservedAt(slots, i);
          return errors, true;
        }
        assert members[i] in Objects();
        errors, now := VisitAt(i, sub, slots, now, errors);
        i := i + 1;
      }
      assert slots[..i] == slots;
      NoReserved(slots);
      return errors, false;
    }

    /**
      `consume(formData, params)`: run the loop; a reserved key throws. With errors the
      report is invalid and has no values (and the failure recorder runs when `record` is
      set); otherwise it lists every field's value.
     */
    method Consume(sub: Submission, record: bool) returns (r: Consumption)
      requires Valid()
      modifies Objects()`value
      ensures r == ConsumeResult(old(Slots()), sub, record)
      ensures forall i :: 0 <= i < |members| ==>
        members[i].value == Visit(old(Slots()), FirstReserved(old(Slots())), sub)[i]
    {
      ghost var slots := Slots();
      var errors, reserved := VisitFields(sub);
      if reserved {
        return ConfigurationError(ReservedMessage);
      }
      FirstReservedFinds(slots);
      ConsumeReturns(slots, sub, record, errors);
      var recorded := errors != [] && record;
      if errors != [] {
        return Returned(Report(false, errors, []), recorded);
      }
      var values := FieldValues();
      assert values == Visit(slots, |slots|, sub);
      return Returned(Report(true, [], values), recorded);
    }
  }
}
