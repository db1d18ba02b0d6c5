/**
  `form.create(formName, fields)` of dist/index.mjs: a sealed form object whose `fields`
  carry their registration keys as names, whose `validate` parses every submitted value
  with its field's validator and succeeds only as a whole, and whose plugins run with the
  last successfully validated data. The closure's `plugins` array and `validatedData`
  variable are the mutable fields of `FormInstance`.
 */
module FormFactory {
  import opened Js
  import opened Zod
  import opened Builder

  /** One registered field: the key it is registered under and its definition. */
  datatype Registration = Registration(key: string, def: FieldDef)

  /** Registration keys are property names, so they are distinct. */
  predicate DistinctKeys(regs: seq<Registration>) {
    forall i, j :: 0 <= i < j < |regs| ==> regs[i].key != regs[j].key
  }

  function Keys(regs: seq<Registration>): set<string> {
    set i | 0 <= i < |regs| :: regs[i].key
  }

  /** The `fields` of the form: the definitions in registration order, each with an empty
      name replaced by its registration key. */
  function Backfill(regs: seq<Registration>): (defs: seq<FieldDef>)
    ensures |defs| == |regs|
    ensures forall i :: 0 <= i < |regs| && regs[i].def.name != "" ==> defs[i] == regs[i].def
    ensures forall i :: 0 <= i < |regs| && regs[i].def.name == "" ==> defs[i] == regs[i].def.(name := regs[i].key)
  {
    if regs == [] then []
    else
      var d := regs[0].def;
      [if d.name == "" then d.(name := regs[0].key) else d] + Backfill(regs[1..])
  }

  /** What `validate` returns: `{success: true, data}` or `{success: false, error}`, the
      error being the issues of the rejected value. */
  datatype Validation = Success(data: map<string, JsValue>) | Failure(error: seq<string>)

  /** The value submitted under a registration key, parsed by the field's validator; a
      field without one passes the submitted value through. */
  function ParseField(o: Oracle, r: Registration, sub: Submission): ParseResult {
    var value := Get(sub, r.key);
    if r.def.validation.Some? then Parse(o, r.def.validation.value, value) else Parsed(value)
  }

  predicate Rejects(o: Oracle, r: Registration, sub: Submission) {
    ParseField(o, r, sub).Rejected?
  }

  /** `validate(formData)` over the registrations: the first rejection (in registration
      order) fails the whole form, otherwise the data maps each key to its parsed value. */
  function ValidateAll(o: Oracle, regs: seq<Registration>, sub: Submission): (r: Validation)
    ensures r.Success? ==> forall i :: 0 <= i < |regs| ==> !Rejects(o, regs[i], sub)
    ensures r.Failure? ==> exists i :: 0 <= i < |regs| && ParseField(o, regs[i], sub) == Rejected(r.error)
    ensures r.Success? ==> r.data.Keys <= Keys(regs)
  {
    if regs == [] then Success(map[])
    else
      match ParseField(o, regs[0], sub)
      case Rejected(issues) => Failure(issues)
      case Parsed(v) =>
        match ValidateAll(o, regs[1..], sub)
        case Failure(e) => Failure(e)
        case Success(data) => Success(data[regs[0].key := v])
  }

  /** The position of the first rejected field, or |regs|. */
  function FirstRejection(o: Oracle, regs: seq<Registration>, sub: Submission): (k: nat)
    ensures k <= |regs|
    ensures k < |regs| ==> Rejects(o, regs[k], sub)
    ensures forall j :: 0 <= j < k ==> !Rejects(o, regs[j], sub)
  {
    if regs == [] then 0
    else if Rejects(o, regs[0], sub) then 0
    else 1 + FirstRejection(o, regs[1..], sub)
  }

  /** Validation succeeds exactly when no field is rejected; on failure the error is the
      issues of the first rejected field. */
  lemma {:induction false} ValidateAllOutcome(o: Oracle, regs: seq<Registration>, sub: Submission)
    ensures ValidateAll(o, regs, sub).Success? <==> FirstRejection(o, regs, sub) == |regs|
    ensures ValidateAll(o, regs, sub).Failure? ==>
      ValidateAll(o, regs, sub).error == ParseField(o, regs[FirstRejection(o, regs, sub)], sub).issues
  {
    if regs != [] && !Rejects(o, regs[0], sub) {
      ValidateAllOutcome(o, regs[1..], sub);
    }
  }

  /** The keys of a non-empty list are its first key and the keys of the rest. */
  lemma KeysCons(regs: seq<Registration>)
    requires regs != []
    ensures Keys(regs) == {regs[0].key} + Keys(regs[1..])
  {
    var rest := regs[1..];
    forall k | k in Keys(regs) ensures k in {regs[0].key} + Keys(rest) {
      var i :| 0 <= i < |regs| && regs[i].key == k;
      if i > 0 { assert rest[i - 1] == regs[i]; }
    }
    forall k | k in Keys(rest) ensures k in Keys(regs) {
      var i :| 0 <= i < |rest| && rest[i].key == k;
      assert regs[i + 1] == rest[i];
    }
  }

  /** On success the data has exactly the registration keys, each holding its field's
      parsed value. */
  lemma {:induction false} ValidateAllData(o: Oracle, regs: seq<Registration>, sub: Submission)
    requires DistinctKeys(regs)
    requires ValidateAll(o, regs, sub).Success?
    ensures ValidateAll(o, regs, sub).data.Keys == Keys(regs)
    ensures forall i :: 0 <= i < |regs| ==>
      ParseField(o, regs[i], sub) == Parsed(ValidateAll(o, regs, sub).data[regs[i].key])
  {
    if regs != [] {
      var rest := regs[1..];
      assert DistinctKeys(rest);
      ValidateAllData(o, rest, sub);
      KeysCons(regs);
      forall i | 0 <= i < |regs|
        ensures ParseField(o, regs[i], sub) == Parsed(ValidateAll(o, regs, sub).data[regs[i].key])
      {
        if i > 0 { assert rest[i - 1] == regs[i]; }
      }
    }
  }

  /** Validation reads each value under its registration key: renaming a definition does
      not change the result. */
  lemma {:induction false} ValidationIgnoresNames(o: Oracle, regs: seq<Registration>, sub: Submission, i: nat, name: string)
    requires i < |regs|
    ensures ValidateAll(o, regs[i := Registration(regs[i].key, regs[i].def.(name := name))], sub) ==
            ValidateAll(o, regs, sub)
  {
    var renamed := regs[i := Registration(regs[i].key, regs[i].def.(name := name))];
    if i == 0 {
      assert renamed[1..] == regs[1..];
    } else {
      assert renamed[1..] == regs[1..][i - 1 := Registration(regs[i].key, regs[i].def.(name := name))];
      ValidationIgnoresNames(o, regs[1..], sub, i - 1, name);
    }
  }

  /** A field without a validator passes the submitted value (or null) through unchanged. */
  lemma NoValidatorPassesRaw(o: Oracle, r: Registration, sub: Submission)
    requires r.def.validation.None?
    ensures ParseField(o, r, sub) == Parsed(Get(sub, r.key))
    ensures r.key !in sub ==> ParseField(o, r, sub) == Parsed(Null)
  {
  }

  /** A text field with nothing submitted, required or not, fails the whole form with the
      string check's message, while an optional number field with nothing submitted yields 0. */
  lemma MissingSubmissions(o: Oracle, params: FieldParams)
    requires params.validation.None?
    ensures !params.required ==>
      ValidateAll(o, [Registration("age", Number(params))], map[]) == Success(map["age" := Num(0)])
    ensures ValidateAll(o, [Registration("title", Text(params))], map[]) ==
      Failure(["Expected string, received null"])
  {
    StringSchema(o, Null);
  }

  /** A plugin, identified by its position among the callbacks the caller supplies. */
  type Plugin = nat

  /** One call `plugin(validatedData)`. */
  datatype Invocation = Invocation(plugin: Plugin, data: map<string, JsValue>)

  /** The object `form.create` returns, with the closure state it shares. */
  class FormInstance {
    const name: string
    const registered: seq<Registration>
    const fields: seq<FieldDef>
    /** The validator library's behaviour, as given. */
    const oracle: Oracle
    var plugins: seq<Plugin>
    var validatedData: Option<map<string, JsValue>>

    constructor Create(formName: string, registered: seq<Registration>, oracle: Oracle)
      ensures name == formName && this.registered == registered && this.oracle == oracle
      ensures fields == Backfill(registered)
      ensures plugins == [] && validatedData == None
    {
      name := formName;
      this.registered := registered;
      fields := Backfill(registered);
      this.oracle := oracle;
      plugins := [];
      validatedData := None;
    }

    /** `validate(formData)`: the result of validating every field; `validatedData` is
        replaced only on success. */
    method Validate(sub: Submission) returns (r: Validation)
      modifies this`validatedData
      ensures r == ValidateAll(oracle, registered, sub)
      ensures validatedData == if r.Success? then Some(r.data) else old(validatedData)
    {
      r := ValidateAll(oracle, registered, sub);
      if r.Success? {
        validatedData := Some(r.data);
      }
    }

    /** `plugins.add(plugin)`. */
    method AddPlugin(plugin: Plugin)
      modifies this`plugins
      ensures plugins == old(plugins) + [plugin]
    {
      plugins := plugins + [plugin];
    }

    /** `plugins.run()`: every plugin, in order, called with the validated data, and no call
        at all before a validation has succeeded. */
    method RunPlugins() returns (calls: seq<Invocation>)
      ensures validatedData.None? ==> calls == []
      ensures validatedData.Some? ==> |calls| == |plugins|
      ensures validatedData.Some? ==>
        forall i :: 0 <= i < |plugins| ==> calls[i] == Invocation(plugins[i], validatedData.value)
    {
      calls := [];
      if validatedData.Some? {
        var data := validatedData.value;
        var i := 0;
        while i < |plugins|
          invariant 0 <= i <= |plugins|
          invariant |calls| == i
          invariant forall j :: 0 <= j < i ==> calls[j] == Invocation(plugins[j], data)
        {
          calls := calls + [Invocation(plugins[i], data)];
          i := i + 1;
        }
      }
    }
  }
}
