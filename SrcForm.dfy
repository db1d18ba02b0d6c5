/**
  The class-based form of src/form.ts. A form is its keys (`Object.keys`) and the values
  stored under them (`Object.values`), a value being a field object or null. `Fields`
  writes each field's key into its `name`; `Consume` validates the submitted value of each
  field in key order and stops at the first failure.

  src/form.ts calls `field.validate(value)` and uses the result of `field.cast(value)`,
  but the field methods of src/fields.ts take no argument and return nothing. The model
  reads the call as intended: the submitted value becomes the field's value and is
  validated, and `cast(value)` yields the cast of that value (the value `validate` leaves).
  `ConsumeAsWritten` keeps the behaviour as written.
 */
module SrcForm {
  import opened Js
  import opened Fields

  /** One key of the form with the constant part of the field stored under it (None: null). */
  datatype Entry = Entry(key: string, spec: Option<FieldSpec>)

  /** `if (name && field)`: the entries that `consume` and `fields` act on. */
  predicate Active(e: Entry) {
    e.key != "" && e.spec.Some?
  }

  /** Validating the value submitted under the entry's key: the value left and the outcome. */
  function Submit(e: Entry, sub: Submission): (JsValue, Outcome)
    requires Active(e)
  {
    Validation(e.spec.value, Get(sub, e.key))
  }

  predicate Fails(e: Entry, sub: Submission) {
    Active(e) && Submit(e, sub).1.Threw?
  }

  /** The position of the first entry whose validation throws, or |es| when none does. */
  function FirstFailure(es: seq<Entry>, sub: Submission): (k: nat)
    ensures k <= |es|
    ensures k < |es| ==> Fails(es[k], sub)
    ensures forall j :: 0 <= j < k ==> !Fails(es[j], sub)
  {
    if es == [] then 0
    else if Fails(es[0], sub) then 0
    else 1 + FirstFailure(es[1..], sub)
  }

  /** What `consume` returns: `{data}` or `{errorMessage}`. */
  datatype Consumed = Data(data: map<string, JsValue>) | ErrorMessage(message: string)

  /** The loop of `consume` from some entry on, with the data gathered so far. */
  function ConsumeFrom(es: seq<Entry>, sub: Submission, data: map<string, JsValue>): Consumed {
    if es == [] then Data(data)
    else if !Active(es[0]) then ConsumeFrom(es[1..], sub, data)
    else
      var (v, outcome) := Submit(es[0], sub);
      if outcome.Threw? then ErrorMessage(outcome.exception.message)
      else ConsumeFrom(es[1..], sub, data[es[0].key := v])
  }

  function ConsumeResult(es: seq<Entry>, sub: Submission): (r: Consumed)
    ensures r.ErrorMessage? <==> FirstFailure(es, sub) < |es|
    ensures r.ErrorMessage? ==> r.message == Submit(es[FirstFailure(es, sub)], sub).1.exception.message
  {
    ConsumeFromFailure(es, sub, map[]);
    ConsumeFrom(es, sub, map[])
  }

  predicate DistinctKeys(es: seq<Entry>) {
    forall i, j :: 0 <= i < j < |es| ==> es[i].key != es[j].key
  }

  function ActiveKeys(es: seq<Entry>): set<string> {
    set i | 0 <= i < |es| && Active(es[i]) :: es[i].key
  }

  lemma {:induction false} ConsumeFromFailure(es: seq<Entry>, sub: Submission, data: map<string, JsValue>)
    ensures ConsumeFrom(es, sub, data).ErrorMessage? <==> FirstFailure(es, sub) < |es|
    ensures FirstFailure(es, sub) < |es| ==>
            ConsumeFrom(es, sub, data) == ErrorMessage(Submit(es[FirstFailure(es, sub)], sub).1.exception.message)
  {
    if es != [] && !Fails(es[0], sub) {
      var data' := if Active(es[0]) then data[es[0].key := Submit(es[0], sub).0] else data;
      ConsumeFromFailure(es[1..], sub, data');
    }
  }

  /** The active keys of a non-empty sequence: its head's key (when active) and the rest's. */
  lemma ActiveKeysCons(es: seq<Entry>)
    requires es != []
    ensures ActiveKeys(es) == (if Active(es[0]) then {es[0].key} else {}) + ActiveKeys(es[1..])
  {
    var rest := es[1..];
    forall k | k in ActiveKeys(es)
      ensures k in (if Active(es[0]) then {es[0].key} else {}) + ActiveKeys(rest)
    {
      var i :| 0 <= i < |es| && Active(es[i]) && es[i].key == k;
      if i > 0 { assert rest[i - 1] == es[i]; }
    }
    forall k | k in ActiveKeys(rest) ensures k in ActiveKeys(es) {
      var i :| 0 <= i < |rest| && Active(rest[i]) && rest[i].key == k;
      assert es[i + 1] == rest[i];
    }
  }

  /** With distinct keys, the head's key is not among the rest's active keys. */
  lemma HeadKeyNotInRest(es: seq<Entry>)
    requires es != [] && DistinctKeys(es)
    ensures es[0].key !in ActiveKeys(es[1..])
  {
    forall i | 0 <= i < |es[1..]| ensures es[1..][i].key != es[0].key {
      assert es[1..][i] == es[i + 1];
    }
  }

  lemma {:induction false} ConsumeFromData(es: seq<Entry>, sub: Submission, data: map<string, JsValue>)
    requires DistinctKeys(es)
    requires FirstFailure(es, sub) == |es|
    ensures ConsumeFrom(es, sub, data).Data?
    ensures var d := ConsumeFrom(es, sub, data).data;
      && d.Keys == data.Keys + ActiveKeys(es)
      && (forall i :: 0 <= i < |es| && Active(es[i]) ==> d[es[i].key] == Submit(es[i], sub).0)
      && (forall k :: k in data && k !in ActiveKeys(es) ==> d[k] == data[k])
  {
    if es != [] {
      var rest := es[1..];
      assert DistinctKeys(rest);
      assert FirstFailure(rest, sub) == |rest|;
      ActiveKeysCons(es);
      var data' := if Active(es[0]) then data[es[0].key := Submit(es[0], sub).0] else data;
      assert ConsumeFrom(es, sub, data) == ConsumeFrom(rest, sub, data');
      ConsumeFromData(rest, sub, data');
      if Active(es[0]) { HeadKeyNotInRest(es); }
      var d := ConsumeFrom(rest, sub, data').data;
      forall i | 0 <= i < |es| && Active(es[i]) ensures d[es[i].key] == Submit(es[i], sub).0 {
        if i > 0 { assert rest[i - 1] == es[i]; }
      }
    }
  }

  /** `consume` returns data exactly when no field's validation throws. */
  lemma ConsumeSucceedsIffNoFailure(es: seq<Entry>, sub: Submission)
    ensures ConsumeResult(es, sub).Data? <==> forall i :: 0 <= i < |es| ==> !Fails(es[i], sub)
  {
    ConsumeFromFailure(es, sub, map[]);
  }

  /** On failure, `consume` reports the message of the first failing field, every field
      before it having passed. */
  lemma ConsumeReportsFirstFailure(es: seq<Entry>, sub: Submission)
    requires ConsumeResult(es, sub).ErrorMessage?
    ensures var k := FirstFailure(es, sub);
      && k < |es| && Fails(es[k], sub)
      && (forall j :: 0 <= j < k ==> !Fails(es[j], sub))
      && ConsumeResult(es, sub).message == Submit(es[k], sub).1.exception.message
  {
    ConsumeFromFailure(es, sub, map[]);
  }

  /** On success, the data has one entry per active key, holding that field's cast value. */
  lemma ConsumeDataIsCast(es: seq<Entry>, sub: Submission)
    requires DistinctKeys(es)
    requires ConsumeResult(es, sub).Data?
    ensures ConsumeResult(es, sub).data.Keys == ActiveKeys(es)
    ensures forall i :: 0 <= i < |es| && Active(es[i]) ==>
            ConsumeResult(es, sub).data[es[i].key] == CastValue(es[i].spec.value.kind, Get(sub, es[i].key))
  {
    ConsumeFromFailure(es, sub, map[]);
    ConsumeFromData(es, sub, map[]);
  }

  /** The fields' values once the loop has passed the first `i` entries: each active entry
      before `i` holds its cast submission, every other keeps its value in `start`. */
  function Visit(es: seq<Entry>, start: seq<JsValue>, i: nat, sub: Submission): (vs: seq<JsValue>)
    requires |start| == |es| && i <= |es|
  {
    seq(|es|, j requires 0 <= j < |es| => if j < i && Active(es[j]) then Submit(es[j], sub).0 else start[j])
  }

  /** Passing one more entry changes only that entry's value, and only when it is active. */
  lemma VisitStep(es: seq<Entry>, start: seq<JsValue>, i: nat, sub: Submission)
    requires |start| == |es| && i < |es|
    ensures Active(es[i]) ==> Visit(es, start, i + 1, sub) == Visit(es, start, i, sub)[i := Submit(es[i], sub).0]
    ensures !Active(es[i]) ==> Visit(es, start, i + 1, sub) == Visit(es, start, i, sub)
  {
  }

  /** The search for a failure stops at the first failing entry. */
  lemma FirstFailureAt(es: seq<Entry>, sub: Submission, i: nat)
    requires i < |es| && Fails(es[i], sub)
    requires forall j :: 0 <= j < i ==> !Fails(es[j], sub)
    ensures FirstFailure(es, sub) == i
  {
  }

  /** Without a failing entry, the search runs to the end. */
  lemma NoFailure(es: seq<Entry>, sub: Submission)
    requires forall j :: 0 <= j < |es| ==> !Fails(es[j], sub)
    ensures FirstFailure(es, sub) == |es|
  {
  }

  /** A class-based form: its keys and the values stored under them, in key order. */
  class Form {
    const keys: seq<string>
    const members: seq<Field?>

    constructor (keys: seq<string>, members: seq<Field?>)
      requires |keys| == |members|
      requires forall i, j :: 0 <= i < j < |keys| ==> keys[i] != keys[j]
      requires forall i, j :: 0 <= i < j < |members| && members[i] != null ==> members[i] != members[j]
      ensures this.keys == keys && this.members == members
      ensures Valid()
    {
      this.keys := keys;
      this.members := members;
    }

    /** Keys and values pair up, keys are distinct (they are property names), and no field
        object is stored under two keys. */
    ghost predicate Valid() {
      && |keys| == |members|
      && (forall i, j :: 0 <= i < j < |keys| ==> keys[i] != keys[j])
      && (forall i, j :: 0 <= i < j < |members| && members[i] != null ==> members[i] != members[j])
    }

    ghost function Objects(): set<Field> {
      set i | 0 <= i < |members| && members[i] != null :: members[i]
    }

    function Entries(): (es: seq<Entry>)
      requires |keys| == |members|
      ensures |es| == |keys|
      ensures forall i :: 0 <= i < |es| ==>
        es[i].key == keys[i] && (es[i].spec.Some? <==> members[i] != null) &&
        (members[i] != null ==> es[i].spec.value == members[i].spec)
    {
      seq(|keys|, i requires 0 <= i < |keys| =>
        Entry(keys[i], if members[i] == null then None else Some(members[i].spec)))
    }

    /** `fields()`: the values in key order, each field's `name` set to its key. */
    method Fields() returns (fields: seq<Field?>)
      requires Valid()
      modifies Objects()`name
      ensures fields == members
      ensures forall i :: 0 <= i < |members| && members[i] != null ==>
        members[i].name == (if keys[i] != "" then Some(keys[i]) else old(members[i].name))
    {
      fields := members;
      var i := 0;
      while i < |keys|
        invariant 0 <= i <= |keys|
        invariant forall j :: 0 <= j < i && members[j] != null ==>
          members[j].name == (if keys[j] != "" then Some(keys[j]) else old(members[j].name))
        invariant forall j :: i <= j < |members| && members[j] != null ==>
          members[j].name == old(members[j].name)
      {
        var name := keys[i];
        var field := fields[i];
        if name != "" && field != null {
          field.name := Some(name);
        }
        i := i + 1;
      }
    }

    /** One step of `consume`: the field under key `i` takes the submitted value and validates it. */
    method SubmitAt(i: nat, sub: Submission) returns (v: JsValue, outcome: Outcome)
      requires Valid() && i < |members| && Active(Entries()[i])
      modifies {members[i]}`value
      ensures (v, outcome) == Submit(Entries()[i], sub)
      ensures members[i].value == v
    {
      var field := members[i];
      field.value := Get(sub, keys[i]);
      outcome := field.Validate();
      v := field.value;
    }

    /** The fields' values in key order (undefined where the form holds null). */
    function Values(): (vs: seq<JsValue>)
      requires |keys| == |members|
      reads Objects()
      ensures |vs| == |members|
      ensures forall i :: 0 <= i < |members| && members[i] != null ==> vs[i] == members[i].value
    {
      seq(|members|, i requires 0 <= i < |members| reads Objects() =>
        if members[i] == null then Undef else members[i].value)
    }

    /** One turn of the loop of `consume` over the original entries `es`: an active entry is
        submitted, and either fails with its message or adds its cast value to `data`;
        `next` is what the fields hold afterwards. */
    method StepAt(i: nat, sub: Submission, ghost es: seq<Entry>, ghost start: seq<JsValue>,
                  ghost now: seq<JsValue>, data: map<string, JsValue>)
      returns (failure: Option<string>, data': map<string, JsValue>, ghost next: seq<JsValue>)
      requires Valid() && i < |members| && es == Entries() && |start| == |members|
      requires now == Visit(es, start, i, sub)
      requires forall j :: 0 <= j < |members| && members[j] != null ==> members[j].value == now[j]
      requires ConsumeFrom(es, sub, map[]) == ConsumeFrom(es[i..], sub, data)
      modifies Objects()`value
      ensures failure.None? ==> !Fails(es[i], sub) && ConsumeFrom(es, sub, map[]) == ConsumeFrom(es[i + 1..], sub, data')
      ensures failure.Some? ==> Fails(es[i], sub) && ConsumeFrom(es, sub, map[]) == ErrorMessage(failure.value)
      ensures next == Visit(es, start, i + 1, sub)
      ensures forall j :: 0 <= j < |members| && members[j] != null ==> members[j].value == next[j]
    {
      assert es[i..][1..] == es[i + 1..];
      VisitStep(es, start, i, sub);
      if keys[i] != "" && members[i] != null {
        assert members[i] in Objects();
        var v, outcome := SubmitAt(i, sub);
        next := now[i := v];
        forall j | 0 <= j < |members| && members[j] != null ensures members[j].value == next[j] {
          if j < i {
            assert members[j] != members[i];
          } else if j > i {
            assert members[i] != members[j];
          }
        }
        if outcome.Threw? {
          return Some(outcome.exception.message), data, next;
        }
        failure, data' := None, data[keys[i] := v];
      } else {
        failure, data', next := None, data, now;
      }
    }

    /**
      `consume(formData)`: validate each active field on its submitted value, in key order.
      The first failure ends the loop with its message; fields up to and including it hold
      their cast submitted value, later fields are untouched.
     */
    method Consume(sub: Submission) returns (r: Consumed)
      requires Valid()
      modifies Objects()`value
      ensures r == ConsumeResult(Entries(), sub)
      ensures forall i :: 0 <= i < |members| && members[i] != null ==>
        members[i].value ==
          if Active(Entries()[i]) && i <= FirstFailure(Entries(), sub) then Submit(Entries()[i], sub).0
          else old(members[i].value)
    {
      ghost var es := Entries();
      ghost var start := Values();
      // The values the fields hold.
      ghost var now := Visit(es, start, 0, sub);
      var data: map<string, JsValue> := map[];
      var i := 0;
      while i < |members|
        invariant 0 <= i <= |members|
        invariant ConsumeFrom(es, sub, map[]) == ConsumeFrom(es[i..], sub, data)
        invariant forall j :: 0 <= j < i ==> !Fails(es[j], sub)
        invariant now == Visit(es, start, i, sub)
        invariant forall j :: 0 <= j < |members| && members[j] != null ==> members[j].value == now[j]
      {
        var failure;
        failure, data, now := StepAt(i, sub, es, start, now, data);
        if failure.Some? {
          FirstFailureAt(es, sub, i);
          return ErrorMessage(failure.value);
        }
        i := i + 1;
      }
      NoFailure(es, sub);
      return Data(data);
    }
  }

  /**
    `consume` as written: `validate(value)` ignores its argument and validates the value the
    field already holds (`current`), and `cast(value)` returns undefined, which is what the
    data and the field receive. A failure carries the message of the intended table lookup
    (`Validation`); as written the lookup of src/fields.ts:106 throws first without a custom
    error, and `Fields.MessageAsWritten` gives that message.
   */
  function ConsumeAsWritten(es: seq<Entry>, current: seq<JsValue>, data: map<string, JsValue>): (r: Consumed)
    requires |current| == |es|
    ensures r.Data? && (forall k :: k in data ==> data[k] == Undef) ==>
      forall k :: k in r.data ==> r.data[k] == Undef
    ensures r.Data? ==> data.Keys <= r.data.Keys
  {
    if es == [] then Data(data)
    else if !Active(es[0]) then ConsumeAsWritten(es[1..], current[1..], data)
    else
      var outcome := Validation(es[0].spec.value, current[0]).1;
      if outcome.Threw? then ErrorMessage(outcome.exception.message)
      else ConsumeAsWritten(es[1..], current[1..], data[es[0].key := Undef])
  }

  /** One optional text field "x" holding undefined, and "abc" submitted under "x": as written
      the data holds undefined, while the intended reading holds the submitted string. */
  lemma AsWrittenLosesSubmission()
    ensures var es := [Entry("x", Some(FieldSpec(Text, "x", "x", None, None, None, false, None)))];
      && ConsumeAsWritten(es, [Undef], map[]) == Data(map["x" := Undef])
      && ConsumeResult(es, map["x" := "abc"]) == Data(map["x" := Str("abc")])
  {
  }
}
