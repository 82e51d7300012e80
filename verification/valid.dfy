/** The `Valid` validator: a subject plus the verdicts recorded in `_valid`
    under the names "required", "has", "has_one" and "values". Each check is
    a pure function returning the updated validator (the JavaScript methods
    mutate `this` and return it for chaining). */
module Valid {
  import opened Wrappers
  import opened JsValues
  import opened Subjects
  import opened KeyChecks
  import opened Schemas

  /** A validator instance; `None` in a slot means the check has never run,
      so `_valid` has no entry of that name. */
  datatype Validator = Validator(
    subject: Subject,
    required: Option<bool>,
    has: Option<bool>,
    hasOne: Option<bool>,
    values: Option<bool>)

  /** True of a validator no check has run on yet. */
  predicate Unchecked(v: Validator) {
    v.required.None? && v.has.None? && v.hasOne.None? && v.values.None?
  }

  /** The instance the constructor builds around an accepted subject. */
  function Fresh(s: Subject): Validator {
    Validator(s, None, None, None, None)
  }

  /** The constructor `Valid(obj)`: throws TypeError('Expected object') unless
      `typeof obj` is "object" and `obj` is not an array; `null` gets through.
      A new instance has no verdicts. */
  function New(obj: JsVal): (r: Result<Validator, TypeError>)
    ensures r.Err? <==> TypeOf(obj) != "object" || obj.Arr?
    ensures r.Err? ==> r.error == ExpectedObject
    ensures r.Ok? ==> r.value.subject.AsValue() == obj && Unchecked(r.value)
  {
    match obj
    case Obj(f) => Ok(Fresh(ObjectSubject(f)))
    case Null => Ok(Fresh(NullSubject))
    case _ => Err(ExpectedObject)
  }

  /** `required(keys)`: records whether every key is present (true for no
      keys). Only the "required" slot changes. */
  function Required(v: Validator, keys: seq<string>): (r: Result<Validator, TypeError>)
    ensures r.Err? <==> v.subject.NullSubject? && |keys| > 0
    ensures r.Err? ==> r.error == ReadOfNull
    ensures r.Ok? ==> r.value == v.(required := r.value.required)
    ensures r.Ok? ==> r.value.required == Some(forall i :: 0 <= i < |keys| ==> Present(v.subject, keys[i]))
  {
    var out :- Keys(v.subject, keys, REQUIRED);
    Ok(v.(required := Some(out.flag)))
  }

  /** `has(keys)`: records whether at least one key is present (false for no
      keys). Only the "has" slot changes. */
  function Has(v: Validator, keys: seq<string>): (r: Result<Validator, TypeError>)
    ensures r.Err? <==> v.subject.NullSubject? && |keys| > 0
    ensures r.Err? ==> r.error == ReadOfNull
    ensures r.Ok? ==> r.value == v.(has := r.value.has)
    ensures r.Ok? ==> r.value.has == Some(exists i :: 0 <= i < |keys| && Present(v.subject, keys[i]))
  {
    var out :- Keys(v.subject, keys, HAS);
    Ok(v.(has := Some(out.flag)))
  }

  /** `hasOne(keys)`: records whether the array `map` returned has length 1.
      That array has one entry per key, so the verdict is whether exactly one
      key was passed, whatever the subject holds. Only the "has_one" slot
      changes. */
  function HasOne(v: Validator, keys: seq<string>): (r: Result<Validator, TypeError>)
    ensures r.Err? <==> v.subject.NullSubject? && |keys| > 0
    ensures r.Err? ==> r.error == ReadOfNull
    ensures r.Ok? ==> r.value == v.(hasOne := r.value.hasOne)
    ensures r.Ok? ==> r.value.hasOne == Some(|keys| == 1)
  {
    var out :- Keys(v.subject, keys, HAS_ONE);
    Ok(v.(hasOne := Some(|out.flags| == 1)))
  }

  /** `values(schema)`: records whether every truthy value the schema names has
      the expected type. Only the "values" slot changes. */
  ghost function Values(v: Validator, schema: Schema): (r: Result<Validator, TypeError>)
    ensures r.Err? <==> v.subject.NullSubject? && |schema| > 0
    ensures r.Err? ==> r.error == ReadOfNull
    ensures r.Ok? ==> r.value == v.(values := r.value.values)
    ensures r.Ok? ==> r.value.values == Some(SchemaHolds(v.subject, schema))
  {
    var holds :- ValuesVerdict(v.subject, schema);
    Ok(v.(values := Some(holds)))
  }

  /** The verdicts present in `_valid`, in slot order. */
  function Recorded(v: Validator): seq<bool> {
    Entry(v.required) + Entry(v.has) + Entry(v.hasOne) + Entry(v.values)
  }

  function Entry(slot: Option<bool>): seq<bool> {
    match slot
    case None => []
    case Some(b) => [b]
  }

  /** The for-in loop of `isValid`: false at the first false verdict. */
  function AllTrue(verdicts: seq<bool>): (r: bool)
    ensures r <==> forall i :: 0 <= i < |verdicts| ==> verdicts[i]
    decreases |verdicts|
  {
    if |verdicts| == 0 then true
    else if !verdicts[0] then false
    else AllTrue(verdicts[1..])
  }

  /** `isValid()`: true exactly when no recorded verdict is false, so true
      when no check has run. It is a function of the validator and changes
      nothing. */
  function IsValid(v: Validator): (r: bool)
    ensures r <==> v.required != Some(false) && v.has != Some(false) &&
                   v.hasOne != Some(false) && v.values != Some(false)
    ensures Unchecked(v) ==> r
  {
    var rec := Recorded(v);
    assert v.required == Some(false) ==> rec[0] == false;
    assert v.has == Some(false) ==> rec[|Entry(v.required)|] == false;
    assert v.hasOne == Some(false) ==> rec[|Entry(v.required)| + |Entry(v.has)|] == false;
    assert v.values == Some(false) ==> rec[|rec| - 1] == false;
    AllTrue(rec)
  }

  /** A freshly constructed validator is valid. */
  lemma FreshIsValid(obj: JsVal)
    requires New(obj).Ok?
    ensures IsValid(New(obj).value)
  {
  }
}
