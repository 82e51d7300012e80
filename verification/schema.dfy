/** The helper `_values`: type-checks the subject against a schema that maps
    top-level keys to type tags. */
module Schemas {
  import opened Wrappers
  import opened JsValues
  import opened Subjects

  /** A schema object: key name to expected tag. In JavaScript the tags may
      be any value; only a string can ever equal a `typeof` result. */
  type Schema = map<string, JsVal>

  /** The one tag that is not a `typeof` result. */
  const ArrayTag: JsVal := Str("array")

  /** One schema entry's test: a falsy value is never checked; a truthy value
      must be an array under "array" and must have `typeof` equal to the tag
      under any other tag. */
  predicate Conforms(value: JsVal, tag: JsVal) {
    Truthy(value) ==>
      if tag == ArrayTag then value.Arr? else tag == Str(TypeOf(value))
  }

  /** The verdict `_values` computes, stated over the whole schema at once. */
  predicate SchemaHolds(s: Subject, schema: Schema) {
    forall key :: key in schema ==> Conforms(ValueAt(s, key), schema[key])
  }

  /** `_values(schema)` as written: a for-in loop over the schema's keys that
      reads each key of the subject (throwing on a `null` subject) and returns
      false at the first truthy value of the wrong type. The order of the
      schema's keys cannot change the outcome, so the loop takes them in any
      order. */
  method ValuesLoop(s: Subject, schema: Schema) returns (r: Result<bool, TypeError>)
    ensures r.Err? <==> s.NullSubject? && |schema| > 0
    ensures r.Err? ==> r.error == ReadOfNull
    ensures r.Ok? ==> (r.value <==> SchemaHolds(s, schema))
    ensures r == ValuesVerdict(s, schema)
  {
    var pending := schema.Keys;
    while pending != {}
      invariant pending <= schema.Keys
      invariant s.NullSubject? ==> pending == schema.Keys
      invariant forall key :: key in schema && key !in pending ==> Conforms(ValueAt(s, key), schema[key])
      decreases pending
    {
      var key :| key in pending;
      var value :- Read(s, key);
      if Truthy(value) {
        if schema[key] == ArrayTag {
          if !value.Arr? {
            return Ok(false);
          }
        } else if Str(TypeOf(value)) != schema[key] {
          return Ok(false);
        }
      }
      pending := pending - {key};
    }
    return Ok(true);
  }

  /** The for-in loop of `_values` over the schema keys still to visit: each
      key is read from the subject (throwing on `null`), a falsy value is
      skipped, and the first truthy value of the wrong type ends the scan with
      false. The keys are taken in an unspecified order, which cannot change
      the outcome. */
  ghost function ScanSchema(s: Subject, schema: Schema, pending: set<string>): (r: Result<bool, TypeError>)
    requires pending <= schema.Keys
    ensures r.Err? <==> s.NullSubject? && pending != {}
    ensures r.Err? ==> r.error == ReadOfNull
    ensures r.Ok? ==> (r.value <==> forall key :: key in pending ==> Conforms(ValueAt(s, key), schema[key]))
    decreases pending
  {
    if pending == {} then Ok(true)
    else
      var key :| key in pending;
      var value :- Read(s, key);
      if !Truthy(value) then ScanSchema(s, schema, pending - {key})
      else if schema[key] == ArrayTag then
        if !value.Arr? then Ok(false) else ScanSchema(s, schema, pending - {key})
      else if Str(TypeOf(value)) != schema[key] then Ok(false)
      else ScanSchema(s, schema, pending - {key})
  }

  /** `_values(schema)`: the scan over every key of the schema. */
  ghost function ValuesVerdict(s: Subject, schema: Schema): (r: Result<bool, TypeError>)
    ensures r.Err? <==> s.NullSubject? && |schema| > 0
    ensures r.Err? ==> r.error == ReadOfNull
    ensures r.Ok? ==> (r.value <==> SchemaHolds(s, schema))
  {
    assert |schema| > 0 <==> schema.Keys != {} by {
      assert |schema| == |schema.Keys|;
    }
    ScanSchema(s, schema, schema.Keys)
  }

  /** A key whose value in the subject is falsy (absent, `undefined`, `null`,
      `false`, `0`, `""`) is never checked: dropping it from the schema does
      not change the verdict, whatever tag it carried. */
  lemma FalsyValuesNeverChecked(s: Subject, schema: Schema, key: string)
    requires !Truthy(ValueAt(s, key))
    ensures SchemaHolds(s, schema) <==> SchemaHolds(s, schema - {key})
  {
    if SchemaHolds(s, schema - {key}) {
      forall k | k in schema
        ensures Conforms(ValueAt(s, k), schema[k])
      {
        if k != key {
          assert k in schema - {key};
        }
      }
    }
  }

  /** Subject keys the schema does not name are ignored: adding or changing
      one does not change the verdict. */
  lemma UnnamedKeysIgnored(f: map<string, JsVal>, schema: Schema, key: string, v: JsVal)
    requires key !in schema
    ensures SchemaHolds(ObjectSubject(f), schema) <==> SchemaHolds(ObjectSubject(f[key := v]), schema)
  {
    forall k | k in schema
      ensures ValueAt(ObjectSubject(f), k) == ValueAt(ObjectSubject(f[key := v]), k)
    {
      assert k != key;
    }
  }

  /** Under the tag "array" a truthy value passes exactly when it is an array;
      under "object" an array passes too, because its `typeof` is "object". */
  lemma ArrayTags(elems: seq<JsVal>, v: JsVal)
    requires Truthy(v)
    ensures Conforms(v, ArrayTag) <==> v.Arr?
    ensures Conforms(Arr(elems), Str("object"))
    ensures Conforms(v, Str("object")) <==> v.Arr? || v.Obj?
  {
    if Conforms(v, Str("object")) {
      TruthyObjectIsArrOrObj(v);
    }
  }

  /** A tag that is not a string (and not "array") rejects every truthy value. */
  lemma NonStringTagRejectsTruthy(v: JsVal, tag: JsVal)
    requires Truthy(v) && !tag.Str?
    ensures !Conforms(v, tag)
  {
  }
}
