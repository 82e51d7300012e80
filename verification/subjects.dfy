/** The subject a validator wraps, and the single property read every key
    check performs on it. */
module Subjects {
  import opened Wrappers
  import opened JsValues

  /** The one error kind: a JavaScript TypeError. */
  datatype TypeError =
    | ExpectedObject  // the constructor guard rejected its argument
    | ReadOfNull      // a property of a `null` subject was read

  /** What the constructor guard lets through: any non-array object, or
      `null` (whose `typeof` is also "object"). */
  datatype Subject = ObjectSubject(fields: map<string, JsVal>) | NullSubject {

    /** The JavaScript value this subject stands for. */
    function AsValue(): (v: JsVal)
      ensures TypeOf(v) == "object" && !v.Arr?
      ensures NullSubject? <==> v == Null
    {
      match this
      case ObjectSubject(f) => Obj(f)
      case NullSubject => Null
    }
  }

  /** The subject's own value under the literal key `key`, or `undefined`
      when it has none. The key is never split on dots. */
  function ValueAt(s: Subject, key: string): JsVal {
    if s.ObjectSubject? && key in s.fields then s.fields[key] else Undefined
  }

  /** `key` counts as present when the subject's value under it is not
      `undefined`; a key bound to `undefined` counts as absent. */
  predicate Present(s: Subject, key: string) {
    ValueAt(s, key) != Undefined
  }

  /** The property read `self._obj[key]`: it throws on a `null` subject. */
  function Read(s: Subject, key: string): (r: Result<JsVal, TypeError>)
    ensures r.Err? <==> s.NullSubject?
    ensures r.Err? ==> r.error == ReadOfNull
    ensures r.Ok? ==> r.value == ValueAt(s, key)
  {
    match s
    case NullSubject => Err(ReadOfNull)
    case ObjectSubject(f) => Ok(if key in f then f[key] else Undefined)
  }

  /** The callback every key check hands to the array method:
      `self._obj[key] !== undefined`. */
  function IsDefined(s: Subject, key: string): (r: Result<bool, TypeError>)
    ensures r.Err? <==> s.NullSubject?
    ensures r.Err? ==> r.error == ReadOfNull
    ensures r.Ok? ==> (r.value <==> Present(s, key))
  {
    var v :- Read(s, key);
    Ok(v != Undefined)
  }

  /** Lookup is flat: whether `key` is present depends only on the subject's
      own entry under that exact string, so two subjects that agree there
      agree on `key`, whatever nested objects either of them holds. */
  lemma PresenceIsFlat(f: map<string, JsVal>, g: map<string, JsVal>, key: string)
    requires key in f <==> key in g
    requires key in f ==> f[key] == g[key]
    ensures Present(ObjectSubject(f), key) <==> Present(ObjectSubject(g), key)
  {
  }
}
