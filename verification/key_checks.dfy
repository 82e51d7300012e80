/** The helper `_keys`: it runs the presence callback over an array of keys
    through one of three array methods, chosen by name from the table TYPES
    (`every` for required, `some` for has, `map` for hasOne). */
module KeyChecks {
  import opened Wrappers
  import opened JsValues
  import opened Subjects

  /** The three `Array.prototype` methods `_keys` can dispatch to. */
  datatype ArrayMethod = EveryMethod | SomeMethod | MapMethod

  /** The table TYPES: which array method each key check uses. */
  const REQUIRED: ArrayMethod := EveryMethod
  const HAS: ArrayMethod := SomeMethod
  const HAS_ONE: ArrayMethod := MapMethod

  /** What `_keys` returns: a boolean from `every`/`some`, an array from `map`. */
  datatype KeysOutcome = Flag(flag: bool) | Flags(flags: seq<bool>)

  /** `keys.every(isDefined)`: stops at the first absent key; on a `null`
      subject the first callback throws. */
  function EveryDefined(s: Subject, keys: seq<string>): (r: Result<bool, TypeError>)
    ensures r.Err? <==> s.NullSubject? && |keys| > 0
    ensures r.Err? ==> r.error == ReadOfNull
    ensures r.Ok? ==> (r.value <==> forall i :: 0 <= i < |keys| ==> Present(s, keys[i]))
    decreases |keys|
  {
    if |keys| == 0 then Ok(true)
    else
      var here :- IsDefined(s, keys[0]);
      if !here then Ok(false) else EveryDefined(s, keys[1..])
  }

  /** `keys.some(isDefined)`: stops at the first present key. */
  function SomeDefined(s: Subject, keys: seq<string>): (r: Result<bool, TypeError>)
    ensures r.Err? <==> s.NullSubject? && |keys| > 0
    ensures r.Err? ==> r.error == ReadOfNull
    ensures r.Ok? ==> (r.value <==> exists i :: 0 <= i < |keys| && Present(s, keys[i]))
    decreases |keys|
  {
    if |keys| == 0 then Ok(false)
    else
      var here :- IsDefined(s, keys[0]);
      if here then Ok(true) else SomeDefined(s, keys[1..])
  }

  /** `keys.map(isDefined)`: one flag per key, in order. */
  function MapDefined(s: Subject, keys: seq<string>): (r: Result<seq<bool>, TypeError>)
    ensures r.Err? <==> s.NullSubject? && |keys| > 0
    ensures r.Err? ==> r.error == ReadOfNull
    ensures r.Ok? ==> |r.value| == |keys|
    ensures r.Ok? ==> forall i :: 0 <= i < |keys| ==> (r.value[i] <==> Present(s, keys[i]))
    decreases |keys|
  {
    if |keys| == 0 then Ok([])
    else
      // Once the first read succeeds the subject is an object, so the
      // remaining reads cannot throw either.
      var here :- IsDefined(s, keys[0]);
      Ok([here] + MapDefined(s, keys[1..]).value)
  }

  /** `_keys(keys, type)`: `keys[type](isDefined)`. */
  function Keys(s: Subject, keys: seq<string>, via: ArrayMethod): (r: Result<KeysOutcome, TypeError>)
    ensures r.Err? <==> s.NullSubject? && |keys| > 0
    ensures r.Err? ==> r.error == ReadOfNull
    ensures r.Ok? ==> (r.value.Flags? <==> via == MapMethod)
    ensures r.Ok? && via == EveryMethod ==>
      (r.value.flag <==> forall i :: 0 <= i < |keys| ==> Present(s, keys[i]))
    ensures r.Ok? && via == SomeMethod ==>
      (r.value.flag <==> exists i :: 0 <= i < |keys| && Present(s, keys[i]))
    ensures r.Ok? && via == MapMethod ==> |r.value.flags| == |keys|
    ensures r.Ok? && via == MapMethod ==>
      forall i :: 0 <= i < |keys| ==> (r.value.flags[i] <==> Present(s, keys[i]))
  {
    match via
    case EveryMethod =>
      var b :- EveryDefined(s, keys);
      Ok(Flag(b))
    case SomeMethod =>
      var b :- SomeDefined(s, keys);
      Ok(Flag(b))
    case MapMethod =>
      var bs :- MapDefined(s, keys);
      Ok(Flags(bs))
  }

  /** The array `map` produces has one entry per key, so its length carries
      no information about the subject: two subjects that `map` can read give
      arrays of the same length. */
  lemma MapLengthIgnoresSubject(s: Subject, t: Subject, keys: seq<string>)
    requires s.ObjectSubject? && t.ObjectSubject?
    ensures Keys(s, keys, MapMethod).Ok? && Keys(t, keys, MapMethod).Ok?
    ensures |Keys(s, keys, MapMethod).value.flags| == |Keys(t, keys, MapMethod).value.flags|
  {
  }
}
