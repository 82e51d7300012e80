# simple-validation in Dafny

A model of `Valid`, the object-shape validator of the simple-validation
library (`index.js`). A validator wraps one subject object and records up to
four boolean verdicts in its `_valid` map: `required` (every key present),
`has` (some key present), `hasOne` and `values` (truthy values match a type
schema). `isValid()` then reduces the recorded verdicts to one boolean.

The model is functional. JavaScript values are the datatype `JsValues.JsVal`,
with `typeof` (`TypeOf`) and truthiness (`Truthy`). The constructor guard
admits any non-array object or `null`, so a validator's subject is a
`Subjects.Subject`: `ObjectSubject(fields)` or `NullSubject`. A validator is
the record `Valid.Validator`, with one `Option<bool>` slot per `_valid`
entry. Each check method is a pure function that returns the updated
validator, or `Err(TypeError)` where the JavaScript would throw. The
`values` check visits the schema's keys in an unspecified order, which cannot
change its outcome; it is therefore a ghost function, and so are the chain
functions built on it.

The model follows the code as written. In three places the code differs from
what the library's doc comments and tests describe:

- **Lookup is flat.** A key is read as `subject[key] !== undefined`, so
  `"nested.hello"` is one literal key and no path is walked.
  `Subjects.PresenceIsFlat` states this. `TestSuite.RequiredNestedIsFalse`
  shows that the nested `required` test case gives false on the test fixture.
- **A key bound to `undefined` counts as absent.** The callback compares the
  value with `undefined`. It does not test whether the property exists.
- **`hasOne` does not count present keys.** It sends the keys through
  `Array.prototype.map`, which returns one entry per key. So the verdict is
  `|keys| == 1`, whatever the subject holds (`Valid.HasOne`,
  `KeyChecks.MapLengthIgnoresSubject`, `TestSuite.HasOneCountsKeys`). As a
  result, the nested `hasOne` test case gives false.

Reading a property of a `null` subject throws a TypeError. A check over no
keys, or over an empty schema, reads nothing and so succeeds even on `null`.
The model keeps this error path and does not forbid a `null` subject.

## Model

| member | source | states |
|---|---|---|
| JsValues.TypeOf | index.js:132 | `typeof` always yields one of the eight type tags; it is "object" exactly for `null`, arrays and other objects |
| JsValues.Truthy | index.js:127 | a value is falsy exactly when it is `undefined`, `null`, `false`, `0`, `0n` or `""` |
| Subjects.PresenceIsFlat | index.js:114 | presence of a key depends only on the subject's own entry under that exact string, never on nested objects |
| KeyChecks.EveryDefined | index.js:110-116 | `keys.every(cb)` is true iff every key is present (so true for no keys); it throws iff the subject is `null` and there is a key to read |
| KeyChecks.SomeDefined | index.js:110-116 | `keys.some(cb)` is true iff at least one key is present (so false for no keys); it throws iff the subject is `null` and there is a key to read |
| KeyChecks.MapDefined | index.js:110-116 | `keys.map(cb)` returns one flag per key, in order, each saying whether that key is present |
| KeyChecks.Keys | index.js:21-25 | `_keys` dispatches on the TYPES table: `every` and `some` yield a boolean with the meanings above, and `map` yields one flag per key saying whether that key is present |
| KeyChecks.MapLengthIgnoresSubject | index.js:24 | the length of the array `map` returns is the same for every object subject |
| Schemas.ScanSchema | index.js:126-136 | the scan over the keys still to visit, reading each, skipping falsy values and stopping with false at the first truthy value of the wrong type, is true iff every visited key's value conforms; it throws iff the subject is `null` and a key remains |
| Schemas.ValuesVerdict | index.js:125-139 | `_values(schema)` is true iff every schema key whose subject value is truthy has an array (tag "array") or a value whose `typeof` equals the tag; it throws iff the subject is `null` and the schema is non-empty |
| Schemas.ValuesLoop | index.js:125-139 | the same loop written imperatively, with early return, computes exactly `ValuesVerdict` and so the same verdict and error condition |
| Schemas.FalsyValuesNeverChecked | index.js:127 | a schema key whose subject value is falsy or absent can be dropped from the schema without changing the verdict |
| Schemas.UnnamedKeysIgnored | index.js:126-136 | adding or changing a subject key that the schema does not name leaves the verdict unchanged |
| Schemas.ArrayTags | index.js:128-133 | under "array" a truthy value passes iff it is an array; under "object" a truthy value passes iff it is an array or another object |
| Schemas.NonStringTagRejectsTruthy | index.js:132-133 | a schema tag that is not a string rejects every truthy value |
| Valid.New | index.js:7-13 | construction fails with TypeError('Expected object') iff `typeof obj` is not "object" or `obj` is an array; `null` passes; a new instance has no verdicts and wraps `obj` |
| Valid.Required | index.js:35-38 | `required` records true iff every key is present; it changes only the "required" slot; it throws iff the subject is `null` and keys is non-empty |
| Valid.Has | index.js:48-51 | `has` records true iff some key is present; it changes only the "has" slot; it throws iff the subject is `null` and keys is non-empty |
| Valid.HasOne | index.js:61-64 | `hasOne` records whether exactly one key was passed, independent of the subject; it changes only the "has_one" slot |
| Valid.Values | index.js:84-87 | `values` records whether every truthy schema-named value conforms to its tag; it changes only the "values" slot; it throws iff the subject is `null` and the schema is non-empty |
| Valid.AllTrue | index.js:96-100 | the for-in loop of `isValid` returns true iff every recorded verdict is true |
| Valid.IsValid | index.js:95-101 | `isValid()` is true iff no slot holds a false verdict, so it is true when no check has run |
| Valid.FreshIsValid | index.js:10-11 | a freshly constructed validator is valid |
| Chaining.Apply | index.js:35-87 | each check method writes its own slot with the check's meaning, leaves the other slots and the subject unchanged, and throws only on a `null` subject it has to read |
| Chaining.RunSlots | index.js:35-87 | after a chain of checks, each slot holds the verdict of the last check that wrote it and unwritten slots are unchanged; the chain throws iff the subject is `null` and some check reads it |
| Chaining.ReinvokeOverwrites | index.js:36-37 | calling a check again replaces its earlier verdict, so the earlier call leaves no trace |
| Chaining.ChecksCommute | index.js:35-87 | two checks of different kinds give the same validator, or the same error, in either order |
| Chaining.ChainIsConjunction | index.js:95-101 | when each check is called at most once, `isValid()` after the chain is the AND of the checks' verdicts; on an object subject the chain never throws |
| Chaining.RunOrderIrrelevant | index.js:95-101 | any reordering of a chain in which each check appears at most once gives the same result |
| TestSuite.ConstructorCases | test/simple-validation.js:21-39 | an undefined argument or an array is rejected with TypeError; a plain object and `null` are accepted |
| TestSuite.RequiredCases | test/simple-validation.js:43-51 | on the fixture, required(['foo','test','baz']) is true and required(['foo','test','hello']) is false |
| TestSuite.RequiredNestedIsFalse | test/simple-validation.js:53-56 | the path nested.hello exists when walked, but required(['foo','nested.hello']) is false, against the test's expectation |
| TestSuite.HasCases | test/simple-validation.js:60-73 | the fixture's `has` cases hold, including the nested case, which passes because 'foo' is present |
| TestSuite.HasOneCases | test/simple-validation.js:77-85 | hasOne(['foo']) is true and hasOne(['foo','test']) is false |
| TestSuite.HasOneCountsKeys | test/simple-validation.js:87-90 | hasOne(['hello']) is true although 'hello' is absent; hasOne(['foo','missing']) and the nested case are false |
| TestSuite.ValuesCases | test/simple-validation.js:94-123 | the three schema cases of the test suite give true, true (the unknown key is ignored) and false |
| TestSuite.FalsyLeniency | index.js:127 | `0` under "string" and `""` under "number" pass, and so does an absent key |
| TestSuite.IsValidCases | test/simple-validation.js:127-133 | isValid is true after a satisfied required check and false after a failed one |
| TestSuite.ChainingCase | test/simple-validation.js:137-143 | required(['foo','test']).has(['baz']) is valid on the fixture |

## Left out

- Calling `Valid(obj)` without `new` (index.js:4-5) is a JavaScript convenience. The model has one constructor, `Valid.New`.
- The export wrapper (index.js:141-148) is environment plumbing.
- Prototype-chain lookup is left out. A subject is a map of its own properties only. In JavaScript, inherited names such as `toString` would count as present. A for-in over the schema would also visit inherited enumerable keys.
- Keys are strings. JavaScript would convert other key values to strings. A `keys` argument that is not an array would throw, and holes in a sparse array are skipped by `every`, `some` and `map`. None of these is modelled.
- A schema is a map. A `null` or non-object schema, and the order of its keys, are not modelled. The order cannot change the verdict.
- Numbers are integers. Fractions, NaN (which is falsy) and -0 are left out.
- Getters, proxies and other code that runs when a property is read are left out, because they cannot be seen from the validator.
- The instance is mutable, and each JavaScript method returns the same object. Each model check instead returns the updated validator value. Later changes to the shared subject object are not modelled.
- The nested-path lookup and the exactly-one-present `hasOne` that the doc comments and tests describe are not implemented by the code. `TestSuite.WalkPath` appears only to show that difference.
