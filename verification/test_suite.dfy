/** The repository's test suite restated against the model, on its fixture
    object. Two of its cases expect nested-path lookup and an "exactly one
    present" hasOne; the code implements neither, and the lemmas below record
    what the code does in those cases. */
module TestSuite {
  import opened Wrappers
  import opened JsValues
  import opened Subjects
  import opened Schemas
  import opened Valid
  import opened Chaining

  /** `{ foo: 'bar', bar: 'foo', test: true, baz: ['hello', 'world'],
        nested: { hello: 'world' } }` */
  const FixtureFields: map<string, JsVal> := map[
    "foo" := Str("bar"),
    "bar" := Str("foo"),
    "test" := Bool(true),
    "baz" := Arr([Str("hello"), Str("world")]),
    "nested" := Obj(map["hello" := Str("world")])
  ]

  const Fixture: Subject := ObjectSubject(FixtureFields)

  /** The nested-path lookup the documentation describes: walk own
      properties segment by segment. The code does not do this. */
  predicate WalkPath(v: JsVal, segments: seq<string>)
    decreases |segments|
  {
    |segments| > 0 && v.Obj? && segments[0] in v.fields &&
    (|segments| == 1 || WalkPath(v.fields[segments[0]], segments[1..]))
  }

  lemma ConstructorCases()
    ensures New(Undefined).Err? && New(Undefined).error == ExpectedObject
    ensures New(Arr([Str("foo"), Str("bar")])).Err?
    ensures New(Obj(map["test" := Bool(true)])).Ok?
    ensures New(Null).Ok? && New(Null).value.subject == NullSubject
    ensures New(Str("x")).Err? && New(Num(1)).Err? && New(Func).Err?
  {
  }

  lemma RequiredCases()
    ensures Required(Fresh(Fixture), ["foo", "test", "baz"]).value.required == Some(true)
    ensures Required(Fresh(Fixture), ["foo", "test", "hello"]).value.required == Some(false)
    ensures Required(Fresh(Fixture), []).value.required == Some(true)
  {
    assert !Present(Fixture, "hello");
  }

  /** The nested test expects true; the path exists by walking, but the code
      looks up the literal key "nested.hello", which the fixture lacks. */
  lemma RequiredNestedIsFalse()
    ensures WalkPath(Obj(FixtureFields), ["nested", "hello"])
    ensures Required(Fresh(Fixture), ["foo", "nested.hello"]).value.required == Some(false)
  {
    assert !Present(Fixture, "nested.hello");
  }

  lemma HasCases()
    ensures Has(Fresh(Fixture), ["foo", "test", "hello"]).value.has == Some(true)
    ensures Has(Fresh(Fixture), ["hello", "wooo"]).value.has == Some(false)
    ensures Has(Fresh(Fixture), ["foo", "nested.hello"]).value.has == Some(true)
    ensures Has(Fresh(Fixture), []).value.has == Some(false)
  {
    assert Present(Fixture, ["foo", "test", "hello"][0]);
    assert Present(Fixture, ["foo", "nested.hello"][0]);
    assert !Present(Fixture, "hello") && !Present(Fixture, "wooo");
  }

  lemma HasOneCases()
    ensures HasOne(Fresh(Fixture), ["foo"]).value.hasOne == Some(true)
    ensures HasOne(Fresh(Fixture), ["foo", "test"]).value.hasOne == Some(false)
  {
  }

  /** hasOne counts keys, not present keys: one absent key passes, one
      present key beside an absent one fails, and the nested test case (which
      expects true) fails. */
  lemma HasOneCountsKeys()
    ensures !Present(Fixture, "hello")
    ensures HasOne(Fresh(Fixture), ["hello"]).value.hasOne == Some(true)
    ensures Present(Fixture, "foo") && !Present(Fixture, "missing")
    ensures HasOne(Fresh(Fixture), ["foo", "missing"]).value.hasOne == Some(false)
    ensures HasOne(Fresh(Fixture), ["nested.hello", "blimp"]).value.hasOne == Some(false)
  {
  }

  lemma ValuesCases()
    ensures Values(Fresh(Fixture), map["foo" := Str("string"), "test" := Str("boolean"),
                                      "baz" := ArrayTag]).value.values == Some(true)
    ensures Values(Fresh(Fixture), map["foo" := Str("string"), "test" := Str("boolean"),
                                      "baz" := ArrayTag, "hello" := Str("number")]).value.values == Some(true)
    ensures Values(Fresh(Fixture), map["foo" := Str("string"), "test" := Str("object"),
                                      "baz" := ArrayTag]).value.values == Some(false)
  {
    var bad := map["foo" := Str("string"), "test" := Str("object"), "baz" := ArrayTag];
    assert !Conforms(ValueAt(Fixture, "test"), bad["test"]);
  }

  /** Falsy values escape the type check: `0` passes under "string", `""`
      under "number", and an absent key under any tag. */
  lemma FalsyLeniency()
    ensures Values(Fresh(ObjectSubject(map["count" := Num(0)])),
                   map["count" := Str("string")]).value.values == Some(true)
    ensures Values(Fresh(ObjectSubject(map["count" := Str("")])),
                   map["count" := Str("number"), "flag" := Str("boolean")]).value.values == Some(true)
  {
  }

  lemma IsValidCases()
    ensures IsValid(Required(Fresh(Fixture), ["foo", "test"]).value)
    ensures !IsValid(Required(Fresh(Fixture), ["woo"]).value)
  {
    assert !Present(Fixture, ["woo"][0]);
  }

  /** `Valid(obj).required(['foo', 'test']).has(['baz'])` */
  lemma ChainingCase()
    ensures Run(Fresh(Fixture), [RequiredCheck(["foo", "test"]), HasCheck(["baz"])]).Ok?
    ensures IsValid(Run(Fresh(Fixture), [RequiredCheck(["foo", "test"]), HasCheck(["baz"])]).value)
  {
    var cs := [RequiredCheck(["foo", "test"]), HasCheck(["baz"])];
    ChainIsConjunction(Fixture, cs);
    assert Expected(Fixture, cs[1]) by {
      assert Present(Fixture, cs[1].keys[0]);
    }
  }
}
