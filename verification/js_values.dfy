/** The JavaScript values the validator can meet, with the two pieces of the
    language it relies on: the `typeof` operator and truthiness. */
module JsValues {

  /** A JavaScript value. Numbers are integers (no fractions, no NaN);
      functions and symbols carry no content, since the validator only ever
      asks for their `typeof` and their truthiness. An `Obj` stands for any
      non-array object (plain objects, class instances, dates, boxed
      primitives) and holds its own properties only. */
  datatype JsVal =
    | Undefined
    | Null
    | Bool(b: bool)
    | Num(n: int)
    | BigInt(big: int)
    | Str(s: string)
    | Sym
    | Func
    | Arr(elems: seq<JsVal>)
    | Obj(fields: map<string, JsVal>)

  /** Every string `typeof` can produce. */
  const TypeTags: set<string> :=
    {"undefined", "object", "boolean", "number", "bigint", "string", "symbol", "function"}

  /** The values `if (v)` treats as false (NaN and -0 are outside the model). */
  const FalsyValues: set<JsVal> :=
    {Undefined, Null, Bool(false), Num(0), BigInt(0), Str("")}

  /** JavaScript's `typeof v`. Note that `null` and arrays are both "object". */
  function TypeOf(v: JsVal): (tag: string)
    ensures tag in TypeTags
    ensures tag == "object" <==> v.Null? || v.Arr? || v.Obj?
  {
    match v
    case Undefined => "undefined"
    case Null => "object"
    case Bool(_) => "boolean"
    case Num(_) => "number"
    case BigInt(_) => "bigint"
    case Str(_) => "string"
    case Sym => "symbol"
    case Func => "function"
    case Arr(_) => "object"
    case Obj(_) => "object"
  }

  /** JavaScript truthiness, the test `if (v)` performs. */
  function Truthy(v: JsVal): (r: bool)
    ensures !r <==> v in FalsyValues
  {
    match v
    case Undefined => false
    case Null => false
    case Bool(b) => b
    case Num(n) => n != 0
    case BigInt(i) => i != 0
    case Str(s) => s != ""
    case Sym => true
    case Func => true
    case Arr(_) => true
    case Obj(_) => true
  }

  /** Every truthy value whose `typeof` is "object" is an array or a plain
      object: `null` is the only falsy object. */
  lemma TruthyObjectIsArrOrObj(v: JsVal)
    requires Truthy(v) && TypeOf(v) == "object"
    ensures v.Arr? || v.Obj?
  {
  }
}
