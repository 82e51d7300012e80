/** Chains of checks, `Valid(obj).required(a).has(b)...`, and how `isValid`
    sees their verdicts. */
module Chaining {
  import opened Wrappers
  import opened JsValues
  import opened Subjects
  import opened Schemas
  import opened Valid

  /** One call of a check method, with its argument. */
  datatype Check =
    | RequiredCheck(keys: seq<string>)
    | HasCheck(keys: seq<string>)
    | HasOneCheck(keys: seq<string>)
    | ValuesCheck(schema: Schema)

  /** The entries of `_valid`: "required", "has", "has_one", "values". */
  datatype Slot = RequiredSlot | HasSlot | HasOneSlot | ValuesSlot

  function SlotOf(c: Check): Slot {
    match c
    case RequiredCheck(_) => RequiredSlot
    case HasCheck(_) => HasSlot
    case HasOneCheck(_) => HasOneSlot
    case ValuesCheck(_) => ValuesSlot
  }

  function SlotValue(v: Validator, k: Slot): Option<bool> {
    match k
    case RequiredSlot => v.required
    case HasSlot => v.has
    case HasOneSlot => v.hasOne
    case ValuesSlot => v.values
  }

  /** Whether the check reads the subject at all: a check over no keys, or
      over an empty schema, never calls back and so cannot throw. */
  predicate ReadsSubject(c: Check) {
    match c
    case ValuesCheck(schema) => |schema| > 0
    case _ => |c.keys| > 0
  }

  /** The verdict each check records, stated independently of how the source
      computes it. */
  predicate Expected(s: Subject, c: Check) {
    match c
    case RequiredCheck(keys) => forall i :: 0 <= i < |keys| ==> Present(s, keys[i])
    case HasCheck(keys) => exists i :: 0 <= i < |keys| && Present(s, keys[i])
    case HasOneCheck(keys) => |keys| == 1
    case ValuesCheck(schema) => SchemaHolds(s, schema)
  }

  /** One method call of the chain. */
  ghost function Apply(v: Validator, c: Check): (r: Result<Validator, TypeError>)
    ensures r.Err? <==> v.subject.NullSubject? && ReadsSubject(c)
    ensures r.Err? ==> r.error == ReadOfNull
    ensures r.Ok? ==> r.value.subject == v.subject
    ensures r.Ok? ==> SlotValue(r.value, SlotOf(c)) == Some(Expected(v.subject, c))
    ensures r.Ok? ==> forall k :: k != SlotOf(c) ==> SlotValue(r.value, k) == SlotValue(v, k)
  {
    match c
    case RequiredCheck(keys) => Required(v, keys)
    case HasCheck(keys) => Has(v, keys)
    case HasOneCheck(keys) => HasOne(v, keys)
    case ValuesCheck(schema) => Values(v, schema)
  }

  /** A chain of calls, left to right; the first throw ends it. */
  ghost function Run(v: Validator, cs: seq<Check>): Result<Validator, TypeError>
    decreases |cs|
  {
    if |cs| == 0 then Ok(v)
    else
      var w :- Apply(v, cs[0]);
      Run(w, cs[1..])
  }

  /** No later check of the chain writes the slot check `i` writes. */
  predicate LastOfItsSlot(cs: seq<Check>, i: int)
    requires 0 <= i < |cs|
  {
    forall j :: i < j < |cs| ==> SlotOf(cs[j]) != SlotOf(cs[i])
  }

  predicate Mentions(cs: seq<Check>, k: Slot) {
    exists i :: 0 <= i < |cs| && SlotOf(cs[i]) == k
  }

  /** Each check of the chain is called at most once. */
  predicate DistinctSlots(cs: seq<Check>) {
    forall i, j :: 0 <= i < j < |cs| ==> SlotOf(cs[i]) != SlotOf(cs[j])
  }

  /** Two validators with the same subject and the same four slots are equal. */
  lemma SlotsDetermine(a: Validator, b: Validator)
    requires a.subject == b.subject
    requires forall k :: SlotValue(a, k) == SlotValue(b, k)
    ensures a == b
  {
    assert SlotValue(a, RequiredSlot) == SlotValue(b, RequiredSlot);
    assert SlotValue(a, HasSlot) == SlotValue(b, HasSlot);
    assert SlotValue(a, HasOneSlot) == SlotValue(b, HasOneSlot);
    assert SlotValue(a, ValuesSlot) == SlotValue(b, ValuesSlot);
  }

  /** What a chain leaves behind: it throws exactly when the subject is
      `null` and some check reads it; otherwise each slot holds the verdict
      of the last check that wrote it, slots no check wrote are unchanged,
      and the subject is untouched. */
  lemma {:induction false} RunSlots(v: Validator, cs: seq<Check>)
    ensures Run(v, cs).Err? <==>
      v.subject.NullSubject? && exists i :: 0 <= i < |cs| && ReadsSubject(cs[i])
    ensures Run(v, cs).Err? ==> Run(v, cs).error == ReadOfNull
    ensures Run(v, cs).Ok? ==> Run(v, cs).value.subject == v.subject
    ensures Run(v, cs).Ok? ==> forall i :: 0 <= i < |cs| && LastOfItsSlot(cs, i) ==>
      SlotValue(Run(v, cs).value, SlotOf(cs[i])) == Some(Expected(v.subject, cs[i]))
    ensures Run(v, cs).Ok? ==> forall k :: !Mentions(cs, k) ==>
      SlotValue(Run(v, cs).value, k) == SlotValue(v, k)
    decreases |cs|
  {
    if |cs| > 0 {
      var rest := cs[1..];
      if Apply(v, cs[0]).Ok? {
        var w := Apply(v, cs[0]).value;
        RunSlots(w, rest);
        assert Run(v, cs) == Run(w, rest);
        if exists i :: 0 <= i < |rest| && ReadsSubject(rest[i]) {
          var i :| 0 <= i < |rest| && ReadsSubject(rest[i]);
          assert cs[i + 1] == rest[i];
        }
        if Run(v, cs).Ok? {
          var r := Run(v, cs).value;
          forall i | 0 <= i < |cs| && LastOfItsSlot(cs, i)
            ensures SlotValue(r, SlotOf(cs[i])) == Some(Expected(v.subject, cs[i]))
          {
            if i > 0 {
              assert rest[i - 1] == cs[i];
              forall j | i - 1 < j < |rest|
                ensures SlotOf(rest[j]) != SlotOf(rest[i - 1])
              {
                assert rest[j] == cs[j + 1];
              }
              assert LastOfItsSlot(rest, i - 1);
            }
          }
          forall k | !Mentions(cs, k)
            ensures SlotValue(r, k) == SlotValue(v, k)
          {
            assert SlotOf(cs[0]) != k;
          }
        }
      }
    }
  }

  /** Calling a check again replaces its earlier verdict: the earlier call
      leaves no trace. */
  lemma ReinvokeOverwrites(v: Validator, c: Check, d: Check)
    requires SlotOf(c) == SlotOf(d)
    requires Apply(v, c).Ok?
    ensures Apply(Apply(v, c).value, d) == Apply(v, d)
  {
    var w := Apply(v, c).value;
    if Apply(w, d).Ok? {
      SlotsDetermine(Apply(w, d).value, Apply(v, d).value);
    }
  }

  /** Checks of different kinds commute, throws included. */
  lemma ChecksCommute(v: Validator, c: Check, d: Check)
    requires SlotOf(c) != SlotOf(d)
    ensures Run(v, [c, d]) == Run(v, [d, c])
  {
    RunSlots(v, [c, d]);
    RunSlots(v, [d, c]);
    assert [c, d][1..] == [d] && [d, c][1..] == [c];
    if Run(v, [c, d]).Ok? && Run(v, [d, c]).Ok? {
      var a := Run(v, [c, d]).value;
      var b := Run(v, [d, c]).value;
      assert LastOfItsSlot([c, d], 0) && LastOfItsSlot([c, d], 1);
      assert LastOfItsSlot([d, c], 0) && LastOfItsSlot([d, c], 1);
      forall k
        ensures SlotValue(a, k) == SlotValue(b, k)
      {
        if k == SlotOf(c) {
          assert [c, d][0] == c && [d, c][1] == c;
        } else if k == SlotOf(d) {
          assert [c, d][1] == d && [d, c][0] == d;
        } else {
          assert !Mentions([c, d], k) && !Mentions([d, c], k);
        }
      }
      SlotsDetermine(a, b);
    }
  }

  /** When each check is called at most once, `isValid()` at the end of a
      chain that did not throw is the conjunction of the checks' verdicts. */
  lemma {:induction false} ChainIsConjunction(s: Subject, cs: seq<Check>)
    requires DistinctSlots(cs)
    ensures s.ObjectSubject? ==> Run(Fresh(s), cs).Ok?
    ensures Run(Fresh(s), cs).Ok? ==>
      (IsValid(Run(Fresh(s), cs).value) <==> forall i :: 0 <= i < |cs| ==> Expected(s, cs[i]))
  {
    RunSlots(Fresh(s), cs);
    if Run(Fresh(s), cs).Ok? {
      var r := Run(Fresh(s), cs).value;
      forall i | 0 <= i < |cs|
        ensures SlotValue(r, SlotOf(cs[i])) == Some(Expected(s, cs[i]))
      {
        assert LastOfItsSlot(cs, i);
      }
      forall k
        ensures SlotValue(r, k) != Some(false) <==>
                (forall i :: 0 <= i < |cs| && SlotOf(cs[i]) == k ==> Expected(s, cs[i]))
      {
        if !Mentions(cs, k) {
          assert SlotValue(Fresh(s), k) == None;
        }
      }
      assert IsValid(r) <==> forall k :: SlotValue(r, k) != Some(false) by {
        assert SlotValue(r, RequiredSlot) == r.required;
        assert SlotValue(r, HasSlot) == r.has;
        assert SlotValue(r, HasOneSlot) == r.hasOne;
        assert SlotValue(r, ValuesSlot) == r.values;
      }
    }
  }

  /** A chain in which each check is called at most once gives the same
      result in any order. */
  lemma RunOrderIrrelevant(v: Validator, cs: seq<Check>, ds: seq<Check>)
    requires DistinctSlots(cs) && DistinctSlots(ds)
    requires multiset(cs) == multiset(ds)
    ensures Run(v, cs) == Run(v, ds)
  {
    RunSlots(v, cs);
    RunSlots(v, ds);
    forall c | c in cs
      ensures c in ds
    {
      assert c in multiset(cs);
    }
    forall d | d in ds
      ensures d in cs
    {
      assert d in multiset(ds);
    }
    if exists i :: 0 <= i < |cs| && ReadsSubject(cs[i]) {
      var i :| 0 <= i < |cs| && ReadsSubject(cs[i]);
      assert cs[i] in ds;
    }
    if exists j :: 0 <= j < |ds| && ReadsSubject(ds[j]) {
      var j :| 0 <= j < |ds| && ReadsSubject(ds[j]);
      assert ds[j] in cs;
    }
    if Run(v, cs).Ok? && Run(v, ds).Ok? {
      var a := Run(v, cs).value;
      var b := Run(v, ds).value;
      forall k
        ensures SlotValue(a, k) == SlotValue(b, k)
      {
        if Mentions(cs, k) {
          var i :| 0 <= i < |cs| && SlotOf(cs[i]) == k;
          assert cs[i] in ds;
          var j :| 0 <= j < |ds| && ds[j] == cs[i];
          assert LastOfItsSlot(cs, i) && LastOfItsSlot(ds, j);
        } else {
          forall j | 0 <= j < |ds|
            ensures SlotOf(ds[j]) != k
          {
            assert ds[j] in cs;
          }
        }
      }
      SlotsDetermine(a, b);
    }
  }
}
