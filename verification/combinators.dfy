/** Properties of the predicates built by `allOf`, `anyOf` and `includes`.
    Each quantifies over the elements of an array and is false on anything
    else; a check that throws inside them propagates. */
module Combinators {
  import opened Completions
  import opened Values
  import opened Conditions

  /** `allOf(...conds)(v)` holds exactly when `v` is an array and every
      element satisfies every condition, so vacuously for `[]` or no
      conditions; it returns a boolean whenever none of those checks throws. */
  lemma AllOfMeaning(conds: seq<Condition>, v: Value)
    ensures !v.Arr? ==> Check(AllOf(conds), v) == Normal(false)
    ensures v.Arr? ==>
              (Check(AllOf(conds), v) == Normal(true) <==>
               forall i, j :: 0 <= i < |conds| && 0 <= j < |v.elems| ==> Check(conds[i], v.elems[j]) == Normal(true))
    ensures v.Arr? && (forall i, j :: 0 <= i < |conds| && 0 <= j < |v.elems| ==> Check(conds[i], v.elems[j]).Normal?) ==>
              Check(AllOf(conds), v).Normal?
    ensures v.Arr? && (|conds| == 0 || |v.elems| == 0) ==> Check(AllOf(conds), v) == Normal(true)
  {
    if v.Arr? {
      EveryConditionSteps(conds, v.elems);
    }
  }

  /** `anyOf(...conds)(v)` fails exactly when `v` is not an array or no
      element satisfies any condition, so for `[]` and for no conditions; it
      holds only when some element satisfies some condition, and returns a
      boolean whenever none of those checks throws. */
  lemma AnyOfMeaning(conds: seq<Condition>, v: Value)
    ensures !v.Arr? ==> Check(AnyOf(conds), v) == Normal(false)
    ensures v.Arr? ==>
              (Check(AnyOf(conds), v) == Normal(false) <==>
               forall i, j :: 0 <= i < |conds| && 0 <= j < |v.elems| ==> Check(conds[i], v.elems[j]) == Normal(false))
    ensures Check(AnyOf(conds), v) == Normal(true) ==>
              v.Arr? && exists i, j :: 0 <= i < |conds| && 0 <= j < |v.elems| && Check(conds[i], v.elems[j]) == Normal(true)
    ensures v.Arr? && (forall i, j :: 0 <= i < |conds| && 0 <= j < |v.elems| ==> Check(conds[i], v.elems[j]).Normal?) ==>
              Check(AnyOf(conds), v).Normal?
    ensures |conds| == 0 || (v.Arr? && |v.elems| == 0) ==> Check(AnyOf(conds), v) == Normal(false)
  {
    if v.Arr? {
      SomeConditionSteps(conds, v.elems);
    }
  }

  /** `includes(target)(v)` never throws, and holds exactly when `v` is an
      array with an element equal to `target`. */
  lemma IncludesMeaning(target: Value, v: Value)
    ensures Check(Includes(target), v).Normal?
    ensures Check(Includes(target), v).value <==>
              v.Arr? && exists j :: 0 <= j < |v.elems| && v.elems[j] == target
  {
  }

  /** `includes(target)` is `anyOf(x => x === target)` on every value: both
      are false off arrays, and on an array both look for an element equal
      to the target. */
  lemma IncludesIsAnyOfEquals(target: Value, v: Value)
    ensures Check(Includes(target), v) == Check(AnyOf([Pred((x: Value) => x == target)]), v)
  {
    AnyOfMeaning([Pred((x: Value) => x == target)], v);
  }

  lemma {:induction false} EveryConditionSteps(conds: seq<Condition>, xs: seq<Value>)
    ensures EveryCondition(conds, xs) == Normal(true) <==>
              forall i, j :: 0 <= i < |conds| && 0 <= j < |xs| ==> Check(conds[i], xs[j]) == Normal(true)
    ensures (forall i, j :: 0 <= i < |conds| && 0 <= j < |xs| ==> Check(conds[i], xs[j]).Normal?) ==>
              EveryCondition(conds, xs).Normal?
  {
    if |conds| > 0 {
      EveryElementSteps(conds[0], xs);
      EveryConditionSteps(conds[1..], xs);
      assert forall i :: 1 <= i < |conds| ==> conds[1..][i - 1] == conds[i];
    }
  }

  lemma {:induction false} EveryElementSteps(c: Condition, xs: seq<Value>)
    ensures EveryElement(c, xs) == Normal(true) <==> forall j :: 0 <= j < |xs| ==> Check(c, xs[j]) == Normal(true)
    ensures (forall j :: 0 <= j < |xs| ==> Check(c, xs[j]).Normal?) ==> EveryElement(c, xs).Normal?
  {
    if |xs| > 0 {
      EveryElementSteps(c, xs[1..]);
      assert forall j :: 1 <= j < |xs| ==> xs[1..][j - 1] == xs[j];
    }
  }

  lemma {:induction false} SomeConditionSteps(conds: seq<Condition>, xs: seq<Value>)
    ensures SomeCondition(conds, xs) == Normal(false) <==>
              forall i, j :: 0 <= i < |conds| && 0 <= j < |xs| ==> Check(conds[i], xs[j]) == Normal(false)
    ensures SomeCondition(conds, xs) == Normal(true) ==>
              exists i, j :: 0 <= i < |conds| && 0 <= j < |xs| && Check(conds[i], xs[j]) == Normal(true)
    ensures (forall i, j :: 0 <= i < |conds| && 0 <= j < |xs| ==> Check(conds[i], xs[j]).Normal?) ==>
              SomeCondition(conds, xs).Normal?
  {
    if |conds| > 0 {
      SomeElementSteps(conds[0], xs);
      SomeConditionSteps(conds[1..], xs);
      assert forall i :: 1 <= i < |conds| ==> conds[1..][i - 1] == conds[i];
    }
  }

  lemma {:induction false} SomeElementSteps(c: Condition, xs: seq<Value>)
    ensures SomeElement(c, xs) == Normal(false) <==> forall j :: 0 <= j < |xs| ==> Check(c, xs[j]) == Normal(false)
    ensures SomeElement(c, xs) == Normal(true) ==> exists j :: 0 <= j < |xs| && Check(c, xs[j]) == Normal(true)
    ensures (forall j :: 0 <= j < |xs| ==> Check(c, xs[j]).Normal?) ==> SomeElement(c, xs).Normal?
  {
    if |xs| > 0 {
      SomeElementSteps(c, xs[1..]);
      assert forall j :: 1 <= j < |xs| ==> xs[1..][j - 1] == xs[j];
    }
  }
}
