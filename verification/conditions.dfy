/** The condition evaluator `checkCondition` of src/match/pattern-match.ts.

    A condition is a predicate, a template (an object whose entries are
    sub-conditions) or anything else, which never matches. The combinators
    `allOf`, `anyOf` and `includes` return predicates; they are constructors
    here so that the faults of the checks they run inside are visible.
 */
module Conditions {
  import opened Completions
  import opened Values

  datatype Condition =
    | Pred(test: Value -> bool)
      /** The entries of a template object, in `Object.keys` order. A
          JavaScript object has no duplicate key; a list that repeats one
          checks each entry in turn. */
    | Template(fields: seq<Field>)
    | AllOf(conds: seq<Condition>)
    | AnyOf(conds: seq<Condition>)
    | Includes(target: Value)
      /** A condition that is neither a function nor an object. */
    | Malformed

  datatype Field = Field(key: string, cond: Condition)

  /** `checkCondition(condition, param)`: a predicate is called, a template
      checks its keys in order and stops at the first that fails, anything
      else is false. A template with a key reads that key of the value, which
      throws on `null` and `undefined`. */
  function Check(c: Condition, v: Value): (r: Completion<bool>)
    decreases c, 1
    ensures c.Pred? ==> r == Normal(c.test(v))
    ensures c.Malformed? ==> r == Normal(false)
    ensures c.Template? && |c.fields| == 0 ==> r == Normal(true)
    ensures c.Template? && |c.fields| > 0 && v.Nullish() ==> r == TypeError(c.fields[0].key)
    ensures (c.AllOf? || c.AnyOf? || c.Includes?) && !v.Arr? ==> r == Normal(false)
  {
    match c
    case Pred(test) => Normal(test(v))
    case Template(fields) => EveryField(fields, v)
    case AllOf(conds) => if v.Arr? then EveryCondition(conds, v.elems) else Normal(false)
    case AnyOf(conds) => if v.Arr? then SomeCondition(conds, v.elems) else Normal(false)
    case Includes(target) => Normal(v.Arr? && target in v.elems)
    case Malformed => Normal(false)
  }

  /** The walk of a template over its fields in key order: each key is read
      from the value, which throws on `null` and `undefined`, and the field's
      sub-condition is checked on what was read; the walk is false at the
      first field that fails and checks nothing after it. */
  function EveryField(fields: seq<Field>, v: Value): Completion<bool>
    decreases fields, 0
  {
    if |fields| == 0 then Normal(true)
    else
      var x :- Read(v, fields[0].key);
      var b :- Check(fields[0].cond, x);
      if b then EveryField(fields[1..], v) else Normal(false)
  }

  /** The check behind `allOf` on the elements of an array: each condition in
      turn must hold on every element; it stops at the first failure or
      throw. */
  function EveryCondition(conds: seq<Condition>, xs: seq<Value>): Completion<bool>
    decreases conds, 0
  {
    if |conds| == 0 then Normal(true)
    else
      var b :- EveryElement(conds[0], xs);
      if b then EveryCondition(conds[1..], xs) else Normal(false)
  }

  function EveryElement(c: Condition, xs: seq<Value>): Completion<bool>
    decreases c, |xs| + 2
  {
    if |xs| == 0 then Normal(true)
    else
      var b :- Check(c, xs[0]);
      if b then EveryElement(c, xs[1..]) else Normal(false)
  }

  /** The check behind `anyOf` on the elements of an array: conditions are
      tried in turn, each over the elements in order, until one holds on some
      element; it stops at the first success or throw. */
  function SomeCondition(conds: seq<Condition>, xs: seq<Value>): Completion<bool>
    decreases conds, 0
  {
    if |conds| == 0 then Normal(false)
    else
      var b :- SomeElement(conds[0], xs);
      if b then Normal(true) else SomeCondition(conds[1..], xs)
  }

  function SomeElement(c: Condition, xs: seq<Value>): Completion<bool>
    decreases c, |xs| + 2
  {
    if |xs| == 0 then Normal(false)
    else
      var b :- Check(c, xs[0]);
      if b then Normal(true) else SomeElement(c, xs[1..])
  }

  /** The declarative meaning of a condition, with every property read made
      total: what `Check` computes whenever it does not throw. */
  ghost predicate Holds(c: Condition, v: Value)
    decreases c
  {
    match c
    case Pred(test) => test(v)
    case Template(fields) =>
      forall i :: 0 <= i < |fields| ==> Holds(fields[i].cond, FieldOf(v, fields[i].key))
    case AllOf(conds) =>
      v.Arr? && forall i, j :: 0 <= i < |conds| && 0 <= j < |v.elems| ==> Holds(conds[i], v.elems[j])
    case AnyOf(conds) =>
      v.Arr? && exists i, j :: 0 <= i < |conds| && 0 <= j < |v.elems| && Holds(conds[i], v.elems[j])
    case Includes(target) => v.Arr? && exists j :: 0 <= j < |v.elems| && v.elems[j] == target
    case Malformed => false
  }

  /** No template inside `c` is ever applied, at any depth, to a nullish
      value, so no property read of the evaluation can throw. */
  ghost predicate Safe(c: Condition, v: Value)
    decreases c
  {
    match c
    case Template(fields) =>
      && (v.Nullish() ==> |fields| == 0)
      && forall i :: 0 <= i < |fields| ==> Safe(fields[i].cond, FieldOf(v, fields[i].key))
    case AllOf(conds) =>
      v.Arr? ==> forall i, j :: 0 <= i < |conds| && 0 <= j < |v.elems| ==> Safe(conds[i], v.elems[j])
    case AnyOf(conds) =>
      v.Arr? ==> forall i, j :: 0 <= i < |conds| && 0 <= j < |v.elems| ==> Safe(conds[i], v.elems[j])
    case _ => true
  }

  /** The evaluator agrees with the declarative meaning whenever it returns,
      and it returns whenever no template meets a nullish value. */
  lemma {:induction false} CheckMeaning(c: Condition, v: Value)
    decreases c, 1
    ensures Check(c, v).Normal? ==> Check(c, v).value == Holds(c, v)
    ensures Safe(c, v) ==> Check(c, v).Normal?
  {
    match c
    case Pred(_) =>
    case Template(fields) => EveryFieldMeaning(fields, v);
    case AllOf(conds) => if v.Arr? { EveryConditionMeaning(conds, v.elems); }
    case AnyOf(conds) => if v.Arr? { SomeConditionMeaning(conds, v.elems); }
    case Includes(_) =>
    case Malformed =>
  }

  lemma {:induction false} EveryFieldMeaning(fields: seq<Field>, v: Value)
    decreases fields, 0
    ensures EveryField(fields, v).Normal? ==>
              EveryField(fields, v).value ==
              forall i :: 0 <= i < |fields| ==> Holds(fields[i].cond, FieldOf(v, fields[i].key))
    ensures (v.Nullish() ==> |fields| == 0) &&
            (forall i :: 0 <= i < |fields| ==> Safe(fields[i].cond, FieldOf(v, fields[i].key))) ==>
              EveryField(fields, v).Normal?
  {
    if |fields| > 0 && !v.Nullish() {
      var f := fields[0];
      CheckMeaning(f.cond, FieldOf(v, f.key));
      EveryFieldMeaning(fields[1..], v);
      assert forall i :: 1 <= i < |fields| ==> fields[1..][i - 1] == fields[i];
    }
  }

  lemma {:induction false} EveryConditionMeaning(conds: seq<Condition>, xs: seq<Value>)
    decreases conds, 0
    ensures EveryCondition(conds, xs).Normal? ==>
              EveryCondition(conds, xs).value ==
              forall i, j :: 0 <= i < |conds| && 0 <= j < |xs| ==> Holds(conds[i], xs[j])
    ensures (forall i, j :: 0 <= i < |conds| && 0 <= j < |xs| ==> Safe(conds[i], xs[j])) ==>
              EveryCondition(conds, xs).Normal?
  {
    if |conds| > 0 {
      EveryElementMeaning(conds[0], xs);
      EveryConditionMeaning(conds[1..], xs);
      assert forall i :: 1 <= i < |conds| ==> conds[1..][i - 1] == conds[i];
    }
  }

  lemma {:induction false} EveryElementMeaning(c: Condition, xs: seq<Value>)
    decreases c, |xs| + 2
    ensures EveryElement(c, xs).Normal? ==>
              EveryElement(c, xs).value == forall j :: 0 <= j < |xs| ==> Holds(c, xs[j])
    ensures (forall j :: 0 <= j < |xs| ==> Safe(c, xs[j])) ==> EveryElement(c, xs).Normal?
  {
    if |xs| > 0 {
      CheckMeaning(c, xs[0]);
      EveryElementMeaning(c, xs[1..]);
      assert forall j :: 1 <= j < |xs| ==> xs[1..][j - 1] == xs[j];
    }
  }

  lemma {:induction false} SomeConditionMeaning(conds: seq<Condition>, xs: seq<Value>)
    decreases conds, 0
    ensures SomeCondition(conds, xs).Normal? ==>
              SomeCondition(conds, xs).value ==
              exists i, j :: 0 <= i < |conds| && 0 <= j < |xs| && Holds(conds[i], xs[j])
    ensures (forall i, j :: 0 <= i < |conds| && 0 <= j < |xs| ==> Safe(conds[i], xs[j])) ==>
              SomeCondition(conds, xs).Normal?
  {
    if |conds| > 0 {
      SomeElementMeaning(conds[0], xs);
      SomeConditionMeaning(conds[1..], xs);
      assert forall i :: 1 <= i < |conds| ==> conds[1..][i - 1] == conds[i];
    }
  }

  lemma {:induction false} SomeElementMeaning(c: Condition, xs: seq<Value>)
    decreases c, |xs| + 2
    ensures SomeElement(c, xs).Normal? ==>
              SomeElement(c, xs).value == exists j :: 0 <= j < |xs| && Holds(c, xs[j])
    ensures (forall j :: 0 <= j < |xs| ==> Safe(c, xs[j])) ==> SomeElement(c, xs).Normal?
  {
    if |xs| > 0 {
      CheckMeaning(c, xs[0]);
      SomeElementMeaning(c, xs[1..]);
      assert forall j :: 1 <= j < |xs| ==> xs[1..][j - 1] == xs[j];
    }
  }
}
