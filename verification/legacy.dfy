/** The older, unexported matcher of src/index.ts.

    Its `checkCondition` tests for an object before a function, which the
    tagged union makes irrelevant, and has no combinators of its own: the
    predicates built by `allOf`, `anyOf` and `includes` evaluate with the
    evaluator of src/match/pattern-match.ts. Its `patternMatch` is real
    first-match-wins dispatch through `Array.prototype.find`, and calls the
    chosen callback with no argument, so the callback sees `undefined`.
    Its `when` and `otherWise` are the builders of the `Cases` module.
 */
module Legacy {
  import opened Completions
  import opened Values
  import opened Conditions
  import opened Cases

  /** `checkCondition(condition, param)` of src/index.ts: the object test
      comes first, yet on every condition and value it gives the same
      answer, or throws on the same key, as the evaluator of
      src/match/pattern-match.ts. */
  function LegacyCheck(c: Condition, v: Value): (r: Completion<bool>)
    decreases c, 1
    ensures r == Check(c, v)
  {
    match c
    case Template(fields) => LegacyEveryField(fields, v)
    case Pred(test) => Normal(test(v))
    case AllOf(_) => Check(c, v)
    case AnyOf(_) => Check(c, v)
    case Includes(_) => Check(c, v)
    case Malformed => Normal(false)
  }

  /** The template walk of the evaluator of src/index.ts: the same key-order
      walk as `EveryField`, recursing into that evaluator. */
  function LegacyEveryField(fields: seq<Field>, v: Value): (r: Completion<bool>)
    decreases fields, 0
    ensures r == EveryField(fields, v)
  {
    if |fields| == 0 then Normal(true)
    else
      var x :- Read(v, fields[0].key);
      var b :- LegacyCheck(fields[0].cond, x);
      if b then LegacyEveryField(fields[1..], v) else Normal(false)
  }

  /** The search `Array.prototype.find` performs over the cases in
      src/index.ts: the position of the first case whose condition holds, or
      none; a throw from a condition checked on the way propagates. */
  function Find<R>(v: Value, cases: seq<Case<R>>): (r: Completion<Option<nat>>)
    ensures r.Normal? && r.value.Some? ==> Selects(v, cases, r.value.value)
    ensures forall i :: Selects(v, cases, i) ==> r == Normal(Some(i))
    ensures r.TypeError? ==> exists i :: ThrowsAt(v, cases, i) && r.key == Check(cases[i].condition, v).key
    ensures forall i :: ThrowsAt(v, cases, i) ==> r == TypeError(Check(cases[i].condition, v).key)
    ensures r == Normal(None) <==> NoneMatch(v, cases)
  {
    if |cases| == 0 then Normal(None)
    else
      var b :- LegacyCheck(cases[0].condition, v);
      if b then Normal(Some(0))
      else
        var rest :- Find(v, cases[1..]);
        if rest.None? then Normal(None) else Normal(Some(rest.value + 1))
  }

  /** `patternMatch(param)(...cases)` of src/index.ts: the result of the
      first matching case's callback, called without argument; no callback
      runs exactly when every condition evaluates to false without throwing,
      the empty list included. */
  function LegacyDispatch<R>(v: Value, cases: seq<Case<R>>): (r: Completion<Option<R>>)
    ensures forall i :: Selects(v, cases, i) ==> r == Normal(Some(cases[i].callback(Undefined)))
    ensures forall i :: ThrowsAt(v, cases, i) ==> r == TypeError(Check(cases[i].condition, v).key)
    ensures r == Normal(None) <==> NoneMatch(v, cases)
  {
    var found :- Find(v, cases);
    if found.None? then Normal(None) else Normal(Some(cases[found.value].callback(Undefined)))
  }
}
