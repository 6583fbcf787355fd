/** Concrete matches that show how the model behaves on small inputs,
    including the places where the code differs from a hardened matcher. */
module Scenarios {
  import opened Completions
  import opened Values
  import opened Conditions
  import opened Cases
  import opened PatternMatch
  import opened Legacy

  function Is(expected: Value): Condition {
    Pred((x: Value) => x == expected)
  }

  function Positive(): Condition {
    Pred((x: Value) => x.Num? && x.n > 0)
  }

  function GreaterThanTen(): Condition {
    Pred((x: Value) => x.Num? && x.n > 10)
  }

  function Ints(ns: seq<int>): Value {
    Arr(seq(|ns|, i requires 0 <= i < |ns| => Num(ns[i])))
  }

  /** A template checks only the keys it lists. */
  lemma TemplatePartialMatch()
    ensures var v := Obj(map["a" := Num(1), "b" := Num(2)]);
            && Check(Template([Field("a", Is(Num(1)))]), v) == Normal(true)
            && Check(Template([Field("a", Is(Num(1))), Field("b", Is(Num(99)))]), v) == Normal(false)
  {
  }

  /** A template with a key throws on `null`, while on a number it reads
      `undefined` and can match. */
  lemma TemplateOnScalars()
    ensures Check(Template([Field("a", Pred(_ => true))]), Null) == TypeError("a")
    ensures Check(Template([Field("a", Pred(_ => true))]), Num(42)) == Normal(true)
    ensures Check(Template([]), Null) == Normal(true)
  {
  }

  lemma CombinatorExamples()
    ensures Check(AllOf([Positive()]), Ints([1, 2, 3])) == Normal(true)
    ensures Check(AllOf([Positive()]), Ints([1, -2, 3])) == Normal(false)
    ensures Check(AllOf([Positive()]), Num(5)) == Normal(false)
    ensures Check(AnyOf([GreaterThanTen()]), Ints([1, 2, 11])) == Normal(true)
    ensures Check(AnyOf([GreaterThanTen()]), Ints([1, 2, 3])) == Normal(false)
    ensures Check(Includes(Num(2)), Ints([1, 2, 3])) == Normal(true)
    ensures Check(Includes(Num(9)), Ints([1, 2, 3])) == Normal(false)
    ensures Check(Includes(Num(2)), Str("not array")) == Normal(false)
  {
  }

  /** Dispatching a circle to a callback that returns what it receives:
      the corrected dispatch passes the circle, the dispatch as written
      passes `true`, and the find-based dispatch passes nothing. */
  lemma CircleScenario()
    ensures var circle := Obj(map["type" := Str("circle"), "radius" := Num(5)]);
            var cases := [When(Template([Field("type", Is(Str("circle")))]), (c: Value) => c),
                          OtherWise((c: Value) => Num(0))];
            && CorrectedDispatch(circle, cases) == Normal(Some(circle))
            && Dispatch(circle, cases) == Normal(Some(Bool(true)))
            && LegacyDispatch(circle, cases) == Normal(Some(Undefined))
  {
  }
}
