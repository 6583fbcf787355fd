/** `patternMatch` of src/match/pattern-match.ts, as written and as
    evidently intended.

    As written, the loop tests `result !== null` on the boolean that
    `checkCondition` returned. A boolean is never `null`, so the first case's
    callback runs whether or not its condition held, and it receives that
    boolean instead of the subject. `CorrectedDispatch` tests the boolean
    itself and passes the subject, as the documentation describes.
 */
module PatternMatch {
  import opened Completions
  import opened Values
  import opened Conditions
  import opened Cases

  /** `patternMatch(v)(...cases)` as written. `None` is the `undefined`
      returned for an empty case list. */
  function Dispatch<R>(v: Value, cases: seq<Case<R>>): (r: Completion<Option<R>>)
    ensures |cases| == 0 ==> r == Normal(None)
    ensures |cases| > 0 && Check(cases[0].condition, v).Normal? ==>
              r == Normal(Some(cases[0].callback(Bool(Check(cases[0].condition, v).value))))
    ensures |cases| > 0 && Check(cases[0].condition, v).TypeError? ==>
              r == TypeError(Check(cases[0].condition, v).key)
  {
    if |cases| == 0 then Normal(None)
    else
      var b :- Check(cases[0].condition, v);
      var result := Bool(b);
      if result != Null then Normal(Some(cases[0].callback(result)))
      else
        // The source moves on to the next case here; a boolean is never
        // `null`, so this branch is unreachable.
        assert false; Normal(None)
  }

  /** First-match-wins dispatch: the callback of the first case whose
      condition holds, called with the subject; `undefined` when none holds. */
  function CorrectedDispatch<R>(v: Value, cases: seq<Case<R>>): (r: Completion<Option<R>>)
    ensures forall i :: Selects(v, cases, i) ==> r == Normal(Some(cases[i].callback(v)))
    ensures forall i :: ThrowsAt(v, cases, i) ==> r == TypeError(Check(cases[i].condition, v).key)
    ensures r == Normal(None) <==> NoneMatch(v, cases)
  {
    if |cases| == 0 then Normal(None)
    else
      var b :- Check(cases[0].condition, v);
      if b then Normal(Some(cases[0].callback(v)))
      else CorrectedDispatch(v, cases[1..])
  }

  /** A case list on which the two disagree: the first condition fails, yet
      as written its callback runs, on `false`. */
  lemma DispatchRunsUnmatchedCase()
    ensures var cases := [When(Pred((x: Value) => x.Str?), (x: Value) => 1), OtherWise((x: Value) => 2)];
            && Check(cases[0].condition, Num(7)) == Normal(false)
            && Dispatch(Num(7), cases) == Normal(Some(1))
            && CorrectedDispatch(Num(7), cases) == Normal(Some(2))
  {
  }
}
