/** Cases, the builders `when` and `otherWise`, and the positions in a case
    list that first-match-wins dispatch is defined by. */
module Cases {
  import opened Completions
  import opened Values
  import opened Conditions

  /** A condition and the callback to run when it is chosen. */
  datatype Case<R> = Case(condition: Condition, callback: Value -> R)

  /** `when(condition, callback)` pairs its arguments unchanged. */
  function When<R>(condition: Condition, callback: Value -> R): (r: Case<R>)
    ensures r.condition == condition && r.callback == callback
  {
    Case(condition, callback)
  }

  /** `otherWise(callback)` is `when(() => true, callback)`: its condition
      holds, without throwing, for every value. */
  function OtherWise<R>(callback: Value -> R): (r: Case<R>)
    ensures r.callback == callback
    ensures forall v :: Check(r.condition, v) == Normal(true)
  {
    When(Pred(_ => true), callback)
  }

  /** Case `i` is the first whose condition holds; all before it fail
      without throwing. */
  ghost predicate Selects<R>(v: Value, cases: seq<Case<R>>, i: int) {
    && 0 <= i < |cases|
    && Check(cases[i].condition, v) == Normal(true)
    && forall j :: 0 <= j < i ==> Check(cases[j].condition, v) == Normal(false)
  }

  /** Case `i`'s condition throws; all before it fail without throwing. */
  ghost predicate ThrowsAt<R>(v: Value, cases: seq<Case<R>>, i: int) {
    && 0 <= i < |cases|
    && Check(cases[i].condition, v).TypeError?
    && forall j :: 0 <= j < i ==> Check(cases[j].condition, v) == Normal(false)
  }

  /** Every condition fails without throwing. */
  ghost predicate NoneMatch<R>(v: Value, cases: seq<Case<R>>) {
    forall j :: 0 <= j < |cases| ==> Check(cases[j].condition, v) == Normal(false)
  }
}
