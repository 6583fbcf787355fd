/** First-match-wins properties of the dispatch in src/index.ts, and how the
    dispatch of src/match/pattern-match.ts, as written and corrected,
    relates to it. */
module DispatchProperties {
  import opened Completions
  import opened Values
  import opened Conditions
  import opened Cases
  import opened PatternMatch
  import opened Legacy

  /** Dispatching over `xs + ys` is dispatching over `xs`, unless no case
      of `xs` matches, in which case it is dispatching over `ys`: cases after
      the chosen one never affect the result. */
  lemma LegacyDispatchAppend<R>(v: Value, xs: seq<Case<R>>, ys: seq<Case<R>>)
    ensures LegacyDispatch(v, xs + ys) ==
              if LegacyDispatch(v, xs) == Normal(None) then LegacyDispatch(v, ys) else LegacyDispatch(v, xs)
  {
    var zs := xs + ys;
    assert forall j :: 0 <= j < |xs| ==> zs[j] == xs[j];
    assert forall j :: 0 <= j < |ys| ==> zs[|xs| + j] == ys[j];
    var fx, fy := Find(v, xs), Find(v, ys);
    if fx.TypeError? {
      var i :| ThrowsAt(v, xs, i) && fx.key == Check(xs[i].condition, v).key;
      assert ThrowsAt(v, zs, i);
    } else if fx.value.Some? {
      assert Selects(v, zs, fx.value.value);
    } else if fy.TypeError? {
      var i :| ThrowsAt(v, ys, i) && fy.key == Check(ys[i].condition, v).key;
      assert ThrowsAt(v, zs, |xs| + i);
    } else if fy.value.Some? {
      assert Selects(v, zs, |xs| + fy.value.value);
    } else {
      assert NoneMatch(v, zs);
    }
  }

  /** When two cases both match, whichever comes first is the one run. */
  lemma LegacyOrderMatters<R>(v: Value, c1: Case<R>, c2: Case<R>)
    requires Check(c1.condition, v) == Normal(true) && Check(c2.condition, v) == Normal(true)
    ensures LegacyDispatch(v, [c1, c2]) == Normal(Some(c1.callback(Undefined)))
    ensures LegacyDispatch(v, [c2, c1]) == Normal(Some(c2.callback(Undefined)))
  {
  }

  /** In a case list with a case whose condition holds, some callback runs,
      or a condition throws. */
  lemma LegacyMatchPreventsUndefined<R>(v: Value, cases: seq<Case<R>>, i: int)
    requires 0 <= i < |cases| && Check(cases[i].condition, v) == Normal(true)
    ensures LegacyDispatch(v, cases) != Normal(None)
  {
  }

  /** In particular, in a list containing an `otherWise` case, wherever it
      stands, some callback runs, or a condition throws. */
  lemma LegacyOtherWiseCatchesAll<R>(v: Value, xs: seq<Case<R>>, callback: Value -> R, ys: seq<Case<R>>)
    ensures LegacyDispatch(v, xs + [OtherWise(callback)] + ys) != Normal(None)
  {
    var cases := xs + [OtherWise(callback)] + ys;
    LegacyMatchPreventsUndefined(v, cases, |xs|);
  }

  /** When the first condition holds, all three dispatchers run the first
      case; they differ only in what its callback receives. */
  lemma DispatchersAgreeWhenFirstHolds<R>(v: Value, cases: seq<Case<R>>)
    requires |cases| > 0 && Check(cases[0].condition, v) == Normal(true)
    ensures Dispatch(v, cases) == Normal(Some(cases[0].callback(Bool(true))))
    ensures LegacyDispatch(v, cases) == Normal(Some(cases[0].callback(Undefined)))
    ensures CorrectedDispatch(v, cases) == Normal(Some(cases[0].callback(v)))
  {
  }

  /** When the first condition fails and the second holds, the dispatch as
      written still runs the first case, on `false`; the find-based dispatch
      runs the second. */
  lemma DispatchersDisagreeWhenFirstFails<R>(v: Value, cases: seq<Case<R>>)
    requires |cases| > 1
    requires Check(cases[0].condition, v) == Normal(false) && Check(cases[1].condition, v) == Normal(true)
    ensures Dispatch(v, cases) == Normal(Some(cases[0].callback(Bool(false))))
    ensures LegacyDispatch(v, cases) == Normal(Some(cases[1].callback(Undefined)))
    ensures CorrectedDispatch(v, cases) == Normal(Some(cases[1].callback(v)))
  {
  }

  /** The corrected dispatch chooses exactly the case `find` chooses, and
      throws exactly when it throws, passing the subject to the callback. */
  lemma CorrectedDispatchIsFind<R>(v: Value, cases: seq<Case<R>>)
    ensures var found := Find(v, cases);
            CorrectedDispatch(v, cases) ==
              if found.TypeError? then TypeError(found.key)
              else if found.value.None? then Normal(None)
              else Normal(Some(cases[found.value.value].callback(v)))
  {
  }
}
