# Declarative pattern matcher, modelled in Dafny

This project models the core of a small TypeScript pattern-matching library.
`patternMatch(value)(...cases)` evaluates an ordered list of cases against a subject value. Each case pairs a
condition with a callback. A condition is one of:

- a predicate function;
- a template, which is an object of sub-conditions matched field by field;
- anything else, which never matches.

The combinators `allOf`, `anyOf` and `includes` build predicates that quantify over the elements of an array.
The repository has two matchers:

- `src/match/pattern-match.ts`, the exported one;
- an older, unexported one in `src/index.ts`, which dispatches through `Array.prototype.find`.

Both are modelled, and so is the relation between them.

Modules, one concern each:

- `Completions` (values.dfy): `Completion<T>`, either a normal result or the `TypeError` that a property read on
  `null`/`undefined` throws, recording the key read; `Option<T>`, whose `None` means that no callback ran (the
  dispatcher returned `undefined` without calling one).
- `Values` (values.dfy): the JavaScript values a condition is matched against, and the property read
  `param[key]`.
- `Conditions` (conditions.dfy): conditions and the evaluator `checkCondition` of pattern-match.ts, as `Check`.
  Also a declarative reference meaning `Holds`, and a fault-freedom predicate `Safe`.
- `Templates` (templates.dfy) and `Combinators` (combinators.dfy): properties of templates and of the three
  combinators.
- `Cases` (cases.dfy): cases, `when`, `otherWise`, and the first-match positions `Selects`, `ThrowsAt`,
  `NoneMatch`.
- `PatternMatch` (dispatch.dfy): the dispatcher of pattern-match.ts as written (`Dispatch`), and corrected
  (`CorrectedDispatch`).
- `Legacy` (legacy.dfy): `checkCondition` and the `find`-based `patternMatch` of index.ts.
- `DispatchProperties` (agreement.dfy): first-match-wins laws, and how the three dispatchers relate.
- `Scenarios` (examples.dfy): small concrete inputs.

Design decisions:

- Conditions are a tagged union, so the order of the `isFunction`/`isObject` tests is irrelevant. index.ts tests
  the object case first and pattern-match.ts tests the function case first; the contract of `Legacy.LegacyCheck`
  proves the two evaluators equal.
- A template is an ordered list of fields in `Object.keys` order, not a map. `every` stops at the first failing
  key, so whether a later nested read on `undefined` is reached, and throws, depends on that order.
- The combinators are constructors of `Condition`, not opaque predicates. The checks they run can throw, and that
  has to stay visible.
- Callbacks are total functions `Value -> R`. index.ts calls the chosen callback with no argument, which JavaScript
  passes as `undefined`, so the model applies it to `Undefined`. pattern-match.ts passes the boolean it computed,
  which the model applies as `Bool(b)`.

A hardened matcher would let a template applied to a value without the key (`null`, a scalar) simply not
match. The code does something else, and the model follows the code:

- a template with at least one key throws a `TypeError` on `null` and `undefined`;
- on a number or string, a key it does not have reads `undefined`, and the template may match.

`Scenarios.TemplateOnScalars` shows both behaviours.

## Model

| member | source | states |
|---|---|---|
| Values.Read | src/match/pattern-match.ts:41 | reading a key throws exactly on `null` and `undefined`, naming that key; otherwise it yields the object's own property or `undefined` |
| Conditions.Check | src/match/pattern-match.ts:31-46 | a predicate evaluates to its own result; a malformed condition is false; an empty template is true for every value, `null` included; a non-empty template on `null`/`undefined` throws at its first key; the combinators are false on non-arrays |
| Conditions.CheckMeaning | src/match/pattern-match.ts:31-46 | whenever the evaluator returns, its answer is the declarative meaning `Holds`; it always returns when no template meets a nullish value at any depth |
| Templates.TemplateMeaning | src/match/pattern-match.ts:37-43 | a template is true iff every listed key's sub-condition holds on that field, and the value is not nullish unless no key is listed; it is false iff the value is not nullish and, in key order, some field fails with all earlier ones holding |
| Templates.TemplateIgnoresOtherKeys | src/match/pattern-match.ts:38-42 | changing or adding a key of the value that the template does not list does not change the result |
| Combinators.AllOfMeaning | src/match/pattern-match.ts:75-79 | false on non-arrays; on an array, true iff every condition holds on every element; vacuously true for `[]` or for no conditions; returns a boolean when no inner check throws |
| Combinators.AnyOfMeaning | src/match/pattern-match.ts:86-90 | false on non-arrays, on `[]` and for no conditions; on an array, false iff every condition fails on every element, and true only if some condition holds on some element; returns a boolean when no inner check throws |
| Combinators.IncludesMeaning | src/match/pattern-match.ts:97-101 | never throws; true iff the value is an array with an element equal to the target |
| Combinators.IncludesIsAnyOfEquals | src/match/pattern-match.ts:97-101 | on every value, `includes(t)` gives the same result as `anyOf(x => x === t)` built by the combinator at lines 86-90 |
| Cases.When | src/match/pattern-match.ts:54-59 | the case holds the condition and callback unchanged |
| Cases.OtherWise | src/match/pattern-match.ts:66-68 | the case keeps the callback, and its condition holds, without throwing, on every value |
| PatternMatch.Dispatch | src/match/pattern-match.ts:11-23 | with no cases the result is `undefined`; otherwise the first case's callback always runs, on the boolean its condition produced, whether that is true or false; a throw in that first condition propagates; later cases are never consulted |
| PatternMatch.CorrectedDispatch | src/match/pattern-match.ts:11-23 | the callback of the first case whose condition holds runs, on the subject; a throw before that propagates; no callback runs exactly when every condition fails |
| PatternMatch.DispatchRunsUnmatchedCase | src/match/pattern-match.ts:16-18 | on the subject `7`, with a first case whose condition is false and an `otherWise` second, the dispatch as written runs the first callback; the corrected one runs the second |
| Legacy.LegacyCheck | src/index.ts:12-20 | the evaluator of index.ts, which tests for an object before a function, gives the same answer, or throws on the same key, as that of pattern-match.ts, for every condition and value |
| Legacy.Find | src/index.ts:8 | `find` returns the position of the first case whose condition holds, and no position exactly when every condition fails; it throws exactly when a condition throws before any holds |
| Legacy.LegacyDispatch | src/index.ts:6-10 | returns the first matching case's callback result, called with no argument; no callback runs exactly when every condition evaluates to false without throwing, the empty list included; throws when a condition throws before any holds |
| DispatchProperties.LegacyDispatchAppend | src/index.ts:8 | dispatching over `xs + ys` gives the result for `xs` unless no callback of `xs` runs, and then the result for `ys`; cases after the chosen one never matter |
| DispatchProperties.LegacyOrderMatters | src/index.ts:8 | when two cases both match, whichever comes first is the one whose callback runs, in either order |
| DispatchProperties.LegacyMatchPreventsUndefined | src/index.ts:8 | in a list with any case whose condition holds, some callback runs (unless an earlier condition throws) |
| DispatchProperties.LegacyOtherWiseCatchesAll | src/index.ts:30-32 | in a list with an `otherWise` case anywhere, some callback runs (unless an earlier condition throws) |
| DispatchProperties.DispatchersAgreeWhenFirstHolds | src/match/pattern-match.ts:15-19 | when the first condition holds, all three dispatchers run the first case; its callback receives `true` as written, `undefined` in index.ts and the subject when corrected |
| DispatchProperties.DispatchersDisagreeWhenFirstFails | src/match/pattern-match.ts:16-18 | when the first condition fails and the second holds, the dispatcher as written still runs the first case, on `false`; the `find`-based and corrected ones run the second |
| DispatchProperties.CorrectedDispatchIsFind | src/index.ts:8 | the corrected dispatcher chooses exactly the case `find` chooses, throws exactly when it throws, and passes the subject to the callback |
| Scenarios.TemplatePartialMatch | src/match/pattern-match.ts:37-43 | `{a: 1}` matches `{a:1, b:2}`; adding `b: 99` makes it fail |
| Scenarios.TemplateOnScalars | src/match/pattern-match.ts:38-42 | a template with a key throws on `null` but matches `42`, whose field reads `undefined`; the empty template matches `null` |
| Scenarios.CombinatorExamples | src/match/pattern-match.ts:75-101 | `allOf`, `anyOf` and `includes` on small integer arrays and on non-arrays |
| Scenarios.CircleScenario | src/match/pattern-match.ts:11-23 | dispatching a circle: the corrected dispatcher passes the circle to the callback; as written it passes `true`; in index.ts the callback gets nothing |

## Findings

| source | as written | input that shows it | evidently intended | confidence | as-written member | corrected member |
|---|---|---|---|---|---|---|
| src/match/pattern-match.ts:17-18 | `result !== null` tests the boolean from `checkCondition`, which is never `null`, so the first case's callback always runs, on that boolean | subject `7`; first case `when(x => typeof x === 'string', () => 1)`; then `otherWise(() => 2)`; the result is `1` | run the callback of the first case whose condition holds, on the subject, as the doc comment at line 7 says | high; not executed | PatternMatch.DispatchRunsUnmatchedCase | PatternMatch.CorrectedDispatch |

## Left out

- guards.js is not part of this model. `isArray`, `isFunction` and `isObject` are replaced by the constructors of
  `Value` and `Condition`.
- src/typings.d.ts declares types only. Type-guard narrowing has no runtime effect, and neither do the TypeScript
  generics.
- Callbacks and predicates are pure, total Dafny functions. Side effects and exceptions they throw are not
  modelled.
- Predicates return `bool`. In JavaScript a predicate can return any value: `every`/`some` use its truthiness,
  and a predicate returning `null` would make the as-written loop advance to the next case.
- Values.Read: values are JSON-like (`undefined`, `null`, booleans, integers, strings, arrays, plain objects of own
  properties); functions, symbols and class instances are not subjects of the model. A read yields an object's own
  property, and `undefined` for everything else. Inherited keys of objects (`({})['toString']`,
  `({})['constructor']`, getters of a class prototype) and own and inherited properties of primitives and arrays
  (`'abc'.length`, `'abc'[0]`, array indices) are not modelled. So a template asking that `toString` be `undefined`
  matches `{}` here, though not in JavaScript.
- Combinators.IncludesMeaning: compares elements structurally. JavaScript's `Array.prototype.includes` uses
  SameValueZero, which compares arrays and objects by reference. The model therefore finds structurally equal
  copies that JavaScript would not. Numbers are integers, so NaN does not arise.
- Numbers are unbounded integers; floating point is not modelled.
- Template fields are listed in `Object.keys` order as given. JavaScript's reordering of integer-like keys ahead
  of other keys is left to whoever builds the template.
- An array used as a condition is an object in JavaScript, and becomes a template keyed by its indices. The model
  has no separate constructor for it; it is expressible as such a `Template`.
- The curried, variadic call `patternMatch(v)(...cases)` is a two-argument function over a sequence of cases.
- A dispatcher's result `None` means that no callback ran. JavaScript returns the same `undefined` when the chosen
  callback itself returns `undefined`, for example `patternMatch(1)(otherWise(() => undefined))`. The model keeps
  the two apart as `None` and `Some(Undefined)`, and its "no callback runs" properties are about `None` only.
- A template is a list of fields and may repeat a key, which no JavaScript object can. Such a list checks each
  entry in turn, so `[a: true, a: false]` is false. Only duplicate-free lists correspond to real templates.
