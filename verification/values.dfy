/** The outcome of evaluating JavaScript code that may throw.

    The only exception the matcher itself can raise is the TypeError thrown by
    a property read on `null` or `undefined`; it carries the key that was read.
    `Completion` is failure-compatible, so evaluations chain with `:-`.
 */
module Completions {

  datatype Completion<+T> = Normal(value: T) | TypeError(key: string) {

    predicate IsFailure() {
      TypeError?
    }

    function PropagateFailure<U>(): Completion<U>
      requires TypeError?
    {
      TypeError(key)
    }

    function Extract(): T
      requires Normal?
    {
      value
    }
  }

  /** The JavaScript `undefined` a dispatcher returns when no callback ran. */
  datatype Option<+T> = None | Some(value: T)
}

/** The values a condition is matched against: the JSON-like part of the
    JavaScript value space. Numbers are integers; floating point, NaN and
    functions stored in objects are not modelled.
 */
module Values {
  import opened Completions

  datatype Value =
    | Undefined
    | Null
    | Bool(b: bool)
    | Num(n: int)
    | Str(s: string)
    | Arr(elems: seq<Value>)
    | Obj(props: map<string, Value>)
  {
    /** The two values on which a property read throws. */
    predicate Nullish() {
      Undefined? || Null?
    }
  }

  /** The value `param[key]` yields when the read does not throw: an own
      property of an object, `undefined` otherwise. Inherited properties of
      objects (`toString`, `constructor`, getters of a class prototype) and
      own and inherited properties of primitives and arrays (`'abc'.length`,
      `'abc'[0]`, array indices) are simplified to `undefined`.
   */
  function FieldOf(v: Value, key: string): Value {
    if v.Obj? && key in v.props then v.props[key] else Undefined
  }

  /** The property read `v[key]`: it throws on `null` and `undefined`, naming
      the key, and otherwise yields `FieldOf(v, key)`. */
  function Read(v: Value, key: string): (r: Completion<Value>)
    ensures r.TypeError? <==> v.Nullish()
    ensures r.TypeError? ==> r.key == key
    ensures r.Normal? && v.Obj? && key in v.props ==> r.value == v.props[key]
    ensures r.Normal? && !(v.Obj? && key in v.props) ==> r.value == Undefined
  {
    if v.Nullish() then TypeError(key) else Normal(FieldOf(v, key))
  }
}
