/** Properties of template conditions, stated against the evaluation of
    each listed field. */
module Templates {
  import opened Completions
  import opened Values
  import opened Conditions

  /** The check of one template entry against the matching field of `v`. */
  function FieldCheck(f: Field, v: Value): Completion<bool> {
    Check(f.cond, FieldOf(v, f.key))
  }

  /** Reading the keys in order, the `i`-th is the first whose check fails. */
  ghost predicate FailsFirstAt(fields: seq<Field>, v: Value, i: int) {
    && 0 <= i < |fields|
    && FieldCheck(fields[i], v) == Normal(false)
    && forall j :: 0 <= j < i ==> FieldCheck(fields[j], v) == Normal(true)
  }

  /** A template matches exactly when every listed key's sub-condition holds
      on that field; it fails exactly when, reading the keys in order, one
      fails before any throws. The value must not be nullish unless the
      template lists no key. */
  lemma TemplateMeaning(fields: seq<Field>, v: Value)
    ensures Check(Template(fields), v) == Normal(true) <==>
              && (|fields| == 0 || !v.Nullish())
              && forall i :: 0 <= i < |fields| ==> FieldCheck(fields[i], v) == Normal(true)
    ensures Check(Template(fields), v) == Normal(false) <==>
              !v.Nullish() && exists i :: FailsFirstAt(fields, v, i)
  {
    EveryFieldTrue(fields, v);
    EveryFieldFalse(fields, v);
  }

  lemma {:induction false} EveryFieldTrue(fields: seq<Field>, v: Value)
    ensures EveryField(fields, v) == Normal(true) <==>
              && (|fields| == 0 || !v.Nullish())
              && forall i :: 0 <= i < |fields| ==> FieldCheck(fields[i], v) == Normal(true)
  {
    if |fields| > 0 && !v.Nullish() {
      EveryFieldTrue(fields[1..], v);
      assert forall i :: 1 <= i < |fields| ==> fields[1..][i - 1] == fields[i];
    }
  }

  lemma {:induction false} EveryFieldFalse(fields: seq<Field>, v: Value)
    ensures EveryField(fields, v) == Normal(false) <==>
              !v.Nullish() && exists i :: FailsFirstAt(fields, v, i)
  {
    if |fields| > 0 && !v.Nullish() {
      var first := FieldCheck(fields[0], v);
      if first == Normal(false) {
        assert FailsFirstAt(fields, v, 0);
      } else if first == Normal(true) {
        EveryFieldFalse(fields[1..], v);
        forall i | 1 <= i
          ensures FailsFirstAt(fields, v, i) <==> FailsFirstAt(fields[1..], v, i - 1)
        {
          assert forall j :: 1 <= j < |fields| ==> fields[1..][j - 1] == fields[j];
        }
        if exists i :: FailsFirstAt(fields[1..], v, i) {
          var i :| FailsFirstAt(fields[1..], v, i);
          assert FailsFirstAt(fields, v, i + 1);
        }
        assert !FailsFirstAt(fields, v, 0);
      } else {
        assert forall i :: !FailsFirstAt(fields, v, i);
      }
    }
  }

  /** Keys the value has but the template does not list play no part. */
  lemma {:induction false} TemplateIgnoresOtherKeys(fields: seq<Field>, props: map<string, Value>,
                                                    key: string, x: Value)
    requires forall i :: 0 <= i < |fields| ==> fields[i].key != key
    ensures Check(Template(fields), Obj(props[key := x])) == Check(Template(fields), Obj(props))
  {
    var v, w := Obj(props[key := x]), Obj(props);
    if |fields| > 0 {
      assert FieldOf(v, fields[0].key) == FieldOf(w, fields[0].key);
      TemplateIgnoresOtherKeys(fields[1..], props, key, x);
    }
  }
}
