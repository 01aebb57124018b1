/** The "breaking change" revision of the rule library: `required` no longer
    rejects `null`, and a separate `isNull` does. Every other factory of the
    revision is character for character the one in `Rules`, so it is not
    declared a second time. */
module NewRules {
  import opened Wrappers
  import opened JsValues
  import opened Validators
  import opened Rules

  /** `required`: now fails on `undefined` only; `null` passes. */
  function Required(fieldName: Option<string>): (rule: Rule<Value>)
    ensures forall v :: rule(v).Some? <==> v.Undefined?
    ensures forall v :: rule(v).Some? ==> rule(v) == Some(FieldMessage(fieldName, " cannot be undefined"))
  {
    InterpolateTemplate(fieldName, " cannot be undefined");
    v => if v == Undefined then Some(InterpolateFieldName(Placeholder + " cannot be undefined", fieldName)) else None
  }

  /** `isNull`: fails on `null` only. */
  function IsNull(fieldName: Option<string>): (rule: Rule<Value>)
    ensures forall v :: rule(v).Some? <==> v.Null?
    ensures forall v :: rule(v).Some? ==> rule(v) == Some(FieldMessage(fieldName, " cannot be null"))
  {
    InterpolateTemplate(fieldName, " cannot be null");
    v => if v == Null then Some(InterpolateFieldName(Placeholder + " cannot be null", fieldName)) else None
  }

  /** The two rules split the old `required`: they never fail together, and
      between them they fail on exactly the values it failed on. */
  lemma RequiredSplitsOldRequired(fieldName: Option<string>, v: Value)
    ensures !(Truthy(Required(fieldName)(v)) && Truthy(IsNull(fieldName)(v)))
    ensures (Truthy(Required(fieldName)(v)) || Truthy(IsNull(fieldName)(v))) <==>
            Truthy(Rules.Required(fieldName)(v))
  {
  }
}
