/** The application's own rule facade over the revised library. It rebuilds
    the null-or-undefined `required` from the revision's `isNull` and
    `required`; the other rules are re-exported unchanged, so the model uses
    the functions of `Rules` for them directly. */
module RuleFacade {
  import opened Wrappers
  import opened JsValues
  import opened Validators
  import opened Rules
  import NewRules

  /** `required`: fails when either `isNull` or the revised `required`
      fails, always with the combined message. */
  function Required(fieldName: Option<string>): (rule: Rule<Value>)
    ensures forall v :: rule(v).Some? <==> (v.Null? || v.Undefined?)
    ensures forall v :: rule(v).Some? ==> rule(v) == Some(FieldMessage(fieldName, " cannot be null or undefined"))
  {
    InterpolateTemplate(fieldName, " cannot be null or undefined");
    assert forall v :: Truthy(NewRules.IsNull(fieldName)(v)) <==> v.Null?;
    assert forall v :: Truthy(NewRules.Required(fieldName)(v)) <==> v.Undefined?;
    v => if Truthy(NewRules.IsNull(fieldName)(v)) || Truthy(NewRules.Required(fieldName)(v))
         then Some(InterpolateFieldName(Placeholder + " cannot be null or undefined", fieldName))
         else None
  }

  /** The facade's `required` gives the original library's `required`
      result on every value and for every field name. */
  lemma RequiredRestoresOriginal(fieldName: Option<string>, v: Value)
    ensures Required(fieldName)(v) == Rules.Required(fieldName)(v)
  {
  }

  /** Without a usable field name the generic template is returned as it
      stands. */
  lemma RequiredUnnamed(v: Value)
    requires v.Null? || v.Undefined?
    ensures Required(None)(v) == Some("Field cannot be null or undefined")
    ensures Required(Some(""))(v) == Some("Field cannot be null or undefined")
  {
    UnnamedMessage();
  }

  /** A literal message equality, kept apart from the lemma above to keep
      its proof cheap for the solver. */
  lemma UnnamedMessage()
    ensures "Field" + " cannot be null or undefined" == "Field cannot be null or undefined"
  {
  }
}
