/** Error maps keyed by field name, filled one field at a time the way
    the validation functions do: a field gets an entry only when its check
    produced a truthy message. */
module ErrorMaps {
  import opened Wrappers
  import opened Validators

  /** `if (error) errors[field] = error`. */
  function Record(errors: ValidationErrors, field: string, error: ValidationResult): ValidationErrors
  {
    if Truthy(error) then errors[field := error.value] else errors
  }

  /** `errors` holds an entry for `field` exactly when `error` is truthy,
      and then that message. */
  predicate EntryFor(errors: ValidationErrors, field: string, error: ValidationResult)
  {
    (field in errors <==> Truthy(error)) && (field in errors ==> errors[field] == error.value)
  }

  /** Recording a result settles that field's entry and no other. */
  lemma RecordSpec(errors: ValidationErrors, field: string, error: ValidationResult)
    requires field !in errors
    ensures EntryFor(Record(errors, field, error), field, error)
    ensures forall other :: other != field ==>
              (other in Record(errors, field, error) <==> other in errors) &&
              (other in errors ==> Record(errors, field, error)[other] == errors[other])
    ensures Record(errors, field, error).Keys <= errors.Keys + {field}
  {
  }

  /** The same entry for `field` in two error maps. */
  predicate SameEntry(before: ValidationErrors, after: ValidationErrors, field: string)
  {
    (field in before <==> field in after) && (field in before ==> before[field] == after[field])
  }
}
