/** The rule factories of the original rule library: each takes an optional
    field name and returns a rule whose message names that field. */
module Rules {
  import opened Wrappers
  import opened JsValues
  import opened JsStrings
  import opened Validators

  /** The placeholder every message template starts with. */
  const Placeholder := "Field"

  /** `fieldName ? ... : ...`: a field name that was passed and is not `''`. */
  predicate Named(fieldName: Option<string>)
  {
    fieldName.Some? && fieldName.value != ""
  }

  /** A message whose subject is the field's name, or the word "Field" when
      no name was given: what every rule's template becomes. */
  function FieldMessage(fieldName: Option<string>, tail: string): (m: string)
    ensures |m| > |tail|
  {
    (if Named(fieldName) then fieldName.value else Placeholder) + tail
  }

  /** `interpolateFieldName(message, fieldName)`. */
  function InterpolateFieldName(message: string, fieldName: Option<string>): (r: string)
    ensures !Named(fieldName) ==> r == message
  {
    if Named(fieldName) then ReplaceFirst(message, Placeholder, fieldName.value) else message
  }

  /** Every rule's template starts with "Field": the name, when given,
      takes its place. */
  lemma InterpolateTemplate(fieldName: Option<string>, tail: string)
    ensures InterpolateFieldName(Placeholder + tail, fieldName) == FieldMessage(fieldName, tail)
  {
    assert (Placeholder + tail)[..|Placeholder|] == Placeholder;
    assert (Placeholder + tail)[|Placeholder|..] == tail;
  }

  /** With a name, only the first occurrence of "Field" is replaced and
      everything else is kept; without one, nothing changes. */
  lemma InterpolateReplacesFirst(message: string, name: string, i: nat)
    requires name != ""
    requires OccursAt(message, Placeholder, i)
    requires forall j: nat :: j < i ==> !OccursAt(message, Placeholder, j)
    ensures InterpolateFieldName(message, Some(name)) ==
            message[..i] + name + message[i + |Placeholder|..]
  {
    ReplaceFirstAt(message, Placeholder, name, i);
  }

  /** A message that does not mention "Field" is returned unchanged. */
  lemma InterpolateWithoutPlaceholder(message: string, fieldName: Option<string>)
    requires forall i: nat :: i <= |message| ==> !OccursAt(message, Placeholder, i)
    ensures InterpolateFieldName(message, fieldName) == message
  {
    if Named(fieldName) {
      ReplaceFirstAbsent(message, Placeholder, fieldName.value);
    }
  }

  /** `required`: fails on `null` and `undefined` only. */
  function Required(fieldName: Option<string>): (rule: Rule<Value>)
    ensures forall v :: rule(v).Some? <==> (v.Null? || v.Undefined?)
    ensures forall v :: rule(v).Some? ==> rule(v) == Some(FieldMessage(fieldName, " cannot be null or undefined"))
  {
    InterpolateTemplate(fieldName, " cannot be null or undefined");
    v => if v == Null || v == Undefined
         then Some(InterpolateFieldName(Placeholder + " cannot be null or undefined", fieldName))
         else None
  }

  /** `isString`: fails on every value whose `typeof` is not "string". */
  function IsString(fieldName: Option<string>): (rule: Rule<Value>)
    ensures forall v :: rule(v).Some? <==> !v.Str?
    ensures forall v :: rule(v).Some? ==> rule(v) == Some(FieldMessage(fieldName, " must be a string"))
  {
    InterpolateTemplate(fieldName, " must be a string");
    (v: Value) => if !v.Str? then Some(InterpolateFieldName(Placeholder + " must be a string", fieldName)) else None
  }

  lemma TrimEmptyIffAll()
    ensures forall s :: Trim(s) == [] <==> AllWhitespace(s)
  {
    forall s ensures Trim(s) == [] <==> AllWhitespace(s) {
      TrimEmptyIff(s);
    }
  }

  /** `notEmpty`: fails when nothing but whitespace is left after trimming,
      which is when every character is whitespace. */
  function NotEmpty(fieldName: Option<string>): (rule: Rule<string>)
    ensures forall s :: rule(s).Some? <==> AllWhitespace(s)
    ensures forall s :: rule(s).Some? ==> rule(s) == Some(FieldMessage(fieldName, " cannot be empty"))
  {
    InterpolateTemplate(fieldName, " cannot be empty");
    TrimEmptyIffAll();
    s => if Trim(s) == "" then Some(InterpolateFieldName(Placeholder + " cannot be empty", fieldName)) else None
  }

  /** Characters `[a-zA-Z0-9\s]` admits. */
  predicate IsAllowedChar(c: char)
  {
    ('a' <= c <= 'z') || ('A' <= c <= 'Z') || ('0' <= c <= '9') || IsWhitespace(c)
  }

  /** Some character of `s` lies outside `[a-zA-Z0-9\s]`. */
  predicate HasInvalidChar(s: string)
  {
    exists i :: 0 <= i < |s| && !IsAllowedChar(s[i])
  }

  /** `/[^a-zA-Z0-9\s]/.test(s)`: a scan for the first character outside
      the allowed class. */
  function ContainsInvalidChar(s: string): (found: bool)
    ensures found <==> HasInvalidChar(s)
  {
    if s == [] then false
    else if !IsAllowedChar(s[0]) then true
    else
      var found := ContainsInvalidChar(s[1..]);
      assert forall i :: 1 <= i < |s| ==> s[i] == s[1..][i - 1];
      found
  }

  /** `validChars`: fails when some character is not a letter, a digit or
      whitespace. */
  function ValidChars(fieldName: Option<string>): (rule: Rule<string>)
    ensures forall s :: rule(s).Some? <==> HasInvalidChar(s)
    ensures forall s :: rule(s).Some? ==> rule(s) == Some(FieldMessage(fieldName, " contains invalid characters"))
  {
    InterpolateTemplate(fieldName, " contains invalid characters");
    s => if ContainsInvalidChar(s) then Some(InterpolateFieldName(Placeholder + " contains invalid characters", fieldName)) else None
  }

  /** `isNumber`: fails on every value whose `typeof` is not "number". */
  function IsNumber(fieldName: Option<string>): (rule: Rule<Value>)
    ensures forall v :: rule(v).Some? <==> !v.Num?
    ensures forall v :: rule(v).Some? ==> rule(v) == Some(FieldMessage(fieldName, " must be a number"))
  {
    InterpolateTemplate(fieldName, " must be a number");
    (v: Value) => if !v.Num? then Some(InterpolateFieldName(Placeholder + " must be a number", fieldName)) else None
  }

  /** `isInteger`: fails unless `Number.isInteger` holds, so on a number
      with a fractional part (and on anything that is not a number). */
  function IsInteger(fieldName: Option<string>): (rule: Rule<Value>)
    ensures forall n: real :: rule(Num(n)).Some? <==> n != n.Floor as real
    ensures forall v: Value :: !v.Num? ==> rule(v).Some?
    ensures forall v :: rule(v).Some? ==> rule(v) == Some(FieldMessage(fieldName, " must be an integer"))
  {
    InterpolateTemplate(fieldName, " must be an integer");
    v => if !IsIntegral(v) then Some(InterpolateFieldName(Placeholder + " must be an integer", fieldName)) else None
  }

  /** The message template of `range`, with both bounds rendered. */
  function RangeTemplate(min: int, max: int): string
  {
    Placeholder + (" must be between " + IntToString(min) + " and " + IntToString(max))
  }

  /** `range(min, max, fieldName)`: passes exactly on `min <= value <= max`,
      both bounds included. */
  function Range(min: int, max: int, fieldName: Option<string>): (rule: Rule<real>)
    ensures forall x :: rule(x).None? <==> (min as real <= x <= max as real)
    ensures forall x :: rule(x).Some? ==>
              rule(x) == Some(FieldMessage(fieldName, " must be between " + IntToString(min) + " and " + IntToString(max)))
  {
    var tail := " must be between " + IntToString(min) + " and " + IntToString(max);
    InterpolateTemplate(fieldName, tail);
    assert RangeTemplate(min, max) == Placeholder + tail;
    x => if x < min as real || x > max as real
         then Some(InterpolateFieldName(RangeTemplate(min, max), fieldName))
         else None
  }

  /** The body of `futureDate` once `new Date(value)` has produced `date`
      (`None` for an invalid date) and `new Date()` has produced `now`, both
      in epoch milliseconds. */
  function CheckFutureDate(fieldName: Option<string>, now: int, date: Option<int>): (r: ValidationResult)
    ensures r.None? <==> (date.Some? && date.value > now)
    ensures date.None? ==> r == Some(FieldMessage(fieldName, " must be a valid date"))
    ensures date.Some? && date.value <= now ==> r == Some(FieldMessage(fieldName, " must be in the future"))
  {
    InterpolateTemplate(fieldName, " must be a valid date");
    InterpolateTemplate(fieldName, " must be in the future");
    if date.None? then Some(InterpolateFieldName(Placeholder + " must be a valid date", fieldName))
    else if date.value <= now then Some(InterpolateFieldName(Placeholder + " must be in the future", fieldName))
    else None
  }

  /** `futureDate`: `parse` stands for `new Date(value)`. An invalid date is
      reported as such before futurity is considered; a valid one passes
      only when it lies strictly after `now`. */
  function FutureDate(fieldName: Option<string>, now: int, parse: Value -> Option<int>): (rule: Rule<Value>)
    ensures forall v :: rule(v).None? <==> (parse(v).Some? && parse(v).value > now)
    ensures forall v :: parse(v).None? ==> rule(v) == Some(FieldMessage(fieldName, " must be a valid date"))
    ensures forall v :: parse(v).Some? && parse(v).value <= now ==>
              rule(v) == Some(FieldMessage(fieldName, " must be in the future"))
  {
    (v: Value) => CheckFutureDate(fieldName, now, parse(v))
  }
}
