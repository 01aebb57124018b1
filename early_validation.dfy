/** The first, hand-written form validation: each field is checked by a
    plain conditional and a message is stored under the field's key. */
module EarlyValidation {
  import opened Wrappers
  import opened JsValues
  import opened JsStrings
  import opened Validators
  import opened ErrorMaps

  const NameRequired := "Spacecraft name is required."
  const TypeRequired := "Spacecraft type is required."
  const CaptainRequired := "Captain name is required."
  const SpacecraftSelectionRequired := "Spacecraft selection is required."
  const DockingTimeRequired := "Docking time is required."
  const DockingTimeInPast := "Docking time must be in the future."
  const BaySelectionRequired := "Docking bay selection is required."

  // ----- validateSpacecraft -----

  /** `value.trim()` on a truthy value that is not a string throws a
      `TypeError`: `trim` is not a function there. `Obj` stands here for an
      object without a `trim` method; an object that has one (a `String`
      wrapper, say) lies outside the declared `Spacecraft` type and is not
      modelled. */
  predicate TrimThrows(v: Value)
  {
    !Falsy(v) && !v.Str?
  }

  /** `!value || value.trim() === ''`, independently of `trim`: a falsy
      value or a string of whitespace only. */
  predicate Blank(v: Value)
  {
    Falsy(v) || (v.Str? && AllWhitespace(v.s))
  }

  /** One required-text check: `Failure(field)` when the check throws,
      otherwise the message when the value is blank. */
  function RequiredText(data: Data, field: string, message: string): (r: Result<ValidationResult, string>)
    requires message != ""
    ensures r.Failure? <==> TrimThrows(Lookup(data, field))
    ensures r.Failure? ==> r.error == field
    ensures r.Success? ==> (Truthy(r.value) <==> Blank(Lookup(data, field)))
    ensures r.Success? && Truthy(r.value) ==> r.value.value == message
  {
    var v := Lookup(data, field);
    TrimEmptyIff(if v.Str? then v.s else "");
    if Falsy(v) then Success(Some(message))
    else if !v.Str? then Failure(field)
    else if Trim(v.s) == "" then Success(Some(message))
    else Success(None)
  }

  /** What `validateSpacecraft` returns, or the field whose check threw. */
  function SpacecraftErrors(data: Data): Result<ValidationErrors, string>
  {
    var name := RequiredText(data, "name", NameRequired);
    if name.Failure? then Failure(name.error) else
    var shipType := RequiredText(data, "type", TypeRequired);
    if shipType.Failure? then Failure(shipType.error) else
    var captain := RequiredText(data, "captain", CaptainRequired);
    if captain.Failure? then Failure(captain.error) else
    Success(Record(Record(Record(map[], "name", name.value), "type", shipType.value), "captain", captain.value))
  }

  /** `validateSpacecraft(data)`: three successive conditional assignments.
      A thrown `TypeError` ends the call, so the map built so far is lost. */
  method ValidateSpacecraft(data: Data) returns (r: Result<ValidationErrors, string>)
    ensures r == SpacecraftErrors(data)
  {
    var errors: ValidationErrors := map[];
    var name := Lookup(data, "name");
    if Falsy(name) {
      errors := errors["name" := NameRequired];
    } else if !name.Str? {
      return Failure("name");
    } else if Trim(name.s) == "" {
      errors := errors["name" := NameRequired];
    }
    var shipType := Lookup(data, "type");
    if Falsy(shipType) {
      errors := errors["type" := TypeRequired];
    } else if !shipType.Str? {
      return Failure("type");
    } else if Trim(shipType.s) == "" {
      errors := errors["type" := TypeRequired];
    }
    var captain := Lookup(data, "captain");
    if Falsy(captain) {
      errors := errors["captain" := CaptainRequired];
    } else if !captain.Str? {
      return Failure("captain");
    } else if Trim(captain.s) == "" {
      errors := errors["captain" := CaptainRequired];
    }
    r := Success(errors);
  }

  /** The call throws exactly when some field holds a truthy non-string,
      and then names the first such field in the order name, type,
      captain. */
  lemma SpacecraftErrorsThrows(data: Data)
    ensures SpacecraftErrors(data).Failure? <==>
            TrimThrows(Lookup(data, "name")) || TrimThrows(Lookup(data, "type")) || TrimThrows(Lookup(data, "captain"))
    ensures SpacecraftErrors(data).Failure? ==>
            SpacecraftErrors(data).error ==
              if TrimThrows(Lookup(data, "name")) then "name"
              else if TrimThrows(Lookup(data, "type")) then "type"
              else "captain"
  {
  }

  /** Otherwise each field has an entry exactly when it is blank, holding
      that field's "is required." message, and there are no other keys. */
  lemma SpacecraftErrorsSpec(data: Data)
    requires SpacecraftErrors(data).Success?
    ensures var errors := SpacecraftErrors(data).value;
            errors.Keys <= {"name", "type", "captain"} &&
            ("name" in errors <==> Blank(Lookup(data, "name"))) &&
            ("type" in errors <==> Blank(Lookup(data, "type"))) &&
            ("captain" in errors <==> Blank(Lookup(data, "captain"))) &&
            ("name" in errors ==> errors["name"] == NameRequired) &&
            ("type" in errors ==> errors["type"] == TypeRequired) &&
            ("captain" in errors ==> errors["captain"] == CaptainRequired)
  {
    var name := RequiredText(data, "name", NameRequired).value;
    var shipType := RequiredText(data, "type", TypeRequired).value;
    var captain := RequiredText(data, "captain", CaptainRequired).value;
    var e1 := Record(map[], "name", name);
    RecordSpec(map[], "name", name);
    var e2 := Record(e1, "type", shipType);
    RecordSpec(e1, "type", shipType);
    RecordSpec(e2, "captain", captain);
  }

  /** Three non-blank strings give an empty error map. */
  lemma SpacecraftErrorsFilled(data: Data)
    requires Lookup(data, "name").Str? && !AllWhitespace(Lookup(data, "name").s)
    requires Lookup(data, "type").Str? && !AllWhitespace(Lookup(data, "type").s)
    requires Lookup(data, "captain").Str? && !AllWhitespace(Lookup(data, "captain").s)
    ensures SpacecraftErrors(data) == Success(map[])
  {
    SpacecraftErrorsSpec(data);
    assert SpacecraftErrors(data).value.Keys == {};
  }

  // ----- validateDocking -----

  /** `if (!data.spacecraft)`. */
  function SpacecraftSelectionError(data: Data): (r: ValidationResult)
    ensures Truthy(r) <==> Falsy(Lookup(data, "spacecraft"))
    ensures Truthy(r) ==> r.value == SpacecraftSelectionRequired
  {
    if Falsy(Lookup(data, "spacecraft")) then Some(SpacecraftSelectionRequired) else None
  }

  /** `if (!data.dockingTime) … else if (new Date(data.dockingTime) <= new Date())`.
      An unparsable time is `NaN`, and `NaN <= now` is false. */
  function DockingTimeError(data: Data, now: int, parse: Value -> Option<int>): (r: ValidationResult)
    ensures Truthy(r) <==>
            Falsy(Lookup(data, "dockingTime")) ||
            (parse(Lookup(data, "dockingTime")).Some? && parse(Lookup(data, "dockingTime")).value <= now)
    ensures Truthy(r) ==>
            r.value == if Falsy(Lookup(data, "dockingTime")) then DockingTimeRequired else DockingTimeInPast
  {
    var v := Lookup(data, "dockingTime");
    if Falsy(v) then Some(DockingTimeRequired)
    else match parse(v)
      case Some(t) => if t <= now then Some(DockingTimeInPast) else None
      case None => None
  }

  /** `if (!data.bayId)`: absent, `0` or any other falsy value. */
  function BaySelectionError(data: Data): (r: ValidationResult)
    ensures Truthy(r) <==> Falsy(Lookup(data, "bayId"))
    ensures Truthy(r) ==> r.value == BaySelectionRequired
  {
    if Falsy(Lookup(data, "bayId")) then Some(BaySelectionRequired) else None
  }

  /** What `validateDocking` returns: the three independent checks. */
  function DockingErrors(data: Data, now: int, parse: Value -> Option<int>): ValidationErrors
  {
    Record(Record(Record(map[],
      "spacecraft", SpacecraftSelectionError(data)),
      "dockingTime", DockingTimeError(data, now, parse)),
      "bayId", BaySelectionError(data))
  }

  /** `validateDocking(data)`: the clock reading and date parsing are
      parameters. */
  method ValidateDocking(data: Data, now: int, parse: Value -> Option<int>) returns (errors: ValidationErrors)
    ensures errors == DockingErrors(data, now, parse)
  {
    errors := map[];
    if Falsy(Lookup(data, "spacecraft")) {
      errors := errors["spacecraft" := SpacecraftSelectionRequired];
    }
    var dockingTime := Lookup(data, "dockingTime");
    if Falsy(dockingTime) {
      errors := errors["dockingTime" := DockingTimeRequired];
    } else {
      var instant := parse(dockingTime);
      if instant.Some? && instant.value <= now {
        errors := errors["dockingTime" := DockingTimeInPast];
      }
    }
    if Falsy(Lookup(data, "bayId")) {
      errors := errors["bayId" := BaySelectionRequired];
    }
  }

  /** Each docking field's entry is that field's own verdict, and there
      are no other keys. */
  lemma DockingErrorsSpec(data: Data, now: int, parse: Value -> Option<int>)
    ensures var errors := DockingErrors(data, now, parse);
            errors.Keys <= {"spacecraft", "dockingTime", "bayId"} &&
            EntryFor(errors, "spacecraft", SpacecraftSelectionError(data)) &&
            EntryFor(errors, "dockingTime", DockingTimeError(data, now, parse)) &&
            EntryFor(errors, "bayId", BaySelectionError(data))
  {
    var e1 := Record(map[], "spacecraft", SpacecraftSelectionError(data));
    RecordSpec(map[], "spacecraft", SpacecraftSelectionError(data));
    var e2 := Record(e1, "dockingTime", DockingTimeError(data, now, parse));
    RecordSpec(e1, "dockingTime", DockingTimeError(data, now, parse));
    RecordSpec(e2, "bayId", BaySelectionError(data));
  }

  /** A docking time that does not parse gets no entry. */
  lemma UnparsableTimeAccepted(data: Data, now: int, parse: Value -> Option<int>)
    requires !Falsy(Lookup(data, "dockingTime")) && parse(Lookup(data, "dockingTime")).None?
    ensures "dockingTime" !in DockingErrors(data, now, parse)
  {
    DockingErrorsSpec(data, now, parse);
  }

  /** The three checks are independent: changing one field of the data
      leaves the other fields' entries as they were. */
  lemma DockingErrorsIndependent(data: Data, now: int, parse: Value -> Option<int>, key: string, x: Value, other: string)
    requires other != key
    ensures SameEntry(DockingErrors(data, now, parse), DockingErrors(data[key := x], now, parse), other)
  {
    var data' := data[key := x];
    assert Lookup(data', other) == Lookup(data, other);
    DockingErrorsSpec(data, now, parse);
    DockingErrorsSpec(data', now, parse);
  }
}
