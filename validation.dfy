/** The application's validators for spacecraft and docking form data,
    built from per-field `Validator` chains. */
module Validation {
  import opened Wrappers
  import opened JsValues
  import opened JsStrings
  import opened Validators
  import opened ErrorMaps
  import opened Rules
  import RuleFacade

  const MaxFutureYear := 2050
  const MinBayId := 1
  const MaxBayId := 1000
  const EnterpriseId := "3n73rpr153"
  const EnterpriseForbiddenBay := 1701
  const EnterpriseMessage := "Enterprise cannot dock in bay 1701 due to historical reasons"

  /** What the docking-time checks read from the environment: the clock
      (`new Date()`, epoch milliseconds), date parsing (`new Date(value)`,
      `None` for an invalid date) and the local calendar year of an instant
      (`getFullYear()`). */
  datatype DateEnv = DateEnv(now: int, parse: Value -> Option<int>, fullYear: int -> int)

  // ----- createStringFieldValidator -----

  /** The third rule of the string chain: `notEmpty`, guarded by a type test. */
  function GuardedNotEmpty(displayName: string): Rule<Value>
  {
    (v: Value) => if !v.Str? then Some(displayName + " must be a string") else NotEmpty(Some(displayName))(v.s)
  }

  /** The fourth rule of the string chain: `validChars`, guarded likewise. */
  function GuardedValidChars(displayName: string): Rule<Value>
  {
    (v: Value) => if !v.Str? then Some(displayName + " must be a string") else ValidChars(Some(displayName))(v.s)
  }

  /** The rules `createStringFieldValidator(displayName)` adds, in order. */
  function StringFieldRules(displayName: string): seq<Rule<Value>>
  {
    [ RuleFacade.Required(Some(displayName)), IsString(Some(displayName)),
      GuardedNotEmpty(displayName), GuardedValidChars(displayName) ]
  }

  /** `createStringFieldValidator(displayName)`: a fresh validator holding
      the four string rules. */
  method CreateStringFieldValidator(displayName: string) returns (v: Validator<Value>)
    ensures fresh(v)
    ensures v.rules == StringFieldRules(displayName)
  {
    v := new Validator();
    v := v.AddRule(RuleFacade.Required(Some(displayName)));
    v := v.AddRule(IsString(Some(displayName)));
    v := v.AddRule(GuardedNotEmpty(displayName));
    v := v.AddRule(GuardedValidChars(displayName));
  }

  /** What the string validator reports for a value. */
  function StringFieldError(displayName: string, v: Value): ValidationResult
  {
    FirstFailure(StringFieldRules(displayName), v)
  }

  /** What each rule of the string chain says on its own, for a named
      field. */
  lemma RequiredNamed(displayName: string, v: Value)
    requires displayName != ""
    ensures RuleFacade.Required(Some(displayName))(v) ==
            if v.Null? || v.Undefined? then Some(displayName + " cannot be null or undefined") else None
  {
  }

  lemma IsStringNamed(displayName: string, v: Value)
    requires displayName != ""
    ensures IsString(Some(displayName))(v) == if !v.Str? then Some(displayName + " must be a string") else None
  {
  }

  lemma NotEmptyNamed(displayName: string, s: string)
    requires displayName != ""
    ensures NotEmpty(Some(displayName))(s) == if AllWhitespace(s) then Some(displayName + " cannot be empty") else None
  {
    var r := NotEmpty(Some(displayName))(s);
    assert r.Some? <==> AllWhitespace(s);
    assert r.Some? ==> r == Some(FieldMessage(Some(displayName), " cannot be empty"));
  }

  /** The guarded `notEmpty`: "must be a string" on any other value, and
      on a string `notEmpty`'s verdict. */
  lemma GuardedNotEmptyNamed(displayName: string, v: Value)
    requires displayName != ""
    ensures GuardedNotEmpty(displayName)(v) ==
            if !v.Str? then Some(displayName + " must be a string")
            else if AllWhitespace(v.s) then Some(displayName + " cannot be empty") else None
  {
    if v.Str? {
      NotEmptyNamed(displayName, v.s);
      assert GuardedNotEmpty(displayName)(v) == NotEmpty(Some(displayName))(v.s);
    }
  }

  lemma ValidCharsNamed(displayName: string, s: string)
    requires displayName != ""
    ensures ValidChars(Some(displayName))(s) ==
            if HasInvalidChar(s) then Some(displayName + " contains invalid characters") else None
  {
    var r := ValidChars(Some(displayName))(s);
    assert r.Some? <==> HasInvalidChar(s);
    assert r.Some? ==> r == Some(FieldMessage(Some(displayName), " contains invalid characters"));
  }

  /** The guarded `validChars`: "must be a string" on any other value, and
      on a string `validChars`'s verdict. */
  lemma GuardedValidCharsNamed(displayName: string, v: Value)
    requires displayName != ""
    ensures GuardedValidChars(displayName)(v) ==
            if !v.Str? then Some(displayName + " must be a string")
            else if HasInvalidChar(v.s) then Some(displayName + " contains invalid characters") else None
  {
    if v.Str? {
      ValidCharsNamed(displayName, v.s);
      assert GuardedValidChars(displayName)(v) == ValidChars(Some(displayName))(v.s);
    }
  }

  /** The string chain reports, in this order of priority: null or
      undefined, not a string, blank, a character outside letters, digits
      and whitespace; any other string passes. */
  lemma {:induction false} StringFieldChain(displayName: string, v: Value)
    requires displayName != ""
    ensures StringFieldError(displayName, v) ==
            if v.Null? || v.Undefined? then Some(displayName + " cannot be null or undefined")
            else if !v.Str? then Some(displayName + " must be a string")
            else if AllWhitespace(v.s) then Some(displayName + " cannot be empty")
            else if HasInvalidChar(v.s) then Some(displayName + " contains invalid characters")
            else None
  {
    var rules := StringFieldRules(displayName);
    RequiredNamed(displayName, v);
    IsStringNamed(displayName, v);
    GuardedNotEmptyNamed(displayName, v);
    GuardedValidCharsNamed(displayName, v);
    if v.Null? || v.Undefined? {
      FirstFailureAt(rules, v, 0);
    } else if !v.Str? {
      FirstFailureAt(rules, v, 1);
    } else if AllWhitespace(v.s) {
      FirstFailureAt(rules, v, 2);
    } else if HasInvalidChar(v.s) {
      FirstFailureAt(rules, v, 3);
    } else {
      FirstFailureSpec(rules, v);
    }
  }

  /** Any non-blank string of letters, digits and whitespace passes the
      string chain. */
  lemma StringFieldPasses(displayName: string, v: Value)
    requires displayName != ""
    requires v.Str? && !AllWhitespace(v.s) && !HasInvalidChar(v.s)
    ensures StringFieldError(displayName, v) == None
  {
    StringFieldChain(displayName, v);
  }

  // ----- validateSpacecraft -----

  /** The declared spacecraft fields with their display names, in order. */
  const SpacecraftFields: seq<(string, string)> :=
    [("name", "Spacecraft name"), ("type", "Spacecraft type"), ("captain", "Captain name")]

  /** The result for one spacecraft field: a missing key, else the string
      chain's verdict on the value. */
  function SpacecraftFieldError(data: Data, field: string, displayName: string): ValidationResult
  {
    if field !in data then Some(displayName + " key is missing")
    else StringFieldError(displayName, data[field])
  }

  /** The errors after the `forEach` has visited `fields`. */
  function CollectSpacecraft(data: Data, fields: seq<(string, string)>): ValidationErrors
  {
    if fields == [] then map[]
    else
      var (field, displayName) := fields[|fields| - 1];
      Record(CollectSpacecraft(data, fields[..|fields| - 1]), field, SpacecraftFieldError(data, field, displayName))
  }

  function SpacecraftErrors(data: Data): ValidationErrors
  {
    CollectSpacecraft(data, SpacecraftFields)
  }

  /** `validateSpacecraft(data)`: each declared field in turn is checked for
      a missing key, else run through a fresh string validator. */
  method ValidateSpacecraft(data: Data) returns (errors: ValidationErrors)
    ensures errors == SpacecraftErrors(data)
  {
    errors := map[];
    var fields := SpacecraftFields;
    for i := 0 to |fields|
      invariant errors == CollectSpacecraft(data, fields[..i])
    {
      var (field, displayName) := fields[i];
      assert fields[..i + 1][..i] == fields[..i];
      if field !in data {
        errors := errors[field := displayName + " key is missing"];
      } else {
        var validator := CreateStringFieldValidator(displayName);
        var error;
        ghost var applied;
        error, applied := validator.Validate(data[field]);
        if Truthy(error) {
          errors := errors[field := error.value];
        }
      }
    }
    assert fields[..|fields|] == fields;
  }

  /** Changing one entry of the data leaves every other field's entry as
      it was. */
  lemma {:induction false} CollectIndependent(data: Data, fields: seq<(string, string)>, key: string, x: Value, other: string)
    requires other != key
    ensures SameEntry(CollectSpacecraft(data, fields), CollectSpacecraft(data[key := x], fields), other)
    decreases |fields|
  {
    if fields != [] {
      var (field, displayName) := fields[|fields| - 1];
      CollectIndependent(data, fields[..|fields| - 1], key, x, other);
      if field == other {
        SpacecraftFieldErrorLocal(data, data[key := x], field, displayName);
      }
    }
  }

  /** Fields that all hold acceptable strings give no entries. */
  lemma {:induction false} CollectValid(data: Data, fields: seq<(string, string)>)
    requires forall j :: 0 <= j < |fields| ==>
               fields[j].1 != "" && fields[j].0 in data && data[fields[j].0].Str? &&
               !AllWhitespace(data[fields[j].0].s) && !HasInvalidChar(data[fields[j].0].s)
    ensures CollectSpacecraft(data, fields) == map[]
    decreases |fields|
  {
    if fields != [] {
      var (field, displayName) := fields[|fields| - 1];
      CollectValid(data, fields[..|fields| - 1]);
      StringFieldPasses(displayName, data[field]);
    }
  }

  /** The fold over the three declared fields, written out. */
  lemma SpacecraftErrorsUnfold(data: Data)
    ensures SpacecraftErrors(data) ==
            Record(Record(Record(map[],
              "name", SpacecraftFieldError(data, "name", "Spacecraft name")),
              "type", SpacecraftFieldError(data, "type", "Spacecraft type")),
              "captain", SpacecraftFieldError(data, "captain", "Captain name"))
  {
    var f := SpacecraftFields;
    assert f[..1][..0] == [];
    assert CollectSpacecraft(data, f[..1]) == Record(map[], "name", SpacecraftFieldError(data, "name", "Spacecraft name"));
    assert f[..2][..1] == f[..1];
    assert CollectSpacecraft(data, f[..2]) ==
           Record(CollectSpacecraft(data, f[..1]), "type", SpacecraftFieldError(data, "type", "Spacecraft type"));
    assert f[..2] == f[..|f| - 1];
  }

  /** Only declared fields appear, and each appears exactly when its own
      check fails, with that check's message. */
  lemma SpacecraftErrorsSpec(data: Data)
    ensures SpacecraftErrors(data).Keys <= {"name", "type", "captain"}
    ensures EntryFor(SpacecraftErrors(data), "name", SpacecraftFieldError(data, "name", "Spacecraft name"))
    ensures EntryFor(SpacecraftErrors(data), "type", SpacecraftFieldError(data, "type", "Spacecraft type"))
    ensures EntryFor(SpacecraftErrors(data), "captain", SpacecraftFieldError(data, "captain", "Captain name"))
  {
    SpacecraftErrorsUnfold(data);
    var e1 := Record(map[], "name", SpacecraftFieldError(data, "name", "Spacecraft name"));
    RecordSpec(map[], "name", SpacecraftFieldError(data, "name", "Spacecraft name"));
    var e2 := Record(e1, "type", SpacecraftFieldError(data, "type", "Spacecraft type"));
    RecordSpec(e1, "type", SpacecraftFieldError(data, "type", "Spacecraft type"));
    RecordSpec(e2, "captain", SpacecraftFieldError(data, "captain", "Captain name"));
  }

  /** `validateSpacecraft({})` reports exactly the three missing keys. */
  lemma SpacecraftErrorsEmpty()
    ensures SpacecraftErrors(map[]) ==
            map["name" := "Spacecraft name key is missing",
                "type" := "Spacecraft type key is missing",
                "captain" := "Captain name key is missing"]
  {
    SpacecraftErrorsUnfold(map[]);
    MissingFieldError(map[], "name", "Spacecraft name");
    MissingFieldError(map[], "type", "Spacecraft type");
    MissingFieldError(map[], "captain", "Captain name");
    NameMissingMessage();
    TypeMissingMessage();
    CaptainMissingMessage();
  }

  /** Each literal message equality sits in a lemma of its own: several of
      them inside one larger proof make the solver far slower. */
  lemma NameMissingMessage()
    ensures "Spacecraft name" + " key is missing" == "Spacecraft name key is missing"
  {
  }

  lemma TypeMissingMessage()
    ensures "Spacecraft type" + " key is missing" == "Spacecraft type key is missing"
  {
  }

  lemma CaptainMissingMessage()
    ensures "Captain name" + " key is missing" == "Captain name key is missing"
  {
  }

  /** A missing key is reported as such, whatever else the data holds. */
  lemma MissingFieldError(data: Data, field: string, displayName: string)
    requires field !in data
    ensures SpacecraftFieldError(data, field, displayName) == Some(displayName + " key is missing")
  {
  }

  /** A spacecraft whose three fields are non-blank strings of letters,
      digits and whitespace has no errors. */
  lemma SpacecraftErrorsValid(data: Data)
    requires forall f :: f in ["name", "type", "captain"] ==>
               f in data && data[f].Str? && !AllWhitespace(data[f].s) && !HasInvalidChar(data[f].s)
    ensures SpacecraftErrors(data) == map[]
  {
    var f := SpacecraftFields;
    forall j | 0 <= j < |f|
      ensures f[j].1 != "" && f[j].0 in ["name", "type", "captain"]
    {
    }
    CollectValid(data, f);
  }

  /** A field's verdict depends only on that field's own entry. */
  lemma SpacecraftFieldErrorLocal(data: Data, data': Data, field: string, displayName: string)
    requires field in data <==> field in data'
    requires field in data ==> data[field] == data'[field]
    ensures SpacecraftFieldError(data, field, displayName) == SpacecraftFieldError(data', field, displayName)
  {
  }

  /** Fields are judged independently: replacing one entry of the data can
      change no other field's entry. */
  lemma SpacecraftErrorsIndependent(data: Data, key: string, x: Value, other: string)
    requires other != key
    ensures SameEntry(SpacecraftErrors(data), SpacecraftErrors(data[key := x]), other)
  {
    CollectIndependent(data, SpacecraftFields, key, x, other);
  }

  // ----- validateDocking -----

  /** The second docking-time rule. On an invalid date `getFullYear()` and
      `getTime()` are NaN, so the year test is false and the remainder test
      true; `futureDate` stops such a value first. A non-zero remainder is
      the same under JavaScript's truncating `%` and Dafny's Euclidean one. */
  function DockingTimeLimits(env: DateEnv): Rule<Value>
  {
    (v: Value) => var date := env.parse(v);
                  if date.None? then Some("Docking time must be at a whole second boundary")
                  else if env.fullYear(date.value) > MaxFutureYear then Some("Docking time cannot be more than 30 years in the future")
                  else if date.value % 1000 != 0 then Some("Docking time must be at a whole second boundary")
                  else None
  }

  /** The limits rule on its own: it passes exactly on a parsed instant in
      a year up to 2050 that lies on a whole second; the year message takes
      priority, and an unparsable value gets the whole-second message. */
  lemma DockingTimeLimitsSpec(env: DateEnv, v: Value)
    ensures DockingTimeLimits(env)(v).None? <==>
            env.parse(v).Some? && env.fullYear(env.parse(v).value) <= MaxFutureYear &&
            env.parse(v).value % 1000 == 0
    ensures env.parse(v).Some? && env.fullYear(env.parse(v).value) > MaxFutureYear ==>
            DockingTimeLimits(env)(v) == Some("Docking time cannot be more than 30 years in the future")
    ensures env.parse(v).None? ||
            (env.fullYear(env.parse(v).value) <= MaxFutureYear && env.parse(v).value % 1000 != 0) ==>
            DockingTimeLimits(env)(v) == Some("Docking time must be at a whole second boundary")
  {
  }

  function DockingTimeRules(env: DateEnv): seq<Rule<Value>>
  {
    [FutureDate(Some("Docking time"), env.now, env.parse), DockingTimeLimits(env)]
  }

  /** `range` is declared over numbers; `isNumber` runs before it, so the
      pass given here to a non-number is never consulted. */
  function OnNumbers(rule: Rule<real>): Rule<Value>
  {
    (v: Value) => if v.Num? then rule(v.n) else None
  }

  /** The lifted rule agrees with `rule` on numbers and passes everything
      else. */
  lemma OnNumbersSpec(rule: Rule<real>, v: Value)
    ensures v.Num? ==> OnNumbers(rule)(v) == rule(v.n)
    ensures !v.Num? ==> OnNumbers(rule)(v) == None
  {
  }

  function BayIdRules(): seq<Rule<Value>>
  {
    [IsNumber(Some("Bay ID")), IsInteger(Some("Bay ID")), OnNumbers(Range(MinBayId, MaxBayId, Some("Bay ID")))]
  }

  function SpacecraftIdError(data: Data): ValidationResult
  {
    if "spacecraftId" !in data then Some("Spacecraft ID key is missing")
    else StringFieldError("Spacecraft ID", data["spacecraftId"])
  }

  function DockingTimeError(data: Data, env: DateEnv): ValidationResult
  {
    if "dockingTime" !in data then Some("Docking time key is missing")
    else FirstFailure(DockingTimeRules(env), data["dockingTime"])
  }

  function BayIdError(data: Data): ValidationResult
  {
    if "bayId" !in data then Some("Bay ID key is missing")
    else FirstFailure(BayIdRules(), data["bayId"])
  }

  /** `data.spacecraftId === ENTERPRISE_ID && data.bayId === ENTERPRISE_FORBIDDEN_BAY`. */
  predicate EnterpriseInForbiddenBay(data: Data)
    ensures EnterpriseInForbiddenBay(data) <==>
            "spacecraftId" in data && data["spacecraftId"] == Str(EnterpriseId) &&
            "bayId" in data && data["bayId"] == Num(1701.0)
  {
    Lookup(data, "spacecraftId") == Str(EnterpriseId) && Lookup(data, "bayId") == Num(EnterpriseForbiddenBay as real)
  }

  /** The errors map built from the three field results in order, with
      the Enterprise override of `bayId` applied last. */
  function DockingErrorsOf(spacecraftId: ValidationResult, dockingTime: ValidationResult,
                           bayId: ValidationResult, enterprise: bool): (errors: ValidationErrors)
    ensures enterprise ==> "bayId" in errors && errors["bayId"] == EnterpriseMessage
    ensures !enterprise ==> ("bayId" in errors <==> Truthy(bayId))
  {
    var errors := Record(Record(Record(map[],
                    "spacecraftId", spacecraftId),
                    "dockingTime", dockingTime),
                    "bayId", bayId);
    if enterprise then errors["bayId" := EnterpriseMessage] else errors
  }

  /** The errors `validateDocking` returns. */
  function DockingErrors(data: Data, env: DateEnv): ValidationErrors
  {
    DockingErrorsOf(SpacecraftIdError(data), DockingTimeError(data, env), BayIdError(data),
                    EnterpriseInForbiddenBay(data))
  }

  /** A validator from `createStringFieldValidator`, run on one value. */
  method ValidateStringField(displayName: string, value: Value) returns (error: ValidationResult)
    ensures error == StringFieldError(displayName, value)
  {
    var validator := CreateStringFieldValidator(displayName);
    ghost var applied: nat;
    error, applied := validator.Validate(value);
  }

  /** The docking-time validator: `futureDate` then the limits rule. */
  method ValidateDockingTime(value: Value, env: DateEnv) returns (error: ValidationResult)
    ensures error == FirstFailure(DockingTimeRules(env), value)
  {
    var validator := new Validator<Value>();
    validator := validator.AddRule(FutureDate(Some("Docking time"), env.now, env.parse));
    validator := validator.AddRule(DockingTimeLimits(env));
    ghost var applied: nat;
    error, applied := validator.Validate(value);
  }

  /** The bay validator: `isNumber`, `isInteger`, then `range(1, 1000)`. */
  method ValidateBayId(value: Value) returns (error: ValidationResult)
    ensures error == FirstFailure(BayIdRules(), value)
  {
    var validator := new Validator<Value>();
    validator := validator.AddRule(IsNumber(Some("Bay ID")));
    validator := validator.AddRule(IsInteger(Some("Bay ID")));
    validator := validator.AddRule(OnNumbers(Range(MinBayId, MaxBayId, Some("Bay ID"))));
    ghost var applied: nat;
    error, applied := validator.Validate(value);
  }

  /** The `spacecraftId` branch of `validateDocking`. */
  method CheckSpacecraftId(data: Data) returns (error: ValidationResult)
    ensures error == SpacecraftIdError(data)
  {
    if "spacecraftId" !in data {
      error := Some("Spacecraft ID key is missing");
    } else {
      error := ValidateStringField("Spacecraft ID", data["spacecraftId"]);
    }
  }

  /** The `dockingTime` branch of `validateDocking`. */
  method CheckDockingTime(data: Data, env: DateEnv) returns (error: ValidationResult)
    ensures error == DockingTimeError(data, env)
  {
    if "dockingTime" !in data {
      error := Some("Docking time key is missing");
    } else {
      error := ValidateDockingTime(data["dockingTime"], env);
    }
  }

  /** The `bayId` branch of `validateDocking`. */
  method CheckBayId(data: Data) returns (error: ValidationResult)
    ensures error == BayIdError(data)
  {
    if "bayId" !in data {
      error := Some("Bay ID key is missing");
    } else {
      error := ValidateBayId(data["bayId"]);
    }
  }

  /** Records each failing field result in `errors`, in field order, then
      applies the Enterprise override. */
  method CollectDocking(spacecraftIdError: ValidationResult, dockingTimeError: ValidationResult,
                        bayIdError: ValidationResult, enterprise: bool) returns (errors: ValidationErrors)
    ensures errors == DockingErrorsOf(spacecraftIdError, dockingTimeError, bayIdError, enterprise)
  {
    errors := map[];
    if Truthy(spacecraftIdError) {
      errors := errors["spacecraftId" := spacecraftIdError.value];
    }
    if Truthy(dockingTimeError) {
      errors := errors["dockingTime" := dockingTimeError.value];
    }
    if Truthy(bayIdError) {
      errors := errors["bayId" := bayIdError.value];
    }
    if enterprise {
      errors := errors["bayId" := EnterpriseMessage];
    }
  }

  /** `validateDocking(data)`: three independent field checks, each
      recorded when it fails, then the Enterprise special case. */
  method ValidateDocking(data: Data, env: DateEnv) returns (errors: ValidationErrors)
    ensures errors == DockingErrors(data, env)
  {
    var spacecraftIdError := CheckSpacecraftId(data);
    var dockingTimeError := CheckDockingTime(data, env);
    var bayIdError := CheckBayId(data);
    var enterprise := EnterpriseInForbiddenBay(data);
    errors := CollectDocking(spacecraftIdError, dockingTimeError, bayIdError, enterprise);
  }

  lemma DockingFutureNamed(env: DateEnv, v: Value)
    ensures FutureDate(Some("Docking time"), env.now, env.parse)(v) ==
            match env.parse(v)
            case None => Some("Docking time must be a valid date")
            case Some(t) => if t <= env.now then Some("Docking time must be in the future") else None
  {
    ValidDateMessage();
    InFutureMessage();
  }

  /** A literal message equality, kept apart for solver cost. */
  lemma ValidDateMessage()
    ensures "Docking time" + " must be a valid date" == "Docking time must be a valid date"
  {
  }

  lemma InFutureMessage()
    ensures "Docking time" + " must be in the future" == "Docking time must be in the future"
  {
  }

  /** The docking-time checks in priority order: a valid date in the
      future, then the fixed year cutoff, then the whole-second boundary. */
  lemma {:induction false} DockingTimeChain(env: DateEnv, v: Value)
    ensures FirstFailure(DockingTimeRules(env), v) ==
            match env.parse(v)
            case None => Some("Docking time must be a valid date")
            case Some(t) =>
              if t <= env.now then Some("Docking time must be in the future")
              else if env.fullYear(t) > MaxFutureYear then Some("Docking time cannot be more than 30 years in the future")
              else if t % 1000 != 0 then Some("Docking time must be at a whole second boundary")
              else None
  {
    var rules := DockingTimeRules(env);
    DockingFutureNamed(env, v);
    if rules[0](v).Some? {
      FirstFailureAt(rules, v, 0);
    } else if Truthy(rules[1](v)) {
      FirstFailureAt(rules, v, 1);
    } else {
      FirstFailureSpec(rules, v);
    }
  }

  /** The rendered bounds of the bay range. */
  lemma BayRangeNumerals()
    ensures IntToString(MinBayId) == "1" && IntToString(MaxBayId) == "1000"
  {
    assert NatToString(10) == "10";
    assert NatToString(100) == "100";
  }

  lemma BayNumberNamed(v: Value)
    ensures IsNumber(Some("Bay ID"))(v) == if !v.Num? then Some("Bay ID must be a number") else None
  {
    BayNumberMessage();
  }

  /** A literal message equality, kept apart for solver cost. */
  lemma BayNumberMessage()
    ensures "Bay ID" + " must be a number" == "Bay ID must be a number"
  {
  }

  lemma BayIntegerNamed(v: Value)
    ensures IsInteger(Some("Bay ID"))(v) ==
            if !IsIntegral(v) then Some("Bay ID must be an integer") else None
  {
    BayIntegerMessage();
  }

  lemma BayIntegerMessage()
    ensures "Bay ID" + " must be an integer" == "Bay ID must be an integer"
  {
  }

  lemma BayRangeNamed(x: real)
    ensures Range(MinBayId, MaxBayId, Some("Bay ID"))(x) ==
            if x < 1.0 || x > 1000.0 then Some("Bay ID must be between 1 and 1000") else None
  {
    BayRangeNumerals();
    BayRangeMessage();
  }

  lemma BayRangeMessage()
    ensures "Bay ID" + (" must be between " + "1" + " and " + "1000") == "Bay ID must be between 1 and 1000"
  {
  }

  /** The bay checks in priority order: a number, then an integer, then
      inside `[1, 1000]` with both ends allowed. */
  lemma {:induction false} BayIdChain(v: Value)
    ensures FirstFailure(BayIdRules(), v) ==
            if !v.Num? then Some("Bay ID must be a number")
            else if v.n != v.n.Floor as real then Some("Bay ID must be an integer")
            else if v.n < 1.0 || v.n > 1000.0 then Some("Bay ID must be between 1 and 1000")
            else None
  {
    var rules := BayIdRules();
    BayNumberNamed(v);
    BayIntegerNamed(v);
    if !v.Num? {
      FirstFailureAt(rules, v, 0);
    } else if v.n != v.n.Floor as real {
      FirstFailureAt(rules, v, 1);
    } else {
      BayRangeNamed(v.n);
      if v.n < 1.0 || v.n > 1000.0 {
        FirstFailureAt(rules, v, 2);
      } else {
        FirstFailureSpec(rules, v);
      }
    }
  }

  /** Each field's entry in the assembled map, and nothing beyond the
      three fields. */
  lemma DockingErrorsOfSpec(spacecraftId: ValidationResult, dockingTime: ValidationResult,
                            bayId: ValidationResult, enterprise: bool)
    ensures var errors := DockingErrorsOf(spacecraftId, dockingTime, bayId, enterprise);
            errors.Keys <= {"spacecraftId", "dockingTime", "bayId"} &&
            EntryFor(errors, "spacecraftId", spacecraftId) &&
            EntryFor(errors, "dockingTime", dockingTime) &&
            (!enterprise ==> EntryFor(errors, "bayId", bayId)) &&
            (enterprise ==> "bayId" in errors && errors["bayId"] == EnterpriseMessage)
  {
    var e1 := Record(map[], "spacecraftId", spacecraftId);
    RecordSpec(map[], "spacecraftId", spacecraftId);
    var e2 := Record(e1, "dockingTime", dockingTime);
    RecordSpec(e1, "dockingTime", dockingTime);
    RecordSpec(e2, "bayId", bayId);
  }

  /** `validateDocking` reports each field's own verdict under that field's
      key, and the Enterprise message for `bayId` whenever the Enterprise
      asks for bay 1701, whatever the bay checks said. */
  lemma DockingErrorsSpec(data: Data, env: DateEnv)
    ensures var errors := DockingErrors(data, env);
            errors.Keys <= {"spacecraftId", "dockingTime", "bayId"} &&
            EntryFor(errors, "spacecraftId", SpacecraftIdError(data)) &&
            EntryFor(errors, "dockingTime", DockingTimeError(data, env)) &&
            (!EnterpriseInForbiddenBay(data) ==> EntryFor(errors, "bayId", BayIdError(data))) &&
            (EnterpriseInForbiddenBay(data) ==> "bayId" in errors && errors["bayId"] == EnterpriseMessage)
  {
    DockingErrorsOfSpec(SpacecraftIdError(data), DockingTimeError(data, env), BayIdError(data),
                        EnterpriseInForbiddenBay(data));
  }

  /** `validateDocking({})` reports the three missing keys. */
  lemma DockingErrorsEmpty(env: DateEnv)
    ensures DockingErrors(map[], env) ==
            map["spacecraftId" := "Spacecraft ID key is missing",
                "dockingTime" := "Docking time key is missing",
                "bayId" := "Bay ID key is missing"]
  {
    assert !EnterpriseInForbiddenBay(map[]);
  }

  /** A docking request that passes every field check and is not the
      Enterprise at bay 1701 has no errors. */
  lemma DockingErrorsValid(data: Data, env: DateEnv, t: int)
    requires "spacecraftId" in data && data["spacecraftId"].Str?
    requires !AllWhitespace(data["spacecraftId"].s) && !HasInvalidChar(data["spacecraftId"].s)
    requires "dockingTime" in data && env.parse(data["dockingTime"]) == Some(t)
    requires t > env.now && env.fullYear(t) <= MaxFutureYear && t % 1000 == 0
    requires "bayId" in data && data["bayId"].Num? && IsIntegral(data["bayId"])
    requires 1.0 <= data["bayId"].n <= 1000.0
    ensures DockingErrors(data, env) == map[]
  {
    StringFieldPasses("Spacecraft ID", data["spacecraftId"]);
    DockingTimeChain(env, data["dockingTime"]);
    BayIdChain(data["bayId"]);
    DockingErrorsSpec(data, env);
    assert DockingErrors(data, env).Keys == {};
  }

  /** The Enterprise check compares the raw values, so it overrides
      whatever the bay checks found; at bay 1701 the range check alone
      would have reported the bounds. */
  lemma EnterpriseOverride(data: Data, env: DateEnv)
    requires "spacecraftId" in data && data["spacecraftId"] == Str(EnterpriseId)
    requires "bayId" in data && data["bayId"] == Num(EnterpriseForbiddenBay as real)
    ensures BayIdError(data) == Some("Bay ID must be between 1 and 1000")
    ensures "bayId" in DockingErrors(data, env) && DockingErrors(data, env)["bayId"] == EnterpriseMessage
  {
    BayIdChain(data["bayId"]);
    DockingErrorsSpec(data, env);
  }

  /** Each docking field's verdict reads that field's own entry only. */
  lemma DockingFieldsLocal(data: Data, data': Data, env: DateEnv, key: string)
    requires key in data <==> key in data'
    requires key in data ==> data[key] == data'[key]
    ensures key == "spacecraftId" ==> SpacecraftIdError(data) == SpacecraftIdError(data')
    ensures key == "dockingTime" ==> DockingTimeError(data, env) == DockingTimeError(data', env)
    ensures key == "bayId" ==> BayIdError(data) == BayIdError(data')
    ensures Lookup(data, key) == Lookup(data', key)
  {
  }

  /** Equal field results give equal entries in the assembled map. */
  lemma DockingErrorsOfSame(a: ValidationResult, b: ValidationResult, c: ValidationResult, d: bool,
                            a': ValidationResult, b': ValidationResult, c': ValidationResult, d': bool)
    ensures var before, after := DockingErrorsOf(a, b, c, d), DockingErrorsOf(a', b', c', d');
            (a == a' ==> SameEntry(before, after, "spacecraftId")) &&
            (b == b' ==> SameEntry(before, after, "dockingTime")) &&
            (c == c' && d == d' ==> SameEntry(before, after, "bayId"))
  {
    DockingErrorsOfSpec(a, b, c, d);
    DockingErrorsOfSpec(a', b', c', d');
  }

  /** Changing any other field of a docking request leaves the
      `spacecraftId` entry as it was. */
  lemma SpacecraftIdEntryIndependent(data: Data, env: DateEnv, key: string, x: Value)
    requires key != "spacecraftId"
    ensures SameEntry(DockingErrors(data, env), DockingErrors(data[key := x], env), "spacecraftId")
  {
    var data' := data[key := x];
    DockingErrorsOfSame(SpacecraftIdError(data), DockingTimeError(data, env), BayIdError(data), EnterpriseInForbiddenBay(data),
                        SpacecraftIdError(data'), DockingTimeError(data', env), BayIdError(data'), EnterpriseInForbiddenBay(data'));
    DockingFieldsLocal(data, data', env, "spacecraftId");
  }

  /** Changing any other field leaves the `dockingTime` entry as it was. */
  lemma DockingTimeEntryIndependent(data: Data, env: DateEnv, key: string, x: Value)
    requires key != "dockingTime"
    ensures SameEntry(DockingErrors(data, env), DockingErrors(data[key := x], env), "dockingTime")
  {
    var data' := data[key := x];
    DockingErrorsOfSame(SpacecraftIdError(data), DockingTimeError(data, env), BayIdError(data), EnterpriseInForbiddenBay(data),
                        SpacecraftIdError(data'), DockingTimeError(data', env), BayIdError(data'), EnterpriseInForbiddenBay(data'));
    DockingFieldsLocal(data, data', env, "dockingTime");
  }

  /** The `bayId` entry reads `bayId` and, through the Enterprise check,
      `spacecraftId`; changing any other field leaves it as it was. */
  lemma BayIdEntryIndependent(data: Data, env: DateEnv, key: string, x: Value)
    requires key != "bayId" && key != "spacecraftId"
    ensures SameEntry(DockingErrors(data, env), DockingErrors(data[key := x], env), "bayId")
  {
    var data' := data[key := x];
    DockingErrorsOfSame(SpacecraftIdError(data), DockingTimeError(data, env), BayIdError(data), EnterpriseInForbiddenBay(data),
                        SpacecraftIdError(data'), DockingTimeError(data', env), BayIdError(data'), EnterpriseInForbiddenBay(data'));
    DockingFieldsLocal(data, data', env, "bayId");
    DockingFieldsLocal(data, data', env, "spacecraftId");
  }
}
