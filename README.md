# Spacecraft docking: validation engine and stores

This project models the form validation of the spacecraft docking
application, and its two synchronous list stores. It proves properties
of that model.

- **Rule engine** (`validator.dfy`, module `Validators`):
  - A rule maps a value to an optional message.
  - A `Validator` is an ordered list of rules.
  - `addRule` appends a rule and returns the same validator.
  - `validate` runs the rules in insertion order and stops at the first
    truthy message.
  - The loop is proved against the specification function `FirstFailure`.
- **Rule factories**:
  - `rules.dfy` (`Rules`): the original library.
  - `new_rules.dfy` (`NewRules`): its revision, where `required` only
    rejects `undefined` and a separate `isNull` rejects `null`.
  - `rule_facade.dfy` (`RuleFacade`): the application's facade, which
    rebuilds the null-or-undefined `required` from the two.
  - Every message comes from a template starting with "Field", and
    `interpolateFieldName` replaces that word with the field's name.
- **Domain validators** (`validation.dfy`, `Validation`):
  - `createStringFieldValidator` and `validateSpacecraft`.
  - `validateDocking`, including its docking-time and bay chains and the
    Enterprise override of `bayId`.
  - Error maps are filled one field at a time (`error_maps.dfy`).
- **Early validator** (`early_validation.dfy`, `EarlyValidation`): the
  first hand-written `validateSpacecraft` and `validateDocking`.
- **Stores** (`docking_store.dfy`, `spacecraft_store.dfy`): classes that
  hold a list plus `loading` and `error` fields. The shared
  find-by-id-and-replace is specified in `id_lists.dfy`.
- **JavaScript semantics the rules rely on**:
  - `js_values.dfy`: dynamic values, truthiness, and reading a key.
  - `js_strings.dfy`: `trim`, the `\s` class, `replace` with a string
    pattern, and the decimal rendering of an integer of at most 2^53 in magnitude.

## Model

| member | source | states |
|---|---|---|
| JsStrings.TrimStartSpec | session-3/exercise-20/problem/src/utils/validator/rules.ts:39-39 | Trimming the start removes a whitespace-only prefix, keeps the rest, and stops at a non-whitespace character |
| JsStrings.TrimEndSpec | session-3/exercise-20/problem/src/utils/validator/rules.ts:39-39 | Trimming the end removes a whitespace-only suffix, keeps the rest, and stops at a non-whitespace character |
| JsStrings.TrimSpec | session-3/exercise-20/problem/src/utils/validator/rules.ts:39-39 | `trim()` is a contiguous slice of the input with only whitespace cut from both ends, and no whitespace is left at either of its ends |
| JsStrings.TrimEmptyIff | session-3/exercise-20/problem/src/utils/validator/rules.ts:39-39 | `value.trim() === ''` holds exactly when every character is whitespace |
| JsStrings.ReplaceFirstAbsent | session-3/exercise-20/problem/src/utils/validator/rules.ts:13-13 | `replace` with a string pattern that does not occur returns its input |
| JsStrings.ReplaceFirstAt | session-3/exercise-20/problem/src/utils/validator/rules.ts:13-13 | `replace` substitutes exactly the first occurrence of the pattern and keeps everything before and after it |
| JsStrings.NatToString | session-3/exercise-20/problem/src/utils/validator/rules.ts:89-89 | The numeral interpolated into the range template is non-empty and made of decimal digits |
| JsStrings.NatToStringRoundTrip | session-3/exercise-20/problem/src/utils/validator/rules.ts:89-89 | Reading the numeral back as a decimal number gives the original number |
| JsStrings.IntToStringNonNegative | session-3/exercise-20/problem/src/utils/validator/rules.ts:89-89 | `${min}` for a non-negative integer is a numeral starting with a digit that reads back as the number |
| JsStrings.IntToStringNegative | session-3/exercise-20/problem/src/utils/validator/rules.ts:89-89 | `${min}` for a negative integer is a minus sign followed by a numeral that reads back as the absolute value |
| Validators.FirstFailureSpec | session-3/exercise-20/problem/src/utils/validator/validator.ts:16-22 | The specified result is `null` exactly when no rule gives a truthy message; otherwise it is the message of a failing rule with only passing rules before it |
| Validators.FirstFailureAt | session-3/exercise-20/problem/src/utils/validator/validator.ts:17-19 | A failing rule preceded only by passing rules decides the result |
| Validators.FirstFailureShortCircuit | session-3/exercise-20/problem/src/utils/validator/validator.ts:19-19 | Once a prefix of the rules fails, rules added after it cannot change the result |
| Validators.FirstFailureAppend | session-3/exercise-20/problem/src/utils/validator/validator.ts:11-22 | A rule appended at the end only matters when every earlier rule passes |
| Validators.Validator.constructor | session-3/exercise-20/problem/src/utils/validator/validator.ts:9-9 | A new validator has no rules |
| Validators.Validator.AddRule | session-3/exercise-20/problem/src/utils/validator/validator.ts:11-14 | Appends exactly that rule after the unchanged earlier ones and returns the same validator |
| Validators.Validator.Validate | session-3/exercise-20/problem/src/utils/validator/validator.ts:16-22 | Returns the first truthy message in insertion order, or `null` when none fails (so always `null` with no rules); evaluates no rule after the failing one; an empty message counts as a pass; the rule list is not changed |
| ErrorMaps.RecordSpec | session-3/exercise-20/solution/src/utils/validation.ts:65-65 | `if (error) errors[field] = error` gives the field an entry exactly when the result is truthy, with that message, and leaves every other key as it was |
| Rules.InterpolateFieldName | session-3/exercise-20/problem/src/utils/validator/rules.ts:9-13 | With no field name, or an empty one, the message comes back unchanged |
| Rules.InterpolateTemplate | session-3/exercise-20/problem/src/utils/validator/rules.ts:9-13 | A template that starts with "Field" gets the name in that word's place, or stays generic when there is no usable name |
| Rules.InterpolateReplacesFirst | session-3/exercise-20/problem/src/utils/validator/rules.ts:9-13 | With a name, only the first "Field" is replaced; the text around it is kept |
| Rules.InterpolateWithoutPlaceholder | session-3/exercise-20/problem/src/utils/validator/rules.ts:9-13 | A message that does not contain "Field" is returned unchanged, whatever the name |
| Rules.Required | session-3/exercise-20/problem/src/utils/validator/rules.ts:15-23 | Fails exactly on `null` and `undefined`, with "<name> cannot be null or undefined" |
| Rules.IsString | session-3/exercise-20/problem/src/utils/validator/rules.ts:25-33 | Fails exactly on values that are not strings, with "<name> must be a string" |
| Rules.NotEmpty | session-3/exercise-20/problem/src/utils/validator/rules.ts:35-45 | Fails exactly when the string is all whitespace, that is, empty after trimming, with "<name> cannot be empty" |
| Rules.ContainsInvalidChar | session-3/exercise-20/problem/src/utils/validator/rules.ts:47-57 | The scan for `[^a-zA-Z0-9\s]` succeeds exactly when some character is not a letter, a digit or whitespace |
| Rules.ValidChars | session-3/exercise-20/problem/src/utils/validator/rules.ts:47-57 | Fails exactly when some character is not a letter, a digit or whitespace, with "<name> contains invalid characters" |
| Rules.IsNumber | session-3/exercise-20/problem/src/utils/validator/rules.ts:59-67 | Fails exactly on values that are not numbers, with "<name> must be a number" |
| Rules.IsInteger | session-3/exercise-20/problem/src/utils/validator/rules.ts:69-79 | Fails on a number exactly when it has a fractional part, and always on a value that is not a number, with "<name> must be an integer" |
| Rules.Range | session-3/exercise-20/problem/src/utils/validator/rules.ts:81-93 | Passes exactly when `min <= x <= max`, both bounds included; otherwise gives "<name> must be between <min> and <max>" |
| Rules.CheckFutureDate | session-3/exercise-20/problem/src/utils/validator/rules.ts:98-111 | Passes exactly on a valid date strictly after now; an invalid date gets the "must be a valid date" message before futurity is looked at; a date at or before now gets "must be in the future" |
| Rules.FutureDate | session-3/exercise-20/problem/src/utils/validator/rules.ts:95-112 | On every value: passes exactly when it parses to an instant strictly after now; an unparsable value gets "<name> must be a valid date", one at or before now "<name> must be in the future" |
| NewRules.Required | session-3/exercise-20/problem/src/utils/validator/new_rules.ts:18-26 | Fails only on `undefined`, with "<name> cannot be undefined"; `null` passes |
| NewRules.IsNull | session-3/exercise-20/problem/src/utils/validator/new_rules.ts:29-37 | Fails only on `null`, with "<name> cannot be null" |
| NewRules.RequiredSplitsOldRequired | session-3/exercise-20/problem/src/utils/validator/new_rules.ts:18-37 | The two revised rules never both fail on a value, and together they fail on exactly the values the original `required` fails on |
| RuleFacade.Required | session-3/exercise-20/solution/src/utils/rules.ts:19-32 | Fails exactly on `null` and `undefined`, whichever underlying rule fired, always with "<name> cannot be null or undefined"; every other value passes, including `''` and `0` |
| RuleFacade.RequiredRestoresOriginal | session-3/exercise-20/solution/src/utils/rules.ts:19-32 | The facade's `required` agrees with the original library's `required` on every value and field name |
| RuleFacade.RequiredUnnamed | session-3/exercise-20/solution/src/utils/rules.ts:25-28 | With no field name, or an empty one, the message is "Field cannot be null or undefined" word for word |
| Validation.CreateStringFieldValidator | session-3/exercise-20/solution/src/utils/validation.ts:26-44 | Returns a fresh validator holding required, isString, the guarded notEmpty and the guarded validChars, in that order |
| Validation.RequiredNamed | session-3/exercise-20/solution/src/utils/validation.ts:30-30 | The chain's first rule, for a named field, gives "<name> cannot be null or undefined" exactly on `null` and `undefined` |
| Validation.IsStringNamed | session-3/exercise-20/solution/src/utils/validation.ts:31-31 | The chain's second rule gives "<name> must be a string" exactly on values that are not strings |
| Validation.NotEmptyNamed | session-3/exercise-20/solution/src/utils/validation.ts:36-36 | `notEmpty(displayName)` gives "<name> cannot be empty" exactly on whitespace-only strings |
| Validation.GuardedNotEmptyNamed | session-3/exercise-20/solution/src/utils/validation.ts:32-37 | The guarded third rule gives "<name> must be a string" on any value that is not a string; on a string it gives "<name> cannot be empty" exactly when the string is whitespace only, and passes otherwise |
| Validation.ValidCharsNamed | session-3/exercise-20/solution/src/utils/validation.ts:42-42 | `validChars(displayName)` gives "<name> contains invalid characters" exactly when a character is outside letters, digits and whitespace |
| Validation.GuardedValidCharsNamed | session-3/exercise-20/solution/src/utils/validation.ts:38-43 | The guarded fourth rule gives "<name> must be a string" on any value that is not a string; on a string it gives "<name> contains invalid characters" exactly when a character is outside letters, digits and whitespace, and passes otherwise |
| Validation.StringFieldChain | session-3/exercise-20/solution/src/utils/validation.ts:26-44 | The string validator reports, in this priority: null or undefined, not a string, blank, invalid characters; otherwise it passes |
| Validation.StringFieldPasses | session-3/exercise-20/solution/src/utils/validation.ts:29-43 | Any non-blank string of letters, digits and whitespace passes the string validator |
| Validation.ValidateSpacecraft | session-3/exercise-20/solution/src/utils/validation.ts:46-70 | The `forEach` over the declared fields builds exactly the specified error map |
| Validation.CollectIndependent | session-3/exercise-20/solution/src/utils/validation.ts:56-67 | Over any field list, changing one key of the data leaves every other field's entry as it was |
| Validation.CollectValid | session-3/exercise-20/solution/src/utils/validation.ts:56-67 | Over any field list, fields that all hold acceptable strings produce no entries |
| Validation.SpacecraftErrorsUnfold | session-3/exercise-20/solution/src/utils/validation.ts:50-67 | `validateSpacecraft` visits name, type and captain in that order, each with its display name |
| Validation.SpacecraftErrorsSpec | session-3/exercise-20/solution/src/utils/validation.ts:56-67 | Keys are a subset of name, type and captain; each field has an entry exactly when its own check fails, holding that check's message |
| Validation.SpacecraftErrorsEmpty | session-3/exercise-20/solution/src/utils/validation.ts:50-58 | `validateSpacecraft({})` is exactly the three "key is missing" entries, with the display names "Spacecraft name", "Spacecraft type" and "Captain name" |
| Validation.MissingFieldError | session-3/exercise-20/solution/src/utils/validation.ts:57-58 | A field whose key is absent gets "<display name> key is missing", whatever else the data holds |
| Validation.SpacecraftErrorsValid | session-3/exercise-20/solution/src/utils/validation.ts:56-67 | Three present, non-blank strings of letters, digits and whitespace give no errors |
| Validation.SpacecraftFieldErrorLocal | session-3/exercise-20/solution/src/utils/validation.ts:57-65 | A field's verdict depends only on whether its own key is present and what it holds |
| Validation.SpacecraftErrorsIndependent | session-3/exercise-20/solution/src/utils/validation.ts:56-67 | Changing one key of the data changes no other field's entry |
| Validation.DockingErrorsOf | session-3/exercise-20/solution/src/utils/validation.ts:75-136 | With the Enterprise case, `bayId` always holds the Enterprise message; otherwise `bayId` has an entry exactly when its result is truthy |
| Validation.ValidateStringField | session-3/exercise-20/solution/src/utils/validation.ts:81-85 | Running a fresh string validator gives the string chain's verdict |
| Validation.ValidateDockingTime | session-3/exercise-20/solution/src/utils/validation.ts:95-111 | The docking-time validator built with `addRule` gives the first failure of `futureDate` followed by the limits rule |
| Validation.ValidateBayId | session-3/exercise-20/solution/src/utils/validation.ts:119-125 | The bay validator gives the first failure of isNumber, isInteger and range(1, 1000) |
| Validation.CheckSpacecraftId | session-3/exercise-20/solution/src/utils/validation.ts:77-89 | The `spacecraftId` branch: a missing key, else the string chain's verdict |
| Validation.CheckDockingTime | session-3/exercise-20/solution/src/utils/validation.ts:91-113 | The `dockingTime` branch: a missing key, else the docking-time chain's verdict |
| Validation.CheckBayId | session-3/exercise-20/solution/src/utils/validation.ts:115-127 | The `bayId` branch: a missing key, else the bay chain's verdict |
| Validation.CollectDocking | session-3/exercise-20/solution/src/utils/validation.ts:75-136 | The three conditional assignments and the final override build the specified map |
| Validation.ValidateDocking | session-3/exercise-20/solution/src/utils/validation.ts:72-139 | `validateDocking` returns exactly the specified error map |
| Validation.DockingFutureNamed | session-3/exercise-20/solution/src/utils/validation.ts:96-96 | `futureDate('Docking time')`: "Docking time must be a valid date" for an unparsable value, "Docking time must be in the future" at or before now, otherwise a pass |
| Validation.DockingTimeLimitsSpec | session-3/exercise-20/solution/src/utils/validation.ts:97-107 | The limits rule passes exactly when the time parses, its year is at most 2050 and the time is a whole number of seconds; a later year gives the "30 years" message; an unparsable time, or a sub-second time within the year limit, gives the whole-second message |
| Validation.OnNumbersSpec | session-3/exercise-20/solution/src/utils/validation.ts:119-122 | A number rule applied to a value that is a number gives that rule's verdict on the number; any other value passes it |
| Validation.EnterpriseInForbiddenBay | session-3/exercise-20/solution/src/utils/validation.ts:130-133 | The override applies exactly when `spacecraftId` is present and strictly equal to '3n73rpr153' and `bayId` is present and strictly equal to the number 1701; an absent key never matches |
| Validation.DockingTimeChain | session-3/exercise-20/solution/src/utils/validation.ts:95-108 | Docking-time priority: a valid date, then in the future, then a year of at most the fixed 2050, then a whole-second boundary |
| Validation.BayRangeNumerals | session-3/exercise-20/solution/src/utils/validation.ts:21-22 | The bounds render as "1" and "1000" in the range message |
| Validation.BayNumberNamed | session-3/exercise-20/solution/src/utils/validation.ts:120-120 | "Bay ID must be a number" exactly on values that are not numbers |
| Validation.BayIntegerNamed | session-3/exercise-20/solution/src/utils/validation.ts:121-121 | "Bay ID must be an integer" exactly on values that are not integral numbers |
| Validation.BayRangeNamed | session-3/exercise-20/solution/src/utils/validation.ts:122-122 | "Bay ID must be between 1 and 1000" exactly outside `[1, 1000]` |
| Validation.BayIdChain | session-3/exercise-20/solution/src/utils/validation.ts:119-122 | Bay priority: any value that is not a number (`null` and `undefined` included) fails "must be a number", then "must be an integer", then the range; otherwise it passes |
| Validation.DockingErrorsOfSpec | session-3/exercise-20/solution/src/utils/validation.ts:75-136 | Keys fall within the three fields; each field's entry is its own result; the Enterprise case forces the `bayId` message |
| Validation.DockingErrorsSpec | session-3/exercise-20/solution/src/utils/validation.ts:72-139 | `validateDocking` gives each field its own verdict, and the Enterprise message for `bayId` when the Enterprise asks for bay 1701 |
| Validation.DockingErrorsEmpty | session-3/exercise-20/solution/src/utils/validation.ts:77-117 | `validateDocking({})` is exactly the three "key is missing" entries for spacecraftId, dockingTime and bayId |
| Validation.DockingErrorsValid | session-3/exercise-20/solution/src/utils/validation.ts:72-139 | A request that passes every field check and is not the Enterprise at bay 1701 has no errors |
| Validation.EnterpriseOverride | session-3/exercise-20/solution/src/utils/validation.ts:129-136 | For spacecraft '3n73rpr153' at bay 1701, the range check fails but the entry is the Enterprise message |
| Validation.DockingFieldsLocal | session-3/exercise-20/solution/src/utils/validation.ts:77-127 | Each docking field's verdict reads only that field's own key |
| Validation.DockingErrorsOfSame | session-3/exercise-20/solution/src/utils/validation.ts:75-136 | Equal field results give equal entries in the assembled map |
| Validation.SpacecraftIdEntryIndependent | session-3/exercise-20/solution/src/utils/validation.ts:77-89 | Changing any other key leaves the `spacecraftId` entry as it was |
| Validation.DockingTimeEntryIndependent | session-3/exercise-20/solution/src/utils/validation.ts:91-113 | Changing any other key leaves the `dockingTime` entry as it was |
| Validation.BayIdEntryIndependent | session-3/exercise-20/solution/src/utils/validation.ts:115-136 | Changing any key other than `bayId` and `spacecraftId` leaves the `bayId` entry as it was |
| EarlyValidation.RequiredText | session-1/exercise-6/problem/src/utils/validation.ts:13-15 | The falsy-or-blank test throws exactly on a truthy value that is not a string; otherwise it gives "<X> is required." exactly when the value is falsy or whitespace only |
| EarlyValidation.ValidateSpacecraft | session-1/exercise-6/problem/src/utils/validation.ts:7-28 | The three successive conditional assignments give exactly the specified result |
| EarlyValidation.SpacecraftErrorsThrows | session-1/exercise-6/problem/src/utils/validation.ts:13-25 | The call throws exactly when a field holds a truthy value that is not a string, and names the first such field |
| EarlyValidation.SpacecraftErrorsSpec | session-1/exercise-6/problem/src/utils/validation.ts:10-27 | Only failing fields appear as keys; each is present exactly when blank, holding its "is required." message |
| EarlyValidation.SpacecraftErrorsFilled | session-1/exercise-6/problem/src/utils/validation.ts:10-27 | Three non-blank strings give an empty error map |
| EarlyValidation.SpacecraftSelectionError | session-1/exercise-6/problem/src/utils/validation.ts:36-38 | 'Spacecraft selection is required.' exactly when `spacecraft` is falsy |
| EarlyValidation.DockingTimeError | session-1/exercise-6/problem/src/utils/validation.ts:41-50 | "Docking time is required." when falsy; otherwise an error only if the parsed time is at or before now, so an unparsable time passes |
| EarlyValidation.BaySelectionError | session-1/exercise-6/problem/src/utils/validation.ts:53-55 | 'Docking bay selection is required.' exactly when `bayId` is falsy (absent, `0`, …) |
| EarlyValidation.ValidateDocking | session-1/exercise-6/problem/src/utils/validation.ts:30-58 | The successive conditional assignments give exactly the specified error map |
| EarlyValidation.DockingErrorsSpec | session-1/exercise-6/problem/src/utils/validation.ts:33-57 | Keys fall within the three fields, and each field's entry is its own check's verdict |
| EarlyValidation.UnparsableTimeAccepted | session-1/exercise-6/problem/src/utils/validation.ts:44-49 | A truthy docking time that does not parse gets no entry |
| EarlyValidation.DockingErrorsIndependent | session-1/exercise-6/problem/src/utils/validation.ts:36-55 | Changing one key of the data changes no other field's entry |
| IdLists.IndexOfId | session-1/exercise-4/solution/src/stores/dockingStore.ts:24-26 | `findIndex` on the id: -1 exactly when no element has the id, otherwise the first index with it |
| IdLists.UpdateById | session-1/exercise-4/solution/src/stores/dockingStore.ts:24-29 | The update keeps the length, and leaves the list unchanged when the id is absent |
| IdLists.UpdateByIdSpec | session-1/exercise-4/solution/src/stores/dockingStore.ts:27-29 | When the first match is at `i`, the result is the list with the supplied item at `i`, whose own id is not checked |
| IdLists.UpdateByIdFirstOnly | session-1/exercise-4/solution/src/stores/dockingStore.ts:24-28 | A later element with the same id is left as it was |
| DockingStores.DockingStore.constructor | session-1/exercise-4/solution/src/stores/dockingStore.ts:8-10 | The store starts with no dockings, not loading and no error |
| DockingStores.DockingStore.SetDockings | session-1/exercise-4/solution/src/stores/dockingStore.ts:12-14 | Replaces the whole list and changes nothing else |
| DockingStores.DockingStore.AddDocking | session-1/exercise-4/solution/src/stores/dockingStore.ts:16-18 | Appends at the end, keeps the earlier entries, and changes nothing else |
| DockingStores.DockingStore.UpdateDocking | session-1/exercise-4/solution/src/stores/dockingStore.ts:20-30 | The new list is the update-by-id of the old one: only the first match is replaced, the length is kept, and an unknown id changes nothing |
| DockingStores.DockingStore.SetLoading | session-1/exercise-4/solution/src/stores/dockingStore.ts:32-34 | Sets only `loading` |
| DockingStores.DockingStore.SetError | session-1/exercise-4/solution/src/stores/dockingStore.ts:36-38 | Sets only `error` |
| SpacecraftStores.SpacecraftStore.constructor | session-1/exercise-5/problem/src/stores/spacecraftStore.ts:7-9 | The store starts with no spacecraft, not loading and a `null` error |
| SpacecraftStores.SpacecraftStore.SetSpacecrafts | session-1/exercise-5/problem/src/stores/spacecraftStore.ts:11-13 | Replaces the whole list and changes nothing else |
| SpacecraftStores.SpacecraftStore.SetLoading | session-1/exercise-5/problem/src/stores/spacecraftStore.ts:15-17 | Sets only `loading` |
| SpacecraftStores.SpacecraftStore.SetError | session-1/exercise-5/problem/src/stores/spacecraftStore.ts:19-21 | Sets only `error` |
| SpacecraftStores.SpacecraftStore.AddSpacecraft | session-1/exercise-5/problem/src/stores/spacecraftStore.ts:23-25 | Appends at the end, keeps the existing entries, and changes nothing else |
| SpacecraftStores.SpacecraftStore.UpdateSpacecraft | session-1/exercise-5/problem/src/stores/spacecraftStore.ts:27-34 | Only the first spacecraft with the id is replaced, the length is kept, and an unknown id is a no-op |

## Left out

- Numbers are reals. NaN, the infinities and `-0` are not modelled. "Integer" means `n == n.Floor`.
- Time is an environment value:
  - the clock (`now`, in epoch milliseconds);
  - ISO date parsing (`new Date(value)`: an instant, or none for an invalid date);
  - the local calendar year of an instant (`getFullYear()`).
  These come in as parameters and are not defined here.
- The docking-time limits rule gives the whole-second message on an invalid date, as NaN would. `futureDate` stops such a value first, so this case is never reported.
- Rules.Range: the bounds are integers (the sources only use 1 and 1000). JavaScript prints a bound of 10^21 or more in exponent form, and a bound above 2^53 as the nearest double; the model prints every digit, so its message differs from the source's for such bounds. The rule is over numbers. On the docking path it is lifted to all values, and a value that is not a number passes there. `isNumber` runs first, so that pass is never reported.
- JsStrings.NatToString, JsStrings.IntToString: give every decimal digit of the integer. JavaScript's `${n}` agrees for integers of at most 2^53 in magnitude; a larger integer is first rounded to the nearest double, and from 10^21 on it prints in exponent form.
- Rules.InterpolateFieldName: special `$` patterns in the replacement string are not interpreted. The display names used contain none.
- The revised library repeats every other factory character for character. Those factories are therefore not declared a second time, and the facade's re-exports use the `Rules` functions. This covers `interpolateFieldName`, `isString`, `notEmpty`, `validChars`, `isNumber`, `isInteger`, `range` and `futureDate`.
- Error maps are Dafny maps, so the insertion order of their keys is not modelled.
- `field in data` is modelled as a key of the data map. Inherited prototype properties are not modelled.
- EarlyValidation.TrimThrows, EarlyValidation.RequiredText, EarlyValidation.ValidateSpacecraft, EarlyValidation.SpacecraftErrorsThrows: `Obj` stands for an object without a `trim` method, so calling `.trim()` on a truthy `Obj` throws a `TypeError`, modelled as a `Failure` naming the field. An object that has a `trim` method (such as a `String` wrapper) lies outside the declared `Spacecraft` type and is not modelled. Exception propagation is not modelled beyond that.
- Validation.ValidateDocking: each field check runs before the results are recorded. The checks are independent and pure, so the map is the same as with the source's interleaving.
- Stores: lists are values (`seq`). Pinia and Vue reactivity, and any aliasing of the array passed to `setDockings` or `setSpacecrafts`, are not modelled.
- The docking record's optional `scan` blob is not modelled.
- The spacecraft store is untyped (`any`). It is modelled over a spacecraft record with a string id, and its `error` can be any value.
