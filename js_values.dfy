/** The JavaScript values a validation rule can be handed, and the two ways
    the sources inspect them: truthiness and reading a key of an object. */
module JsValues {

  /** A JavaScript value as the validators see it. Numbers are reals (NaN,
      the infinities and -0 are not modelled); every object, array or
      function is `Obj`. */
  datatype Value =
    | Undefined
    | Null
    | Bool(b: bool)
    | Num(n: real)
    | Str(s: string)
    | Obj

  /** A plain data object: its own enumerable keys and their values. A key
      that is absent differs from a key that is present and holds `Undefined`. */
  type Data = map<string, Value>

  /** `data.key`: an absent key reads as `undefined`. */
  function Lookup(data: Data, key: string): (v: Value)
    ensures key !in data ==> v == Undefined
    ensures key in data ==> v == data[key]
  {
    if key in data then data[key] else Undefined
  }

  /** The values `!v` is true of: undefined, null, false, 0 and "". */
  predicate Falsy(v: Value)
  {
    match v
    case Undefined => true
    case Null => true
    case Bool(b) => !b
    case Num(n) => n == 0.0
    case Str(s) => s == ""
    case Obj => false
  }

  /** `Number.isInteger(v)`: a number with no fractional part; false for
      every value that is not a number. */
  predicate IsIntegral(v: Value)
  {
    v.Num? && v.n == v.n.Floor as real
  }
}
