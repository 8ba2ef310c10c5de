/** The JavaScript values that flow through the stock records and the CSV export. */
module JsValues {

  /** A dynamically typed JavaScript value. `Num` never holds NaN: NaN has its
      own constructor, as stock-helper.js pads with NaN. */
  datatype JsValue =
    | Undefined
    | Null
    | NaN
    | Bool(b: bool)
    | Num(x: real)
    | Str(s: string)

  /** JavaScript truthiness: `undefined`, `null`, `NaN`, `false`, `0` and `""` are falsy. */
  predicate Truthy(v: JsValue)
  {
    match v
    case Undefined => false
    case Null => false
    case NaN => false
    case Bool(b) => b
    case Num(x) => x != 0.0
    case Str(s) => s != ""
  }

  /** What the quote arrays of a chart response hold: a number or `null`. */
  predicate IsNumberOrNull(v: JsValue)
  {
    v.Num? || v.Null?
  }
}
