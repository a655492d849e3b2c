/**
 * The parts of a chart document (parsed JSON) that the runtime inspects.
 * A field that is absent reads as `Undefined`, as in JavaScript.
 */
module JsValues {
  import opened Numbers

  datatype Value =
    | Undefined
    | Null
    | Bool(b: bool)
    | Num(n: real)
    | NaN
    | Str(s: string)
    | Arr(items: seq<Value>)
    | Obj

  /** JavaScript truthiness. */
  predicate Truthy(v: Value)
  {
    match v
    case Undefined => false
    case Null => false
    case Bool(b) => b
    case Num(n) => n != 0.0
    case NaN => false
    case Str(s) => s != ""
    case Arr(_) => true
    case Obj => true
  }

  /** `typeof v === 'number'` (NaN is a number). */
  predicate IsNumber(v: Value) { v.Num? || v.NaN? }

  /**
   * Numeric conversion as relational operators and `Math.max` apply it:
   * `null` is 0, booleans are 0 or 1; strings, arrays and objects are
   * taken to be NaN here (numeric strings and one-element arrays are not
   * modelled).
   */
  function ToNumber(v: Value): (r: Number)
    ensures v.Num? ==> r == Finite(v.n)
    ensures v.Undefined? || v.NaN? ==> r.NaN?
  {
    match v
    case Num(n) => Finite(n)
    case Null => Finite(0.0)
    case Bool(b) => Finite(if b then 1.0 else 0.0)
    case _ => Number.NaN
  }

  /**
   * One element of a chart's `notes` array. `hold` is the value of
   * `note.hold?.duration`, `chainLength`/`chainInterval` those of
   * `note.chainData?.length` and `note.chainData?.interval`.
   * `NullNote` is a `null` element.
   */
  datatype RawNote =
    | NullNote
    | Note(time: Value, zone: Value, kind: Value, hold: Value,
           chainLength: Value, chainInterval: Value)
}
