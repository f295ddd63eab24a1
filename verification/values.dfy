/**
 * The JavaScript values the form handles and the `Number()` coercion the
 * normaliser applies to them.
 */
module JsValues {

  /** A JavaScript number: not-a-number, an infinity or a finite value. */
  datatype Num = NaN | Infinity(negative: bool) | Finite(value: real)

  /**
   * A JavaScript value as it can appear in a parsed JSON document or in the
   * object the manual form builds. Arrays and objects are carried as the
   * string their default `toString` produces, which is what `Number()` reads
   * for them. An object whose conversion to a primitive throws is not a
   * `Value` here.
   */
  datatype Value =
    | Undefined
    | Null
    | Bool(b: bool)
    | Number(n: Num)
    | Str(s: string)
    | Structured(text: string)

  /**
   * `Number(v)`. Reading a numeric string is floating-point parsing, which
   * the model does not interpret: it is the parameter `parse`, the engine's
   * string-to-number conversion.
   */
  function Coerce(v: Value, parse: string -> Num): (n: Num)
    ensures v.Number? ==> n == v.n
    ensures v.Undefined? ==> n == NaN
    ensures v.Null? ==> n == Finite(0.0)
    ensures v.Bool? ==> n == Finite(if v.b then 1.0 else 0.0)
    ensures v.Str? ==> n == parse(v.s)
    ensures v.Structured? ==> n == parse(v.text)
  {
    match v
    case Undefined => NaN
    case Null => Finite(0.0)
    case Bool(b) => if b then Finite(1.0) else Finite(0.0)
    case Number(x) => x
    case Str(s) => parse(s)
    case Structured(text) => parse(text)
  }

  /** The engine's string parser matters only for strings and for arrays and objects read through their text. */
  lemma CoerceUsesParserOnlyForText(v: Value, parse: string -> Num, parse': string -> Num)
    ensures !v.Str? && !v.Structured? ==> Coerce(v, parse) == Coerce(v, parse')
    ensures v.Str? ==> (Coerce(v, parse) == Coerce(v, parse') <==> parse(v.s) == parse'(v.s))
  {
  }

  /** Coercing a value that is already a number changes nothing, so coercion is idempotent. */
  lemma CoerceIdempotent(v: Value, parse: string -> Num)
    ensures Coerce(Number(Coerce(v, parse)), parse) == Coerce(v, parse)
  {
  }
}
