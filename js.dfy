/**
 * The few JavaScript semantics the handlers and components rely on: values
 * after JSON decoding, property reads, truthiness, template interpolation of
 * optional strings and the message a `catch` clause reports.
 */
module Js {
  import opened Wrappers

  /**
   * A JavaScript value as a handler sees it in a decoded request body.
   * Objects and arrays are one case; the model looks inside them only far
   * enough to know whether converting them to a string succeeds. A decoded
   * object whose own `toString` key holds a non-function (or an array holding
   * such an object) has no primitive value, so a template literal throws on it.
   * Numbers are reals; NaN and the infinities are not modelled.
   */
  datatype Value = Undefined | Null | Bool(b: bool) | Number(n: real) | Str(s: string) | Object(printable: bool)

  /** A plain object, such as a request body or a props record. */
  type Record = map<string, Value>

  /** A property read: a missing key reads as `undefined`. */
  function Get(r: Record, key: string): Value {
    if key in r then r[key] else Undefined
  }

  /** A key is defined when it reads as anything other than undefined. */
  predicate Defined(r: Record, key: string) {
    Get(r, key) != Undefined
  }

  /** JavaScript truthiness, that is, `!v` is false. */
  predicate Truthy(v: Value) {
    match v
    case Undefined => false
    case Null => false
    case Bool(b) => b
    case Number(n) => n != 0.0
    case Str(s) => s != ""
    case Object(_) => true
  }

  /** Truthiness of an optional string (`string | undefined` or `string | null`). */
  predicate Present(o: Option<string>) {
    o.Some? && o.value != ""
  }

  /** Whether `${v}` succeeds: only an object without a primitive value makes it throw. */
  predicate Printable(v: Value) {
    !v.Object? || v.printable
  }

  /** The message of the `TypeError` a template literal throws on a value that is not printable. */
  const NoPrimitiveError := "Cannot convert object to primitive value"

  /** `${o}` for an optional string: a missing value prints as "undefined". */
  function Interpolate(o: Option<string>): string {
    match o
    case Some(s) => s
    case None => "undefined"
  }

  /** What a `catch (error)` clause receives: an `Error` with its message, or any other thrown value. */
  datatype Thrown = ErrorObject(message: string) | NonError

  const UnknownError := "An unknown error occurred"

  /** The message a handler reports for a caught value: an `Error`'s own message, or a fixed fallback text. */
  function CaughtMessage(t: Thrown): string {
    match t
    case ErrorObject(m) => m
    case NonError => UnknownError
  }
}
