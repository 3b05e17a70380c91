/**
 * The few JavaScript notions the handlers depend on: the values a parsed
 * request body can hold, JavaScript truthiness, and the two ways an awaited
 * collaborator call can settle.
 */
module Js {

  /** Absent-or-present value (TypeScript `T | null` / `T | undefined`). */
  datatype Option<+T> = None | Some(value: T)

  /** How an awaited call into code outside the model settles: it resolves
      with a value, or it rejects with an error whose `toString()` is `error`. */
  datatype Attempt<+T> = Done(value: T) | Threw(error: string)

  /** A value found under a key of a request body. `Composite` stands for
      arrays and objects, whose contents no handler inspects. `Num` carries
      a real approximation of the double; `NaN` is kept apart because it is
      the one non-zero-looking number that is falsy. */
  datatype JsValue =
    | Undefined
    | Null
    | Bool(b: bool)
    | Num(x: real)
    | NaN
    | Str(s: string)
    | Composite

  /** JavaScript truthiness: `false`, `0`, `NaN`, `""`, `null` and
      `undefined` are falsy, everything else is truthy. */
  predicate Truthy(v: JsValue)
  {
    match v
    case Undefined => false
    case Null => false
    case Bool(b) => b
    case Num(x) => x != 0.0
    case NaN => false
    case Str(s) => |s| > 0
    case Composite => true
  }

  /** `typeof v === 'string'`. */
  predicate IsString(v: JsValue)
  {
    v.Str?
  }

  /** A parsed JSON request body; a key that is not present reads as
      `undefined`. */
  type Body = map<string, JsValue>

  /** `body[name]`. */
  function Field(body: Body, name: string): JsValue
  {
    if name in body then body[name] else Undefined
  }

  /** The falsy values are exactly the six JavaScript lists. */
  lemma FalsyValues(v: JsValue)
    ensures !Truthy(v) <==>
              v in {Undefined, Null, Bool(false), Num(0.0), NaN, Str("")}
  {
  }
}
