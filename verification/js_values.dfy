/**
  The JavaScript values the handlers test, and the outcome of a call into
  code outside the model (a network lookup, a disk write, a mail send).
 */
module JsValues {

  /** A JavaScript value as far as the handlers look at it. Objects and
      arrays are told apart by identity only, so `Obj` carries an identity.
      Numbers are integers here: NaN is not modelled. */
  datatype JsValue =
    | Undefined
    | Null
    | Bool(b: bool)
    | Num(n: int)
    | Str(s: string)
    | Obj(id: nat)

  /** JavaScript truthiness: `undefined`, `null`, `false`, `0` and `""` are falsy. */
  predicate Truthy(v: JsValue)
  {
    match v
    case Undefined => false
    case Null => false
    case Bool(b) => b
    case Num(n) => n != 0
    case Str(s) => s != ""
    case Obj(_) => true
  }

  /** `a || b`: the first operand when it is truthy, otherwise the second. */
  function Or(a: JsValue, b: JsValue): (r: JsValue)
    ensures Truthy(r) <==> Truthy(a) || Truthy(b)
    ensures Truthy(a) ==> r == a
    ensures !Truthy(a) ==> r == b
  {
    if Truthy(a) then a else b
  }

  /** An environment variable read as `process.env.X || null`: the empty
      string and an unset variable both give `null`. */
  function EnvOrNull(env: string): (r: JsValue)
    ensures Truthy(r) <==> env != ""
    ensures Truthy(r) ==> r == Str(env)
  {
    if env != "" then Str(env) else Null
  }

  datatype Option<+T> = None | Some(value: T)

  /** What a call into code outside the model did: it threw (or its promise
      rejected), or it returned a value. */
  datatype Call<+T> = Threw | Returned(value: T)
}
