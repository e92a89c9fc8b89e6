/** JavaScript values as they reach the API in a parsed JSON body or query
    string, and the truthiness test the handlers apply to them. */
module Js {

  /** A value of a body field. `Composite` stands for any object or array:
      such a value is always truthy and its `typeof` is 'object'. Numbers are
      exact reals; NaN and the infinities are not modelled. */
  datatype Value =
    | Undefined
    | Null
    | Bool(b: bool)
    | Num(x: real)
    | Str(s: string)
    | Composite

  /** JavaScript's `!!v`. */
  predicate Truthy(v: Value)
    ensures !Truthy(v) <==>
      v == Undefined || v == Null || v == Bool(false) || v == Num(0.0) || v == Str("")
  {
    match v
    case Undefined => false
    case Null => false
    case Bool(b) => b
    case Num(x) => x != 0.0
    case Str(s) => |s| > 0
    case Composite => true
  }

  /** JavaScript's `typeof v === 'number'`. */
  predicate IsNumber(v: Value) {
    v.Num?
  }

  datatype Option<T> = None | Some(value: T)

  /** A query-string parameter given at most once, without brackets: absent
      (`undefined`) or a string. Repeated or bracketed parameters, which the
      query parser turns into arrays and objects, are not modelled. */
  function Param(p: Option<string>): (v: Value)
    ensures v == Undefined || v.Str?
    ensures Truthy(v) <==> p.Some? && p.value != ""
  {
    match p
    case None => Undefined
    case Some(s) => Str(s)
  }
}
