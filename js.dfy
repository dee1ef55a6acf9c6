/** The few pieces of JavaScript value semantics the storage code depends on:
    the `typeof` of an argument, `x || null` on a string, and `x ?? d`. */
module Js {
  import opened Wrappers

  /** A JavaScript value as far as `typeof` and property lookup can tell it apart.
      Finite numbers are kept as reals; NaN and the infinities are one case. */
  datatype JsValue =
    | Undefined
    | Null
    | Bool(b: bool)
    | Str(s: string)
    | Num(n: real)
    | NonFiniteNum
    | Obj

  /** `typeof v === "string"` */
  predicate IsString(v: JsValue) { v.Str? }

  /** `typeof v === "number"` */
  predicate IsNumber(v: JsValue) { v.Num? || v.NonFiniteNum? }

  /** `x || null` where `x` is a string or `undefined` (`None`): the empty
      string is falsy, so it collapses to null exactly like a missing value. */
  function OrNull(x: Option<string>): (r: Option<string>)
    ensures r.Some? <==> x.Some? && x.value != ""
    ensures r.Some? ==> r == x
  {
    match x
    case Some(s) => if s != "" then Some(s) else None
    case None => None
  }

  /** The array index a number selects in `a[n]` for an array of length `len`:
      only an integral value in range names an element (`-0` names element 0);
      every other number reads `undefined`. */
  function ArrayIndex(n: real, len: nat): (r: Option<nat>)
    ensures r.Some? <==> n == n.Floor as real && 0 <= n.Floor < len
    ensures r.Some? ==> r.value as real == n && r.value < len
  {
    if n == n.Floor as real && 0 <= n.Floor < len then Some(n.Floor as nat) else None
  }

  /** An optional member of a dictionary argument: left out (`undefined`),
      given as `null`, or given a value. */
  datatype Nullish<+T> = Missing | Null | Given(value: T)

  /** `x ?? null`: only `undefined` and `null` are replaced; every given value,
      the empty string included, is kept. */
  function Coalesce<T>(x: Nullish<T>): (r: Option<T>)
    ensures r.Some? <==> x.Given?
    ensures x.Given? ==> r.value == x.value
  {
    if x.Given? then Some(x.value) else None
  }

  /** `x ?? d` */
  function CoalesceTo<T>(x: Nullish<T>, d: T): (r: T)
    ensures x.Given? ==> r == x.value
    ensures !x.Given? ==> r == d
  {
    if x.Given? then x.value else d
  }
}
