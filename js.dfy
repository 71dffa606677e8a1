/** The slice of JavaScript value semantics the pages depend on: truthiness and `||`,
  * template-literal stringification, property access that yields `undefined` for a
  * missing property, and the loose equality `==` next to the strict `===`. */
module Js {

  import opened Base
  import opened Text

  /** A JavaScript value as it reaches the pages. Numbers are integral; `Obj` is any
    * object (a `File`, an array, a plain object), named by its class. */
  datatype JsValue = Undefined | Null | Bool(b: bool) | Num(n: int) | Str(s: string) | Obj(kind: string)

  /** A plain object: its own properties. */
  type JsObject = map<string, JsValue>

  /** `Boolean(v)`. */
  predicate Truthy(v: JsValue) {
    match v
    case Undefined => false
    case Null => false
    case Bool(b) => b
    case Num(n) => n != 0
    case Str(s) => s != ""
    case Obj(_) => true
  }

  /** `a || b`: the left operand when it is truthy, otherwise the right one. */
  function Or(a: JsValue, b: JsValue): JsValue {
    if Truthy(a) then a else b
  }

  /** `o.k`: the property, or `undefined` when `o` has none. */
  function Prop(o: JsObject, k: string): JsValue {
    if k in o then o[k] else Undefined
  }

  /** `${v}`: how a template literal, `String(v)` and `URLSearchParams.append` render a value. */
  function ToStr(v: JsValue): string {
    match v
    case Undefined => "undefined"
    case Null => "null"
    case Bool(b) => if b then "true" else "false"
    case Num(n) => IntToString(n)
    case Str(s) => s
    case Obj(kind) => "[object " + kind + "]"
  }

  /** `a == b` (abstract equality): `null` and `undefined` are equal to each other only;
    * a boolean compares as the number 0 or 1; a number and a string compare numerically;
    * an object compared with a primitive compares through its string form. */
  predicate LooseEq(a: JsValue, b: JsValue)
    decreases (if a.Bool? then 1 else 0) + (if b.Bool? then 1 else 0)
  {
    match (a, b)
    case (Undefined, _) => b.Undefined? || b.Null?
    case (Null, _) => b.Undefined? || b.Null?
    case (_, Undefined) => false
    case (_, Null) => false
    case (Bool(x), _) => LooseEq(Num(if x then 1 else 0), b)
    case (_, Bool(y)) => LooseEq(a, Num(if y then 1 else 0))
    case (Num(x), Num(y)) => x == y
    case (Num(x), Str(t)) => StrToNumber(t) == Some(x)
    case (Str(s), Num(y)) => StrToNumber(s) == Some(y)
    case (Str(s), Str(t)) => s == t
    case (Obj(_), Obj(_)) => a == b
    case (Obj(_), Str(t)) => ToStr(a) == t
    case (Str(s), Obj(_)) => s == ToStr(b)
    case (Obj(_), Num(_)) => false
    case (Num(_), Obj(_)) => false
  }

  /** Every value is loosely equal to itself, so `a === b` implies `a == b`. */
  lemma LooseEqReflexive(a: JsValue)
    ensures LooseEq(a, a)
  {
  }

  /** A number is loosely equal to its own decimal rendering as a string: `5 == "5"`.
    * This is why the loaders keep a set of keys already read, and why the wishlist
    * removal with `!=` reaches entries that the in-memory filter with `!==` keeps. */
  lemma NumLooselyEqualsItsString(n: int)
    ensures LooseEq(Num(n), Str(IntToString(n)))
    ensures Num(n) != Str(IntToString(n))
    ensures ToStr(Num(n)) == ToStr(Str(IntToString(n)))
  {
    NumberOfIntToString(n);
  }
}
