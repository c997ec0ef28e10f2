/**
 * The JavaScript values that flow through block definitions, and the three
 * coercions the block code relies on: truthiness (`&&`, `||`, `!`), the
 * numeric conversion done by `-` in the sort comparator, and the own
 * enumerable properties that `_.extend` copies from a source.
 */
module JsValues {
  import opened Wrappers

  /** A JavaScript value; functions are opaque and named by an identity. */
  datatype Value =
    | Undefined
    | Null
    | Bool(b: bool)
    | Num(n: int)
    | Str(s: string)
    | Arr(items: seq<Value>)
    | Obj(fields: map<string, Value>)
    | Fn(fnId: nat)

  /** A plain object: property name to value; a missing name reads as `undefined`. */
  type Fields = map<string, Value>

  /** `obj[key]`. */
  function Get(obj: Fields, key: string): (v: Value)
    ensures key !in obj ==> v == Undefined
  {
    if key in obj then obj[key] else Undefined
  }

  /** JavaScript truthiness; `undefined`, `null`, `false`, `0` and `''` are falsy. */
  predicate Truthy(v: Value)
  {
    match v
    case Undefined => false
    case Null => false
    case Bool(b) => b
    case Num(n) => n != 0
    case Str(s) => s != ""
    case Arr(_) => true
    case Obj(_) => true
    case Fn(_) => true
  }

  /** `_.isFunction(v)`. */
  predicate IsFunction(v: Value)
  {
    v.Fn?
  }

  /**
   * The number the `-` operator makes of a value; `None` stands for NaN.
   * Numbers, `null` and booleans convert; every other value is taken as NaN.
   */
  function ToNumber(v: Value): (r: Option<int>)
    ensures v.Num? ==> r == Some(v.n)
    ensures v.Undefined? || v.Obj? || v.Fn? ==> r == None
  {
    match v
    case Num(n) => Some(n)
    case Null => Some(0)
    case Bool(b) => Some(if b then 1 else 0)
    case _ => None
  }

  /**
   * The properties `for (k in source)` enumerates, which `_.extend` copies:
   * those of a plain object; none for `undefined`, `null`, booleans, numbers
   * and functions.
   */
  function OwnEnumerable(source: Value): (r: Fields)
    ensures !source.Obj? ==> r == map[]
  {
    if source.Obj? then source.fields else map[]
  }

  /** `_.extend(target, source)`: the source's properties overwrite the target's. */
  function Extend(target: Fields, source: Value): (r: Fields)
    ensures r.Keys == target.Keys + OwnEnumerable(source).Keys
    ensures forall k :: k in OwnEnumerable(source) ==> r[k] == OwnEnumerable(source)[k]
    ensures forall k :: k in target && k !in OwnEnumerable(source) ==> r[k] == target[k]
  {
    target + OwnEnumerable(source)
  }

}
