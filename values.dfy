/**
 * JavaScript values as the repository sees them: what a triple carries, what a
 * where-clause maps a field to, and the records the store reads and writes.
 * Numbers are integers; `{ ... }` objects are finite maps from property names.
 */
module JsValues {

  datatype Value =
    | Undefined
    | Null
    | Bool(b: bool)
    | Num(n: int)
    | Str(s: string)
    | Arr(items: seq<Value>)
    | Obj(fields: map<string, Value>)

  /** A plain record: an entity's column values. */
  type Record = map<string, Value>

  /** JavaScript truthiness, as used by `if (x)` and `!x`. */
  predicate Truthy(v: Value)
  {
    match v
    case Undefined => false
    case Null => false
    case Bool(b) => b
    case Num(n) => n != 0
    case Str(s) => s != ""
    case Arr(_) => true
    case Obj(_) => true
  }

  /** The five falsy values, and nothing else, are not truthy. */
  lemma FalsyValues(v: Value)
    ensures !Truthy(v) <==> v in {Undefined, Null, Bool(false), Num(0), Str("")}
  {
  }

  /** Reading a missing property yields `undefined`. */
  function Get(r: Record, key: string): Value
  {
    if key in r then r[key] else Undefined
  }
}
