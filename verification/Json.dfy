/**
 The neutral JSON representation the diff engine works on. A number is
 represented by its shortest decimal text, which determines it.
 */
module Json {

  import opened Wrappers

  datatype Json =
    | Null
    | Bool(b: bool)
    | Num(text: string)
    | Str(s: string)
    | Arr(items: seq<Json>)
    | Obj(fields: map<string, Json>)

  const EMPTY := Obj(map[])

  /** Text of a scalar key value; None for null and composites. */
  function KeyText(v: Json): Option<string> {
    match v
    case Str(s) => Some(s)
    case Bool(b) => Some(if b then "true" else "false")
    case Num(t) => Some(t)
    case _ => None
  }

  /** The identity of an array element under `field`, when it has one. */
  function KeyOf(el: Json, field: string): Option<string> {
    if el.Obj? && field in el.fields then KeyText(el.fields[field]) else None
  }

  /** Every slice fits a machine length, as every in-memory value does. */
  ghost predicate Sized(v: Json)
    decreases v
  {
    match v
    case Arr(items) => |items| < 0x8000_0000_0000_0000 && forall x <- items :: Sized(x)
    case Obj(fields) => forall k <- fields :: Sized(fields[k])
    case _ => true
  }
}
