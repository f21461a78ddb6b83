/** The decoded JSON values the stream handler inspects, with the JavaScript operations
    the source applies to them: truthiness, `||`, property access with and without
    optional chaining, and string coercion by `+=`. Numbers are modelled as integers. */
module JsValues {
  import opened Wrappers
  import opened Strings

  datatype Js =
    | Undefined
    | Null
    | Bool(b: bool)
    | Num(n: int)
    | Str(s: string)
    | Arr(items: seq<Js>)
    | Obj(fields: map<string, Js>)

  /** JavaScript truthiness. */
  predicate Truthy(v: Js) {
    match v
    case Undefined => false
    case Null => false
    case Bool(b) => b
    case Num(n) => n != 0
    case Str(s) => s != []
    case Arr(_) => true
    case Obj(_) => true
  }

  /** `a || b`. */
  function Or(a: Js, b: Js): (r: Js)
    ensures Truthy(r) <==> Truthy(a) || Truthy(b)
    ensures Truthy(a) ==> r == a
    ensures !Truthy(a) ==> r == b
  {
    if Truthy(a) then a else b
  }

  /** `v.key`: None stands for the TypeError thrown when `v` is null or undefined.
      None of the keys the source reads is inherited from a prototype, so a missing
      own property is `undefined`. */
  function Get(v: Js, key: string): (r: Option<Js>)
    ensures r.None? <==> v == Null || v == Undefined
    ensures v.Obj? ==> r == Some(if key in v.fields then v.fields[key] else Undefined)
    ensures v != Null && v != Undefined && !v.Obj? ==> r == Some(Undefined)
  {
    match v
    case Undefined => None
    case Null => None
    case Obj(fields) => Some(if key in fields then fields[key] else Undefined)
    case _ => Some(Undefined)
  }

  /** `v?.key`: optional chaining never throws. */
  function OptGet(v: Js, key: string): Js {
    Get(v, key).GetOr(Undefined)
  }

  /** Decimal rendering of an integer, with a leading '-' when negative. */
  function IntToString(n: int): string {
    if n < 0 then "-" + NatToString(-n) else NatToString(n)
  }

  /** String coercion, as `text += value` performs it: arrays join their elements with
      "," (null and undefined elements print as empty), plain objects print as
      "[object Object]". */
  function ToJsString(v: Js): string {
    match v
    case Undefined => "undefined"
    case Null => "null"
    case Bool(b) => if b then "true" else "false"
    case Num(n) => IntToString(n)
    case Str(s) => s
    case Arr(items) => JoinItems(items)
    case Obj(_) => "[object Object]"
  }

  /** `items.join(",")`: null and undefined elements print as empty. */
  function JoinItems(items: seq<Js>): string
    decreases items
  {
    if items == [] then []
    else
      var head := if items[0] == Null || items[0] == Undefined then "" else ToJsString(items[0]);
      if |items| == 1 then head else head + "," + JoinItems(items[1..])
  }

  /** Coercing a string is the identity, and every truthy value coerces to a non-empty string. */
  lemma ToJsStringOfTruthy(v: Js)
    requires Truthy(v) && !v.Arr?
    ensures ToJsString(v) != []
    ensures v.Str? ==> ToJsString(v) == v.s
  {
  }
}
