/**
 * The dynamically typed values that cross the EPC engine: what the term
 * codec's `toJS()` projection hands to the engine, and what the engine hands
 * back to the codec's `encode`.
 */
module Values {

  datatype Option<T> = None | Some(value: T)

  /** A computation that either yields a value or throws an error whose
      string form is `error`. */
  datatype Result<T> = Ok(value: T) | Err(error: string)

  datatype Value =
    | Nil                       // JS null (Emacs nil; the codec also maps false to it)
    | Num(n: int)               // numbers (only integers are modelled)
    | Str(s: string)            // JS strings
    | Sym(name: string)         // a symbol object of the term codec
    | List(items: seq<Value>)   // JS arrays
    | Obj(fields: seq<Field>)   // plain JS objects, fields in insertion order

  datatype Field = Field(key: string, val: Value)

  /** The field names of an object, in insertion order. */
  function Keys(fields: seq<Field>): (ks: seq<string>)
    ensures |ks| == |fields|
    ensures forall i :: 0 <= i < |fields| ==> ks[i] == fields[i].key
  {
    if fields == [] then [] else [fields[0].key] + Keys(fields[1..])
  }

  /** A sequence without repeated elements. */
  predicate NoDup<T(==)>(s: seq<T>) {
    forall i, j :: 0 <= i < j < |s| ==> s[i] != s[j]
  }

  /** The decimal digit character of `d`. */
  function DigitChar(d: nat): char
    requires d < 10
  {
    "0123456789"[d]
  }

  /** Decimal text of a natural number, as `Number.prototype.toString()`. */
  function NatText(n: nat): (t: string)
    ensures |t| > 0 && t[0] != '-' && t[0] != ':'
  {
    if n < 10 then [DigitChar(n)] else NatText(n / 10) + [DigitChar(n % 10)]
  }

  function IntText(n: int): (t: string)
    ensures |t| > 0 && t[0] != ':'
  {
    if n < 0 then "-" + NatText(-n) else NatText(n)
  }

  /** The text `String(v)` of a value, as JavaScript converts it: `null`
      reads "null", an array is the comma-joined texts of its elements
      (with a null element reading as the empty string), a plain object
      reads "[object Object]". A symbol reads as its name. */
  function ToText(v: Value): string
    decreases v, 1
  {
    match v
    case Nil => "null"
    case Num(n) => IntText(n)
    case Str(s) => s
    case Sym(name) => name
    case Obj(_) => "[object Object]"
    case List(_) => JoinFrom(v, 0)
  }

  /** `Array.prototype.join(",")` over the elements of `arr` from `i` on. */
  function JoinFrom(arr: Value, i: nat): string
    requires arr.List? && i <= |arr.items|
    decreases arr, 0, |arr.items| - i
  {
    if i == |arr.items| then ""
    else
      var t := if arr.items[i].Nil? then "" else ToText(arr.items[i]);
      if i + 1 == |arr.items| then t else t + "," + JoinFrom(arr, i + 1)
  }
}
