/** JSON documents as the browser's and Android's storage hold them.

    A stored string is modelled by the document it encodes: `Doc(v)` is text that
    parses to `v`, `Garbled` is non-empty text that does not parse, `EmptyText` is
    the empty string. Printing and parsing JSON text is library code; the model
    takes `parse(stringify(v)) == v` as the library's contract. */
module Json {
  import opened Wrappers
  import Text

  datatype Json =
    | JNull
    | JBool(b: bool)
    | JNum(n: int)
    | JStr(s: string)
    | JArr(items: seq<Json>)
    | JObj(fields: map<string, Json>)

  datatype Blob = EmptyText | Garbled | Doc(doc: Json)

  /** JavaScript truthiness of a property read, `None` standing for `undefined`. */
  predicate Truthy(v: Option<Json>) {
    match v
    case None => false
    case Some(JNull) => false
    case Some(JBool(b)) => b
    case Some(JNum(n)) => n != 0
    case Some(JStr(s)) => s != ""
    case Some(_) => true
  }

  /** Reads `v.key` in JavaScript. Reading a property of `null` throws a
      TypeError (`Err`); an absent property reads as `undefined` (`None`). */
  function Member(v: Json, key: string): (r: Result<Option<Json>, string>)
    ensures r.Err? <==> v == JNull
    ensures v.JObj? && key in v.fields ==> r == Ok(Some(v.fields[key]))
  {
    match v
    case JNull => Err("TypeError")
    case JObj(m) => Ok(if key in m then Some(m[key]) else None)
    case _ => Ok(None)
  }

  /** The own enumerable entries that `{...v}` copies from a parsed document. */
  function SpreadEntries(v: Json): map<string, Json>
  {
    match v
    case JObj(m) => m
    case _ => map[]
  }

  /** Android's `optString(key, fallback)`: a string as stored, a number or a
      boolean as its text, JSON null as "null", and the fallback for a missing
      key. An array or an object also falls back here (Android prints it as
      JSON text). */
  function OptString(obj: map<string, Json>, key: string, fallback: string): (r: string)
    ensures key !in obj ==> r == fallback
    ensures key in obj && obj[key].JStr? ==> r == obj[key].s
    ensures key in obj && obj[key].JBool? ==> r == if obj[key].b then "true" else "false"
    ensures key in obj && obj[key] == JNull ==> r == "null"
  {
    if key !in obj then fallback
    else match obj[key]
      case JStr(s) => s
      case JNum(n) => Text.IntToString(n)
      case JBool(b) => if b then "true" else "false"
      case JNull => "null"
      case _ => fallback
  }

  /** Android's `optLong(key, fallback)` for a stored number; anything else
      reads as the fallback (Android also parses a numeric string). */
  function OptLong(obj: map<string, Json>, key: string, fallback: int): (r: int)
    ensures key in obj && obj[key].JNum? ==> r == obj[key].n
    ensures !(key in obj && obj[key].JNum?) ==> r == fallback
  {
    if key in obj && obj[key].JNum? then obj[key].n else fallback
  }
}
