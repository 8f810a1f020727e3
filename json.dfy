/** JSON values as the handlers receive them (request bodies and event
    payloads), and the field checks the handlers' validation schemas apply. */
module Json {

  datatype Option<+T> = None | Some(value: T)

  datatype Json =
    | JNull
    | JBool(b: bool)
    | JNum(n: real)
    | JStr(s: string)
    | JArr(items: seq<Json>)
    | JObj(fields: map<string, Json>)

  /** The string formats the schemas delegate to the validation library
      (`.uuid()`, `.email()`); the model takes them as parameters. */
  datatype Formats = Formats(isUuid: string -> bool, isEmail: string -> bool)

  /** `v[k]`: absent (JavaScript `undefined`) unless `v` is an object with key `k`. */
  function Field(v: Json, k: string): Option<Json>
  {
    if v.JObj? && k in v.fields then Some(v.fields[k]) else None
  }

  /** `z.string()` applied to `v[k]`. */
  function StringField(v: Json, k: string): (r: Option<string>)
    ensures r.Some? <==> Field(v, k).Some? && Field(v, k).value.JStr?
    ensures r.Some? ==> Field(v, k) == Some(JStr(r.value))
  {
    match Field(v, k)
    case Some(JStr(s)) => Some(s)
    case _ => None
  }

  /** `z.number()` applied to `v[k]`. */
  function NumberField(v: Json, k: string): (r: Option<real>)
    ensures r.Some? <==> Field(v, k).Some? && Field(v, k).value.JNum?
    ensures r.Some? ==> Field(v, k) == Some(JNum(r.value))
  {
    match Field(v, k)
    case Some(JNum(n)) => Some(n)
    case _ => None
  }

  /** `z.boolean()` applied to `v[k]`. */
  function BoolField(v: Json, k: string): (r: Option<bool>)
    ensures r.Some? <==> Field(v, k).Some? && Field(v, k).value.JBool?
    ensures r.Some? ==> Field(v, k) == Some(JBool(r.value))
  {
    match Field(v, k)
    case Some(JBool(b)) => Some(b)
    case _ => None
  }

  /** `z.string().optional()` applied to `v[k]`: accepted when the key is
      absent (`Some(None)`) or holds a string (`Some(Some(s))`); `null` and
      every other value are rejected (`None`). */
  function OptionalStringField(v: Json, k: string): (r: Option<Option<string>>)
    ensures r == Some(None) <==> Field(v, k).None?
    ensures r.Some? && r.value.Some? ==> Field(v, k) == Some(JStr(r.value.value))
    ensures Field(v, k).Some? && Field(v, k).value.JStr? ==> r == Some(Some(Field(v, k).value.s))
  {
    match Field(v, k)
    case None => Some(None)
    case Some(JStr(s)) => Some(Some(s))
    case _ => None
  }

  /** `z.number().min(0).max(100)`: a percentage. */
  predicate IsPercentage(x: real)
  {
    0.0 <= x <= 100.0
  }
}
