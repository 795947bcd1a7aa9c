/** Optional values and fallible results, used wherever the Python code has
    `None` or an exception path. */
module Wrappers {

  datatype Option<+T> = None | Some(value: T) {

    /** The wrapped value, or `default` for `None`. */
    function GetOr(default: T): T {
      match this
      case Some(v) => v
      case None => default
    }
  }

  /** `Ok` carries the value; `Err` carries the text of the raised exception. */
  datatype Result<+T> = Ok(value: T) | Err(error: string)
}

/** The JSON values the request and response bodies carry. Python's `None`
    is `JNull`. */
module Json {
  import opened Wrappers

  datatype Json =
    | JNull
    | JBool(b: bool)
    | JNum(n: int)
    | JStr(s: string)
    | JArr(items: seq<Json>)
    | JObj(fields: map<string, Json>)

  /** Python's `{}`. */
  const EmptyObject: Json := JObj(map[])

  /** A nullable text column: its text, or `null`. */
  function NullableText(t: Option<string>): (j: Json)
    ensures ReadNullableText(j) == Some(t)
  {
    match t
    case Some(s) => JStr(s)
    case None => JNull
  }

  /** The value of a nullable text column read back from JSON; `None` when
      the JSON is neither text nor `null`. */
  function ReadNullableText(j: Json): Option<Option<string>> {
    match j
    case JNull => Some(None)
    case JStr(s) => Some(Some(s))
    case _ => None
  }
}
