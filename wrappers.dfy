/** Optional values and results with an error, as the model's return types. */
module Wrappers {

  datatype Option<+T> = None | Some(value: T)

  datatype Result<+T, +E> = Ok(value: T) | Err(error: E)
}

/** The Python exceptions that end a run of the script. */
module Errors {

  datatype Error =
    | KeyError(key: string)   // a dictionary lookup or `+=` on a missing key
    | ValueError              // `int()` or `json.loads` on text it cannot read
    | AttributeError          // an attribute read on `None` or on a value of the wrong type
    | TypeError               // iterating, extending or taking `len` of a value that does not allow it
    | UnboundLocalError       // `return response` before `response` was ever assigned
    | RequestError            // `requests.get` refusing a value that is not a URL
}

/** Decoded JSON values, as `json.loads` produces them. */
module Json {
  import opened Wrappers
  import opened Errors

  datatype Json =
    | JNull
    | JBool(b: bool)
    | JNum(n: int)
    | JStr(s: string)
    | JArr(elems: seq<Json>)
    | JObj(fields: map<string, Json>)

  /** A JSON object: an issue, a comment or an event. */
  type Item = map<string, Json>

  /** Python's `len()` of a decoded value; numbers, booleans and `None` have no length. */
  function PyLen(j: Json): (r: Result<nat, Error>)
    ensures r.Ok? <==> (j.JArr? || j.JObj? || j.JStr?)
    ensures j.JArr? ==> r == Ok(|j.elems|)
    ensures j.JObj? ==> r == Ok(|j.fields|)
    ensures j.JStr? ==> r == Ok(|j.s|)
  {
    match j
    case JArr(xs) => Ok(|xs|)
    case JObj(m) => Ok(|m|)
    case JStr(s) => Ok(|s|)
    case _ => Err(TypeError)
  }
}
