/** Value types shared by the backend routers and the prediction service. */
module Common {

  /** A value that may be absent: Python's `None` / SQL `NULL`. */
  datatype Option<+T> = None | Some(value: T)

  /** How a request handler fails. */
  datatype Error =
    /** An error the handler raises or returns itself: an HTTP status and a detail message. */
    | HttpError(status: nat, detail: string)
    /** An exception the handler does not catch (`KeyError`, `IndexError`); the framework answers 500. */
    | Uncaught(exception: string)

  datatype Result<+T> = Ok(value: T) | Err(error: Error)

  /** A JSON document, as the prediction service loads and stores it. */
  datatype Json =
    | JNull
    | JBool(b: bool)
    | JNumber(n: real)
    | JString(s: string)
    | JArray(items: seq<Json>)
    | JObject(fields: map<string, Json>)

  /** An uploaded file of a multipart form: its client-side name and its bytes. */
  datatype UploadFile = UploadFile(filename: string, content: seq<bv8>)
}
