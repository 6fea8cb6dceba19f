/** Small shared vocabulary: optional values, handler results and string predicates. */
module Common {

  /** A value that may be absent (JavaScript `null`/`undefined`, Python `None`). */
  datatype Option<+T> = None | Some(value: T)

  /** An HTTP error raised by a handler: its status code and its `detail` text. */
  datatype HttpError = HttpError(status: int, detail: string)

  /** The outcome of a backend handler: the response body, or the HTTPException it raises. */
  datatype Result<+T> = Ok(value: T) | Err(error: HttpError)

  predicate StartsWith(s: string, prefix: string) {
    |prefix| <= |s| && s[..|prefix|] == prefix
  }

  predicate EndsWith(s: string, suffix: string) {
    |suffix| <= |s| && s[|s| - |suffix|..] == suffix
  }

  /** No double-quote character occurs in `s`. */
  predicate QuoteFree(s: string) {
    forall i :: 0 <= i < |s| ==> s[i] != '"'
  }
}
