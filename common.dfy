/** Shared vocabulary of the catalog back end: optional values, the value every
    service throws, and the results of service calls. */
module Common {

  /** A value that may be absent (`null` / `undefined` in the source). */
  datatype Option<+T> = None | Some(value: T)

  /** Document identifiers, as the store hands them out. */
  type Id = string

  /** One structural violation found by a schema check. */
  datatype ErrorDetail = ErrorDetail(attribute: seq<string>, reason: string)

  /** Everything a service throws: a human-readable message, the HTTP status
      code, a stable classification name and optional details. The plain
      `Error` objects of the entity services carry the status code as decimal
      text in their `stack` field; here it is the number itself. */
  datatype Failure = Failure(message: string, code: int, name: string, details: Option<seq<ErrorDetail>>)

  /** What an Express middleware does: pass control on with `next()`, or
      throw. */
  datatype Outcome = Next | Throw(error: Failure)

  /** What a service call returns or throws. */
  datatype Result<+T> = Ok(value: T) | Err(error: Failure)

  // The HTTP status codes the core uses.
  const BAD_REQUEST: int := 400
  const UNAUTHORIZED: int := 401
  const FORBIDDEN: int := 403
  const NOT_FOUND: int := 404
  const INTERNAL_SERVER: int := 500

  /** A plain service error: message, status and name, no details. */
  function PlainError(message: string, code: int, name: string): Failure
  {
    Failure(message, code, name, None)
  }
}
