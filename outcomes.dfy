/** Value shapes shared by every layer of the invoicing backend: Python's
    `None`, pydantic's distinction between a field the client left out and
    one it sent, and FastAPI's `HTTPException` as an error value. */
module Outcomes {

  /** `X | None` */
  datatype Option<+T> = None | Some(value: T)

  /** A request field as pydantic sees it: `Unset` when the client did not
      send it (it is then dropped by `model_dump(exclude_unset=True)`),
      `Set(v)` when it did, `v` possibly being null. */
  datatype Field<+T> = Unset | Set(value: T)

  /** The value a model attribute takes: the sent value, or its declared default. */
  function ValueOr<T>(f: Field<T>, default: T): T {
    if f.Set? then f.value else default
  }

  /** Python truthiness of an optional string: `None` and `""` are false. */
  predicate Truthy(s: Option<string>) {
    s.Some? && s.value != ""
  }

  /** An `HTTPException(status_code, detail)`, or the framework's own error response. */
  datatype HttpError = HttpError(status: int, detail: string)

  /** A handler either returns a value or raises an HTTP error. */
  datatype Result<+T> = Ok(value: T) | Err(error: HttpError)

  const BadRequest := 400
  const Unauthorized := 401
  const Forbidden := 403
  const NotFound := 404
  const Conflict := 409
  const UnprocessableEntity := 422
  const InternalServerError := 500

  /** What FastAPI answers when a query parameter fails its declared constraint.
      Only the 422 status is modelled: FastAPI's `detail` is a list of error
      objects, and the string here stands in for it. */
  const ValidationFailed := HttpError(UnprocessableEntity, "Validation error")
  /** What the framework answers when an exception nobody catches escapes a handler,
      or when the returned value does not fit the declared response model. */
  const UnhandledError := HttpError(InternalServerError, "Internal Server Error")
}
