/** HTTP status codes the backend raises and the error it raises them with
    (FastAPI's `HTTPException(status_code, detail)`). */
module Http {
  const NO_CONTENT: nat := 204
  const BAD_REQUEST: nat := 400
  const NOT_FOUND: nat := 404
  const CONFLICT: nat := 409

  /** The request methods the client issues. */
  datatype HttpMethod = GET | POST | PUT | DELETE

  datatype HttpError = HttpError(status: nat, detail: string)

  /** `response.ok` in the browser's fetch API. */
  predicate IsOk(status: nat)
  {
    200 <= status <= 299
  }
}
