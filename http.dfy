/** The exceptions and responses the handlers produce (FastAPI's HTTPException and Response,
    and pydantic's ValidationError when it escapes a handler). */
module Http {

  const HTTP_204_NO_CONTENT := 204
  const HTTP_401_UNAUTHORIZED := 401
  const HTTP_403_FORBIDDEN := 403
  const HTTP_404_NOT_FOUND := 404

  /** Response headers; a handler that passes no headers has the empty map. */
  type Headers = map<string, string>

  datatype Exception =
    /** fastapi.HTTPException(status_code, detail, headers) */
    | HTTPException(status: int, detail: string, headers: Headers)
    /** pydantic.ValidationError raised while building `model`, on field `field`;
        outside a request body it is not turned into an HTTP error by the handler */
    | ValidationError(model: string, field: string)
    /** an error reported by the database, or by its driver, when a statement is run */
    | DatabaseError(message: string)

  /** starlette Response(status_code, content, headers) */
  datatype Response = Response(status: int, content: string, headers: Headers)
}
