/** The HTTP status codes the filter and the controller answer with. */
module HttpStatus {
  const SC_OK: int := 200
  const SC_NO_CONTENT: int := 204
  const SC_UNAUTHORIZED: int := 401
  const SC_INTERNAL_SERVER_ERROR: int := 500
}
