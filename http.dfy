/** The HTTP status codes the server writes, and `net/http`'s text for them. */
module Http {
  const StatusOK := 200
  const StatusBadRequest := 400
  const StatusNotFound := 404
  const StatusInternalServerError := 500

  /** `http.StatusText` for the codes the server writes; "" for any other code. */
  function StatusText(code: int): string
  {
    if code == 200 then "OK"
    else if code == 400 then "Bad Request"
    else if code == 404 then "Not Found"
    else if code == 500 then "Internal Server Error"
    else ""
  }
}
