/** HTTP responses as the client's `fetch` sees them and the views produce them. */
module Http {
  import opened Wrappers
  import opened Json

  /** A response: its status code and its body, `None` when the body is not JSON. */
  datatype HttpResponse = HttpResponse(status: int, body: Option<Json>)

  /** `response.ok`: the status is in the 2xx range. */
  predicate IsOk(r: HttpResponse) {
    200 <= r.status <= 299
  }

  /**
   * The reason phrases of the status codes the modelled views produce; ""
   * stands in for any other status, which they never return (over HTTP/1.1
   * `statusText` would carry the server's own phrase).
   */
  function ReasonPhrase(status: int): string {
    if status == 200 then "OK"
    else if status == 202 then "Accepted"
    else if status == 400 then "Bad Request"
    else if status == 500 then "Internal Server Error"
    else if status == 503 then "Service Unavailable"
    else ""
  }
}
