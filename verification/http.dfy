/** The parts of an HTTP exchange the handlers and the middleware decide on:
    the method (verb), the session_id cookie, the body as read, the query string. */
module Http {
  import opened Common

  const StatusOK: int := 200
  const StatusBadRequest: int := 400
  const StatusUnauthorized: int := 401
  const StatusMethodNotAllowed: int := 405
  const StatusConflict: int := 409
  const StatusInternalServerError: int := 500

  const MethodGet: string := "GET"
  const MethodPost: string := "POST"
  const MethodDelete: string := "DELETE"

  /** The name of the session cookie. */
  const SessionCookieName: string := "session_id"

  /** An inbound request: the value of its session_id cookie (None when
      r.Cookie reports http.ErrNoCookie), its body as io.ReadAll returned it
      (None on a read error), and its query parameters. */
  datatype Request = Request(
    verb: string,
    sessionCookie: Option<string>,
    body: Option<string>,
    query: map<string, string>)

  /** A Set-Cookie header (section 4.1 of RFC 6265): name, value, Path, Expires
      (seconds) and the HttpOnly flag. */
  datatype Cookie = Cookie(name: string, value: string, path: string, expires: int, httpOnly: bool)
}
