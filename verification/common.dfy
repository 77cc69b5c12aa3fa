/** Values shared by every layer of the model: optional values, the errors the
    Go code returns, the health of a store connection and the session lifetime. */
module Common {

  /** Go's nil-able results and `(value, nil)` / `(zero, err)` error slots. */
  datatype Option<+T> = None | Some(value: T)

  /** The two-result shape `(T, error)` that most calls of the code return. */
  datatype Ret<+T> = Ret(val: T, err: Option<Error>)

  /** The errors the code produces or passes on. */
  datatype Error =
    | KeyNotFound                             // redis.Nil: the key is absent or expired
    | NoRows                                  // sql.ErrNoRows
    | Broken(reason: string)                  // a transport or driver failure
    | Message(text: string)                   // fmt.Errorf with a fixed text
    | Wrapped(context: string, cause: Error)  // fmt.Errorf("<context>: %s", cause), or with %w

  /** Whether the calls to an external store get through. */
  datatype Link = Up | Down(reason: string)

  /** The error a call over a broken link reports. */
  function LinkError(l: Link): Error
    requires l.Down?
  {
    Broken(l.reason)
  }

  /** 24 * time.Hour, in seconds: both the session's ExpiresAt offset and the store TTL. */
  const SessionLifetime: int := 24 * 60 * 60
}
