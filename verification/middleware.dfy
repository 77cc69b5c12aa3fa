/** pkg/middleware/middleware.go: AuthCheck, which guards a handler with
    FindActiveSession. It wraps only the actor-deletion route. */
module Middleware {
  import opened Common
  import opened Http
  import Core
  import AuthRepo

  /** What the wrapper does with a request: answer it with a JSON reply whose
      `status` field is given (the HTTP status line stays 200), or call the
      wrapped handler once with the request. */
  datatype Action = Respond(status: int) | Next(req: Request)

  /** AuthCheck: no cookie is 401; a lookup error lets the request through
      (fail-open); a false lookup is 401; a true lookup calls the handler with
      the request unchanged, with no user id attached. */
  function AuthCheck(findActiveSession: string -> Ret<bool>, req: Request): (a: Action)
    ensures a.Respond? ==> a.status == StatusUnauthorized
    ensures a.Next? ==> a.req == req
    ensures req.sessionCookie.None? ==> a == Respond(StatusUnauthorized)
    ensures a.Next? <==> req.sessionCookie.Some? &&
                         (findActiveSession(req.sessionCookie.value).err.Some? ||
                          findActiveSession(req.sessionCookie.value).val)
  {
    if req.sessionCookie.None? then Respond(StatusUnauthorized)
    else
      var result := findActiveSession(req.sessionCookie.value);
      if result.err.Some? then Next(req)
      else if !result.val then Respond(StatusUnauthorized)
      else Next(req)
  }

  /** A lookup error is enough to pass, whatever the lookup's flag says. */
  lemma FailOpen(find: string -> Ret<bool>, req: Request)
    requires req.sessionCookie.Some? && find(req.sessionCookie.value).err.Some?
    ensures AuthCheck(find, req) == Next(req)
  {
  }

  /** Wired to core.go's FindActiveSession over the Redis store as written, the
      guard lets a request through exactly when it carries a cookie and the
      store cannot be reached: with a working store every request gets 401. */
  lemma PassesOnlyOnStoreFailure(r: AuthRepo.Redis, link: Link, req: Request)
    ensures var find := (sid: string) => Core.FindActiveSession(AuthRepo.AsSessionRepo(r, link), sid);
            AuthCheck(find, req).Next? <==> req.sessionCookie.Some? && link.Down?
  {
  }
}
