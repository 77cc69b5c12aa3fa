/** delivery/http/api.go: the status decisions of the authentication handlers
    and the paging defaults of the listing handlers. Reading the body is given
    as the request's body (None when io.ReadAll failed) and JSON decoding as a
    function that answers None for a body that does not parse. */
module Api {
  import opened Common
  import opened Models
  import opened Http
  import Decimal
  import Repos
  import Sessions
  import Profiles
  import AuthRepo

  /** models.SigninRequest / models.SignupRequest. */
  datatype Credentials = Credentials(login: string, password: string)

  /** models.AuthCheckResponse. */
  datatype AuthCheckResponse = AuthCheckResponse(login: string, role: string)

  /** The core calls a handler makes, in order. */
  datatype Call =
    | FindActiveSession(sid: string)
    | ReadBody
    | FindUserAccount(login: string)
    | CreateSession(login: string)
    | FindUserByLogin(login: string)
    | CreateUserAccount(login: string)
    | KillSession(sid: string)
    | GetUserName(sid: string)

  /** What a handler sends: the `status` field of its JSON reply, the cookie
      it sets if any, the body it fills in if any, and the core calls it made.
      SendResponse never writes a header, so the HTTP status line is 200
      whatever `status` says. */
  datatype Reply = Reply(status: int, cookie: Option<Cookie>, body: Option<AuthCheckResponse>, calls: seq<Call>)

  /** The core operations the handlers call, with the signatures api.go uses. */
  datatype Core = Core(
    findActiveSession: string -> Ret<bool>,
    findUserAccount: (string, string) -> Repos.UserLookup,
    createSession: string -> Ret<Session>,
    findUserByLogin: string -> Ret<bool>,
    createUserAccount: (string, string) -> Option<Error>,
    killSession: string -> Option<Error>,
    getUserName: string -> Ret<string>)

  /** The cookie Signin sets for a session. */
  function SessionCookie(s: Session): Cookie {
    Cookie(SessionCookieName, s.sid, "/", s.expiresAt, true)
  }

  /** The first answer of FindActiveSession for the request's cookie; its error
      is discarded, and a request without the cookie is not authorized. */
  function Authorized(core: Core, req: Request): bool {
    req.sessionCookie.Some? && core.findActiveSession(req.sessionCookie.value).val
  }

  /** The credentials in the request's body, None when the body could not be
      read or did not decode. */
  function Decoded(decode: string -> Option<Credentials>, req: Request): Option<Credentials> {
    if req.body.None? then None else decode(req.body.value)
  }

  function LookupCalls(req: Request): seq<Call> {
    if req.sessionCookie.Some? then [FindActiveSession(req.sessionCookie.value)] else []
  }

  /** Signin. */
  function Signin(core: Core, decode: string -> Option<Credentials>, req: Request): (rep: Reply)
    ensures req.verb != MethodPost ==> rep == Reply(StatusMethodNotAllowed, None, None, [])
    ensures req.verb == MethodPost && Authorized(core, req) ==> rep == Reply(StatusOK, None, None, LookupCalls(req))
    ensures rep.status in {StatusOK, StatusBadRequest, StatusUnauthorized, StatusMethodNotAllowed, StatusInternalServerError}
    ensures rep.cookie.Some? <==> rep.status == StatusOK && |rep.calls| > 0 && rep.calls[|rep.calls| - 1].CreateSession?
    ensures rep.cookie.Some? ==>
              var login := rep.calls[|rep.calls| - 1].login;
              Decoded(decode, req) != None && login == Decoded(decode, req).value.login &&
              core.findUserAccount(login, Decoded(decode, req).value.password).found &&
              rep.cookie.value == SessionCookie(core.createSession(login).val)
    ensures rep.body.None?
  {
    if req.verb != MethodPost then Reply(StatusMethodNotAllowed, None, None, [])
    else if Authorized(core, req) then Reply(StatusOK, None, None, LookupCalls(req))
    else
      var calls := LookupCalls(req) + [ReadBody];
      if req.body.None? then Reply(StatusBadRequest, None, None, calls)
      else if decode(req.body.value).None? then Reply(StatusBadRequest, None, None, calls)
      else
        var request := decode(req.body.value).value;
        var account := core.findUserAccount(request.login, request.password);
        var calls := calls + [FindUserAccount(request.login)];
        if account.err.Some? then Reply(StatusInternalServerError, None, None, calls)
        else if !account.found then Reply(StatusUnauthorized, None, None, calls)
        else
          var session := core.createSession(request.login);
          Reply(StatusOK, Some(SessionCookie(session.val)), None, calls + [CreateSession(request.login)])
  }

  /** The failure paths of Signin for a POST without a valid session: an
      unreadable or undecodable body is 400, a lookup error 500, an unknown
      account 401, and none of them sets a cookie or creates a session. */
  lemma SigninFailures(core: Core, decode: string -> Option<Credentials>, req: Request)
    requires req.verb == MethodPost && !Authorized(core, req)
    ensures req.body.None? ==> Signin(core, decode, req).status == StatusBadRequest
    ensures req.body.Some? && decode(req.body.value).None? ==> Signin(core, decode, req).status == StatusBadRequest
    ensures req.body.Some? && decode(req.body.value).Some? ==>
              var c := decode(req.body.value).value;
              var account := core.findUserAccount(c.login, c.password);
              (account.err.Some? ==> Signin(core, decode, req).status == StatusInternalServerError) &&
              (account.err.None? && !account.found ==> Signin(core, decode, req).status == StatusUnauthorized) &&
              (account.err.None? && account.found ==> Signin(core, decode, req).cookie == Some(SessionCookie(core.createSession(c.login).val)))
    ensures Signin(core, decode, req).status != StatusOK ==> Signin(core, decode, req).cookie.None?
  {
  }

  /** The core of usecase/sessions and usecase/profiles as the handlers see it,
      with the sid and the clock of this request fixed. */
  function UsecaseCore(sessions: Repos.SessionRepo, profiles: Profiles.Profiles, sid: string, now: int): (core: Core)
    ensures forall c :: core.findActiveSession(c) == Sessions.FindActiveSession(sessions, c)
    ensures forall l :: core.createSession(l) == Sessions.CreateSessionWith(sessions, l, sid, now)
    ensures forall c :: core.getUserName(c) == Sessions.GetUserName(sessions, c)
  {
    Core(
      c => Sessions.FindActiveSession(sessions, c),
      (l, p) => Profiles.FindUserAccount(profiles, l, p),
      l => Sessions.CreateSessionWith(sessions, l, sid, now),
      l => Profiles.FindUserByLogin(profiles, l),
      (l, p) => Profiles.CreateUserAccount(profiles, l, p),
      c => Sessions.KillSession(sessions, c),
      c => Sessions.GetUserName(sessions, c))
  }

  /** Over the Redis store as written a successful sign-in sets a session_id
      cookie whose value is empty: the zero session's sid. */
  lemma SigninCookieEmptyOverStore(r: AuthRepo.Redis, link: Link, profiles: Profiles.Profiles, sid: string, now: int,
                                   decode: string -> Option<Credentials>, req: Request)
    ensures var rep := Signin(UsecaseCore(AuthRepo.AsSessionRepo(r, link), profiles, sid, now), decode, req);
            rep.cookie.Some? ==> rep.cookie.value.value == "" && rep.cookie.value.expires == ZeroSession.expiresAt
  {
    var core := UsecaseCore(AuthRepo.AsSessionRepo(r, link), profiles, sid, now);
    var rep := Signin(core, decode, req);
    if rep.cookie.Some? {
      var login := rep.calls[|rep.calls| - 1].login;
      Sessions.CreateSessionNeverSucceeds(r, link, login, sid, now);
    }
  }

  /** Signup. */
  function Signup(core: Core, decode: string -> Option<Credentials>, req: Request): (rep: Reply)
    ensures req.verb != MethodPost ==> rep == Reply(StatusMethodNotAllowed, None, None, [])
    ensures rep.cookie.None? && rep.body.None?
    ensures rep.status in {StatusOK, StatusBadRequest, StatusMethodNotAllowed, StatusConflict, StatusInternalServerError}
    ensures rep.status == StatusOK <==> |rep.calls| > 0 && rep.calls[|rep.calls| - 1].CreateUserAccount? &&
                                        Decoded(decode, req) != None &&
                                        core.createUserAccount(rep.calls[|rep.calls| - 1].login, Decoded(decode, req).value.password).None?
    ensures forall i :: 0 <= i < |rep.calls| && rep.calls[i].CreateUserAccount? ==>
              !core.findUserByLogin(rep.calls[i].login).val && core.findUserByLogin(rep.calls[i].login).err.None?
  {
    if req.verb != MethodPost then Reply(StatusMethodNotAllowed, None, None, [])
    else if req.body.None? then Reply(StatusBadRequest, None, None, [ReadBody])
    else if decode(req.body.value).None? then Reply(StatusInternalServerError, None, None, [ReadBody])
    else
      var request := decode(req.body.value).value;
      var found := core.findUserByLogin(request.login);
      var calls := [ReadBody, FindUserByLogin(request.login)];
      if found.err.Some? then Reply(StatusInternalServerError, None, None, calls)
      else if found.val then Reply(StatusConflict, None, None, calls)
      else
        var created := core.createUserAccount(request.login, request.password);
        var calls := calls + [CreateUserAccount(request.login)];
        if created.Some? then Reply(StatusBadRequest, None, None, calls)
        else Reply(StatusOK, None, None, calls)
  }

  /** Signup's decisions: a taken login is 409 without an account being
      created, an undecodable body is 500, and a failed creation is 400. */
  lemma SignupDecisions(core: Core, decode: string -> Option<Credentials>, req: Request)
    requires req.verb == MethodPost && req.body.Some?
    ensures decode(req.body.value).None? ==> Signup(core, decode, req).status == StatusInternalServerError
    ensures decode(req.body.value).Some? ==>
              var c := decode(req.body.value).value;
              var found := core.findUserByLogin(c.login);
              (found.err.None? && found.val ==>
                 Signup(core, decode, req).status == StatusConflict && CreateUserAccount(c.login) !in Signup(core, decode, req).calls) &&
              (found.err.None? && !found.val && core.createUserAccount(c.login, c.password).Some? ==>
                 Signup(core, decode, req).status == StatusBadRequest)
  {
  }

  /** Logout: DELETE only; no cookie is 400, a failed KillSession 500. It never
      sets a cookie, so the browser keeps the old one. */
  function Logout(core: Core, req: Request): (rep: Reply)
    ensures rep.cookie.None? && rep.body.None?
    ensures req.verb != MethodDelete ==> rep.status == StatusMethodNotAllowed && rep.calls == []
    ensures req.verb == MethodDelete && req.sessionCookie.None? ==> rep.status == StatusBadRequest && rep.calls == []
    ensures req.verb == MethodDelete && req.sessionCookie.Some? ==>
              rep.calls == [KillSession(req.sessionCookie.value)] &&
              (rep.status == StatusOK <==> core.killSession(req.sessionCookie.value).None?) &&
              (rep.status == StatusInternalServerError <==> core.killSession(req.sessionCookie.value).Some?)
  {
    if req.verb != MethodDelete then Reply(StatusMethodNotAllowed, None, None, [])
    else if req.sessionCookie.None? then Reply(StatusBadRequest, None, None, [])
    else
      var calls := [KillSession(req.sessionCookie.value)];
      if core.killSession(req.sessionCookie.value).Some? then Reply(StatusInternalServerError, None, None, calls)
      else Reply(StatusOK, None, None, calls)
  }

  /** The role AuthAccept reports, whatever the account's role. */
  const AcceptedRole: string := "hui"

  /** AuthAccept: GET only; not authorized is 401, a failed login lookup 500,
      otherwise the login and the fixed role. */
  function AuthAccept(core: Core, req: Request): (rep: Reply)
    ensures rep.cookie.None?
    ensures req.verb != MethodGet ==> rep.status == StatusMethodNotAllowed && rep.calls == []
    ensures req.verb == MethodGet && !Authorized(core, req) ==> rep.status == StatusUnauthorized && rep.body.None?
    ensures rep.body.Some? <==> rep.status == StatusOK
    ensures rep.body.Some? ==>
              Authorized(core, req) &&
              rep.body.value == AuthCheckResponse(core.getUserName(req.sessionCookie.value).val, AcceptedRole) &&
              core.getUserName(req.sessionCookie.value).err.None?
    ensures req.verb == MethodGet && Authorized(core, req) && core.getUserName(req.sessionCookie.value).err.Some? ==>
              rep.status == StatusInternalServerError
  {
    if req.verb != MethodGet then Reply(StatusMethodNotAllowed, None, None, [])
    else if !Authorized(core, req) then Reply(StatusUnauthorized, None, None, LookupCalls(req))
    else
      var login := core.getUserName(req.sessionCookie.value);
      var calls := LookupCalls(req) + [GetUserName(req.sessionCookie.value)];
      if login.err.Some? then Reply(StatusInternalServerError, None, None, calls)
      else Reply(StatusOK, None, Some(AuthCheckResponse(login.val, AcceptedRole)), calls)
  }

  /** Over the Redis store as written no GET to /authcheck is ever accepted. */
  lemma AuthAcceptRejectsOverStore(r: AuthRepo.Redis, link: Link, profiles: Profiles.Profiles, sid: string, now: int, req: Request)
    requires req.verb == MethodGet
    ensures AuthAccept(UsecaseCore(AuthRepo.AsSessionRepo(r, link), profiles, sid, now), req).status == StatusUnauthorized
  {
    if req.sessionCookie.Some? {
      Sessions.FindActiveSessionOverStore(r, link, req.sessionCookie.value);
    }
  }

  /** url.Values.Get: the parameter's value, "" when it is absent. */
  function QueryGet(query: map<string, string>, key: string): string {
    if key in query then query[key] else ""
  }

  const DefaultPage: nat := 0
  const DefaultPerPage: nat := 8

  /** The query key each listing handler reads its page size from. */
  const FindFilmsPerPageKey: string := "per_page"
  const SearchFilmsPerPageKey: string := "per_page"
  const FindActorsPerPageKey: string := "per_size"

  /** page and page size of a listing: strconv.ParseUint of the parameters, with
      0 and 8 for a value that is absent or does not parse. */
  function Paging(query: map<string, string>, perPageKey: string): (p: (nat, nat))
    ensures Decimal.ParseUint(QueryGet(query, "page")).Some? ==> p.0 == Decimal.ParseUint(QueryGet(query, "page")).value
    ensures Decimal.ParseUint(QueryGet(query, "page")).None? ==> p.0 == DefaultPage
    ensures Decimal.ParseUint(QueryGet(query, perPageKey)).Some? ==> p.1 == Decimal.ParseUint(QueryGet(query, perPageKey)).value
    ensures Decimal.ParseUint(QueryGet(query, perPageKey)).None? ==> p.1 == DefaultPerPage
  {
    var page := Decimal.ParseUint(QueryGet(query, "page"));
    var perPage := Decimal.ParseUint(QueryGet(query, perPageKey));
    (if page.Some? then page.value else DefaultPage, if perPage.Some? then perPage.value else DefaultPerPage)
  }

  /** Paging reads back the numbers a client writes. */
  lemma PagingRoundTrip(page: nat, perPage: nat, perPageKey: string)
    requires page <= Decimal.MaxUint64 && perPage <= Decimal.MaxUint64
    requires perPageKey != "page"
    ensures Paging(map["page" := Decimal.Itoa(page), perPageKey := Decimal.Itoa(perPage)], perPageKey) == (page, perPage)
  {
    Decimal.ParseItoa(page);
    Decimal.ParseItoa(perPage);
  }

  /** The actor listing ignores per_page: a client that sends only per_page
      gets its value from the film listings and the default 8 from FindActors. */
  lemma FindActorsIgnoresPerPage(n: nat)
    requires n <= Decimal.MaxUint64
    ensures Paging(map["per_page" := Decimal.Itoa(n)], FindFilmsPerPageKey) == (DefaultPage, n)
    ensures Paging(map["per_page" := Decimal.Itoa(n)], FindActorsPerPageKey) == (DefaultPage, DefaultPerPage)
  {
    Decimal.ParseItoa(n);
  }
}
