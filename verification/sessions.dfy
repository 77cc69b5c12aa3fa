/** usecase/sessions/sessions.go: the session manager over the session and
    profile repositories. Every error from a repository is wrapped with the
    operation's context and handed back. */
module Sessions {
  import opened Common
  import opened Models
  import opened Utils
  import opened Repos
  import AuthRepo
  import ProfileStore

  /** GetUserId: the login of the session, then the id of that login; either
      failure gives (0, err), and the profile lookup runs only after a login
      was found. */
  function GetUserId(sessions: SessionRepo, profiles: ProfileRepo, sid: string): (res: Ret<nat>)
    ensures var login := sessions.getUserLogin(sid);
            res.err.None? <==> login.err.None? && profiles.getUserId(login.val).err.None?
    ensures res.err.None? ==> res.val == profiles.getUserId(sessions.getUserLogin(sid).val).val
    ensures res.err.Some? ==> res.val == 0
    ensures sessions.getUserLogin(sid).err.Some? ==>
              res.err == Some(Wrapped("get user login error", sessions.getUserLogin(sid).err.value))
  {
    var login := sessions.getUserLogin(sid);
    if login.err.Some? then Ret(0, Some(Wrapped("get user login error", login.err.value)))
    else
      var id := profiles.getUserId(login.val);
      if id.err.Some? then Ret(0, Some(Wrapped("get user id error", id.err.value)))
      else Ret(id.val, None)
  }

  /** When the session lookup fails the profile repository is never consulted:
      any two profile repositories give the same answer. */
  lemma GetUserIdSkipsProfileLookup(sessions: SessionRepo, p1: ProfileRepo, p2: ProfileRepo, sid: string)
    requires sessions.getUserLogin(sid).err.Some?
    ensures GetUserId(sessions, p1, sid) == GetUserId(sessions, p2, sid)
  {
  }

  /** Over the two stores, an id resolves exactly when the session is live and
      its login still has a profile row; an account deleted after sign-in
      leaves a live session whose id no longer resolves. */
  lemma GetUserIdOverStores(r: AuthRepo.Redis, t: ProfileStore.Table, sid: string, newId: nat)
    ensures var res := GetUserId(AuthRepo.AsSessionRepo(r, Up), ProfileStore.AsProfileRepo(t, Up, newId), sid);
            res.err.None? <==> AuthRepo.Live(r, sid) && exists i :: 0 <= i < |t| && t[i].login == r.entries[sid].value
  {
  }

  /** GetUserName: the stored login, or ("", err). */
  function GetUserName(sessions: SessionRepo, sid: string): (res: Ret<string>)
    ensures res.err.None? <==> sessions.getUserLogin(sid).err.None?
    ensures res.err.None? ==> res.val == sessions.getUserLogin(sid).val
    ensures res.err.Some? ==> res.val == ""
  {
    var login := sessions.getUserLogin(sid);
    if login.err.Some? then Ret("", Some(Wrapped("get user name error", login.err.value)))
    else Ret(login.val, None)
  }

  /** CreateSession once the sid is drawn: the new session comes back only when
      the repository reports it added (any error then ignored); otherwise the
      zero session, with the repository's error if it gave one. */
  function CreateSessionWith(sessions: SessionRepo, login: string, sid: string, now: int): (res: Ret<Session>)
    ensures var added := sessions.addSession(NewSession(login, sid, now));
            (added.val ==> res == Ret(NewSession(login, sid, now), None)) &&
            (!added.val ==> res == Ret(ZeroSession, added.err))
  {
    var created := NewSession(login, sid, now);
    var added := sessions.addSession(created);
    if !added.val && added.err.Some? then Ret(ZeroSession, added.err)
    else if !added.val then Ret(ZeroSession, None)
    else Ret(created, None)
  }

  /** CreateSession: draws a 32-letter sid and proceeds as CreateSessionWith;
      `sid` is the token drawn. */
  method CreateSession(sessions: SessionRepo, login: string, now: int) returns (res: Ret<Session>, sid: string)
    ensures IsToken(sid, SidLength)
    ensures res == CreateSessionWith(sessions, login, sid, now)
    ensures res.val == ZeroSession ||
            (res.val.login == login && IsToken(res.val.sid, SidLength) && res.val.expiresAt == now + SessionLifetime)
  {
    sid := RandStringRunes(SidLength);
    res := CreateSessionWith(sessions, login, sid, now);
  }

  /** Over the Redis store as written, CreateSession never hands back a session:
      the result is the zero session, with an error only when the link failed. */
  lemma CreateSessionNeverSucceeds(r: AuthRepo.Redis, link: Link, login: string, sid: string, now: int)
    ensures var res := CreateSessionWith(AuthRepo.AsSessionRepo(r, link), login, sid, now);
            res.val == ZeroSession && (res.err.None? <==> link.Up?)
  {
  }

  /** Over the store with the corrected check, the new session comes back and its
      sid resolves to the login it was created for. */
  lemma CreateSessionWithFixedStore(r: AuthRepo.Redis, login: string, sid: string, now: int)
    ensures CreateSessionWith(AuthRepo.AsFixedSessionRepo(r, Up), login, sid, now) == Ret(NewSession(login, sid, now), None)
    ensures var r' := AuthRepo.AddSessionFixed(r, NewSession(login, sid, now), Up, Up).0;
            GetUserName(AuthRepo.AsFixedSessionRepo(r', Up), sid) == Ret(login, None)
  {
  }

  /** FindActiveSession: the repository's answer, or (false, err). */
  function FindActiveSession(sessions: SessionRepo, sid: string): (res: Ret<bool>)
    ensures res.val <==> sessions.checkActiveSession(sid).err.None? && sessions.checkActiveSession(sid).val
    ensures res.err.Some? <==> sessions.checkActiveSession(sid).err.Some?
  {
    var found := sessions.checkActiveSession(sid);
    if found.err.Some? then Ret(false, Some(Wrapped("find active session error", found.err.value)))
    else Ret(found.val, None)
  }

  /** Over the Redis store as written no session is ever found active; with the
      corrected check exactly the live ones are. */
  lemma FindActiveSessionOverStore(r: AuthRepo.Redis, link: Link, sid: string)
    ensures !FindActiveSession(AuthRepo.AsSessionRepo(r, link), sid).val
    ensures FindActiveSession(AuthRepo.AsFixedSessionRepo(r, link), sid).val <==> link.Up? && AuthRepo.Live(r, sid)
  {
  }

  /** KillSession: nil exactly when the delete reports no error; the deleted
      flag plays no part. */
  function KillSession(sessions: SessionRepo, sid: string): (res: Option<Error>)
    ensures res.None? <==> sessions.deleteSession(sid).err.None?
    ensures res.Some? ==> res.value == Wrapped("delete sessionerror", sessions.deleteSession(sid).err.value)
  {
    var deleted := sessions.deleteSession(sid);
    if deleted.err.Some? then Some(Wrapped("delete sessionerror", deleted.err.value)) else None
  }

  /** Killing a session succeeds on any sid when the store is reachable, twice
      in a row included, and afterwards the sid no longer resolves. */
  lemma KillSessionIdempotent(r: AuthRepo.Redis, sid: string)
    ensures KillSession(AuthRepo.AsSessionRepo(r, Up), sid) == None
    ensures var r' := AuthRepo.DeleteSession(r, sid, Up).0;
            KillSession(AuthRepo.AsSessionRepo(r', Up), sid) == None &&
            GetUserName(AuthRepo.AsSessionRepo(r', Up), sid).err.Some? &&
            !FindActiveSession(AuthRepo.AsFixedSessionRepo(r', Up), sid).val
  {
  }
}
