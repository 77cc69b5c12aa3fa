/** usecase/core.go: the older session manager. It talks to the same kind of
    session repository, returns the repository's errors unwrapped, and its
    CreateSession returns the sid separately. Its RandStringRunes has the same
    body as pkg/utils.go's and is modelled by Utils.RandStringRunes; the mutex
    around each call is left out. */
module Core {
  import opened Common
  import opened Models
  import opened Utils
  import opened Repos
  import AuthRepo

  /** The three results of CreateSession: sid, session, error. */
  datatype Created = Created(sid: string, session: Session, err: Option<Error>)

  /** GetUserName: the stored login, or ("", err). */
  function GetUserName(auth: SessionRepo, sid: string): (res: Ret<string>)
    ensures res.err == auth.getUserLogin(sid).err
    ensures res.val == (if res.err.None? then auth.getUserLogin(sid).val else "")
  {
    var login := auth.getUserLogin(sid);
    if login.err.Some? then Ret("", login.err) else Ret(login.val, None)
  }

  /** CreateSession once the sid is drawn: a non-empty sid comes back only when
      the repository reports the session added, and then it is the session's
      own sid and the session belongs to `login`. */
  function CreateSessionWith(auth: SessionRepo, login: string, sid: string, now: int): (res: Created)
    ensures res.sid != "" ==> res.sid == res.session.sid && res.session.login == login
    ensures var added := auth.addSession(NewSession(login, sid, now));
            (added.val ==> res == Created(sid, NewSession(login, sid, now), None)) &&
            (!added.val ==> res == Created("", ZeroSession, added.err))
  {
    var created := NewSession(login, sid, now);
    var added := auth.addSession(created);
    if !added.val && added.err.Some? then Created("", ZeroSession, added.err)
    else if !added.val then Created("", ZeroSession, None)
    else Created(sid, created, None)
  }

  /** CreateSession: draws a 32-letter sid and proceeds as CreateSessionWith;
      `sid` is the token drawn. */
  method CreateSession(auth: SessionRepo, login: string, now: int) returns (res: Created, sid: string)
    ensures IsToken(sid, SidLength)
    ensures res == CreateSessionWith(auth, login, sid, now)
    ensures res.sid == "" || (IsToken(res.sid, SidLength) && res.session == NewSession(login, res.sid, now))
  {
    sid := RandStringRunes(SidLength);
    res := CreateSessionWith(auth, login, sid, now);
  }

  /** Over the Redis store as written CreateSession always hands back an empty
      sid and the zero session. */
  lemma CreateSessionNeverSucceeds(r: AuthRepo.Redis, link: Link, login: string, sid: string, now: int)
    ensures var res := CreateSessionWith(AuthRepo.AsSessionRepo(r, link), login, sid, now);
            res.sid == "" && res.session == ZeroSession && (res.err.None? <==> link.Up?)
  {
  }

  /** FindActiveSession: the repository's answer, or (false, err). */
  function FindActiveSession(auth: SessionRepo, sid: string): (res: Ret<bool>)
    ensures res.err == auth.checkActiveSession(sid).err
    ensures res.val <==> res.err.None? && auth.checkActiveSession(sid).val
  {
    var found := auth.checkActiveSession(sid);
    if found.err.Some? then Ret(false, found.err) else Ret(found.val, None)
  }

  /** KillSession: the repository's error, if any; the deleted flag is ignored. */
  function KillSession(auth: SessionRepo, sid: string): (res: Option<Error>)
    ensures res == auth.deleteSession(sid).err
  {
    var deleted := auth.deleteSession(sid);
    if deleted.err.Some? then deleted.err else None
  }

  /** KillSession answers the same for any two repositories whose deletes report
      the same error, whatever their deleted flags. */
  lemma KillSessionIgnoresDeletedFlag(a: SessionRepo, b: SessionRepo, sid: string)
    requires a.deleteSession(sid).err == b.deleteSession(sid).err
    ensures KillSession(a, sid) == KillSession(b, sid)
  {
  }
}
