/** repository/auth_repo/auth_repo.go: sessions kept in Redis as sid → login
    with a 24-hour TTL. Redis is a map with its own clock; an entry whose
    expiry has passed is gone, so TTL enforcement belongs to the store. */
module AuthRepo {
  import opened Common
  import opened Models
  import Repos

  /** A stored value and the store time at which it expires. */
  datatype Entry = Entry(value: string, expiresAt: int)

  /** The Redis database as the session code sees it. */
  datatype Redis = Redis(clock: int, entries: map<string, Entry>)

  /** The key holds a value that has not yet expired. */
  predicate Live(r: Redis, key: string) {
    key in r.entries && r.clock < r.entries[key].expiresAt
  }

  /** What GET answers: a value, redis.Nil, or a transport error. */
  datatype Reply = Value(v: string) | Nil | Failed(e: Error)

  /** GET key. */
  function Get(r: Redis, key: string, link: Link): Reply {
    if link.Down? then Failed(LinkError(link))
    else if Live(r, key) then Value(r.entries[key].value)
    else Nil
  }

  /** SET key value EX ttl; over a broken link nothing is written. */
  function Set(r: Redis, key: string, value: string, ttl: int, link: Link): Redis {
    if link.Down? then r else r.(entries := r.entries[key := Entry(value, r.clock + ttl)])
  }

  /** Time passing on the store's clock. */
  function Advance(r: Redis, seconds: nat): Redis {
    r.(clock := r.clock + seconds)
  }

  /** CheckActiveSession as written: redis.Nil gives (false, nil), a transport
      error gives (false, err), and a present key falls through to
      `return false, err` with err == nil. It never answers true. */
  function CheckActiveSession(r: Redis, sid: string, link: Link): (res: Ret<bool>)
    ensures !res.val
    ensures link.Down? <==> res.err.Some?
    ensures link.Down? ==> res.err == Some(LinkError(link))
  {
    match Get(r, sid, link)
    case Nil => Ret(false, None)
    case Failed(e) => Ret(false, Some(e))
    case Value(_) => Ret(false, None)
  }

  /** CheckActiveSession cannot tell a live session from a missing key. */
  lemma CheckIgnoresPresence(r: Redis, sid: string, link: Link)
    ensures CheckActiveSession(r, sid, link) == CheckActiveSession(r.(entries := map[]), sid, link)
  {
  }

  /** CheckActiveSession as evidently intended: true exactly for a live key. */
  function CheckActiveSessionFixed(r: Redis, sid: string, link: Link): (res: Ret<bool>)
    ensures res.val <==> link.Up? && Live(r, sid)
    ensures link.Down? <==> res.err.Some?
    ensures link.Down? ==> res.err == Some(LinkError(link))
  {
    match Get(r, sid, link)
    case Nil => Ret(false, None)
    case Failed(e) => Ret(false, Some(e))
    case Value(_) => Ret(true, None)
  }

  /** AddSession: SET sid login with a 24-hour TTL (its reply is ignored), then
      report what the check on the same sid reports. */
  function AddSession(r: Redis, s: Session, setLink: Link, getLink: Link): (out: (Redis, Ret<bool>))
    ensures setLink.Up? ==> out.0 == r.(entries := r.entries[s.sid := Entry(s.login, r.clock + SessionLifetime)])
    ensures setLink.Down? ==> out.0 == r
    ensures out.1 == CheckActiveSession(out.0, s.sid, getLink)
    ensures !out.1.val
  {
    var r' := Set(r, s.sid, s.login, SessionLifetime, setLink);
    var added := CheckActiveSession(r', s.sid, getLink);
    if added.err.Some? then (r', Ret(false, added.err)) else (r', Ret(added.val, None))
  }

  /** AddSession over the corrected check. */
  function AddSessionFixed(r: Redis, s: Session, setLink: Link, getLink: Link): (out: (Redis, Ret<bool>))
    ensures out.0 == AddSession(r, s, setLink, getLink).0
    ensures out.1 == CheckActiveSessionFixed(out.0, s.sid, getLink)
  {
    var r' := Set(r, s.sid, s.login, SessionLifetime, setLink);
    var added := CheckActiveSessionFixed(r', s.sid, getLink);
    if added.err.Some? then (r', Ret(false, added.err)) else (r', Ret(added.val, None))
  }

  /** GetUserLogin: the stored login, or ("", err) for a missing key (redis.Nil)
      as well as for a transport error. */
  function GetUserLogin(r: Redis, sid: string, link: Link): (res: Ret<string>)
    ensures res.err.None? <==> link.Up? && Live(r, sid)
    ensures res.err.None? ==> res.val == r.entries[sid].value
    ensures res.err.Some? ==> res.val == ""
    ensures link.Up? && !Live(r, sid) ==> res.err == Some(KeyNotFound)
  {
    match Get(r, sid, link)
    case Value(v) => Ret(v, None)
    case Nil => Ret("", Some(KeyNotFound))
    case Failed(e) => Ret("", Some(e))
  }

  /** DeleteSession: DEL sid; (true, nil) whenever the call goes through, whether
      or not the key existed. */
  function DeleteSession(r: Redis, sid: string, link: Link): (out: (Redis, Ret<bool>))
    ensures link.Up? ==> out.1 == Ret(true, None)
    ensures link.Up? ==> out.0.clock == r.clock && out.0.entries == r.entries - {sid}
    ensures link.Down? ==> out == (r, Ret(false, Some(LinkError(link))))
  {
    if link.Down? then (r, Ret(false, Some(LinkError(link))))
    else (r.(entries := r.entries - {sid}), Ret(true, None))
  }

  /** Storing a session and reading it back returns its login, whatever the
      check reported. */
  lemma AddThenGetLogin(r: Redis, s: Session, getLink: Link)
    ensures GetUserLogin(AddSession(r, s, Up, getLink).0, s.sid, Up) == Ret(s.login, None)
  {
  }

  /** With the corrected check a session that was written is reported added. */
  lemma FixedAddReportsAdded(r: Redis, s: Session)
    ensures AddSessionFixed(r, s, Up, Up).1 == Ret(true, None)
    ensures CheckActiveSessionFixed(AddSessionFixed(r, s, Up, Up).0, s.sid, Up) == Ret(true, None)
  {
  }

  /** A concrete run: the session is stored, yet AddSession reports it not added. */
  lemma AddSessionMissesStoredSession()
    ensures var r := AddSession(Redis(0, map[]), Session("alice", "sid", SessionLifetime), Up, Up);
            r.1 == Ret(false, None) && GetUserLogin(r.0, "sid", Up) == Ret("alice", None)
  {
  }

  /** DeleteSession is idempotent: a second delete succeeds and changes nothing. */
  lemma DeleteIdempotent(r: Redis, sid: string)
    ensures var once := DeleteSession(r, sid, Up);
            DeleteSession(once.0, sid, Up) == once
  {
    var once := DeleteSession(r, sid, Up);
    assert once.0.entries - {sid} == once.0.entries;
  }

  /** After a delete the session no longer resolves and is not active. */
  lemma DeletedSessionIsGone(r: Redis, sid: string, link: Link)
    ensures var r' := DeleteSession(r, sid, Up).0;
            GetUserLogin(r', sid, Up) == Ret("", Some(KeyNotFound)) &&
            CheckActiveSessionFixed(r', sid, Up) == Ret(false, None)
  {
  }

  /** Once its TTL has elapsed, a session answers every GET exactly like a
      token that was never issued. */
  lemma ExpiredLikeNeverIssued(r: Redis, s: Session, elapsed: nat, link: Link)
    requires s.sid !in r.entries
    requires elapsed >= SessionLifetime
    ensures Get(Advance(AddSession(r, s, Up, link).0, elapsed), s.sid, link) == Get(Advance(r, elapsed), s.sid, link)
  {
  }

  /** The store seen through the session-repository interface. */
  function AsSessionRepo(r: Redis, link: Link): (repo: Repos.SessionRepo)
    ensures forall s :: repo.addSession(s) == AddSession(r, s, link, link).1
    ensures forall sid :: repo.checkActiveSession(sid) == CheckActiveSession(r, sid, link)
    ensures forall sid :: repo.getUserLogin(sid) == GetUserLogin(r, sid, link)
    ensures forall sid :: repo.deleteSession(sid) == DeleteSession(r, sid, link).1
  {
    Repos.SessionRepo(
      s => AddSession(r, s, link, link).1,
      sid => CheckActiveSession(r, sid, link),
      sid => GetUserLogin(r, sid, link),
      sid => DeleteSession(r, sid, link).1)
  }

  /** The same store with the corrected check. */
  function AsFixedSessionRepo(r: Redis, link: Link): (repo: Repos.SessionRepo)
    ensures forall s :: repo.addSession(s) == AddSessionFixed(r, s, link, link).1
    ensures forall sid :: repo.checkActiveSession(sid) == CheckActiveSessionFixed(r, sid, link)
    ensures forall sid :: repo.getUserLogin(sid) == GetUserLogin(r, sid, link)
    ensures forall sid :: repo.deleteSession(sid) == DeleteSession(r, sid, link).1
  {
    Repos.SessionRepo(
      s => AddSessionFixed(r, s, link, link).1,
      sid => CheckActiveSessionFixed(r, sid, link),
      sid => GetUserLogin(r, sid, link),
      sid => DeleteSession(r, sid, link).1)
  }
}
