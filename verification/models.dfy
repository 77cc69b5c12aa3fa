/** The records of pkg/models that the modelled code reads and writes. */
module Models {
  import Common

  /** models.Session: the login a token belongs to and when its cookie expires (seconds). */
  datatype Session = Session(login: string, sid: string, expiresAt: int)

  /** models.Session{}: the zero value handed back when no session was created. */
  const ZeroSession: Session := Session("", "", 0)

  /** The session both session managers build: the login, the drawn sid, and
      an expiry 24 hours after `now`. */
  function NewSession(login: string, sid: string, now: int): Session {
    Session(login, sid, now + Common.SessionLifetime)
  }

  /** models.UserItem: a profile row without its password. */
  datatype UserItem = UserItem(id: nat, login: string, role: string)

  /** models.FilmItem; ratings are kept as reals (float64 in Go). */
  datatype FilmItem = FilmItem(id: nat, title: string, info: string, rating: real, releaseDate: string)

  /** models.ActorResponse: an actor with the films the grouping collected for it. */
  datatype ActorResponse = ActorResponse(id: nat, name: string, gender: string, birthday: string, films: seq<FilmItem>)

  /** models.FilmRequest: the body of an add or update call; empty or zero fields mean "unset". */
  datatype FilmRequest = FilmRequest(id: nat, title: string, info: string, releaseDate: string, rating: real, actors: seq<nat>)

  /** models.ActorRequest: the body of an actor update. */
  datatype ActorRequest = ActorRequest(id: nat, name: string, birthday: string, gender: string, films: seq<nat>)

  /** models.FindFilmRequest: the filters of the film listing. */
  datatype FindFilmRequest = FindFilmRequest(
    title: string,
    ratingFrom: real,
    ratingTo: real,
    releaseDateFrom: string,
    releaseDateTo: string,
    actor: string,
    page: nat,
    perPage: nat,
    order: string)
}
