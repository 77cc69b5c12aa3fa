/** AddFilm of usecase/films/films.go: the rating, title and description
    checks, then the film insert, then the actor links, each step returning
    on its own error. The repository is a record of functions; the size
    checks and the rating bounds come from code that is not part of this
    model (utils.ValidateStringSize and the Film* constants), so they are
    parameters. */
module Films {
  import opened Common
  import opened Models
  import UpdateQuery

  /** The part of psx.IFilmRepo that AddFilm calls. */
  datatype FilmRepo = FilmRepo(
    addFilm: FilmRequest -> Ret<nat>,
    addActorsForFilm: (nat, seq<nat>) -> Option<Error>)

  /** FilmRatingBegin/End with RatingSizeError, and the two
      ValidateStringSize calls with their bounds and messages bound in. */
  datatype Checks = Checks(
    ratingBegin: real,
    ratingEnd: real,
    ratingError: string,
    title: string -> Option<Error>,
    info: string -> Option<Error>)

  /** A repository call AddFilm made, in order. */
  datatype Call = InsertFilm(film: FilmRequest) | LinkActors(filmId: nat, actors: seq<nat>)

  /** AddFilm's `(uint64, error)` and the calls it made on the way. */
  datatype Added = Added(id: nat, err: Option<Error>, calls: seq<Call>)

  predicate RatingInRange(checks: Checks, rating: real) {
    checks.ratingBegin <= rating <= checks.ratingEnd
  }

  /** Whether the film passes every check that runs before the insert. */
  predicate Valid(checks: Checks, film: FilmRequest) {
    RatingInRange(checks, film.rating) && checks.title(film.title).None? && checks.info(film.info).None?
  }

  /** AddFilm: a failed check returns (0, err) with no repository call; a
      failed insert returns (0, "add film error: ..."); a failed link returns
      (0, "AddActorsForFilm error: ...") after the insert; otherwise the id
      the insert produced. */
  function AddFilm(repo: FilmRepo, checks: Checks, film: FilmRequest, actors: seq<nat>): (out: Added)
    ensures !RatingInRange(checks, film.rating) ==> out == Added(0, Some(Message(checks.ratingError)), [])
    ensures RatingInRange(checks, film.rating) && checks.title(film.title).Some? ==>
              out == Added(0, checks.title(film.title), [])
    ensures RatingInRange(checks, film.rating) && checks.title(film.title).None? && checks.info(film.info).Some? ==>
              out == Added(0, checks.info(film.info), [])
    ensures Valid(checks, film) && repo.addFilm(film).err.Some? ==>
              out == Added(0, Some(Wrapped("add film error", repo.addFilm(film).err.value)), [InsertFilm(film)])
    ensures Valid(checks, film) && repo.addFilm(film).err.None? ==>
              out.calls == [InsertFilm(film), LinkActors(repo.addFilm(film).val, actors)]
    ensures out.err.None? <==>
              Valid(checks, film) && repo.addFilm(film).err.None? && repo.addActorsForFilm(repo.addFilm(film).val, actors).None?
    ensures out.err.None? ==> out.id == repo.addFilm(film).val
    ensures out.err.Some? ==> out.id == 0
  {
    if !RatingInRange(checks, film.rating) then Added(0, Some(Message(checks.ratingError)), [])
    else if checks.title(film.title).Some? then Added(0, checks.title(film.title), [])
    else if checks.info(film.info).Some? then Added(0, checks.info(film.info), [])
    else
      var inserted := repo.addFilm(film);
      if inserted.err.Some? then Added(0, Some(Wrapped("add film error", inserted.err.value)), [InsertFilm(film)])
      else
        var linked := repo.addActorsForFilm(inserted.val, actors);
        var calls := [InsertFilm(film), LinkActors(inserted.val, actors)];
        if linked.Some? then Added(0, Some(Wrapped("AddActorsForFilm error", linked.value)), calls)
        else Added(inserted.val, None, calls)
  }

  /** The repository is reached only by a film that passed every check, and
      the actors are linked only to the id the insert returned. */
  lemma ChecksBeforeRepository(repo: FilmRepo, checks: Checks, film: FilmRequest, actors: seq<nat>)
    ensures AddFilm(repo, checks, film, actors).calls != [] ==> Valid(checks, film)
    ensures forall k :: 0 <= k < |AddFilm(repo, checks, film, actors).calls| ==>
              AddFilm(repo, checks, film, actors).calls[k] in [InsertFilm(film), LinkActors(repo.addFilm(film).val, actors)]
  {
  }

  /** A failed link leaves the inserted film in place: the trace ends with
      the link, and no call undoes the insert. */
  lemma NoRollback(repo: FilmRepo, checks: Checks, film: FilmRequest, actors: seq<nat>)
    requires Valid(checks, film) && repo.addFilm(film).err.None?
    requires repo.addActorsForFilm(repo.addFilm(film).val, actors).Some?
    ensures AddFilm(repo, checks, film, actors).err.Some?
    ensures AddFilm(repo, checks, film, actors).id == 0
    ensures InsertFilm(film) in AddFilm(repo, checks, film, actors).calls
    ensures AddFilm(repo, checks, film, actors).calls[|AddFilm(repo, checks, film, actors).calls| - 1].LinkActors?
  {
  }

  /** PsxRepo.AddFilm: the INSERT ... RETURNING id, with `newId` the id the
      database assigns. */
  function PsxAddFilm(film: FilmRequest, link: Link, newId: nat): (r: Ret<nat>)
    ensures r.err.None? <==> link.Up?
    ensures link.Up? ==> r.val == newId
    ensures link.Down? ==> r == Ret(0, Some(Wrapped("insert film err", LinkError(link))))
  {
    if link.Down? then Ret(0, Some(Wrapped("insert film err", LinkError(link)))) else Ret(newId, None)
  }

  /** The PostgreSQL repository: the insert over `link`, and the actor links
      with `exec` the outcome of their statement. */
  function PsxFilmRepo(link: Link, newId: nat, exec: UpdateQuery.Exec): FilmRepo {
    FilmRepo(
      (film: FilmRequest) => PsxAddFilm(film, link, newId),
      (filmId: nat, actors: seq<nat>) => UpdateQuery.AddActorsForFilm(filmId, actors, exec).1)
  }

  /** Over the PostgreSQL repository, a valid film with no actors, or whose
      link statement failed without a result, is reported as added under the
      new id: AddActorsForFilm swallows those cases. */
  lemma PsxAddFilmSwallowsLinkFailure(checks: Checks, film: FilmRequest, actors: seq<nat>, newId: nat, exec: UpdateQuery.Exec)
    requires Valid(checks, film)
    requires actors == [] || (exec.Failed? && !exec.withResult)
    ensures AddFilm(PsxFilmRepo(Up, newId, exec), checks, film, actors) ==
              Added(newId, None, [InsertFilm(film), LinkActors(newId, actors)])
  {
  }

  /** Over the PostgreSQL repository, a link statement that failed with a
      result makes AddFilm report an error after the insert. */
  lemma PsxAddFilmReportsLinkFailure(checks: Checks, film: FilmRequest, actors: seq<nat>, newId: nat, cause: Error)
    requires Valid(checks, film) && actors != []
    ensures AddFilm(PsxFilmRepo(Up, newId, UpdateQuery.Failed(cause, true)), checks, film, actors) ==
              Added(0, Some(Wrapped("AddActorsForFilm error", Wrapped("add film actors error", cause))),
                    [InsertFilm(film), LinkActors(newId, actors)])
  {
  }
}
