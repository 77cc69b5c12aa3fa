/** The actor_in_film bookkeeping of repository/psx/PsxRepo.go: the relation
    queries, the reconciliation passes of UpdateFilm and UpdateActor, and the
    two update operations around them. The relation is a set of
    (film, actor) rows; a whole operation runs over one store link. */
module Relations {
  import opened Common
  import opened Models
  import opened Sql
  import UpdateQuery

  /** A row of actor_in_film. */
  datatype Pair = Pair(film: nat, actor: nat)

  type Relation = set<Pair>

  /** GetRelationByFilmId's rows: the actors linked to a film. */
  function ActorsOf(rel: Relation, film: nat): set<nat> {
    set p | p in rel && p.film == film :: p.actor
  }

  /** GetRelationByActorId's rows: the films linked to an actor. */
  function FilmsOf(rel: Relation, actor: nat): set<nat> {
    set p | p in rel && p.actor == actor :: p.film
  }

  /** The ids of a request list, as a set. */
  function Listed(ids: seq<nat>): set<nat> {
    set i | i in ids
  }

  /** GetRelationByFilmId: the film's actors, or the wrapped query error. */
  function GetRelationByFilmId(rel: Relation, film: nat, link: Link): (r: Ret<set<nat>>)
    ensures r.err.None? <==> link.Up?
    ensures link.Up? ==> forall a :: a in r.val <==> Pair(film, a) in rel
    ensures link.Down? ==> r.val == {}
  {
    if link.Down? then Ret({}, Some(Wrapped("sql request find relation actors error", LinkError(link))))
    else Ret(ActorsOf(rel, film), None)
  }

  /** GetRelationByActorId: the actor's films, or the wrapped query error. */
  function GetRelationByActorId(rel: Relation, actor: nat, link: Link): (r: Ret<set<nat>>)
    ensures r.err.None? <==> link.Up?
    ensures link.Up? ==> forall f :: f in r.val <==> Pair(f, actor) in rel
    ensures link.Down? ==> r.val == {}
  {
    if link.Down? then Ret({}, Some(Wrapped("sql request find relation films error", LinkError(link))))
    else Ret(FilmsOf(rel, actor), None)
  }

  /** DeleteRelation(filmId, actorId): removes the row (filmId, actorId). */
  function DeleteRelation(rel: Relation, filmId: nat, actorId: nat, link: Link): (r: Ret<Relation>)
    ensures link.Up? ==> r.err.None? && Pair(filmId, actorId) !in r.val
    ensures link.Up? ==> forall p :: p != Pair(filmId, actorId) ==> (p in r.val <==> p in rel)
    ensures link.Down? ==> r == Ret(rel, Some(Wrapped("sql delete relation error", LinkError(link))))
  {
    if link.Down? then Ret(rel, Some(Wrapped("sql delete relation error", LinkError(link))))
    else Ret(rel - {Pair(filmId, actorId)}, None)
  }

  /** InsertRelation(filmId, actorId): adds the row (filmId, actorId). A failed
      Exec is wrapped when a result came with it and returned bare otherwise:
      either way the caller sees an error. */
  function InsertRelation(rel: Relation, filmId: nat, actorId: nat, exec: UpdateQuery.Exec): (r: Ret<Relation>)
    ensures r.err.None? <==> exec.Done?
    ensures exec.Done? ==> r.val == rel + {Pair(filmId, actorId)}
    ensures exec.Failed? ==> r.val == rel
    ensures exec.Failed? && exec.withResult ==> r.err == Some(Wrapped("sql insert relation error", exec.cause))
    ensures exec.Failed? && !exec.withResult ==> r.err == Some(exec.cause)
  {
    match exec
    case Done => Ret(rel + {Pair(filmId, actorId)}, None)
    case Failed(cause, withResult) =>
      if withResult then Ret(rel, Some(Wrapped("sql insert relation error", cause))) else Ret(rel, Some(cause))
  }

  // ---------------------------------------------------------------------
  // One reconciliation pass

  /** One pass of UpdateFilm's loop over a film's actors: every linked actor
      not in the list is deleted, then every listed actor not linked is
      inserted. `swapped` is the delete as the code writes it, with the actor
      id in the film slot and the film id in the actor slot. */
  function FilmPass(rel: Relation, film: nat, desired: seq<nat>, swapped: bool): Relation {
    var existing := ActorsOf(rel, film);
    var stale := set e | e in existing && e !in desired;
    var gone := if swapped then (set e | e in stale :: Pair(e, film)) else (set e | e in stale :: Pair(film, e));
    (rel - gone) + (set a | a in desired && a !in existing :: Pair(film, a))
  }

  /** One pass of UpdateActor's loop over an actor's films. */
  function ActorPass(rel: Relation, actor: nat, desired: seq<nat>): Relation {
    var existing := FilmsOf(rel, actor);
    var stale := set e | e in existing && e !in desired;
    (rel - (set e | e in stale :: Pair(e, actor))) + (set f | f in desired && f !in existing :: Pair(f, actor))
  }

  /** With the delete's arguments in order, a pass leaves the film linked to
      exactly the listed actors and every other film's rows as they were. */
  lemma FilmPassSets(rel: Relation, film: nat, desired: seq<nat>)
    ensures ActorsOf(FilmPass(rel, film, desired, false), film) == Listed(desired)
    ensures forall p: Pair :: p.film != film ==> (p in FilmPass(rel, film, desired, false) <==> p in rel)
  {
    var r := FilmPass(rel, film, desired, false);
    forall a
      ensures a in ActorsOf(r, film) <==> a in Listed(desired)
    {
      if a in Listed(desired) {
        assert Pair(film, a) in r;
      }
      if a in ActorsOf(r, film) {
        var p :| p in r && p.film == film && p.actor == a;
      }
    }
  }

  /** A corrected pass run a second time changes nothing. */
  lemma FilmPassIdempotent(rel: Relation, film: nat, desired: seq<nat>)
    ensures FilmPass(FilmPass(rel, film, desired, false), film, desired, false) == FilmPass(rel, film, desired, false)
  {
    var r := FilmPass(rel, film, desired, false);
    FilmPassSets(rel, film, desired);
    var r2 := FilmPass(r, film, desired, false);
    assert forall e :: e in ActorsOf(r, film) ==> e in desired;
    assert forall p :: p in r2 <==> p in r;
  }

  /** The pass as written never deletes a row of the film it updates (bar a
      row linking the film to an actor with the same id) and does add every
      listed actor. */
  lemma FilmPassAsWrittenKeepsStale(rel: Relation, film: nat, desired: seq<nat>)
    ensures forall e :: e in ActorsOf(rel, film) && e != film ==> e in ActorsOf(FilmPass(rel, film, desired, true), film)
    ensures Listed(desired) <= ActorsOf(FilmPass(rel, film, desired, true), film)
  {
    var r := FilmPass(rel, film, desired, true);
    forall e | e in ActorsOf(rel, film) && e != film
      ensures e in ActorsOf(r, film)
    {
      var p :| p in rel && p.film == film && p.actor == e;
      assert p == Pair(film, e);
      assert p in r;
    }
    forall a | a in Listed(desired)
      ensures a in ActorsOf(r, film)
    {
      if a in ActorsOf(rel, film) {
        var p :| p in rel && p.film == film && p.actor == a;
        assert p in r;
      } else {
        assert Pair(film, a) in r;
      }
    }
  }

  /** Film 1 linked to actor 2 and film 2 linked to actor 1; the list for
      film 1 is [3]. The pass as written keeps actor 2 on film 1 and instead
      deletes the unrelated row (2, 1). */
  lemma FilmPassAsWrittenCounterexample()
    ensures FilmPass({Pair(1, 2), Pair(2, 1)}, 1, [3], true) == {Pair(1, 2), Pair(1, 3)}
    ensures ActorsOf(FilmPass({Pair(1, 2), Pair(2, 1)}, 1, [3], true), 1) != Listed([3])
    ensures FilmPass({Pair(1, 2), Pair(2, 1)}, 1, [3], false) == {Pair(2, 1), Pair(1, 3)}
  {
    var rel := {Pair(1, 2), Pair(2, 1)};
    assert ActorsOf(rel, 1) == {2} by {
      forall a ensures a in ActorsOf(rel, 1) <==> a == 2 {
        if a in ActorsOf(rel, 1) {
          var p :| p in rel && p.film == 1 && p.actor == a;
        }
        if a == 2 {
          assert Pair(1, 2) in rel;
        }
      }
    }
    var stale := set e | e in ActorsOf(rel, 1) && e !in [3];
    assert stale == {2};
    var added := set a | a in [3] && a !in ActorsOf(rel, 1) :: Pair(1, a);
    assert added == {Pair(1, 3)};
    var r := FilmPass(rel, 1, [3], true);
    assert r == {Pair(1, 2), Pair(1, 3)};
    assert 2 in ActorsOf(r, 1) by { assert Pair(1, 2) in r; }
    assert 2 !in Listed([3]);
  }

  /** An actor pass leaves the actor linked to exactly the listed films and
      every other actor's rows as they were. */
  lemma ActorPassSets(rel: Relation, actor: nat, desired: seq<nat>)
    ensures FilmsOf(ActorPass(rel, actor, desired), actor) == Listed(desired)
    ensures forall p: Pair :: p.actor != actor ==> (p in ActorPass(rel, actor, desired) <==> p in rel)
  {
    var r := ActorPass(rel, actor, desired);
    forall f
      ensures f in FilmsOf(r, actor) <==> f in Listed(desired)
    {
      if f in Listed(desired) {
        assert Pair(f, actor) in r;
      }
      if f in FilmsOf(r, actor) {
        var p :| p in r && p.actor == actor && p.film == f;
      }
    }
  }

  /** An actor pass run a second time changes nothing. */
  lemma ActorPassIdempotent(rel: Relation, actor: nat, desired: seq<nat>)
    ensures ActorPass(ActorPass(rel, actor, desired), actor, desired) == ActorPass(rel, actor, desired)
  {
    var r := ActorPass(rel, actor, desired);
    ActorPassSets(rel, actor, desired);
    var r2 := ActorPass(r, actor, desired);
    assert forall e :: e in FilmsOf(r, actor) ==> e in desired;
    assert forall p :: p in r2 <==> p in r;
  }

  // ---------------------------------------------------------------------
  // The repeated passes

  /** `for range film.Actors`: `passes` rounds, each reading the film's
      current actors and reconciling; a failed read ends the loop with its
      error and leaves the rows as they are. */
  function SyncFilm(rel: Relation, film: nat, desired: seq<nat>, passes: nat, link: Link, swapped: bool): (r: Ret<Relation>)
    decreases passes
    ensures passes == 0 ==> r == Ret(rel, None)
    ensures r.err.Some? <==> passes > 0 && link.Down?
    ensures link.Down? ==> r.val == rel
  {
    if passes == 0 then Ret(rel, None)
    else
      var existing := GetRelationByFilmId(rel, film, link);
      if existing.err.Some? then Ret(rel, existing.err)
      else SyncFilm(FilmPass(rel, film, desired, swapped), film, desired, passes - 1, link, swapped)
  }

  /** `for range actor.Films`, the same loop for an actor. */
  function SyncActor(rel: Relation, actor: nat, desired: seq<nat>, passes: nat, link: Link): (r: Ret<Relation>)
    decreases passes
    ensures passes == 0 ==> r == Ret(rel, None)
    ensures r.err.Some? <==> passes > 0 && link.Down?
    ensures link.Down? ==> r.val == rel
  {
    if passes == 0 then Ret(rel, None)
    else
      var existing := GetRelationByActorId(rel, actor, link);
      if existing.err.Some? then Ret(rel, existing.err)
      else SyncActor(ActorPass(rel, actor, desired), actor, desired, passes - 1, link)
  }

  /** With the corrected delete, any number of passes past the first does
      what the first did. */
  lemma {:induction false} SyncFilmIsOnePass(rel: Relation, film: nat, desired: seq<nat>, passes: nat)
    requires passes > 0
    decreases passes
    ensures SyncFilm(rel, film, desired, passes, Up, false) == Ret(FilmPass(rel, film, desired, false), None)
  {
    if passes > 1 {
      SyncFilmIsOnePass(FilmPass(rel, film, desired, false), film, desired, passes - 1);
      FilmPassIdempotent(rel, film, desired);
    }
  }

  /** Any number of actor passes past the first does what the first did. */
  lemma {:induction false} SyncActorIsOnePass(rel: Relation, actor: nat, desired: seq<nat>, passes: nat)
    requires passes > 0
    decreases passes
    ensures SyncActor(rel, actor, desired, passes, Up) == Ret(ActorPass(rel, actor, desired), None)
  {
    if passes > 1 {
      SyncActorIsOnePass(ActorPass(rel, actor, desired), actor, desired, passes - 1);
      ActorPassIdempotent(rel, actor, desired);
    }
  }

  // ---------------------------------------------------------------------
  // UpdateFilm and UpdateActor

  /** What an update did: the relation afterwards, the UPDATE it ran (None
      when it returned before running one) and its error. */
  datatype Outcome = Outcome(rel: Relation, ran: Option<Query>, err: Option<Error>)

  /** UpdateFilm: the UPDATE statement, then the relation loop. `swapped`
      selects the delete as written (true) or with its arguments in order. */
  function UpdateFilmWith(rel: Relation, film: FilmRequest, queryLink: Link, relLink: Link, swapped: bool): (out: Outcome)
    ensures UpdateQuery.UpdateFilmQuery(film).Rejected? ==>
              out == Outcome(rel, None, Some(UpdateQuery.UpdateFilmQuery(film).err))
    ensures UpdateQuery.UpdateFilmQuery(film).Statement? ==> out.ran == Some(UpdateQuery.UpdateFilmQuery(film).q)
    ensures queryLink.Down? ==> out.rel == rel && out.err.Some?
    ensures film.actors == [] ==> out.rel == rel
    ensures out.err.None? <==>
              UpdateQuery.UpdateFilmQuery(film).Statement? && queryLink.Up? && (film.actors == [] || relLink.Up?)
  {
    match UpdateQuery.UpdateFilmQuery(film)
    case Rejected(e) => Outcome(rel, None, Some(e))
    case Statement(q) =>
      if queryLink.Down? then Outcome(rel, Some(q), Some(Wrapped("update film error", LinkError(queryLink))))
      else
        var synced := SyncFilm(rel, film.id, film.actors, |film.actors|, relLink, swapped);
        Outcome(synced.val, Some(q), synced.err)
  }

  /** UpdateFilm as written. */
  function UpdateFilm(rel: Relation, film: FilmRequest, queryLink: Link, relLink: Link): (out: Outcome)
    ensures out.err.None? <==>
              UpdateQuery.UpdateFilmQuery(film).Statement? && queryLink.Up? && (film.actors == [] || relLink.Up?)
  {
    UpdateFilmWith(rel, film, queryLink, relLink, true)
  }

  /** UpdateFilm with the delete's arguments in order. */
  function UpdateFilmFixed(rel: Relation, film: FilmRequest, queryLink: Link, relLink: Link): (out: Outcome)
    ensures out.err.None? <==>
              UpdateQuery.UpdateFilmQuery(film).Statement? && queryLink.Up? && (film.actors == [] || relLink.Up?)
  {
    UpdateFilmWith(rel, film, queryLink, relLink, false)
  }

  /** A successful corrected update with a non-empty list links the film to
      exactly the listed actors and leaves every other film alone. */
  lemma UpdateFilmFixedLinks(rel: Relation, film: FilmRequest)
    requires film.actors != []
    requires UpdateFilmFixed(rel, film, Up, Up).err.None?
    ensures ActorsOf(UpdateFilmFixed(rel, film, Up, Up).rel, film.id) == Listed(film.actors)
    ensures forall p: Pair :: p.film != film.id ==> (p in UpdateFilmFixed(rel, film, Up, Up).rel <==> p in rel)
  {
    SyncFilmIsOnePass(rel, film.id, film.actors, |film.actors|);
    FilmPassSets(rel, film.id, film.actors);
  }

  /** UpdateActor: the UPDATE statement, then the relation loop. */
  function UpdateActor(rel: Relation, actor: ActorRequest, queryLink: Link, relLink: Link): (out: Outcome)
    ensures UpdateQuery.UpdateActorQuery(actor).Rejected? ==>
              out == Outcome(rel, None, Some(UpdateQuery.UpdateActorQuery(actor).err))
    ensures UpdateQuery.UpdateActorQuery(actor).Statement? ==> out.ran == Some(UpdateQuery.UpdateActorQuery(actor).q)
    ensures queryLink.Down? ==> out.rel == rel && out.err.Some?
    ensures actor.films == [] ==> out.rel == rel
    ensures out.err.None? <==>
              UpdateQuery.UpdateActorQuery(actor).Statement? && queryLink.Up? && (actor.films == [] || relLink.Up?)
  {
    match UpdateQuery.UpdateActorQuery(actor)
    case Rejected(e) => Outcome(rel, None, Some(e))
    case Statement(q) =>
      if queryLink.Down? then Outcome(rel, Some(q), Some(Wrapped("update actor error", LinkError(queryLink))))
      else
        var synced := SyncActor(rel, actor.id, actor.films, |actor.films|, relLink);
        Outcome(synced.val, Some(q), synced.err)
  }

  /** A successful actor update with a non-empty list links the actor to
      exactly the listed films and leaves every other actor alone. */
  lemma UpdateActorLinks(rel: Relation, actor: ActorRequest)
    requires actor.films != []
    requires UpdateActor(rel, actor, Up, Up).err.None?
    ensures FilmsOf(UpdateActor(rel, actor, Up, Up).rel, actor.id) == Listed(actor.films)
    ensures forall p: Pair :: p.actor != actor.id ==> (p in UpdateActor(rel, actor, Up, Up).rel <==> p in rel)
  {
    SyncActorIsOnePass(rel, actor.id, actor.films, |actor.films|);
    ActorPassSets(rel, actor.id, actor.films);
  }
}
