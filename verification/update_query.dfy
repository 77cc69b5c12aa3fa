/** The write statements of repository/psx/PsxRepo.go: the SET list of
    UpdateFilm / UpdateActor and the VALUES list of AddActorsForFilm. Only the
    statement text and its parameters are modelled; the database is not. */
module UpdateQuery {
  import opened Common
  import opened Models
  import opened Sql
  import Decimal

  /** One assignment the SET list may hold: the text written before its
      placeholder, and the bound value, None when the field is unset. */
  datatype Field = Field(column: string, value: Option<Param>)

  /** A statement ready to run, or the error returned before running it. */
  datatype Prepared = Rejected(err: Error) | Statement(q: Query)

  /** The fields that are set, in their original order. */
  function Present(fields: seq<Field>): (p: seq<Field>)
    ensures |p| <= |fields|
    ensures forall i :: 0 <= i < |p| ==> p[i].value.Some?
  {
    if fields == [] then []
    else
      var last := fields[|fields| - 1];
      Present(fields[..|fields| - 1]) + (if last.value.Some? then [last] else [])
  }

  /** The values of set fields, in order. */
  function Values(present: seq<Field>): (vs: seq<Param>)
    requires forall i :: 0 <= i < |present| ==> present[i].value.Some?
    ensures |vs| == |present|
    ensures forall i :: 0 <= i < |vs| ==> vs[i] == present[i].value.value
  {
    seq(|present|, i requires 0 <= i < |present| => present[i].value.value)
  }

  /** The strings.Builder, the haveEq flag, the parameter slice and the
      counter while the SET list is being written. */
  datatype SetList = SetList(frags: seq<Frag>, params: seq<Param>, haveEq: bool, count: nat)

  /** The SET list after the fields have been visited in order: a set field
      writes "," first when an assignment precedes it, then its text and
      the placeholder of the incremented counter. */
  function Build(fields: seq<Field>): (b: SetList)
    ensures b.count == |Present(fields)|
    ensures b.haveEq <==> b.count > 0
    ensures |b.params| == b.count
  {
    if fields == [] then SetList([], [], false, 0)
    else
      var b := Build(fields[..|fields| - 1]);
      var f := fields[|fields| - 1];
      if f.value.None? then b
      else
        SetList(b.frags + Comma(!b.haveEq) + Slot(f.column, b.count + 1),
                b.params + [f.value.value], true, b.count + 1)
  }

  /** The parameters Build collects are the values of the set fields. */
  lemma {:induction false} BuildParams(fields: seq<Field>)
    ensures Build(fields).params == Values(Present(fields))
  {
    if fields != [] {
      var init := fields[..|fields| - 1];
      BuildParams(init);
      var f := fields[|fields| - 1];
      if f.value.Some? {
        assert Present(fields) == Present(init) + [f];
        assert Values(Present(fields)) == Values(Present(init)) + [f.value.value];
      }
    }
  }

  /** Build numbers its placeholders $1..$count, writes no connector, and
      nothing in it needs the caller's counter. */
  lemma {:induction false} BuildNumbering(fields: seq<Field>)
    ensures Consecutive(Placeholders(Build(fields).frags))
    ensures |Placeholders(Build(fields).frags)| == Build(fields).count
    ensures Connectors(Build(fields).frags) == []
  {
    if fields != [] {
      var init := fields[..|fields| - 1];
      BuildNumbering(init);
      var f := fields[|fields| - 1];
      if f.value.Some? {
        var b := Build(init);
        var sep := Comma(!b.haveEq);
        PlaceholdersAppend(b.frags, sep);
        PlaceholdersAppend(b.frags + sep, Slot(f.column, b.count + 1));
        ConnectorsAppend(b.frags, sep);
        ConnectorsAppend(b.frags + sep, Slot(f.column, b.count + 1));
        ConsecutiveExtend(Placeholders(b.frags), b.count + 1);
      }
    }
  }

  /** "<column>$<i>" for the i-th set field, counting from 1. */
  function Assignments(present: seq<Field>): (items: seq<string>)
    ensures |items| == |present|
  {
    if present == [] then []
    else
      var n := |present|;
      Assignments(present[..n - 1]) + [present[n - 1].column + "$" + Decimal.Itoa(n)]
  }

  lemma AssignmentsSnoc(p: seq<Field>, f: Field)
    ensures Assignments(p + [f]) == Assignments(p) + [f.column + "$" + Decimal.Itoa(|p| + 1)]
  {
    assert (p + [f])[..|p|] == p;
  }

  /** Written out, the SET list is the assignments of the set fields, in
      order, separated by single commas. */
  lemma {:induction false} BuildRenders(fields: seq<Field>)
    ensures Render(Build(fields).frags) == Join(Assignments(Present(fields)))
  {
    if fields != [] {
      var init := fields[..|fields| - 1];
      BuildRenders(init);
      var f := fields[|fields| - 1];
      if f.value.Some? {
        var b := Build(init);
        var p := Present(init);
        assert Present(fields) == p + [f];
        assert Build(fields).frags == b.frags + Comma(!b.haveEq) + Slot(f.column, |p| + 1);
        SetStepRenders(b.frags, b.haveEq, p, f);
      } else {
        assert Build(fields) == Build(init);
        assert Present(fields) == Present(init) + [];
        assert Present(init) + [] == Present(init);
      }
    }
  }

  /** One set field appended to a rendered SET list. */
  lemma SetStepRenders(frags: seq<Frag>, haveEq: bool, p: seq<Field>, f: Field)
    requires Render(frags) == Join(Assignments(p))
    requires haveEq <==> p != []
    ensures Render(frags + Comma(!haveEq) + Slot(f.column, |p| + 1)) == Join(Assignments(p + [f]))
  {
    AssignmentsSnoc(p, f);
    SlotRenders(f.column, |p| + 1);
    CommaRenders(!haveEq);
    RenderJoinStep(frags, Comma(!haveEq), Slot(f.column, |p| + 1), Assignments(p));
  }

  /** An UPDATE with SET list `fields` and the row's id bound last: rejected
      with "not have params" when the counter stops below 2, that is when
      no field is set. */
  function UpdateStatement(head: string, fields: seq<Field>, idClause: string, id: nat): (p: Prepared)
    ensures p.Rejected? <==> Present(fields) == []
    ensures p.Rejected? ==> p.err == Message("not have params")
    ensures p.Statement? ==> p.q.params == Build(fields).params + [Num(id)]
    ensures p.Statement? ==> |p.q.params| == |Present(fields)| + 1
  {
    var b := Build(fields);
    var count := b.count + 1;
    if count < 2 then Rejected(Message("not have params"))
    else Statement(Query(Text(head) + b.frags + Slot(idClause, count), b.params + [Num(id)]))
  }

  /** The statement UpdateStatement builds when a field is set. */
  lemma StatementIs(head: string, fields: seq<Field>, idClause: string, id: nat)
    requires UpdateStatement(head, fields, idClause, id).Statement?
    ensures var b := Build(fields);
            UpdateStatement(head, fields, idClause, id).q
              == Query(Text(head) + b.frags + Slot(idClause, b.count + 1), b.params + [Num(id)])
  {
  }

  /** A statement that runs binds the set fields' values and then the id,
      and numbers them $1..$k with the id last. */
  lemma StatementBinds(head: string, fields: seq<Field>, idClause: string, id: nat)
    requires UpdateStatement(head, fields, idClause, id).Statement?
    ensures var q := UpdateStatement(head, fields, idClause, id).q;
            && q.params == Values(Present(fields)) + [Num(id)]
            && Agrees(q)
            && Placeholders(q.frags)[|q.params| - 1] == |q.params|
  {
    var b := Build(fields);
    StatementIs(head, fields, idClause, id);
    BuildParams(fields);
    BuildNumbering(fields);
    WrapNumbered(head, b.frags, idClause, b.count + 1);
  }

  /** The text of a statement that runs: head + the assignments joined by
      "," + idClause + "$k" with k the id's number. */
  lemma StatementText(head: string, fields: seq<Field>, idClause: string, id: nat)
    requires UpdateStatement(head, fields, idClause, id).Statement?
    ensures var q := UpdateStatement(head, fields, idClause, id).q;
            Render(q.frags) == head + Join(Assignments(Present(fields))) + idClause + "$" + Decimal.Itoa(|q.params|)
  {
    var b := Build(fields);
    StatementIs(head, fields, idClause, id);
    BuildRenders(fields);
    WrapRenders(head, b.frags, Slot(idClause, b.count + 1));
    SlotRenders(idClause, b.count + 1);
    Regroup(head, Render(b.frags), idClause, "$", Decimal.Itoa(b.count + 1));
  }

  /** The four assignments UpdateFilm may write, in the order it writes them;
      an empty string or a zero rating leaves the column alone. */
  function FilmFields(film: FilmRequest): (fields: seq<Field>)
    ensures |fields| == 4
    ensures fields[0].value.None? <==> film.title == ""
    ensures fields[1].value.None? <==> film.info == ""
    ensures fields[2].value.None? <==> film.releaseDate == ""
    ensures fields[3].value.None? <==> film.rating == 0.0
  {
    [ Field("title = ", if film.title != "" then Some(Str(film.title)) else None),
      Field(" info = ", if film.info != "" then Some(Str(film.info)) else None),
      Field(" release_date = ", if film.releaseDate != "" then Some(Str(film.releaseDate)) else None),
      Field(" rating = ", if film.rating != 0.0 then Some(Rating(film.rating)) else None) ]
  }

  /** The three assignments UpdateActor may write, in its order. */
  function ActorFields(actor: ActorRequest): (fields: seq<Field>)
    ensures |fields| == 3
    ensures fields[0].value.None? <==> actor.name == ""
    ensures fields[1].value.None? <==> actor.birthday == ""
    ensures fields[2].value.None? <==> actor.gender == ""
  {
    [ Field("name = ", if actor.name != "" then Some(Str(actor.name)) else None),
      Field(" birthdate = ", if actor.birthday != "" then Some(Str(actor.birthday)) else None),
      Field(" gen = ", if actor.gender != "" then Some(Str(actor.gender)) else None) ]
  }

  /** Nothing is present exactly when no field carries a value. */
  lemma {:induction false} NothingPresent(fields: seq<Field>)
    ensures Present(fields) == [] <==> forall i :: 0 <= i < |fields| ==> fields[i].value.None?
  {
    if fields != [] {
      var init := fields[..|fields| - 1];
      NothingPresent(init);
      assert forall i :: 0 <= i < |init| ==> init[i] == fields[i];
    }
  }

  /** The statement UpdateFilm would run, or the error it returns first. */
  function UpdateFilmQuery(film: FilmRequest): (p: Prepared)
    ensures film.id == 0 ==> p == Rejected(Message("film id missing"))
    ensures film.id != 0 ==>
              (p == Rejected(Message("not have params")) <==>
               film.title == "" && film.info == "" && film.releaseDate == "" && film.rating == 0.0)
    ensures p.Statement? ==> film.id != 0 && |p.q.params| > 1 && p.q.params[|p.q.params| - 1] == Num(film.id)
  {
    if film.id == 0 then Rejected(Message("film id missing"))
    else
      var fields := FilmFields(film);
      NothingPresent(fields);
      UpdateStatement("UPDATE film SET ", fields, " WHERE film.id = ", film.id)
  }

  /** The statement UpdateActor would run, or the error it returns first. */
  function UpdateActorQuery(actor: ActorRequest): (p: Prepared)
    ensures actor.id == 0 ==> p == Rejected(Message("actor id missing"))
    ensures actor.id != 0 ==>
              (p == Rejected(Message("not have params")) <==>
               actor.name == "" && actor.birthday == "" && actor.gender == "")
    ensures p.Statement? ==> actor.id != 0 && |p.q.params| > 1 && p.q.params[|p.q.params| - 1] == Num(actor.id)
  {
    if actor.id == 0 then Rejected(Message("actor id missing"))
    else
      var fields := ActorFields(actor);
      NothingPresent(fields);
      UpdateStatement("UPDATE actor SET ", fields, " WHERE actor.id = ", actor.id)
  }

  /** Of four fields, only the first and the last are set. */
  lemma PresentFirstAndLast(a: Field, b: Field, c: Field, d: Field)
    requires a.value.Some? && b.value.None? && c.value.None? && d.value.Some?
    ensures Present([a, b, c, d]) == [a, d]
  {
    assert [a][..0] == [];
    assert Present([a]) == [a];
    assert [a, b][..1] == [a];
    assert Present([a, b]) == [a];
    assert [a, b, c][..2] == [a, b];
    assert Present([a, b, c]) == [a];
    assert [a, b, c, d][..3] == [a, b, c];
  }

  /** Two items are joined by one comma. */
  lemma JoinTwo(x: string, y: string)
    ensures Join([x, y]) == x + "," + y
  {
    assert [x, y][..1] == [x];
  }

  /** With only the title and the rating set, the SET list holds those two
      assignments, numbered $1 and $2. */
  lemma TitleAndRatingList(film: FilmRequest)
    requires film.title != "" && film.rating != 0.0
    requires film.info == "" && film.releaseDate == ""
    ensures Values(Present(FilmFields(film))) == [Str(film.title), Rating(film.rating)]
    ensures Join(Assignments(Present(FilmFields(film)))) == "title = $1" + "," + " rating = $2"
  {
    var fields := FilmFields(film);
    PresentFirstAndLast(fields[0], fields[1], fields[2], fields[3]);
    assert fields == [fields[0], fields[1], fields[2], fields[3]];
    var p := Present(fields);
    assert p == [fields[0], fields[3]];
    ItoaSmall();
    var one, two := "title = " + "$" + Decimal.Itoa(1), " rating = " + "$" + Decimal.Itoa(2);
    assert [fields[0]] == p[..1];
    assert Assignments(p) == [one, two];
    assert one == "title = $1";
    assert two == " rating = $2";
    JoinTwo(one, two);
  }

  /** A film update that sets only the title and the rating binds those two
      values and then the id; by StatementText its SET list is the one
      TitleAndRatingList spells out. */
  lemma TitleAndRatingUpdate(film: FilmRequest)
    requires film.id != 0 && film.title != "" && film.rating != 0.0
    requires film.info == "" && film.releaseDate == ""
    ensures UpdateFilmQuery(film).Statement?
    ensures UpdateFilmQuery(film).q.params == [Str(film.title), Rating(film.rating), Num(film.id)]
  {
    var fields := FilmFields(film);
    StatementBinds("UPDATE film SET ", fields, " WHERE film.id = ", film.id);
    TitleAndRatingList(film);
  }

  /** The texts of $1, $2 and $3. */
  lemma ItoaSmall()
    ensures Decimal.Itoa(1) == "1" && Decimal.Itoa(2) == "2" && Decimal.Itoa(3) == "3"
  {
  }

  // ---------------------------------------------------------------------
  // AddActorsForFilm

  /** The tuple of actor i: "($1, $(i + 2))". */
  function Tuple(i: nat): (f: seq<Frag>)
    ensures Placeholders(f) == [1, i + 2] && Connectors(f) == []
  {
    PlaceholdersAppend(Slot("(", 1), Slot(", ", i + 2));
    PlaceholdersAppend(Slot("(", 1) + Slot(", ", i + 2), Text(")"));
    ConnectorsAppend(Slot("(", 1), Slot(", ", i + 2));
    ConnectorsAppend(Slot("(", 1) + Slot(", ", i + 2), Text(")"));
    Slot("(", 1) + Slot(", ", i + 2) + Text(")")
  }

  /** The tuples of actors[..n], separated by ",". */
  function Tuples(n: nat): (f: seq<Frag>)
    ensures Connectors(f) == []
  {
    if n == 0 then []
    else
      var init := Tuples(n - 1);
      ConnectorsAppend(init, Comma(n == 1));
      ConnectorsAppend(init + Comma(n == 1), Tuple(n - 1));
      init + Comma(n == 1) + Tuple(n - 1)
  }

  /** The placeholders of n tuples: tuple i writes $1 and then $(i + 2). */
  predicate PairLayout(ps: seq<nat>, n: nat) {
    && |ps| == 2 * n
    && forall i :: 0 <= i < n ==> ps[2 * i] == 1 && ps[2 * i + 1] == i + 2
  }

  lemma PairLayoutSnoc(ps: seq<nat>, n: nat)
    requires PairLayout(ps, n)
    ensures PairLayout(ps + [1, n + 2], n + 1)
  {
    var ps' := ps + [1, n + 2];
    forall i | 0 <= i < n + 1
      ensures ps'[2 * i] == 1 && ps'[2 * i + 1] == i + 2
    {
      if i < n {
        assert ps'[2 * i] == ps[2 * i] && ps'[2 * i + 1] == ps[2 * i + 1];
      }
    }
  }

  /** The tuples lay their placeholders out pairwise: $1, then $(i + 2). */
  lemma {:induction false} TuplePlaceholders(n: nat)
    ensures PairLayout(Placeholders(Tuples(n)), n)
  {
    if n > 0 {
      TuplePlaceholders(n - 1);
      var init := Tuples(n - 1);
      PlaceholdersAppend(init, Comma(n == 1));
      PlaceholdersAppend(init + Comma(n == 1), Tuple(n - 1));
      assert Placeholders(Tuples(n)) == Placeholders(init) + [1, n + 1];
      PairLayoutSnoc(Placeholders(init), n - 1);
    }
  }

  /** The text of tuple i. */
  function TupleText(i: nat): string {
    "($1, $" + Decimal.Itoa(i + 2) + ")"
  }

  lemma TupleRenders(i: nat)
    ensures Render(Tuple(i)) == TupleText(i)
  {
    var t := Slot("(", 1) + Slot(", ", i + 2) + Text(")");
    RenderAppend(Slot("(", 1), Slot(", ", i + 2));
    RenderAppend(Slot("(", 1) + Slot(", ", i + 2), Text(")"));
    SlotRenders("(", 1);
    SlotRenders(", ", i + 2);
    TextRenders(")");
    ItoaSmall();
  }

  /** The texts of the first n tuples. */
  function TupleTexts(n: nat): (ts: seq<string>)
    ensures |ts| == n
  {
    if n == 0 then [] else TupleTexts(n - 1) + [TupleText(n - 1)]
  }

  /** Written out, the VALUES list is the tuple texts joined by ",". */
  lemma {:induction false} TuplesRender(n: nat)
    ensures Render(Tuples(n)) == Join(TupleTexts(n))
  {
    if n == 0 {
      assert TupleTexts(0) == [];
    } else {
      TuplesRender(n - 1);
      assert Tuples(n) == Tuples(n - 1) + Comma(n == 1) + Tuple(n - 1);
      TupleRenders(n - 1);
      CommaRenders(n == 1);
      RenderJoinStep(Tuples(n - 1), Comma(n == 1), Tuple(n - 1), TupleTexts(n - 1));
    }
  }

  /** The ids as bound parameters. */
  function Ids(ids: seq<nat>): (ps: seq<Param>)
    ensures |ps| == |ids|
    ensures forall i :: 0 <= i < |ps| ==> ps[i] == Num(ids[i])
  {
    seq(|ids|, i requires 0 <= i < |ids| => Num(ids[i]))
  }

  const InsertActors: string := "INSERT INTO actor_in_film(id_film, id_actor) VALUES"

  /** The INSERT of AddActorsForFilm for a non-empty list: one tuple per actor,
      with the film id as $1 and actor i as $(i + 2). */
  function AddActorsQuery(filmId: nat, actors: seq<nat>): (q: Query)
    ensures q.params == [Num(filmId)] + Ids(actors)
  {
    Query(Text(InsertActors) + Tuples(|actors|), [Num(filmId)] + Ids(actors))
  }

  /** Read through placeholders `ps` against `params`, a statement lists the
      pairs (filmId, actors[i]): two placeholders per actor, each naming a
      bound parameter, the first bound to the film and the second to actor i. */
  predicate ReadsAsPairs(ps: seq<nat>, params: seq<Param>, filmId: nat, actors: seq<nat>) {
    && |ps| == 2 * |actors|
    && (forall j :: 0 <= j < |ps| ==> 1 <= ps[j] <= |params|)
    && (forall i :: 0 <= i < |actors| ==>
          params[ps[2 * i] - 1] == Num(filmId) && params[ps[2 * i + 1] - 1] == Num(actors[i]))
  }

  /** The INSERT binds each listed actor to the film, in list order. */
  lemma AddActorsPairs(filmId: nat, actors: seq<nat>)
    ensures var q := AddActorsQuery(filmId, actors);
            ReadsAsPairs(Placeholders(q.frags), q.params, filmId, actors)
  {
    var n := |actors|;
    var q := AddActorsQuery(filmId, actors);
    PlaceholdersAppend(Text(InsertActors), Tuples(n));
    TuplePlaceholders(n);
    var ps := Placeholders(Tuples(n));
    assert Placeholders(q.frags) == ps by {
      assert Placeholders(q.frags) == [] + ps;
    }
    PairsRead(filmId, actors, ps, q.params);
  }

  /** Placeholders laid out as the tuples lay them out, read against the
      parameters [filmId] + actors. */
  lemma PairsRead(filmId: nat, actors: seq<nat>, ps: seq<nat>, params: seq<Param>)
    requires PairLayout(ps, |actors|)
    requires params == [Num(filmId)] + Ids(actors)
    ensures ReadsAsPairs(ps, params, filmId, actors)
  {
    forall j | 0 <= j < |ps|
      ensures 1 <= ps[j] <= |params|
    {
      var i := j / 2;
      assert j == 2 * i || j == 2 * i + 1;
    }
    forall i | 0 <= i < |actors|
      ensures params[ps[2 * i] - 1] == Num(filmId) && params[ps[2 * i + 1] - 1] == Num(actors[i])
    {
      assert ps[2 * i] == 1;
      assert ps[2 * i + 1] == i + 2;
      assert params[i + 1] == Ids(actors)[i];
    }
  }

  /** The statement's text is the tuples joined by ",". */
  lemma AddActorsText(filmId: nat, actors: seq<nat>)
    ensures Render(AddActorsQuery(filmId, actors).frags) == InsertActors + Join(TupleTexts(|actors|))
  {
    WrapRenders(InsertActors, Tuples(|actors|), []);
    assert Text(InsertActors) + Tuples(|actors|) + [] == Text(InsertActors) + Tuples(|actors|);
    TuplesRender(|actors|);
  }

  /** Two actors give "VALUES($1, $2),($1, $3)". */
  lemma TwoActorsText(filmId: nat, a: nat, b: nat)
    ensures Render(AddActorsQuery(filmId, [a, b]).frags)
            == "INSERT INTO actor_in_film(id_film, id_actor) VALUES" + "($1, $2)" + "," + "($1, $3)"
  {
    AddActorsText(filmId, [a, b]);
    TwoTupleTexts();
    JoinTwo("($1, $2)", "($1, $3)");
    Assoc3(InsertActors, "($1, $2)", ",", "($1, $3)");
  }

  lemma TwoTupleTexts()
    ensures TupleTexts(2) == ["($1, $2)", "($1, $3)"]
  {
    ItoaSmall();
    assert TupleText(0) == "($1, $2)";
    assert TupleText(1) == "($1, $3)";
    assert TupleTexts(2) == [TupleText(0), TupleText(1)];
  }

  /** What the driver reports for an Exec: success, or an error with or
      without a sql.Result alongside it. */
  datatype Exec = Done | Failed(cause: Error, withResult: bool)

  /** AddActorsForFilm: the statement it runs (None for an empty list) and
      its error. An exec error is reported only when a result came with it. */
  function AddActorsForFilm(filmId: nat, actors: seq<nat>, exec: Exec): (out: (Option<Query>, Option<Error>))
    ensures actors == [] ==> out == (None, None)
    ensures actors != [] ==> out.0 == Some(AddActorsQuery(filmId, actors))
    ensures out.1.Some? <==> actors != [] && exec.Failed? && exec.withResult
    ensures out.1.Some? ==> out.1 == Some(Wrapped("add film actors error", exec.cause))
  {
    if actors == [] then (None, None)
    else
      var q := AddActorsQuery(filmId, actors);
      if exec.Failed? && exec.withResult then (Some(q), Some(Wrapped("add film actors error", exec.cause)))
      else (Some(q), None)
  }
}
