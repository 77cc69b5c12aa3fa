/** FindActors of repository/psx/PsxRepo.go: the rows of an actor page
    left-joined with their films are folded into one ActorResponse per actor
    id, then the map of entries is listed. The rows are given; their SQL and
    column scanning are not modelled. */
module FindActors {
  import opened Common
  import opened Models

  /** One joined row: the actor's columns as scanned, the film columns when
      film.id as scanned is valid, and the error rows.Scan reported for it, if
      any. rows.Scan stops at the first column it cannot convert, so a NULL
      actor.gen or actor.birthdate leaves film.id invalid: such a row has
      `film == None` and its error is ignored. */
  datatype Row = Row(actor: nat, name: string, gender: string, birthday: string, film: Option<FilmItem>, scanErr: Option<Error>)

  /** How the row loop ends: returned early on a scan error, or with actorsMap. */
  datatype Fold = Stopped(cause: Error) | Folded(entries: map<nat, ActorResponse>)

  /** A scan error only counts on a row that does carry a film. */
  predicate Fatal(row: Row) {
    row.scanErr.Some? && row.film.Some?
  }

  /** The entry a row opens when its actor has none yet. */
  function Opened(row: Row): ActorResponse {
    ActorResponse(row.actor, row.name, row.gender, row.birthday, [])
  }

  /** The loop over rows.Next(). */
  function Group(rows: seq<Row>): Fold {
    if rows == [] then Folded(map[])
    else
      var row := rows[|rows| - 1];
      match Group(rows[..|rows| - 1])
      case Stopped(cause) => Stopped(cause)
      case Folded(m) =>
        if Fatal(row) then Stopped(row.scanErr.value)
        else
          var entry := if row.actor in m then m[row.actor] else Opened(row);
          var entry' := if row.film.Some? then entry.(films := entry.films + [row.film.value]) else entry;
          Folded(m[row.actor := entry'])
  }

  /** The actor ids the rows mention. */
  function ActorIds(rows: seq<Row>): set<nat> {
    set r | r in rows :: r.actor
  }

  /** An actor's films in row order: the rows with that actor and a film. */
  function FilmsFor(rows: seq<Row>, id: nat): seq<FilmItem> {
    if rows == [] then []
    else
      var row := rows[0];
      (if row.actor == id && row.film.Some? then [row.film.value] else []) + FilmsFor(rows[1..], id)
  }

  /** Whether row i is the first row of its actor. */
  predicate FirstOf(rows: seq<Row>, i: nat)
    requires i < |rows|
  {
    forall j :: 0 <= j < i ==> rows[j].actor != rows[i].actor
  }

  /** Whether `entry` carries the name, gender and birthday of its actor's
      first row. */
  ghost predicate FromFirstRow(rows: seq<Row>, entry: ActorResponse) {
    exists i :: 0 <= i < |rows| && FirstOf(rows, i) && rows[i].actor == entry.id
      && rows[i].name == entry.name && rows[i].gender == entry.gender && rows[i].birthday == entry.birthday
  }

  /** Every actor the rows mention has a first row. */
  lemma {:induction false} FirstRowExists(rows: seq<Row>, id: nat)
    requires id in ActorIds(rows)
    ensures exists i :: 0 <= i < |rows| && FirstOf(rows, i) && rows[i].actor == id
  {
    if rows[0].actor == id {
      assert FirstOf(rows, 0);
    } else {
      assert id in ActorIds(rows[1..]) by {
        var r :| r in rows && r.actor == id;
        var j :| 0 <= j < |rows| && rows[j] == r;
        assert rows[1..][j - 1] == r;
      }
      FirstRowExists(rows[1..], id);
      var i :| 0 <= i < |rows[1..]| && FirstOf(rows[1..], i) && rows[1..][i].actor == id;
      assert FirstOf(rows, i + 1) by {
        forall j | 0 <= j < i + 1 ensures rows[j].actor != rows[i + 1].actor {
          if j > 0 {
            assert rows[j] == rows[1..][j - 1];
          }
        }
      }
    }
  }

  lemma FilmsForSnoc(rows: seq<Row>, row: Row, id: nat)
    ensures FilmsFor(rows + [row], id) == FilmsFor(rows, id) + (if row.actor == id && row.film.Some? then [row.film.value] else [])
  {
    if rows != [] {
      assert (rows + [row])[1..] == rows[1..] + [row];
      FilmsForSnoc(rows[1..], row, id);
    }
  }

  /** The fold fails exactly when some row has a fatal scan error. */
  lemma {:induction false} GroupFails(rows: seq<Row>)
    ensures Group(rows).Stopped? <==> exists i :: 0 <= i < |rows| && Fatal(rows[i])
  {
    if rows != [] {
      var init := rows[..|rows| - 1];
      GroupFails(init);
      if exists i :: 0 <= i < |init| && Fatal(init[i]) {
        var i :| 0 <= i < |init| && Fatal(init[i]);
        assert Fatal(rows[i]);
      }
      if exists i :: 0 <= i < |rows| && Fatal(rows[i]) {
        var i :| 0 <= i < |rows| && Fatal(rows[i]);
        if i < |init| {
          assert Fatal(init[i]);
        }
      }
    }
  }

  /** What a successful fold holds: one entry per actor id the rows mention,
      keyed by that id, with the name, gender and birthday of that actor's
      first row and that actor's films in row order. */
  ghost predicate Grouped(rows: seq<Row>, m: map<nat, ActorResponse>) {
    && m.Keys == ActorIds(rows)
    && (forall id :: id in m ==> m[id].id == id)
    && (forall id :: id in m ==> FromFirstRow(rows, m[id]))
    && (forall id :: id in m ==> m[id].films == FilmsFor(rows, id))
  }

  /** A successful fold has one entry per actor id, keyed by that id. */
  lemma {:induction false} GroupKeys(rows: seq<Row>)
    requires Group(rows).Folded?
    ensures Group(rows).entries.Keys == ActorIds(rows)
    ensures forall id :: id in Group(rows).entries ==> Group(rows).entries[id].id == id
  {
    if rows != [] {
      var init := rows[..|rows| - 1];
      var row := rows[|rows| - 1];
      assert rows == init + [row];
      GroupKeys(init);
      ActorIdsSnoc(init, row);
    }
  }

  lemma ActorIdsSnoc(rows: seq<Row>, row: Row)
    ensures ActorIds(rows + [row]) == ActorIds(rows) + {row.actor}
  {
    assert forall r :: r in rows + [row] <==> r in rows || r == row;
  }

  /** Each entry of a successful fold has its actor's films in row order. */
  lemma {:induction false} GroupFilms(rows: seq<Row>)
    requires Group(rows).Folded?
    ensures forall id :: id in Group(rows).entries ==> Group(rows).entries[id].films == FilmsFor(rows, id)
  {
    if rows != [] {
      var init := rows[..|rows| - 1];
      var row := rows[|rows| - 1];
      assert rows == init + [row];
      GroupFilms(init);
      var m := Group(init).entries;
      var m' := Group(rows).entries;
      forall id | id in m'
        ensures m'[id].films == FilmsFor(rows, id)
      {
        FilmsForSnoc(init, row, id);
        if id == row.actor && row.actor !in m {
          GroupKeys(init);
          NoRowsNoFilms(init, id);
        }
      }
    }
  }

  /** Every successful fold is grouped. */
  lemma GroupSound(rows: seq<Row>)
    requires Group(rows).Folded?
    ensures Grouped(rows, Group(rows).entries)
  {
    GroupKeys(rows);
    GroupFilms(rows);
    GroupFirstRows(rows);
  }

  /** Each entry of a successful fold comes from its actor's first row. */
  lemma GroupFirstRows(rows: seq<Row>)
    requires Group(rows).Folded?
    ensures forall id :: id in Group(rows).entries ==> FromFirstRow(rows, Group(rows).entries[id])
  {
    var m := Group(rows).entries;
    GroupKeys(rows);
    forall id | id in m
      ensures FromFirstRow(rows, m[id])
    {
      FirstRowExists(rows, id);
      var i :| 0 <= i < |rows| && FirstOf(rows, i) && rows[i].actor == id;
      GroupKeepsFirstRow(rows, i);
    }
  }

  lemma NoRowsNoFilms(rows: seq<Row>, id: nat)
    requires id !in ActorIds(rows)
    ensures FilmsFor(rows, id) == []
  {
    if rows != [] {
      assert ActorIds(rows) == {rows[0].actor} + ActorIds(rows[1..]);
      NoRowsNoFilms(rows[1..], id);
    }
  }

  /** Each entry keeps the name, gender and birthday of its actor's first row. */
  lemma {:induction false} GroupKeepsFirstRow(rows: seq<Row>, i: nat)
    requires Group(rows).Folded? && i < |rows| && FirstOf(rows, i)
    ensures rows[i].actor in Group(rows).entries
    ensures Group(rows).entries[rows[i].actor].name == rows[i].name
    ensures Group(rows).entries[rows[i].actor].gender == rows[i].gender
    ensures Group(rows).entries[rows[i].actor].birthday == rows[i].birthday
  {
    var init := rows[..|rows| - 1];
    var row := rows[|rows| - 1];
    if i < |init| {
      assert FirstOf(init, i) by {
        forall j | 0 <= j < i ensures init[j].actor != init[i].actor {
          assert init[j] == rows[j];
        }
      }
      GroupKeepsFirstRow(init, i);
    } else {
      GroupKeys(init);
      assert rows[i].actor !in ActorIds(init) by {
        forall r | r in init ensures r.actor != rows[i].actor {
          var j :| 0 <= j < |init| && init[j] == r;
          assert rows[j] == r;
        }
      }
    }
  }

  /** `for _, actor := range actorsMap`: every entry once, in some order (Go's
      map iteration order is unspecified, so any order is allowed here).
      `ids` are the keys the entries were listed under. */
  method ListEntries(m: map<nat, ActorResponse>) returns (actors: seq<ActorResponse>, ids: seq<nat>)
    ensures |actors| == |ids| == |m.Keys|
    ensures forall k :: 0 <= k < |ids| ==> ids[k] in m && actors[k] == m[ids[k]]
    ensures forall id :: id in m ==> id in ids
    ensures forall k, l :: 0 <= k < l < |ids| ==> ids[k] != ids[l]
  {
    actors, ids := [], [];
    var left := m.Keys;
    while left != {}
      invariant left <= m.Keys
      invariant |actors| == |ids|
      invariant |ids| + |left| == |m.Keys|
      invariant forall k :: 0 <= k < |ids| ==> ids[k] in m.Keys - left && actors[k] == m[ids[k]]
      invariant forall id :: id in m.Keys - left ==> id in ids
      invariant forall k, l :: 0 <= k < l < |ids| ==> ids[k] != ids[l]
      decreases |left|
    {
      var id :| id in left;
      actors, ids := actors + [m[id]], ids + [id];
      left := left - {id};
    }
  }

  /** FindActors' result on success: one entry per actor id the rows
      mention, each with the name, gender and birthday of that actor's first
      row and that actor's films in row order. */
  ghost predicate ListsActors(rows: seq<Row>, actors: seq<ActorResponse>) {
    && |actors| == |ActorIds(rows)|
    && (forall id :: id in ActorIds(rows) <==> exists k :: 0 <= k < |actors| && actors[k].id == id)
    && (forall k, l :: 0 <= k < l < |actors| ==> actors[k].id != actors[l].id)
    && (forall k :: 0 <= k < |actors| ==> FromFirstRow(rows, actors[k]))
    && (forall k :: 0 <= k < |actors| ==> actors[k].films == FilmsFor(rows, actors[k].id))
  }

  /** Listing a grouped map lists the actors. */
  lemma ListingGroups(rows: seq<Row>, m: map<nat, ActorResponse>, actors: seq<ActorResponse>, ids: seq<nat>)
    requires Grouped(rows, m)
    requires |actors| == |ids| == |m.Keys|
    requires forall k :: 0 <= k < |ids| ==> ids[k] in m && actors[k] == m[ids[k]]
    requires forall id :: id in m ==> id in ids
    requires forall k, l :: 0 <= k < l < |ids| ==> ids[k] != ids[l]
    ensures ListsActors(rows, actors)
  {
    assert forall k :: 0 <= k < |actors| ==> actors[k].id == ids[k];
  }

  /** FindActors: the query error, the fold, then the listing. */
  method FindActors(rows: seq<Row>, link: Link) returns (actors: seq<ActorResponse>, err: Option<Error>)
    ensures link.Down? ==> actors == [] && err == Some(Wrapped("sql query error", LinkError(link)))
    ensures link.Up? ==> (err.Some? <==> exists i :: 0 <= i < |rows| && Fatal(rows[i]))
    ensures err.Some? ==> actors == []
    ensures err.None? ==> ListsActors(rows, actors)
  {
    if link.Down? {
      return [], Some(Wrapped("sql query error", LinkError(link)));
    }
    GroupFails(rows);
    var grouped := Group(rows);
    if grouped.Stopped? {
      return [], Some(Wrapped("sql Scan error", grouped.cause));
    }
    GroupSound(rows);
    var ids;
    actors, ids := ListEntries(grouped.entries);
    ListingGroups(rows, grouped.entries, actors, ids);
    err := None;
  }
}
