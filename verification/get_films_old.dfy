/** repository/psx_repo/PsxRepo.go, GetFilms: the older film search query. Its
    actor filter writes one placeholder number twice, its tail numbers LIMIT
    and OFFSET after the filters but binds four values there, and it returns
    no films even when the query succeeds. */
module FilmQueryOld {
  import opened Common
  import opened Models
  import opened Sql
  import opened Clauses

  const SelectFilms: string :=
    "SELECT DISTINCT film.title, film.id, film.rating, film.release_date FROM film " +
    "JOIN actor_in_film ON film.id = actor_in_film.id_film " +
    "JOIN actor ON actor.id = actor_in_film.id_actor "

  /** Title and the release-date bounds: the filters that bind one value each. */
  function DateFilters(req: FindFilmRequest): nat {
    Count(req.title != "") + Count(req.releaseDateFrom != "") + Count(req.releaseDateTo != "")
  }

  /** All filters that are set, the actor filter included. */
  function Filters(req: FindFilmRequest): nat {
    DateFilters(req) + Count(req.actor != "")
  }

  function DateParams(req: FindFilmRequest): (ps: seq<Param>)
    ensures |ps| == DateFilters(req)
  {
    Bound(req.title != "", Some(Str(req.title))) +
    Bound(req.releaseDateFrom != "", Some(Str(req.releaseDateFrom))) +
    Bound(req.releaseDateTo != "", Some(Str(req.releaseDateTo)))
  }

  /** The title and release-date filters, each binding its value. */
  function DateClause(req: FindFilmRequest): (b: Builder)
    ensures Chained(b) && Numbered(b)
    ensures |Connectors(b.frags)| == DateFilters(req) && b.paramNum == DateFilters(req) + 1
    ensures b.params == DateParams(req)
  {
    var b0 := Start(SelectFilms);
    // The title comes first, so its unconditional "WHERE " is what Connect writes.
    var b1 := Optional(b0, req.title != "", "fts @@ to_tsquery(", ") ", Some(Str(req.title)));
    var b2 := Optional(b1, req.releaseDateFrom != "", "release_date >= ", " ", Some(Str(req.releaseDateFrom)));
    var b3 := Optional(b2, req.releaseDateTo != "", "release_date <= ", " ", Some(Str(req.releaseDateTo)));
    ThreeBounds(b0.params, b1.params, b2.params, b3.params,
                Bound(req.title != "", Some(Str(req.title))),
                Bound(req.releaseDateFrom != "", Some(Str(req.releaseDateFrom))),
                Bound(req.releaseDateTo != "", Some(Str(req.releaseDateTo))));
    b3
  }

  /** The actor filter: `$n` written twice, one value bound, and hasWhere left
      as it was. */
  function ActorClause(b: Builder, actor: string): (c: Builder)
    requires Chained(b) && Numbered(b)
    ensures Connectors(c.frags) == Connectors(b.frags) + [if b.hasWhere then And else Where]
    ensures Placeholders(c.frags) == Placeholders(b.frags) + [b.paramNum, b.paramNum]
    ensures c.params == b.params + [Strings(actor)] && c.paramNum == b.paramNum + 1
  {
    var d := Connect(b);
    var first := Slot("(CASE WHEN array_length(", d.paramNum);
    var second := Slot("::varchar[], 1)> 0 THEN crew.name = ANY (", d.paramNum);
    var clause := first + second + Text("::varchar[]) ELSE TRUE END) ");
    PlaceholdersAppend(first, second);
    ConnectorsAppend(first, second);
    PlaceholdersAppend(first + second, Text("::varchar[]) ELSE TRUE END) "));
    ConnectorsAppend(first + second, Text("::varchar[]) ELSE TRUE END) "));
    PlaceholdersAppend(d.frags, clause);
    ConnectorsAppend(d.frags, clause);
    Builder(d.frags + clause, d.params + [Strings(actor)], b.hasWhere, d.paramNum + 1)
  }

  /** The placeholders the actor filter writes: its number twice, or nothing. */
  function ActorPlaceholders(req: FindFilmRequest): seq<nat> {
    if req.actor != "" then [DateFilters(req) + 1, DateFilters(req) + 1] else []
  }

  /** All filters. */
  function WhereClause(req: FindFilmRequest): Builder {
    var b := DateClause(req);
    if req.actor != "" then ActorClause(b, req.actor) else b
  }

  /** The filters are chained by one "WHERE " and then "AND "s; the date
      filters take $1..$k and the actor filter repeats $(k+1). */
  lemma WhereChain(req: FindFilmRequest)
    ensures Connectors(WhereClause(req).frags) == Chain(Filters(req))
    ensures Placeholders(WhereClause(req).frags) == Range(DateFilters(req)) + ActorPlaceholders(req)
  {
    if req.actor != "" {
      ActorExtends(DateClause(req), req.actor);
    }
  }

  /** Every filter binds one value, and paramNum ends one past the filters. */
  lemma WhereParams(req: FindFilmRequest)
    ensures WhereClause(req).paramNum == Filters(req) + 1
    ensures WhereClause(req).params == DateParams(req) + (if req.actor != "" then [Strings(req.actor)] else [])
  {
  }

  /** After k chained filters the actor filter is the (k+1)-th link of the
      chain, and it repeats the next placeholder number. */
  lemma ActorExtends(b: Builder, actor: string)
    requires Chained(b) && Numbered(b)
    ensures var c := ActorClause(b, actor);
            Connectors(c.frags) == Chain(|Connectors(b.frags)| + 1) &&
            Placeholders(c.frags) == Range(b.paramNum - 1) + [b.paramNum, b.paramNum]
  {
  }

  /** "ORDER BY film.rating LIMIT $n OFFSET $n+1". */
  function Tail(n: nat): (t: seq<Frag>)
    ensures Placeholders(t) == [n, n + 1] && Connectors(t) == []
  {
    PlaceholdersAppend(Slot("ORDER BY film.rating LIMIT ", n), Slot(" OFFSET ", n + 1));
    ConnectorsAppend(Slot("ORDER BY film.rating LIMIT ", n), Slot(" OFFSET ", n + 1));
    Slot("ORDER BY film.rating LIMIT ", n) + Slot(" OFFSET ", n + 1)
  }

  /** The query and the values it is run with: after the filters' values come
      the rating bounds, the page and the page size. */
  function GetFilmsQuery(req: FindFilmRequest): Query {
    var b := WhereClause(req);
    Query(b.frags + Tail(b.paramNum),
          b.params + [Rating(req.ratingFrom), Rating(req.ratingTo), Num(req.page), Num(req.perPage)])
  }

  /** Title, release date from and release date to (and the actor filter when
      set) are chained by one "WHERE " and then "AND "s. */
  lemma OldChain(req: FindFilmRequest)
    ensures Connectors(GetFilmsQuery(req).frags) == Chain(Filters(req))
  {
    var b := WhereClause(req);
    WhereChain(req);
    AppendUnconnected(b.frags, Tail(b.paramNum));
  }

  /** The placeholders: $1..$k for the k date filters, the actor's number
      twice, then LIMIT $n and OFFSET $n+1 — so the highest is Filters + 2. */
  lemma OldPlaceholders(req: FindFilmRequest)
    ensures Placeholders(GetFilmsQuery(req).frags) ==
            Range(DateFilters(req)) + ActorPlaceholders(req) + [Filters(req) + 1, Filters(req) + 2]
  {
    var b := WhereClause(req);
    WhereChain(req);
    WhereParams(req);
    PlaceholdersAppend(b.frags, Tail(b.paramNum));
  }

  lemma AppendFour(qp: seq<Param>, bp: seq<Param>, a: Param, b: Param, c: Param, d: Param)
    requires qp == bp + [a, b, c, d]
    ensures |qp| == |bp| + 4 && qp[|bp|] == a && qp[|bp| + 1] == b
  {
  }

  /** The parameters outnumber the highest placeholder by two, and LIMIT and
      OFFSET are bound to the rating bounds instead of the page size and page. */
  lemma OldParamsOutnumber(req: FindFilmRequest)
    ensures var q := GetFilmsQuery(req);
            var n := Filters(req) + 1;
            |q.params| == (n + 1) + 2 &&
            q.params[n - 1] == Rating(req.ratingFrom) && q.params[n] == Rating(req.ratingTo)
  {
    var b := WhereClause(req);
    WhereParams(req);
    AppendFour(GetFilmsQuery(req).params, b.params, Rating(req.ratingFrom), Rating(req.ratingTo), Num(req.page), Num(req.perPage));
  }

  /** No request gives a query whose placeholders and parameters agree. */
  lemma OldNeverAgrees(req: FindFilmRequest)
    ensures !Agrees(GetFilmsQuery(req))
  {
    OldPlaceholders(req);
    OldParamsOutnumber(req);
    var ps := Placeholders(GetFilmsQuery(req).frags);
    var k := DateFilters(req);
    if req.actor != "" {
      RepeatNotConsecutive(ps, k);
    } else {
      assert |ps| == k + 2;
    }
  }

  /** GetFilms: a failed query is wrapped as "find film err"; a successful
      one still returns no film list and no error. */
  function GetFilms(req: FindFilmRequest, link: Link): (out: (Query, Ret<Option<seq<FilmItem>>>))
    ensures out.0 == GetFilmsQuery(req)
    ensures out.1.val.None?
    ensures out.1.err.Some? <==> link.Down?
    ensures link.Down? ==> out.1.err == Some(Wrapped("find film err", LinkError(link)))
  {
    var q := GetFilmsQuery(req);
    if link.Down? then (q, Ret(None, Some(Wrapped("find film err", LinkError(link)))))
    else (q, Ret(None, None))
  }
}
