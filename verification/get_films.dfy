/** repository/psx/PsxRepo.go, GetFilms: the film search query with its
    optional filters, the mandatory rating range, the ORDER BY switch and
    OFFSET/LIMIT paging. */
module FilmQuery {
  import opened Common
  import opened Models
  import opened Sql
  import opened Clauses

  const SelectFilms: string :=
    "SELECT film.id ,film.title, film.rating, film.release_date, film.info FROM film " +
    "LEFT JOIN actor_in_film ON actor_in_film.id_film = film.id " +
    "LEFT JOIN actor ON actor_in_film.id_actor = actor.id "
  const GroupBy: string := "GROUP BY film.rating, film.id, film.title, film.release_date, film.info "

  /** The column a listing is sorted by: the requested one when it is one of
      the three sortable columns, the rating otherwise. */
  function SortColumn(order: string): string {
    if order in {"title", "release_date", "rating"} then order else "rating"
  }

  /** The `switch request.Order` clause. */
  function OrderBy(order: string): string {
    match order
    case "title" => "ORDER BY film.title DESC "
    case "release_date" => "ORDER BY film.release_date DESC "
    case "rating" => "ORDER BY film.rating DESC "
    case _ => "ORDER BY film.rating DESC "
  }

  /** The listing is sorted by the selected column, descending. */
  lemma OrderByColumn(order: string)
    ensures OrderBy(order) == "ORDER BY film." + SortColumn(order) + " DESC "
  {
    var head, tail := "ORDER BY film.", " DESC ";
    if order == "title" {
      assert head + "title" + tail == "ORDER BY film.title DESC ";
    } else if order == "release_date" {
      assert head + "release_date" + tail == "ORDER BY film.release_date DESC ";
    } else {
      assert head + "rating" + tail == "ORDER BY film.rating DESC ";
    }
  }

  /** The optional filters that are set: title, release date from, release date to. */
  function Filters(req: FindFilmRequest): nat {
    Count(req.title != "") + Count(req.releaseDateFrom != "") + Count(req.releaseDateTo != "")
  }

  /** The parameters the optional filters bind; the release-date-to filter
      binds its value only when `bindTo` holds. */
  function FilterParams(req: FindFilmRequest, bindTo: bool): (ps: seq<Param>)
    ensures |ps| + Count(req.releaseDateTo != "" && !bindTo) == Filters(req)
  {
    Bound(req.title != "", Some(Str(req.title))) +
    Bound(req.releaseDateFrom != "", Some(Str(req.releaseDateFrom))) +
    Bound(req.releaseDateTo != "", if bindTo then Some(Str(req.releaseDateTo)) else None)
  }

  /** The mandatory "rating >= $n AND rating <= $n+1" clause. */
  function RatingRange(b: Builder, from: real, to: real): (c: Builder)
    requires Chained(b) && Numbered(b)
    ensures Chained(c) && Numbered(c)
    ensures Connectors(c.frags) == Connectors(b.frags) + [if b.hasWhere then And else Where]
    ensures Placeholders(c.frags) == Placeholders(b.frags) + [b.paramNum, b.paramNum + 1]
    ensures c.paramNum == b.paramNum + 2
    ensures c.params == b.params + [Rating(from), Rating(to)]
  {
    var d := Connect(b);
    var low := Slot("rating >= ", d.paramNum);
    var high := Slot(" AND rating <= ", d.paramNum + 1);
    var clause := low + high + Text(" ");
    ConnectorsAppend(low, high);
    PlaceholdersAppend(low, high);
    ConnectorsAppend(low + high, Text(" "));
    PlaceholdersAppend(low + high, Text(" "));
    ConnectorsAppend(d.frags, clause);
    PlaceholdersAppend(d.frags, clause);
    ConsecutiveExtend(Placeholders(d.frags), d.paramNum);
    ConsecutiveExtend(Placeholders(d.frags) + [d.paramNum], d.paramNum + 1);
    assert Placeholders(d.frags + clause) == Placeholders(d.frags) + [d.paramNum] + [d.paramNum + 1];
    Builder(d.frags + clause, d.params + [Rating(from), Rating(to)], true, d.paramNum + 2)
  }

  /** The three optional filters in order, each written only when set. */
  function OptionalFilters(req: FindFilmRequest, bindTo: bool): (b: Builder)
    ensures Chained(b) && Numbered(b)
    ensures |Connectors(b.frags)| == Filters(req) && b.paramNum == Filters(req) + 1
    ensures b.params == FilterParams(req, bindTo)
  {
    var b0 := Start(SelectFilms);
    // The title comes first, so its unconditional "WHERE " is what Connect writes.
    var b1 := Optional(b0, req.title != "", "fts @@ to_tsquery(", ") ", Some(Str(req.title)));
    var b2 := Optional(b1, req.releaseDateFrom != "", "release_date >= ", " ", Some(Str(req.releaseDateFrom)));
    var b3 := Optional(b2, req.releaseDateTo != "", "release_date <= ", " ", if bindTo then Some(Str(req.releaseDateTo)) else None);
    ThreeBounds(b0.params, b1.params, b2.params, b3.params,
                Bound(req.title != "", Some(Str(req.title))),
                Bound(req.releaseDateFrom != "", Some(Str(req.releaseDateFrom))),
                Bound(req.releaseDateTo != "", if bindTo then Some(Str(req.releaseDateTo)) else None));
    b3
  }

  /** The WHERE part: the three optional filters in order, then the rating range. */
  function WhereClause(req: FindFilmRequest, bindTo: bool): (b: Builder)
    ensures Chained(b) && Numbered(b)
    ensures |Connectors(b.frags)| == Filters(req) + 1
    ensures b.paramNum == Filters(req) + 3
    ensures b.params == FilterParams(req, bindTo) + [Rating(req.ratingFrom), Rating(req.ratingTo)]
  {
    RatingRange(OptionalFilters(req, bindTo), req.ratingFrom, req.ratingTo)
  }

  /** The paging tail "OFFSET $n LIMIT $n+1". */
  function Paging(n: nat): (p: seq<Frag>)
    ensures |p| == 4 && Placeholders(p) == [n, n + 1] && Connectors(p) == []
  {
    PlaceholdersAppend(Slot("OFFSET ", n), Slot(" LIMIT ", n + 1));
    ConnectorsAppend(Slot("OFFSET ", n), Slot(" LIMIT ", n + 1));
    Slot("OFFSET ", n) + Slot(" LIMIT ", n + 1)
  }

  /** GROUP BY, the ORDER BY clause and the paging tail. */
  function Tail(order: string, n: nat): (t: seq<Frag>)
    ensures Placeholders(t) == [n, n + 1] && Connectors(t) == []
    ensures |t| == 6 && t[1] == Kw(OrderBy(order)) && t[2..] == Paging(n)
  {
    var head := Text(GroupBy) + Text(OrderBy(order));
    PlaceholdersAppend(Text(GroupBy), Text(OrderBy(order)));
    ConnectorsAppend(Text(GroupBy), Text(OrderBy(order)));
    PlaceholdersAppend(head, Paging(n));
    ConnectorsAppend(head, Paging(n));
    var t := head + Paging(n);
    assert t[2..] == Paging(n);
    t
  }

  /** The whole query; `bindTo` says whether the release-date-to filter binds
      its parameter. */
  function Assemble(req: FindFilmRequest, bindTo: bool): Query {
    var b := WhereClause(req, bindTo);
    Query(b.frags + Tail(req.order, b.paramNum), b.params + [Num(req.page), Num(req.perPage)])
  }

  /** The filters and the rating range are introduced by "WHERE " and then "AND "s. */
  lemma AssembleChain(req: FindFilmRequest, bindTo: bool)
    ensures Connectors(Assemble(req, bindTo).frags) == Chain(Filters(req) + 1)
  {
    var b := WhereClause(req, bindTo);
    AppendUnconnected(b.frags, Tail(req.order, b.paramNum));
  }

  lemma LastFour(a: seq<Frag>, t: seq<Frag>)
    requires |t| == 6
    ensures |a + t| >= 6 && (a + t)[|a + t| - 4..] == t[2..] && (a + t)[|a| + 1] == t[1]
  {
  }

  /** The placeholders run $1 .. $(filters + 4) in the order they are written. */
  lemma AssembleNumbering(req: FindFilmRequest, bindTo: bool)
    ensures var ps := Placeholders(Assemble(req, bindTo).frags);
            Consecutive(ps) && |ps| == Filters(req) + 4
  {
    var b := WhereClause(req, bindTo);
    AppendTwoNumbered(b.frags, Tail(req.order, b.paramNum), b.paramNum);
  }

  /** The query ends with OFFSET and LIMIT on the last two placeholders. */
  lemma AssemblePaging(req: FindFilmRequest, bindTo: bool)
    ensures var q := Assemble(req, bindTo);
            |q.frags| >= 6 && q.frags[|q.frags| - 4..] == Paging(Filters(req) + 3)
  {
    var b := WhereClause(req, bindTo);
    LastFour(b.frags, Tail(req.order, b.paramNum));
  }

  /** The ORDER BY clause is the one the requested order selects. */
  lemma AssembleOrder(req: FindFilmRequest, bindTo: bool)
    ensures Kw(OrderBy(req.order)) in Assemble(req, bindTo).frags
  {
    var b := WhereClause(req, bindTo);
    LastFour(b.frags, Tail(req.order, b.paramNum));
  }

  lemma IndexFour(qp: seq<Param>, fp: seq<Param>, a: Param, b: Param, c: Param, d: Param)
    requires qp == fp + [a, b, c, d]
    ensures |qp| == |fp| + 4 && qp[|fp|] == a && qp[|fp| + 1] == b && qp[|fp| + 2] == c && qp[|fp| + 3] == d
  {
  }

  lemma AppendTwo(qp: seq<Param>, bp: seq<Param>, fp: seq<Param>, a: Param, b: Param, c: Param, d: Param)
    requires qp == bp + [c, d] && bp == fp + [a, b]
    ensures qp == fp + [a, b, c, d]
  {
  }

  /** The parameters: the filters' values, the rating range, the page and the page size. */
  lemma AssembleParams(req: FindFilmRequest, bindTo: bool)
    ensures Assemble(req, bindTo).params ==
            FilterParams(req, bindTo) + [Rating(req.ratingFrom), Rating(req.ratingTo), Num(req.page), Num(req.perPage)]
  {
    var b := WhereClause(req, bindTo);
    AppendTwo(Assemble(req, bindTo).params, b.params, FilterParams(req, bindTo),
              Rating(req.ratingFrom), Rating(req.ratingTo), Num(req.page), Num(req.perPage));
  }

  /** GetFilms as written: the release-date-to filter writes its placeholder
      but appends no parameter. */
  function GetFilmsQuery(req: FindFilmRequest): (q: Query)
    ensures |q.params| + Count(req.releaseDateTo != "") == |Placeholders(q.frags)|
    ensures Agrees(q) <==> req.releaseDateTo == ""
  {
    AssembleNumbering(req, false);
    AssembleParams(req, false);
    Assemble(req, false)
  }

  /** GetFilms with the release-date-to value bound to its placeholder. */
  function GetFilmsQueryFixed(req: FindFilmRequest): (q: Query)
    ensures Agrees(q)
    ensures req.releaseDateTo == "" ==> q == GetFilmsQuery(req)
  {
    AssembleNumbering(req, true);
    AssembleParams(req, true);
    Assemble(req, true)
  }

  /** Every filter, the rating range included, is introduced by "WHERE " for
      the first and "AND " for the rest, so the query has exactly one WHERE;
      the actor filter is not used at all. */
  lemma {:induction false} GetFilmsOneWhere(req: FindFilmRequest, actor: string)
    ensures var cs := Connectors(GetFilmsQuery(req).frags);
            |cs| == Filters(req) + 1 &&
            forall i :: 0 <= i < |cs| ==> (cs[i] == Where <==> i == 0)
    ensures GetFilmsQuery(req.(actor := actor)) == GetFilmsQuery(req)
  {
    AssembleChain(req, false);
    ChainHasOneWhere(Filters(req) + 1);
    assert WhereClause(req.(actor := actor), false) == WhereClause(req, false);
  }

  /** In the corrected query OFFSET $n and LIMIT $n+1 take the page and the
      page size themselves ($i is bound to the i-th parameter). */
  lemma PagingBinds(req: FindFilmRequest)
    ensures var q := GetFilmsQueryFixed(req);
            var n := Filters(req) + 3;
            |q.params| == n + 1 && q.params[n - 1] == Num(req.page) && q.params[n] == Num(req.perPage)
  {
    AssembleParams(req, true);
    IndexFour(Assemble(req, true).params, FilterParams(req, true),
              Rating(req.ratingFrom), Rating(req.ratingTo), Num(req.page), Num(req.perPage));
  }

  /** As written, a release-date-to filter shifts every later binding by one:
      OFFSET $n takes the page size and LIMIT $n+1 has no parameter at all. */
  lemma ReleaseDateToShiftsParams(req: FindFilmRequest)
    requires req.releaseDateTo != ""
    ensures var q := GetFilmsQuery(req);
            var n := Filters(req) + 3;
            |q.params| == n && q.params[n - 1] == Num(req.perPage)
  {
    AssembleParams(req, false);
    IndexFour(Assemble(req, false).params, FilterParams(req, false),
              Rating(req.ratingFrom), Rating(req.ratingTo), Num(req.page), Num(req.perPage));
  }

  lemma FiveConsecutive(ps: seq<nat>)
    requires Consecutive(ps) && |ps| == 5
    ensures ps == [1, 2, 3, 4, 5]
  {
    ConsecutiveIndex(ps);
  }

  /** The input that shows the missing parameter: a listing filtered by
      release_date_to alone writes five placeholders but binds four
      parameters, so "release_date <= $1" is compared with the lower rating
      bound and LIMIT $5 has no value. */
  lemma ReleaseDateToUnbound(req: FindFilmRequest)
    requires req.title == "" && req.releaseDateFrom == "" && req.releaseDateTo != ""
    ensures Placeholders(GetFilmsQuery(req).frags) == [1, 2, 3, 4, 5]
    ensures GetFilmsQuery(req).params == [Rating(req.ratingFrom), Rating(req.ratingTo), Num(req.page), Num(req.perPage)]
  {
    assert Filters(req) == 1;
    assert FilterParams(req, false) == [];
    AssembleNumbering(req, false);
    AssembleParams(req, false);
    FiveConsecutive(Placeholders(GetFilmsQuery(req).frags));
  }

  /** The corrected query binds the release-date-to value to $1. */
  lemma ReleaseDateToBound(req: FindFilmRequest)
    requires req.title == "" && req.releaseDateFrom == "" && req.releaseDateTo != ""
    ensures GetFilmsQueryFixed(req).params[0] == Str(req.releaseDateTo)
  {
    assert FilterParams(req, true) == [Str(req.releaseDateTo)];
    AssembleParams(req, true);
  }
}
