# filmoteka in Dafny

A Dafny model of the core of filmoteka, a Go film-library service. It covers two families of
sequential logic.

- **Session and authentication flow.**
  - The Redis session store (`AuthRepo`): sid → login with a 24-hour TTL.
  - The two session managers: `Sessions` for usecase/sessions and `Core` for the older usecase/core.go.
  - The token generator and the password hash (`Utils`).
  - The credential usecase (`Profiles`) and the profile queries of the PostgreSQL repository (`ProfileStore`).
  - The `AuthCheck` middleware (`Middleware`).
  - The status decisions of the authentication handlers and the page parameters (`Api`). A status is the `status` field of the JSON reply that SendResponse writes; no handler sets the HTTP status line, which stays 200.
- **Query assembly and relation bookkeeping in the repositories.**
  - SQL is modelled as a sequence of fragments plus the parameter list handed to the driver (`Sql`); the SQL is never interpreted.
  - The film search of both repository snapshots (`Clauses`, `FilmQuery`, `FilmQueryOld`).
  - The UPDATE and INSERT builders (`UpdateQuery`).
  - The `actor_in_film` reconciliation, as a set of (film, actor) pairs (`Relations`).
  - The row fold of `FindActors` (`FindActors`).
  - `AddFilm`'s validation order (`Films`).

The outside world becomes parameters:

- Redis and PostgreSQL are abstract states: a map with its own clock, a sequence of profile rows, a set of pairs.
- Whether a call reaches its store is a `Link` (`Up`, or `Down` with a reason).
- The clock is a `now` parameter.
- The random source is a nondeterministic choice.
- SHA-512 is a function passed in.
- Request decoding is a function that answers `None` for a body that does not parse.

Collaborator interfaces are records of functions (`Repos.SessionRepo`, `Repos.ProfileRepo`,
`Api.Core`, `Films.FilmRepo`). Each usecase is a pure function over such a record, and
composition lemmas plug in the concrete store models.

Each source file is modelled against its own signatures, because the snapshots do not fit
together. For example, `Core.CreateSessionWith` returns a sid, a session and an error. The
handlers instead use the two-result `CreateSession` of usecase/sessions.

## Model

| member | source | states |
|---|---|---|
| Utils.AlphabetIsAsciiLetters | pkg/utils.go:8 | The token alphabet has 52 pairwise distinct symbols, and a character is in it exactly when it is an ASCII letter a–z or A–Z. |
| Utils.RandStringRunes | pkg/utils.go:16-22 | Whatever indices the random source picks, the result has exactly n characters and each is an ASCII letter. |
| Utils.HashPassword | pkg/utils.go:10-14 | The stored hash is always 64 bytes, the SHA-512 digest length (section 6.4 of FIPS 180-4). |
| Decimal.Itoa | repository/psx/PsxRepo.go:79 | strconv.Itoa writes a non-empty string of decimal digits. |
| Decimal.ItoaValue | repository/psx/PsxRepo.go:79 | Reading the digits Itoa writes gives back the number. |
| Decimal.Scan | delivery/http/api.go:263 | From any position, the digit loop succeeds exactly when the whole string is digits with a value that fits in 64 bits, and then yields that value. |
| Decimal.ParseUint | delivery/http/api.go:263 | ParseUint(s, 10, 64) succeeds exactly for a non-empty all-digit string whose value is at most 2^64-1, and yields that value. |
| Decimal.ParseItoa | delivery/http/api.go:263-271 | ParseUint undoes Itoa on every 64-bit value. |
| Sql.RepeatNotConsecutive | repository/psx_repo/PsxRepo.go:111-112 | Writing one placeholder number twice can never give the consecutive numbering $1..$k. |
| Sql.PlaceholderText | repository/psx/PsxRepo.go:79 | A written placeholder is "$" followed by text that parses back to its number. |
| Clauses.Start | repository/psx/PsxRepo.go:66-74 | The builder starts with no connector, no placeholder, no parameter and paramNum 1. |
| Clauses.ChainHasOneWhere | repository/psx/PsxRepo.go:76-110 | In a chain of filters exactly the first connector is WHERE; every later one is AND. |
| Clauses.Connect | repository/psx/PsxRepo.go:84-89 | The first filter gets WHERE and sets hasWhere; later filters get AND; placeholders and parameters are untouched. |
| Clauses.Filter | repository/psx/PsxRepo.go:83-93 | A filter adds one connector and the placeholder $paramNum, increments paramNum, and binds its value when it has one. |
| Clauses.Optional | repository/psx/PsxRepo.go:76-103 | A filter whose value is empty writes nothing; one that is set adds one connector and one placeholder, keeping the numbering consecutive. |
| FilmQuery.OrderBy | repository/psx/PsxRepo.go:116-125 | The `switch request.Order` clause; FilmQuery.OrderByColumn states that it sorts descending by the requested column, or by rating for any other value. |
| FilmQuery.OrderByColumn | repository/psx/PsxRepo.go:116-125 | The listing is sorted DESC by title or release_date when that is the requested order, and by rating for any other value. |
| FilmQuery.FilterParams | repository/psx/PsxRepo.go:76-103 | Every set filter binds one parameter, except the release-date-to filter when it is not bound. |
| FilmQuery.RatingRange | repository/psx/PsxRepo.go:105-112 | The mandatory rating range adds one connector, two consecutive placeholders and the two rating bounds. |
| FilmQuery.OptionalFilters | repository/psx/PsxRepo.go:76-103 | Title, release-date-from and release-date-to, in that order, add one connector and one placeholder each when set, keeping the chain and the numbering; their bound values are FilterParams. |
| FilmQuery.WhereClause | repository/psx/PsxRepo.go:76-112 | The filter part is WHERE/AND-chained with consecutive numbering: one connector per set filter plus the range, and the parameters are the filter values followed by the bounds. |
| FilmQuery.Paging | repository/psx/PsxRepo.go:127-128 | The paging tail holds exactly the placeholders $n and $n+1 and no connector. |
| FilmQuery.Tail | repository/psx/PsxRepo.go:114-128 | After GROUP BY come the selected ORDER BY clause and the paging tail. |
| FilmQuery.Assemble | repository/psx/PsxRepo.go:67-128 | The whole query with the release-date-to binding as a switch; AssembleChain, AssembleNumbering, AssemblePaging, AssembleOrder and AssembleParams state its shape. |
| FilmQuery.AssembleChain | repository/psx/PsxRepo.go:76-112 | The query's connectors are WHERE and then one AND per later filter, the rating range included. |
| FilmQuery.AssembleNumbering | repository/psx/PsxRepo.go:79-128 | The placeholders run $1..$(filters+4), each once, in the order written. |
| FilmQuery.AssemblePaging | repository/psx/PsxRepo.go:127-128 | The query ends with OFFSET and LIMIT on the last two placeholders. |
| FilmQuery.AssembleOrder | repository/psx/PsxRepo.go:116-125 | The query contains the ORDER BY clause the requested order selects. |
| FilmQuery.AssembleParams | repository/psx/PsxRepo.go:76-128 | The parameters are the filter values, the two rating bounds, the page and the page size, in that order. |
| FilmQuery.GetFilmsQuery | repository/psx/PsxRepo.go:65-128 | As written, there is one parameter fewer than placeholders exactly when release-date-to is set, and the query is well formed exactly when it is not. |
| FilmQuery.GetFilmsQueryFixed | repository/psx/PsxRepo.go:94-103 | With the release-date-to value bound, placeholders and parameters always agree; without that filter the query is unchanged. |
| FilmQuery.GetFilmsOneWhere | repository/psx/PsxRepo.go:76-110 | The query holds exactly one WHERE, at the first connector, and the actor field of the request is ignored. |
| FilmQuery.PagingBinds | repository/psx/PsxRepo.go:127-128 | In the corrected query, OFFSET reads the page itself and LIMIT reads the page size. |
| FilmQuery.ReleaseDateToShiftsParams | repository/psx/PsxRepo.go:94-128 | As written, a release-date-to filter shifts every later binding by one: OFFSET reads the page size and LIMIT has no parameter. |
| FilmQuery.ReleaseDateToUnbound | repository/psx/PsxRepo.go:94-103 | With only release-date-to set, five placeholders face four parameters, and $1 reads the rating lower bound instead of the date. |
| FilmQuery.ReleaseDateToBound | repository/psx/PsxRepo.go:94-103 | In the corrected query the release-date-to value is what $1 reads. |
| FilmQueryOld.DateParams | repository/psx_repo/PsxRepo.go:76-104 | Title, release-date-from and release-date-to each bind one parameter when set. |
| FilmQueryOld.DateClause | repository/psx_repo/PsxRepo.go:76-104 | The three filters chain with WHERE then AND, each consuming one placeholder and one parameter. |
| FilmQueryOld.ActorClause | repository/psx_repo/PsxRepo.go:105-115 | The actor filter writes the same placeholder number twice but binds one parameter. |
| FilmQueryOld.WhereClause | repository/psx_repo/PsxRepo.go:76-115 | The date clause, then the actor filter when one is set; WhereChain and WhereParams state its connectors, placeholders and parameters. |
| FilmQueryOld.WhereChain | repository/psx_repo/PsxRepo.go:76-115 | The filters are WHERE/AND-chained, one connector per set filter; the date filters take $1..$k and the actor filter repeats $(k+1). |
| FilmQueryOld.WhereParams | repository/psx_repo/PsxRepo.go:76-115 | Every set filter binds exactly one value, in filter order, and the next number is one past the filters. |
| FilmQueryOld.Tail | repository/psx_repo/PsxRepo.go:116-117 | LIMIT and OFFSET take the placeholders $n and $n+1. |
| FilmQueryOld.GetFilmsQuery | repository/psx_repo/PsxRepo.go:65-118 | The older snapshot's query and its values; OldChain, OldPlaceholders, OldParamsOutnumber and OldNeverAgrees state its shape and its mismatch. |
| FilmQueryOld.OldChain | repository/psx_repo/PsxRepo.go:76-115 | The query's connectors are WHERE followed by ANDs, one per set filter. |
| FilmQueryOld.OldPlaceholders | repository/psx_repo/PsxRepo.go:79-117 | The placeholders are $1..$k, the actor's number twice when set, then LIMIT and OFFSET. |
| FilmQueryOld.OldParamsOutnumber | repository/psx_repo/PsxRepo.go:116-118 | Four values are appended for two placeholders, so the parameters outnumber the highest placeholder by two, and LIMIT and OFFSET read the rating bounds instead of the page size and page. |
| FilmQueryOld.OldNeverAgrees | repository/psx_repo/PsxRepo.go:105-118 | No request yields a query whose placeholders and parameters agree. |
| FilmQueryOld.GetFilms | repository/psx_repo/PsxRepo.go:119-130 | A failed query is wrapped as "find film err"; on success the film list is nil with a nil error. |
| UpdateQuery.Present | repository/psx/PsxRepo.go:357-399 | The SET list keeps only the fields that are set, and no more fields than were offered. |
| UpdateQuery.Build | repository/psx/PsxRepo.go:357-399 | count equals the number of set fields, haveEq holds exactly when one was written, and one parameter is bound per set field. |
| UpdateQuery.BuildParams | repository/psx/PsxRepo.go:357-399 | The bound parameters are the values of the set fields, in field order. |
| UpdateQuery.BuildNumbering | repository/psx/PsxRepo.go:357-399 | The SET placeholders are $1..$count in order, and there is no WHERE/AND connector. |
| UpdateQuery.BuildRenders | repository/psx/PsxRepo.go:357-399 | The SET text is the set fields' "column = $i" assignments joined by single commas. |
| UpdateQuery.UpdateStatement | repository/psx/PsxRepo.go:401-407 | With no field set the statement is rejected with "not have params"; otherwise the id is bound after the field values. |
| UpdateQuery.StatementBinds | repository/psx/PsxRepo.go:401-403 | A statement that runs numbers its placeholders $1..$count consecutively, and the last one reads the row id. |
| UpdateQuery.StatementText | repository/psx/PsxRepo.go:356-403 | The statement text is the head, the comma-joined assignments, then " WHERE <table>.id = $count". |
| UpdateQuery.FilmFields | repository/psx/PsxRepo.go:357-399 | Title, info, release date and rating, in that order, each unset exactly when empty or zero. |
| UpdateQuery.ActorFields | repository/psx/PsxRepo.go:505-536 | Name, birthday and gender, in that order, each unset exactly when empty. |
| UpdateQuery.NothingPresent | repository/psx/PsxRepo.go:405-407 | The SET list is empty exactly when no field carries a value. |
| UpdateQuery.UpdateFilmQuery | repository/psx/PsxRepo.go:346-407 | Id 0 gives "film id missing"; otherwise the statement over the film's fields, and the id is its last parameter. |
| UpdateQuery.UpdateActorQuery | repository/psx/PsxRepo.go:494-544 | Id 0 gives "actor id missing"; otherwise the statement over the actor's fields, and the id is its last parameter. |
| UpdateQuery.TitleAndRatingList | repository/psx/PsxRepo.go:357-399 | With only title and rating set, the SET list is "title = $1, rating = $2" binding those two values. |
| UpdateQuery.TitleAndRatingUpdate | repository/psx/PsxRepo.go:346-407 | Such a film update runs with parameters title, rating, id. |
| UpdateQuery.Tuple | repository/psx/PsxRepo.go:607 | The tuple of actor i holds $1 and then $(i+2). |
| UpdateQuery.TuplePlaceholders | repository/psx/PsxRepo.go:603-609 | Across n tuples, tuple i holds $1 and then $(i+2). |
| UpdateQuery.TuplesRender | repository/psx/PsxRepo.go:603-609 | The VALUES text is the tuples "($1, $(i+2))" joined by commas. |
| UpdateQuery.AddActorsQuery | repository/psx/PsxRepo.go:598-609 | The parameters are the film id followed by the actor ids in list order. |
| UpdateQuery.AddActorsPairs | repository/psx/PsxRepo.go:598-609 | Read against its parameters, tuple i pairs the film id with the i-th listed actor. |
| UpdateQuery.AddActorsText | repository/psx/PsxRepo.go:602-609 | The statement is the INSERT head followed by one tuple per actor, comma-separated. |
| UpdateQuery.TwoActorsText | repository/psx/PsxRepo.go:602-609 | Two actors give "VALUES($1, $2),($1, $3)". |
| UpdateQuery.AddActorsForFilm | repository/psx/PsxRepo.go:593-616 | An empty list returns nil with no query; otherwise the INSERT runs, and only an error that comes with a result is reported, wrapped as "add film actors error". |
| Relations.GetRelationByFilmId | repository/psx/PsxRepo.go:286-305 | Over a working link the rows are exactly the film's linked actors; a failed query is an error. |
| Relations.GetRelationByActorId | repository/psx/PsxRepo.go:307-326 | Over a working link the rows are exactly the actor's linked films; a failed query is an error. |
| Relations.DeleteRelation | repository/psx/PsxRepo.go:328-335 | DeleteRelation(filmId, actorId) removes exactly the pair (filmId, actorId); a failure is "sql delete relation error" with the relation unchanged. |
| Relations.InsertRelation | repository/psx/PsxRepo.go:337-344 | Success adds exactly the pair; an error with a result is wrapped, an error without one is returned raw, and either way nothing is inserted. |
| Relations.FilmPass | repository/psx/PsxRepo.go:414-451 | One pass of UpdateFilm's loop, with the delete as written or corrected; FilmPassSets, FilmPassIdempotent and FilmPassAsWrittenKeepsStale state what it does. |
| Relations.FilmPassSets | repository/psx/PsxRepo.go:420-450 | With the delete's arguments in order, one pass links the film to exactly the listed actors and leaves every other film's pairs alone. |
| Relations.FilmPassIdempotent | repository/psx/PsxRepo.go:414-451 | A second corrected pass changes nothing. |
| Relations.FilmPassAsWrittenKeepsStale | repository/psx/PsxRepo.go:420-434 | As written, no stale actor of the film is unlinked (except one whose id equals the film's), while every listed actor is linked. |
| Relations.FilmPassAsWrittenCounterexample | repository/psx/PsxRepo.go:429 | Film 1 linked to actor 2 and film 2 linked to actor 1, updated to list [3]: as written, actor 2 stays and film 2's link is deleted; in order, the result is {(2,1), (1,3)}. |
| Relations.ActorPass | repository/psx/PsxRepo.go:551-588 | One pass of UpdateActor's loop; ActorPassSets and ActorPassIdempotent state what it does. |
| Relations.ActorPassSets | repository/psx/PsxRepo.go:557-587 | One pass links the actor to exactly the listed films and leaves every other actor's pairs alone. |
| Relations.ActorPassIdempotent | repository/psx/PsxRepo.go:551-588 | A second actor pass changes nothing. |
| Relations.SyncFilm | repository/psx/PsxRepo.go:414-451 | An empty list touches nothing; the loop fails exactly when it runs over a broken link, and a failure leaves the relation unchanged. |
| Relations.SyncActor | repository/psx/PsxRepo.go:551-588 | The same for an actor's films. |
| Relations.SyncFilmIsOnePass | repository/psx/PsxRepo.go:414-451 | Repeating the corrected pass once per listed actor does what one pass does. |
| Relations.SyncActorIsOnePass | repository/psx/PsxRepo.go:551-588 | Repeating the actor pass once per listed film does what one pass does. |
| Relations.UpdateFilmWith | repository/psx/PsxRepo.go:346-454 | A rejected statement returns its error untouched; a failed UPDATE is "update film error" with nothing changed; an empty actor list leaves the relation alone; success requires every step to succeed. |
| Relations.UpdateFilm | repository/psx/PsxRepo.go:346-454 | UpdateFilm as written, with the swapped delete: it succeeds exactly when the statement is accepted and both links are up. |
| Relations.UpdateFilmFixed | repository/psx/PsxRepo.go:414-451 | The same success condition with the delete's arguments in order. |
| Relations.UpdateFilmFixedLinks | repository/psx/PsxRepo.go:414-451 | A successful corrected update links the film to exactly the listed actors and leaves other films alone. |
| Relations.UpdateActor | repository/psx/PsxRepo.go:494-591 | A rejected statement returns its error; a failed UPDATE is "update actor error" with nothing changed; an empty film list leaves the relation alone; success requires every step to succeed. |
| Relations.UpdateActorLinks | repository/psx/PsxRepo.go:551-588 | A successful update links the actor to exactly the listed films and leaves other actors alone. |
| FindActors.Group | repository/psx/PsxRepo.go:223-255 | The row loop: a scan error on a row with a film stops it with that error; otherwise a row opens its actor's entry from its own columns, or extends the entry, and appends its film. What the fold yields is stated by GroupFails, GroupKeys, GroupFilms, GroupKeepsFirstRow and GroupFirstRows. |
| FindActors.GroupFails | repository/psx/PsxRepo.go:223-233 | The fold stops exactly when some row whose film.id scanned as valid has a scan error; other scan errors are ignored. rows.Scan stops at the first column it cannot convert, so a NULL gen or birthdate leaves film.id invalid: that error is ignored and the row's film dropped. |
| FindActors.GroupKeys | repository/psx/PsxRepo.go:223-244 | A successful fold has exactly one entry per actor id in the rows, keyed by that id. |
| FindActors.GroupFilms | repository/psx/PsxRepo.go:245-254 | Each entry's films are exactly that actor's rows with a film, in row order. |
| FindActors.GroupSound | repository/psx/PsxRepo.go:223-255 | Every successful fold is grouped: the right keys, the right ids, each entry's name, gender and birthday from its actor's first row, and the right films. |
| FindActors.GroupKeepsFirstRow | repository/psx/PsxRepo.go:235-244 | Each entry keeps the name, gender and birthday of its actor's first row. |
| FindActors.GroupFirstRows | repository/psx/PsxRepo.go:235-244 | Every entry of a successful fold carries the name, gender and birthday of its actor's first row. |
| FindActors.ListEntries | repository/psx/PsxRepo.go:257-260 | The listing holds every map entry exactly once, in some order. |
| FindActors.FindActors | repository/psx/PsxRepo.go:200-262 | A failed query is "sql query error"; a fatal scan error returns no actors; otherwise one actor per distinct id, each with the name, gender and birthday of that actor's first row and exactly its films in row order. |
| AuthRepo.CheckActiveSession | repository/auth_repo/auth_repo.go:45-58 | As written, never true: a missing key and a present key both give (false, nil), and a transport error gives (false, err). |
| AuthRepo.CheckIgnoresPresence | repository/auth_repo/auth_repo.go:45-58 | As written, the answer is the same as for a store that holds no sessions at all. |
| AuthRepo.CheckActiveSessionFixed | repository/auth_repo/auth_repo.go:45-58 | The corrected check is true exactly for a live key over a working link. |
| AuthRepo.AddSession | repository/auth_repo/auth_repo.go:33-43 | SET writes sid → login with a 24-hour TTL, and a failed write is ignored; the result is exactly CheckActiveSession's answer for the same sid, so it is never true. |
| AuthRepo.AddSessionFixed | repository/auth_repo/auth_repo.go:33-43 | The same write, answered by the corrected check. |
| AuthRepo.GetUserLogin | repository/auth_repo/auth_repo.go:60-68 | The stored login for a live key; otherwise ("", err), where a missing key is redis.Nil. |
| AuthRepo.DeleteSession | repository/auth_repo/auth_repo.go:70-78 | Whenever the call goes through the key is gone and the answer is (true, nil), present or not; a transport error gives (false, err). |
| AuthRepo.AddThenGetLogin | repository/auth_repo/auth_repo.go:33-68 | A stored session reads back as its login. |
| AuthRepo.FixedAddReportsAdded | repository/auth_repo/auth_repo.go:33-58 | With the corrected check, a written session is reported as added and active. |
| AuthRepo.AddSessionMissesStoredSession | repository/auth_repo/auth_repo.go:33-58 | On a concrete empty store the session is written, yet AddSession reports it as not added. |
| AuthRepo.DeleteIdempotent | repository/auth_repo/auth_repo.go:70-78 | A second delete succeeds and changes nothing. |
| AuthRepo.DeletedSessionIsGone | repository/auth_repo/auth_repo.go:60-78 | After a delete, the sid resolves to no login and is not active. |
| AuthRepo.ExpiredLikeNeverIssued | repository/auth_repo/auth_repo.go:35 | Once the 24-hour TTL has passed, a session answers GET exactly as if it had never been issued. |
| Sessions.GetUserId | usecase/sessions/sessions.go:28-43 | The id of the session's login; a failure at either lookup gives (0, err), and a failed session lookup is reported as such. |
| Sessions.GetUserIdSkipsProfileLookup | usecase/sessions/sessions.go:28-35 | When the session lookup fails, the profile repository makes no difference to the result. |
| Sessions.GetUserIdOverStores | usecase/sessions/sessions.go:28-43 | Over the two stores, an id resolves exactly when the session is live and its login has a profile row. |
| Sessions.GetUserName | usecase/sessions/sessions.go:45-54 | The stored login, or ("", err). |
| Sessions.CreateSessionWith | usecase/sessions/sessions.go:56-76 | Not added with an error gives (zero, err); not added without one gives (zero, nil); added gives the new session with the login and now + 24h. |
| Sessions.CreateSession | usecase/sessions/sessions.go:56-76 | The sid is 32 letters, and the result is the zero session or a new session under that sid. |
| Sessions.CreateSessionNeverSucceeds | usecase/sessions/sessions.go:65-73 | Over the store as written, the result is always the zero session. |
| Sessions.CreateSessionWithFixedStore | usecase/sessions/sessions.go:56-76 | Over the corrected store the new session comes back, and its sid then resolves to the login. |
| Sessions.FindActiveSession | usecase/sessions/sessions.go:78-87 | The store's flag when there is no error; otherwise (false, err). |
| Sessions.FindActiveSessionOverStore | usecase/sessions/sessions.go:78-87 | As written no session is ever active; with the corrected check exactly the live ones are. |
| Sessions.KillSession | usecase/sessions/sessions.go:89-98 | nil exactly when the delete reports no error; the deleted flag is ignored and an error is wrapped. |
| Sessions.KillSessionIdempotent | usecase/sessions/sessions.go:89-98 | Over a reachable store, killing any sid succeeds, and it succeeds again afterwards. |
| Core.GetUserName | usecase/core.go:56-66 | The stored login, or ("", err) with the store's error. |
| Core.CreateSessionWith | usecase/core.go:68-90 | A non-empty sid comes back only when AddSession reports added, and then it is the session's sid with the given login; otherwise ("", zero, err or nil). |
| Core.CreateSession | usecase/core.go:68-90 | The drawn sid has 32 letters, and the result is either empty or a session under that sid expiring at now + 24h. |
| Core.CreateSessionNeverSucceeds | usecase/core.go:81-87 | Over the store as written, the sid returned is always empty. |
| Core.FindActiveSession | usecase/core.go:92-102 | The store's error, and true only when there is no error and the store says true. |
| Core.KillSession | usecase/core.go:104-114 | The store's error, or nil. |
| Core.KillSessionIgnoresDeletedFlag | usecase/core.go:104-114 | Two stores whose deletes report the same error get the same answer, whatever their deleted flags say. |
| Profiles.CreateUserAccount | usecase/profiles/profiles.go:27-36 | The store receives the password's hash; its failure comes back wrapped. |
| Profiles.FindUserAccount | usecase/profiles/profiles.go:38-46 | The store is queried with the password's hash; found and user pass through, and an error gives (nil, false, err). |
| Profiles.OnlyDigestReachesStore | usecase/profiles/profiles.go:27-46 | Two passwords with the same digest are indistinguishable to both operations, so only the digest reaches the store. |
| Profiles.SignupThenSignin | usecase/profiles/profiles.go:27-46 | An account created with a password is then found with that password. |
| Profiles.WrongPasswordNotDistinguished | usecase/profiles/profiles.go:38-46 | A wrong password gives the same answer as an unknown login. |
| Profiles.FindUserByLogin | usecase/profiles/profiles.go:48-56 | The store's found flag, or (false, err). |
| Profiles.GetRole | usecase/profiles/profiles.go:58-66 | The store's role, or ("", err). |
| ProfileStore.FirstWhere | repository/psx/PsxRepo.go:620-622 | The row QueryRow scans is the first one matching the condition. |
| ProfileStore.GetUser | repository/psx/PsxRepo.go:618-631 | A row with that login and digest is found; no row gives (nil, false, nil) rather than an error. |
| ProfileStore.WrongPasswordLikeUnknownLogin | repository/psx/PsxRepo.go:618-631 | A wrong password and an unknown login give the same (nil, false, nil). |
| ProfileStore.FindUser | repository/psx/PsxRepo.go:633-647 | True exactly when a row has the login; no row is (false, nil). |
| ProfileStore.CreateUser | repository/psx/PsxRepo.go:649-657 | Adds one profile with role "user" and the given digest; a failure leaves the table unchanged. |
| ProfileStore.CreateThenGetUser | repository/psx/PsxRepo.go:618-657 | A created profile is then found by its login and digest. |
| ProfileStore.GetUserId | repository/psx/PsxRepo.go:659-672 | The id of a row with the login; unlike GetUser, no row is an error. |
| ProfileStore.GetRole | repository/psx/PsxRepo.go:674-683 | The role of the row with the id; any failure, no row included, gives ("", err). |
| Middleware.AuthCheck | pkg/middleware/middleware.go:20-48 | Each request gets exactly one of 401 or next with the request unchanged; next happens exactly when a cookie is present and the lookup either fails or answers true. The status is the `status` field of the JSON reply; the HTTP status line stays 200. |
| Middleware.FailOpen | pkg/middleware/middleware.go:29-34 | A lookup error lets the request through, whatever the flag says. |
| Middleware.PassesOnlyOnStoreFailure | pkg/middleware/middleware.go:20-48 | Over the store as written, a request gets through only when the store cannot be reached. |
| Api.UsecaseCore | usecase/sessions/sessions.go:45-87 | The handlers' core answers session lookups, session creation and user-name lookups exactly as usecase/sessions does, with this request's sid and clock. |
| Api.Signin | delivery/http/api.go:57-123 | A method other than POST gives 405 with no lookups. An authorized session gives 200 without creating one. A cookie is set only on the create-session path, as session_id with the sid, path "/", HttpOnly and the expiry. The status is the `status` field of the JSON reply; the HTTP status line stays 200. |
| Api.SigninFailures | delivery/http/api.go:80-110 | Without a valid session: an unreadable or non-JSON body gives 400, a lookup error 500, and an unknown account 401; none sets a cookie. |
| Api.SigninCookieEmptyOverStore | delivery/http/api.go:112-120 | Over the store as written, a successful sign-in sets a session_id cookie with an empty value. |
| Api.Signup | delivery/http/api.go:125-174 | A method other than POST gives 405; 200 only after CreateUserAccount succeeds; CreateUserAccount is called only for a free login; no cookie or body is sent. The status is the `status` field of the JSON reply; the HTTP status line stays 200. |
| Api.SignupDecisions | delivery/http/api.go:144-171 | A decode error gives 500, a taken login 409 without creating an account, and a failed create 400. |
| Api.Logout | delivery/http/api.go:504-529 | A method other than DELETE gives 405, no cookie 400, a failed KillSession 500, otherwise 200; a cookie is never set. The status is the `status` field of the JSON reply; the HTTP status line stays 200. |
| Api.AuthAccept | delivery/http/api.go:531-566 | A method other than GET gives 405, not authorized 401, a failed login lookup 500; otherwise 200 with the login and the role "hui". The status is the `status` field of the JSON reply; the HTTP status line stays 200. |
| Api.AuthAcceptRejectsOverStore | delivery/http/api.go:541-550 | Over the store as written, every GET to /authcheck is answered 401. |
| Api.Paging | delivery/http/api.go:311-319 | page and page size are the parsed values; an unparsable page is 0 and an unparsable page size is 8. |
| Api.PagingRoundTrip | delivery/http/api.go:311-319 | A client that writes both numbers gets them back. |
| Api.FindActorsIgnoresPerPage | delivery/http/api.go:419-427 | The actor listing reads per_size, so a per_page it is sent is replaced by the default 8, while the film listing honours it. |
| Films.AddFilm | usecase/films/films.go:34-63 | Checks run in the order rating, title, info, and a failure returns (0, err) with no repository call. Then the insert ("add film error"), then the actor links ("AddActorsForFilm error"). Success returns the inserted id. |
| Films.ChecksBeforeRepository | usecase/films/films.go:34-62 | The repository is reached only by a film that passed every check, and the only calls are the insert of that film and the link of the id the insert returned. |
| Films.NoRollback | usecase/films/films.go:50-60 | A failed link after a successful insert returns (0, err), the insert stays in the trace, and the trace ends with the link: nothing undoes the insert. |
| Films.PsxAddFilm | repository/psx/PsxRepo.go:475-483 | The insert returns the new id, or "insert film err" when the query fails. |
| Films.PsxFilmRepo | repository/psx/PsxRepo.go:475-483 | The PostgreSQL film repository: PsxAddFilm for the insert and UpdateQuery.AddActorsForFilm for the links; PsxAddFilmSwallowsLinkFailure and PsxAddFilmReportsLinkFailure state what AddFilm does over it. |
| Films.PsxAddFilmSwallowsLinkFailure | usecase/films/films.go:56-62 | Over the PostgreSQL repository, a film with no actors, or whose link statement failed without a result, is reported as added under its new id. |
| Films.PsxAddFilmReportsLinkFailure | usecase/films/films.go:56-60 | A link statement that fails with a result makes AddFilm return (0, err) after the film was inserted, with no rollback. |

## Left out

- Connection setup, ping retries, the goroutine and channel that open the stores, and the mutex in usecase/core.go: I/O and concurrency with no sequential meaning.
- SQL execution: full-text search, joins and column scanning. Queries are fragment sequences, and results enter as abstract rows, sets of pairs or profile rows.
- JSON encoding and decoding, response writing, routing and cookie parsing: decoding is a function returning `Option`; only status decisions, calls and the cookie set are kept.
- Float handling: ratings are `real`, float32 rounding is not modelled, and the rating-parameter parsing of the film listing is left out.
- The validation helpers and the rating bounds that `AddFilm` uses are not part of this model: they are parameters (`Films.Checks`).
- SHA-512 internals and the `math/rand` source: the hash is a function parameter with 64-byte digests, and randomness is a nondeterministic choice.
- The film and actor handlers other than paging, and the repository's DeleteFilm, AddActor, DeleteActor, SearchFilms and film-by-actor lookups: outside the modelled core. usecase/actors is a pass-through.
- Relations.SyncFilm: one `Link` decides all of an update's relation calls, so a delete or insert that fails halfway through a pass is not modelled.
- Relations.SyncActor: the same single-link simplification.
- Relations.GetRelationByFilmId: the per-row scan error ("sql scan actors in films error") is not modelled; the rows are exact.
- Relations.GetRelationByActorId: the same per-row scan error is not modelled.
- Relations.FilmPass: the relation is a set, so a duplicated actor_in_film row is not modelled. Nor is the repeated insert a duplicated id in the request list would cause.
- FilmQuery.GetFilmsQuery: the result slice is made with capacity per_page (repository/psx/PsxRepo.go:66); a per_page beyond Go's allocation limit (above about 2^42) makes `make` panic with "makeslice: cap out of range" before any SQL is built. The model has no allocation, so it builds the query for every per_page.
- The HTTP status line: SendResponse (pkg/response/response.go:10-24) marshals the reply, `status` included, into a body written without WriteHeader, so every modelled reply goes out as HTTP 200; the modelled status is the JSON field. The 500 it writes when marshalling fails cannot arise for the modelled bodies and is not modelled.
- FindActors.ListEntries: Go's map iteration order is unspecified, so the listing promises only that every entry appears exactly once, in some order.
- AuthRepo.AddSession: the TTL is enforced by comparing the store's clock with the expiry; Redis's eviction timing is not modelled.
- Sessions.CreateSession: the random draw is a nondeterministic choice, so the method also returns the drawn sid, and its contract ties the result to it.
- Core.CreateSession: the drawn sid is returned the same way as in Sessions.CreateSession.

## Findings

| source | as written | input that shows it | evidently intended | confidence | as-written member | corrected member |
|---|---|---|---|---|---|---|
| repository/auth_repo/auth_repo.go:57 | CheckActiveSession returns (false, nil) after a successful GET, so it never reports a session active. AddSession, CreateSession, the middleware and /authcheck inherit this. | An empty store; AddSession of sid "sid" for "alice", both calls reaching Redis: the key is stored, yet the answer is (false, nil). | true for a present, unexpired key | not executed | AuthRepo.AddSessionMissesStoredSession | AuthRepo.FixedAddReportsAdded |
| repository/psx/PsxRepo.go:94-103 | The release-date-to filter writes its placeholder but appends no parameter, so every later placeholder reads the value meant for the one before it. | Only release_date_to set: placeholders $1..$5 face four parameters, and $1 reads rating_from. | append the release-date-to value, as the other filters do | not executed | FilmQuery.ReleaseDateToUnbound | FilmQuery.ReleaseDateToBound |
| repository/psx/PsxRepo.go:429 | UpdateFilm calls DeleteRelation(existingActorId, film.Id) against the signature (filmId, actorId), so it deletes the wrong pair. | Pairs (film 1, actor 2) and (film 2, actor 1), film 1 updated to list [3]: actor 2 stays linked to film 1, and film 2 loses actor 1. | DeleteRelation(film.Id, existingActorId) | not executed | Relations.FilmPassAsWrittenCounterexample | Relations.UpdateFilmFixedLinks |
