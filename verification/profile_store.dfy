/** The profile queries of repository/psx/PsxRepo.go over an abstract profile
    table. A row is (id, login, role, password digest); QueryRow reads the
    first row that matches, and sql.ErrNoRows stands for "no row matches". */
module ProfileStore {
  import opened Common
  import opened Models
  import opened Utils
  import Repos

  datatype Profile = Profile(id: nat, login: string, role: string, password: seq<byte>)

  type Table = seq<Profile>

  /** The role CreateUser gives every new profile. */
  const DefaultRole: string := "user"

  /** The position of the first row with property p, or |t| when there is none. */
  function FirstWhere(t: Table, p: Profile -> bool): (i: nat)
    ensures i <= |t|
    ensures i < |t| ==> p(t[i])
    ensures forall j :: 0 <= j < i ==> !p(t[j])
  {
    if t == [] then 0
    else if p(t[0]) then 0
    else 1 + FirstWhere(t[1..], p)
  }

  predicate HasCredentials(row: Profile, login: string, password: seq<byte>) {
    row.login == login && row.password == password
  }

  /** GetUser: WHERE login = $1 AND password = $2. No matching row is
      (nil, false, nil), not an error; a failed query is (nil, false, err). */
  function GetUser(t: Table, login: string, password: seq<byte>, link: Link): (res: Repos.UserLookup)
    ensures res.err.Some? <==> link.Down?
    ensures res.found <==> link.Up? && exists i :: 0 <= i < |t| && HasCredentials(t[i], login, password)
    ensures res.user.Some? <==> res.found
    ensures res.found ==> res.user.value.login == login
    ensures res.found ==> exists i :: 0 <= i < |t| && HasCredentials(t[i], login, password) &&
                                     res.user.value == UserItem(t[i].id, t[i].login, t[i].role)
  {
    if link.Down? then Repos.UserLookup(None, false, Some(Wrapped("get query user error", LinkError(link))))
    else
      var i := FirstWhere(t, (row: Profile) => HasCredentials(row, login, password));
      if i == |t| then Repos.UserLookup(None, false, None)
      else Repos.UserLookup(Some(UserItem(t[i].id, t[i].login, t[i].role)), true, None)
  }

  /** A wrong password and an unknown login give the same answer: nothing found,
      and no error that would tell the two apart. */
  lemma WrongPasswordLikeUnknownLogin(t: Table, login: string, password: seq<byte>, stranger: string, any: seq<byte>)
    requires forall i :: 0 <= i < |t| ==> !HasCredentials(t[i], login, password)
    requires forall i :: 0 <= i < |t| ==> t[i].login != stranger
    ensures GetUser(t, login, password, Up) == GetUser(t, stranger, any, Up) == Repos.UserLookup(None, false, None)
  {
  }

  /** FindUser: WHERE login = $1; no row is (false, nil). */
  function FindUser(t: Table, login: string, link: Link): (res: Ret<bool>)
    ensures res.err.Some? <==> link.Down?
    ensures res.val <==> link.Up? && exists i :: 0 <= i < |t| && t[i].login == login
  {
    if link.Down? then Ret(false, Some(Wrapped("find user query error", LinkError(link))))
    else Ret(FirstWhere(t, (row: Profile) => row.login == login) < |t|, None)
  }

  /** CreateUser: INSERT a profile with role "user" and the given digest; the
      database assigns the id. */
  function CreateUser(t: Table, login: string, password: seq<byte>, link: Link, newId: nat): (out: (Table, Option<Error>))
    ensures link.Up? ==> out == (t + [Profile(newId, login, DefaultRole, password)], None)
    ensures link.Down? ==> out.0 == t && out.1.Some?
  {
    if link.Down? then (t, Some(Wrapped("create user error", LinkError(link))))
    else (t + [Profile(newId, login, DefaultRole, password)], None)
  }

  /** A created profile is found by its login and digest afterwards. */
  lemma CreateThenGetUser(t: Table, login: string, password: seq<byte>, newId: nat)
    ensures var t' := CreateUser(t, login, password, Up, newId).0;
            var res := GetUser(t', login, password, Up);
            res.found && res.user.value.login == login && res.err.None?
    ensures (forall i :: 0 <= i < |t| ==> !HasCredentials(t[i], login, password)) ==>
            GetUser(CreateUser(t, login, password, Up, newId).0, login, password, Up).user
              == Some(UserItem(newId, login, DefaultRole))
  {
    var t' := CreateUser(t, login, password, Up, newId).0;
    assert HasCredentials(t'[|t|], login, password);
  }

  /** GetUserId: WHERE login = $1; unlike GetUser and FindUser, no row is an error. */
  function GetUserId(t: Table, login: string, link: Link): (res: Ret<nat>)
    ensures res.err.None? <==> link.Up? && exists i :: 0 <= i < |t| && t[i].login == login
    ensures res.err.Some? ==> res.val == 0
    ensures res.err.None? ==> exists i :: 0 <= i < |t| && t[i].login == login && res.val == t[i].id
    ensures link.Up? && res.err.Some? ==> res.err == Some(Message("user not found for login: " + login))
  {
    if link.Down? then Ret(0, Some(Wrapped("get userpro file id error", LinkError(link))))
    else
      var i := FirstWhere(t, (row: Profile) => row.login == login);
      if i == |t| then Ret(0, Some(Message("user not found for login: " + login)))
      else Ret(t[i].id, None)
  }

  /** GetRole: WHERE id = $1; any failure, no row included, is ("", err). */
  function GetRole(t: Table, id: nat, link: Link): (res: Ret<string>)
    ensures res.err.None? <==> link.Up? && exists i :: 0 <= i < |t| && t[i].id == id
    ensures res.err.Some? ==> res.val == ""
    ensures res.err.None? ==> exists i :: 0 <= i < |t| && t[i].id == id && res.val == t[i].role
  {
    if link.Down? then Ret("", Some(Wrapped("get user role err", LinkError(link))))
    else
      var i := FirstWhere(t, (row: Profile) => row.id == id);
      if i == |t| then Ret("", Some(Wrapped("get user role err", NoRows)))
      else Ret(t[i].role, None)
  }

  /** The table seen through the profile-repository interface. */
  function AsProfileRepo(t: Table, link: Link, newId: nat): (repo: Repos.ProfileRepo)
    ensures forall l, d: Digest :: repo.getUser(l, d) == GetUser(t, l, d, link)
    ensures forall l :: repo.findUser(l) == FindUser(t, l, link)
    ensures forall l, d: Digest :: repo.createUser(l, d) == CreateUser(t, l, d, link, newId).1
    ensures forall l :: repo.getUserId(l) == GetUserId(t, l, link)
    ensures forall id: nat :: repo.getRole(id) == GetRole(t, id, link)
  {
    Repos.ProfileRepo(
      (l, d: Digest) => GetUser(t, l, d, link),
      l => FindUser(t, l, link),
      (l, d: Digest) => CreateUser(t, l, d, link, newId).1,
      l => GetUserId(t, l, link),
      (id: nat) => GetRole(t, id, link))
  }
}
