/** usecase/profiles/profiles.go: account operations. Passwords are hashed
    before any call to the profile repository. */
module Profiles {
  import opened Common
  import opened Models
  import opened Utils
  import opened Repos
  import ProfileStore

  /** The usecase's collaborators: the profile repository and the digest. */
  datatype Profiles = Profiles(repo: ProfileRepo, sha: Sha512)

  /** CreateUserAccount: CreateUser(login, HashPassword(password)); a store
      failure comes back wrapped. */
  function CreateUserAccount(p: Profiles, login: string, password: string): (res: Option<Error>)
    ensures res.None? <==> p.repo.createUser(login, HashPassword(p.sha, password)).None?
    ensures res.Some? ==> res.value == Wrapped("create user account error", p.repo.createUser(login, HashPassword(p.sha, password)).value)
  {
    var err := p.repo.createUser(login, HashPassword(p.sha, password));
    if err.Some? then Some(Wrapped("create user account error", err.value)) else None
  }

  /** FindUserAccount: GetUser(login, HashPassword(password)); found and user
      pass through, a store error gives (nil, false, err). */
  function FindUserAccount(p: Profiles, login: string, password: string): (res: UserLookup)
    ensures var q := p.repo.getUser(login, HashPassword(p.sha, password));
            (q.err.None? ==> res == q) &&
            (q.err.Some? ==> res == UserLookup(None, false, Some(Wrapped("find user account error", q.err.value))))
  {
    var q := p.repo.getUser(login, HashPassword(p.sha, password));
    if q.err.Some? then UserLookup(None, false, Some(Wrapped("find user account error", q.err.value)))
    else UserLookup(q.user, q.found, None)
  }

  /** Only the digest of a password reaches the repository: two passwords with
      the same digest are indistinguishable to both account operations. */
  lemma OnlyDigestReachesStore(p: Profiles, login: string, pw1: string, pw2: string)
    requires p.sha(pw1) == p.sha(pw2)
    ensures CreateUserAccount(p, login, pw1) == CreateUserAccount(p, login, pw2)
    ensures FindUserAccount(p, login, pw1) == FindUserAccount(p, login, pw2)
  {
  }

  /** Over the profile table: an account created with a password is found with
      the same password, and the stored row holds the digest, never the text. */
  lemma SignupThenSignin(sha: Sha512, t: ProfileStore.Table, login: string, password: string, newId: nat)
    ensures var t' := ProfileStore.CreateUser(t, login, HashPassword(sha, password), Up, newId).0;
            t'[|t|].password == sha(password) &&
            FindUserAccount(Profiles(ProfileStore.AsProfileRepo(t', Up, newId), sha), login, password).found
  {
    ProfileStore.CreateThenGetUser(t, login, sha(password), newId);
  }

  /** Over the profile table a wrong password is reported exactly like an
      unknown login: not found, no error. */
  lemma WrongPasswordNotDistinguished(sha: Sha512, t: ProfileStore.Table, login: string, password: string, stranger: string, newId: nat)
    requires forall i :: 0 <= i < |t| ==> !ProfileStore.HasCredentials(t[i], login, sha(password))
    requires forall i :: 0 <= i < |t| ==> t[i].login != stranger
    ensures var p := Profiles(ProfileStore.AsProfileRepo(t, Up, newId), sha);
            FindUserAccount(p, login, password) == FindUserAccount(p, stranger, password) == UserLookup(None, false, None)
  {
    ProfileStore.WrongPasswordLikeUnknownLogin(t, login, sha(password), stranger, sha(password));
  }

  /** FindUserByLogin: the repository's found flag, or (false, err). */
  function FindUserByLogin(p: Profiles, login: string): (res: Ret<bool>)
    ensures res.err.Some? <==> p.repo.findUser(login).err.Some?
    ensures res.val <==> p.repo.findUser(login).err.None? && p.repo.findUser(login).val
  {
    var found := p.repo.findUser(login);
    if found.err.Some? then Ret(false, Some(Wrapped("find user by login error", found.err.value)))
    else Ret(found.val, None)
  }

  /** GetRole: the repository's role, or ("", err). */
  function GetRole(p: Profiles, userId: nat): (res: Ret<string>)
    ensures res.err.Some? <==> p.repo.getRole(userId).err.Some?
    ensures res.val == (if res.err.None? then p.repo.getRole(userId).val else "")
  {
    var role := p.repo.getRole(userId);
    if role.err.Some? then Ret("", Some(Wrapped("get role error", role.err.value)))
    else Ret(role.val, None)
  }
}
