/** The collaborator interfaces the usecases are written against
    (repository/session/isession_repo.go, repository/auth_repo/iauth_repo.go,
    repository/psx/iprofile_repo.go). A value of each record is one
    implementation seen at one moment: every call is a total function of its
    arguments, which is how the usecases observe it. */
module Repos {
  import opened Common
  import opened Models
  import opened Utils

  /** ISessionRepo / IAuthRepo. */
  datatype SessionRepo = SessionRepo(
    addSession: Session -> Ret<bool>,
    checkActiveSession: string -> Ret<bool>,
    getUserLogin: string -> Ret<string>,
    deleteSession: string -> Ret<bool>)

  /** The three results of GetUser: the user (nil when absent), found, error. */
  datatype UserLookup = UserLookup(user: Option<UserItem>, found: bool, err: Option<Error>)

  /** IProfileRepo; passwords reach it only as digests. */
  datatype ProfileRepo = ProfileRepo(
    getUser: (string, Digest) -> UserLookup,
    findUser: string -> Ret<bool>,
    createUser: (string, Digest) -> Option<Error>,
    getUserId: string -> Ret<nat>,
    getRole: nat -> Ret<string>)
}
