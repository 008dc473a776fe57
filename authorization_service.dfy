/** backend/.../AuthorizationService.java: the server-side admin check. */
module Authorization {
  import opened Wrappers
  import opened Users

  /** `isAdmin(userId)`: false for an unknown id, and for a known user whether
      the stored role is exactly "ADMIN". It reads the repository and changes
      nothing. It gives the same answer as the `isAdmin` field of `getUserRole`. */
  function IsAdmin(users: seq<User>, userId: string): (r: bool)
    ensures FindFirst(users, ById, userId).None? ==> !r
    ensures r == GetUserRole(users, userId).isAdmin
  {
    match FindFirst(users, ById, userId)
    case None => false
    case Some(user) => user.role == Some("ADMIN")
  }

  /** For a stored user the check looks at that user's role alone, and it is
      case-sensitive: a stored "admin" is not an admin. */
  lemma IsAdminOfStored(users: seq<User>, i: int)
    requires UniqueIds(users) && 0 <= i < |users|
    ensures IsAdmin(users, users[i].id) <==> users[i].role == Some("ADMIN")
    ensures users[i].role == Some("admin") ==> !IsAdmin(users, users[i].id)
  {
    StoredUserIsFound(users, i);
  }

  /** Registration and authorisation agree: a user registered with "ADMIN" or
      "admin" is an admin at once, and with any other role is not. */
  method RegisterThenCheck(repo: UsersRepo, request: NewUserRequest, hash: string -> string, newId: string)
    returns (admin: bool)
    requires UniqueIds(repo.users) && forall u :: u in repo.users ==> u.id != newId
    modifies repo
    ensures admin <==> request.role == Some("ADMIN") || request.role == Some("admin")
  {
    var saved := repo.RegisterUser(request, hash, newId);
    admin := IsAdmin(repo.users, newId);
  }
}
