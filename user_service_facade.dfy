/** backend/.../UserServiceFacade.java: registration with role normalisation,
    login, and the role lookup the frontend asks for. The user repository is a
    sequence of user documents; the password hash and its check are parameters. */
module Users {
  import opened Wrappers

  /** User.java. `role` may be null in a stored document. */
  datatype User = User(id: string, username: string, email: string, passhash: string, role: Option<string>)

  /** NewUserRequest.java. */
  datatype NewUserRequest = NewUserRequest(username: string, password: string, email: string, role: Option<string>)

  /** The map `getUserRole` answers with. `role` is None when the map has no
      "role" key and Some(None) when the key is present with a null value. */
  datatype RoleResponse = RoleResponse(userId: string, role: Option<Option<string>>, isAdmin: bool)

  /** Ids are unique in the repository. */
  ghost predicate UniqueIds(users: seq<User>) {
    forall i, j :: 0 <= i < j < |users| ==> users[i].id != users[j].id
  }

  /** The two fields the repository is queried by. */
  datatype Key = ById | ByUsername

  function KeyOf(user: User, key: Key): string {
    match key
    case ById => user.id
    case ByUsername => user.username
  }

  /** The repository queries `findById(id).orElse(null)`, which `getUserById`
      returns, and `findByUsername(name)`: the first user whose field equals
      `value`, or None when there is none. */
  function FindFirst(users: seq<User>, key: Key, value: string): (r: Option<User>)
    ensures r.Some? ==> r.value in users && KeyOf(r.value, key) == value
    ensures r.None? <==> forall u :: u in users ==> KeyOf(u, key) != value
  {
    if users == [] then None
    else if KeyOf(users[0], key) == value then Some(users[0])
    else FindFirst(users[1..], key, value)
  }

  /** With unique ids, the user found under an id is the one stored there. */
  lemma {:induction false} StoredUserIsFound(users: seq<User>, i: int)
    requires UniqueIds(users) && 0 <= i < |users|
    ensures FindFirst(users, ById, users[i].id) == Some(users[i])
  {
    if i > 0 {
      assert users[0].id != users[i].id;
      assert UniqueIds(users[1..]) by {
        forall a, b | 0 <= a < b < |users[1..]| ensures users[1..][a].id != users[1..][b].id {
          assert users[1..][a] == users[a + 1] && users[1..][b] == users[b + 1];
        }
      }
      StoredUserIsFound(users[1..], i - 1);
    }
  }

  /** The role `registerUser` stores: "ADMIN" for exactly "ADMIN" or "admin",
      "USER" for anything else, null included. */
  function NormaliseRole(requested: Option<string>): (r: string)
    ensures r == "ADMIN" || r == "USER"
    ensures r == "ADMIN" <==> requested == Some("ADMIN") || requested == Some("admin")
  {
    if requested.Some? && (requested.value == "ADMIN" || requested.value == "admin") then "ADMIN" else "USER"
  }

  /** Other spellings are not admin: "Admin" and null both register as "USER". */
  lemma OnlyTwoSpellingsOfAdmin()
    ensures NormaliseRole(Some("Admin")) == "USER" && NormaliseRole(Some("aDMIN")) == "USER"
    ensures NormaliseRole(None) == "USER"
  {
    assert "Admin" != "ADMIN" && "Admin" != "admin";
    assert "aDMIN" != "ADMIN" && "aDMIN" != "admin";
  }

  /** The message both login failures carry. */
  const InvalidCredentials := "Invalid username or password"

  /** `authenticateUser`: the stored user when the name is known and `verify`
      (the password check) accepts the password against the stored hash; the
      same error otherwise, so the caller cannot tell which part was wrong. */
  function AuthenticateUser(users: seq<User>, username: string, password: string,
                            verify: (string, string) -> bool): (r: Result<User, string>)
    ensures r.Ok? <==> FindFirst(users, ByUsername, username).Some? && verify(password, FindFirst(users, ByUsername, username).value.passhash)
    ensures r.Ok? ==> r.value in users && r.value.username == username
    ensures r.Err? ==> r.error == InvalidCredentials
  {
    match FindFirst(users, ByUsername, username)
    case None => Err(InvalidCredentials)
    case Some(dbUser) =>
      if verify(password, dbUser.passhash) then Ok(dbUser) else Err(InvalidCredentials)
  }

  /** `getUserRole`: for a known user its id, its role and whether that role is
      exactly "ADMIN"; for an unknown id the requested id, no role key, and false. */
  function GetUserRole(users: seq<User>, userId: string): (r: RoleResponse)
    ensures r.userId == userId
    ensures FindFirst(users, ById, userId).None? ==> r.role.None? && !r.isAdmin
    ensures FindFirst(users, ById, userId).Some? ==> r.role == Some(FindFirst(users, ById, userId).value.role)
    ensures r.isAdmin <==> FindFirst(users, ById, userId).Some? && FindFirst(users, ById, userId).value.role == Some("ADMIN")
  {
    match FindFirst(users, ById, userId)
    case None => RoleResponse(userId, None, false)
    case Some(user) => RoleResponse(user.id, Some(user.role), user.role == Some("ADMIN"))
  }

  /** The user repository. */
  class UsersRepo {
    var users: seq<User>

    constructor(users: seq<User>)
      ensures this.users == users
    {
      this.users := users;
    }

    /** `registerUser`: stores a new user with the request's email and username,
        the hash of its password and the normalised role. `newId` is the id the
        store assigns, unused so far; `hash` is the password hash. */
    method RegisterUser(request: NewUserRequest, hash: string -> string, newId: string) returns (saved: User)
      requires UniqueIds(users) && forall u :: u in users ==> u.id != newId
      modifies this
      ensures UniqueIds(users)
      ensures saved == User(newId, request.username, request.email, hash(request.password), Some(NormaliseRole(request.role)))
      ensures users == old(users) + [saved]
      ensures FindFirst(users, ById, newId) == Some(saved)
    {
      var passHash := hash(request.password);
      var role := request.role;
      var stored := if role.Some? && (role.value == "ADMIN" || role.value == "admin") then "ADMIN" else "USER";
      saved := User(newId, request.username, request.email, passHash, Some(stored));
      users := users + [saved];
      StoredUserIsFound(users, |users| - 1);
    }
  }
}
