/** frontend/src/utils/userHelper.js: reading the cached identity, the lenient
    admin test, reconciling the cache with the backend's admin flag, and
    overwriting the cached role. */
module UserHelper {
  import opened Wrappers
  import opened IdentityCache

  /** `getUserData()`: null when nothing is stored or the text does not parse,
      otherwise the parsed object. */
  function GetUserData(entry: Entry): (r: Option<Object>)
    ensures r.None? <==> entry.Missing? || entry.Corrupt?
    ensures r.Some? ==> entry == Stored(r.value)
  {
    match entry
    case Stored(user) => Some(user)
    case _ => None
  }

  /** `isUserAdmin(user)`: false for null; true when the role upper-cases to
      "ADMIN" or, failing that, when `isAdmin` is exactly `true`. A truthy role
      that is not a string throws. */
  function IsUserAdmin(user: Option<Object>): (r: Result<bool, TypeError>)
    ensures user.None? ==> r == Ok(false)
    ensures r == Ok(true) <==>
      user.Some? &&
      (RoleUpperIsAdmin(user.value) == Ok(true) ||
       (RoleUpperIsAdmin(user.value) == Ok(false) && Get(user.value, "isAdmin") == Some(Bool(true))))
    ensures r.Err? <==> user.Some? && RoleUpperIsAdmin(user.value).Err?
  {
    match user
    case None => Ok(false)
    case Some(u) =>
      match RoleUpperIsAdmin(u)
      case Err(e) => Err(e)
      case Ok(true) => Ok(true)
      case Ok(false) => Ok(Get(u, "isAdmin") == Some(Bool(true)))
  }

  /** The id `checkAndFixUserData` asks about: the argument when truthy, else the
      cached object's `id` (undefined when nothing usable is cached). */
  function LookupId(entry: Entry, userId: Option<Value>): (id: Option<Value>)
    ensures Truthy(userId) ==> id == userId
    ensures !Truthy(userId) && !entry.Stored? ==> id.None?
    ensures !Truthy(userId) && entry.Stored? ==> id == Get(entry.user, "id")
  {
    if Truthy(userId) then userId
    else match GetUserData(entry)
      case None => None
      case Some(u) => Get(u, "id")
  }

  /** `checkAndFixUserData(apiAdapter, userId)`. The backend's answer to
      `checkAdminStatus` is the parameter `answer`; `query` says whether and with
      which id the backend was asked. */
  method CheckAndFixUserData(cache: Cache, userId: Option<Value>, answer: Result<Object, RequestError>)
    returns (r: Option<Object>, query: Query)
    modifies cache
    // no usable id: null, and the backend is not asked
    ensures !Truthy(LookupId(old(cache.entry), userId)) ==>
      r.None? && query == NotCalled && cache.entry == old(cache.entry)
    // otherwise the backend is asked exactly once, with that id
    ensures Truthy(LookupId(old(cache.entry), userId)) ==> query == Called(LookupId(old(cache.entry), userId))
    // a backend error returns whatever is cached and writes nothing
    ensures query.Called? && answer.Err? ==>
      r == GetUserData(old(cache.entry)) && cache.entry == old(cache.entry)
    // nothing cached: nothing is written and null is returned
    ensures !old(cache.entry).Stored? ==> r.None? && cache.entry == old(cache.entry)
    // only the backend's isAdmin flag is consulted; the cache is corrected only
    // when the cached role is not exactly "ADMIN", and the corrected object is returned
    ensures query.Called? && answer.Ok? && old(cache.entry).Stored? ==>
      var cached := old(cache.entry).user;
      if Truthy(Get(answer.value, "isAdmin")) && Get(cached, "role") != Some(Str("ADMIN")) then
        cache.entry == Stored(WithAdminRole(cached)) && r == Some(WithAdminRole(cached))
      else
        cache.entry == old(cache.entry) && r == Some(cached)
  {
    var id := userId;
    if !Truthy(id) {
      var user := GetUserData(cache.entry);
      id := if user.Some? then Get(user.value, "id") else None;
      if !Truthy(id) {
        return None, NotCalled;
      }
    }
    query := Called(id);
    match answer {
      case Err(_) =>
        r := GetUserData(cache.entry);
      case Ok(result) =>
        var userData := GetUserData(cache.entry);
        if userData.None? {
          return None, query;
        }
        if Truthy(Get(result, "isAdmin")) && Get(userData.value, "role") != Some(Str("ADMIN")) {
          var updatedUser := WithAdminRole(userData.value);
          cache.entry := Stored(updatedUser);
          return Some(updatedUser), query;
        }
        r := userData;
    }
  }

  /** `updateUserRole(role)`: with an object cached, replaces only its `role`
      and answers true; with nothing usable cached, writes nothing and answers false. */
  method UpdateUserRole(cache: Cache, role: Value) returns (ok: bool)
    modifies cache
    ensures ok <==> old(cache.entry).Stored?
    ensures ok ==> cache.entry == Stored(old(cache.entry).user["role" := role])
    ensures !ok ==> cache.entry == old(cache.entry)
  {
    var userData := GetUserData(cache.entry);
    if userData.None? {
      return false;
    }
    cache.entry := Stored(userData.value["role" := role]);
    return true;
  }
}
