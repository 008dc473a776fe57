/** frontend/src/App.js, `AdminRoute`: the guard around the add-product page. It
    decides admin status from the cached identity, falling back to the backend,
    and renders a spinner, a redirect to "/" or its children. */
module AdminRoute {
  import opened Wrappers
  import opened IdentityCache

  /** The backend's verdict, `result.isAdmin || (result.role && result.role.toUpperCase() === "ADMIN")`:
      admin when the `isAdmin` field is truthy (the role is then not looked at) or
      the role upper-cases to "ADMIN"; it throws only when `isAdmin` is falsy and
      the role is truthy but not a string. */
  function AdminVerdict(result: Object): (r: Result<bool, TypeError>)
    ensures r == Ok(true) <==> Truthy(Get(result, "isAdmin")) || RoleUpperIsAdmin(result) == Ok(true)
    ensures r.Err? <==> !Truthy(Get(result, "isAdmin")) && RoleUpperIsAdmin(result).Err?
  {
    if Truthy(Get(result, "isAdmin")) then Ok(true) else RoleUpperIsAdmin(result)
  }

  /** What the guard renders. */
  datatype Screen = Spinner | Redirect | Children

  class AdminRoute {
    var isAdmin: bool
    var isLoading: bool

    /** `useState(false)` and `useState(true)`. */
    constructor()
      ensures !isAdmin && isLoading
    {
      isAdmin, isLoading := false, true;
    }

    /** The render: a spinner while loading, then the children only for an
        admin; everyone else is redirected (with the "Admin access required" toast). */
    function View(): (s: Screen)
      reads this
      ensures s == Children <==> !isLoading && isAdmin
      ensures s == Spinner <==> isLoading
    {
      if isLoading then Spinner else if !isAdmin then Redirect else Children
    }

    /** `checkAdminStatus()`. The backend's answer to `checkAdminStatus(user.id)`
        is the parameter `answer`; `query` says whether and with which id the
        backend was asked. */
    method CheckAdminStatus(cache: Cache, answer: Result<Object, RequestError>) returns (query: Query)
      modifies this, cache
      // every path ends with loading finished
      ensures !isLoading
      // nothing cached, or unparsable text: not admin, no backend call, no write
      ensures !old(cache.entry).Stored? ==>
        !isAdmin && query == NotCalled && cache.entry == old(cache.entry)
      // a cached role that upper-cases to "ADMIN": admin, no backend call, no write
      ensures old(cache.entry).Stored? && RoleUpperIsAdmin(old(cache.entry).user) == Ok(true) ==>
        isAdmin && query == NotCalled && cache.entry == old(cache.entry)
      // a cached role that throws on toUpperCase: fail closed
      ensures old(cache.entry).Stored? && RoleUpperIsAdmin(old(cache.entry).user).Err? ==>
        !isAdmin && query == NotCalled && cache.entry == old(cache.entry)
      // otherwise the backend is asked with the cached id; admin exactly when it
      // answers with an admin verdict, and then only the cached role is rewritten
      ensures old(cache.entry).Stored? && RoleUpperIsAdmin(old(cache.entry).user) == Ok(false) ==>
        && query == Called(Get(old(cache.entry).user, "id"))
        && (isAdmin <==> answer.Ok? && AdminVerdict(answer.value) == Ok(true))
        && cache.entry == (if isAdmin then Stored(WithAdminRole(old(cache.entry).user)) else old(cache.entry))
      // a failed request never grants admin on its own
      ensures answer.Err? && isAdmin ==> query == NotCalled
    {
      var entry := cache.entry;
      if entry.Missing? {
        isAdmin := false;
        isLoading := false;
        return NotCalled;
      }
      // try {
      query := NotCalled;
      if entry.Corrupt? {
        // JSON.parse throws
        isAdmin := false;
      } else {
        var user := entry.user;
        var cachedRole := RoleUpperIsAdmin(user);
        if cachedRole.Err? {
          isAdmin := false;
        } else if cachedRole.value {
          isAdmin := true;
        } else {
          query := Called(Get(user, "id"));
          match answer {
            case Err(_) =>
              isAdmin := false;
            case Ok(result) =>
              var verdict := AdminVerdict(result);
              if verdict.Err? {
                isAdmin := false;
              } else if verdict.value {
                isAdmin := true;
                cache.entry := Stored(WithAdminRole(user));
              } else {
                isAdmin := false;
              }
          }
        }
      }
      // } finally {
      isLoading := false;
    }
  }

  /** The guard renders its children exactly after a check that granted admin:
      a fresh guard shows the spinner, and after the check it shows the children
      when, and only when, an identity is cached and either its role upper-cases
      to "ADMIN" or the backend was asked and gave an admin verdict. */
  method Mount(cache: Cache, answer: Result<Object, RequestError>) returns (before: Screen, after: Screen)
    modifies cache
    ensures before == Spinner
    ensures after != Spinner
    ensures after == Children ==>
      old(cache.entry).Stored? &&
      (RoleUpperIsAdmin(old(cache.entry).user) == Ok(true) ||
       (answer.Ok? && AdminVerdict(answer.value) == Ok(true)))
    ensures (old(cache.entry).Stored? &&
               (RoleUpperIsAdmin(old(cache.entry).user) == Ok(true) ||
                (RoleUpperIsAdmin(old(cache.entry).user) == Ok(false) && answer.Ok? && AdminVerdict(answer.value) == Ok(true))))
            ==> after == Children
  {
    var route := new AdminRoute();
    before := route.View();
    var _ := route.CheckAdminStatus(cache, answer);
    after := route.View();
  }
}
