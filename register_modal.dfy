/** frontend/src/RegisterModal.jsx, `handleLogin`: the registration form picks
    the role, checks the admin code, posts the user and caches the identity. */
module RegisterModal {
  import opened Wrappers
  import opened IdentityCache

  /** The code that unlocks admin registration. */
  const AdminSecretCode: string := "admin123"

  /** The body of POST /users. */
  datatype Registration = Registration(username: string, password: string, email: string, role: string)

  /** The fields of the created user the modal reads back. */
  datatype CreatedUser = CreatedUser(id: string, username: string, email: string, role: string)

  datatype Outcome =
    | InvalidAdminCode   // alert, nothing sent
    | Registered         // identity cached, modal closed, redirect to "/"
    | Failed             // alert, password cleared

  /** The role the form asks for: "ADMIN" exactly when the admin box is ticked and
      the code matches; None when the box is ticked with a wrong code. */
  function ChosenRole(wantsAdmin: bool, adminCode: string): (r: Option<string>)
    ensures r == Some("ADMIN") <==> wantsAdmin && adminCode == AdminSecretCode
    ensures r == Some("USER") <==> !wantsAdmin
    ensures r.None? <==> wantsAdmin && adminCode != AdminSecretCode
  {
    if !wantsAdmin then Some("USER")
    else if adminCode != AdminSecretCode then None
    else Some("ADMIN")
  }

  /** The identity object cached after registration: email, id and username come
      from the server, the role from the form. */
  function CachedIdentity(created: CreatedUser, role: string): (o: Object)
    ensures o.Keys == {"email", "id", "username", "role"}
    ensures Get(o, "role") == Some(Str(role))
    ensures Get(o, "id") == Some(Str(created.id))
    ensures Get(o, "email") == Some(Str(created.email)) && Get(o, "username") == Some(Str(created.username))
  {
    map["email" := Str(created.email), "id" := Str(created.id),
        "username" := Str(created.username), "role" := Str(role)]
  }

  class RegisterForm {
    var username: string
    var password: string
    var email: string
    var isAdmin: bool
    var adminCode: string
    var open: bool

    constructor(open: bool)
      ensures username == "" && password == "" && email == "" && !isAdmin && adminCode == "" && this.open == open
    {
      username, password, email, isAdmin, adminCode := "", "", "", false, "";
      this.open := open;
    }

    /** `handleLogin()`. The server's answer to the POST is the parameter
        `response`; `sent` is the request body, if one was sent. */
    method HandleLogin(cache: Cache, response: Result<CreatedUser, RequestError>)
      returns (outcome: Outcome, sent: Option<Registration>)
      modifies this, cache
      // a ticked box with a wrong code: nothing sent, nothing cached, form unchanged
      ensures ChosenRole(old(isAdmin), old(adminCode)).None? ==>
        outcome == InvalidAdminCode && sent.None? && cache.entry == old(cache.entry) &&
        password == old(password) && open == old(open)
      // otherwise the form's fields and the chosen role are sent unchanged
      ensures ChosenRole(old(isAdmin), old(adminCode)).Some? ==>
        sent == Some(Registration(old(username), old(password), old(email), ChosenRole(old(isAdmin), old(adminCode)).value))
      // success caches the server's ids with the form's role and closes the modal
      ensures sent.Some? && response.Ok? ==>
        outcome == Registered && !open && password == old(password) &&
        cache.entry == Stored(CachedIdentity(response.value, sent.value.role))
      // failure clears the password and caches nothing
      ensures sent.Some? && response.Err? ==>
        outcome == Failed && password == "" && cache.entry == old(cache.entry) && open == old(open)
      ensures username == old(username) && email == old(email) && isAdmin == old(isAdmin) && adminCode == old(adminCode)
    {
      var role := "USER";
      if isAdmin {
        if adminCode != AdminSecretCode {
          return InvalidAdminCode, None;
        }
        role := "ADMIN";
      }
      var userData := Registration(username, password, email, role);
      sent := Some(userData);
      match response {
        case Ok(data) =>
          var userToStore := CachedIdentity(data, role);
          cache.entry := Stored(userToStore);
          open := false;
          outcome := Registered;
        case Err(_) =>
          password := "";
          outcome := Failed;
      }
    }
  }

  /** A registration never caches a role the form did not choose, whatever role
      the server reports: an admin identity is cached only with the right code. */
  lemma CachedAdminNeedsCode(created: CreatedUser, wantsAdmin: bool, adminCode: string)
    requires ChosenRole(wantsAdmin, adminCode).Some?
    ensures RoleUpperIsAdmin(CachedIdentity(created, ChosenRole(wantsAdmin, adminCode).value)) == Ok(true)
      <==> wantsAdmin && adminCode == AdminSecretCode
  {
    if !wantsAdmin {
      assert Text.ToUpper("USER") == "USER";
    } else {
      assert Text.ToUpper("ADMIN") == "ADMIN";
    }
  }
}
