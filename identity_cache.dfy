/** The browser-side identity cache: the JSON object stored under the
    localStorage key "minimalUser", the JavaScript truthiness rules the
    frontend applies to its fields, and the role test the frontend repeats. */
module IdentityCache {
  import opened Wrappers
  import opened Text

  /** A JSON scalar as it can appear as a field of the cached identity or of a
      backend answer. JSON has no NaN, so a number is falsy only when it is 0. */
  datatype Value = Null | Bool(b: bool) | Num(n: real) | Str(s: string)

  /** A parsed JSON object: field name to value. */
  type Object = map<string, Value>

  /** `obj.key`: an absent field reads as `undefined`, modelled as None. */
  function Get(obj: Object, key: string): Option<Value> {
    if key in obj then Some(obj[key]) else None
  }

  /** JavaScript truthiness of a field read (`undefined` is falsy). */
  predicate Truthy(v: Option<Value>) {
    match v
    case None => false
    case Some(Null) => false
    case Some(Bool(b)) => b
    case Some(Num(n)) => n != 0.0
    case Some(Str(s)) => s != ""
  }

  /** Calling `toUpperCase` on a field that is truthy but not a string throws. */
  datatype TypeError = TypeError

  /** `obj.role && obj.role.toUpperCase() === "ADMIN"`: a missing or falsy role is
      not admin, a string role is admin exactly when it upper-cases to "ADMIN",
      and any other truthy role throws. */
  function RoleUpperIsAdmin(obj: Object): (r: Result<bool, TypeError>)
    ensures r == Ok(true) <==> "role" in obj && obj["role"].Str? && ToUpper(obj["role"].s) == "ADMIN"
    ensures r.Err? <==> Truthy(Get(obj, "role")) && !obj["role"].Str?
    ensures !Truthy(Get(obj, "role")) ==> r == Ok(false)
  {
    if !Truthy(Get(obj, "role")) then Ok(false)
    else match obj["role"]
      case Str(s) => Ok(ToUpper(s) == "ADMIN")
      case _ => Err(TypeError)
  }

  /** The result of `{ ...obj, role: "ADMIN" }`: every other field is kept. */
  function WithAdminRole(obj: Object): (r: Object)
    ensures Get(r, "role") == Some(Str("ADMIN"))
    ensures forall k :: k != "role" ==> Get(r, k) == Get(obj, k)
    ensures r.Keys == obj.Keys + {"role"}
  {
    obj["role" := Str("ADMIN")]
  }

  /** What `localStorage.getItem("minimalUser")` followed by `JSON.parse` yields:
      nothing stored (null or the empty string, both falsy), text that does not
      parse, or a parsed object. */
  datatype Entry = Missing | Corrupt | Stored(user: Object)

  /** Whether, and with which id, the frontend asked the backend for a role. */
  datatype Query = NotCalled | Called(id: Option<Value>)

  /** The browser's localStorage, restricted to the "minimalUser" key. Writing an
      object and reading it back gives the same object, so the entry holds the
      parsed form. */
  class Cache {
    var entry: Entry

    constructor(initial: Entry)
      ensures entry == initial
    {
      entry := initial;
    }
  }
}
