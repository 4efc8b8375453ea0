/**
 * The `authMiddleware` of middleware/auth.js: take the bearer token from the
 * `Authorization` header, verify it, load the user row it names and attach
 * that user and the role's capabilities to the request, or answer 401.
 */
module AuthMiddleware {
  import opened JsValues
  import opened JsStrings
  import opened Http
  import opened Permissions
  import opened Schema

  /** `req.user`: the columns the middleware selects, `id, email, restaurant_id, role`. */
  datatype AuthUser = AuthUser(id: nat, email: string, restaurantId: Option<nat>, role: Role)

  /** What an authenticated request carries: `req.user` and `req.permissions`. */
  datatype Principal = Principal(user: AuthUser, permissions: Capabilities)

  const BearerPrefix := "Bearer "
  const AuthenticationRequired := "Authentication required"
  const PleaseAuthenticate := "Please authenticate"

  /**
   * `req.header("Authorization")?.replace("Bearer ", "")`. `None` is a missing
   * header (`undefined`). The replacement removes the first occurrence of the
   * prefix wherever it stands; the header is not required to start with it.
   */
  function ExtractToken(header: Option<string>): Option<string>
  {
    match header
    case None => None
    case Some(h) => Some(ReplaceFirst(h, BearerPrefix, ""))
  }

  /** A header in the bearer scheme yields exactly the credentials after the prefix. */
  lemma BearerToken(credentials: string)
    ensures ExtractToken(Some(BearerPrefix + credentials)) == Some(credentials)
  {
    var h := BearerPrefix + credentials;
    assert StartsWith(h, BearerPrefix);
    assert IndexOf(h, BearerPrefix) == Some(0);
    assert h[..0] + "" + h[|BearerPrefix|..] == credentials;
  }

  /** A header that never mentions the prefix is taken as the token as it stands. */
  lemma UnprefixedToken(h: string)
    requires IndexOf(h, BearerPrefix).None?
    ensures ExtractToken(Some(h)) == Some(h)
  {
  }

  /** The row `users[i]` as `SELECT id, email, restaurant_id, role` returns it. */
  function AuthUserOf(u: UserRow): AuthUser
  {
    AuthUser(u.id, u.email, u.restaurantId, u.role)
  }

  /**
   * The middleware's decision. `verified` maps every token that `jwt.verify`
   * accepts (signature and expiry) to the `userId` in its payload.
   */
  function Authenticate(header: Option<string>, verified: map<string, nat>, users: seq<UserRow>): (r: Result<Principal>)
    ensures r.Err? ==> r.failure.Status() == 401
    ensures r == Err(Error(401, AuthenticationRequired)) <==> ExtractToken(header) in {None, Some("")}
    ensures r == Err(Error(401, PleaseAuthenticate)) <==>
      (exists t :: ExtractToken(header) == Some(t) && t != "" &&
         (t !in verified || FindUserById(users, verified[t]).None?))
    ensures r.Ok? <==>
      (exists t :: ExtractToken(header) == Some(t) && t != "" && t in verified &&
         FindUserById(users, verified[t]).Some?)
    ensures r.Ok? ==>
      (exists t, i :: ExtractToken(header) == Some(t) && t in verified &&
         0 <= i < |users| && users[i].id == verified[t] &&
         r.value == Principal(AuthUserOf(users[i]), RolePermissions(users[i].role)))
  {
    match ExtractToken(header)
    case None => Err(Error(401, AuthenticationRequired))
    case Some(t) =>
      if t == "" then Err(Error(401, AuthenticationRequired))
      else if t !in verified then Err(Error(401, PleaseAuthenticate))
      else
        match FindUserById(users, verified[t])
        case None => Err(Error(401, PleaseAuthenticate))
        case Some(i) => Ok(Principal(AuthUserOf(users[i]), RolePermissions(users[i].role)))
  }

  /** The request object the middleware reads and extends. */
  class Request {
    var authorization: Option<string>
    var user: Option<AuthUser>
    var permissions: Option<Capabilities>
    /** The response sent instead of calling `next()`, if any. */
    var response: Option<Failure>

    constructor (authorization: Option<string>)
      ensures this.authorization == authorization
      ensures user == None && permissions == None && response == None
    {
      this.authorization := authorization;
      user, permissions, response := None, None, None;
    }

    /** Runs the middleware; `proceed` is whether `next()` was called. */
    method RunAuthMiddleware(verified: map<string, nat>, users: seq<UserRow>) returns (proceed: bool)
      modifies this
      ensures authorization == old(authorization)
      ensures match Authenticate(authorization, verified, users)
        case Ok(p) => proceed && user == Some(p.user) && permissions == Some(p.permissions) && response == old(response)
        case Err(f) => !proceed && response == Some(f) && user == old(user) && permissions == old(permissions)
    {
      var token := ExtractToken(authorization);
      if token.None? || token.value == "" {
        response := Some(Error(401, AuthenticationRequired));
        return false;
      }
      var t := token.value;
      if t !in verified {
        response := Some(Error(401, PleaseAuthenticate));
        return false;
      }
      var row := FindUserById(users, verified[t]);
      if row.None? {
        response := Some(Error(401, PleaseAuthenticate));
        return false;
      }
      var u := users[row.value];
      user := Some(AuthUserOf(u));
      permissions := Some(RolePermissions(u.role));
      proceed := true;
    }
  }
}
