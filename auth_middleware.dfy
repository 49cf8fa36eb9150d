/** The bearer-token and role gates of the backend
    (jenkins-platform-backend/src/middleware/auth.middleware.ts). Each
    middleware receives the request, may set `req.user`, and ends in exactly
    one of two ways: it writes an error response, or it calls `next()`. */
module AuthMiddleware {
  import opened Wrappers
  import opened Auth

  /** The error body `{ success: false, error }` the gates write. */
  datatype ApiResponse = ApiResponse(success: bool, error: string)

  /** How a middleware finished: `res.status(status).json(body)`, or `next()`. */
  datatype Outcome = Respond(status: int, body: ApiResponse) | CallNext

  /** The part of an Express request the gates look at. */
  class AuthRequest {
    /** `req.headers.authorization`. */
    const authorization: Option<string>
    /** `req.user`. */
    var user: Option<Claims>

    constructor (authorization: Option<string>, user: Option<Claims>)
      ensures this.authorization == authorization && this.user == user
    {
      this.authorization := authorization;
      this.user := user;
    }
  }

  const BearerPrefix: string := "Bearer "

  /** `authHeader && authHeader.startsWith('Bearer ') ? authHeader.substring(7) : none`:
      the token is what follows the prefix, and there is one exactly when the
      header is present and starts with the prefix. */
  function BearerToken(header: Option<string>): (token: Option<string>)
    ensures token.Some? <==> header.Some? && BearerPrefix <= header.value
    ensures token.Some? ==> header == Some(BearerPrefix + token.value)
  {
    if header.Some? && BearerPrefix <= header.value then
      assert header.value == BearerPrefix + header.value[|BearerPrefix|..];
      Some(header.value[|BearerPrefix|..])
    else
      None
  }

  /** Sending `Bearer <token>` hands exactly `<token>` to verification. */
  lemma BearerTokenRoundTrip(token: string)
    ensures BearerToken(Some(BearerPrefix + token)) == Some(token)
  {
    assert BearerPrefix <= BearerPrefix + token;
  }

  /** `authenticate`: without a bearer header, 401 'No token provided';
      with a token that does not verify, 401 'Invalid or expired token'; in
      both cases `req.user` is left alone. Otherwise `req.user` becomes the
      decoded claims and `next()` is called. */
  method Authenticate(req: AuthRequest, auth: AuthService) returns (outcome: Outcome)
    modifies req`user
    ensures BearerToken(req.authorization).None? ==>
              outcome == Respond(401, ApiResponse(false, "No token provided")) && req.user == old(req.user)
    ensures BearerToken(req.authorization).Some? && auth.VerifyToken(BearerToken(req.authorization).value).Err? ==>
              outcome == Respond(401, ApiResponse(false, "Invalid or expired token")) && req.user == old(req.user)
    ensures BearerToken(req.authorization).Some? && auth.VerifyToken(BearerToken(req.authorization).value).Ok? ==>
              outcome == CallNext && req.user == Some(auth.VerifyToken(BearerToken(req.authorization).value).value)
  {
    var authHeader := req.authorization;
    if authHeader.None? || !(BearerPrefix <= authHeader.value) {
      return Respond(401, ApiResponse(false, "No token provided"));
    }
    var token := authHeader.value[7..];
    var verified := auth.VerifyToken(token);
    match verified {
      case Err(_) =>
        outcome := Respond(401, ApiResponse(false, "Invalid or expired token"));
      case Ok(user) =>
        req.user := Some(user);
        outcome := CallNext;
    }
  }

  /** `authorize(...roles)`: 401 'User not authenticated' when no user is
      attached, else 403 'Insufficient permissions' when the user's role is
      not listed, else `next()`. The request is not changed. */
  method Authorize(req: AuthRequest, roles: seq<string>) returns (outcome: Outcome)
    ensures req.user.None? ==> outcome == Respond(401, ApiResponse(false, "User not authenticated"))
    ensures req.user.Some? && RoleName(req.user.value.role) !in roles ==>
              outcome == Respond(403, ApiResponse(false, "Insufficient permissions"))
    ensures outcome == CallNext <==> req.user.Some? && RoleName(req.user.value.role) in roles
  {
    if req.user.None? {
      return Respond(401, ApiResponse(false, "User not authenticated"));
    }
    if RoleName(req.user.value.role) !in roles {
      return Respond(403, ApiResponse(false, "Insufficient permissions"));
    }
    return CallNext;
  }

  /** `optionalAuth`: always calls `next()` and never responds; `req.user`
      is set only from a bearer token that verifies. */
  method OptionalAuth(req: AuthRequest, auth: AuthService) returns (outcome: Outcome)
    modifies req`user
    ensures outcome == CallNext
    ensures BearerToken(req.authorization).Some? && auth.VerifyToken(BearerToken(req.authorization).value).Ok? ==>
              req.user == Some(auth.VerifyToken(BearerToken(req.authorization).value).value)
    ensures BearerToken(req.authorization).None? || auth.VerifyToken(BearerToken(req.authorization).value).Err? ==>
              req.user == old(req.user)
  {
    var authHeader := req.authorization;
    if authHeader.Some? && BearerPrefix <= authHeader.value {
      var token := authHeader.value[7..];
      var verified := auth.VerifyToken(token);
      if verified.Ok? {
        req.user := Some(verified.value);
      }
    }
    outcome := CallNext;
  }

  /** A login followed by a request carrying its token as a bearer header:
      the authenticate gate lets the request through with the user's claims. */
  method LoginThenAuthenticate(auth: AuthService, username: string, password: string)
    returns (outcome: Option<Outcome>)
    ensures auth.Login(username, password).Err? ==> outcome.None?
    ensures auth.jwt.Sound() && auth.Login(username, password).Ok? ==> outcome == Some(CallNext)
  {
    var login := auth.Login(username, password);
    if login.Err? {
      return None;
    }
    var req := new AuthRequest(Some(BearerPrefix + login.value.token), None);
    BearerTokenRoundTrip(login.value.token);
    if auth.jwt.Sound() {
      auth.LoginTokenVerifies(username, password);
    }
    var result := Authenticate(req, auth);
    outcome := Some(result);
  }
}
