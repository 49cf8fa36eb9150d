/** The credential store and token issuer of the backend
    (jenkins-platform-backend/src/services/auth.service.ts): an in-memory
    map from username to user record, seeded with two accounts and extended
    by registration. bcryptjs and jsonwebtoken are foreign libraries and are
    kept uninterpreted: their functions are fields of the service. */
module Auth {
  import opened Wrappers

  datatype Role = AdminRole | UserRole

  /** The role as it is written in tokens and in role lists. */
  function RoleName(role: Role): (name: string)
    ensures name == "admin" <==> role == AdminRole
    ensures name == "user" <==> role == UserRole
  {
    match role
    case AdminRole => "admin"
    case UserRole => "user"
  }

  /** A user as handed out to callers: never with its password. */
  datatype User = User(id: string, username: string, email: string, role: Role)

  /** A record of the store, `User & { password: string }`; `password` holds the bcrypt hash. */
  datatype StoredUser = StoredUser(id: string, username: string, email: string, role: Role, password: string)

  /** `const { password: _, ...user } = userWithPassword`. */
  function WithoutPassword(stored: StoredUser): (user: User)
    ensures user.id == stored.id && user.username == stored.username
    ensures user.email == stored.email && user.role == stored.role
  {
    User(stored.id, stored.username, stored.email, stored.role)
  }

  /** What a token is signed over: `{ id, username, role }`. */
  datatype Claims = Claims(id: string, username: string, role: Role)

  function ClaimsOf(user: User): Claims
  {
    Claims(user.id, user.username, user.role)
  }

  /** bcryptjs: `hash(p)` is `bcrypt.hash(p, 10)` and `compare(p, h)` is
      `bcrypt.compare(p, h)`. */
  datatype Bcrypt = Bcrypt(hash: string -> string, compare: (string, string) -> bool)
  {
    /** A password matches its own hash. */
    ghost predicate Sound()
    {
      forall p :: compare(p, hash(p))
    }
  }

  /** jsonwebtoken: `sign(claims, secret, expiresIn)` is `jwt.sign`, and
      `verify(token, secret)` is `jwt.verify`, `None` where it throws (bad
      signature, expired, malformed). */
  datatype Jwt = Jwt(sign: (Claims, string, string) -> string, verify: (string, string) -> Option<Claims>)
  {
    /** A token verifies, under the secret that signed it, to the claims it
        was signed over. Tokens never expire here, so every consequence of
        this law is a statement about a token before its expiry. */
    ghost predicate Sound()
    {
      forall c, secret, expiresIn :: verify(sign(c, secret, expiresIn), secret) == Some(c)
    }
  }

  /** `process.env.X || fallback`: an unset or empty variable falls back. */
  function EnvOr(setting: Option<string>, fallback: string): (value: string)
    ensures setting.Some? && setting.value != "" ==> value == setting.value
    ensures setting.None? || setting.value == "" ==> value == fallback
  {
    if setting.Some? && setting.value != "" then setting.value else fallback
  }

  predicate IsDigit(c: char)
  {
    '0' <= c <= '9'
  }

  /** `n.toString()` for a non-negative integer: its decimal digits. */
  function DecimalString(n: nat): (s: string)
    ensures |s| >= 1
    ensures forall i :: 0 <= i < |s| ==> IsDigit(s[i])
    ensures s[0] == '0' ==> n == 0
  {
    if n < 10 then ["0123456789"[n]]
    else DecimalString(n / 10) + ["0123456789"[n % 10]]
  }

  /** The number a string of decimal digits denotes. */
  function DecimalValue(s: string): nat
    requires forall i :: 0 <= i < |s| ==> IsDigit(s[i])
  {
    if s == [] then 0
    else
      assert IsDigit(s[|s| - 1]);
      DecimalValue(s[..|s| - 1]) * 10 + (s[|s| - 1] as int - '0' as int)
  }

  /** Reading back the decimal string gives the number: distinct clock
      readings give distinct ids. */
  lemma {:induction false} DecimalRoundTrip(n: nat)
    ensures DecimalValue(DecimalString(n)) == n
  {
    var s := DecimalString(n);
    DigitValue(n % 10);
    if n >= 10 {
      DecimalRoundTrip(n / 10);
      assert s[..|s| - 1] == DecimalString(n / 10);
      assert DecimalValue(s) == (n / 10) * 10 + n % 10;
    }
  }

  lemma DigitValue(d: nat)
    requires d < 10
    ensures "0123456789"[d] as int - '0' as int == d
  {
  }

  /** What login returns: `AuthToken & { user: User }`. */
  datatype LoginResponse = LoginResponse(token: string, expiresIn: string, user: User)

  /** The two accounts initDefaultUsers stores, each under its own
      username, with distinct ids and one account per role. */
  function DefaultUsers(bcrypt: Bcrypt): (users: map<string, StoredUser>)
    ensures users.Keys == {"admin", "user"}
    ensures forall name :: name in users ==> users[name].username == name
    ensures users["admin"].id != users["user"].id
    ensures users["admin"].role == AdminRole && users["user"].role == UserRole
  {
    map[
      "admin" := StoredUser("1", "admin", "admin@example.com", AdminRole, bcrypt.hash("admin123")),
      "user" := StoredUser("2", "user", "user@example.com", UserRole, bcrypt.hash("user123"))]
  }

  class AuthService {
    const jwtSecret: string
    const jwtExpiresIn: string
    const bcrypt: Bcrypt
    const jwt: Jwt

    /** The `users` Map: username to stored record. */
    var users: map<string, StoredUser>
    /** The Map's iteration order: usernames in order of first insertion. */
    var order: seq<string>

    /** The iteration order lists every key once, and every record is
        stored under its own username. */
    ghost predicate Valid()
      reads this
    {
      && (forall name :: name in users <==> name in order)
      && (forall i, j :: 0 <= i < j < |order| ==> order[i] != order[j])
      && (forall name :: name in users ==> users[name].username == name)
    }

    /** The service as the module creates it, with the two default
        accounts already stored. */
    constructor (envSecret: Option<string>, envExpiresIn: Option<string>, bcrypt: Bcrypt, jwt: Jwt)
      ensures Valid()
      ensures jwtSecret == EnvOr(envSecret, "your-secret-key")
      ensures jwtExpiresIn == EnvOr(envExpiresIn, "7d")
      ensures this.bcrypt == bcrypt && this.jwt == jwt
      ensures users == DefaultUsers(bcrypt) && order == ["admin", "user"]
    {
      jwtSecret := EnvOr(envSecret, "your-secret-key");
      jwtExpiresIn := EnvOr(envExpiresIn, "7d");
      this.bcrypt := bcrypt;
      this.jwt := jwt;
      users := map[];
      order := [];
      new;
      InitDefaultUsers();
    }

    /** `this.users.set(key, record)`: a new key goes to the end of the
        iteration order, an existing key keeps its place. */
    method SetUser(key: string, record: StoredUser)
      requires Valid()
      requires record.username == key
      modifies this`users, this`order
      ensures Valid()
      ensures users == old(users)[key := record]
      ensures order == if key in old(users) then old(order) else old(order) + [key]
    {
      if key !in users {
        order := order + [key];
      }
      users := users[key := record];
    }

    /** `initDefaultUsers`, on an empty store. */
    method InitDefaultUsers()
      requires users == map[] && order == []
      modifies this`users, this`order
      ensures Valid()
      ensures users == DefaultUsers(bcrypt) && order == ["admin", "user"]
    {
      var adminPassword := bcrypt.hash("admin123");
      var userPassword := bcrypt.hash("user123");
      SetUser("admin", StoredUser("1", "admin", "admin@example.com", AdminRole, adminPassword));
      SetUser("user", StoredUser("2", "user", "user@example.com", UserRole, userPassword));
    }

    /** `generateToken`: a token signed over exactly `{id, username, role}`,
        so that verifying it under the service's secret gives those claims back. */
    function GenerateToken(user: User): (token: string)
      reads this
      ensures jwt.Sound() ==> jwt.verify(token, jwtSecret) == Some(ClaimsOf(user))
    {
      jwt.sign(ClaimsOf(user), jwtSecret, jwtExpiresIn)
    }

    /** `verifyToken`: the decoded claims, or the error 'Invalid token'. */
    function VerifyToken(token: string): (r: Result<Claims>)
      reads this
      ensures r.Ok? <==> jwt.verify(token, jwtSecret).Some?
      ensures r.Ok? ==> r.value == jwt.verify(token, jwtSecret).value
      ensures r.Err? ==> r.error == "Invalid token"
    {
      match jwt.verify(token, jwtSecret)
      case Some(claims) => Ok(claims)
      case None => Err("Invalid token")
    }

    /** A token this service generated verifies back to the user's claims. */
    lemma VerifyGeneratedToken(user: User)
      requires jwt.Sound()
      ensures VerifyToken(GenerateToken(user)) == Ok(ClaimsOf(user))
    {
    }

    /** `login`: an unknown username and a wrong password fail alike with
        'Invalid credentials'; otherwise the record without its password, a
        token over its claims, and the configured expiry. Nothing is stored. */
    function Login(username: string, password: string): (r: Result<LoginResponse>)
      reads this
      ensures r.Err? <==> username !in users || !bcrypt.compare(password, users[username].password)
      ensures r.Err? ==> r.error == "Invalid credentials"
      ensures r.Ok? ==>
                && r.value.user == WithoutPassword(users[username])
                && r.value.expiresIn == jwtExpiresIn
                && r.value.token == jwt.sign(ClaimsOf(r.value.user), jwtSecret, jwtExpiresIn)
    {
      if username !in users then
        Err("Invalid credentials")
      else
        var stored := users[username];
        if !bcrypt.compare(password, stored.password) then
          Err("Invalid credentials")
        else
          var user := WithoutPassword(stored);
          Ok(LoginResponse(GenerateToken(user), jwtExpiresIn, user))
    }

    /** The token of a successful login verifies to the logged-in user's claims. */
    lemma LoginTokenVerifies(username: string, password: string)
      requires jwt.Sound()
      requires Login(username, password).Ok?
      ensures VerifyToken(Login(username, password).value.token)
              == Ok(ClaimsOf(Login(username, password).value.user))
    {
    }

    /** A stored record whose hash is the hash of `password` admits a login
        with that password, returning that record without its password. */
    lemma StoredPasswordLogsIn(username: string, password: string)
      requires bcrypt.Sound()
      requires username in users && users[username].password == bcrypt.hash(password)
      ensures Login(username, password) ==
              Ok(LoginResponse(GenerateToken(WithoutPassword(users[username])), jwtExpiresIn,
                               WithoutPassword(users[username])))
    {
      assert bcrypt.compare(password, bcrypt.hash(password));
    }

    /** After seeding, 'admin'/'admin123' and 'user'/'user123' log in with
        their roles, and their tokens verify to their claims. */
    lemma SeededAccountsLogIn()
      requires users == DefaultUsers(bcrypt)
      requires bcrypt.Sound() && jwt.Sound()
      ensures Login("admin", "admin123").Ok?
      ensures Login("admin", "admin123").value.user == User("1", "admin", "admin@example.com", AdminRole)
      ensures VerifyToken(Login("admin", "admin123").value.token) == Ok(Claims("1", "admin", AdminRole))
      ensures Login("user", "user123").Ok?
      ensures Login("user", "user123").value.user == User("2", "user", "user@example.com", UserRole)
      ensures VerifyToken(Login("user", "user123").value.token) == Ok(Claims("2", "user", UserRole))
    {
      StoredPasswordLogsIn("admin", "admin123");
      StoredPasswordLogsIn("user", "user123");
      LoginTokenVerifies("admin", "admin123");
      LoginTokenVerifies("user", "user123");
    }

    /** `register`: a taken username fails with 'Username already exists'
        and changes nothing; otherwise exactly one record is added under the
        username, with role 'user', the clock reading as id and the hash of
        the password, and it is returned without its password. */
    method Register(username: string, email: string, password: string, nowMs: nat)
      returns (r: Result<User>)
      requires Valid()
      modifies this`users, this`order
      ensures Valid()
      ensures old(username in users) ==>
                r == Err("Username already exists") && users == old(users) && order == old(order)
      ensures old(username !in users) ==>
                && users == old(users)[username := StoredUser(DecimalString(nowMs), username, email, UserRole, bcrypt.hash(password))]
                && order == old(order) + [username]
                && r == Ok(User(DecimalString(nowMs), username, email, UserRole))
    {
      if username in users {
        return Err("Username already exists");
      }
      var hashedPassword := bcrypt.hash(password);
      var newUser := StoredUser(DecimalString(nowMs), username, email, UserRole, hashedPassword);
      SetUser(username, newUser);
      r := Ok(WithoutPassword(newUser));
    }

    /** `getUserById`: the first record in iteration order whose id matches,
        without its password, or none when no record has that id. */
    method GetUserById(id: string) returns (r: Option<User>)
      requires Valid()
      ensures r.None? <==> forall name :: name in users ==> users[name].id != id
      ensures r.Some? ==>
                exists i :: 0 <= i < |order|
                            && users[order[i]].id == id
                            && r.value == WithoutPassword(users[order[i]])
                            && forall j :: 0 <= j < i ==> users[order[j]].id != id
    {
      var i := 0;
      while i < |order|
        invariant 0 <= i <= |order|
        invariant forall j :: 0 <= j < i ==> users[order[j]].id != id
      {
        var stored := users[order[i]];
        if stored.id == id {
          return Some(WithoutPassword(stored));
        }
        i := i + 1;
      }
      return None;
    }

    /** `getUserByUsername`: none exactly when the username is not stored,
        otherwise that user's record without its password. */
    function GetUserByUsername(username: string): (r: Option<User>)
      reads this
      requires Valid()
      ensures r.None? <==> username !in users
      ensures r.Some? ==> r.value.username == username && r.value == WithoutPassword(users[username])
    {
      if username !in users then None else Some(WithoutPassword(users[username]))
    }
  }
}
