/**
 * The session-issuing route handlers: POST /api/auth/register, /login,
 * /refresh and /logout. The user table is a map from user id to record; each
 * handler is a method that reads or overwrites the stored refresh-token hash,
 * sets or clears the `refreshToken` cookie, and returns a status and a body.
 */
module AuthRoutes {
  import opened Wrappers
  import opened Auth
  import Jwt
  import Bcrypt

  /** A row of the user table. `refreshToken` holds the bcrypt hash of the current refresh token, if any. */
  datatype User = User(
    id: string,
    email: string,
    name: string,
    password: Bcrypt.Digest,
    refreshToken: Option<Bcrypt.Digest>,
    createdAt: nat)

  /** The fields a response may show: no password hash, no refresh token. */
  datatype PublicUser = PublicUser(id: string, email: string, name: string, createdAt: nat)

  function PublicView(u: User): PublicUser {
    PublicUser(u.id, u.email, u.name, u.createdAt)
  }

  datatype Body =
    | ErrorBody(error: string)
    | ValidationFailed(details: set<string>)
    | AuthBody(user: PublicUser, accessToken: string)
    | MessageBody(message: string)

  datatype Response = Response(status: nat, body: Body)

  /**
   * What `schema.safeParse(await request.json())` gave: the body was not JSON
   * (so `request.json()` threw), it failed validation in the named fields, or it
   * passed with `data`. The auth schemas are not part of this model, so their
   * verdict is an input.
   */
  datatype Parsed<T> = NotJson | Invalid(fieldErrors: set<string>) | Valid(data: T)

  datatype RegisterInput = RegisterInput(name: string, email: string, password: string)
  datatype LoginInput = LoginInput(email: string, password: string)

  const InternalError: Response := Response(500, ErrorBody("Internal server error"))
  const EmailExists: Response := Response(409, ErrorBody("An account with this email already exists"))
  const InvalidCredentials: Response := Response(401, ErrorBody("Invalid email or password"))
  const NoRefreshToken: Response := Response(401, ErrorBody("No refresh token provided"))
  const InvalidOrExpired: Response := Response(401, ErrorBody("Invalid or expired refresh token"))
  const SessionExpired: Response := Response(401, ErrorBody("User not found or session expired"))
  const TokenMismatch: Response := Response(401, ErrorBody("Invalid refresh token"))
  const LoggedOut: Response := Response(200, MessageBody("Logged out successfully"))

  function ValidationError(fields: set<string>): Response {
    Response(400, ValidationFailed(fields))
  }

  /** Every row is filed under its own id, and e-mail addresses are unique (the schema's `@unique`). */
  ghost predicate StoreValid(users: map<string, User>) {
    && (forall id :: id in users ==> users[id].id == id)
    && (forall a, b :: a in users && b in users && users[a].email == users[b].email ==> a == b)
  }

  /** Rewriting a row without changing its id or e-mail keeps the table valid. */
  lemma UpdateKeepsValid(users: map<string, User>, id: string, u: User)
    requires StoreValid(users) && id in users && u.id == id && u.email == users[id].email
    ensures StoreValid(users[id := u])
  {
    var m := users[id := u];
    forall a, b | a in m && b in m && m[a].email == m[b].email ensures a == b {
      assert m[a].email == users[a].email && m[b].email == users[b].email;
    }
  }

  /** Adding a row under a fresh id with an unused e-mail keeps the table valid. */
  lemma InsertKeepsValid(users: map<string, User>, u: User)
    requires StoreValid(users) && u.id !in users && !EmailTaken(users, u.email)
    ensures StoreValid(users[u.id := u])
  {
    var m := users[u.id := u];
    forall a, b | a in m && b in m && m[a].email == m[b].email ensures a == b {
      if a != u.id && b != u.id {
        assert m[a] == users[a] && m[b] == users[b];
      }
    }
  }

  predicate EmailTaken(users: map<string, User>, email: string) {
    exists id :: id in users && users[id].email == email
  }

  /** The id of the one user with `email`. */
  ghost function IdWithEmail(users: map<string, User>, email: string): (id: string)
    requires EmailTaken(users, email)
    ensures id in users && users[id].email == email
  {
    var id :| id in users && users[id].email == email; id
  }

  /** Some user has this e-mail and this password. */
  predicate CredentialsMatch(users: map<string, User>, d: LoginInput) {
    exists id :: id in users && users[id].email == d.email && Bcrypt.Compare(d.password, users[id].password)
  }

  /**
   * The user's stored hash accepts the cookie's token, and exactly the tokens
   * that agree with it on the 72 characters bcrypt reads.
   */
  ghost predicate SessionMatches(users: map<string, User>, id: string, cookie: Option<string>) {
    && id in users && users[id].refreshToken.Some? && cookie.Some?
    && forall t :: Bcrypt.Compare(t, users[id].refreshToken.value) <==> Bcrypt.Head(t) == Bcrypt.Head(cookie.value)
  }

  /** Storing the hash of `token` for user `id` makes the cookie holding `token` the matching session. */
  lemma StoredSession(users: map<string, User>, id: string, u: User, token: string, salt: nat)
    ensures SessionMatches(users[id := u.(refreshToken := Some(Bcrypt.Hash(token, salt)))], id, Some(token))
  {
  }

  /** The user whose stored hash `logout` clears: the subject of a cookie that verifies as a refresh token. */
  function LogoutTarget(env: Env, cookie: Option<string>, now: nat): (r: Option<string>)
    ensures !Present(cookie) ==> r.None?
    ensures r.Some? ==>
      && r.value != [] && cookie.Some?
      && exists c :: cookie.value == Jwt.Sign(c, env.refreshSecret) && now < c.exp && c.userId == r.value
  {
    if !Present(cookie) then None
    else
      match VerifyToken(env, Refresh, cookie.value, now)
      case None => None
      case Some(c) => if c.userId != [] then Some(c.userId) else None
  }

  /**
   * The table after `logout` with the user `target`: that user's stored hash
   * is nulled when the row exists; nothing else changes.
   */
  function ClearSession(users: map<string, User>, target: Option<string>): (r: map<string, User>)
    ensures r.Keys == users.Keys
    ensures forall id :: id in users && target != Some(id) ==> r[id] == users[id]
    ensures target.Some? && target.value in users ==>
      r[target.value] == users[target.value].(refreshToken := None)
  {
    match target
    case Some(id) => if id in users then users[id := users[id].(refreshToken := None)] else users
    case None => users
  }

  /** After logout the named user has no session: no token at all matches the stored hash. */
  lemma ClearedHasNoSession(users: map<string, User>, id: string, cookie: Option<string>)
    requires id in users
    ensures !SessionMatches(ClearSession(users, Some(id)), id, cookie)
  {
  }

  /**
   * Logout compares nothing against the stored hash: any refresh token of the
   * user that still verifies names the user, so even a token rotated out by a
   * later refresh or login ends the current session.
   */
  lemma StaleTokenStillLogsOut(env: Env, s: Subject, issued: nat, now: nat)
    requires GenerateToken(env, Refresh, s, issued).Success?
    requires now < issued + LifetimeOf(env, Refresh) && s.userId != []
    ensures LogoutTarget(env, Some(GenerateToken(env, Refresh, s, issued).value), now) == Some(s.userId)
  {
    Jwt.SignNotEmpty(ClaimsFor(env, Refresh, s, issued), env.refreshSecret);
    GeneratedVerifies(env, Refresh, s, issued, now);
  }

  /**
   * Rotation does not revoke: when a subject's id and e-mail fill the 72
   * characters bcrypt reads, a refresh token issued at one second is accepted
   * for the stored hash of the token issued at any other, although the two
   * tokens differ.
   */
  lemma RotatedTokenStillMatches(env: Env, s: Subject, i1: nat, i2: nat, salt: nat)
    requires GenerateToken(env, Refresh, s, i1).Success? && i1 != i2
    requires |Jwt.SubjectText(ClaimsFor(env, Refresh, s, i1))| >= Bcrypt.MaxBytes
    ensures var t1 := GenerateToken(env, Refresh, s, i1).value;
            var t2 := GenerateToken(env, Refresh, s, i2).value;
            t1 != t2 && Bcrypt.Compare(t1, Bcrypt.Hash(t2, salt))
  {
    var k := env.refreshSecret;
    var c1, c2 := ClaimsFor(env, Refresh, s, i1), ClaimsFor(env, Refresh, s, i2);
    TokensEqualIff(env, Refresh, s, i1, s, i2);
    Jwt.SameSubjectSameStart(c1, k, c2, k, Bcrypt.MaxBytes);
  }

  /**
   * The evidently intended session check: the whole presented token against the
   * whole token the stored hash was made from, as hashing a digest of the token
   * that fits in 72 bytes would give.
   */
  predicate WholeTokenMatches(t: string, d: Bcrypt.Digest) {
    t == d.preimage
  }

  /** With the whole-token check, rotation revokes: only the newest refresh token is accepted. */
  lemma RotationRevokesWithWholeCheck(env: Env, s: Subject, i1: nat, i2: nat, salt: nat)
    requires GenerateToken(env, Refresh, s, i1).Success? && i1 != i2
    ensures var t1 := GenerateToken(env, Refresh, s, i1).value;
            var t2 := GenerateToken(env, Refresh, s, i2).value;
            var d := Bcrypt.Hash(t2, salt);
            WholeTokenMatches(t2, d) && !WholeTokenMatches(t1, d)
  {
    TokensEqualIff(env, Refresh, s, i1, s, i2);
  }

  class AuthServer {
    const env: Env
    var users: map<string, User>

    ghost predicate Valid()
      reads this
    {
      StoreValid(users)
    }

    constructor (env: Env)
      ensures Valid() && this.env == env && users == map[]
    {
      this.env := env;
      users := map[];
    }

    /**
     * The step the three issuing handlers share: sign an access and a refresh
     * token for the stored user, store the hash of the refresh token over the
     * previous one, and set the cookie to that same token. Signing happens
     * before the write, so when it throws nothing has changed.
     */
    method IssueSession(user: User, jar: CookieJar, now: nat, tokenSalt: nat) returns (accessToken: Option<string>)
      requires Valid() && user.id in users && users[user.id] == user
      modifies this, jar
      ensures Valid()
      ensures !Configured(env) ==> accessToken.None? && users == old(users) && unchanged(jar)
      ensures Configured(env) ==>
        var s := Subject(user.id, user.email);
        var refresh := GenerateToken(env, Refresh, s, now).value;
        && accessToken == Some(GenerateToken(env, Access, s, now).value)
        && users == old(users)[user.id := user.(refreshToken := Some(Bcrypt.Hash(refresh, tokenSalt)))]
        && jar.refreshToken == Some(refresh)
        && jar.written == old(jar.written) + [RefreshCookie(env, refresh)]
        && SessionMatches(users, user.id, jar.refreshToken)
    {
      var access := GenerateToken(env, Access, Subject(user.id, user.email), now);
      if access.Failure? {
        return None;
      }
      var refresh := GenerateToken(env, Refresh, Subject(user.id, user.email), now);
      if refresh.Failure? {
        return None;
      }
      var stored := user.(refreshToken := Some(Bcrypt.Hash(refresh.value, tokenSalt)));
      UpdateKeepsValid(users, user.id, stored);
      StoredSession(users, user.id, user, refresh.value, tokenSalt);
      users := users[user.id := stored];
      jar.SetRefreshTokenCookie(env, refresh.value);
      accessToken := Some(access.value);
    }

    /**
     * POST /api/auth/register. `newId` and `createdAt` are what the database
     * assigns; the salts are bcrypt's random salts for the password and the
     * refresh token.
     */
    method Register(body: Parsed<RegisterInput>, jar: CookieJar, now: nat, newId: string, createdAt: nat,
                    passwordSalt: nat, tokenSalt: nat) returns (resp: Response)
      requires Valid()
      modifies this, jar
      ensures Valid()
      ensures body.NotJson? ==> resp == InternalError && users == old(users) && unchanged(jar)
      ensures body.Invalid? ==> resp == ValidationError(body.fieldErrors) && users == old(users) && unchanged(jar)
      ensures body.Valid? ==> Created(old(users), users, old(jar.written), jar.refreshToken, jar.written, body.data, now, newId, createdAt,
                                      passwordSalt, tokenSalt, resp)
      ensures resp.status != 201 ==> unchanged(jar)
      ensures resp.status == 201 ==>
        && users.Keys == old(users).Keys + {newId} && newId !in old(users)
        && SessionMatches(users, newId, jar.refreshToken)
    {
      match body {
        case NotJson =>
          resp := InternalError;
        case Invalid(errors) =>
          resp := ValidationError(errors);
        case Valid(d) =>
          resp := CreateAccount(d, jar, now, newId, createdAt, passwordSalt, tokenSalt);
      }
    }

    /**
     * What registering the validated input `d` does, from the table `before`
     * and the cookies written so far `written` to the table `after`, the jar
     * and the response: a taken e-mail is refused with 409; a duplicate id is
     * refused by the database (500); otherwise the row is created, and then
     * either signing throws (500, the user exists without a session) or the
     * session is issued and the answer is 201.
     */
    ghost predicate Created(before: map<string, User>, after: map<string, User>, written: seq<CookieRecord>,
                            cookie: Option<string>, written': seq<CookieRecord>, d: RegisterInput, now: nat,
                            newId: string, createdAt: nat, passwordSalt: nat, tokenSalt: nat, resp: Response)
    {
      var u := User(newId, d.email, d.name, Bcrypt.Hash(d.password, passwordSalt), None, createdAt);
      var subject := Subject(newId, d.email);
      if EmailTaken(before, d.email) then resp == EmailExists && after == before && written' == written
      else if newId in before then resp == InternalError && after == before && written' == written
      else if !Configured(env) then resp == InternalError && after == before[newId := u] && written' == written
      else
        var access := GenerateToken(env, Access, subject, now).value;
        var refresh := GenerateToken(env, Refresh, subject, now).value;
        && after == before[newId := u.(refreshToken := Some(Bcrypt.Hash(refresh, tokenSalt)))]
        && cookie == Some(refresh)
        && written' == written + [RefreshCookie(env, refresh)]
        && resp == Response(201, AuthBody(PublicView(u), access))
    }

    method CreateAccount(d: RegisterInput, jar: CookieJar, now: nat, newId: string, createdAt: nat,
                         passwordSalt: nat, tokenSalt: nat) returns (resp: Response)
      requires Valid()
      modifies this, jar
      ensures Valid()
      ensures Created(old(users), users, old(jar.written), jar.refreshToken, jar.written, d, now, newId, createdAt, passwordSalt, tokenSalt, resp)
      ensures resp.status != 201 ==> unchanged(jar)
      ensures resp.status == 201 ==>
        && users.Keys == old(users).Keys + {newId} && newId !in old(users)
        && SessionMatches(users, newId, jar.refreshToken)
    {
      var user := User(newId, d.email, d.name, Bcrypt.Hash(d.password, passwordSalt), None, createdAt);
      if EmailTaken(users, d.email) {
        resp := EmailExists;
        return;
      }
      if newId in users {
        // the database refuses a duplicate primary key
        resp := InternalError;
        return;
      }
      InsertKeepsValid(users, user);
      users := users[newId := user];
      var accessToken := IssueSession(user, jar, now, tokenSalt);
      if accessToken.None? {
        // signing throws after the row was created
        resp := InternalError;
        return;
      }
      resp := Response(201, AuthBody(PublicView(user), accessToken.value));
    }

    /**
     * POST /api/auth/login. An unknown e-mail and a wrong password give the same
     * answer; only a match overwrites the stored hash and sets the cookie.
     */
    method Login(body: Parsed<LoginInput>, jar: CookieJar, now: nat, tokenSalt: nat) returns (resp: Response)
      requires Valid()
      modifies this, jar
      ensures Valid()
      ensures body.NotJson? ==> resp == InternalError && users == old(users) && unchanged(jar)
      ensures body.Invalid? ==> resp == ValidationError(body.fieldErrors) && users == old(users) && unchanged(jar)
      ensures resp.status == 401 <==> body.Valid? && !CredentialsMatch(old(users), body.data)
      ensures resp.status == 401 ==> resp == InvalidCredentials && users == old(users) && unchanged(jar)
      ensures body.Valid? && CredentialsMatch(old(users), body.data) && !Configured(env) ==>
        resp == InternalError && users == old(users) && unchanged(jar)
      ensures body.Valid? && CredentialsMatch(old(users), body.data) && Configured(env) ==>
        var id := IdWithEmail(old(users), body.data.email);
        var u := old(users)[id];
        var access := GenerateToken(env, Access, Subject(u.id, u.email), now).value;
        var refresh := GenerateToken(env, Refresh, Subject(u.id, u.email), now).value;
        && users == old(users)[id := u.(refreshToken := Some(Bcrypt.Hash(refresh, tokenSalt)))]
        && jar.refreshToken == Some(refresh)
        && jar.written == old(jar.written) + [RefreshCookie(env, refresh)]
        && resp == Response(200, AuthBody(PublicView(u), access))
        && SessionMatches(users, id, jar.refreshToken)
    {
      match body {
        case NotJson =>
          resp := InternalError;
          return;
        case Invalid(errors) =>
          resp := ValidationError(errors);
          return;
        case Valid(d) =>
          if !EmailTaken(users, d.email) {
            resp := InvalidCredentials;
            return;
          }
          var id :| id in users && users[id].email == d.email;
          var user := users[id];
          if !Bcrypt.Compare(d.password, user.password) {
            resp := InvalidCredentials;
            return;
          }
          var accessToken := IssueSession(user, jar, now, tokenSalt);
          if accessToken.None? {
            resp := InternalError;
            return;
          }
          resp := Response(200, AuthBody(PublicView(user), accessToken.value));
      }
    }

    /**
     * POST /api/auth/refresh: cookie, then signature and expiry, then a stored
     * hash, then the hash comparison; only when all four pass are both tokens
     * reissued, for the stored user's id and e-mail, and the hash rotated.
     */
    method RefreshSession(jar: CookieJar, now: nat, tokenSalt: nat) returns (resp: Response)
      requires Valid()
      modifies this, jar
      ensures Valid()
      ensures resp.status != 200 ==> users == old(users) && unchanged(jar)
      ensures !Present(old(jar.refreshToken)) ==> resp == NoRefreshToken
      ensures Present(old(jar.refreshToken)) ==>
        var t := old(jar.refreshToken).value;
        match VerifyToken(env, Refresh, t, now)
        case None => resp == InvalidOrExpired
        case Some(c) =>
          if c.userId !in old(users) || old(users)[c.userId].refreshToken.None? then resp == SessionExpired
          else if !Bcrypt.Compare(t, old(users)[c.userId].refreshToken.value) then resp == TokenMismatch
          else if env.accessSecret == [] then resp == InternalError
          else
            var u := old(users)[c.userId];
            var subject := Subject(u.id, u.email);
            var access := GenerateToken(env, Access, subject, now).value;
            var refresh := GenerateToken(env, Refresh, subject, now).value;
            && users == old(users)[u.id := u.(refreshToken := Some(Bcrypt.Hash(refresh, tokenSalt)))]
            && jar.refreshToken == Some(refresh)
            && jar.written == old(jar.written) + [RefreshCookie(env, refresh)]
            && resp == Response(200, AuthBody(PublicView(u), access))
            && SessionMatches(users, u.id, jar.refreshToken)
            // the presented token still matches exactly when it agrees with the
            // new one on what bcrypt reads; it is the new one only if reissuing
            // reproduced it: same user and e-mail, issued in the same second
            && (Bcrypt.Compare(t, users[u.id].refreshToken.value) <==> Bcrypt.Head(t) == Bcrypt.Head(refresh))
            && (refresh == t <==> c == ClaimsFor(env, Refresh, subject, now))
    {
      var refreshToken := jar.GetRefreshToken();
      if !Present(refreshToken) {
        resp := NoRefreshToken;
        return;
      }
      var payload := VerifyToken(env, Refresh, refreshToken.value, now);
      if payload.None? {
        resp := InvalidOrExpired;
        return;
      }
      var id := payload.value.userId;
      if id !in users || users[id].refreshToken.None? {
        resp := SessionExpired;
        return;
      }
      var user := users[id];
      if !Bcrypt.Compare(refreshToken.value, user.refreshToken.value) {
        resp := TokenMismatch;
        return;
      }
      var newAccessToken := IssueSession(user, jar, now, tokenSalt);
      if newAccessToken.None? {
        resp := InternalError;
        return;
      }
      RotationReproduces(refreshToken.value, payload.value, Subject(user.id, user.email), now);
      resp := Response(200, AuthBody(PublicView(user), newAccessToken.value));
    }

    /**
     * The replay bcrypt's 72-byte limit lets through: the user's stored hash is
     * that of the token issued at `i2`, yet the cookie still holding the token
     * issued at `i1` is refreshed with success.
     */
    method ReplayAfterRotation(jar: CookieJar, s: Subject, i1: nat, i2: nat, rotationSalt: nat, now: nat,
                               tokenSalt: nat) returns (resp: Response)
      requires Valid() && Configured(env)
      requires s.userId in users && users[s.userId].email == s.email
      requires |Jwt.SubjectText(ClaimsFor(env, Refresh, s, i1))| >= Bcrypt.MaxBytes
      requires i1 != i2 && now < i1 + LifetimeOf(env, Refresh)
      requires users[s.userId].refreshToken == Some(Bcrypt.Hash(GenerateToken(env, Refresh, s, i2).value, rotationSalt))
      requires jar.refreshToken == Some(GenerateToken(env, Refresh, s, i1).value)
      modifies this, jar
      ensures GenerateToken(env, Refresh, s, i1) != GenerateToken(env, Refresh, s, i2)
      ensures resp.status == 200 && jar.refreshToken == Some(GenerateToken(env, Refresh, s, now).value)
    {
      RotatedTokenStillMatches(env, s, i1, i2, rotationSalt);
      GeneratedVerifies(env, Refresh, s, i1, now);
      Jwt.SignNotEmpty(ClaimsFor(env, Refresh, s, i1), env.refreshSecret);
      resp := RefreshSession(jar, now, tokenSalt);
    }

    /** The reissued refresh token equals the presented one exactly when their claims agree. */
    lemma RotationReproduces(t: string, c: Jwt.Claims, s: Subject, now: nat)
      requires VerifyToken(env, Refresh, t, now) == Some(c)
      ensures GenerateToken(env, Refresh, s, now) == Success(t) <==> c == ClaimsFor(env, Refresh, s, now)
    {
      Jwt.SignInjective(c, env.refreshSecret, ClaimsFor(env, Refresh, s, now), env.refreshSecret);
    }

    /**
     * POST /api/auth/logout. Best effort: a cookie that verifies as a refresh
     * token names the user whose stored hash is nulled, with no comparison
     * against that hash; if the update throws (no such user) the catch path is
     * taken. Either way the cookie is cleared and the answer is success.
     */
    method Logout(jar: CookieJar, now: nat) returns (resp: Response)
      requires Valid()
      modifies this, jar
      ensures Valid()
      ensures resp == LoggedOut
      ensures jar.refreshToken == None && jar.written == old(jar.written) + [ClearedRefreshCookie(env)]
      ensures match LogoutTarget(env, old(jar.refreshToken), now)
        case Some(id) => users == ClearSession(old(users), Some(id))
        case None => users == old(users)
    {
      var refreshToken := jar.GetRefreshToken();
      if Present(refreshToken) {
        var payload := VerifyToken(env, Refresh, refreshToken.value, now);
        if payload.Some? && payload.value.userId != [] {
          var id := payload.value.userId;
          if id in users {
            UpdateKeepsValid(users, id, users[id].(refreshToken := None));
            users := users[id := users[id].(refreshToken := None)];
          }
          // otherwise prisma.user.update throws for the missing row, and the
          // catch path clears the cookie and answers exactly as the try path
        }
      }
      jar.ClearRefreshTokenCookie(env);
      resp := LoggedOut;
    }

    /** Logging out twice is logging out once: the second call finds no cookie and changes no row. */
    method LogoutTwice(jar: CookieJar, now: nat) returns (first: Response, second: Response)
      requires Valid()
      modifies this, jar
      ensures Valid()
      ensures first == second == LoggedOut
      ensures match LogoutTarget(env, old(jar.refreshToken), now)
        case Some(id) => users == ClearSession(old(users), Some(id))
        case None => users == old(users)
      ensures jar.refreshToken == None
      ensures jar.written == old(jar.written) + [ClearedRefreshCookie(env), ClearedRefreshCookie(env)]
    {
      first := Logout(jar, now);
      second := Logout(jar, now);
    }
  }
}
