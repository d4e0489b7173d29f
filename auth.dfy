/**
 * lib/auth.ts: issuing and verifying the two kinds of token, reading the
 * bearer header, and writing or clearing the `refreshToken` cookie.
 */
module Auth {
  import opened Wrappers
  import opened Strings
  import Jwt

  datatype TokenKind = Access | Refresh

  /** The process environment the module reads. Durations are in seconds; `None` means unset. */
  datatype Env = Env(
    accessSecret: Jwt.Key,
    refreshSecret: Jwt.Key,
    accessExpiry: Option<nat>,
    refreshExpiry: Option<nat>,
    production: bool)

  /** The defaults "15m" and "7d", in seconds. */
  const DefaultAccessExpiry: nat := 15 * 60
  const DefaultRefreshExpiry: nat := 7 * 24 * 60 * 60

  function SecretOf(env: Env, kind: TokenKind): Jwt.Key {
    match kind
    case Access => env.accessSecret
    case Refresh => env.refreshSecret
  }

  function LifetimeOf(env: Env, kind: TokenKind): nat {
    match kind
    case Access => if env.accessExpiry.Some? then env.accessExpiry.value else DefaultAccessExpiry
    case Refresh => if env.refreshExpiry.Some? then env.refreshExpiry.value else DefaultRefreshExpiry
  }

  /** Both secrets are set; otherwise signing throws. */
  predicate Configured(env: Env) {
    env.accessSecret != [] && env.refreshSecret != []
  }

  /** The `{userId, email}` payload both generators are given. */
  datatype Subject = Subject(userId: string, email: string)

  /** What `sign` throws when the key is empty (an unset secret). */
  datatype SigningError = EmptySecret

  /** The claims a token of `kind` issued at second `now` carries. */
  function ClaimsFor(env: Env, kind: TokenKind, s: Subject, now: nat): Jwt.Claims {
    Jwt.Claims(s.userId, s.email, now, now + LifetimeOf(env, kind))
  }

  /**
   * `generateAccessToken` / `generateRefreshToken`: sign `{userId, email}` with
   * `iat` = now and `exp` = now + lifetime under the kind's own secret.
   */
  function GenerateToken(env: Env, kind: TokenKind, s: Subject, now: nat): (r: Result<string, SigningError>)
    ensures r.Failure? <==> SecretOf(env, kind) == []
    ensures r.Success? ==> r.value == Jwt.Sign(ClaimsFor(env, kind, s, now), SecretOf(env, kind))
  {
    var key := SecretOf(env, kind);
    if key == [] then Failure(EmptySecret)
    else Success(Jwt.Sign(ClaimsFor(env, kind, s, now), key))
  }

  /** A generated token reads back as exactly the claims it was issued with, under its kind's secret. */
  lemma GeneratedDecodes(env: Env, kind: TokenKind, s: Subject, now: nat)
    requires GenerateToken(env, kind, s, now).Success?
    ensures Jwt.Decode(GenerateToken(env, kind, s, now).value) == Some((ClaimsFor(env, kind, s, now), SecretOf(env, kind)))
  {
    Jwt.DecodeSign(ClaimsFor(env, kind, s, now), SecretOf(env, kind));
  }

  /** `verifyAccessToken` / `verifyRefreshToken`: the payload, or `None` on every kind of failure. */
  function VerifyToken(env: Env, kind: TokenKind, token: string, now: nat): (r: Option<Jwt.Claims>)
    ensures r.Some? ==> token == Jwt.Sign(r.value, SecretOf(env, kind)) && now < r.value.exp
  {
    Jwt.Verify(token, SecretOf(env, kind), now)
  }

  /** A generated token verifies as its own kind exactly until its lifetime has elapsed, with the subject it was issued for. */
  lemma GeneratedVerifies(env: Env, kind: TokenKind, s: Subject, issued: nat, now: nat)
    requires GenerateToken(env, kind, s, issued).Success?
    ensures var c := VerifyToken(env, kind, GenerateToken(env, kind, s, issued).value, now);
      && (c.Some? <==> now < issued + LifetimeOf(env, kind))
      && (c.Some? ==> c.value.userId == s.userId && c.value.email == s.email && c.value.iat == issued)
  {
    var key := SecretOf(env, kind);
    Jwt.VerifySigned(ClaimsFor(env, kind, s, issued), key, key, now);
  }

  /** When the two secrets differ, no token of one kind is accepted as the other kind. */
  lemma CrossKindRejected(env: Env, s: Subject, issued: nat, now: nat)
    requires env.accessSecret != env.refreshSecret
    ensures var a := GenerateToken(env, Access, s, issued);
      a.Success? ==> VerifyToken(env, Refresh, a.value, now).None?
    ensures var r := GenerateToken(env, Refresh, s, issued);
      r.Success? ==> VerifyToken(env, Access, r.value, now).None?
  {
    Jwt.VerifySigned(ClaimsFor(env, Access, s, issued), env.accessSecret, env.refreshSecret, now);
    Jwt.VerifySigned(ClaimsFor(env, Refresh, s, issued), env.refreshSecret, env.accessSecret, now);
  }

  /** The two generators embed the same `{userId, email}` and issue time; only lifetime and key differ. */
  lemma KindsShareClaims(env: Env, s: Subject, now: nat)
    ensures var a := ClaimsFor(env, Access, s, now);
      var r := ClaimsFor(env, Refresh, s, now);
      a.(exp := r.exp) == r && a.userId == s.userId && a.email == s.email
  {
  }

  /**
   * Tokens are deterministic in their claims: two tokens of one kind are equal
   * exactly when they were issued for the same subject in the same second.
   */
  lemma TokensEqualIff(env: Env, kind: TokenKind, s1: Subject, n1: nat, s2: Subject, n2: nat)
    requires GenerateToken(env, kind, s1, n1).Success?
    ensures GenerateToken(env, kind, s1, n1) == GenerateToken(env, kind, s2, n2) <==> s1 == s2 && n1 == n2
  {
    var key := SecretOf(env, kind);
    Jwt.SignInjective(ClaimsFor(env, kind, s1, n1), key, ClaimsFor(env, kind, s2, n2), key);
  }

  const BearerPrefix: string := "Bearer "

  /**
   * The token part of an `Authorization` header (section 2.1 of RFC 6750),
   * matched case-sensitively on the exact prefix "Bearer ": the header with its
   * first 7 characters removed, or `None` when the header is missing or does
   * not start with that prefix.
   */
  function BearerToken(header: Option<string>): (r: Option<string>)
    ensures r.Some? <==> header.Some? && StartsWith(header.value, BearerPrefix)
    ensures r.Some? ==> header.value == BearerPrefix + r.value
  {
    if header.Some? && StartsWith(header.value, BearerPrefix) then
      assert header.value == header.value[..7] + header.value[7..];
      Some(header.value[7..])
    else None
  }

  /** The header "Bearer " + t yields exactly t. */
  lemma BearerOf(t: string)
    ensures BearerToken(Some(BearerPrefix + t)) == Some(t)
  {
    assert (BearerPrefix + t)[..7] == BearerPrefix;
    assert (BearerPrefix + t)[7..] == t;
  }

  /** The scheme is matched case-sensitively: "bearer x" and a bare token are refused. */
  lemma BearerCaseSensitive()
    ensures BearerToken(Some("bearer x")) == None
    ensures BearerToken(Some("Bearer")) == None
  {
    assert "bearer x"[..7] != BearerPrefix by { assert "bearer x"[0] != BearerPrefix[0]; }
  }

  /** `getAuthUser`: the access-token payload of the request's bearer header, or `None`. */
  function GetAuthUser(env: Env, header: Option<string>, now: nat): (r: Option<Jwt.Claims>)
    ensures BearerToken(header).None? ==> r.None?
    ensures r.Some? ==> header == Some(BearerPrefix + Jwt.Sign(r.value, env.accessSecret)) && now < r.value.exp
  {
    match BearerToken(header)
    case None => None
    case Some(t) => VerifyToken(env, Access, t, now)
  }

  /** A request carrying a freshly issued access token authenticates as its subject until the token expires. */
  lemma BearerAuthenticates(env: Env, s: Subject, issued: nat, now: nat)
    requires GenerateToken(env, Access, s, issued).Success?
    ensures var h := Some(BearerPrefix + GenerateToken(env, Access, s, issued).value);
      var u := GetAuthUser(env, h, now);
      && (u.Some? <==> now < issued + LifetimeOf(env, Access))
      && (u.Some? ==> u.value.userId == s.userId && u.value.email == s.email)
  {
    BearerOf(GenerateToken(env, Access, s, issued).value);
    GeneratedVerifies(env, Access, s, issued, now);
  }

  datatype SameSite = Strict | Lax | NoRestriction

  /** The attribute record passed to `cookies().set(name, value, options)`. */
  datatype CookieRecord = CookieRecord(
    name: string,
    value: string,
    httpOnly: bool,
    secure: bool,
    sameSite: SameSite,
    maxAge: nat,
    path: string)

  const RefreshCookieName: string := "refreshToken"
  const RefreshCookieMaxAge: nat := 7 * 24 * 60 * 60

  /** `setRefreshTokenCookie(token)`: an HTTP-only, same-site-strict, site-wide cookie that lives 7 days. */
  function RefreshCookie(env: Env, token: string): (r: CookieRecord)
    ensures r.name == RefreshCookieName && r.value == token
    ensures r.httpOnly && r.sameSite == Strict && r.path == "/"
    ensures r.maxAge == 604800
    ensures r.secure <==> env.production
  {
    CookieRecord(RefreshCookieName, token, true, env.production, Strict, RefreshCookieMaxAge, "/")
  }

  /** `clearRefreshTokenCookie()`: the same cookie with an empty value and no lifetime left. */
  function ClearedRefreshCookie(env: Env): (r: CookieRecord)
    ensures r == RefreshCookie(env, "").(maxAge := 0)
  {
    CookieRecord(RefreshCookieName, "", true, env.production, Strict, 0, "/")
  }

  /** What the browser keeps after receiving `rec`: a `Max-Age` of 0 deletes the cookie. */
  function Kept(rec: CookieRecord): (r: Option<string>)
    ensures rec.maxAge == 0 <==> r.None?
  {
    if rec.maxAge == 0 then None else Some(rec.value)
  }

  /** A cookie value counts as present only when it is non-empty (`!refreshToken` in the route handlers). */
  predicate Present(v: Option<string>) {
    v.Some? && v.value != []
  }

  /**
   * The client's `refreshToken` cookie as the server sees it on each request,
   * and the `Set-Cookie` records the server has written so far.
   */
  class CookieJar {
    var refreshToken: Option<string>
    var written: seq<CookieRecord>

    constructor (initial: Option<string>)
      ensures refreshToken == initial && written == []
    {
      refreshToken := initial;
      written := [];
    }

    /** `getRefreshTokenFromCookie()`. */
    method GetRefreshToken() returns (v: Option<string>)
      ensures v == refreshToken
    {
      v := refreshToken;
    }

    method SetRefreshTokenCookie(env: Env, token: string)
      modifies this
      ensures written == old(written) + [RefreshCookie(env, token)]
      ensures refreshToken == Kept(RefreshCookie(env, token)) == Some(token)
    {
      var rec := RefreshCookie(env, token);
      written := written + [rec];
      refreshToken := Kept(rec);
    }

    method ClearRefreshTokenCookie(env: Env)
      modifies this
      ensures written == old(written) + [ClearedRefreshCookie(env)]
      ensures refreshToken == Kept(ClearedRefreshCookie(env)) == None
    {
      var rec := ClearedRefreshCookie(env);
      written := written + [rec];
      refreshToken := Kept(rec);
    }
  }
}
