/**
 * proxy.ts: the route gate run before every page request. It looks only at
 * the path and at whether a `refreshToken` cookie with a non-empty value came
 * along; the token itself is checked by the API routes, not here.
 */
module Proxy {
  import opened Wrappers
  import opened Strings
  import opened Auth

  const PublicPaths: seq<string> := ["/login", "/register", "/api/auth"]

  datatype Decision = Next | RedirectToLogin

  /** `PUBLIC_PATHS.some(path => pathname.startsWith(path))`. */
  predicate IsPublic(pathname: string) {
    exists i :: 0 <= i < |PublicPaths| && StartsWith(pathname, PublicPaths[i])
  }

  /** Next.js internals, the favicon, and anything that looks like a file name. */
  predicate IsAsset(pathname: string) {
    StartsWith(pathname, "/_next") || StartsWith(pathname, "/favicon") || Includes(pathname, ".")
  }

  /** `proxy(request)`, with the `refreshToken` cookie's value (if the cookie was sent). */
  function Gate(pathname: string, cookie: Option<string>): (d: Decision)
    ensures d == RedirectToLogin <==> !IsPublic(pathname) && !IsAsset(pathname) && !Present(cookie)
  {
    if IsPublic(pathname) then Next
    else if IsAsset(pathname) then Next
    else if !Present(cookie) then RedirectToLogin
    else Next
  }

  /** Any path that extends a public prefix passes, cookie or not: the test is a prefix test. */
  lemma PublicPrefixPasses(i: nat, rest: string, cookie: Option<string>)
    requires i < |PublicPaths|
    ensures Gate(PublicPaths[i] + rest, cookie) == Next
  {
    var p := PublicPaths[i] + rest;
    assert p[..|PublicPaths[i]|] == PublicPaths[i];
    assert StartsWith(p, PublicPaths[i]);
  }

  /** So "/loginx" is public too, and the login page itself is never redirected: no redirect loop. */
  lemma LoginNeverRedirected(cookie: Option<string>)
    ensures Gate("/login", cookie) == Next
    ensures Gate("/loginx", cookie) == Next
  {
    PublicPrefixPasses(0, "", cookie);
    PublicPrefixPasses(0, "x", cookie);
    assert "/login" + "" == "/login";
  }

  /** Assets pass regardless of cookies. */
  lemma AssetsPass(pathname: string, cookie: Option<string>)
    requires IsAsset(pathname)
    ensures Gate(pathname, cookie) == Next
  {
  }

  /** A path containing a dot is treated as an asset. */
  lemma DottedPathPasses(pathname: string, cookie: Option<string>)
    requires '.' in pathname
    ensures Gate(pathname, cookie) == Next
  {
    IncludesChar(pathname, '.');
  }

  /** A request that passes without the cookie passes with any cookie. */
  lemma Monotone(pathname: string, cookie: Option<string>)
    ensures Gate(pathname, None) == Next ==> Gate(pathname, cookie) == Next
  {
  }

  /** The cookie's contents are not inspected: any two non-empty values are treated alike. */
  lemma CookieValueIgnored(pathname: string, v1: string, v2: string)
    requires v1 != [] && v2 != []
    ensures Gate(pathname, Some(v1)) == Gate(pathname, Some(v2)) == Next
  {
  }

  /** A protected page is redirected when the cookie is missing or empty, and served when it is present. */
  lemma DashboardGated(v: string)
    requires v != []
    ensures Gate("/dashboard", None) == RedirectToLogin
    ensures Gate("/dashboard", Some("")) == RedirectToLogin
    ensures Gate("/dashboard", Some(v)) == Next
  {
    var p := "/dashboard";
    IncludesChar(p, '.');
    assert '.' !in p;
    forall i | 0 <= i < |PublicPaths|
      ensures !StartsWith(p, PublicPaths[i])
    {
      assert p[1] != PublicPaths[i][1];
    }
    assert !StartsWith(p, "/_next") by { assert p[1] != "/_next"[1]; }
    assert !StartsWith(p, "/favicon") by { assert p[1] != "/favicon"[1]; }
  }
}
