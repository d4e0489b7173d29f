/**
 * lib/api-client.ts: the browser-side session manager. Its module state is a
 * cached access token and the shared refresh in flight; `apiClient` attaches
 * the token, and after a 401 refreshes once and retries once.
 *
 * Promises become explicit events: `GetValidToken` starts (or joins) the
 * shared refresh, `SettleSharedRefresh` is that refresh completing, and the
 * replies of `fetch` are parameters.
 */
module ApiClient {
  import opened Wrappers
  import opened Auth

  /** A JSON value, as far as the client looks into it. */
  datatype Json = JNumber(n: int) | JString(s: string) | JOther

  type JsonObject = map<string, Json>

  /** A response as `fetch` delivers it: the status, and the body when it parses as a JSON object. */
  datatype Reply = Reply(status: int, body: Option<JsonObject>)

  /** `res.ok`. */
  predicate Ok(r: Reply) {
    200 <= r.status <= 299
  }

  /**
   * How the POST /api/auth/refresh call ended: a status that is not ok, an
   * exception (the network failed or the body was not JSON), or an ok
   * response whose `accessToken` field is given (it may be missing).
   */
  datatype RefreshReply = NotOk | Threw | Granted(accessToken: Option<string>)

  /** The token `refreshAccessToken` resolves to, which is also what it caches. */
  function RefreshOutcome(reply: RefreshReply): (r: Option<string>)
    ensures !reply.Granted? ==> r == None
    ensures reply.Granted? ==> r == reply.accessToken
  {
    match reply
    case Granted(t) => t
    case _ => None
  }

  const ContentType: string := "Content-Type"
  const Authorization: string := "Authorization"
  const JsonMediaType: string := "application/json"

  /**
   * The header record of a request: a JSON content type that the caller's
   * headers may override, and then `Authorization: Bearer <token>` when the
   * token is truthy, overriding whatever the caller gave.
   */
  function RequestHeaders(caller: map<string, string>, token: Option<string>): (h: map<string, string>)
    ensures h.Keys == caller.Keys + {ContentType} + (if Present(token) then {Authorization} else {})
    ensures h[ContentType] == if ContentType in caller then caller[ContentType] else JsonMediaType
    ensures Present(token) ==> h[Authorization] == BearerPrefix + token.value
    ensures forall k :: k in caller && !(k == Authorization && Present(token)) ==> h[k] == caller[k]
  {
    var base := map[ContentType := JsonMediaType] + caller;
    if Present(token) then base[Authorization := BearerPrefix + token.value] else base
  }

  /** The server reads back from the client's header exactly the token the client attached. */
  lemma ServerReadsClientToken(caller: map<string, string>, t: string)
    requires t != []
    ensures var h := RequestHeaders(caller, Some(t));
      Auth.BearerToken(Some(h[Authorization])) == Some(t)
  {
    BearerOf(t);
  }

  /** Rewriting the Authorization entry of the first request's headers gives the headers built for the new token. */
  lemma RetryHeaders(caller: map<string, string>, token: string, newToken: string)
    requires token != [] && newToken != []
    ensures RequestHeaders(caller, Some(token))[Authorization := BearerPrefix + newToken]
         == RequestHeaders(caller, Some(newToken))
  {
  }

  /**
   * What a response that is not ok throws: `{status, ...body}`, where the
   * body's own keys come last and win, or `{status, error: "Request failed"}`
   * when the body is not JSON.
   */
  function ThrownError(r: Reply): (e: JsonObject)
    ensures r.body.Some? ==> e.Keys == r.body.value.Keys + {"status"}
    ensures r.body.Some? ==> forall k :: k in r.body.value ==> e[k] == r.body.value[k]
    ensures r.body.None? ==> e == map["status" := JNumber(r.status), "error" := JString("Request failed")]
    ensures r.body.None? || "status" !in r.body.value ==> e["status"] == JNumber(r.status)
  {
    var fallback: JsonObject := map["error" := JString("Request failed")];
    map["status" := JNumber(r.status)] + (if r.body.Some? then r.body.value else fallback)
  }

  /** How `apiClient` ends: it returns the parsed body, throws an error object, or rejects because an ok body is not JSON. */
  datatype ClientResult = Returned(body: JsonObject) | Thrown(error: JsonObject) | NotJson

  function Outcome(r: Reply): (c: ClientResult)
    ensures c.Thrown? <==> !Ok(r)
    ensures c.Returned? <==> Ok(r) && r.body.Some?
    ensures c.Returned? ==> c.body == r.body.value
    ensures c.Thrown? ==> c.error == ThrownError(r)
  {
    if !Ok(r) then Thrown(ThrownError(r))
    else if r.body.Some? then Returned(r.body.value)
    else NotJson
  }

  /** What `getValidToken` hands its caller: the cached token at once, or a share in the refresh in flight. */
  datatype TokenWait = Cached(token: string) | Shared

  /**
   * The module state of lib/api-client.ts. `refreshPending` is
   * `refreshPromise !== null`; `refreshRequests` counts the POST
   * /api/auth/refresh requests sent.
   */
  class SessionManager {
    var accessToken: Option<string>
    var refreshPending: bool
    var refreshRequests: nat

    constructor ()
      ensures accessToken == None && !refreshPending && refreshRequests == 0
    {
      accessToken := None;
      refreshPending := false;
      refreshRequests := 0;
    }

    method GetAccessToken() returns (t: Option<string>)
      ensures t == accessToken
    {
      t := accessToken;
    }

    method SetAccessToken(t: Option<string>)
      modifies this
      ensures accessToken == t
      ensures refreshPending == old(refreshPending) && refreshRequests == old(refreshRequests)
    {
      accessToken := t;
    }

    /** The settling half of `refreshAccessToken`: cache the outcome of the refresh reply. */
    method ApplyRefresh(reply: RefreshReply) returns (t: Option<string>)
      modifies this
      ensures t == RefreshOutcome(reply) && accessToken == t
      ensures refreshPending == old(refreshPending) && refreshRequests == old(refreshRequests)
    {
      match reply {
        case NotOk =>
          SetAccessToken(None);
          t := None;
        case Threw =>
          SetAccessToken(None);
          t := None;
        case Granted(token) =>
          SetAccessToken(token);
          t := token;
      }
    }

    /** `refreshAccessToken` called directly: one refresh request, whose outcome is cached and returned. */
    method RefreshAccessToken(reply: RefreshReply) returns (t: Option<string>)
      modifies this
      ensures t == RefreshOutcome(reply) && accessToken == t
      ensures refreshRequests == old(refreshRequests) + 1
      ensures refreshPending == old(refreshPending)
    {
      refreshRequests := refreshRequests + 1;
      t := ApplyRefresh(reply);
    }

    /**
     * `getValidToken`: a truthy cached token is handed out and nothing else
     * happens; otherwise the caller shares the refresh in flight, which is
     * started only when none is.
     */
    method GetValidToken() returns (w: TokenWait)
      modifies this
      ensures Present(old(accessToken)) ==> w == Cached(old(accessToken).value) && unchanged(this)
      ensures !Present(old(accessToken)) ==>
        && w == Shared && refreshPending && accessToken == old(accessToken)
        && refreshRequests == old(refreshRequests) + (if old(refreshPending) then 0 else 1)
    {
      if Present(accessToken) {
        return Cached(accessToken.value);
      }
      if !refreshPending {
        refreshRequests := refreshRequests + 1;
        refreshPending := true;
      }
      w := Shared;
    }

    /**
     * The shared refresh settles: its outcome is cached and given to every
     * caller that shares it, and the `finally` callback clears the marker,
     * whether the refresh succeeded or failed.
     */
    method SettleSharedRefresh(reply: RefreshReply) returns (t: Option<string>)
      requires refreshPending
      modifies this
      ensures t == RefreshOutcome(reply) && accessToken == t
      ensures !refreshPending && refreshRequests == old(refreshRequests)
    {
      t := ApplyRefresh(reply);
      refreshPending := false;
    }

    /**
     * `apiClient(url, options)` once `getValidToken` has given `token`. The
     * first request carries `token`; a 401 to a request that carried a token
     * triggers one direct refresh (not shared through `refreshPromise`), and a
     * second request only if that refresh produced a token. `sent` lists the
     * header records of the requests made, and the last reply decides the result.
     */
    method Request(caller: map<string, string>, token: Option<string>, first: Reply, retry: RefreshReply,
                   second: Reply) returns (sent: seq<map<string, string>>, result: ClientResult)
      modifies this
      ensures var retried := first.status == 401 && Present(token);
        var newToken := RefreshOutcome(retry);
        && 1 <= |sent| <= 2
        && sent[0] == RequestHeaders(caller, token)
        && (|sent| == 2 <==> retried && Present(newToken))
        && (|sent| == 2 ==> sent[1] == RequestHeaders(caller, newToken))
        && result == Outcome(if |sent| == 2 then second else first)
        && (retried ==> accessToken == newToken && refreshRequests == old(refreshRequests) + 1)
        && (!retried ==> accessToken == old(accessToken) && refreshRequests == old(refreshRequests))
        && refreshPending == old(refreshPending)
    {
      var headers := RequestHeaders(caller, token);
      sent := [headers];
      var res := first;
      if res.status == 401 && Present(token) {
        var newToken := RefreshAccessToken(retry);
        if Present(newToken) {
          RetryHeaders(caller, token.value, newToken.value);
          headers := headers[Authorization := BearerPrefix + newToken.value];
          sent := sent + [headers];
          res := second;
        }
      }
      result := Outcome(res);
    }

    /**
     * Two callers find no usable token while no refresh is in flight: both
     * share one refresh request, and both receive its outcome.
     */
    method SharedRefresh(reply: RefreshReply) returns (w1: TokenWait, w2: TokenWait, t: Option<string>)
      requires !Present(accessToken) && !refreshPending
      modifies this
      ensures w1 == Shared && w2 == Shared
      ensures refreshRequests == old(refreshRequests) + 1 && !refreshPending
      ensures t == RefreshOutcome(reply) && accessToken == t
    {
      w1 := GetValidToken();
      w2 := GetValidToken();
      t := SettleSharedRefresh(reply);
    }
  }
}
