# Task manager sessions, gating and task rules in Dafny

This project models the core of a small Next.js task manager, written in TypeScript, and proves properties of it:

- the server side of its session scheme: short-lived access tokens, refresh tokens kept in an HTTP-only cookie, and the bcrypt hash of the current refresh token stored on the user's row. It covers the register, login, refresh and logout handlers and the token and cookie helpers of `lib/auth.ts`;
- the browser's session manager (`lib/api-client.ts`). It caches the access token, shares one refresh among concurrent callers, and after a 401 refreshes and retries once;
- the page gate (`proxy.ts`) and the bearer-header reader;
- the task API's listing and creation rules (`app/api/tasks/route.ts`) and the zod task schemas (`lib/validations/task.ts`);
- four small UI helpers: the task list's query and filter state, the sidebar's active item, the avatar initials, and the status badge text.

| file | module | form |
|---|---|---|
| `wrappers.dfy` | `Wrappers` | `Option` and `Result` |
| `strings.dfy` | `Strings` | the JavaScript string built-ins the source uses (`startsWith`, `includes`, `indexOf`, `trim`, ASCII case mapping, `String(n)`/`parseInt` on naturals) |
| `jwt.dfy` | `Jwt`, `Bcrypt` | abstract models of `jose` tokens and of bcrypt |
| `auth.dfy` | `Auth` | functions for tokens and headers; a `CookieJar` class for the cookie the handlers set and clear |
| `auth_routes.dfy` | `AuthRoutes` | an `AuthServer` class over the user table (`map<string, User>`), and one method per handler |
| `api_client.dfy` | `ApiClient` | a `SessionManager` class: the two module variables and a counter of refresh requests. Promise events are method calls |
| `proxy.dfy` | `Proxy` | a pure predicate and lemmas about it |
| `task_types.dfy` | `TaskTypes` | the status and priority enumerations |
| `task_validation.dfy` | `TaskValidation` | the two schemas as one parser, plus the declarative predicates it is proved against |
| `tasks_route.dfy` | `TasksRoute` | the parameter arithmetic and filter as functions; a `TaskServer` class over the task table |
| `task_list.dfy` | `TaskList` | `URLSearchParams` as a pair list; a `ListState` class for the list's state hooks |
| `sidebar.dfy`, `header.dfy`, `task_card.dfy` | `Sidebar`, `Header`, `TaskCard` | pure helpers |

## How the model is built

- **Tokens.**
  - A token is a string from which its claims (`userId`, `email`, `iat`, `exp`) and its signing key can be read back exactly. `Jwt.DecodeSign` and the contract of `Jwt.Decode` prove this. As in jose's payload, the id and e-mail come first and the times after them.
  - Verifying under a key succeeds iff the token was signed with that key and has not expired (`now < exp`). This is the "perfect MAC" abstraction of HS256.
  - An unset secret becomes an empty key. `TextEncoder` turns `undefined` into an empty key, and signing with an empty HMAC key throws, so `GenerateToken` fails and the handler answers 500. Verifying under an empty key always fails.
  - Lifetimes are numbers of seconds, defaulting to 900 and 604800.
- **bcrypt.** A digest remembers its preimage and its salt. bcryptjs reads at most 72 bytes of its input. `compare(p, h)` therefore holds iff `p` agrees with the string `h` was made from on their first 72 characters, whichever salt was used. Characters stand for bytes. The random salts are method parameters.
- **Time.** `now` is a parameter that counts seconds, as `iat` and `exp` do. Because tokens are deterministic, two tokens for the same subject issued in the same second are equal.
- **Rotation.** Refresh tokens of one subject differ only after their first 72 characters when the subject is long enough, so `compare` cannot tell them apart. The refresh handler's contract states what rotation does:
  - after rotation, the old cookie keeps matching exactly when it agrees with the new token on their first 72 characters;
  - the new token equals the old one exactly when the old token's claims are the ones reissued.
- **Cookies.**
  - `CookieJar.refreshToken` is the cookie the next request carries.
  - `CookieJar.written` lists the `Set-Cookie` records sent.
  - A record with `maxAge` 0 deletes the cookie.
  - JavaScript truthiness of a cookie value or token is `Auth.Present`: given and non-empty.
- **Request bodies.**
  - The auth schemas live in `lib/validations/auth`, which is not part of this model. Their verdict is an input: not JSON, invalid in some fields, or valid data.
  - The task schemas are modelled in full. Each field is missing, `null`, a string, or another JSON value. The result is either the validated data or the set of names of the failing fields.
- **Store writes and exceptions.**
  - A store write that throws is modelled on the path where it happens. A duplicate primary key on register gives 500. An update of a missing row on logout takes the catch path.
  - Database failures in general are left out.

Four behaviours follow the code where a reader might expect something else:

- zod runs `.min`/`.max` before `.trim()`. The title bounds therefore apply to the string as sent: `"   "` is a valid title and is stored as `""`.
- The task list shows its "nothing found" empty state when the status filter is `"ALL"`, although `"ALL"` is left out of the query.
- Rotation does not revoke the refresh tokens a user held before. See "Findings".
- Logout compares nothing: any refresh token of the user that still verifies, even one rotated out, clears the current session.

## Model

| member | source | states |
|---|---|---|
| Auth.GenerateToken | lib/auth.ts:17-37 | signing fails exactly when the kind's secret is empty; otherwise the token is the signature, under that kind's own secret, of `{userId, email}` with `iat` = now and `exp` = now + the kind's lifetime |
| Auth.GeneratedDecodes | lib/auth.ts:17-37 | a generated token reads back as exactly the claims it was issued with, and the key of its kind |
| Auth.VerifyToken | lib/auth.ts:39-59 | the verifiers return a payload only for a token signed under the kind's secret that has not expired, and `None` on every failure |
| Auth.GeneratedVerifies | lib/auth.ts:17-59 | a generated token verifies as its own kind iff its lifetime has not elapsed, and then yields the subject's id and e-mail and the issue second |
| Auth.CrossKindRejected | lib/auth.ts:5-10 | when the two secrets differ, an access token never verifies as a refresh token, and the other way round |
| Auth.KindsShareClaims | lib/auth.ts:21-36 | both generators embed the same `userId`, `email` and issue time; only the expiry differs |
| Auth.TokensEqualIff | lib/auth.ts:21-36 | two tokens of one kind are equal iff they were issued for the same subject in the same second |
| Jwt.Sign | lib/auth.ts:32-36 | a token begins with its subject part, the id and e-mail, and the times and the signature follow it |
| Jwt.DecodeSign | lib/auth.ts:21-25 | decoding a signed token gives back exactly its claims and key |
| Jwt.Decode | lib/auth.ts:43 | the only strings that decode are signed tokens: a decoded string is the signature of what it decodes to |
| Jwt.SignInjective | lib/auth.ts:21-36 | two tokens are equal iff their claims and keys are |
| Jwt.SignNotEmpty | lib/auth.ts:21-25 | every token has text, so it is truthy |
| Jwt.SameSubjectSameStart | lib/auth.ts:32-33 | two tokens of one subject agree on as many leading characters as the subject part holds, whatever their times and keys |
| Jwt.Verify | lib/auth.ts:42-47 | a verified token is the signature of the payload under the given non-empty key, and has not expired |
| Jwt.VerifySigned | lib/auth.ts:42-47 | a token signed with one key verifies under another iff the keys are equal, the key is non-empty and the token has not expired; the payload is then the signed claims |
| Bcrypt.Hash | app/api/auth/login/route.ts:58 | a digest at cost 12 under the given salt; `compare` accepts exactly the strings that agree with the hashed one on its first 72 characters, the hashed one included |
| Bcrypt.ShortInputsCompareWhole | app/api/auth/login/route.ts:39 | strings of at most 72 characters, such as passwords of that length, are compared whole |
| Bcrypt.LongInputsShareDigest | app/api/auth/refresh/route.ts:43 | two strings longer than 72 characters that agree on the first 72 are accepted for each other |
| Auth.BearerToken | lib/auth.ts:61-71 | a token is extracted iff the header is present and starts with exactly `"Bearer "`; the header is then that prefix followed by the token |
| Auth.BearerOf | lib/auth.ts:69-70 | the header `"Bearer " + t` yields exactly `t` |
| Auth.BearerCaseSensitive | lib/auth.ts:64-67 | `"bearer x"` and `"Bearer"` are refused |
| Auth.GetAuthUser | lib/auth.ts:61-71 | no bearer prefix gives no user; an authenticated user comes from a header carrying an unexpired access token signed for that payload |
| Auth.BearerAuthenticates | lib/auth.ts:61-71 | a request carrying a freshly issued access token authenticates as its subject exactly until the token expires |
| Auth.RefreshCookie | lib/auth.ts:73-84 | the set-cookie record: name `refreshToken`, value the token, HTTP-only, same-site strict, path `/`, max age 604800, secure exactly in production |
| Auth.ClearedRefreshCookie | lib/auth.ts:86-97 | the clearing record is the set record for `""` with max age 0 |
| Auth.Kept | lib/auth.ts:86-97 | a record with max age 0 deletes the cookie; any other record keeps its value |
| Auth.CookieJar.GetRefreshToken | lib/auth.ts:99-102 | reads the cookie the request carries |
| Auth.CookieJar.SetRefreshTokenCookie | lib/auth.ts:73-84 | appends the set record, and the cookie then holds the token |
| Auth.CookieJar.ClearRefreshTokenCookie | lib/auth.ts:86-97 | appends the clearing record, and the cookie is then gone |
| AuthRoutes.UpdateKeepsValid | app/api/auth/login/route.ts:59-62 | rewriting a row without changing its id or e-mail keeps ids and e-mails unique |
| AuthRoutes.InsertKeepsValid | app/api/auth/register/route.ts:41-47 | adding a row under a fresh id with an unused e-mail keeps ids and e-mails unique |
| AuthRoutes.StoredSession | app/api/auth/register/route.ts:59-66 | after the hash of a token is stored, the stored hash accepts exactly the tokens that agree with it on their first 72 characters, that token included |
| AuthRoutes.AuthServer.IssueSession | app/api/auth/login/route.ts:47-64 | when a secret is unset, nothing changes; otherwise the row's hash is overwritten with the hash of the new refresh token, the cookie holds that token, the set record is appended, and the stored hash accepts exactly the tokens that agree with it on their first 72 characters |
| AuthRoutes.AuthServer.Register | app/api/auth/register/route.ts:11-87 | a body that is not JSON gives 500, and an invalid body gives 400 with its fields, both with nothing changed; a valid body behaves as `Created` says; every answer but 201 leaves the cookie and its records untouched; on 201 exactly one id is added and the new user's session matches the cookie |
| AuthRoutes.AuthServer.CreateAccount | app/api/auth/register/route.ts:26-79 | a taken e-mail gives 409 and changes nothing; a duplicate id gives 500; an unset secret gives 500 after the row, holding only the password hash, was created; otherwise the row gets the hash of the refresh token, the cookie holds that token, and the answer is 201 with the public fields and the access token |
| AuthRoutes.AuthServer.Login | app/api/auth/login/route.ts:11-82 | not JSON gives 500 and invalid gives 400, with nothing changed; 401 happens iff no user has the e-mail and a password hash that `compare` accepts (on its first 72 characters), always with the same body and with nothing changed; on a match the stored hash is overwritten, the cookie holds the new refresh token and matches it, and the answer carries the public fields and the access token |
| AuthRoutes.AuthServer.RefreshSession | app/api/auth/refresh/route.ts:12-86 | no or empty cookie gives "No refresh token provided"; a failed verification gives "Invalid or expired"; a missing row or missing hash gives "User not found or session expired"; a hash that does not match gives "Invalid refresh token"; none of these changes anything; after all four checks the stored user's id and e-mail are reissued, the hash rotates to the new token and the cookie holds it; the old token still matches iff it agrees with the new one on their first 72 characters, and it is the new one iff its claims are those reissued |
| AuthRoutes.AuthServer.RotationReproduces | app/api/auth/refresh/route.ts:57-66 | the reissued refresh token equals the presented one iff the presented token's claims are the ones reissued now |
| AuthRoutes.RotatedTokenStillMatches | app/api/auth/refresh/route.ts:43-62 | when the subject part fills 72 characters, a refresh token issued at one second differs from the one issued at another, yet the stored hash of either accepts the other |
| AuthRoutes.AuthServer.ReplayAfterRotation | app/api/auth/refresh/route.ts:12-78 | with the hash of a later token stored, a cookie still holding an earlier unexpired token of the same long subject is refreshed with 200 and rotated again |
| AuthRoutes.RotationRevokesWithWholeCheck | app/api/auth/refresh/route.ts:43 | with the whole-token check, the stored hash of the newest token accepts it and refuses every earlier token of the subject |
| AuthRoutes.ClearSession | app/api/auth/logout/route.ts:16-22 | logout nulls the named user's hash when the row exists and leaves every other row as it was |
| AuthRoutes.LogoutTarget | app/api/auth/logout/route.ts:11-16 | no cookie or an empty one names nobody; a named user is the non-empty `userId` of an unexpired token signed with the refresh secret |
| AuthRoutes.ClearedHasNoSession | app/api/auth/logout/route.ts:18-21 | after logout no token matches the user's stored hash |
| AuthRoutes.StaleTokenStillLogsOut | app/api/auth/logout/route.ts:13-22 | any unexpired refresh token of a user names that user for logout, whatever hash is stored |
| AuthRoutes.AuthServer.Logout | app/api/auth/logout/route.ts:9-34 | the answer is always "Logged out successfully" and the cookie is always cleared; the stored hash is nulled only for the subject of a present cookie that verifies as a refresh token; with no such cookie the table is untouched |
| AuthRoutes.AuthServer.LogoutTwice | app/api/auth/logout/route.ts:11-27 | logging out twice gives the same answer twice and leaves the table as one logout does |
| ApiClient.RefreshOutcome | lib/api-client.ts:14-33 | a refresh that is not ok or throws yields `None`; an ok one yields the returned access token |
| ApiClient.SessionManager.GetAccessToken | lib/api-client.ts:6-8 | returns the cached token |
| ApiClient.SessionManager.SetAccessToken | lib/api-client.ts:10-12 | replaces the cached token and nothing else |
| ApiClient.SessionManager.ApplyRefresh | lib/api-client.ts:21-32 | caches and returns the refresh outcome |
| ApiClient.SessionManager.RefreshAccessToken | lib/api-client.ts:14-33 | one refresh request is sent, and its outcome is cached and returned |
| ApiClient.SessionManager.GetValidToken | lib/api-client.ts:35-46 | a truthy cached token is returned and nothing changes; otherwise the caller shares the pending refresh, and a request is sent only if none was pending |
| ApiClient.SessionManager.SettleSharedRefresh | lib/api-client.ts:40-42 | the shared refresh settles: its outcome is cached and the pending marker is cleared on success and on failure alike |
| ApiClient.SessionManager.SharedRefresh | lib/api-client.ts:38-45 | two callers without a token share one refresh request and both receive its outcome |
| ApiClient.RequestHeaders | lib/api-client.ts:54-61 | the keys are the caller's plus `Content-Type`, plus `Authorization` iff the token is truthy; the caller's `Content-Type` wins; the bearer value overrides the caller's `Authorization` |
| ApiClient.ServerReadsClientToken | lib/api-client.ts:59-61 | the server's bearer reader recovers exactly the token the client attached |
| ApiClient.RetryHeaders | lib/api-client.ts:72-73 | rewriting the `Authorization` entry gives the headers built for the new token |
| ApiClient.ThrownError | lib/api-client.ts:82-88 | the thrown object has `status` and the body's keys, with the body's values winning; `{status, error: "Request failed"}` when the body is not JSON |
| ApiClient.Outcome | lib/api-client.ts:82-90 | a response that is not ok throws the error object; an ok one returns its parsed body, or rejects when the body is not JSON |
| ApiClient.SessionManager.Request | lib/api-client.ts:48-91 | the first request carries the token's headers; a second request is sent iff the first got 401, a token was attached and the direct refresh produced a token, and then it carries the new token; the last reply decides the result; a retry refreshes outside the shared refresh |
| Proxy.Gate | proxy.ts:5-32 | a page is redirected to `/login` iff it is not public, not an asset, and has no non-empty `refreshToken` cookie |
| Proxy.PublicPrefixPasses | proxy.ts:3-11 | every extension of a public prefix passes, with or without the cookie |
| Proxy.LoginNeverRedirected | proxy.ts:3-11 | `/login` and `/loginx` pass, so there is no redirect loop |
| Proxy.AssetsPass | proxy.ts:14-20 | Next.js internals, the favicon and dotted paths pass regardless of the cookie |
| Proxy.DottedPathPasses | proxy.ts:17 | any path containing a `.` passes |
| Proxy.Monotone | proxy.ts:9-31 | a request that passes without the cookie passes with any cookie |
| Proxy.CookieValueIgnored | proxy.ts:22-31 | every non-empty cookie value passes alike; its contents are not checked |
| Proxy.DashboardGated | proxy.ts:24-31 | `/dashboard` is redirected with no cookie or an empty one, and served with a non-empty one |
| TaskTypes.ParseStatus | types/index.ts:1 | a parsed status names the string |
| TaskTypes.ParsePriority | types/index.ts:2 | a parsed priority names the string |
| TaskTypes.StatusNamesRoundTrip | types/index.ts:1 | parsing a status's name gives it back, and parsing succeeds iff the string is a status's name |
| TaskTypes.PriorityNamesRoundTrip | types/index.ts:2 | parsing a priority's name gives it back, and parsing succeeds iff the string is a priority's name |
| TaskValidation.Parse | lib/validations/task.ts:3-44 | a body that is not an object fails; an object is accepted iff no field fails, and otherwise the failing fields are reported |
| TaskValidation.ParseCreate | lib/validations/task.ts:3-22 | a body without a title fails in the title, and accepted data always carries a title |
| TaskValidation.ParseUpdate | lib/validations/task.ts:24-44 | a body without a title is accepted iff its other fields are valid, and then sets no title |
| TaskValidation.OtherFieldsChecked | lib/validations/task.ts:9-21 | the field checks accept exactly what the schema's description, status, priority and due-date rules describe |
| TaskValidation.CreateAcceptsExactly | lib/validations/task.ts:3-22 | the create schema accepts exactly objects with a title of 1 to 200 characters as sent, and valid other fields |
| TaskValidation.UpdateAcceptsExactly | lib/validations/task.ts:24-44 | the update schema accepts the same, except that the title may be missing |
| TaskValidation.AcceptedValues | lib/validations/task.ts:3-44 | accepted strings are handed on trimmed, the enumerations as the values they name, the due date as sent; missing fields stay missing, and `null` stays `null` |
| TaskValidation.CreateImpliesUpdate | lib/validations/task.ts:3-44 | every body the create schema accepts is accepted by the update schema, with the same data |
| TaskValidation.EmptyObjectCases | lib/validations/task.ts:24-44 | `{}` is a valid update with nothing set, and an invalid creation failing in the title alone |
| TaskValidation.BoundsApplyBeforeTrim | lib/validations/task.ts:4-8 | `"   "` is accepted as the title `""`, while a space followed by 200 letters is refused, although trimming would make it fit |
| TaskValidation.LeadingSpaceTrimmed | lib/validations/task.ts:8 | a leading space never survives trimming |
| TaskValidation.NullStatusRejected | lib/validations/task.ts:15 | a `null` status fails both schemas |
| TasksRoute.PageParam | app/api/tasks/route.ts:17 | the page is the parsed value when it is at least 1, and otherwise 1, also when the parameter is missing |
| TasksRoute.LimitParam | app/api/tasks/route.ts:18-21 | the limit lies in [1, 50]: the default is 10, and values in range are kept, smaller ones give 1 and larger ones give 50 |
| TasksRoute.ParamsIdempotent | app/api/tasks/route.ts:17-21 | a page or limit the server reports back is accepted unchanged |
| TasksRoute.Skip | app/api/tasks/route.ts:44 | the number of skipped rows is never negative |
| TasksRoute.TotalPages | app/api/tasks/route.ts:56 | the fewest pages of `limit` rows that hold all rows: enough for all, one fewer would not be; 0 iff there are no rows |
| TasksRoute.WhereFor | app/api/tasks/route.ts:25-38 | always the caller's rows; a status condition iff the status is one of the three names, and then for that status; a title condition iff the search is non-empty |
| TasksRoute.BuildWhere | app/api/tasks/route.ts:25-38 | the `where` object built field by field is that filter |
| TasksRoute.Filter | app/api/tasks/route.ts:40-47 | a row is listed iff it is in the table and matches the filter |
| TasksRoute.Slice | app/api/tasks/route.ts:44-45 | the page holds the `take` rows after the first `skip`, or fewer at the end |
| TasksRoute.SliceWithin | app/api/tasks/route.ts:44-45 | a page holds only rows of what it was cut from |
| TasksRoute.EveryRowOnSomePage | app/api/tasks/route.ts:44-56 | the matching row at position `i` is on page `i / limit + 1`, which is among the reported pages |
| TasksRoute.TaskServer.List | app/api/tasks/route.ts:9-58 | no authenticated user gives 401; otherwise 200 with the requested page of the matching rows and the pagination block; at most 50 rows, each in the table and owned by the caller |
| TasksRoute.NewTask | app/api/tasks/route.ts:88-99 | the owner is the token's user; status defaults to PENDING and priority to MEDIUM; an empty or missing description and a missing due date become null |
| TasksRoute.TaskServer.Create | app/api/tasks/route.ts:69-101 | no authenticated user gives 401; a body that is not JSON gives 500; an invalid body gives 400 with the failing fields; nothing changes in any of these; otherwise exactly the new row is added in front and returned with 201 |
| TasksRoute.FilterKeepsHead | app/api/tasks/route.ts:43 | a matching row in front of the table comes first among the matching rows |
| TasksRoute.NewTaskListedFirst | app/api/tasks/route.ts:40-46 | a task just created is the first row of its owner's unfiltered first page |
| Strings.TrimStart | lib/validations/task.ts:8 | removes exactly the leading blanks: what is removed is blank and what is left starts with a non-blank character or is empty |
| Strings.TrimEnd | lib/validations/task.ts:8 | removes exactly the trailing blanks |
| Strings.Upper | components/layout/header.tsx:28 | upper-casing keeps the length and maps each character |
| Strings.IndexOf | components/tasks/task-card.tsx:10 | the position of the first occurrence of the character |
| Strings.Trim | lib/validations/task.ts:8 | trimming leaves no blank at either end, never lengthens, and gives `""` iff everything was blank |
| Strings.Lower | app/api/tasks/route.ts:35-36 | lower-casing keeps the length and maps each character |
| Strings.DecimalRoundTrip | components/tasks/task-list.tsx:30 | `String(page)` is read back by `parseInt` as the same number |
| TaskList.SetParam | components/tasks/task-list.tsx:29-32 | after `params.set`, the name reads as the new value, every other name reads as before, and a new name is appended |
| TaskList.Remove | components/tasks/task-list.tsx:29-32 | after removal the name is absent and every other name reads as before |
| TaskList.Replace | components/tasks/task-list.tsx:29-32 | replacing keeps the first pair's place, then the name reads as the new value and every other name as before |
| TaskList.ListState.BuildQuery | components/tasks/task-list.tsx:29-32 | the query is the page, then the search only when non-empty, then the status only when non-empty and not `"ALL"`, and no other name |
| TaskList.ListState.HandleStatusChange | components/tasks/task-list.tsx:61-64 | sets the status and returns to page 1; the search and the text box are kept |
| TaskList.ListState.HandleClear | components/tasks/task-list.tsx:66-71 | empties the text box, the search and the status, and returns to page 1 |
| TaskList.ListState.SetSearchInput | components/tasks/task-list.tsx:52 | typing changes only the text box |
| TaskList.ListState.CommitSearch | components/tasks/task-list.tsx:53-57 | the debounced search takes the text box's value and returns to page 1 |
| TaskList.ListState.SetPage | components/tasks/task-list.tsx:19 | changes only the page |
| TaskList.ServerReadsPage | components/tasks/task-list.tsx:30 | the page the list sends is the page the server reads |
| TaskList.ClearedQuery | components/tasks/task-list.tsx:66-71 | after Clear the query is `page=1` alone, whatever the state was |
| TaskList.Noun | components/tasks/task-list.tsx:79-81 | the count says "task" iff the total is 1, and "tasks" otherwise |
| TaskList.EmptyStateFor | components/tasks/task-list.tsx:104-114 | the create link is offered iff neither search nor status is set, under "No tasks yet"; otherwise the title is "No tasks found" |
| Sidebar.IsActive | components/layout/sidebar.tsx:42-46 | an item other than All Tasks is active exactly on its own path; All Tasks is active off its path only on pages under `/tasks/` |
| Sidebar.ActiveItems | components/layout/sidebar.tsx:41-46 | an item is highlighted iff it is active for the path, and at most one is |
| Sidebar.AtMostOneActive | components/layout/sidebar.tsx:9-13 | no two navigation items are active at once |
| Sidebar.ExactItems | components/layout/sidebar.tsx:42-43 | Dashboard and New Task are active only on their exact paths |
| Sidebar.TasksSubtree | components/layout/sidebar.tsx:44-46 | All Tasks stays active on a task's pages, but not on `/tasks/new…`, not even `/tasks/newest` |
| Header.Split | components/layout/header.tsx:25 | `split(" ")` gives at least one piece, none containing a space, and joining them with spaces gives the name back |
| Header.Take2 | components/layout/header.tsx:29 | at most the first two characters |
| Header.Initials | components/layout/header.tsx:23-30 | at most two characters; `"U"` for an absent or empty name |
| Header.HeadsAreWordStarts | components/layout/header.tsx:24-27 | the pieces' first characters are exactly the characters that begin a word, in order |
| Header.InitialsOfName | components/layout/header.tsx:23-30 | a non-empty name shows the first two word-initial characters, upper-cased |
| Header.InitialsOfBlankNames | components/layout/header.tsx:23-30 | no name and the empty name show `"U"`; a name of spaces alone shows nothing |
| Header.InitialsSkipEmptyPieces | components/layout/header.tsx:25-27 | two words separated by two spaces show both initials: the empty piece contributes nothing |
| TaskCard.FormatStatus | components/tasks/task-card.tsx:9-11 | the length is kept; a string without `_` is unchanged; otherwise its first `_` becomes a space |
| TaskCard.OnlyFirstReplaced | components/tasks/task-card.tsx:9-11 | exactly one character changes, and later underscores stay |
| TaskCard.StatusLabels | components/tasks/edit-task-content.tsx:16-18 | `IN_PROGRESS` reads `IN PROGRESS`; `PENDING` and `COMPLETED` are unchanged |

## Findings

| source | as written | input that shows it | evidently intended | confidence | as-written member | corrected member |
|---|---|---|---|---|---|---|
| app/api/auth/refresh/route.ts:43 | `compare(refreshToken, user.refreshToken)` with bcryptjs, which reads only the first 72 bytes. The header and the start of the payload (`{"userId":"<id>",…`) fill those bytes, so every refresh token of one user passes against the hash of any other | register at second 1000 (token T1); refresh at second 1005 (token T2, T2 ≠ T1, hash of T2 stored); present T1 at second 1010: answered 200 | rotation revokes: only the newest refresh token is accepted, for instance by hashing a digest of the token that fits in 72 bytes | high for ids of 25 characters or more; not executed | AuthRoutes.AuthServer.ReplayAfterRotation | AuthRoutes.RotationRevokesWithWholeCheck |

`AuthRoutes.RotatedTokenStillMatches` is the lemma behind the as-written half. `AuthRoutes.WholeTokenMatches` is the corrected check. The handlers keep bcrypt's compare, because that is what the application does.

## Left out

- JWT cryptography and the header and payload encodings are abstracted by the perfect-MAC token model. So are `jose`'s other checks (algorithm, `nbf`, clock tolerance). Security against forgery is taken for granted, not modelled.
- Duration strings such as `"15m"` and `"7d"` are not parsed: the expiry variables are numbers of seconds.
- bcrypt's cost factor, salts and timing are not modelled. A digest records its preimage, and the salts are parameters.
- Prisma, `NextResponse`, `request.json()` and `cookies()` are I/O. They are an in-memory table, return values and the cookie jar.
  - The unawaited `cookies().then` in the cookie helpers is taken to complete before the response.
  - Database failures other than the duplicate id on register and the missing row on logout are left out, so the task routes' 500 answers for database failures are not modelled.
- The auth schemas (`lib/validations/auth`) are not part of this model. Their verdict is an input of `Register` and `Login`.
- Promises and true concurrency in the API client are left out: events happen one at a time, in the order the methods are called. The race between browser tabs rotating the same refresh token is not modelled.
- `parseInt` is not modelled. Its `NaN` results, which make the page and limit `NaN`, and its hex and partial parses are excluded: the page and limit parameters are optional integers.
- bcrypt's limit counts UTF-8 bytes. The model counts characters, which agree only for ASCII text. Tokens are ASCII; passwords with other characters reach the limit sooner than the model says.
- The model's token text is not base64url JSON. It shares the property the replay depends on: the subject comes first. The subject's length at which it fills 72 characters differs. In the real token, the 21-character header `eyJhbGciOiJIUzI1NiJ9.` and the start of the payload do so once the id is 25 characters long, without the e-mail. In the model, the encoded id and e-mail must together fill 72 characters.
- Unicode is not modelled. Case mapping is ASCII only, and string lengths count characters rather than UTF-16 code units, both in zod's bounds and in the initials.
- Query strings are not percent-encoded in the model.
- Header names are case-sensitive in the model's header maps; `fetch` would treat them case-insensitively.
- The middleware `matcher` regex is not modelled.
- Rendering and React hooks are not modelled. The debounce timer is one `CommitSearch` event. The count text is modelled only for its singular/plural noun.
- `formatDate` and the conversion of the due date to a `Date` are not modelled: the due date is kept as the string that passed the datetime check, which is itself a parameter.
- `orderBy: { createdAt: "desc" }` is not computed. The task table is kept newest first, with new rows added in front.
- The task item routes (update, delete, status toggle) are not part of this model.
- Validation messages are left out: failures are reported as the set of failing field names.
- A `fetch` that rejects on the request itself is not modelled. Only the refresh call's exception is, as `Threw`.
- ApiClient.ThrownError: a body that is JSON but not an object, such as an array or a number, is not modelled. The body is an object or not JSON.
- TaskList.ListState: `page` is a natural number, as the pagination control supplies it.
- Strings.Trim: the contract does not state that the result is exactly the block between the first and the last non-blank character. `TrimStart` and `TrimEnd` state their halves.
