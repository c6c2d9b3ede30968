# Storidian authorization core, modelled in Dafny

Storidian is a self-hosted file store. It is a Laravel back end with a Vue front end. It signs its own apps and third-party apps in through an OAuth 2.0 authorization server of its own: the authorization-code grant of RFC 6749, with PKCE (RFC 7636) and refresh-token rotation. This project models that server and its neighbours:

- the server and its rules:
  - `OAuthService`: client and redirect validation, PKCE, scope narrowing, code creation and exchange, refresh with rotation, and revocation;
  - the Eloquent records it reads and writes (clients, authorization codes, refresh tokens);
- the controllers:
  - `OAuthController`: `authorize`, `token`, `revoke`;
  - `LoginController`: the login form, login, and consent;
- the two API middlewares:
  - `ValidateScopes`: scope and namespace-wildcard checks on the JWT;
  - `EnsureUserIsActive`;
- the domain models the grant depends on or that carry rules of their own: `User` (quota), `File`, `UserApiKey`, `UploadSession`, `VirtualFolder`, `SystemSetting`;
- the front end's pure logic:
  - the `auth` store's getters, random-string generator and token actions;
  - the file-type icon lookup.

The shape of the model follows the source:

- **Value rules** are functions. The decisions of `OAuthService` are written as functions over the two credential tables (module `OAuthRules`). The grant's properties are proved about those functions: single use, rotation, error precedence, and the PKCE challenge round trip.
- **State-changing code** is classes with methods. `OAuthService.Server` holds the code and token tables. `WebSession.Session` holds the `oauth` slot and the signed-in user. `UserApiKey`, `UploadSession`, `SettingsTable` and the front end's `Store` are classes too. Each method carries out the source's steps in the source's order. Its `ensures` ties the new state to the function that specifies it.
- **Loops** become methods with loop invariants: the scope check of `ValidateScopes`, the query builder of `VirtualFolder`, and `generateRandomString`.

Everything the code takes from outside is a parameter:

- the clock (`now`), in whole seconds;
- random identifiers, with a freshness precondition;
- random bytes;
- the JWT lifetime;
- SHA-256 and the JWT signer, each a function value left uninterpreted;
- the user that `Auth::attempt` resolves credentials to;
- the values read from `sessionStorage`.

Where the code and its documentation differ, the model follows the code:

- A failed exchange does not revoke the code.
- The error descriptions differ per failed check.
- PHP truthiness applies throughout. A `code_challenge` of `"0"` skips PKCE. A `code_verifier` of `"0"` counts as missing. A `state` of `"0"` is dropped from the redirect.

## Model

| member | source | states |
|---|---|---|
| OAuthRecords.AuthorizationCode.Revoke | app/Models/OauthAuthorizationCode.php:109-112 | the revoked row keeps every other modelled column and is invalid at every instant |
| OAuthRecords.RefreshToken.Revoke | app/Models/OauthRefreshToken.php:97-100 | the revoked token keeps every other modelled column and is invalid at every instant |
| OAuthRecords.CodeValidity | app/Models/OauthAuthorizationCode.php:93-104 | a code is valid exactly when it is unrevoked and `now` has not passed its expiry |
| OAuthRecords.CodeExpiryMonotone | app/Models/OauthAuthorizationCode.php:93-96 | once expired, a code stays expired and invalid at every later instant |
| OAuthRecords.CodeRevokeIdempotent | app/Models/OauthAuthorizationCode.php:109-112 | revoking twice equals revoking once |
| OAuthRecords.TokenValidity | app/Models/OauthRefreshToken.php:81-92 | a refresh token is valid exactly when it is unrevoked and not past its expiry |
| OAuthRecords.TokenExpiryMonotone | app/Models/OauthRefreshToken.php:81-84 | expiry of a refresh token is permanent |
| OAuthRecords.TokenRevokeIdempotent | app/Models/OauthRefreshToken.php:97-100 | revoking a token twice equals revoking it once |
| Base64Url.EncodeChallenge | app/Services/OAuthService.php:77-78 | the server's challenge encoding gives ceil(4n/3) URL-safe characters for n digest bytes |
| Base64Url.EncodeChallengeIsUnpaddedBase64Url | app/Services/OAuthService.php:92-94 | base64 with padding, then the `+/` to `-_` swap, then trimming `=` equals unpadded base64url (section 5 of RFC 4648); the result has ceil(4n/3) URL-safe characters |
| Base64Url.TranslateEncode | app/Services/OAuthService.php:94 | swapping the alphabet of padded base64 gives unpadded base64url followed by exactly the padding |
| OAuthRules.FindClient | app/Services/OAuthService.php:31 | `where(...)->first()`: None exactly when no row has the value; otherwise a row that has it and that no earlier row does (the first match) |
| OAuthRules.FindClientUnique | app/Services/OAuthService.php:31 | with unique column values the lookup finds the one client that has the value |
| OAuthRules.ValidateClient | app/Services/OAuthService.php:29-65 | an unknown client id fails with `invalid_client`; a valid answer is the client with that id, and either it is first-party or the URI is one of its registered ones; a redirect failure means a known third-party client and an unregistered URI |
| OAuthRules.ValidateClientRedirects | app/Services/OAuthService.php:41-59 | for a known client, validation passes if and only if the client is first-party or the URI is registered |
| OAuthRules.ValidatePkce | app/Services/OAuthService.php:70-81 | for any method but `plain`, the challenge passes if and only if it is the unpadded base64url encoding of the verifier's digest; `plain` compares the two strings |
| OAuthRules.GenerateCodeChallenge | app/Services/OAuthService.php:86-95 | `plain` gives the verifier back; any other method gives the unpadded base64url of the digest, ceil(4n/3) URL-safe characters long; the result always passes `validatePKCE` |
| OAuthRules.PkceExactlyGenerated | app/Services/OAuthService.php:70-95 | a verifier passes `validatePKCE` against a challenge if and only if the challenge is the one generated from it |
| OAuthRules.S256ChallengeLength | app/Services/OAuthService.php:77-78 | a 32-byte SHA-256 digest gives a 43-character S256 challenge |
| OAuthRules.RequestedScopes | app/Services/OAuthService.php:337 | the requested pieces contain no space, are truthy, and are exactly the truthy pieces of `explode(' ', ...)` |
| OAuthRules.KeepAllowed | app/Services/OAuthService.php:346 | the intersection keeps every allowed piece as many times as it was requested, drops every other piece, and keeps the order |
| OAuthRules.ValidateScopes | app/Services/OAuthService.php:335-347 | with `*` among the client's scopes every requested piece is granted; otherwise exactly the requested pieces the client may use; the grant is always an ordered sub-list of the request |
| OAuthRules.FilterTruthySubsequence | app/Services/OAuthService.php:337 | `array_filter` keeps an ordered sub-list of the pieces |
| OAuthRules.GrantedScopesAreWords | app/Services/OAuthService.php:335-347 | no granted scope contains a space or is `""` or `"0"` |
| OAuthRules.CheckAuthorizationCode | app/Services/OAuthService.php:135-191 | the checks in source order: unknown, revoked, expired, client mismatch, redirect mismatch, missing verifier, invalid verifier; the code is accepted if and only if it is redeemable; each error is tied to its own condition |
| OAuthRules.IssueTokens | app/Services/OAuthService.php:271-302 | always issues, with the fresh id as the refresh token; the code table is untouched and the token table gains exactly the fresh, unrevoked row |
| OAuthRules.IssueTokensMeaning | app/Services/OAuthService.php:271-302 | a Bearer token of `ttl` minutes; a refresh token owned by the user and the client, with the given scopes, valid for exactly seven days; the `scope` string splits back into space-free scopes, and an empty grant gives `""`; no other row changes |
| OAuthRules.Exchange | app/Services/OAuthService.php:129-208 | only the presented code can change and no code is added or removed; a failure adds no token; a success adds exactly the fresh token and returns its id |
| OAuthRules.ExchangeEffects | app/Services/OAuthService.php:129-208 | a failed check changes nothing; once the checks pass the code is revoked even if the user is inactive; tokens are issued if and only if the user is active, with the code's user, client and scopes |
| OAuthRules.ExchangeSingleUse | app/Services/OAuthService.php:144-149 | after a successful exchange, every later exchange of the same code fails with "revoked" and changes nothing |
| OAuthRules.FreshCodeRedeemable | app/Services/OAuthService.php:100-122 | a code just created is accepted within its 60 seconds by its own client, with a matching verifier when it carries a challenge |
| OAuthRules.CheckRefreshToken | app/Services/OAuthService.php:215-257 | the checks in source order: unknown, revoked, expired, client mismatch, inactive user; the token is accepted if and only if it is valid, bound to the client and its user is active |
| OAuthRules.Refresh | app/Services/OAuthService.php:215-264 | the code table is untouched; a failure changes nothing; a success needs a known token, revokes it and adds exactly the fresh token |
| OAuthRules.RefreshRotates | app/Services/OAuthService.php:215-264 | a failure changes nothing; a success revokes the presented token and adds exactly one unrevoked token with the same user, client and scopes, expiring seven days later |
| OAuthRules.RefreshSingleUse | app/Services/OAuthService.php:226-231 | a rotated-out refresh token is refused on every later attempt |
| OAuthRules.RevokeToken | app/Services/OAuthService.php:307-318 | the named token is revoked; every other row, and the whole table when the id is unknown, stays as it was |
| OAuthRules.RevokeTokenIdempotent | app/Services/OAuthService.php:307-318 | revoking the same token twice equals revoking it once |
| OAuthRules.UnrevokedOf | app/Services/OAuthService.php:325-326 | the ids of exactly the user's unrevoked tokens |
| OAuthRules.RevokeAllFor | app/Services/OAuthService.php:323-328 | every unrevoked token of the user is revoked; every other row is unchanged |
| OAuthRules.RevokeAllForEffect | app/Services/OAuthService.php:323-328 | afterwards the user has no unrevoked token, other users' tokens are unchanged, and repeating the call changes nothing |
| OAuthRules.ExchangeKeepsWellKeyed | app/Services/OAuthService.php:129-208 | the exchange keeps every row filed under its own id |
| OAuthRules.RefreshKeepsWellKeyed | app/Services/OAuthService.php:215-264 | the refresh keeps every row filed under its own id |
| OAuthRules.RevocationsKeepWellKeyed | app/Services/OAuthService.php:307-328 | revoking one token or all of a user's tokens keeps every row filed under its own id |
| OAuthRules.StepsKeepWellKeyed | app/Services/OAuthService.php:100-328 | exchange, refresh and both revocations keep every row filed under its own id |
| OAuthService.Server.CreateAuthorizationCode | app/Services/OAuthService.php:100-122 | exactly one new, valid row under the fresh id with the given user, client, scopes, URI and challenge, expiring 60 seconds later |
| OAuthService.Server.GenerateTokens | app/Services/OAuthService.php:271-302 | the new tables and the answer are those of `IssueTokens` |
| OAuthService.Server.ExchangeCodeForTokens | app/Services/OAuthService.php:129-208 | the early-return chain, written step by step in place, ends in the tables and answer of `Exchange` |
| OAuthService.Server.RefreshTokens | app/Services/OAuthService.php:215-264 | ends in the tables and answer of `Refresh` |
| OAuthService.Server.RevokeRefreshToken | app/Services/OAuthService.php:307-318 | answers true exactly for a known id; the tables are those of `RevokeToken` |
| OAuthService.Server.RevokeAllUserTokens | app/Services/OAuthService.php:323-328 | answers the number of the user's unrevoked tokens and revokes exactly those |
| WebSession.Input | app/Http/Controllers/Auth/OAuthController.php:37-40 | `input($key, $default)`: the default for an absent parameter, null for a null one, the value otherwise |
| WebSession.Separator | app/Http/Controllers/Auth/OAuthController.php:193 | `&` exactly when the URI already has a `?`, `?` otherwise |
| WebSession.WithState | app/Http/Controllers/Auth/OAuthController.php:189-191 | `state` is appended exactly when it is set and truthy; the other parameters are kept in order |
| WebSession.ClientRedirect | app/Http/Controllers/Auth/OAuthController.php:186-195 | the redirect goes to the given URI with the separator it needs and the parameters (plus `state`) |
| WebSession.ClientRedirectShape | app/Http/Controllers/Auth/OAuthController.php:186-218 | the rendered redirect starts with the client's URI and the separator; it carries `state` if and only if `state` is set and truthy, and then unchanged and last |
| WebSession.RenderSingleQuery | app/Http/Controllers/Auth/OAuthController.php:193-195 | for a URI without `?` and an encoder that escapes `?`, the rendered URL has exactly one `?` |
| OAuthController.RedirectWithError | app/Http/Controllers/Auth/OAuthController.php:201-219 | a redirect to the given URI whose first two parameters are `error` and `error_description`, with a third (`state`) exactly when `state` is truthy |
| OAuthController.Authorize | app/Http/Controllers/Auth/OAuthController.php:22-94 | an invalid client or URI aborts with 400 and changes nothing; a public client without a challenge gets `invalid_request` and nothing changes; otherwise the request is stored and the user goes to login, to consent, or (first-party and signed in) straight back with exactly one new code |
| OAuthController.IssueAuthorizationCode | app/Http/Controllers/Auth/OAuthController.php:166-196 | without a pending request: 400 and nothing changes; otherwise exactly one code from the pending request, the slot cleared, a redirect with the code |
| OAuthController.TokenStatus | app/Http/Controllers/Auth/OAuthController.php:130-134 | 400 exactly for an answer with `error`, 200 exactly for issued tokens |
| OAuthController.Token | app/Http/Controllers/Auth/OAuthController.php:100-135 | `authorization_code` runs the exchange with an absent `code_verifier` read as `""`; a present but null one fails with 500 and changes nothing, since it reaches a string-typed parameter; any other grant runs the refresh; the status follows the answer |
| OAuthController.Revoke | app/Http/Controllers/Auth/OAuthController.php:141-161 | the answer is always `revoked: true`; the refresh token is revoked only when the hint is (or defaults to) `refresh_token`; codes never change |
| LoginController.HandleAuthenticatedOAuthFlow | app/Http/Controllers/Auth/LoginController.php:101-114 | a first-party client gets its code at once; any other goes to consent with nothing changed |
| LoginController.ShowLoginForm | app/Http/Controllers/Auth/LoginController.php:24-42 | a signed-in user continues the pending request or goes home; anyone else gets the form with the pending request's client name; the form changes nothing |
| LoginController.Login | app/Http/Controllers/Auth/LoginController.php:48-96 | wrong credentials change nothing; an inactive user is signed out and rejected; an active one is signed in and continues the pending request (a code for a first-party client, consent otherwise) or goes to the intended page |
| LoginController.ShowConsent | app/Http/Controllers/Auth/LoginController.php:120-142 | signed out: to login; no pending request: home; first-party: a code; otherwise the consent screen with the client and scopes, nothing changed |
| LoginController.HandleConsent | app/Http/Controllers/Auth/LoginController.php:148-178 | exactly the decision `deny` redirects with `access_denied`, clears the slot and creates no code; any other decision, a missing one included, issues the code |
| LoginController.IssueAuthorizationCode | app/Http/Controllers/Auth/LoginController.php:183-207 | exactly one code from the pending request, the slot cleared, a redirect to its URI with the code and its `state` |
| ScopeMiddleware.Namespace | app/Http/Middleware/ValidateScopes.php:40-42 | a scope has a namespace exactly when it contains `:`; the namespace is the text before the first `:` |
| ScopeMiddleware.Handle | app/Http/Middleware/ValidateScopes.php:18-64 | passes if and only if no scope is required, or the token has `*`, or some required scope is held exactly or through its namespace wildcard; an unparseable token gets 401 `INVALID_TOKEN`; otherwise 403 `INSUFFICIENT_SCOPE` listing the required scopes |
| ScopeMiddleware.NamespaceWildcard | app/Http/Middleware/ValidateScopes.php:39-45 | holding `ns:*` grants every `ns:action` |
| ScopeMiddleware.PlainScopeIsExact | app/Http/Middleware/ValidateScopes.php:35-41 | a scope without `:` is granted only by itself (or `*`) |
| ScopeMiddleware.MoreScopesStillAllowed | app/Http/Middleware/ValidateScopes.php:29-46 | a token with more scopes passes wherever a token with fewer passes |
| ScopeMiddleware.MoreRequiredStillAllowed | app/Http/Middleware/ValidateScopes.php:34-47 | the required scopes are alternatives: adding one never blocks a token that passed |
| ActiveUserMiddleware.Handle | app/Http/Middleware/EnsureUserIsActive.php:18-41 | passes exactly an active user; no user gets 401 `UNAUTHENTICATED`; an inactive one gets 403 `ACCOUNT_DISABLED` |
| ActiveUserMiddleware.DeactivatedIsLockedOut | app/Http/Middleware/EnsureUserIsActive.php:31-38 | deactivating any user makes every request a 403 |
| Files.IsInRoot | app/Models/File.php:75-78 | a file is in the root exactly when it has no folder (the predicate itself) |
| Files.IsImage | app/Models/File.php:93-96 | the MIME type begins with the six characters `image/` |
| Files.IsVideo | app/Models/File.php:101-104 | the MIME type begins with the six characters `video/` |
| Files.IsPdf | app/Models/File.php:109-112 | the MIME type is exactly `application/pdf` (the predicate itself) |
| Files.Extension | app/Models/File.php:83-88 | null exactly when the name has no dot; otherwise the dot-free text after the last dot |
| Files.ExtensionExamples | app/Models/File.php:83-88 | `a.tar.gz` gives `gz`, `notes.` gives `""`, `README` gives null |
| Files.MimeClassesDisjoint | app/Models/File.php:93-112 | a file is never both image and video, and a PDF is neither |
| Users.IsAdmin | app/Models/User.php:62-65 | the role is exactly `admin` (the predicate itself) |
| Users.StorageUsed | app/Models/User.php:185-188 | the sum of sizes over the user's untrashed rows; zero when the user owns none |
| Users.IsOverQuota | app/Models/User.php:193-200 | never over with an unlimited quota; over quota means nothing remains |
| Users.RemainingQuota | app/Models/User.php:205-212 | null exactly for an unlimited quota; otherwise what is left, floored at zero |
| Users.QuotaConsistent | app/Models/User.php:193-212 | over quota leaves nothing; something left means not over quota; under quota leaves exactly the difference |
| Users.OverQuotaIsStrict | app/Models/User.php:193-200 | with a quota set, over quota exactly when usage is strictly above it; usage exactly at the quota is not over and leaves nothing |
| Users.StorageUsedAppend | app/Models/User.php:185-188 | usage over two batches of rows is the sum of the two |
| Users.StorageUsedAfterStore | app/Models/User.php:185-188 | a new file grows its owner's usage by its size and nobody else's |
| Users.StorageUsedNonNegative | app/Models/User.php:185-188 | with non-negative sizes, usage is never negative |
| ApiKeys.UserApiKey.IsExpired | app/Models/UserApiKey.php:72-75 | a key without expiry never expires; otherwise it is expired exactly when its expiry lies before `now` |
| ApiKeys.UserApiKey.HasScope | app/Models/UserApiKey.php:80-83 | null scopes grant nothing; a non-numeric scope needs an exact match; a numeric one matches by numeric value (loose `in_array`) |
| ApiKeys.UserApiKey.TouchLastUsed | app/Models/UserApiKey.php:88-91 | `last_used_at` becomes `now`; `updated_at` moves only when the value changed |
| ApiKeys.ExpiryIsFinal | app/Models/UserApiKey.php:72-75 | an expired key stays expired; a key without expiry never expires |
| ApiKeys.LooseNumericMatch | app/Models/UserApiKey.php:82 | under loose comparison `"007"` matches a stored `"7"`, while `"8"` does not |
| ApiKeys.CanonicalDigitsInjective | app/Models/UserApiKey.php:82 | distinct digit strings without leading zeros never match each other |
| UploadSessions.UploadSession.constructor | database/migrations/2024_12_20_000012_create_upload_sessions_table.php:22-23 | a new session is `pending`, with no file |
| UploadSessions.UploadSession.IsPending | app/Models/UploadSession.php:77-80 | the status is exactly `pending` (the predicate itself) |
| UploadSessions.UploadSession.IsComplete | app/Models/UploadSession.php:85-88 | the status is exactly `complete` (the predicate itself) |
| UploadSessions.UploadSession.IsFailed | app/Models/UploadSession.php:93-96 | the status is exactly `failed` (the predicate itself) |
| UploadSessions.UploadSession.MarkComplete | app/Models/UploadSession.php:101-107 | status `complete` and the file linked whatever the status was; `updated_at` moves only when something changed |
| UploadSessions.UploadSession.MarkFailed | app/Models/UploadSession.php:112-117 | status `failed`, the file link kept; `updated_at` moves only when the status changed |
| UploadSessions.WithStatus | app/Models/UploadSession.php:122-133 | keeps exactly the rows with the status, in order |
| UploadSessions.Pending | app/Models/UploadSession.php:122-125 | exactly the pending rows, in order |
| UploadSessions.Complete | app/Models/UploadSession.php:130-133 | exactly the complete rows, in order |
| UploadSessions.ForUser | app/Models/UploadSession.php:148-151 | exactly the user's rows, in order |
| UploadSessions.Stale | app/Models/UploadSession.php:138-143 | exactly the pending rows created more than `hours` hours before `now`, in order |
| UploadSessions.StaleByDefault | app/Models/UploadSession.php:138-143 | without an argument: exactly the pending rows created more than 86400 seconds before `now` |
| UploadSessions.StatusesExclusive | app/Models/UploadSession.php:77-96 | a session is in at most one of the three states |
| UploadSessions.StaleArePending | app/Models/UploadSession.php:122-143 | every stale row is pending and never complete |
| UploadSessions.StaleShrinksWithAge | app/Models/UploadSession.php:138-143 | a longer age can only shrink the stale list, keeping its order |
| VirtualFolders.GetFilesQuery | app/Models/VirtualFolder.php:50-81 | the built constraints select a file if and only if it is the owner's, not trashed, has all include tags (`AND`) or one of them (otherwise), and none of the exclude tags |
| VirtualFolders.AndNarrowerThanOr | app/Models/VirtualFolder.php:59-71 | with the same tags, `AND` never selects a file the other operator leaves out |
| VirtualFolders.RequiredAndExcludedIsEmpty | app/Models/VirtualFolder.php:59-78 | a tag that is both required under `AND` and excluded empties the folder |
| VirtualFolders.ExcludingMoreNeverAdds | app/Models/VirtualFolder.php:74-78 | excluding one more tag never lets a file in |
| VirtualFolders.NullQuerySelectsAllOwned | app/Models/VirtualFolder.php:52-57 | a null tag query selects every untrashed file of the owner |
| SystemSettings.Lookup | app/Models/SystemSetting.php:67-72 | the default for a missing key or a stored null, the stored value otherwise |
| SystemSettings.Upsert | app/Models/SystemSetting.php:77-83 | the key now holds the value with `updated_at = now`; other keys are unchanged |
| SystemSettings.SettingsTable.GetValue | app/Models/SystemSetting.php:67-72 | answers the lookup over the table's rows |
| SystemSettings.SettingsTable.SetValue | app/Models/SystemSetting.php:77-83 | the table becomes the upsert of the old table; the written row is answered |
| SystemSettings.GetAfterSet | app/Models/SystemSetting.php:67-83 | reading back a written key gives the value (`false`, `0` and `""` included); only a written null reads as the default |
| SystemSettings.SetLeavesOthers | app/Models/SystemSetting.php:77-83 | writing one key leaves every other key reading as before |
| SystemSettings.LastWriteWins | app/Models/SystemSetting.php:77-83 | two writes to the same key equal the second write alone |
| SystemSettings.FalseIsNotMissing | app/Models/SystemSetting.php:71 | `??` falls back only on null: a stored `false` is returned |
| PhpStrings.Explode | app/Models/File.php:85 | `explode` never gives an empty list (`explode(' ', '')` is `['']`) |
| PhpStrings.Implode | app/Services/OAuthService.php:300 | `implode`: the pieces with one separator between neighbours (no contract of its own; see ImplodeExplode and ExplodeImplode) |
| PhpStrings.ExplodeShape | app/Models/File.php:85-87 | `explode` gives one more piece than there are separators, and no piece holds the separator |
| PhpStrings.ImplodeExplode | app/Http/Middleware/ValidateScopes.php:39-41 | joining the pieces of `explode` with the same separator gives the input back |
| PhpStrings.ExplodeImplode | app/Services/OAuthService.php:300 | splitting a join of separator-free pieces gives the pieces back |
| PhpStrings.ExplodeFreePrefix | app/Http/Middleware/ValidateScopes.php:39-41 | a separator-free prefix becomes the front of the first piece |
| JsStrings.DropSpacesCutsSpace | resources/js/stores/auth.js:35 | what the leading cut of `trim` removes is all whitespace |
| JsStrings.TrimEndCutsSpace | resources/js/stores/auth.js:35 | what the trailing cut of `trim` removes is all whitespace |
| JsStrings.Trim | resources/js/stores/auth.js:35 | the result neither starts nor ends with whitespace |
| JsStrings.TrimIsMiddle | resources/js/stores/auth.js:35 | the result is the input's characters from some position on, with only whitespace before and after them |
| JsStrings.SplitSpaces | resources/js/stores/auth.js:35 | `split(/\s+/)` gives at least one piece |
| JsStrings.SplitPiecesNoSpace | resources/js/stores/auth.js:35 | no piece of `split(/\s+/)` contains whitespace |
| JsStrings.JoinSplit | resources/js/stores/auth.js:35-47 | splitting on whitespace and joining with one space collapses every whitespace run |
| JsStrings.FirstPiece | resources/js/stores/auth.js:35-36 | the first piece is the longest whitespace-free prefix |
| JsStrings.SplitCount | resources/js/stores/auth.js:44-45 | a string splits into one piece exactly when it has no whitespace |
| JsStrings.PiecesOfTrimmed | resources/js/stores/auth.js:55 | a trimmed non-empty string splits into non-empty pieces only |
| JsStrings.ToUpper | resources/js/stores/auth.js:61-66 | `toUpperCase` keeps or lengthens a string, at most doubling it |
| AuthStore.FirstName | resources/js/stores/auth.js:33-37 | the whitespace-free prefix of the trimmed name, followed there by whitespace or the end; empty exactly when the name is absent or blank |
| AuthStore.LastName | resources/js/stores/auth.js:42-48 | empty exactly when the name is absent or its trimmed form is a single word |
| AuthStore.NameRoundTrip | resources/js/stores/auth.js:33-48 | first name, then a space and the last name when there is one, equals the trimmed name with whitespace runs collapsed |
| AuthStore.NonEmptyParts | resources/js/stores/auth.js:55 | the filter keeps no empty piece and keeps everything when nothing is empty |
| AuthStore.Words | resources/js/stores/auth.js:55 | no words for a blank name; otherwise exactly the pieces of the trimmed name |
| AuthStore.OneWord | resources/js/stores/auth.js:55 | a non-empty name without whitespace trims to itself and is its only word |
| AuthStore.InitialOf | resources/js/stores/auth.js:61-66 | the upper-cased first character of a word, cut back to its first character |
| AuthStore.LastWord | resources/js/stores/auth.js:66 | the last word of a name with a last name is non-empty and holds no whitespace |
| AuthStore.NameWords | resources/js/stores/auth.js:55-66 | for a name that is not blank, the first word is the first name, the last is the last word, and there is one word exactly when there is no last name |
| AuthStore.WordInitialsAsWritten | resources/js/stores/auth.js:57-67 | empty exactly when there are no words; one word gives its first two characters (or its only one) upper-cased; several give the upper-cased first characters of the first and the last word; at most four characters |
| AuthStore.WordInitials | resources/js/stores/auth.js:57-67 | empty exactly when there are no words; the first initial is the first word's upper-cased first character; the second is the last word's when there are several, else the single word's second character; one character per initial, at most two |
| AuthStore.InitialsAsWritten | resources/js/stores/auth.js:53-68 | empty exactly for an absent or blank name; with a last name, the upper-cased first letters of the first name and of the last word; for a single word, its first two characters (or its only one) upper-cased; at most four characters |
| AuthStore.Initials | resources/js/stores/auth.js:53-68 | empty exactly for an absent or blank name; the first initial comes from the first name's first letter; with a last name there are two, the second from the last word's first letter; for a single word the second, when there is one, is its second character; each upper-cased and one character long |
| AuthStore.WordInitialsAgree | resources/js/stores/auth.js:57-67 | wherever upper-casing lengthened no chosen character, both versions agree |
| AuthStore.InitialsAgree | resources/js/stores/auth.js:53-68 | wherever upper-casing lengthened no chosen character of the name, both versions agree |
| AuthStore.AsciiUpperKeepsLength | resources/js/stores/auth.js:61-66 | on plain ASCII, upper-casing keeps the length |
| AuthStore.AsciiWordsAgree | resources/js/stores/auth.js:57-67 | on words in plain ASCII the written and corrected initials agree |
| AuthStore.InitialsCanExceedTwo | resources/js/stores/auth.js:58-61 | the written initials of `ßx` are `SSX`, three characters; the corrected ones are `SX` |
| AuthStore.AlphabetIsUnreserved | resources/js/stores/auth.js:76 | the alphabet has 66 characters and is exactly the unreserved set of section 2.3 of RFC 3986 |
| AuthStore.PickCoversUnreserved | resources/js/stores/auth.js:80 | every unreserved character is produced by some byte |
| AuthStore.Pick | resources/js/stores/auth.js:80 | the character one byte picks is unreserved |
| AuthStore.Draw | resources/js/stores/auth.js:78-81 | one character per byte, the i-th the character of the alphabet at byte i modulo its length |
| AuthStore.PicksFormVerifier | resources/js/stores/auth.js:75-83 | 43 to 128 picked characters form a valid RFC 7636 `code_verifier` |
| AuthStore.GenerateRandomString | resources/js/stores/auth.js:75-83 | exactly `length` characters, the i-th chosen by byte i modulo 66; with a length from 43 to 128 the result is a valid RFC 7636 `code_verifier` |
| AuthStore.GenerateDefaultRandomString | resources/js/stores/auth.js:75 | at the default length of 64 the result is a valid RFC 7636 `code_verifier` |
| AuthStore.Store.constructor | resources/js/stores/auth.js:12-18 | tokens, user and error null; not loading |
| AuthStore.Store.IsAuthenticated | resources/js/stores/auth.js:21 | true exactly when the access token is a non-empty string |
| AuthStore.Store.SetTokens | resources/js/stores/auth.js:115-118 | both token slots set to the given values, nothing else changed |
| AuthStore.Store.ClearAuth | resources/js/stores/auth.js:123-128 | tokens, user and error null, `isLoading` untouched; afterwards not authenticated and no name |
| AuthStore.Store.HandleCallback | resources/js/stores/auth.js:161-176 | a `state` not strictly equal to the stored one is rejected with "Invalid state parameter"; a missing or empty verifier with "Missing code verifier"; a rejection ends loading; otherwise the exchange goes ahead with the stored verifier; tokens and user are never changed here |
| AuthStore.MissingStateRejected | resources/js/stores/auth.js:167-169 | an `undefined` state never equals what storage returns, so it is always rejected |
| FiletypeIcons.GetItemIconAsWritten | resources/js/utils/filetypeIcons.js:76-86 | a folder gets `Folder`; a non-icon comes back exactly for a non-folder whose filetype names an inherited object member |
| FiletypeIcons.GetItemIcon | resources/js/utils/filetypeIcons.js:76-86 | a folder gets `Folder`; a non-folder with a table key gets its entry; any other item gets `File` |
| FiletypeIcons.NoFolderInTable | resources/js/utils/filetypeIcons.js:17-69 | the table holds no `Folder` icon |
| FiletypeIcons.FolderIconOnlyForFolders | resources/js/utils/filetypeIcons.js:17-86 | an item gets `Folder` if and only if its type is `folder` |
| FiletypeIcons.KeysAreLowerCase | resources/js/utils/filetypeIcons.js:17-69 | no table key has an upper-case letter |
| FiletypeIcons.UpperCaseExtensionIsGeneric | resources/js/utils/filetypeIcons.js:81-85 | the lookup is case-sensitive: an extension with an upper-case letter gets `File` |
| FiletypeIcons.JpgIsCaseSensitive | resources/js/utils/filetypeIcons.js:27-85 | `JPG` gets `File` while `jpg` gets `FileImage` |
| FiletypeIcons.InheritedMemberIsNotAnIcon | resources/js/utils/filetypeIcons.js:81-83 | as written, a file of type `toString` gets an inherited function, not an icon; the corrected lookup gives `File` |
| FiletypeIcons.AsWrittenAgrees | resources/js/utils/filetypeIcons.js:76-86 | outside the inherited member names both lookups agree |

## Left out

- JWT minting, parsing and invalidation are a foreign library. The signer is an uninterpreted function value. `ValidateScopes` receives the token's scopes, or "unparseable", as a parameter.
- SHA-256 is an uninterpreted function value. The constant-time behaviour of `hash_equals` is not modelled, only its equality.
- `crypto.subtle` and `generateCodeChallenge` in `auth.js` (SHA-256 in the browser, `btoa`, and the `plain` fallback) are not modelled.
- `Str::random`, `crypto.getRandomValues` and `now()` are not modelled. Random ids and bytes are parameters: ids come with a freshness precondition, and bytes arrive as a sequence of the requested length. The clock is a parameter in whole seconds.
- The concurrency of find-then-update is not modelled. The model is sequential and claims nothing about two simultaneous redemptions.
- `http_build_query` is a parameter of `WebSession.Render`. Redirects are otherwise kept as their URI, separator and parameter list.
- The login rate limiter, session regeneration, request validation rules, `logout`, and the Blade views are not modelled. `Login` starts after the rate limiter and receives the user whose credentials matched.
- OAuthController.Authorize: a present-but-null `scope` is modelled as a 500, because `validateScopes` then receives null where a string is required.
- A null `code` or `refresh_token` in `token` is not modelled.
- `ValidateScopes` catching exceptions thrown further down the pipeline is not modelled. Only a failed token parse gives 401 here.
- A `scopes` claim that is not a list is not modelled.
- OAuthRules.ValidateScopes: the key gaps `array_filter` leaves when `*` is allowed are not modelled. Only the values matter to every consumer (`implode`, `in_array`).
- ApiKeys.UserApiKey.HasScope: loose `in_array` is modelled only for digit-only strings. Other numeric forms (`"1e1"`, `" 7"`, `"7.0"`) are compared exactly.
- Database collation and case-insensitive comparison are not modelled. Keys, tags and statuses compare exactly.
- The `orderBy` of `getFilesQuery` is not modelled. `GetFilesQuery` models which files are selected, not their order.
- JSON floating-point values in `SystemSetting` are not modelled. Numbers are integers.
- JSON objects (associative arrays) as `SystemSetting` values are not modelled, and neither are non-string entries in a `UserApiKey`'s `scopes` list. Such an entry would change loose `in_array`: a stored `true` matches every scope.
- The `created_at` and `updated_at` columns of authorization codes and refresh tokens are not modelled. `revoke` and the bulk revocation in `revokeAllUserTokens` also move `updated_at` when a row changes.
- JsStrings.ToUpper: the full case mapping is modelled only for Basic Latin and Latin-1. Other characters are kept as they are.
- JavaScript strings are modelled as sequences of code points, not UTF-16 code units.
- `fetch`, `sessionStorage` and `localStorage` are not modelled. This covers `login`, `fetchUser`, `refreshAccessToken`, `logout` and `apiFetch`.
- AuthStore.Store.HandleCallback: only the validation prefix of `handleCallback` is modelled. On the success path the token request and the `finally` that ends loading are not.
- The `fullName` getter is not modelled. It only returns the name or `''`.

## Findings

| source | as written | input that shows it | evidently intended | confidence | as-written member | corrected member |
|---|---|---|---|---|---|---|
| resources/js/stores/auth.js:58-67 | `initials` upper-cases the chosen characters after choosing them, and `toUpperCase` can turn one character into two | the name `ßx` gives `SSX`, three characters | at most two initials, one character per initial (`SX`) | not executed | AuthStore.InitialsCanExceedTwo | AuthStore.Initials |
| resources/js/utils/filetypeIcons.js:81-83 | `filetypeIcons[item.filetype]` also reads the members every object inherits from `Object.prototype` | a file whose `filetype` is `toString` gets `Object.prototype.toString` instead of an icon | only the table's own keys select an icon; everything else gets `File` | not executed | FiletypeIcons.InheritedMemberIsNotAnIcon | FiletypeIcons.GetItemIcon |
