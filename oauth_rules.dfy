/**
 * The decisions of `OAuthService`, as functions over the two credential
 * tables: client validation, PKCE, scope narrowing, the early-return chains
 * of the code exchange and the refresh, token issue and revocation.  The
 * class in `OAuthService` performs the same steps in place and is proved to
 * reach exactly the store these functions describe.
 */
module OAuthRules {
  import opened Common
  import opened OAuthRecords
  import opened Users
  import PhpStrings
  import Base64Url
  import Seqs

  /** SHA-256 with raw output, `hash('sha256', $s, true)`; left uninterpreted. */
  type Hash = string -> seq<Base64Url.byte>

  /**
   * JWT minting, `JWTAuth::claims([...])->fromUser($user)`: the user, the
   * `scopes` claim and the `client_id` claim give the access token.
   */
  type Signer = (User, seq<string>, string) -> string

  /** The read-only side of the server: registered clients, users, primitives. */
  datatype Env = Env(
    clients: seq<Client>,
    users: map<string, User>,
    sha256: Hash,
    sign: Signer)

  /** The two tables the server writes, keyed by record id. */
  datatype Store = Store(
    codes: map<string, AuthorizationCode>,
    tokens: map<string, RefreshToken>)

  /** Every row is filed under its own id. */
  predicate WellKeyed(st: Store) {
    (forall k :: k in st.codes ==> st.codes[k].id == k)
    && (forall k :: k in st.tokens ==> st.tokens[k].id == k)
  }

  /** An `error` / `error_description` pair of section 5.2 of RFC 6749. */
  datatype OAuthError = OAuthError(error: string, description: string)

  const InvalidGrant: string := "invalid_grant"
  const InvalidClient: string := "invalid_client"
  const InvalidRedirectUri: string := "invalid_redirect_uri"

  const UnknownClient := OAuthError(InvalidClient, "The client identifier provided is invalid.")
  const UnregisteredRedirect :=
    OAuthError(InvalidRedirectUri, "The redirect URI provided does not match any registered redirect URIs.")
  const CodeUnknown := OAuthError(InvalidGrant, "The authorization code is invalid.")
  const CodeRevoked := OAuthError(InvalidGrant, "The authorization code has been revoked.")
  const CodeExpired := OAuthError(InvalidGrant, "The authorization code has expired.")
  const ClientMismatch := OAuthError(InvalidClient, "The client identifier is invalid.")
  const RedirectMismatch := OAuthError(InvalidGrant, "The redirect URI does not match.")
  const VerifierMissing := OAuthError(InvalidGrant, "The code verifier is required.")
  const VerifierInvalid := OAuthError(InvalidGrant, "The code verifier is invalid.")
  const UserInactive := OAuthError(InvalidGrant, "The user account is inactive.")
  const TokenUnknown := OAuthError(InvalidGrant, "The refresh token is invalid.")
  const TokenRevoked := OAuthError(InvalidGrant, "The refresh token has been revoked.")
  const TokenExpired := OAuthError(InvalidGrant, "The refresh token has expired.")

  // ---------------------------------------------------------------------
  // Client lookup and validation

  /** The two columns clients are looked up by. */
  datatype ClientColumn = PublicId | PrimaryKey

  function ColumnValue(c: Client, col: ClientColumn): string {
    match col
    case PublicId => c.clientId
    case PrimaryKey => c.id
  }

  /**
   * `OauthClient::where(column, v)->first()` (and `find`, and the
   * `client` relation of codes and tokens): the first row whose column is `v`.
   */
  function FindClient(clients: seq<Client>, col: ClientColumn, v: string): (r: Option<Client>)
    ensures r.None? <==> forall i :: 0 <= i < |clients| ==> ColumnValue(clients[i], col) != v
    ensures r.Some? ==> r.value in clients && ColumnValue(r.value, col) == v
    ensures r.Some? && ColumnValue(clients[0], col) == v ==> r.value == clients[0]
    ensures r.Some? ==>
              exists i :: 0 <= i < |clients| && clients[i] == r.value
                          && forall j :: 0 <= j < i ==> ColumnValue(clients[j], col) != v
  {
    if clients == [] then None
    else if ColumnValue(clients[0], col) == v then Some(clients[0])
    else
      var r := FindClient(clients[1..], col, v);
      if r.Some? then
        var i :| 0 <= i < |clients[1..]| && clients[1..][i] == r.value
                 && forall j :: 0 <= j < i ==> ColumnValue(clients[1..][j], col) != v;
        assert clients[i + 1] == r.value;
        assert forall j :: 0 <= j < i + 1 ==> ColumnValue(clients[j], col) != v by {
          forall j | 0 <= j < i + 1 ensures ColumnValue(clients[j], col) != v {
            if j > 0 { assert clients[j] == clients[1..][j - 1]; }
          }
        }
        r
      else r
  }

  /** With unique values in the column, the lookup finds the one row that has it. */
  lemma {:induction false} FindClientUnique(clients: seq<Client>, col: ClientColumn, c: Client)
    requires c in clients
    requires forall i, j :: 0 <= i < j < |clients| ==> ColumnValue(clients[i], col) != ColumnValue(clients[j], col)
    ensures FindClient(clients, col, ColumnValue(c, col)) == Some(c)
    decreases |clients|
  {
    if clients[0] != c {
      assert c in clients[1..];
      FindClientUnique(clients[1..], col, c);
    }
  }

  datatype ClientValidation = ClientValid(client: Client) | ClientInvalid(err: OAuthError)

  /**
   * `validateClient`: the client must exist; a first-party client may use any
   * redirect URI, any other client only one of its registered URIs, compared
   * strictly.
   */
  function ValidateClient(clients: seq<Client>, clientId: string, redirectUri: string): (r: ClientValidation)
    ensures (forall i :: 0 <= i < |clients| ==> clients[i].clientId != clientId)
            ==> r == ClientInvalid(UnknownClient)
    ensures r.ClientValid? ==> r.client in clients && r.client.clientId == clientId
    ensures r.ClientValid? ==> r.client.isFirstParty || redirectUri in r.client.redirectUris
    ensures r.ClientInvalid? ==> r.err == UnknownClient || r.err == UnregisteredRedirect
    ensures r.ClientInvalid? && r.err == UnregisteredRedirect ==>
              var c := FindClient(clients, PublicId, clientId);
              c.Some? && !c.value.isFirstParty && redirectUri !in c.value.redirectUris
  {
    match FindClient(clients, PublicId, clientId)
    case None => ClientInvalid(UnknownClient)
    case Some(c) =>
      if c.isFirstParty then ClientValid(c)
      else if redirectUri !in c.redirectUris then ClientInvalid(UnregisteredRedirect)
      else ClientValid(c)
  }

  /** A known first-party client passes with every redirect URI; a third-party one exactly with its own. */
  lemma ValidateClientRedirects(clients: seq<Client>, clientId: string, redirectUri: string)
    requires FindClient(clients, PublicId, clientId).Some?
    ensures var c := FindClient(clients, PublicId, clientId).value;
            ValidateClient(clients, clientId, redirectUri).ClientValid?
            <==> c.isFirstParty || redirectUri in c.redirectUris
  {
  }

  // ---------------------------------------------------------------------
  // PKCE (section 4.6 of RFC 7636)

  /** `validatePKCE`: `plain` compares directly; every other method is S256. */
  function ValidatePkce(verifier: string, challenge: string, challengeMethod: string, sha256: Hash): (ok: bool)
    ensures challengeMethod != "plain" ==> (ok <==> challenge == Base64Url.EncodeUnpadded(sha256(verifier)))
  {
    Base64Url.EncodeChallengeIsUnpaddedBase64Url(sha256(verifier));
    if challengeMethod == "plain" then challenge == verifier
    else challenge == Base64Url.EncodeChallenge(sha256(verifier))
  }

  /** `generateCodeChallenge`: the challenge a client derives from its verifier. */
  function GenerateCodeChallenge(verifier: string, challengeMethod: string, sha256: Hash): (c: string)
    ensures ValidatePkce(verifier, c, challengeMethod, sha256)
    ensures challengeMethod == "plain" ==> c == verifier
    ensures challengeMethod != "plain" ==> c == Base64Url.EncodeUnpadded(sha256(verifier))
    ensures challengeMethod != "plain" ==> |c| == (4 * |sha256(verifier)| + 2) / 3
    ensures challengeMethod != "plain" ==> forall i :: 0 <= i < |c| ==> Base64Url.IsUrlChar(c[i])
  {
    if challengeMethod == "plain" then verifier
    else
      Base64Url.EncodeChallengeIsUnpaddedBase64Url(sha256(verifier));
      Base64Url.EncodeChallenge(sha256(verifier))
  }

  /** A verifier passes against exactly one challenge: the one generated from it. */
  lemma PkceExactlyGenerated(verifier: string, challenge: string, challengeMethod: string, sha256: Hash)
    ensures ValidatePkce(verifier, challenge, challengeMethod, sha256)
            <==> challenge == GenerateCodeChallenge(verifier, challengeMethod, sha256)
  {
  }

  /** A SHA-256 digest (32 bytes) gives a 43-character S256 challenge. */
  lemma S256ChallengeLength(verifier: string, sha256: Hash)
    requires |sha256(verifier)| == 32
    ensures |GenerateCodeChallenge(verifier, "S256", sha256)| == 43
  {
  }

  // ---------------------------------------------------------------------
  // Scope narrowing

  /** `array_filter(explode(' ', $requested))`: the requested pieces, falsy ones dropped. */
  function RequestedScopes(requested: string): (pieces: seq<string>)
    ensures forall i :: 0 <= i < |pieces| ==> ' ' !in pieces[i] && PhpStrings.Truthy(pieces[i])
    ensures forall x :: x in pieces <==> x in PhpStrings.Explode(' ', requested) && PhpStrings.Truthy(x)
  {
    var kept := PhpStrings.FilterTruthy(PhpStrings.Explode(' ', requested));
    PhpStrings.ExplodeShape(' ', requested);
    assert forall i :: 0 <= i < |kept| ==> kept[i] in PhpStrings.Explode(' ', requested);
    kept
  }

  /** `array_values(array_intersect($pieces, $allowed))`: the allowed pieces, in order, duplicates kept. */
  function KeepAllowed(pieces: seq<string>, allowed: seq<string>): (kept: seq<string>)
    ensures forall x :: x in kept <==> x in pieces && x in allowed
    ensures forall x :: x in allowed ==> multiset(kept)[x] == multiset(pieces)[x]
    ensures forall x :: x !in allowed ==> multiset(kept)[x] == 0
    ensures Seqs.IsSubsequence(kept, pieces)
  {
    if pieces == [] then []
    else
      var rest := KeepAllowed(pieces[1..], allowed);
      assert pieces == [pieces[0]] + pieces[1..];
      Seqs.SubsequenceCons(rest, pieces[0], pieces[1..]);
      if pieces[0] in allowed then
        assert ([pieces[0]] + rest)[1..] == rest;
        [pieces[0]] + rest
      else rest
  }

  /**
   * `validateScopes`: with `*` among the client's scopes every requested
   * piece is granted, otherwise only the pieces the client may use.
   */
  function ValidateScopes(requested: string, allowed: seq<string>): (granted: seq<string>)
    ensures "*" in allowed ==> granted == RequestedScopes(requested)
    ensures "*" !in allowed ==> forall x :: x in granted <==> x in RequestedScopes(requested) && x in allowed
    ensures Seqs.IsSubsequence(granted, RequestedScopes(requested))
  {
    if "*" in allowed then
      Seqs.SubsequenceReflexive(RequestedScopes(requested));
      RequestedScopes(requested)
    else KeepAllowed(RequestedScopes(requested), allowed)
  }

  /** The requested pieces are themselves a sub-list of the raw `explode`. */
  lemma {:induction false} FilterTruthySubsequence(parts: seq<string>)
    ensures Seqs.IsSubsequence(PhpStrings.FilterTruthy(parts), parts)
    decreases |parts|
  {
    if parts != [] {
      var rest := PhpStrings.FilterTruthy(parts[1..]);
      FilterTruthySubsequence(parts[1..]);
      Seqs.SubsequenceCons(rest, parts[0], parts[1..]);
      assert [parts[0]] + parts[1..] == parts;
      if PhpStrings.Truthy(parts[0]) {
        assert ([parts[0]] + rest)[1..] == rest;
      }
    }
  }

  /** Granted scopes never contain a space, an empty piece or `"0"`. */
  lemma GrantedScopesAreWords(requested: string, allowed: seq<string>)
    ensures forall x :: x in ValidateScopes(requested, allowed) ==> ' ' !in x && PhpStrings.Truthy(x)
  {
    var g := ValidateScopes(requested, allowed);
    forall x | x in g ensures ' ' !in x && PhpStrings.Truthy(x) {
      Seqs.SubsequenceMembers(g, RequestedScopes(requested));
    }
  }

  // ---------------------------------------------------------------------
  // The authorization-code exchange

  /** The code carries a challenge that PHP treats as set (`if ($authCode->code_challenge)`). */
  predicate PkceRequired(rec: AuthorizationCode) {
    rec.codeChallenge.Some? && PhpStrings.Truthy(rec.codeChallenge.value)
  }

  /** The verifier is present and matches the stored challenge, whenever one is set. */
  predicate PkceSatisfied(sha256: Hash, rec: AuthorizationCode, verifier: string) {
    PkceRequired(rec) ==>
      PhpStrings.Truthy(verifier)
      && ValidatePkce(verifier, rec.codeChallenge.value, rec.codeChallengeMethod.GetOr("S256"), sha256)
  }

  /** The client the row points to exists and presents the public id `clientId`. */
  predicate BoundTo(clients: seq<Client>, clientKey: string, clientId: string) {
    var c := FindClient(clients, PrimaryKey, clientKey);
    c.Some? && c.value.clientId == clientId
  }

  /** Everything a code must satisfy to be exchanged, stated without order. */
  predicate Redeemable(env: Env, rec: AuthorizationCode, verifier: string, clientId: string,
                       redirectUri: string, now: Time) {
    rec.IsValid(now)
    && BoundTo(env.clients, rec.clientKey, clientId)
    && rec.redirectUri == redirectUri
    && PkceSatisfied(env.sha256, rec, verifier)
  }

  datatype CodeCheck = CodeAccepted(record: AuthorizationCode, client: Client) | CodeRejected(err: OAuthError)

  /**
   * The checks of `exchangeCodeForTokens` before the code is revoked, in the
   * source's order; the first failing one gives the error.
   */
  function CheckAuthorizationCode(env: Env, codes: map<string, AuthorizationCode>, code: string,
                                  verifier: string, clientId: string, redirectUri: string, now: Time): (r: CodeCheck)
    ensures code !in codes ==> r == CodeRejected(CodeUnknown)
    ensures code in codes ==> (r.CodeAccepted? <==> Redeemable(env, codes[code], verifier, clientId, redirectUri, now))
    ensures r.CodeAccepted? ==>
              (r.record == codes[code]
               && FindClient(env.clients, PrimaryKey, r.record.clientKey) == Some(r.client)
               && r.client.clientId == clientId)
    ensures code in codes && codes[code].revoked ==> r == CodeRejected(CodeRevoked)
    ensures code in codes && !codes[code].revoked && codes[code].IsExpired(now) ==> r == CodeRejected(CodeExpired)
    ensures r == CodeRejected(ClientMismatch) <==>
              code in codes && codes[code].IsValid(now) && !BoundTo(env.clients, codes[code].clientKey, clientId)
    ensures r == CodeRejected(RedirectMismatch) <==>
              code in codes && codes[code].IsValid(now) && BoundTo(env.clients, codes[code].clientKey, clientId)
              && codes[code].redirectUri != redirectUri
    ensures r == CodeRejected(VerifierMissing) <==>
              code in codes && codes[code].IsValid(now) && BoundTo(env.clients, codes[code].clientKey, clientId)
              && codes[code].redirectUri == redirectUri
              && PkceRequired(codes[code]) && !PhpStrings.Truthy(verifier)
    ensures r == CodeRejected(VerifierInvalid) <==>
              code in codes && codes[code].IsValid(now) && BoundTo(env.clients, codes[code].clientKey, clientId)
              && codes[code].redirectUri == redirectUri
              && PkceRequired(codes[code]) && PhpStrings.Truthy(verifier)
              && !ValidatePkce(verifier, codes[code].codeChallenge.value,
                               codes[code].codeChallengeMethod.GetOr("S256"), env.sha256)
    ensures r.CodeRejected? ==> r.err.error == InvalidGrant || r.err == ClientMismatch
  {
    if code !in codes then CodeRejected(CodeUnknown)
    else
      var rec := codes[code];
      if rec.revoked then CodeRejected(CodeRevoked)
      else if rec.IsExpired(now) then CodeRejected(CodeExpired)
      else match FindClient(env.clients, PrimaryKey, rec.clientKey)
        case None => CodeRejected(ClientMismatch)
        case Some(client) =>
          if client.clientId != clientId then CodeRejected(ClientMismatch)
          else if rec.redirectUri != redirectUri then CodeRejected(RedirectMismatch)
          else if PkceRequired(rec) && !PhpStrings.Truthy(verifier) then CodeRejected(VerifierMissing)
          else if PkceRequired(rec)
                  && !ValidatePkce(verifier, rec.codeChallenge.value, rec.codeChallengeMethod.GetOr("S256"), env.sha256)
          then CodeRejected(VerifierInvalid)
          else CodeAccepted(rec, client)
  }

  /** The token endpoint's answer. */
  datatype TokenResponse =
    | Issued(accessToken: string, refreshToken: string, tokenType: string, expiresIn: int, scope: string)
    | Failed(err: OAuthError)

  /** One step of the server: the new tables and the answer. */
  datatype Step = Step(store: Store, response: TokenResponse)

  /** The row `createAuthorizationCode` inserts. */
  function NewCode(id: string, user: User, client: Client, scopes: seq<string>, redirectUri: string,
                   challenge: Option<string>, challengeMethod: string, now: Time): AuthorizationCode {
    AuthorizationCode(id, user.id, client.id, scopes, redirectUri, challenge, Some(challengeMethod), false, now + AuthCodeTtl)
  }

  /** The row `generateTokens` inserts. */
  function NewRefreshToken(id: string, user: User, client: Client, scopes: seq<string>, now: Time): RefreshToken {
    RefreshToken(id, user.id, client.id, scopes, false, now + RefreshTokenTtlDays * SecondsPerDay)
  }

  /** `generateTokens`: one new refresh-token row and the response built around it. */
  function IssueTokens(env: Env, st: Store, user: User, client: Client, scopes: seq<string>,
                       now: Time, ttlMinutes: int, freshId: string): (s: Step)
    ensures s.response.Issued? && s.response.refreshToken == freshId
    ensures s.store.codes == st.codes && s.store.tokens.Keys == st.tokens.Keys + {freshId}
    ensures !s.store.tokens[freshId].revoked
  {
    Step(st.(tokens := st.tokens[freshId := NewRefreshToken(freshId, user, client, scopes, now)]),
         Issued(env.sign(user, scopes, client.clientId), freshId, "Bearer", ttlMinutes * 60,
                PhpStrings.Implode(' ', scopes)))
  }

  /**
   * What `generateTokens` promises: a Bearer token living `ttl` minutes, a
   * refresh token valid for exactly seven days that belongs to the user and
   * the client, and a `scope` string that splits back into the scopes
   * (an empty grant, which `validateScopes` can produce, gives `""`).
   */
  lemma IssueTokensMeaning(env: Env, st: Store, user: User, client: Client, scopes: seq<string>,
                           now: Time, ttlMinutes: int, freshId: string)
    requires freshId !in st.tokens
    ensures var s := IssueTokens(env, st, user, client, scopes, now, ttlMinutes, freshId);
            && s.response.tokenType == "Bearer"
            && s.response.expiresIn == ttlMinutes * 60
            && s.response.refreshToken == freshId
            && (scopes == [] ==> s.response.scope == "")
            && ((|scopes| > 0 && forall i :: 0 <= i < |scopes| ==> ' ' !in scopes[i]) ==>
                  PhpStrings.Explode(' ', s.response.scope) == scopes)
            && s.store.codes == st.codes
            && s.store.tokens.Keys == st.tokens.Keys + {freshId}
            && (forall k :: k in st.tokens ==> s.store.tokens[k] == st.tokens[k])
            && var t := s.store.tokens[freshId];
               t.userId == user.id && t.clientKey == client.id && t.scopes == scopes
               && t.IsValid(now + 7 * SecondsPerDay) && !t.IsValid(now + 7 * SecondsPerDay + 1)
  {
    if |scopes| > 0 && forall i :: 0 <= i < |scopes| ==> ' ' !in scopes[i] {
      PhpStrings.ExplodeImplode(' ', scopes);
    }
  }

  /** The users table is keyed by user id. */
  predicate UsersById(users: map<string, User>) {
    forall k :: k in users ==> users[k].id == k
  }

  /** The user a row points to exists and is active. */
  predicate ActiveUser(users: map<string, User>, userId: string) {
    userId in users && users[userId].isActive
  }

  /**
   * `exchangeCodeForTokens`: the checks, then the code is revoked, then the
   * user is checked, then tokens are issued.
   */
  function Exchange(env: Env, st: Store, code: string, verifier: string, clientId: string,
                    redirectUri: string, now: Time, ttlMinutes: int, freshId: string): (s: Step)
    requires freshId !in st.tokens
    ensures s.store.codes.Keys == st.codes.Keys
    ensures forall k :: k in st.codes && k != code ==> s.store.codes[k] == st.codes[k]
    ensures s.response.Failed? ==> s.store.tokens == st.tokens
    ensures s.response.Issued? ==> s.store.tokens.Keys == st.tokens.Keys + {freshId} && s.response.refreshToken == freshId
  {
    match CheckAuthorizationCode(env, st.codes, code, verifier, clientId, redirectUri, now)
    case CodeRejected(e) => Step(st, Failed(e))
    case CodeAccepted(rec, client) =>
      var burnt := st.(codes := st.codes[code := rec.Revoke()]);
      if ActiveUser(env.users, rec.userId)
      then IssueTokens(env, burnt, env.users[rec.userId], client, rec.scopes, now, ttlMinutes, freshId)
      else Step(burnt, Failed(UserInactive))
  }

  /**
   * The exchange touches the tables only as the source does: a failed check
   * changes nothing; once the checks pass the code is revoked, even when the
   * user turns out to be inactive; tokens are issued only to an active user.
   */
  lemma ExchangeEffects(env: Env, st: Store, code: string, verifier: string, clientId: string,
                        redirectUri: string, now: Time, ttlMinutes: int, freshId: string)
    requires freshId !in st.tokens && UsersById(env.users)
    ensures var s := Exchange(env, st, code, verifier, clientId, redirectUri, now, ttlMinutes, freshId);
            var chk := CheckAuthorizationCode(env, st.codes, code, verifier, clientId, redirectUri, now);
            && (chk.CodeRejected? ==> s.store == st && s.response == Failed(chk.err))
            && (chk.CodeAccepted? ==>
                  s.store.codes == st.codes[code := st.codes[code].Revoke()]
                  && (s.response.Issued? <==> ActiveUser(env.users, st.codes[code].userId))
                  && (s.response.Failed? ==> s.response.err == UserInactive && s.store.tokens == st.tokens)
                  && (s.response.Issued? ==>
                        s.store.tokens.Keys == st.tokens.Keys + {freshId}
                        && s.store.tokens[freshId].userId == st.codes[code].userId
                        && s.store.tokens[freshId].clientKey == st.codes[code].clientKey
                        && s.store.tokens[freshId].scopes == st.codes[code].scopes))
  {
  }

  /** A code that has been exchanged successfully is refused on every later attempt. */
  lemma ExchangeSingleUse(env: Env, st: Store, code: string, verifier: string, clientId: string,
                          redirectUri: string, now: Time, ttlMinutes: int, freshId: string,
                          verifier2: string, clientId2: string, redirectUri2: string, now2: Time,
                          ttl2: int, freshId2: string)
    requires freshId !in st.tokens && UsersById(env.users)
    requires Exchange(env, st, code, verifier, clientId, redirectUri, now, ttlMinutes, freshId).response.Issued?
    requires freshId2 !in Exchange(env, st, code, verifier, clientId, redirectUri, now, ttlMinutes, freshId).store.tokens
    ensures var st2 := Exchange(env, st, code, verifier, clientId, redirectUri, now, ttlMinutes, freshId).store;
            Exchange(env, st2, code, verifier2, clientId2, redirectUri2, now2, ttl2, freshId2)
              == Step(st2, Failed(CodeRevoked))
  {
    ExchangeEffects(env, st, code, verifier, clientId, redirectUri, now, ttlMinutes, freshId);
  }

  /** A code created at `now` is exchangeable within its minute by the client it was issued to. */
  lemma FreshCodeRedeemable(env: Env, st: Store, id: string, user: User, client: Client, scopes: seq<string>,
                            redirectUri: string, challenge: Option<string>, challengeMethod: string, verifier: string,
                            now: Time, later: Time)
    requires FindClient(env.clients, PrimaryKey, client.id) == Some(client)
    requires now <= later <= now + AuthCodeTtl
    requires challenge.Some? && PhpStrings.Truthy(challenge.value) ==>
               PhpStrings.Truthy(verifier) && challenge.value == GenerateCodeChallenge(verifier, challengeMethod, env.sha256)
    ensures var codes := st.codes[id := NewCode(id, user, client, scopes, redirectUri, challenge, challengeMethod, now)];
            CheckAuthorizationCode(env, codes, id, verifier, client.clientId, redirectUri, later)
              == CodeAccepted(codes[id], client)
  {
    PkceExactlyGenerated(verifier, challenge.GetOr(""), challengeMethod, env.sha256);
  }

  // ---------------------------------------------------------------------
  // Refresh with rotation

  datatype RefreshCheck =
    | RefreshAccepted(token: RefreshToken, client: Client, user: User)
    | RefreshRejected(err: OAuthError)

  /** The checks of `refreshTokens`, all of them before the old token is revoked. */
  function CheckRefreshToken(env: Env, tokens: map<string, RefreshToken>, tokenId: string, clientId: string,
                             now: Time): (r: RefreshCheck)
    ensures tokenId !in tokens ==> r == RefreshRejected(TokenUnknown)
    ensures tokenId in tokens ==>
              (r.RefreshAccepted? <==>
                 tokens[tokenId].IsValid(now) && BoundTo(env.clients, tokens[tokenId].clientKey, clientId)
                 && ActiveUser(env.users, tokens[tokenId].userId))
    ensures r.RefreshAccepted? ==>
              (r.token == tokens[tokenId] && r.user == env.users[r.token.userId]
               && FindClient(env.clients, PrimaryKey, r.token.clientKey) == Some(r.client))
    ensures tokenId in tokens && tokens[tokenId].revoked ==> r == RefreshRejected(TokenRevoked)
    ensures tokenId in tokens && !tokens[tokenId].revoked && tokens[tokenId].IsExpired(now)
            ==> r == RefreshRejected(TokenExpired)
    ensures r == RefreshRejected(ClientMismatch) <==>
              tokenId in tokens && tokens[tokenId].IsValid(now) && !BoundTo(env.clients, tokens[tokenId].clientKey, clientId)
    ensures r == RefreshRejected(UserInactive) <==>
              tokenId in tokens && tokens[tokenId].IsValid(now) && BoundTo(env.clients, tokens[tokenId].clientKey, clientId)
              && !ActiveUser(env.users, tokens[tokenId].userId)
  {
    if tokenId !in tokens then RefreshRejected(TokenUnknown)
    else
      var tok := tokens[tokenId];
      if tok.revoked then RefreshRejected(TokenRevoked)
      else if tok.IsExpired(now) then RefreshRejected(TokenExpired)
      else match FindClient(env.clients, PrimaryKey, tok.clientKey)
        case None => RefreshRejected(ClientMismatch)
        case Some(client) =>
          if client.clientId != clientId then RefreshRejected(ClientMismatch)
          else if !ActiveUser(env.users, tok.userId) then RefreshRejected(UserInactive)
          else RefreshAccepted(tok, client, env.users[tok.userId])
  }

  /** `refreshTokens`: the checks, then the old token is revoked and a new pair issued. */
  function Refresh(env: Env, st: Store, tokenId: string, clientId: string, now: Time,
                   ttlMinutes: int, freshId: string): (s: Step)
    requires freshId !in st.tokens
    ensures s.store.codes == st.codes
    ensures s.response.Failed? ==> s.store == st
    ensures s.response.Issued? ==>
              tokenId in st.tokens && s.store.tokens.Keys == st.tokens.Keys + {freshId}
              && s.response.refreshToken == freshId && s.store.tokens[tokenId].revoked
  {
    match CheckRefreshToken(env, st.tokens, tokenId, clientId, now)
    case RefreshRejected(e) => Step(st, Failed(e))
    case RefreshAccepted(tok, client, user) =>
      IssueTokens(env, st.(tokens := st.tokens[tokenId := tok.Revoke()]), user, client, tok.scopes,
                  now, ttlMinutes, freshId)
  }

  /**
   * Rotation: on success the presented token is revoked and exactly one new,
   * unrevoked token with the same user, client and scopes is added; on any
   * failure, the client and user checks included, nothing changes.
   */
  lemma RefreshRotates(env: Env, st: Store, tokenId: string, clientId: string, now: Time,
                       ttlMinutes: int, freshId: string)
    requires freshId !in st.tokens && UsersById(env.users)
    ensures var s := Refresh(env, st, tokenId, clientId, now, ttlMinutes, freshId);
            && (s.response.Failed? ==> s.store == st)
            && (s.response.Issued? ==>
                  tokenId in st.tokens && freshId != tokenId
                  && s.store.codes == st.codes
                  && s.store.tokens.Keys == st.tokens.Keys + {freshId}
                  && s.store.tokens[tokenId] == st.tokens[tokenId].Revoke()
                  && (forall k :: k in st.tokens && k != tokenId ==> s.store.tokens[k] == st.tokens[k])
                  && var t := s.store.tokens[freshId];
                     !t.revoked && t.userId == st.tokens[tokenId].userId
                     && t.clientKey == st.tokens[tokenId].clientKey && t.scopes == st.tokens[tokenId].scopes
                     && t.expiresAt == now + RefreshTokenTtlDays * SecondsPerDay)
  {
  }

  /** A rotated-out refresh token is refused on every later attempt. */
  lemma RefreshSingleUse(env: Env, st: Store, tokenId: string, clientId: string, now: Time,
                         ttlMinutes: int, freshId: string, clientId2: string, now2: Time, ttl2: int, freshId2: string)
    requires freshId !in st.tokens && UsersById(env.users)
    requires Refresh(env, st, tokenId, clientId, now, ttlMinutes, freshId).response.Issued?
    requires freshId2 !in Refresh(env, st, tokenId, clientId, now, ttlMinutes, freshId).store.tokens
    ensures var st2 := Refresh(env, st, tokenId, clientId, now, ttlMinutes, freshId).store;
            Refresh(env, st2, tokenId, clientId2, now2, ttl2, freshId2) == Step(st2, Failed(TokenRevoked))
  {
    RefreshRotates(env, st, tokenId, clientId, now, ttlMinutes, freshId);
  }

  // ---------------------------------------------------------------------
  // Revocation

  /** `revokeRefreshToken`'s table: the named row revoked, if there is one. */
  function RevokeToken(tokens: map<string, RefreshToken>, tokenId: string): (r: map<string, RefreshToken>)
    ensures r.Keys == tokens.Keys
    ensures tokenId in tokens ==> r[tokenId].revoked && r[tokenId] == tokens[tokenId].Revoke()
    ensures forall k :: k in tokens && k != tokenId ==> r[k] == tokens[k]
    ensures tokenId !in tokens ==> r == tokens
  {
    if tokenId in tokens then tokens[tokenId := tokens[tokenId].Revoke()] else tokens
  }

  /** Revoking the same token twice leaves the table as revoking it once. */
  lemma RevokeTokenIdempotent(tokens: map<string, RefreshToken>, tokenId: string)
    ensures RevokeToken(RevokeToken(tokens, tokenId), tokenId) == RevokeToken(tokens, tokenId)
  {
    if tokenId in tokens {
      TokenRevokeIdempotent(tokens[tokenId]);
    }
  }

  /** The ids of a user's unrevoked refresh tokens: the rows the bulk update matches. */
  function UnrevokedOf(tokens: map<string, RefreshToken>, userId: string): (ids: set<string>)
    ensures forall k :: k in ids <==> k in tokens && tokens[k].userId == userId && !tokens[k].revoked
  {
    set k | k in tokens && tokens[k].userId == userId && !tokens[k].revoked
  }

  /** `revokeAllUserTokens`'s table: every unrevoked row of the user revoked, all else as it was. */
  function RevokeAllFor(tokens: map<string, RefreshToken>, userId: string): (r: map<string, RefreshToken>)
    ensures r.Keys == tokens.Keys
    ensures forall k :: k in UnrevokedOf(tokens, userId) ==> r[k] == tokens[k].Revoke()
    ensures forall k :: k in tokens && k !in UnrevokedOf(tokens, userId) ==> r[k] == tokens[k]
  {
    map k | k in tokens :: if k in UnrevokedOf(tokens, userId) then tokens[k].Revoke() else tokens[k]
  }

  /**
   * After the bulk revocation the user has no unrevoked token left (so a
   * second call reports 0), and every other user's unrevoked tokens are the
   * same as before.
   */
  lemma RevokeAllForEffect(tokens: map<string, RefreshToken>, userId: string, other: string)
    requires other != userId
    ensures UnrevokedOf(RevokeAllFor(tokens, userId), userId) == {}
    ensures UnrevokedOf(RevokeAllFor(tokens, userId), other) == UnrevokedOf(tokens, other)
    ensures RevokeAllFor(RevokeAllFor(tokens, userId), userId) == RevokeAllFor(tokens, userId)
  {
    var r := RevokeAllFor(tokens, userId);
    assert UnrevokedOf(r, userId) == {} by {
      forall k | k in r ensures !(r[k].userId == userId && !r[k].revoked) {
      }
    }
  }

  // ---------------------------------------------------------------------
  // The store invariant

  /** The exchange keeps every row filed under its own id. */
  lemma ExchangeKeepsWellKeyed(env: Env, st: Store, code: string, verifier: string, clientId: string,
                               redirectUri: string, now: Time, ttlMinutes: int, freshId: string)
    requires WellKeyed(st) && freshId !in st.tokens
    ensures WellKeyed(Exchange(env, st, code, verifier, clientId, redirectUri, now, ttlMinutes, freshId).store)
  {
    match CheckAuthorizationCode(env, st.codes, code, verifier, clientId, redirectUri, now) {
      case CodeRejected(_) =>
      case CodeAccepted(rec, client) =>
        var burnt := st.(codes := st.codes[code := rec.Revoke()]);
        assert WellKeyed(burnt);
        if ActiveUser(env.users, rec.userId) {
          assert WellKeyed(IssueTokens(env, burnt, env.users[rec.userId], client, rec.scopes, now, ttlMinutes, freshId).store);
        }
    }
  }

  /** The refresh keeps every row filed under its own id. */
  lemma RefreshKeepsWellKeyed(env: Env, st: Store, tokenId: string, clientId: string, now: Time,
                              ttlMinutes: int, freshId: string)
    requires WellKeyed(st) && freshId !in st.tokens
    ensures WellKeyed(Refresh(env, st, tokenId, clientId, now, ttlMinutes, freshId).store)
  {
    match CheckRefreshToken(env, st.tokens, tokenId, clientId, now) {
      case RefreshRejected(_) =>
      case RefreshAccepted(tok, client, user) =>
        var rotated := st.(tokens := st.tokens[tokenId := tok.Revoke()]);
        assert WellKeyed(rotated);
        assert WellKeyed(IssueTokens(env, rotated, user, client, tok.scopes, now, ttlMinutes, freshId).store);
    }
  }

  /** Both revocations keep every row filed under its own id. */
  lemma RevocationsKeepWellKeyed(st: Store, tokenId: string, userId: string)
    requires WellKeyed(st)
    ensures WellKeyed(st.(tokens := RevokeToken(st.tokens, tokenId)))
    ensures WellKeyed(st.(tokens := RevokeAllFor(st.tokens, userId)))
  {
    var all := RevokeAllFor(st.tokens, userId);
    forall k | k in all ensures all[k].id == k {
      assert k in st.tokens;
    }
  }

  /** Every step of the server keeps every row filed under its own id. */
  lemma StepsKeepWellKeyed(env: Env, st: Store, code: string, verifier: string, clientId: string,
                           redirectUri: string, tokenId: string, userId: string, now: Time, ttlMinutes: int,
                           freshId: string)
    requires WellKeyed(st) && freshId !in st.tokens
    ensures WellKeyed(Exchange(env, st, code, verifier, clientId, redirectUri, now, ttlMinutes, freshId).store)
    ensures WellKeyed(Refresh(env, st, tokenId, clientId, now, ttlMinutes, freshId).store)
    ensures WellKeyed(st.(tokens := RevokeToken(st.tokens, tokenId)))
    ensures WellKeyed(st.(tokens := RevokeAllFor(st.tokens, userId)))
  {
    ExchangeKeepsWellKeyed(env, st, code, verifier, clientId, redirectUri, now, ttlMinutes, freshId);
    RefreshKeepsWellKeyed(env, st, tokenId, clientId, now, ttlMinutes, freshId);
    RevocationsKeepWellKeyed(st, tokenId, userId);
  }
}
