/**
 * The rows of the OAuth tables: registered clients, authorization codes and
 * refresh tokens, with the per-record predicates of the Eloquent models
 * (`isExpired`, `isValid`) and the record update `revoke`.
 */
module OAuthRecords {
  import opened Common

  /**
   * A registered application (`oauth_clients`).  `id` is the primary key the
   * code and token rows point to; `clientId` is the public identifier a
   * client presents at `/authorize` and `/token`.
   */
  datatype Client = Client(
    id: string,
    clientId: string,
    name: string,
    clientSecret: Option<string>,
    redirectUris: seq<string>,
    scopes: seq<string>,
    isFirstParty: bool,
    isPublic: bool)

  /** Lifetime of an authorization code, in seconds. */
  const AuthCodeTtl: int := 60

  /** Lifetime of a refresh token, in days. */
  const RefreshTokenTtlDays: int := 7

  /**
   * A row of `oauth_authorization_codes`.  `clientKey` is the `client_id`
   * column, which holds the client's primary key, not its public id.
   */
  datatype AuthorizationCode = AuthorizationCode(
    id: string,
    userId: string,
    clientKey: string,
    scopes: seq<string>,
    redirectUri: string,
    codeChallenge: Option<string>,
    codeChallengeMethod: Option<string>,
    revoked: bool,
    expiresAt: Time)
  {
    /** Carbon `isPast`: the expiry instant lies strictly before `now`. */
    predicate IsExpired(now: Time) {
      expiresAt < now
    }

    predicate IsValid(now: Time) {
      !revoked && !IsExpired(now)
    }

    /** The row after `update(['revoked' => true])`. */
    function Revoke(): (r: AuthorizationCode)
      ensures r.revoked
      ensures r.id == id && r.userId == userId && r.clientKey == clientKey && r.scopes == scopes
      ensures r.redirectUri == redirectUri && r.codeChallenge == codeChallenge
      ensures r.codeChallengeMethod == codeChallengeMethod && r.expiresAt == expiresAt
      ensures forall now :: !r.IsValid(now)
    {
      this.(revoked := true)
    }
  }

  /** A row of `oauth_refresh_tokens`; `clientKey` as for codes. */
  datatype RefreshToken = RefreshToken(
    id: string,
    userId: string,
    clientKey: string,
    scopes: seq<string>,
    revoked: bool,
    expiresAt: Time)
  {
    predicate IsExpired(now: Time) {
      expiresAt < now
    }

    predicate IsValid(now: Time) {
      !revoked && !IsExpired(now)
    }

    function Revoke(): (r: RefreshToken)
      ensures r.revoked
      ensures r.id == id && r.userId == userId && r.clientKey == clientKey
      ensures r.scopes == scopes && r.expiresAt == expiresAt
      ensures forall now :: !r.IsValid(now)
    {
      this.(revoked := true)
    }
  }

  /** A code is valid exactly when it is neither revoked nor past its expiry. */
  lemma CodeValidity(c: AuthorizationCode, now: Time)
    ensures c.IsValid(now) <==> !c.revoked && now <= c.expiresAt
  {
  }

  /** Once expired, a code stays expired. */
  lemma CodeExpiryMonotone(c: AuthorizationCode, t: Time, t': Time)
    requires c.IsExpired(t) && t <= t'
    ensures c.IsExpired(t') && !c.IsValid(t')
  {
  }

  /** Revoking twice is revoking once. */
  lemma CodeRevokeIdempotent(c: AuthorizationCode)
    ensures c.Revoke().Revoke() == c.Revoke()
  {
  }

  lemma TokenValidity(t: RefreshToken, now: Time)
    ensures t.IsValid(now) <==> !t.revoked && now <= t.expiresAt
  {
  }

  lemma TokenExpiryMonotone(tok: RefreshToken, t: Time, t': Time)
    requires tok.IsExpired(t) && t <= t'
    ensures tok.IsExpired(t') && !tok.IsValid(t')
  {
  }

  lemma TokenRevokeIdempotent(t: RefreshToken)
    ensures t.Revoke().Revoke() == t.Revoke()
  {
  }
}
