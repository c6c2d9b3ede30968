/**
 * `OAuthService` as an object over the two credential tables.  Every method
 * performs the source's steps in the source's order, updating the tables in
 * place, and is proved to end in exactly the store (and answer) that the
 * functions of `OAuthRules` describe; the properties of the grant are proved
 * there, once, about those functions.
 */
module OAuthService {
  import opened Common
  import opened OAuthRecords
  import opened Users
  import opened OAuthRules
  import PhpStrings

  class Server {
    /** Registered clients, users, SHA-256 and the JWT signer; read only. */
    const env: Env
    /** `oauth_authorization_codes`, by code. */
    var codes: map<string, AuthorizationCode>
    /** `oauth_refresh_tokens`, by token id. */
    var tokens: map<string, RefreshToken>

    function State(): Store
      reads this
    {
      Store(codes, tokens)
    }

    ghost predicate Valid()
      reads this
    {
      WellKeyed(State()) && UsersById(env.users)
    }

    constructor (env: Env, codes: map<string, AuthorizationCode>, tokens: map<string, RefreshToken>)
      requires WellKeyed(Store(codes, tokens)) && UsersById(env.users)
      ensures Valid()
      ensures this.env == env && this.codes == codes && this.tokens == tokens
    {
      this.env := env;
      this.codes := codes;
      this.tokens := tokens;
    }

    /**
     * `createAuthorizationCode`: one new, unrevoked row under the fresh id,
     * expiring a minute from `now`, carrying exactly the given user, client,
     * scopes, redirect URI, challenge and method.
     */
    method CreateAuthorizationCode(user: User, client: Client, scopes: seq<string>, redirectUri: string,
                                   challenge: Option<string>, challengeMethod: string, id: string, now: Time)
      returns (code: AuthorizationCode)
      requires Valid() && id !in codes
      modifies this
      ensures Valid()
      ensures code == NewCode(id, user, client, scopes, redirectUri, challenge, challengeMethod, now)
      ensures code.IsValid(now) && code.expiresAt == now + AuthCodeTtl
      ensures codes == old(codes)[id := code] && tokens == old(tokens)
    {
      code := AuthorizationCode(id, user.id, client.id, scopes, redirectUri, challenge, Some(challengeMethod),
                                false, now + AuthCodeTtl);
      codes := codes[id := code];
    }

    /** `generateTokens`: mint the access token, store a new refresh token, answer. */
    method GenerateTokens(user: User, client: Client, scopes: seq<string>, now: Time, ttlMinutes: int,
                          freshId: string)
      returns (r: TokenResponse)
      requires Valid() && freshId !in tokens
      modifies this
      ensures Valid()
      ensures Step(State(), r) == IssueTokens(env, old(State()), user, client, scopes, now, ttlMinutes, freshId)
    {
      var accessToken := env.sign(user, scopes, client.clientId);
      tokens := tokens[freshId := RefreshToken(freshId, user.id, client.id, scopes, false,
                                               now + RefreshTokenTtlDays * SecondsPerDay)];
      r := Issued(accessToken, freshId, "Bearer", ttlMinutes * 60, PhpStrings.Implode(' ', scopes));
    }

    /** `exchangeCodeForTokens`: the early-return checks, revoke, the user check, issue. */
    method ExchangeCodeForTokens(code: string, verifier: string, clientId: string, redirectUri: string,
                                 now: Time, ttlMinutes: int, freshId: string)
      returns (r: TokenResponse)
      requires Valid() && freshId !in tokens
      modifies this
      ensures Valid()
      ensures Step(State(), r)
           == Exchange(env, old(State()), code, verifier, clientId, redirectUri, now, ttlMinutes, freshId)
    {
      if code !in codes {
        return Failed(CodeUnknown);
      }
      var authCode := codes[code];
      if authCode.revoked {
        return Failed(CodeRevoked);
      }
      if authCode.IsExpired(now) {
        return Failed(CodeExpired);
      }
      var client := FindClient(env.clients, PrimaryKey, authCode.clientKey);
      if client.None? || client.value.clientId != clientId {
        return Failed(ClientMismatch);
      }
      if authCode.redirectUri != redirectUri {
        return Failed(RedirectMismatch);
      }
      if PkceRequired(authCode) {
        if !PhpStrings.Truthy(verifier) {
          return Failed(VerifierMissing);
        }
        var challengeMethod := authCode.codeChallengeMethod.GetOr("S256");
        if !ValidatePkce(verifier, authCode.codeChallenge.value, challengeMethod, env.sha256) {
          return Failed(VerifierInvalid);
        }
      }
      codes := codes[code := authCode.Revoke()];
      if authCode.userId !in env.users || !env.users[authCode.userId].isActive {
        return Failed(UserInactive);
      }
      r := GenerateTokens(env.users[authCode.userId], client.value, authCode.scopes, now, ttlMinutes, freshId);
    }

    /** `refreshTokens`: the checks, then rotation. */
    method RefreshTokens(tokenId: string, clientId: string, now: Time, ttlMinutes: int, freshId: string)
      returns (r: TokenResponse)
      requires Valid() && freshId !in tokens
      modifies this
      ensures Valid()
      ensures Step(State(), r) == Refresh(env, old(State()), tokenId, clientId, now, ttlMinutes, freshId)
    {
      if tokenId !in tokens {
        return Failed(TokenUnknown);
      }
      var token := tokens[tokenId];
      if token.revoked {
        return Failed(TokenRevoked);
      }
      if token.IsExpired(now) {
        return Failed(TokenExpired);
      }
      var client := FindClient(env.clients, PrimaryKey, token.clientKey);
      if client.None? || client.value.clientId != clientId {
        return Failed(ClientMismatch);
      }
      if token.userId !in env.users || !env.users[token.userId].isActive {
        return Failed(UserInactive);
      }
      tokens := tokens[tokenId := token.Revoke()];
      r := GenerateTokens(env.users[token.userId], client.value, token.scopes, now, ttlMinutes, freshId);
    }

    /** `revokeRefreshToken`: false and no change for an unknown id, otherwise the row revoked. */
    method RevokeRefreshToken(tokenId: string) returns (found: bool)
      requires Valid()
      modifies this
      ensures Valid()
      ensures found <==> tokenId in old(tokens)
      ensures tokens == RevokeToken(old(tokens), tokenId) && codes == old(codes)
    {
      if tokenId !in tokens {
        return false;
      }
      tokens := tokens[tokenId := tokens[tokenId].Revoke()];
      found := true;
    }

    /** `revokeAllUserTokens`: the bulk update, answering the number of rows it changed. */
    method RevokeAllUserTokens(user: User) returns (count: nat)
      requires Valid()
      modifies this
      ensures Valid()
      ensures count == |UnrevokedOf(old(tokens), user.id)|
      ensures tokens == RevokeAllFor(old(tokens), user.id) && codes == old(codes)
    {
      count := |UnrevokedOf(tokens, user.id)|;
      tokens := RevokeAllFor(tokens, user.id);
    }
  }
}
