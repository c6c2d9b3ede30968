/**
 * The three OAuth endpoints of `OAuthController`: `authorize` (section 4.1.1
 * of RFC 6749), `token` (sections 4.1.3 and 6) and `revoke` (RFC 7009), with
 * the controller's own `issueAuthorizationCode` and `redirectWithError`.
 */
module OAuthController {
  import opened Common
  import opened OAuthRecords
  import opened Users
  import opened OAuthRules
  import opened OAuthService
  import opened WebSession
  import PhpStrings

  /** The query of `GET /oauth/authorize` after request validation. */
  datatype AuthorizeRequest = AuthorizeRequest(
    clientId: string,
    redirectUri: string,
    state: Param,
    scope: Param,
    codeChallenge: Param,
    codeChallengeMethod: Param)

  const PkceRequiredDescription: string := "PKCE code_challenge is required for public clients."
  const SessionExpired: string := "OAuth session expired. Please try again."

  /** The public client sent no (truthy) `code_challenge`. */
  predicate MissingChallenge(req: AuthorizeRequest) {
    var c := Input(req.codeChallenge, None);
    !(c.Some? && PhpStrings.Truthy(c.value))
  }

  /** What `authorize` writes into the `oauth` slot once the client passed. */
  function PendingFor(req: AuthorizeRequest, client: Client, scopes: seq<string>): PendingRequest {
    PendingRequest(req.clientId, client, req.redirectUri, Input(req.state, None), scopes,
                   Input(req.codeChallenge, None), Input(req.codeChallengeMethod, Some("S256")))
  }

  /** `redirectWithError`: the error and its description (and `state`, when set) back to the client. */
  function RedirectWithError(redirectUri: string, error: string, description: string, state: Option<string>)
    : (resp: Response)
    ensures resp.RedirectTo? && resp.url.base == redirectUri && resp.url.separator == Separator(redirectUri)
    ensures |resp.url.query| >= 2 && resp.url.query[..2] == [("error", error), ("error_description", description)]
    ensures |resp.url.query| == 3 <==> state.Some? && PhpStrings.Truthy(state.value)
  {
    RedirectTo(ErrorRedirect(redirectUri, error, description, state))
  }

  /**
   * `authorize`.  An invalid client or unregistered redirect aborts with 400
   * and goes nowhere near the supplied URI; a public client without a
   * challenge is sent back with `invalid_request`; otherwise the request is
   * stored in the session and the user is sent to login, to consent, or, for
   * a signed-in user of a first-party client, straight back with a code.
   */
  method Authorize(server: Server, session: Session, req: AuthorizeRequest, codeId: string, now: Time)
    returns (resp: Response)
    requires server.Valid() && codeId !in server.codes
    modifies server, session
    ensures server.Valid()
    ensures var v := ValidateClient(server.env.clients, req.clientId, req.redirectUri);
            && (v.ClientInvalid? ==> resp == Abort(400, v.err.description) && Untouched(server, session))
            && (v.ClientValid? && v.client.isPublic && MissingChallenge(req) ==>
                  resp == RedirectWithError(req.redirectUri, "invalid_request", PkceRequiredDescription,
                                            Input(req.state, None))
                  && Untouched(server, session))
            && (v.ClientValid? && !(v.client.isPublic && MissingChallenge(req)) && req.scope.Null? ==>
                  resp == ServerError(500) && Untouched(server, session))
            && (v.ClientValid? && !(v.client.isPublic && MissingChallenge(req)) && !req.scope.Null? ==>
                  var p := PendingFor(req, v.client, ValidateScopes(Input(req.scope, Some("")).value, v.client.scopes));
                  && (old(session.user).None? ==>
                        resp == RedirectRoute(LoginRoute)
                        && session.oauth == Some(p) && session.user == old(session.user)
                        && server.codes == old(server.codes) && server.tokens == old(server.tokens))
                  && (old(session.user).Some? && !v.client.isFirstParty ==>
                        resp == RedirectRoute(ConsentRoute)
                        && session.oauth == Some(p) && session.user == old(session.user)
                        && server.codes == old(server.codes) && server.tokens == old(server.tokens))
                  && (old(session.user).Some? && v.client.isFirstParty ==>
                        CodeIssued(server, session, p, old(session.user).value, codeId, now, resp)))
  {
    var redirectUri := req.redirectUri;
    var state := Input(req.state, None);
    var codeChallenge := Input(req.codeChallenge, None);
    var validation := ValidateClient(server.env.clients, req.clientId, redirectUri);
    if validation.ClientInvalid? {
      return Abort(400, validation.err.description);
    }
    var client := validation.client;
    if client.isPublic && !(codeChallenge.Some? && PhpStrings.Truthy(codeChallenge.value)) {
      return RedirectWithError(redirectUri, "invalid_request", PkceRequiredDescription, state);
    }
    var scope := Input(req.scope, Some(""));
    if scope.None? {
      // a null `scope` reaches the string-typed parameter of `validateScopes`
      return ServerError(500);
    }
    var scopes := ValidateScopes(scope.value, client.scopes);
    session.oauth := Some(PendingFor(req, client, scopes));
    if session.user.Some? {
      if client.isFirstParty {
        resp := IssueAuthorizationCode(server, session, session.user.value, redirectUri, state, codeId, now);
        return;
      }
      return RedirectRoute(ConsentRoute);
    }
    return RedirectRoute(LoginRoute);
  }

  /**
   * `issueAuthorizationCode`: without a pending request, abort with 400 and
   * change nothing; otherwise create exactly one code from the pending
   * request, clear the slot and redirect with the code.
   */
  method IssueAuthorizationCode(server: Server, session: Session, user: User, redirectUri: string,
                                state: Option<string>, codeId: string, now: Time)
    returns (resp: Response)
    requires server.Valid() && codeId !in server.codes
    modifies server, session`oauth
    ensures server.Valid()
    ensures old(session.oauth).None? ==> resp == Abort(400, SessionExpired) && Untouched(server, session)
    ensures old(session.oauth).Some? ==>
              server.codes == old(server.codes)[codeId := CodeFor(old(session.oauth).value, user, codeId, now)]
              && server.tokens == old(server.tokens) && session.oauth.None?
              && resp == RedirectTo(CodeRedirect(redirectUri, codeId, state))
  {
    if session.oauth.None? {
      return Abort(400, SessionExpired);
    }
    var oauth := session.oauth.value;
    var authCode := server.CreateAuthorizationCode(user, oauth.client, oauth.scopes, oauth.redirectUri,
                                                   oauth.codeChallenge, oauth.codeChallengeMethod.GetOr("S256"),
                                                   codeId, now);
    session.oauth := None;
    resp := RedirectTo(CodeRedirect(redirectUri, authCode.id, state));
  }

  /** The body of `POST /oauth/token` after request validation; `client_secret` is read but never checked. */
  datatype TokenRequest = TokenRequest(
    grantType: string,
    clientId: string,
    clientSecret: Option<string>,
    code: string,
    codeVerifier: Param,
    redirectUri: string,
    refreshToken: string)

  /** Any answer carrying `error` is a 400, every other one a 200. */
  function TokenStatus(body: TokenResponse): (status: int)
    ensures status == 400 <==> body.Failed?
    ensures status == 200 <==> body.Issued?
  {
    if body.Failed? then 400 else 200
  }

  /**
   * `token`: `authorization_code` goes to the exchange, every other grant to
   * the refresh.  The verifier is read with `""` as its default; a present
   * but null `code_verifier` reaches the string-typed parameter of
   * `exchangeCodeForTokens`, which fails with a 500 (no body) before
   * anything is read or written.
   */
  method Token(server: Server, req: TokenRequest, now: Time, ttlMinutes: int, freshId: string)
    returns (status: int, body: Option<TokenResponse>)
    requires server.Valid() && freshId !in server.tokens
    modifies server
    ensures server.Valid()
    ensures req.grantType == "authorization_code" && req.codeVerifier.Null? ==>
              status == 500 && body.None? && server.codes == old(server.codes) && server.tokens == old(server.tokens)
    ensures !(req.grantType == "authorization_code" && req.codeVerifier.Null?) ==>
              body.Some? && status == TokenStatus(body.value)
    ensures req.grantType == "authorization_code" && !req.codeVerifier.Null? ==>
              Step(server.State(), body.value)
              == Exchange(server.env, old(server.State()), req.code, Input(req.codeVerifier, Some("")).value,
                          req.clientId, req.redirectUri, now, ttlMinutes, freshId)
    ensures req.grantType != "authorization_code" ==>
              Step(server.State(), body.value)
              == Refresh(server.env, old(server.State()), req.refreshToken, req.clientId, now, ttlMinutes, freshId)
  {
    var answer: TokenResponse;
    if req.grantType == "authorization_code" {
      var verifier := Input(req.codeVerifier, Some(""));
      if verifier.None? {
        return 500, None;
      }
      answer := server.ExchangeCodeForTokens(req.code, verifier.value, req.clientId, req.redirectUri,
                                             now, ttlMinutes, freshId);
    } else {
      answer := server.RefreshTokens(req.refreshToken, req.clientId, now, ttlMinutes, freshId);
    }
    status, body := TokenStatus(answer), Some(answer);
  }

  /**
   * `revoke`: the refresh token is revoked only when the hint is
   * `refresh_token` (its default); the answer is `{revoked: true}` whatever
   * happened, as section 2.2 of RFC 7009 asks.
   */
  method Revoke(server: Server, token: string, tokenTypeHint: Param) returns (revoked: bool)
    requires server.Valid()
    modifies server
    ensures server.Valid() && revoked
    ensures server.codes == old(server.codes)
    ensures Input(tokenTypeHint, Some("refresh_token")) == Some("refresh_token") ==>
              server.tokens == RevokeToken(old(server.tokens), token)
    ensures Input(tokenTypeHint, Some("refresh_token")) != Some("refresh_token") ==>
              server.tokens == old(server.tokens)
  {
    if Input(tokenTypeHint, Some("refresh_token")) == Some("refresh_token") {
      var _ := server.RevokeRefreshToken(token);
    }
    revoked := true;
  }
}
