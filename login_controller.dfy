/**
 * The session-based half of the authorization flow in `LoginController`:
 * the login form and its submission, continuing a pending request after
 * login, and the consent screen and its decision.
 */
module LoginController {
  import opened Common
  import opened OAuthRecords
  import opened Users
  import opened OAuthRules
  import opened OAuthService
  import opened WebSession

  const BadCredentials: string := "These credentials do not match our records."
  const AccountDeactivated: string := "Your account has been deactivated."
  const AccessDenied: string := "access_denied"
  const DeniedDescription: string := "The user denied the request."

  /**
   * `handleAuthenticatedOAuthFlow`: a first-party client gets its code at
   * once; any other client is sent to consent with the session untouched.
   */
  method HandleAuthenticatedOAuthFlow(server: Server, session: Session, codeId: string, now: Time)
    returns (resp: Response)
    requires server.Valid() && codeId !in server.codes
    requires session.oauth.Some? && session.user.Some?
    modifies server, session`oauth
    ensures server.Valid()
    ensures old(session.oauth.value.client.isFirstParty) ==>
              CodeIssued(server, session, old(session.oauth.value), old(session.user.value), codeId, now, resp)
    ensures !old(session.oauth.value.client.isFirstParty) ==>
              resp == RedirectRoute(ConsentRoute) && Untouched(server, session)
  {
    var oauth := session.oauth.value;
    if oauth.client.isFirstParty {
      resp := IssueAuthorizationCode(server, session, session.user.value, oauth, codeId, now);
      return;
    }
    return RedirectRoute(ConsentRoute);
  }

  /**
   * `showLoginForm`: a signed-in user continues the pending request, or goes
   * home when there is none; anyone else gets the form, with the pending
   * request's client name when there is one.
   */
  method ShowLoginForm(server: Server, session: Session, codeId: string, now: Time) returns (resp: Response)
    requires server.Valid() && codeId !in server.codes
    modifies server, session`oauth
    ensures server.Valid()
    ensures old(session.user).Some? && old(session.oauth).None? ==>
              resp == RedirectRoute(HomePath) && Untouched(server, session)
    ensures old(session.user).Some? && old(session.oauth).Some? && old(session.oauth.value.client.isFirstParty) ==>
              CodeIssued(server, session, old(session.oauth.value), old(session.user.value), codeId, now, resp)
    ensures old(session.user).Some? && old(session.oauth).Some? && !old(session.oauth.value.client.isFirstParty) ==>
              resp == RedirectRoute(ConsentRoute) && Untouched(server, session)
    ensures old(session.user).None? ==>
              Untouched(server, session)
              && resp == LoginView(session.oauth,
                                   if session.oauth.Some? then Some(session.oauth.value.client.name) else None)
  {
    if session.user.Some? {
      if session.oauth.Some? {
        resp := HandleAuthenticatedOAuthFlow(server, session, codeId, now);
        return;
      }
      return RedirectRoute(HomePath);
    }
    var oauth := session.oauth;
    return LoginView(oauth, if oauth.Some? then Some(oauth.value.client.name) else None);
  }

  /**
   * `login`, after the rate limiter: `attempt` is the user the credentials
   * belong to, if any.  Wrong credentials change nothing; an inactive user
   * is signed out again and rejected; an active one stays signed in and
   * continues the pending request, if there is one.
   */
  method Login(server: Server, session: Session, attempt: Option<User>, codeId: string, now: Time)
    returns (resp: Response)
    requires server.Valid() && codeId !in server.codes
    modifies server, session
    ensures server.Valid()
    ensures attempt.None? ==> resp == LoginRejected(BadCredentials) && Untouched(server, session)
    ensures attempt.Some? && !attempt.value.isActive ==>
              resp == LoginRejected(AccountDeactivated) && session.user.None?
              && session.oauth == old(session.oauth)
              && server.codes == old(server.codes) && server.tokens == old(server.tokens)
    ensures attempt.Some? && attempt.value.isActive ==> session.user == attempt
    ensures attempt.Some? && attempt.value.isActive && old(session.oauth).None? ==>
              resp == RedirectRoute(IntendedOrHome) && session.oauth.None?
              && server.codes == old(server.codes) && server.tokens == old(server.tokens)
    ensures attempt.Some? && attempt.value.isActive && old(session.oauth).Some? ==>
              if old(session.oauth.value.client.isFirstParty)
              then server.codes == old(server.codes)[codeId := CodeFor(old(session.oauth.value), attempt.value, codeId, now)]
                   && server.tokens == old(server.tokens) && session.oauth.None?
                   && resp == RedirectTo(CodeRedirect(old(session.oauth.value.redirectUri), codeId, old(session.oauth.value.state)))
              else resp == RedirectRoute(ConsentRoute) && session.oauth == old(session.oauth)
                   && server.codes == old(server.codes) && server.tokens == old(server.tokens)
  {
    if attempt.None? {
      return LoginRejected(BadCredentials);
    }
    session.user := attempt;
    if !attempt.value.isActive {
      session.user := None;
      return LoginRejected(AccountDeactivated);
    }
    if session.oauth.Some? {
      resp := HandleAuthenticatedOAuthFlow(server, session, codeId, now);
      return;
    }
    return RedirectRoute(IntendedOrHome);
  }

  /**
   * `showConsent`: to login when signed out, home without a pending request;
   * a first-party client skips the screen and gets its code.
   */
  method ShowConsent(server: Server, session: Session, codeId: string, now: Time) returns (resp: Response)
    requires server.Valid() && codeId !in server.codes
    modifies server, session`oauth
    ensures server.Valid()
    ensures old(session.user).None? ==> resp == RedirectRoute(LoginRoute) && Untouched(server, session)
    ensures old(session.user).Some? && old(session.oauth).None? ==>
              resp == RedirectRoute(HomePath) && Untouched(server, session)
    ensures old(session.user).Some? && old(session.oauth).Some? ==>
              var p := old(session.oauth.value);
              if p.client.isFirstParty
              then CodeIssued(server, session, p, old(session.user.value), codeId, now, resp)
              else resp == ConsentView(p.client, p.scopes) && Untouched(server, session)
  {
    if session.user.None? {
      return RedirectRoute(LoginRoute);
    }
    if session.oauth.None? {
      return RedirectRoute(HomePath);
    }
    var oauth := session.oauth.value;
    if oauth.client.isFirstParty {
      resp := IssueAuthorizationCode(server, session, session.user.value, oauth, codeId, now);
      return;
    }
    return ConsentView(oauth.client, oauth.scopes);
  }

  /**
   * `handleConsent`: exactly the decision `deny` sends the user back with
   * `access_denied`, clears the pending request and creates no code; any
   * other decision, a missing one included, is approval.
   */
  method HandleConsent(server: Server, session: Session, decision: Option<string>, codeId: string, now: Time)
    returns (resp: Response)
    requires server.Valid() && codeId !in server.codes
    modifies server, session`oauth
    ensures server.Valid()
    ensures old(session.user).None? ==> resp == RedirectRoute(LoginRoute) && Untouched(server, session)
    ensures old(session.user).Some? && old(session.oauth).None? ==>
              resp == RedirectRoute(HomePath) && Untouched(server, session)
    ensures old(session.user).Some? && old(session.oauth).Some? ==>
              var p := old(session.oauth.value);
              if decision == Some("deny")
              then resp == RedirectTo(ErrorRedirect(p.redirectUri, AccessDenied, DeniedDescription, p.state))
                   && session.oauth.None? && server.codes == old(server.codes) && server.tokens == old(server.tokens)
              else CodeIssued(server, session, p, old(session.user.value), codeId, now, resp)
  {
    if session.user.None? {
      return RedirectRoute(LoginRoute);
    }
    if session.oauth.None? {
      return RedirectRoute(HomePath);
    }
    var oauth := session.oauth.value;
    if decision == Some("deny") {
      session.oauth := None;
      return RedirectTo(ErrorRedirect(oauth.redirectUri, AccessDenied, DeniedDescription, oauth.state));
    }
    resp := IssueAuthorizationCode(server, session, session.user.value, oauth, codeId, now);
  }

  /**
   * `issueAuthorizationCode`: exactly one code from the pending request, the
   * slot cleared, and a redirect with the code (and `state`, when set).
   */
  method IssueAuthorizationCode(server: Server, session: Session, user: User, oauth: PendingRequest,
                                codeId: string, now: Time)
    returns (resp: Response)
    requires server.Valid() && codeId !in server.codes
    modifies server, session`oauth
    ensures server.Valid()
    ensures server.codes == old(server.codes)[codeId := CodeFor(oauth, user, codeId, now)]
    ensures server.tokens == old(server.tokens) && session.oauth.None?
    ensures resp == RedirectTo(CodeRedirect(oauth.redirectUri, codeId, oauth.state))
  {
    var authCode := server.CreateAuthorizationCode(user, oauth.client, oauth.scopes, oauth.redirectUri,
                                                   oauth.codeChallenge, oauth.codeChallengeMethod.GetOr("S256"),
                                                   codeId, now);
    session.oauth := None;
    resp := RedirectTo(CodeRedirect(oauth.redirectUri, authCode.id, oauth.state));
  }
}
