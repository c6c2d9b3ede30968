/**
 * What the two authorization controllers share: the pending request kept in
 * the session's `oauth` slot, the session itself (that slot and the signed-in
 * user), the responses they give, and the redirect back to the client
 * (sections 4.1.2 and 4.1.2.1 of RFC 6749).
 */
module WebSession {
  import opened Common
  import opened OAuthRecords
  import opened Users
  import opened OAuthRules
  import opened OAuthService
  import PhpStrings

  /** The array stored under `session('oauth')` by `authorize`. */
  datatype PendingRequest = PendingRequest(
    clientId: string,
    client: Client,
    redirectUri: string,
    state: Option<string>,
    scopes: seq<string>,
    codeChallenge: Option<string>,
    codeChallengeMethod: Option<string>)

  /**
   * A request parameter as `$request->input($key, $default)` sees it: absent
   * (the default applies), present but null, or a string.
   */
  datatype Param = Absent | Null | Given(value: string)

  function Input(p: Param, default: Option<string>): (v: Option<string>)
    ensures p.Absent? ==> v == default
    ensures p.Null? ==> v.None?
    ensures p.Given? ==> v == Some(p.value)
  {
    match p
    case Absent => default
    case Null => None
    case Given(s) => Some(s)
  }

  /**
   * The code both `issueAuthorizationCode`s create from the pending request,
   * with `code_challenge_method ?? 'S256'`.
   */
  function CodeFor(p: PendingRequest, user: User, codeId: string, now: Time): AuthorizationCode {
    NewCode(codeId, user, p.client, p.scopes, p.redirectUri, p.codeChallenge,
            p.codeChallengeMethod.GetOr("S256"), now)
  }

  /** The parts of the Laravel session the flow uses. */
  class Session {
    /** The `oauth` slot. */
    var oauth: Option<PendingRequest>
    /** `Auth::user()`: the signed-in user, if any. */
    var user: Option<User>

    constructor (oauth: Option<PendingRequest>, user: Option<User>)
      ensures this.oauth == oauth && this.user == user
    {
      this.oauth := oauth;
      this.user := user;
    }
  }

  /**
   * A redirect back to the client: the client's URI, the separator, and the
   * query parameters in order.  `http_build_query` itself is not modelled;
   * `Render` takes it as a parameter.
   */
  datatype Url = Url(base: string, separator: char, query: seq<(string, string)>)

  /** Named routes and paths the controllers redirect to. */
  datatype Route = LoginRoute | ConsentRoute | HomePath | IntendedOrHome

  datatype Response =
    | Abort(status: int, message: string)
    | RedirectTo(url: Url)
    | RedirectRoute(route: Route)
    | LoginView(pending: Option<PendingRequest>, clientName: Option<string>)
    | ConsentView(client: Client, scopes: seq<string>)
    | LoginRejected(message: string)
    | ServerError(status: int)

  /** Nothing the flow can write has changed. */
  twostate predicate Untouched(server: Server, session: Session)
    reads server, session
  {
    server.codes == old(server.codes) && server.tokens == old(server.tokens)
    && session.oauth == old(session.oauth) && session.user == old(session.user)
  }

  /**
   * A code was issued for the pending request `p`: exactly one new row, the
   * `oauth` slot cleared, and a redirect to the request's URI with the code
   * (and `state`, when set).
   */
  twostate predicate CodeIssued(server: Server, session: Session, p: PendingRequest, user: User,
                                codeId: string, now: Time, resp: Response)
    reads server, session
  {
    server.codes == old(server.codes)[codeId := CodeFor(p, user, codeId, now)]
    && server.tokens == old(server.tokens)
    && session.oauth.None? && session.user == old(session.user)
    && resp == RedirectTo(CodeRedirect(p.redirectUri, codeId, p.state))
  }

  /** `str_contains($uri, '?') ? '&' : '?'`. */
  function Separator(uri: string): (c: char)
    ensures c == '&' <==> '?' in uri
    ensures c == '?' <==> '?' !in uri
  {
    if '?' in uri then '&' else '?'
  }

  /** `if ($state) { $params['state'] = $state; }`. */
  function WithState(params: seq<(string, string)>, state: Option<string>): (ps: seq<(string, string)>)
    ensures |params| <= |ps| && ps[..|params|] == params
    ensures state.Some? && PhpStrings.Truthy(state.value) ==> ps == params + [("state", state.value)]
    ensures !(state.Some? && PhpStrings.Truthy(state.value)) ==> ps == params
  {
    if state.Some? && PhpStrings.Truthy(state.value) then params + [("state", state.value)] else params
  }

  /** The redirect carrying `params` (and `state`, when set) back to `uri`. */
  function ClientRedirect(uri: string, params: seq<(string, string)>, state: Option<string>): (u: Url)
    ensures u.base == uri && u.separator == Separator(uri)
    ensures u.query == WithState(params, state)
  {
    Url(uri, Separator(uri), WithState(params, state))
  }

  /** The success redirect of both `issueAuthorizationCode`s. */
  function CodeRedirect(uri: string, code: string, state: Option<string>): Url {
    ClientRedirect(uri, [("code", code)], state)
  }

  /** The error redirect of `redirectWithError` and of a denied consent. */
  function ErrorRedirect(uri: string, error: string, description: string, state: Option<string>): Url {
    ClientRedirect(uri, [("error", error), ("error_description", description)], state)
  }

  /** `$uri.$separator.http_build_query($params)`. */
  function Render(u: Url, encode: seq<(string, string)> -> string): string {
    u.base + [u.separator] + encode(u.query)
  }

  /** The parameter names of a query, in order. */
  function Keys(q: seq<(string, string)>): (ks: seq<string>)
    ensures |ks| == |q|
    ensures forall i :: 0 <= i < |q| ==> ks[i] == q[i].0
  {
    if q == [] then [] else [q[0].0] + Keys(q[1..])
  }

  /**
   * The redirect goes to the client's URI and nowhere else; `state` is among
   * the parameters exactly when it is set and truthy, and then carries its
   * value unchanged.
   */
  lemma ClientRedirectShape(uri: string, params: seq<(string, string)>, state: Option<string>,
                            encode: seq<(string, string)> -> string)
    requires "state" !in Keys(params)
    ensures var u := ClientRedirect(uri, params, state);
            && PhpStrings.StartsWith(Render(u, encode), uri)
            && Render(u, encode)[|uri|] == Separator(uri)
            && ("state" in Keys(u.query) <==> state.Some? && PhpStrings.Truthy(state.value))
            && (state.Some? && PhpStrings.Truthy(state.value) ==> u.query[|u.query| - 1] == ("state", state.value))
  {
    var u := ClientRedirect(uri, params, state);
    assert (uri + [u.separator] + encode(u.query))[..|uri|] == uri;
    if state.Some? && PhpStrings.Truthy(state.value) {
      assert Keys(u.query)[|params|] == "state";
    }
  }

  /**
   * When the client's URI has no `?` and the encoder escapes `?`, the
   * rendered URL has exactly one `?`: the query is appended, not nested.
   */
  lemma {:induction false} RenderSingleQuery(u: Url, encode: seq<(string, string)> -> string)
    requires u.separator == Separator(u.base) && '?' !in u.base && '?' !in encode(u.query)
    ensures PhpStrings.Occurrences('?', Render(u, encode)) == 1
  {
    PhpStrings.OccurrencesAppend('?', u.base + [u.separator], encode(u.query));
    PhpStrings.OccurrencesAppend('?', u.base, [u.separator]);
  }
}
