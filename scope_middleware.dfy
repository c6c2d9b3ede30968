/**
 * The `ValidateScopes` middleware: a route lists the scopes it accepts, and
 * a bearer token passes when it holds `*`, any one of those scopes, or the
 * namespace wildcard (`files:*`) of one of them.
 */
module ScopeMiddleware {
  import opened Common
  import PhpStrings

  /** The bearer token as the JWT parser sees it: unparseable, or its `scopes` claim (`[]` when absent). */
  datatype Token = Unparseable | Parsed(scopes: seq<string>)

  /** The request goes on, or a JSON error (with `required_scopes` on a 403 only). */
  datatype Outcome =
    | PassThrough
    | Denied(status: int, code: string, message: string, requiredScopes: Option<seq<string>>)

  const InvalidToken: string := "INVALID_TOKEN"
  const InvalidTokenMessage: string := "The access token is invalid."
  const InsufficientScope: string := "INSUFFICIENT_SCOPE"
  const InsufficientScopeMessage: string := "The access token does not have the required scopes."

  /** The part of `scope` before its first `:`, when it has one. */
  function Namespace(scope: string): (ns: Option<string>)
    ensures ns.None? <==> ':' !in scope
    ensures ns.Some? ==> ':' !in ns.value && |ns.value| < |scope| && scope[..|ns.value|] == ns.value
                         && scope[|ns.value|] == ':'
  {
    var parts := PhpStrings.Explode(':', scope);
    PhpStrings.ExplodeShape(':', scope);
    if |parts| > 1 then
      PhpStrings.ImplodeExplode(':', scope);
      assert scope == parts[0] + [':'] + PhpStrings.Implode(':', parts[1..]);
      Some(parts[0])
    else None
  }

  /** One required scope is granted by the token's scopes: strictly, or through `<namespace>:*`. */
  predicate Grants(tokenScopes: seq<string>, scope: string) {
    scope in tokenScopes
    || (Namespace(scope).Some? && Namespace(scope).value + ":*" in tokenScopes)
  }

  /** When the request may go on: no scopes required, or a readable token that holds `*` or grants one of them. */
  predicate Allows(required: seq<string>, token: Token) {
    required == []
    || (token.Parsed?
        && ("*" in token.scopes || exists i :: 0 <= i < |required| && Grants(token.scopes, required[i])))
  }

  /**
   * `handle`: the route's scopes are tried in order and the first one the
   * token grants lets the request through; a token that cannot be read is a
   * 401, one that grants none of them a 403 listing them.
   */
  method Handle(required: seq<string>, token: Token) returns (o: Outcome)
    ensures o == PassThrough <==> Allows(required, token)
    ensures !Allows(required, token) && token.Unparseable? ==>
              o == Denied(401, InvalidToken, InvalidTokenMessage, None)
    ensures !Allows(required, token) && token.Parsed? ==>
              o == Denied(403, InsufficientScope, InsufficientScopeMessage, Some(required))
  {
    if required == [] {
      return PassThrough;
    }
    if token.Unparseable? {
      return Denied(401, InvalidToken, InvalidTokenMessage, None);
    }
    var tokenScopes := token.scopes;
    if "*" in tokenScopes {
      return PassThrough;
    }
    var i := 0;
    while i < |required|
      invariant 0 <= i <= |required|
      invariant forall j :: 0 <= j < i ==> !Grants(tokenScopes, required[j])
    {
      var scope := required[i];
      if scope in tokenScopes {
        return PassThrough;
      }
      var scopeParts := PhpStrings.Explode(':', scope);
      if |scopeParts| > 1 {
        var wildcardScope := scopeParts[0] + ":*";
        if wildcardScope in tokenScopes {
          return PassThrough;
        }
      }
      i := i + 1;
    }
    return Denied(403, InsufficientScope, InsufficientScopeMessage, Some(required));
  }

  /** `files:*` grants every `files:<action>`, whatever the action (colons included). */
  lemma NamespaceWildcard(ns: string, action: string, tokenScopes: seq<string>)
    requires ':' !in ns && ns + ":*" in tokenScopes
    ensures Grants(tokenScopes, ns + ":" + action)
  {
    var rest := ":" + action;
    assert rest[1..] == action;
    assert PhpStrings.Explode(':', rest) == [""] + PhpStrings.Explode(':', action);
    PhpStrings.ExplodeFreePrefix(':', ns, rest);
    assert ns + "" == ns;
    assert ns + rest == ns + ":" + action;
  }

  /** A scope without a namespace is granted only by itself; `files:*` does not grant `files`. */
  lemma PlainScopeIsExact(tokenScopes: seq<string>, scope: string)
    requires ':' !in scope
    ensures Grants(tokenScopes, scope) <==> scope in tokenScopes
  {
  }

  /** A token holding more scopes is let through wherever the smaller one was. */
  lemma {:induction false} MoreScopesStillAllowed(required: seq<string>, small: seq<string>, large: seq<string>)
    requires forall s :: s in small ==> s in large
    requires Allows(required, Parsed(small))
    ensures Allows(required, Parsed(large))
  {
    if required != [] && "*" !in small {
      var i :| 0 <= i < |required| && Grants(small, required[i]);
      assert Grants(large, required[i]);
    }
  }

  /** Adding a required scope can only let more tokens through (any one of them is enough). */
  lemma {:induction false} MoreRequiredStillAllowed(required: seq<string>, extra: string, token: Token)
    requires required != [] && Allows(required, token)
    ensures Allows(required + [extra], token)
  {
    if token.Parsed? && "*" !in token.scopes {
      var i :| 0 <= i < |required| && Grants(token.scopes, required[i]);
      assert (required + [extra])[i] == required[i];
    }
  }
}
