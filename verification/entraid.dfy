/**
 * The Entra ID login and callback handlers. `login` stores the post-login
 * destination and a fresh anti-CSRF state in the browser's session and sends
 * the browser to the provider. `callback` runs a fixed chain of guards
 * (provider error, code, state, code exchange, id token, signing key, token
 * verification, tenant), mints the gate's own one-hour HS256 cookie, and
 * removes the one-time values from the session. The provider's endpoints,
 * the JWT library and the clock are parameters.
 */
module EntraId {
  import opened Wrappers
  import opened Jwt
  import Base64Url

  const DefaultNext := "/chat"
  const AuthCookieName := "cl_auth"
  /** The lifetime of the gate cookie: one hour. */
  const TokenLifetime := 60 * 60

  /** The application's Entra ID registration and its session signing secret. */
  datatype Config = Config(tenantId: string, clientId: string, redirectUri: string, clientSecret: string,
                           sessionSecret: string)

  /** The tenant-scoped issuer an id token must name. */
  function Issuer(cfg: Config): string {
    "https://login.microsoftonline.com/" + cfg.tenantId + "/v2.0"
  }

  /** The query parameters of the authorize redirect. */
  function AuthorizeParams(cfg: Config, state: string): (params: map<string, string>)
    ensures params.Keys == {"client_id", "response_type", "redirect_uri", "response_mode", "scope", "state", "prompt"}
    ensures params["state"] == state
    ensures params["client_id"] == cfg.clientId && params["redirect_uri"] == cfg.redirectUri
    ensures params["response_type"] == "code" && params["response_mode"] == "query"
    ensures params["scope"] == "openid profile email" && params["prompt"] == "select_account"
  {
    map["client_id" := cfg.clientId, "response_type" := "code", "redirect_uri" := cfg.redirectUri,
        "response_mode" := "query", "scope" := "openid profile email", "state" := state,
        "prompt" := "select_account"]
  }

  /** The form posted to the token endpoint to redeem `code`. */
  function TokenForm(cfg: Config, code: string): (form: map<string, string>)
    ensures form.Keys == {"client_id", "grant_type", "code", "client_secret", "redirect_uri"}
    ensures form["grant_type"] == "authorization_code" && form["code"] == code
    ensures form["client_id"] == cfg.clientId && form["client_secret"] == cfg.clientSecret
    ensures form["redirect_uri"] == cfg.redirectUri
  {
    map["client_id" := cfg.clientId, "grant_type" := "authorization_code", "code" := code,
        "client_secret" := cfg.clientSecret, "redirect_uri" := cfg.redirectUri]
  }

  /** The token endpoint's answer: status, body text and the `id_token` member of its JSON body. */
  datatype TokenResponse = TokenResponse(status: int, text: string, idToken: Option<string>)

  /** One entry of the provider's published key set; `material` stands for the RSA public key. */
  datatype Jwk = Jwk(kid: Option<string>, material: string)

  /**
   * The identity provider and the RS256 side of the JWT library:
   * `exchange` answers the token-endpoint POST, `keys` is the `keys` list of
   * the JWKS document (empty when absent), `headerKid` reads the `kid` of a
   * token's unverified header, and `verify` checks signature, audience,
   * issuer and times at `now`, giving the claims or the error text.
   */
  datatype Idp = Idp(
    exchange: map<string, string> -> TokenResponse,
    keys: seq<Jwk>,
    headerKid: string -> Option<string>,
    verify: (string, Jwk, string, string, int) -> Result<Claims, string>)

  /** The attributes `set_cookie` gives the gate cookie. */
  datatype SetCookie = SetCookie(name: string, value: string, httpOnly: bool, sameSite: string, secure: bool,
                                 path: string)

  /** What a handler answers: a plain-text error or a redirect, the latter possibly setting a cookie. */
  datatype Reply = PlainText(status: int, body: string) | Redirect(url: string, status: int, cookie: Option<SetCookie>)

  /** Python truthiness of an optional string: present and non-empty. */
  predicate Truthy(o: Option<string>) {
    o.Some? && o.value != ""
  }

  // ---------------------------------------------------------------------------
  // Signing key lookup

  /** The first published key whose `kid` equals the header's (`None == None` counts as equal). */
  function FirstKey(keys: seq<Jwk>, kid: Option<string>): Option<Jwk> {
    if keys == [] then None
    else if keys[0].kid == kid then Some(keys[0])
    else FirstKey(keys[1..], kid)
  }

  /** `FirstKey` in terms of positions: `None` exactly when no key matches, otherwise the first that does. */
  lemma {:induction false} FirstKeyAt(keys: seq<Jwk>, kid: Option<string>)
    ensures FirstKey(keys, kid).None? <==> forall i :: 0 <= i < |keys| ==> keys[i].kid != kid
    ensures FirstKey(keys, kid).Some? ==>
      exists i :: 0 <= i < |keys| && keys[i] == FirstKey(keys, kid).value
               && keys[i].kid == kid && forall j :: 0 <= j < i ==> keys[j].kid != kid
  {
    if keys != [] && keys[0].kid != kid {
      var rest := keys[1..];
      FirstKeyAt(rest, kid);
      if FirstKey(rest, kid).Some? {
        var i :| 0 <= i < |rest| && rest[i] == FirstKey(rest, kid).value
                 && rest[i].kid == kid && forall j :: 0 <= j < i ==> rest[j].kid != kid;
        assert keys[i + 1] == rest[i];
        assert forall j :: 0 <= j < i + 1 ==> keys[j].kid != kid by {
          forall j | 0 <= j < i + 1 ensures keys[j].kid != kid {
            if j > 0 { assert keys[j] == rest[j - 1]; }
          }
        }
      } else {
        forall i | 0 <= i < |keys| ensures keys[i].kid != kid {
          if i > 0 { assert keys[i] == rest[i - 1]; }
        }
      }
    }
  }

  /** The JWKS loop: walks the keys in order and stops at the first whose `kid` matches. */
  method FindSigningKey(keys: seq<Jwk>, kid: Option<string>) returns (key: Option<Jwk>)
    ensures key == FirstKey(keys, kid)
    ensures key.None? <==> forall i :: 0 <= i < |keys| ==> keys[i].kid != kid
    ensures key.Some? ==> key.value.kid == kid && key.value in keys
  {
    key := None;
    var i := 0;
    while i < |keys|
      invariant 0 <= i <= |keys|
      invariant FirstKey(keys, kid) == FirstKey(keys[i..], kid)
      invariant forall j :: 0 <= j < i ==> keys[j].kid != kid
    {
      if keys[i].kid == kid {
        key := Some(keys[i]);
        break;
      }
      assert keys[i..][1..] == keys[i + 1..];
      i := i + 1;
    }
  }

  // ---------------------------------------------------------------------------
  // Id token verification and the minted claims

  /** The claims `jwt.decode` is told to require of the id token. */
  const RequiredClaims: seq<string> := ["exp", "iat", "iss", "aud"]

  /** The first of `required` that `c` lacks. */
  function MissingClaim(c: Claims, required: seq<string>): (m: Option<string>)
    ensures m.None? <==> forall k :: 0 <= k < |required| ==> required[k] in c
    ensures m.Some? ==> m.value in required && m.value !in c
  {
    if required == [] then None
    else if required[0] !in c then Some(required[0])
    else MissingClaim(c, required[1..])
  }

  /** `jwt.decode(id_token, key, RS256, audience=client id, issuer=tenant issuer, require=[exp, iat, iss, aud])`. */
  function VerifyIdToken(cfg: Config, idp: Idp, idToken: string, key: Jwk, now: int): (r: Result<Claims, string>)
    ensures r.Success? ==> forall k :: 0 <= k < |RequiredClaims| ==> RequiredClaims[k] in r.value
    ensures r.Success? <==> idp.verify(idToken, key, cfg.clientId, Issuer(cfg), now).Success?
                            && forall k :: 0 <= k < |RequiredClaims| ==>
                                 RequiredClaims[k] in idp.verify(idToken, key, cfg.clientId, Issuer(cfg), now).value
    ensures r.Success? ==> idp.verify(idToken, key, cfg.clientId, Issuer(cfg), now) == r
    ensures idp.verify(idToken, key, cfg.clientId, Issuer(cfg), now).Failure? ==>
              r == idp.verify(idToken, key, cfg.clientId, Issuer(cfg), now)
    ensures idp.verify(idToken, key, cfg.clientId, Issuer(cfg), now).Success? && r.Failure? ==>
              exists k :: k in RequiredClaims && k !in idp.verify(idToken, key, cfg.clientId, Issuer(cfg), now).value
                          && r.error == "Token is missing the \"" + k + "\" claim"
  {
    match idp.verify(idToken, key, cfg.clientId, Issuer(cfg), now)
    case Failure(e) => Failure(e)
    case Success(c) =>
      match MissingClaim(c, RequiredClaims)
      case Some(k) => Failure("Token is missing the \"" + k + "\" claim")
      case None => Success(c)
  }

  /** `app_claims`: identity copied from the verified token, issued now, expiring in one hour. */
  function AppClaims(c: Claims, now: int): (r: Claims)
    ensures r.Keys == {"tid", "oid", "name", "preferred_username", "iat", "exp"}
    ensures r["tid"] == GetOrNull(c, "tid") && r["oid"] == GetOrNull(c, "oid")
    ensures r["name"] == GetOrNull(c, "name") && r["preferred_username"] == GetOrNull(c, "preferred_username")
    ensures r["iat"] == JInt(now) && r["exp"] == JInt(now + TokenLifetime)
  {
    map["tid" := GetOrNull(c, "tid"), "oid" := GetOrNull(c, "oid"), "name" := GetOrNull(c, "name"),
        "preferred_username" := GetOrNull(c, "preferred_username"), "iat" := JInt(now),
        "exp" := JInt(now + 60 * 60)]
  }

  // ---------------------------------------------------------------------------
  // The callback's guard chain

  /** The state check of the callback, exactly as the source writes it: true when the state is refused. */
  predicate StateRefused(expected: Option<string>, state: Option<string>) {
    (Truthy(expected) && state != expected) || !Truthy(expected) || !Truthy(state)
  }

  /** The state is accepted exactly when both values are present, non-empty and equal. */
  lemma StateAcceptedIff(expected: Option<string>, state: Option<string>)
    ensures !StateRefused(expected, state) <==>
            (expected.Some? && state.Some? && expected.value != "" && state.value == expected.value)
  {
  }

  /** A plain-text 400 answer. */
  function BadRequest(body: string): Reply {
    PlainText(400, body)
  }

  /**
   * Steps 1 to 7 of `callback`: every check up to and including the id
   * token's verification; the verified claims, or the answer that ends the
   * request.
   */
  function Verified(cfg: Config, idp: Idp, now: int, session: map<string, string>,
                    code: Option<string>, state: Option<string>, error: Option<string>): Result<Claims, Reply>
  {
    if Truthy(error) then Failure(BadRequest("Entra error: " + error.value))
    else if !Truthy(code) then Failure(BadRequest("Missing code"))
    else if StateRefused(Get(session, "oidc_state"), state) then Failure(BadRequest("Invalid state"))
    else
      var resp := idp.exchange(TokenForm(cfg, code.value));
      if resp.status != 200 then Failure(BadRequest("Token exchange failed: " + resp.text))
      else if !Truthy(resp.idToken) then Failure(BadRequest("No id_token returned"))
      else
        var idToken := resp.idToken.value;
        match FirstKey(idp.keys, idp.headerKid(idToken))
        case None => Failure(BadRequest("Unable to find signing key"))
        case Some(key) =>
          match VerifyIdToken(cfg, idp, idToken, key, now)
          case Failure(e) => Failure(BadRequest("Invalid id_token: " + e))
          case Success(claims) => Success(claims)
  }

  /** The tenant check and the minting: the claims of the gate cookie, or the answer that ends the request. */
  function Decide(cfg: Config, idp: Idp, now: int, session: map<string, string>,
                  code: Option<string>, state: Option<string>, error: Option<string>): Result<Claims, Reply>
  {
    match Verified(cfg, idp, now, session, code, state, error)
    case Failure(reply) => Failure(reply)
    case Success(claims) =>
      if Get(claims, "tid") != Some(JStr(cfg.tenantId)) then Failure(PlainText(403, "Forbidden: wrong tenant"))
      else Success(AppClaims(claims, now))
  }

  /** The successful answer: a 302 to the stored destination (default `/chat`) setting the gate cookie. */
  function SuccessReply(cfg: Config, h: Hs256, session: map<string, string>, appClaims: Claims): Reply {
    Redirect(Get(session, "next").GetOr(DefaultNext), 302,
             Some(SetCookie(AuthCookieName, h.encode(appClaims, cfg.sessionSecret), true, "lax", false, "/")))
  }

  /** What `callback` answers. */
  function CallbackReply(cfg: Config, idp: Idp, h: Hs256, now: int, session: map<string, string>,
                         code: Option<string>, state: Option<string>, error: Option<string>): Reply
  {
    match Decide(cfg, idp, now, session, code, state, error)
    case Failure(reply) => reply
    case Success(appClaims) => SuccessReply(cfg, h, session, appClaims)
  }

  /** The session after `callback`: the one-time values go on success, nothing changes on failure. */
  function SessionAfterCallback(session: map<string, string>, decision: Result<Claims, Reply>)
    : (after: map<string, string>)
    ensures decision.Success? ==> "oidc_state" !in after && "next" !in after
    ensures decision.Success? ==> forall k :: k in session && k != "oidc_state" && k != "next" ==>
                                               k in after && after[k] == session[k]
    ensures decision.Success? ==> forall k :: k in after ==> k in session
    ensures decision.Failure? ==> after == session
  {
    if decision.Success? then session - {"oidc_state"} - {"next"} else session
  }

  /** The session after `login`: the destination (default `/chat`) and the state are stored, nothing else changes. */
  function SessionAfterLogin(session: map<string, string>, next: Option<string>, state: string)
    : (after: map<string, string>)
    ensures after.Keys == session.Keys + {"next", "oidc_state"}
    ensures after["next"] == next.GetOr(DefaultNext) && after["oidc_state"] == state
    ensures forall k :: k in session && k != "next" && k != "oidc_state" ==> after[k] == session[k]
  {
    session["next" := next.GetOr(DefaultNext)]["oidc_state" := state]
  }

  // ---------------------------------------------------------------------------
  // The per-browser session and the two handlers

  /** `request.session`: the browser's server-side session dictionary. */
  class BrowserSession {
    var data: map<string, string>

    constructor (initial: map<string, string>)
      ensures data == initial
    {
      data := initial;
    }

    /** `login(next)` with the 16 random bytes `random` drawn for the state; answers with the authorize parameters. */
    method Login(cfg: Config, next: Option<string>, random: seq<Base64Url.byte>) returns (params: map<string, string>)
      modifies this
      ensures data == SessionAfterLogin(old(data), next, Base64Url.B64Url(random))
      ensures params == AuthorizeParams(cfg, Base64Url.B64Url(random))
      ensures data["oidc_state"] == params["state"]
    {
      data := data["next" := next.GetOr(DefaultNext)];
      var state := Base64Url.B64Url(random);
      data := data["oidc_state" := state];
      params := AuthorizeParams(cfg, state);
    }

    /** `callback(code, state, error)` at time `now`. */
    method Callback(cfg: Config, idp: Idp, h: Hs256, now: int,
                    code: Option<string>, state: Option<string>, error: Option<string>) returns (reply: Reply)
      modifies this
      ensures reply == CallbackReply(cfg, idp, h, now, old(data), code, state, error)
      ensures data == SessionAfterCallback(old(data), Decide(cfg, idp, now, old(data), code, state, error))
    {
      if error.Some? && error.value != "" {
        return BadRequest("Entra error: " + error.value);
      }
      if code.None? || code.value == "" {
        return BadRequest("Missing code");
      }
      var expected := Get(data, "oidc_state");
      if (Truthy(expected) && state != expected) || !Truthy(expected) || !Truthy(state) {
        return BadRequest("Invalid state");
      }
      var resp := idp.exchange(TokenForm(cfg, code.value));
      if resp.status != 200 {
        return BadRequest("Token exchange failed: " + resp.text);
      }
      var idToken := resp.idToken;
      if idToken.None? || idToken.value == "" {
        return BadRequest("No id_token returned");
      }
      var kid := idp.headerKid(idToken.value);
      var key := FindSigningKey(idp.keys, kid);
      if key.None? {
        return BadRequest("Unable to find signing key");
      }
      var verified := VerifyIdToken(cfg, idp, idToken.value, key.value, now);
      if verified.Failure? {
        return BadRequest("Invalid id_token: " + verified.error);
      }
      var claims := verified.value;
      if Get(claims, "tid") != Some(JStr(cfg.tenantId)) {
        return PlainText(403, "Forbidden: wrong tenant");
      }
      var appClaims := AppClaims(claims, now);
      var appToken := h.encode(appClaims, cfg.sessionSecret);
      var nextUrl := Get(data, "next").GetOr(DefaultNext);
      reply := Redirect(nextUrl, 302, Some(SetCookie(AuthCookieName, appToken, true, "lax", false, "/")));
      data := data - {"oidc_state"};
      data := data - {"next"};
    }
  }

  // ---------------------------------------------------------------------------
  // Properties of the callback

  /** A provider error ends the request first, whatever else came with it, and leaves the session alone. */
  lemma ProviderErrorFirst(cfg: Config, idp: Idp, h: Hs256, now: int, session: map<string, string>,
                           code: Option<string>, state: Option<string>, e: string)
    requires e != ""
    ensures CallbackReply(cfg, idp, h, now, session, code, state, Some(e)) == PlainText(400, "Entra error: " + e)
    ensures SessionAfterCallback(session, Decide(cfg, idp, now, session, code, state, Some(e))) == session
  {
  }

  /** Without a code the request ends with "Missing code". */
  lemma MissingCodeRejected(cfg: Config, idp: Idp, h: Hs256, now: int, session: map<string, string>,
                            code: Option<string>, state: Option<string>, error: Option<string>)
    requires !Truthy(error) && !Truthy(code)
    ensures CallbackReply(cfg, idp, h, now, session, code, state, error) == PlainText(400, "Missing code")
  {
  }

  /**
   * A refused state ends the request before the token endpoint, the key
   * set or the clock is consulted: two providers and two times give the
   * same answer.
   */
  lemma RefusedStateNeverExchanges(cfg: Config, idp1: Idp, idp2: Idp, h: Hs256, now1: int, now2: int,
                                   session: map<string, string>,
                                   code: Option<string>, state: Option<string>, error: Option<string>)
    requires !Truthy(error) && Truthy(code)
    requires !(Get(session, "oidc_state").Some? && state.Some? && session["oidc_state"] != ""
               && state.value == session["oidc_state"])
    ensures CallbackReply(cfg, idp1, h, now1, session, code, state, error) == PlainText(400, "Invalid state")
    ensures CallbackReply(cfg, idp1, h, now1, session, code, state, error)
         == CallbackReply(cfg, idp2, h, now2, session, code, state, error)
  {
    StateAcceptedIff(Get(session, "oidc_state"), state);
  }

  /** Every refusal is a plain-text 400, except the tenant check's 403. */
  lemma RefusalStatus(cfg: Config, idp: Idp, now: int, session: map<string, string>,
                      code: Option<string>, state: Option<string>, error: Option<string>)
    ensures Verified(cfg, idp, now, session, code, state, error).Failure? ==>
              Verified(cfg, idp, now, session, code, state, error).error.PlainText?
              && Verified(cfg, idp, now, session, code, state, error).error.status == 400
    ensures Decide(cfg, idp, now, session, code, state, error).Failure? ==>
              Decide(cfg, idp, now, session, code, state, error).error.PlainText?
    ensures (Decide(cfg, idp, now, session, code, state, error).Failure?
             && Decide(cfg, idp, now, session, code, state, error).error.status == 403)
        <==> (Verified(cfg, idp, now, session, code, state, error).Success?
              && Get(Verified(cfg, idp, now, session, code, state, error).value, "tid") != Some(JStr(cfg.tenantId)))
    ensures Decide(cfg, idp, now, session, code, state, error).Failure?
            && Decide(cfg, idp, now, session, code, state, error).error.status != 403 ==>
              Decide(cfg, idp, now, session, code, state, error).error.status == 400
  {
  }

  /**
   * The callback mints a cookie exactly when every guard passes: no
   * provider error, a code, the stored state echoed back, a 200 from the
   * token endpoint with an id token, a published key whose `kid` matches the
   * token header's, a verification with every required claim, and the
   * configured tenant. The minted claims are those of the verified token.
   */
  lemma {:induction false} AcceptedIff(cfg: Config, idp: Idp, now: int, session: map<string, string>,
                                       code: Option<string>, state: Option<string>, error: Option<string>)
    ensures Decide(cfg, idp, now, session, code, state, error).Success? <==>
      (!Truthy(error) && Truthy(code)
       && "oidc_state" in session && session["oidc_state"] != "" && state == Some(session["oidc_state"])
       && idp.exchange(TokenForm(cfg, code.value)).status == 200
       && Truthy(idp.exchange(TokenForm(cfg, code.value)).idToken)
       && (exists i :: 0 <= i < |idp.keys| && idp.keys[i].kid
                                              == idp.headerKid(idp.exchange(TokenForm(cfg, code.value)).idToken.value))
       && (exists c :: Accepts(cfg, idp, now, idp.exchange(TokenForm(cfg, code.value)).idToken.value, c)))
    ensures Decide(cfg, idp, now, session, code, state, error).Success? ==>
      exists c :: Accepts(cfg, idp, now, idp.exchange(TokenForm(cfg, code.value)).idToken.value, c)
                  && Decide(cfg, idp, now, session, code, state, error).value == AppClaims(c, now)
  {
    StateAcceptedIff(Get(session, "oidc_state"), state);
    if !Truthy(error) && Truthy(code) && !StateRefused(Get(session, "oidc_state"), state) {
      var resp := idp.exchange(TokenForm(cfg, code.value));
      if resp.status == 200 && Truthy(resp.idToken) {
        var idToken := resp.idToken.value;
        var kid := idp.headerKid(idToken);
        FirstKeyAt(idp.keys, kid);
        match FirstKey(idp.keys, kid)
        case None =>
          AcceptsOnlyFirstKey(cfg, idp, now, idToken);
        case Some(key) =>
          AcceptsOnlyFirstKey(cfg, idp, now, idToken);
          var verified := VerifyIdToken(cfg, idp, idToken, key, now);
          if verified.Success? && Get(verified.value, "tid") == Some(JStr(cfg.tenantId)) {
            assert Accepts(cfg, idp, now, idToken, verified.value);
          }
      }
    }
  }

  /**
   * The id token is accepted with claims `c`: the first published key whose
   * `kid` matches the header verifies it to `c`, `c` carries every required
   * claim and names the configured tenant.
   */
  predicate Accepts(cfg: Config, idp: Idp, now: int, idToken: string, c: Claims) {
    var key := FirstKey(idp.keys, idp.headerKid(idToken));
    key.Some? && VerifyIdToken(cfg, idp, idToken, key.value, now) == Success(c)
    && Get(c, "tid") == Some(JStr(cfg.tenantId))
  }

  /** Only the first matching key is tried: without one, no claims are accepted. */
  lemma AcceptsOnlyFirstKey(cfg: Config, idp: Idp, now: int, idToken: string)
    ensures FirstKey(idp.keys, idp.headerKid(idToken)).None? ==> forall c :: !Accepts(cfg, idp, now, idToken, c)
    ensures forall c :: Accepts(cfg, idp, now, idToken, c) ==>
      c == VerifyIdToken(cfg, idp, idToken, FirstKey(idp.keys, idp.headerKid(idToken)).value, now).value
  {
  }

  /**
   * The claims minted on success name the configured tenant, are issued at
   * `now`, expire an hour later and are live at every instant of that hour.
   */
  lemma MintedClaims(cfg: Config, idp: Idp, now: int, later: int, session: map<string, string>,
                     code: Option<string>, state: Option<string>, error: Option<string>)
    requires Decide(cfg, idp, now, session, code, state, error).Success?
    ensures Get(Decide(cfg, idp, now, session, code, state, error).value, "tid") == Some(JStr(cfg.tenantId))
    ensures Decide(cfg, idp, now, session, code, state, error).value["iat"] == JInt(now)
    ensures Decide(cfg, idp, now, session, code, state, error).value["exp"] == JInt(now + TokenLifetime)
    ensures Live(Decide(cfg, idp, now, session, code, state, error).value, later) <==> now <= later < now + TokenLifetime
    ensures GateReadable(Decide(cfg, idp, now, session, code, state, error).value)
  {
  }

  /** On success the browser goes, with the gate cookie, to the destination stored by `login` (default `/chat`). */
  lemma SuccessRedirects(cfg: Config, idp: Idp, h: Hs256, now: int, session: map<string, string>,
                         code: Option<string>, state: Option<string>, error: Option<string>)
    requires Decide(cfg, idp, now, session, code, state, error).Success?
    ensures var reply := CallbackReply(cfg, idp, h, now, session, code, state, error);
            reply.Redirect? && reply.status == 302
            && reply.url == (if "next" in session then session["next"] else DefaultNext)
            && reply.cookie == Some(SetCookie(AuthCookieName,
                                              h.encode(Decide(cfg, idp, now, session, code, state, error).value,
                                                       cfg.sessionSecret),
                                              true, "lax", false, "/"))
  {
  }

  /** The state `login` stores is echoed back by the provider and passes the callback's state check. */
  lemma {:induction false} LoginStatePasses(session: map<string, string>, next: Option<string>,
                                            random: seq<Base64Url.byte>)
    requires |random| == 16
    ensures var after := SessionAfterLogin(session, next, Base64Url.B64Url(random));
            !StateRefused(Get(after, "oidc_state"), Some(Base64Url.B64Url(random)))
  {
    Base64Url.StateLength(random);
  }

  /** After a successful callback the stored state is gone, so replaying the same callback is refused. */
  lemma ReplayRefused(cfg: Config, idp: Idp, idp2: Idp, now: int, now2: int, session: map<string, string>,
                      code: Option<string>, state: Option<string>, error: Option<string>)
    requires Decide(cfg, idp, now, session, code, state, error).Success?
    ensures var after := SessionAfterCallback(session, Decide(cfg, idp, now, session, code, state, error));
            Decide(cfg, idp2, now2, after, code, state, error) == Failure(PlainText(400, "Invalid state"))
  {
  }
}
