/**
 * The two halves together: the cookie `callback` mints is the credential
 * the gate checks. With a sound HS256 library and a gate configured with
 * the application's tenant and session secret, the minted cookie opens every
 * secured route for exactly one hour; a gate with another secret or tenant
 * refuses it.
 */
module LoginRoundTrip {
  import opened Wrappers
  import opened Jwt
  import AuthMiddleware
  import EntraId

  /** The gate cookie a successful callback sets. */
  function MintedToken(cfg: EntraId.Config, idp: EntraId.Idp, h: Hs256, now: int, session: map<string, string>,
                       code: Option<string>, state: Option<string>, error: Option<string>): (token: string)
    requires EntraId.Decide(cfg, idp, now, session, code, state, error).Success?
    ensures token == h.encode(EntraId.Decide(cfg, idp, now, session, code, state, error).value, cfg.sessionSecret)
  {
    EntraId.CallbackReply(cfg, idp, h, now, session, code, state, error).cookie.value.value
  }

  /** The gate is configured with the application's tenant and session secret and reads `cl_auth`. */
  predicate Matches(g: AuthMiddleware.Gate, cfg: EntraId.Config) {
    g.tenantId == cfg.tenantId && g.jwtSecret == cfg.sessionSecret && g.cookieName == EntraId.AuthCookieName
  }

  /** `cl_auth` is a cookie name the header parser finds again. */
  lemma AuthCookieNamePlain()
    ensures AuthMiddleware.DefaultCookieName == EntraId.AuthCookieName
    ensures AuthMiddleware.PlainName(EntraId.AuthCookieName)
  {
  }

  /** The header `cl_auth=<token>` yields the token back for any compact token. */
  lemma {:induction false} MintedCookieFound(token: string)
    requires IsCompact(token)
    ensures AuthMiddleware.CookieValue("cl_auth=" + token, EntraId.AuthCookieName) == Some(token)
  {
    var n := EntraId.AuthCookieName;
    AuthCookieNamePlain();
    AuthMiddleware.CompactIsPlainValue(token);
    assert n + "=" == "cl_auth=";
    AuthMiddleware.SingleCookie(n, token);
  }

  /**
   * The cookies a browser holds next to `cl_auth`, such as the session
   * cookie `callback` relies on, do not hide it: in the header built from
   * another plain cookie and `cl_auth=<token>`, in either order, the gate
   * finds the token.
   */
  lemma BrowserCookies(other: string, v: string, token: string)
    requires AuthMiddleware.PlainName(other) && AuthMiddleware.PlainValue(v) && other != EntraId.AuthCookieName
    requires IsCompact(token)
    ensures var cs := [AuthMiddleware.Cookie(other, v), AuthMiddleware.Cookie(EntraId.AuthCookieName, token)];
            (forall i :: 0 <= i < |cs| ==> AuthMiddleware.Plain(cs[i]))
            && AuthMiddleware.Lookup(cs, EntraId.AuthCookieName) == Some(token)
    ensures var cs := [AuthMiddleware.Cookie(EntraId.AuthCookieName, token), AuthMiddleware.Cookie(other, v)];
            (forall i :: 0 <= i < |cs| ==> AuthMiddleware.Plain(cs[i]))
            && AuthMiddleware.Lookup(cs, EntraId.AuthCookieName) == Some(token)
  {
    AuthCookieNamePlain();
    AuthMiddleware.CompactIsPlainValue(token);
    var cs := [AuthMiddleware.Cookie(other, v), AuthMiddleware.Cookie(EntraId.AuthCookieName, token)];
    assert cs[1..][0] == AuthMiddleware.Cookie(EntraId.AuthCookieName, token);
  }

  /**
   * A cookie signed with the gate's secret, one the library accepts as an
   * HMAC key, over gate-readable claims that name the gate's tenant and carry `exp` verifies to those claims while
   * they are live, and the gate then forwards every request whose `Cookie`
   * header, built from plain cookies, has it as the first `cl_auth`.
   */
  lemma {:induction false} SignedCookieAdmitted(g: AuthMiddleware.Gate, h: Hs256, c: Claims, token: string,
                                                cs: seq<AuthMiddleware.Cookie>, later: int,
                                                kind: string, path: Option<string>, queryString: string)
    requires Sound(h) && g.cookieName == EntraId.AuthCookieName
    requires token == h.encode(c, g.jwtSecret) && h.acceptsKey(g.jwtSecret)
    requires GateReadable(c) && "exp" in c && Get(c, "tid") == Some(JStr(g.tenantId)) && Live(c, later)
    requires forall i :: 0 <= i < |cs| ==> AuthMiddleware.Plain(cs[i])
    requires AuthMiddleware.Lookup(cs, EntraId.AuthCookieName) == Some(token)
    ensures AuthMiddleware.VerifyAuthCookie(g, h, token, later) == Some(c)
    ensures AuthMiddleware.Handle(g, h, AuthMiddleware.Scope(kind, path, queryString, AuthMiddleware.Header(cs)), later)
            == AuthMiddleware.Forward
  {
    assert h.decode(token, g.jwtSecret, later) == Some(c);
    AuthMiddleware.HeaderLookup(cs, EntraId.AuthCookieName);
    assert AuthMiddleware.Admitted(g, h, AuthMiddleware.Scope(kind, path, queryString, AuthMiddleware.Header(cs)), later);
  }

  /**
   * A cookie signed with the gate's secret over gate-readable claims that
   * are no longer live does not verify, and a WebSocket to a protected path
   * whose header has it as the first `cl_auth` is closed with 4401.
   */
  lemma {:induction false} StaleCookieRefused(g: AuthMiddleware.Gate, h: Hs256, c: Claims, token: string,
                                              cs: seq<AuthMiddleware.Cookie>, later: int,
                                              path: string, queryString: string)
    requires Sound(h) && g.cookieName == EntraId.AuthCookieName
    requires token == h.encode(c, g.jwtSecret)
    requires GateReadable(c) && !Live(c, later) && !AuthMiddleware.IsPublic(g, path)
    requires forall i :: 0 <= i < |cs| ==> AuthMiddleware.Plain(cs[i])
    requires AuthMiddleware.Lookup(cs, EntraId.AuthCookieName) == Some(token)
    ensures AuthMiddleware.VerifyAuthCookie(g, h, token, later).None?
    ensures AuthMiddleware.Handle(g, h, AuthMiddleware.Scope("websocket", Some(path), queryString, AuthMiddleware.Header(cs)), later)
            == AuthMiddleware.Close(AuthMiddleware.UnauthorizedClose)
  {
    assert h.decode(token, g.jwtSecret, later).None?;
    AuthMiddleware.HeaderLookup(cs, EntraId.AuthCookieName);
    assert !AuthMiddleware.Admitted(g, h, AuthMiddleware.Scope("websocket", Some(path), queryString, AuthMiddleware.Header(cs)), later);
  }

  /**
   * With a session secret the library accepts as an HMAC key (with any
   * other the callback never mints), during the hour after the callback,
   * the minted cookie verifies to the
   * minted claims and the gate forwards every request whose header, built
   * from plain cookies, has it as the first `cl_auth`.
   */
  lemma {:induction false} MintedCookieAdmitted(cfg: EntraId.Config, idp: EntraId.Idp, h: Hs256, g: AuthMiddleware.Gate,
                                                now: int, later: int, session: map<string, string>,
                                                code: Option<string>, state: Option<string>, error: Option<string>,
                                                cs: seq<AuthMiddleware.Cookie>,
                                                kind: string, path: Option<string>, queryString: string)
    requires Sound(h) && Matches(g, cfg) && h.acceptsKey(cfg.sessionSecret)
    requires EntraId.Decide(cfg, idp, now, session, code, state, error).Success?
    requires now <= later < now + EntraId.TokenLifetime
    requires forall i :: 0 <= i < |cs| ==> AuthMiddleware.Plain(cs[i])
    requires AuthMiddleware.Lookup(cs, EntraId.AuthCookieName) == Some(MintedToken(cfg, idp, h, now, session, code, state, error))
    ensures var token := MintedToken(cfg, idp, h, now, session, code, state, error);
            AuthMiddleware.VerifyAuthCookie(g, h, token, later)
              == Some(EntraId.Decide(cfg, idp, now, session, code, state, error).value)
            && AuthMiddleware.Handle(g, h, AuthMiddleware.Scope(kind, path, queryString, AuthMiddleware.Header(cs)), later)
               == AuthMiddleware.Forward
  {
    EntraId.MintedClaims(cfg, idp, now, later, session, code, state, error);
    SignedCookieAdmitted(g, h, EntraId.Decide(cfg, idp, now, session, code, state, error).value,
                         MintedToken(cfg, idp, h, now, session, code, state, error), cs, later, kind, path, queryString);
  }

  /**
   * From the end of the hour on, the minted cookie no longer verifies and
   * the gate closes a WebSocket whose header has it as the first `cl_auth`.
   */
  lemma {:induction false} MintedCookieExpires(cfg: EntraId.Config, idp: EntraId.Idp, h: Hs256, g: AuthMiddleware.Gate,
                                               now: int, later: int, session: map<string, string>,
                                               code: Option<string>, state: Option<string>, error: Option<string>,
                                               cs: seq<AuthMiddleware.Cookie>, path: string, queryString: string)
    requires Sound(h) && Matches(g, cfg)
    requires EntraId.Decide(cfg, idp, now, session, code, state, error).Success?
    requires later >= now + EntraId.TokenLifetime
    requires !AuthMiddleware.IsPublic(g, path)
    requires forall i :: 0 <= i < |cs| ==> AuthMiddleware.Plain(cs[i])
    requires AuthMiddleware.Lookup(cs, EntraId.AuthCookieName) == Some(MintedToken(cfg, idp, h, now, session, code, state, error))
    ensures var token := MintedToken(cfg, idp, h, now, session, code, state, error);
            AuthMiddleware.VerifyAuthCookie(g, h, token, later).None?
            && AuthMiddleware.Handle(g, h, AuthMiddleware.Scope("websocket", Some(path), queryString, AuthMiddleware.Header(cs)), later)
               == AuthMiddleware.Close(AuthMiddleware.UnauthorizedClose)
  {
    EntraId.MintedClaims(cfg, idp, now, later, session, code, state, error);
    StaleCookieRefused(g, h, EntraId.Decide(cfg, idp, now, session, code, state, error).value,
                       MintedToken(cfg, idp, h, now, session, code, state, error), cs, later, path, queryString);
  }

  /** A gate holding another secret never accepts a minted cookie. */
  lemma {:induction false} OtherSecretRefused(cfg: EntraId.Config, idp: EntraId.Idp, h: Hs256, g: AuthMiddleware.Gate,
                                              now: int, later: int, session: map<string, string>,
                                              code: Option<string>, state: Option<string>, error: Option<string>)
    requires Sound(h) && DistinctHmacKeys(g.jwtSecret, cfg.sessionSecret)
    requires EntraId.Decide(cfg, idp, now, session, code, state, error).Success?
    ensures AuthMiddleware.VerifyAuthCookie(g, h, MintedToken(cfg, idp, h, now, session, code, state, error), later).None?
  {
    var token := MintedToken(cfg, idp, h, now, session, code, state, error);
    assert h.decode(token, g.jwtSecret, later).None?;
  }

  /**
   * A gate guarding another tenant never accepts a minted cookie, whatever
   * its secret: any key yields nothing or the minted claims, whose `tid` is
   * the application's.
   */
  lemma {:induction false} OtherTenantRefused(cfg: EntraId.Config, idp: EntraId.Idp, h: Hs256, g: AuthMiddleware.Gate,
                                              now: int, later: int, session: map<string, string>,
                                              code: Option<string>, state: Option<string>, error: Option<string>)
    requires Sound(h) && g.tenantId != cfg.tenantId
    requires EntraId.Decide(cfg, idp, now, session, code, state, error).Success?
    ensures AuthMiddleware.VerifyAuthCookie(g, h, MintedToken(cfg, idp, h, now, session, code, state, error), later).None?
  {
    EntraId.MintedClaims(cfg, idp, now, later, session, code, state, error);
    var token := MintedToken(cfg, idp, h, now, session, code, state, error);
    var minted := EntraId.Decide(cfg, idp, now, session, code, state, error).value;
    var decoded := h.decode(token, g.jwtSecret, later);
    assert decoded.None? || decoded == Some(minted);
  }
}
