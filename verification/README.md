# Authentication gate and Entra ID login, in Dafny

This project models the authentication core of a chat web application. The
core has two halves that share one signed cookie.

- **The gate** (`AuthGate`, an ASGI middleware) looks at every HTTP and
  WebSocket connection. Other connection kinds and public paths pass
  through. A public path is one listed in the gate's set, or lying under a
  listed path as a directory. Every other request needs a `cl_auth` cookie.
  The cookie must be an HS256 JWT that decodes with the gate's secret,
  carries `exp`, and names the gate's tenant in `tid`. If it does not, HTTP
  is redirected to `/login?next=<path>[?<query>]` and a WebSocket is closed
  with code 4401.
- **The Entra ID handlers** cover both steps of the sign-in.
  - `login` stores the post-login destination and a fresh anti-CSRF state
    in the browser's session, then redirects to the authorize endpoint.
  - `callback` runs its guard chain in a fixed order: provider error, code,
    state, code exchange, id token, signing key, RS256 verification, tenant.
    If every guard passes, it mints the gate's one-hour cookie, redirects to
    the stored destination, and drops the one-time session values.

The modules follow the source:

- `AuthMiddleware` models `app/auth_middleware.py`.
- `EntraId` models `app/entraid/entraid.py`.
- `LoginRoundTrip` connects the two: a cookie minted by the callback is
  accepted by a matching gate for exactly one hour.
- `Wrappers`, `PyStr`, `Base64Url` and `Jwt` supply the Python and library
  behaviour the core relies on:
  - `str.strip` with Python's whitespace set, `rstrip`, `split` and
    `startswith`;
  - unpadded URL-safe base64 and its decoder;
  - JSON claim values.

Time, randomness, the identity provider and the JWT library are parameters.

- **HS256.** `Jwt.Hs256` holds two functions, `encode` and `decode`, and a
  test `acceptsKey`. `acceptsKey` says which strings the library takes as
  an HMAC key: PyJWT refuses a key holding a PEM block or an SSH key
  marker such as `ssh-rsa`, and then both calls raise. What the model
  assumes of them is the predicate `Jwt.Sound`:
  - tokens signed with an accepted key are compact;
  - nothing decodes with a refused key;
  - a token over gate-readable claims decodes with its own key, when that
    key is accepted, to its own claims, exactly while those claims are
    live. Gate-readable claims
    (`Jwt.GateReadable`) carry no `aud`, and their `exp`, `iat` and `nbf`
    are integers where present, and their `sub` and `jti` are strings
    where present. The gate's `jwt.decode` call passes no audience, so the
    library refuses a non-empty `aud`. It also reads numeric strings as
    times, and PyJWT 2.10 and later refuse a `sub` or `jti` that is not a
    string. Nothing is assumed about other claims;
  - whatever key it is decoded with, a token over gate-readable claims
    yields nothing or the claims it was signed with;
  - a token never decodes with a key that is certainly a different HMAC
    key (`Jwt.DistinctHmacKeys`). HMAC pads a key of at most 64 bytes with
    NULs and hashes a longer one. So `s` and `s` followed by NULs are the
    same key. Two short keys are distinct when they still differ once the
    trailing NULs are stripped. Two long keys are distinct when they differ,
    taking SHA-256 as collision-free. A short key and a long one are never
    called distinct.
- **RS256 and the provider.** `EntraId.Idp` holds four things: the token
  endpoint, the published keys, the header reader and the RS256 verifier.
  No property of the callback depends on what they return.
- **`require` options.** The `require` lists passed to `jwt.decode` are
  applied by the model itself, after the library call: `["exp"]` in the
  gate, and `exp`, `iat`, `iss`, `aud` in the callback.

Three behaviours of the code are easy to misread:

- `callback` deletes `oidc_state` and `next` only after a successful mint.
  Every refusal returns before the deletion and leaves both values in the
  session (`EntraId.SessionAfterCallback`).
- The gate builds `/login?next=<path>[?<query>]` from the raw path and
  query and does not encode `next` itself. `Redirect(location)` is this URL
  as handed to Starlette's `RedirectResponse`, not the `Location` header the
  browser receives. That header has the URL percent-quoted, leaving
  unreserved characters and ``:/%#?=@[]!$&'()*+,;`` as they are.
- The gate redirects to `/login`, but the shipped public set is
  `/healthz`, `/api/auth/login`, `/api/auth/callback`. Under that
  configuration `/login` itself is protected
  (`AuthMiddleware.PublicPathScenarios`). Where `/login` is mounted is
  outside this model, so no error is claimed.

## Model

| member | source | states |
|---|---|---|
| AuthMiddleware.NewGate | app/auth_middleware.py:9-24 | a gate is built exactly when the secret is non-empty; the tenant, cookie name and secret are kept; the public set holds exactly the given paths (empty when none are given); otherwise it fails with the "requires jwt_secret" message |
| AuthMiddleware.IsPublic | app/auth_middleware.py:26-33 | definition: an exact member of the public set, or below one as a directory; properties in `ListedPathIsPublic`, `SubPathIsPublic`, `UnlistedPathIsProtected`, `RootEntryOpensEverything` |
| AuthMiddleware.ListedPathIsPublic | app/auth_middleware.py:26-28 | every listed path is public |
| AuthMiddleware.SubPathIsPublic | app/auth_middleware.py:30-33 | for every listed `p`, with or without trailing slashes, `p + "/" + suffix` is public, and so is `p.rstrip("/") + "/" + suffix` |
| AuthMiddleware.UnlistedPathIsProtected | app/auth_middleware.py:26-33 | a path that is neither listed nor under a listed directory is not public |
| AuthMiddleware.RootEntryOpensEverything | app/auth_middleware.py:30-33 | listing `/` (or any entry made only of slashes, or the empty entry) makes every path that starts with `/` public |
| AuthMiddleware.PublicPathScenarios | app/auth_middleware.py:26-33 | with the shipped public set: `/healthz` and `/healthz/x` are public; `/healthzX`, `/api/sessions` and `/login` are not |
| AuthMiddleware.KeepPairsSingle | app/auth_middleware.py:41 | one segment is kept, stripped, exactly when it contains `=` |
| AuthMiddleware.KeepPairsAppend | app/auth_middleware.py:41 | the filter distributes over concatenation, so the result is exactly the stripped `=`-segments, in header order |
| AuthMiddleware.FirstMatchAt | app/auth_middleware.py:43-48 | the search over the trimmed entries finds nothing exactly when no entry's key is the name; otherwise it gives the value of an entry with that key, and no earlier entry has it |
| AuthMiddleware.CookieValue | app/auth_middleware.py:39-48 | definition: the first entry named `name` among the trimmed `=`-segments; properties in `KeepPairsAppend`, `FirstMatchAt`, `ExtractCookie`, `HeaderLookup` |
| AuthMiddleware.ExtractCookie | app/auth_middleware.py:39-48 | the loop returns the cookie's value as the header parser defines it, and `None` exactly when no pair's key is the name |
| AuthMiddleware.HeaderLookup | app/auth_middleware.py:39-48 | for any cookies with plain names and values, reading a name back from the header `n1=v1; n2=v2; ...` gives the value of the first cookie with that name, and nothing when no cookie has it |
| AuthMiddleware.CookieScenario | app/auth_middleware.py:39-48 | `a=1; cl_auth=XYZ; b=2` gives `XYZ` for `cl_auth` |
| AuthMiddleware.ValueMayContainEquals | app/auth_middleware.py:44-46 | a pair is split at its first `=`, so `k=a=b` gives `a=b` |
| AuthMiddleware.EmptyHeaderHasNoCookie | app/auth_middleware.py:39-48 | an empty header holds no cookie |
| AuthMiddleware.SingleCookie | app/auth_middleware.py:39-48 | a header holding only `name=value` gives back the value, for a plain name (no outer whitespace, `;` or `=`) and a plain value (no outer whitespace or `;`) |
| AuthMiddleware.VerifyAuthCookie | app/auth_middleware.py:50-66 | gives the decoded claims exactly when the token decodes with the gate's secret, carries `exp`, and names the gate's tenant in `tid`; otherwise `None` |
| AuthMiddleware.NextUrl | app/auth_middleware.py:84 | definition: the path, followed by `?` and the query only when the query is non-empty; properties in `RedirectKeepsQuery`, `RedirectScenario` |
| AuthMiddleware.Deny | app/auth_middleware.py:86-104 | definition: the refusal, a redirect to `/login?next=<next_url>` for HTTP and close code 4401 otherwise; properties in `NoCookieRedirects`, `RefusalsIndistinguishable`, `Handle` |
| AuthMiddleware.MissingExpRejected | app/auth_middleware.py:52-57 | a token that decodes but lacks `exp` is refused |
| AuthMiddleware.WrongTenantRejected | app/auth_middleware.py:59-61 | a token for another tenant, or with no `tid`, is refused |
| AuthMiddleware.Handle | app/auth_middleware.py:68-106 | passes through every non-HTTP, non-WebSocket connection and every public path; forwards a secured request exactly when it carries a non-empty cookie that verifies; otherwise redirects HTTP to `/login?next=...` and closes a WebSocket with 4401 |
| AuthMiddleware.RefusalsIndistinguishable | app/auth_middleware.py:86-104 | a missing cookie, an empty cookie and a cookie that fails verification get the same answer |
| AuthMiddleware.RedirectScenario | app/auth_middleware.py:86-90 | with the shipped public set, an HTTP request to `/api/sessions` with no cookie is redirected to `/login?next=/api/sessions` |
| AuthMiddleware.NoCookieRedirects | app/auth_middleware.py:82-90 | an HTTP request to any protected path with no cookie and no query is redirected to `/login?next=<path>` |
| AuthMiddleware.RedirectKeepsQuery | app/auth_middleware.py:82-88 | a refused HTTP request with a query string is sent to `/login?next=<path>?<query>` |
| PyStr.StripEnds | app/auth_middleware.py:41 | `strip()` leaves an empty text or one that starts and ends with a non-whitespace character |
| PyStr.StripKeeps | app/auth_middleware.py:41 | `strip()` keeps every non-whitespace character, so a segment holding `=` still holds it once stripped |
| PyStr.JoinSplit | app/auth_middleware.py:41 | splitting the header at `;` loses nothing: joining the pieces gives the header back |
| Base64Url.B64Url | app/entraid/entraid.py:14-15 | the result is the padded URL-safe encoding with its trailing `=` removed: it holds no `=`, uses only URL-safe characters, and has length ceil(4n/3) |
| Base64Url.StateLength | app/entraid/entraid.py:24 | 16 random bytes give a 22-character, non-empty state |
| Base64Url.EncodePadded | app/entraid/entraid.py:15 | definition: `urlsafe_b64encode`, four characters per three bytes with `=` padding at the end; properties in `B64Url`, `DecodeB64Url` |
| Base64Url.DecodeB64Url | app/entraid/entraid.py:14-15 | decoding the unpadded encoding gives back the original bytes |
| Jwt.GetOrNull | app/entraid/entraid.py:103-106 | `claims.get(k)`: the value when present, JSON null otherwise |
| EntraId.AuthorizeParams | app/entraid/entraid.py:27-35 | the authorize query has exactly the seven parameters, the fixed ones with their constant values and `state` equal to the generated state |
| EntraId.TokenForm | app/entraid/entraid.py:51-61 | the token request form has exactly the five fields, with `grant_type` `authorization_code` and the received code |
| EntraId.FirstKey | app/entraid/entraid.py:74-80 | definition: the first published key whose `kid` equals the header's; properties in `FirstKeyAt`, `FindSigningKey`, `AcceptsOnlyFirstKey` |
| EntraId.FirstKeyAt | app/entraid/entraid.py:74-80 | no key is chosen exactly when no published key's `kid` equals the header's; otherwise the first match is chosen |
| EntraId.FindSigningKey | app/entraid/entraid.py:74-80 | the loop stops at the first key whose `kid` matches; it gives `None` exactly when none does |
| EntraId.MissingClaim | app/entraid/entraid.py:91 | finds nothing exactly when every required claim is present; otherwise names a required claim that is absent |
| EntraId.VerifyIdToken | app/entraid/entraid.py:84-94 | the id token is accepted exactly when the RS256 verifier, given the client id and the tenant issuer, succeeds with claims carrying `exp`, `iat`, `iss` and `aud`, and then with those claims; a verifier failure is passed on unchanged; a success lacking a required claim fails with `Token is missing the "k" claim` for an absent `k` |
| EntraId.AppClaims | app/entraid/entraid.py:101-109 | the minted claims have exactly six keys: `tid`, `oid`, `name` and `preferred_username` are copied (null when absent), `iat` is now and `exp` is one hour later |
| EntraId.StateRefused | app/entraid/entraid.py:48 | definition: the guard as written; its meaning is in `StateAcceptedIff` |
| EntraId.StateAcceptedIff | app/entraid/entraid.py:47-49 | the state check passes exactly when the stored state is present and non-empty and the returned state equals it |
| EntraId.SessionAfterLogin | app/entraid/entraid.py:20-25 | login stores the destination (default `/chat`) and the state, and changes no other entry |
| EntraId.SessionAfterCallback | app/entraid/entraid.py:123-125 | on success `oidc_state` and `next` are removed and every other entry is kept; on any refusal the session is unchanged |
| EntraId.BrowserSession.Login | app/entraid/entraid.py:20-38 | updates the session as login does, returns the authorize parameters, and the stored state is the state sent to the provider |
| EntraId.BrowserSession.Callback | app/entraid/entraid.py:40-127 | the early-return handler gives the guard chain's answer and leaves the session as the chain's outcome dictates |
| EntraId.ProviderErrorFirst | app/entraid/entraid.py:42-43 | a provider error is answered with 400 `Entra error: <e>` before any other check, and the session is unchanged |
| EntraId.MissingCodeRejected | app/entraid/entraid.py:44-45 | without a code the answer is 400 `Missing code` |
| EntraId.RefusedStateNeverExchanges | app/entraid/entraid.py:47-61 | a refused state gives 400 `Invalid state`, and the answer does not depend on the provider or the clock, so no code is exchanged |
| EntraId.RefusalStatus | app/entraid/entraid.py:40-98 | every refusal is plain text; a 403 is given exactly when the id token verified but names another tenant; all other refusals are 400 |
| EntraId.Verified | app/entraid/entraid.py:40-94 | definition: the guard chain up to the id token's verification, with its 400 answers in order; properties in `ProviderErrorFirst`, `MissingCodeRejected`, `RefusedStateNeverExchanges`, `AcceptedIff` |
| EntraId.Decide | app/entraid/entraid.py:96-109 | definition: the tenant check (403) and the minted claims; properties in `MintedClaims`, `AcceptedIff`, `RefusalStatus` |
| EntraId.CallbackReply | app/entraid/entraid.py:40-127 | definition: the refusal, or the 302 to the stored destination setting `cl_auth`; properties in `SuccessRedirects`, `RefusalStatus`, `BrowserSession.Callback` |
| EntraId.AcceptedIff | app/entraid/entraid.py:40-109 | a cookie is minted exactly when all hold: no error, a code, the stored state echoed back, a 200 exchange with an id token, a published key matching the token's `kid`, and a verification to claims of the configured tenant; the minted claims are derived from those claims |
| EntraId.AcceptsOnlyFirstKey | app/entraid/entraid.py:74-80 | only the first matching key is tried; with none, no claims are accepted |
| EntraId.MintedClaims | app/entraid/entraid.py:101-109 | the minted claims name the configured tenant, are issued now, expire in an hour, are live exactly during that hour, and are gate-readable (no `aud`, integer times) |
| EntraId.SuccessRedirects | app/entraid/entraid.py:112-121 | on success the answer is a 302 to the stored destination (default `/chat`) that sets `cl_auth` to the minted token, http-only, SameSite lax, not secure, path `/` |
| EntraId.LoginStatePasses | app/entraid/entraid.py:24-25 | the state stored by login, once returned by the provider, passes the callback's state check |
| EntraId.ReplayRefused | app/entraid/entraid.py:123-125 | after a successful callback, the same callback again is refused with `Invalid state`, whatever the provider and clock |
| LoginRoundTrip.MintedToken | app/entraid/entraid.py:110 | the cookie set on success is the minted claims signed with the session secret |
| LoginRoundTrip.AuthCookieNamePlain | app/auth_middleware.py:14 | the gate's default cookie name is the name the callback sets, and the header parser can find it |
| LoginRoundTrip.MintedCookieFound | app/auth_middleware.py:39-48 | the header `cl_auth=<token>` gives back any compact token |
| LoginRoundTrip.BrowserCookies | app/auth_middleware.py:39-48 | next to another plain cookie such as the session cookie, in either order, the header still yields the `cl_auth` token |
| LoginRoundTrip.SignedCookieAdmitted | app/auth_middleware.py:95-106 | a cookie signed with the gate's secret, when the library accepts that secret as an HMAC key, over gate-readable live claims with `exp` and the gate's tenant, verifies to those claims; every request whose header of plain cookies has it as the first `cl_auth` is forwarded |
| LoginRoundTrip.StaleCookieRefused | app/auth_middleware.py:95-104 | a signed cookie whose gate-readable claims are no longer live does not verify, and a WebSocket to a protected path whose header has it as the first `cl_auth` is closed with 4401 |
| LoginRoundTrip.MintedCookieAdmitted | app/entraid/entraid.py:101-121 | for a session secret the library accepts as an HMAC key, during the hour after the callback, a matching gate accepts the minted cookie with the minted claims, and forwards every request whose header of plain cookies (the session cookie included) has it as the first `cl_auth` |
| LoginRoundTrip.MintedCookieExpires | app/entraid/entraid.py:108 | from one hour after the callback on, the minted cookie is refused, and a WebSocket whose header has it as the first `cl_auth` is closed with 4401 |
| LoginRoundTrip.OtherSecretRefused | app/auth_middleware.py:50-66 | a gate whose secret is a different HMAC key from the session secret never accepts a minted cookie |
| LoginRoundTrip.OtherTenantRefused | app/auth_middleware.py:59-61 | a gate for a different tenant never accepts a minted cookie, whatever its secret |

## Left out

- The cryptography of HS256 and RS256 is not modelled. Signing and verifying are function parameters. The gate's properties assume only `Jwt.Sound`, and the callback's properties assume nothing about the verifier.
- The network is not modelled: the token POST, the JWKS download (`_get_jwks`, entraid.py:17-18) and their 10-second timeouts. The token endpoint's answer and the published key list are inputs.
- `secrets.token_bytes(16)` and `time.time()` are not modelled. The random bytes and the current time are parameters. The callback uses one `now` both for verifying the id token and for minting the claims.
- The authorize URL at entraid.py:37 is not modelled: how `requests` URL-encodes the query parameters onto the authorize endpoint. `EntraId.AuthorizeParams` models the parameters themselves.
- Starlette's percent-quoting of the redirect URL into the `Location` header is not modelled. `AuthMiddleware.Handle` gives the URL passed to `RedirectResponse`.
- ASGI plumbing is not modelled: `_cookie_header` (reading and UTF-8 decoding the raw `Cookie` header), `send`, and calling the wrapped app. A request's scope is modelled as its type, path, query string and cookie header text. The outcome is forward, redirect or close.
- Uncaught exceptions are not modelled. They end the request with a server error, which the model does not represent. In the source they are:
  - in the gate, a scope without `type` (auth_middleware.py:69);
  - in the gate, a query string that is not valid UTF-8, whose strict `.decode()` (auth_middleware.py:83) runs on every protected request before the cookie is checked. `AuthMiddleware.Handle` forwards such a request when its cookie verifies;
  - in the callback, `jwt.encode` (entraid.py:110) with a `SESSION_SECRET` the library refuses as an HMAC key (see `Jwt.Hs256`). This fails after every guard has passed, and the session keeps `oidc_state` and `next`. `EntraId.CallbackReply`, `EntraId.SuccessRedirects` and `EntraId.BrowserSession.Callback` answer the 302 with the cookie instead;
  - in the callback, a non-JSON token response, a JWKS body or key entry that is not a JSON object (entraid.py:75-76), an unparseable token header, and a malformed JWK.
- LoginRoundTrip.OtherSecretRefused: stated only for secrets that `Jwt.DistinctHmacKeys` calls different. A secret that equals the session secret once trailing NULs are dropped is the same HMAC key, and the library would accept the cookie. A short secret that equals a long secret's SHA-256 digest is not covered either. The long-key case takes SHA-256 as collision-free.
- `Jwt.Sound` does not describe how the library decodes claims carrying `aud` or non-integer times (see `Jwt.GateReadable`). The gate lemmas of `LoginRoundTrip` are stated for gate-readable claims only; the minted claims are gate-readable.
- Cookie headers are modelled as text. The round-trip lemmas read the header a browser builds from plain cookies (`AuthMiddleware.Header`); headers with other shapes are covered by `AuthMiddleware.ExtractCookie` and `AuthMiddleware.FirstMatchAt`, not by the round trip.
- `EntraId.VerifyIdToken`: the model checks the required claims after the verifier has succeeded. PyJWT checks them before its time, issuer and audience checks, so when several checks fail the error text can differ. Acceptance is the same.
- `EntraId.BrowserSession.Login`: `next` is optional, and absence means the `/chat` default. A caller passing Python `None` directly is not modelled: it would store `None` as the destination.
- A tenant of `None` is not modelled: the tenant id is a string. This case arises when the environment variable is unset.
- Claim values are modelled as JSON strings, integers and null. Other JSON types are not modelled.
- `app/config.py` is not part of this model beyond `PUBLIC_PATHS`. Neither are `app/crud`, `app/db`, the application entry point and the chat app `cl_app`.
