/**
 * `AuthGate`, the request gate in front of the chat application. Every HTTP
 * or WebSocket request to a path that is not public must carry a cookie
 * holding an HS256 token for the configured tenant; without one an HTTP
 * request is redirected to the login page and a WebSocket is closed with
 * code 4401. The gate's fields are set once, at construction, so the gate is
 * a value here.
 */
module AuthMiddleware {
  import opened Wrappers
  import opened PyStr
  import opened Jwt

  const DefaultCookieName := "cl_auth"
  const LoginPath := "/login"
  const UnauthorizedClose := 4401
  const MissingSecretMessage := "AuthGate requires jwt_secret (set SESSION_SECRET)."

  datatype Gate = Gate(tenantId: string, publicPaths: set<string>, cookieName: string, jwtSecret: string)

  /** A gate that construction let through. */
  predicate Valid(g: Gate) {
    g.jwtSecret != ""
  }

  /** `set(public_paths or [])`. */
  function PathSet(publicPaths: Option<seq<string>>): set<string> {
    match publicPaths
    case None => {}
    case Some(ps) => set p | p in ps
  }

  /** `AuthGate.__init__`: refuses to build a gate without a signing secret. */
  function NewGate(tenantId: string, publicPaths: Option<seq<string>>, cookieName: string, jwtSecret: string)
    : (r: Result<Gate, string>)
    ensures r.Success? <==> jwtSecret != ""
    ensures r.Success? ==> Valid(r.value)
    ensures r.Success? ==> (r.value.tenantId == tenantId && r.value.cookieName == cookieName
                            && r.value.jwtSecret == jwtSecret)
    ensures r.Success? ==> forall p :: p in r.value.publicPaths <==> publicPaths.Some? && p in publicPaths.value
    ensures r.Failure? ==> r.error == MissingSecretMessage
  {
    var g := Gate(tenantId, PathSet(publicPaths), cookieName, jwtSecret);
    if g.jwtSecret == "" then Failure(MissingSecretMessage) else Success(g)
  }

  // ---------------------------------------------------------------------------
  // Public paths

  /** `p.rstrip("/") + "/"`: the directory prefix a public path stands for. */
  function DirPrefix(p: string): string {
    RStripChar(p, '/') + "/"
  }

  /** `_is_public`: an exact member of the public set, or below one of them as a directory. */
  predicate IsPublic(g: Gate, path: string) {
    path in g.publicPaths || exists p :: p in g.publicPaths && StartsWith(path, DirPrefix(p))
  }

  /** Every listed path is public. */
  lemma ListedPathIsPublic(g: Gate, p: string)
    requires p in g.publicPaths
    ensures IsPublic(g, p)
  {
  }

  /** Everything below a listed path, as a directory, is public too, with or without a trailing `/` on the entry. */
  lemma SubPathIsPublic(g: Gate, p: string, suffix: string)
    requires p in g.publicPaths
    ensures IsPublic(g, p + "/" + suffix)
    ensures IsPublic(g, DirPrefix(p) + suffix)
  {
    assert (DirPrefix(p) + suffix)[..|DirPrefix(p)|] == DirPrefix(p);
    var q := RStripChar(p, '/');
    var path := p + "/" + suffix;
    assert path[..|q|] == q by { assert p[..|q|] == q; }
    assert path[|q|] == '/' by {
      if |q| < |p| { assert path[|q|] == p[|q|]; } else { assert path[|p|] == '/'; }
    }
    assert path[..|q| + 1] == q + "/";
    assert StartsWith(path, DirPrefix(p));
  }

  /** A path that is neither listed nor below a listed directory is protected. */
  lemma UnlistedPathIsProtected(g: Gate, path: string)
    requires path !in g.publicPaths
    requires forall p :: p in g.publicPaths ==> !StartsWith(path, DirPrefix(p))
    ensures !IsPublic(g, path)
  {
  }

  /** A public root `/` (or an empty entry) opens every absolute path. */
  lemma RootEntryOpensEverything(g: Gate, root: string, path: string)
    requires root in g.publicPaths
    requires forall k :: 0 <= k < |root| ==> root[k] == '/'
    requires |path| >= 1 && path[0] == '/'
    ensures IsPublic(g, path)
  {
    assert DirPrefix(root) == "/";
    assert path[..1] == "/";
  }

  // ---------------------------------------------------------------------------
  // Cookie header parsing

  /** A cookie segment that holds a `=`. */
  type Part = p: string | '=' in p witness "="

  /** `[p.strip() for p in segments if "=" in p]`. */
  function KeepPairs(segments: seq<string>): (parts: seq<Part>)
    ensures |parts| <= |segments|
  {
    if segments == [] then []
    else
      var rest := KeepPairs(segments[1..]);
      if '=' in segments[0] then StripKeeps(segments[0], '='); [Strip(segments[0])] + rest else rest
  }

  /** A single segment is kept, stripped, exactly when it holds a `=`. */
  lemma KeepPairsSingle(segment: string)
    ensures KeepPairs([segment]) == if '=' in segment then [Strip(segment)] else []
  {
    assert [segment][1..] == [];
  }

  /**
   * The filter works segment by segment: on a concatenation it gives the
   * kept segments of each half, in order. With `KeepPairsSingle` this says
   * the result is exactly the stripped `=`-segments in their order.
   */
  lemma {:induction false} KeepPairsAppend(a: seq<string>, b: seq<string>)
    ensures KeepPairs(a + b) == KeepPairs(a) + KeepPairs(b)
    decreases |a|
  {
    if a == [] {
      assert a + b == b;
    } else {
      assert (a + b)[0] == a[0];
      assert (a + b)[1..] == a[1..] + b;
      KeepPairsAppend(a[1..], b);
      if '=' in a[0] {
        assert KeepPairs(a + b) == [Strip(a[0])] + (KeepPairs(a[1..]) + KeepPairs(b));
        assert KeepPairs(a) == [Strip(a[0])] + KeepPairs(a[1..]);
      }
    }
  }

  /** The `key=value` segments of a raw `Cookie` header, trimmed. */
  function CookieParts(cookieHeader: string): seq<Part> {
    KeepPairs(Split(cookieHeader, ';'))
  }

  /** A segment's trimmed key and trimmed value. */
  datatype Entry = Entry(key: string, value: string)

  /** `k, v = p.split("=", 1)`, then `k.strip()` and `v.strip()`. */
  function EntryOf(part: Part): Entry {
    var kv := SplitFirst(part, '=');
    Entry(Strip(kv.0), Strip(kv.1))
  }

  /** The trimmed key and value of every part, in order. */
  function Entries(parts: seq<Part>): (es: seq<Entry>)
    ensures |es| == |parts|
  {
    if parts == [] then [] else [EntryOf(parts[0])] + Entries(parts[1..])
  }

  /** The value of the first entry whose key is `name`. */
  function FirstMatch(es: seq<Entry>, name: string): Option<string> {
    if es == [] then None
    else if es[0].key == name then Some(es[0].value)
    else FirstMatch(es[1..], name)
  }

  /** `_extract_cookie(cookie_header, name)`, as a value. */
  function CookieValue(cookieHeader: string, name: string): Option<string> {
    FirstMatch(Entries(CookieParts(cookieHeader)), name)
  }

  /** The first match, in terms of positions: found exactly when some key is `name`, and then at the first such entry. */
  lemma {:induction false} FirstMatchAt(es: seq<Entry>, name: string)
    ensures FirstMatch(es, name).None? <==> forall i :: 0 <= i < |es| ==> es[i].key != name
    ensures FirstMatch(es, name).Some? ==>
      exists i :: 0 <= i < |es| && es[i] == Entry(name, FirstMatch(es, name).value)
               && forall j :: 0 <= j < i ==> es[j].key != name
  {
    if es != [] && es[0].key != name {
      var rest := es[1..];
      FirstMatchAt(rest, name);
      if FirstMatch(rest, name).Some? {
        var i :| 0 <= i < |rest| && rest[i] == Entry(name, FirstMatch(rest, name).value)
                 && forall j :: 0 <= j < i ==> rest[j].key != name;
        assert es[i + 1] == rest[i];
        assert forall j :: 0 <= j < i + 1 ==> es[j].key != name by {
          forall j | 0 <= j < i + 1 ensures es[j].key != name {
            if j > 0 { assert es[j] == rest[j - 1]; }
          }
        }
      } else {
        forall i | 0 <= i < |es| ensures es[i].key != name {
          if i > 0 { assert es[i] == rest[i - 1]; }
        }
      }
    }
  }

  /** `_extract_cookie`: scans the parts in order and returns at the first key equal to `name`. */
  method ExtractCookie(cookieHeader: string, name: string) returns (r: Option<string>)
    ensures r == CookieValue(cookieHeader, name)
    ensures r.None? <==> forall i :: 0 <= i < |CookieParts(cookieHeader)| ==> EntryOf(CookieParts(cookieHeader)[i]).key != name
  {
    var parts := CookieParts(cookieHeader);
    var i := 0;
    while i < |parts|
      invariant 0 <= i <= |parts|
      invariant FirstMatch(Entries(parts), name) == FirstMatch(Entries(parts[i..]), name)
      invariant forall j :: 0 <= j < i ==> EntryOf(parts[j]).key != name
    {
      assert parts[i..][0] == parts[i] && parts[i..][1..] == parts[i + 1..];
      var kv := SplitFirst(parts[i], '=');
      if Strip(kv.0) == name {
        return Some(Strip(kv.1));
      }
      i := i + 1;
    }
    assert parts[i..] == [];
    return None;
  }

  /** Splitting `key=value` at its `=` when neither side contains one. */
  lemma SplitFirstAt(k: string, v: string)
    requires '=' !in k
    ensures SplitFirst(k + "=" + v, '=') == (k, v)
  {
    var kv := SplitFirst(k + "=" + v, '=');
    assert (k + "=" + v)[|k|] == '=';
    assert (k + "=" + v)[..|k|] == k;
    assert |kv.0| == |k|;
  }

  /** Stripping one leading blank from a string that has no other outer whitespace. */
  lemma StripOneBlank(t: string)
    requires t != [] && !IsSpace(t[0]) && !IsSpace(t[|t| - 1])
    ensures Strip(" " + t) == t
  {
    assert (" " + t)[1..] == t;
    StripUnchanged(t);
  }

  /** A segment whose trimmed form is `t` contributes `t`. */
  lemma KeepPairsCons(seg: string, t: Part, rest: seq<string>)
    requires '=' in seg && Strip(seg) == t
    ensures KeepPairs([seg] + rest) == [t] + KeepPairs(rest)
  {
    assert ([seg] + rest)[1..] == rest;
  }

  /** A cookie name as browsers send it: no outer whitespace, no `;` and no `=`. */
  predicate PlainName(k: string) {
    k != [] && !IsSpace(k[0]) && !IsSpace(k[|k| - 1]) && ';' !in k && '=' !in k
  }

  /** A cookie value without outer whitespace or `;` (it may contain `=`). */
  predicate PlainValue(v: string) {
    v != [] && !IsSpace(v[0]) && !IsSpace(v[|v| - 1]) && ';' !in v
  }

  /** A compact token is a plain cookie value. */
  lemma CompactIsPlainValue(t: string)
    requires IsCompact(t)
    ensures PlainValue(t)
  {
    assert Base64Url.IsUrlSafe(t[0]) || t[0] == '.';
    assert Base64Url.IsUrlSafe(t[|t| - 1]) || t[|t| - 1] == '.';
  }

  /** A `name=value` segment, bare or after one blank, holds no `;`. */
  lemma PairNoSemicolon(k: string, v: string)
    requires PlainName(k) && PlainValue(v)
    ensures ';' !in k + "=" + v && ';' !in " " + (k + "=" + v)
  {
    var p := k + "=" + v;
    assert ';' !in p by {
      forall i | 0 <= i < |p| ensures p[i] != ';' {
        if i < |k| { assert p[i] == k[i]; } else if i > |k| { assert p[i] == v[i - |k| - 1]; }
      }
    }
    assert ';' !in " " + p by {
      forall i | 0 <= i < |" " + p| ensures (" " + p)[i] != ';' {
        if i > 0 { assert (" " + p)[i] == p[i - 1]; }
      }
    }
  }

  /** A `name=value` segment, bare or after one blank, trims to itself. */
  lemma PairStrips(k: string, v: string)
    requires PlainName(k) && PlainValue(v)
    ensures '=' in k + "=" + v
    ensures Strip(k + "=" + v) == k + "=" + v && Strip(" " + (k + "=" + v)) == k + "=" + v
  {
    var p := k + "=" + v;
    assert p[|k|] == '=';
    assert p[0] == k[0] && p[|p| - 1] == v[|v| - 1];
    StripUnchanged(p);
    StripOneBlank(p);
  }

  /** The entry of one `name=value` segment. */
  lemma PairEntry(k: string, v: string)
    requires PlainName(k) && PlainValue(v)
    ensures '=' in k + "=" + v
    ensures EntryOf(k + "=" + v) == Entry(k, v)
  {
    assert (k + "=" + v)[|k|] == '=';
    SplitFirstAt(k, v);
    StripUnchanged(k);
    StripUnchanged(v);
  }



  /** The search passes over a first part whose key is not `name`. */
  lemma FirstMatchSkip(a: Part, rest: seq<Part>, name: string)
    requires EntryOf(a).key != name
    ensures FirstMatch(Entries([a] + rest), name) == FirstMatch(Entries(rest), name)
  {
    assert ([a] + rest)[1..] == rest;
  }

  /** The search stops at a first part whose key is `name`. */
  lemma FirstMatchHit(a: Part, rest: seq<Part>, name: string)
    requires EntryOf(a).key == name
    ensures FirstMatch(Entries([a] + rest), name) == Some(EntryOf(a).value)
  {
  }

  /** A cookie as a browser sends it in the `Cookie` header. */
  datatype Cookie = Cookie(name: string, value: string)

  predicate Plain(c: Cookie) {
    PlainName(c.name) && PlainValue(c.value)
  }

  /** `name=value`. */
  function CookieText(c: Cookie): string {
    c.name + "=" + c.value
  }

  /** The `Cookie` header a browser sends for `cs`: the pairs joined by `; ` (section 4.2.1 of RFC 6265). */
  function Header(cs: seq<Cookie>): string {
    if cs == [] then "" else CookieText(cs[0]) + MoreCookies(cs[1..])
  }

  /** `; name=value` for each further cookie. */
  function MoreCookies(cs: seq<Cookie>): string {
    if cs == [] then "" else "; " + CookieText(cs[0]) + MoreCookies(cs[1..])
  }

  /** The value of the first cookie called `name`. */
  function Lookup(cs: seq<Cookie>, name: string): Option<string> {
    if cs == [] then None
    else if cs[0].name == name then Some(cs[0].value)
    else Lookup(cs[1..], name)
  }

  /** The segments after the first one, each with its leading blank. */
  function Spaced(cs: seq<Cookie>): seq<string> {
    if cs == [] then [] else [" " + CookieText(cs[0])] + Spaced(cs[1..])
  }

  /** Splitting at `;` undoes the joining. */
  lemma {:induction false} SplitMore(a: string, cs: seq<Cookie>)
    requires ';' !in a
    requires forall i :: 0 <= i < |cs| ==> Plain(cs[i])
    ensures Split(a + MoreCookies(cs), ';') == [a] + Spaced(cs)
    decreases |cs|
  {
    if cs == [] {
      assert a + MoreCookies(cs) == a;
      SplitNone(a, ';');
    } else {
      var b := " " + CookieText(cs[0]);
      PairNoSemicolon(cs[0].name, cs[0].value);
      Regroup(a, CookieText(cs[0]), MoreCookies(cs[1..]));
      SplitCons(a, ';', b + MoreCookies(cs[1..]));
      SplitMore(b, cs[1..]);
    }
  }

  /** `a; t...` is `a`, the separator, and ` t...`. */
  lemma Regroup(a: string, t: string, more: string)
    ensures a + ("; " + t + more) == a + [';'] + ((" " + t) + more)
  {
    assert "; " == [';'] + " ";
  }

  /** A spaced segment of a plain cookie is kept as the cookie's text. */
  lemma KeepStep(c: Cookie, rest: seq<string>)
    requires Plain(c)
    ensures '=' in CookieText(c)
    ensures KeepPairs([" " + CookieText(c)] + rest) == [CookieText(c)] + KeepPairs(rest)
  {
    PairStrips(c.name, c.value);
    KeepPairsCons(" " + CookieText(c), CookieText(c), rest);
  }

  /** The search looks at a plain cookie's own name and value. */
  lemma SearchStep(c: Cookie, rest: seq<Part>, name: string)
    requires Plain(c)
    ensures '=' in CookieText(c)
    ensures FirstMatch(Entries([CookieText(c)] + rest), name)
         == if c.name == name then Some(c.value) else FirstMatch(Entries(rest), name)
  {
    PairEntry(c.name, c.value);
    if c.name == name {
      FirstMatchHit(CookieText(c), rest, name);
    } else {
      FirstMatchSkip(CookieText(c), rest, name);
    }
  }

  /** Searching the kept spaced segments is looking the name up in the cookies. */
  lemma {:induction false} SearchSpaced(cs: seq<Cookie>, name: string)
    requires forall i :: 0 <= i < |cs| ==> Plain(cs[i])
    ensures FirstMatch(Entries(KeepPairs(Spaced(cs))), name) == Lookup(cs, name)
    decreases |cs|
  {
    if cs != [] {
      KeepStep(cs[0], Spaced(cs[1..]));
      SearchStep(cs[0], KeepPairs(Spaced(cs[1..])), name);
      SearchSpaced(cs[1..], name);
    }
  }

  /** The parts of a non-empty header: the first cookie's text, then the kept spaced segments. */
  lemma HeaderParts(cs: seq<Cookie>)
    requires cs != [] && forall i :: 0 <= i < |cs| ==> Plain(cs[i])
    ensures '=' in CookieText(cs[0])
    ensures CookieParts(Header(cs)) == [CookieText(cs[0])] + KeepPairs(Spaced(cs[1..]))
  {
    var t := CookieText(cs[0]);
    PairNoSemicolon(cs[0].name, cs[0].value);
    PairStrips(cs[0].name, cs[0].value);
    SplitMore(t, cs[1..]);
    KeepPairsCons(t, t, Spaced(cs[1..]));
  }

  /**
   * Reading a cookie back from the header a browser builds gives the value
   * of the first cookie of that name: segments are split at `;`, trimmed,
   * and searched in order.
   */
  lemma HeaderLookup(cs: seq<Cookie>, name: string)
    requires forall i :: 0 <= i < |cs| ==> Plain(cs[i])
    ensures CookieValue(Header(cs), name) == Lookup(cs, name)
  {
    if cs == [] {
      EmptyHeaderHasNoCookie(name);
    } else {
      HeaderParts(cs);
      SearchStep(cs[0], KeepPairs(Spaced(cs[1..])), name);
      SearchSpaced(cs[1..], name);
    }
  }

  /** A header carrying exactly one cookie, `name=value`, yields the value. */
  lemma SingleCookie(name: string, value: string)
    requires PlainName(name) && PlainValue(value)
    ensures CookieValue(name + "=" + value, name) == Some(value)
  {
    var cs := [Cookie(name, value)];
    HeaderLookup(cs, name);
    assert Header(cs) == name + "=" + value by {
      assert MoreCookies(cs[1..]) == "";
    }
  }

  /** The cookies of the scenario header. */
  const ScenarioCookies: seq<Cookie> := [Cookie("a", "1"), Cookie("cl_auth", "XYZ"), Cookie("b", "2")]

  lemma ScenarioHeader()
    ensures Header(ScenarioCookies) == "a=1; cl_auth=XYZ; b=2"
  {
    var cs := ScenarioCookies;
    assert MoreCookies(cs[3..]) == "";
    assert MoreCookies(cs[2..]) == "; b=2";
    assert MoreCookies(cs[1..]) == "; cl_auth=XYZ; b=2";
  }

  lemma ScenarioPlain()
    ensures forall i :: 0 <= i < |ScenarioCookies| ==> Plain(ScenarioCookies[i])
  {
  }

  lemma ScenarioLookup()
    ensures Lookup(ScenarioCookies, "cl_auth") == Some("XYZ")
  {
    assert ScenarioCookies[1..][0].name == "cl_auth";
  }

  /** Scenario: `a=1; cl_auth=XYZ; b=2` yields `XYZ` for `cl_auth`. */
  lemma CookieScenario()
    ensures CookieValue("a=1; cl_auth=XYZ; b=2", "cl_auth") == Some("XYZ")
  {
    ScenarioPlain();
    HeaderLookup(ScenarioCookies, "cl_auth");
    ScenarioHeader();
    ScenarioLookup();
  }

  /** The header `k=a=b`, assembled from its one cookie. */
  lemma EqualsHeader()
    ensures "k" + "=" + "a=b" == "k=a=b"
  {
  }

  /** Only the first `=` separates: a value may itself contain `=`. */
  lemma ValueMayContainEquals()
    ensures CookieValue("k=a=b", "k") == Some("a=b")
  {
    SingleCookie("k", "a=b");
    EqualsHeader();
  }

  /** A header without any `name=` segment yields nothing. */
  lemma EmptyHeaderHasNoCookie(name: string)
    ensures CookieValue("", name) == None
  {
    SplitNone("", ';');
  }

  // ---------------------------------------------------------------------------
  // Token verification

  /**
   * `_verify_auth_cookie`: the payload of an HS256 token signed with the
   * gate's secret, provided it carries `exp` (the `require` option) and the
   * gate's tenant as `tid`; `None` on every failure alike.
   */
  function VerifyAuthCookie(g: Gate, h: Hs256, token: string, now: int): (r: Option<Claims>)
    ensures r.Some? ==> h.decode(token, g.jwtSecret, now) == r
    ensures r.Some? ==> "exp" in r.value && Get(r.value, "tid") == Some(JStr(g.tenantId))
    ensures r.None? <==> (h.decode(token, g.jwtSecret, now).None?
                          || "exp" !in h.decode(token, g.jwtSecret, now).value
                          || Get(h.decode(token, g.jwtSecret, now).value, "tid") != Some(JStr(g.tenantId)))
  {
    match h.decode(token, g.jwtSecret, now)
    case None => None
    case Some(payload) =>
      if "exp" !in payload then None
      else if Get(payload, "tid") != Some(JStr(g.tenantId)) then None
      else Some(payload)
  }

  /** A token without `exp` is refused even when its signature, time and tenant are right. */
  lemma MissingExpRejected(g: Gate, h: Hs256, token: string, now: int)
    requires h.decode(token, g.jwtSecret, now).Some?
    requires "exp" !in h.decode(token, g.jwtSecret, now).value
    ensures VerifyAuthCookie(g, h, token, now) == None
  {
  }

  /** A token for another tenant is refused. */
  lemma WrongTenantRejected(g: Gate, h: Hs256, token: string, now: int)
    requires h.decode(token, g.jwtSecret, now).Some?
    requires Get(h.decode(token, g.jwtSecret, now).value, "tid") != Some(JStr(g.tenantId))
    ensures VerifyAuthCookie(g, h, token, now) == None
  {
  }

  // ---------------------------------------------------------------------------
  // Request handling

  /** An ASGI connection scope: its type, path, query string and raw `Cookie` header. */
  datatype Scope = Scope(kind: string, path: Option<string>, queryString: string, cookieHeader: string)

  /** What the gate does with a request. */
  datatype Outcome = Forward | Redirect(location: string) | Close(code: int)

  /** The two channel kinds the gate secures. */
  predicate Secured(kind: string) {
    kind == "http" || kind == "websocket"
  }

  /** `next_url`: the original path, with `?` and the query string only when there is one. */
  function NextUrl(path: string, queryString: string): string {
    if queryString != "" then path + "?" + queryString else path
  }

  /** The refusal: a redirect to the login page for HTTP, close code 4401 for a WebSocket. */
  function Deny(kind: string, nextUrl: string): Outcome {
    if kind == "http" then Redirect(LoginPath + "?next=" + nextUrl) else Close(UnauthorizedClose)
  }

  /** The request carries a non-empty gate cookie that verifies. */
  predicate Admitted(g: Gate, h: Hs256, s: Scope, now: int) {
    var raw := CookieValue(s.cookieHeader, g.cookieName);
    raw.Some? && raw.value != "" && VerifyAuthCookie(g, h, raw.value, now).Some?
  }

  /** `AuthGate.__call__`. */
  function Handle(g: Gate, h: Hs256, s: Scope, now: int): (r: Outcome)
    ensures !Secured(s.kind) ==> r == Forward
    ensures IsPublic(g, s.path.GetOr("")) ==> r == Forward
    ensures r == Forward <==> !Secured(s.kind) || IsPublic(g, s.path.GetOr("")) || Admitted(g, h, s, now)
    ensures r != Forward ==> r == Deny(s.kind, NextUrl(s.path.GetOr("/"), s.queryString))
  {
    if !Secured(s.kind) then Forward
    else if IsPublic(g, s.path.GetOr("")) then Forward
    else
      var raw := CookieValue(s.cookieHeader, g.cookieName);
      var nextUrl := NextUrl(s.path.GetOr("/"), s.queryString);
      if raw.None? || raw.value == "" then Deny(s.kind, nextUrl)
      else
        var claims := VerifyAuthCookie(g, h, raw.value, now);
        if claims.None? || claims.value == map[] then Deny(s.kind, nextUrl)
        else Forward
  }

  /**
   * The gate does not reveal why it refused: two requests that differ only
   * in their cookies, neither admitted, meet the same refusal, whether the
   * cookie was missing, empty, badly signed, expired or for another tenant.
   */
  lemma RefusalsIndistinguishable(g: Gate, h: Hs256, s1: Scope, s2: Scope, now: int)
    requires s1.(cookieHeader := s2.cookieHeader) == s2
    requires !Admitted(g, h, s1, now) && !Admitted(g, h, s2, now)
    ensures Handle(g, h, s1, now) == Handle(g, h, s2, now)
  {
  }

  /** The public paths configured for the application. */
  const PublicPaths: set<string> := {"/healthz", "/api/auth/login", "/api/auth/callback"}

  /** `/healthz` and what lies below it are public; `/healthzX`, `/api/sessions` and the gate's own `/login` are not. */
  lemma PublicPathScenarios(g: Gate)
    requires g.publicPaths == PublicPaths
    ensures IsPublic(g, "/healthz") && IsPublic(g, "/healthz/x")
    ensures !IsPublic(g, "/healthzX") && !IsPublic(g, "/api/sessions") && !IsPublic(g, LoginPath)
  {
    HealthzPublic(g);
    HealthzXNotPublic(g);
    SessionsNotPublic(g);
    LoginNotPublic(g);
  }

  /** The directory prefixes of the configured public paths. */
  lemma PublicPrefixes()
    ensures DirPrefix("/healthz") == "/healthz/"
    ensures DirPrefix("/api/auth/login") == "/api/auth/login/"
    ensures DirPrefix("/api/auth/callback") == "/api/auth/callback/"
  {
  }

  /** A path that is none of the public paths and lies under none of them is protected. */
  lemma NotPublicWhen(g: Gate, path: string)
    requires g.publicPaths == PublicPaths && path !in PublicPaths
    requires !StartsWith(path, "/healthz/") && !StartsWith(path, "/api/auth/login/")
    requires !StartsWith(path, "/api/auth/callback/")
    ensures !IsPublic(g, path)
  {
    PublicPrefixes();
  }

  lemma HealthzPublic(g: Gate)
    requires g.publicPaths == PublicPaths
    ensures IsPublic(g, "/healthz") && IsPublic(g, "/healthz/x")
  {
    PublicPrefixes();
    assert StartsWith("/healthz/x", DirPrefix("/healthz"));
  }

  lemma HealthzXNotPublic(g: Gate)
    requires g.publicPaths == PublicPaths
    ensures !IsPublic(g, "/healthzX")
  {
    assert !StartsWith("/healthzX", "/healthz/") by { assert "/healthzX"[8] != "/healthz/"[8]; }
    NotPublicWhen(g, "/healthzX");
  }

  /** `/api/sessions` is not under any public path. */
  lemma SessionsNotPublic(g: Gate)
    requires g.publicPaths == PublicPaths
    ensures !IsPublic(g, "/api/sessions")
  {
    assert !StartsWith("/api/sessions", "/healthz/") by { assert "/api/sessions"[1] != "/healthz/"[1]; }
    assert !StartsWith("/api/sessions", "/api/auth/login/") by { assert "/api/sessions"[5] != "/api/auth/login/"[5]; }
    assert !StartsWith("/api/sessions", "/api/auth/callback/") by { assert "/api/sessions"[5] != "/api/auth/callback/"[5]; }
    NotPublicWhen(g, "/api/sessions");
  }

  lemma LoginNotPublic(g: Gate)
    requires g.publicPaths == PublicPaths
    ensures !IsPublic(g, LoginPath)
  {
    NotPublicWhen(g, LoginPath);
  }

  /** Scenario: an HTTP request to `/api/sessions` without a cookie is sent to `/login?next=/api/sessions`. */
  lemma RedirectScenario(g: Gate, h: Hs256, now: int)
    requires g.publicPaths == PublicPaths
    ensures Handle(g, h, Scope("http", Some("/api/sessions"), "", ""), now) == Redirect("/login?next=/api/sessions")
  {
    SessionsNotPublic(g);
    NoCookieRedirects(g, h, "/api/sessions", now);
    SessionsNext();
  }

  lemma SessionsNext()
    ensures "/login?next=" + "/api/sessions" == "/login?next=/api/sessions"
  {
  }

  /** A browser request to a protected path without any cookie goes to the login page with the path as `next`. */
  lemma NoCookieRedirects(g: Gate, h: Hs256, path: string, now: int)
    requires !IsPublic(g, path)
    ensures Handle(g, h, Scope("http", Some(path), "", ""), now) == Redirect("/login?next=" + path)
  {
    EmptyHeaderHasNoCookie(g.cookieName);
    assert LoginPath + "?next=" + path == "/login?next=" + path;
  }


  /** The query string travels into `next` after a `?`. */
  lemma RedirectKeepsQuery(g: Gate, h: Hs256, path: string, qs: string, header: string, now: int)
    requires !IsPublic(g, path) && qs != ""
    requires !Admitted(g, h, Scope("http", Some(path), qs, header), now)
    ensures Handle(g, h, Scope("http", Some(path), qs, header), now) == Redirect("/login?next=" + path + "?" + qs)
  {
    var s := Scope("http", Some(path), qs, header);
    assert Handle(g, h, s, now) == Deny("http", NextUrl(path, qs));
    assert LoginPath + "?next=" + (path + "?" + qs) == "/login?next=" + path + "?" + qs;
  }
}
