/**
 * JSON Web Tokens as the authentication layer sees them. The claim set is a
 * JSON object; signing and verifying are library calls, so they appear here
 * only as function values together with the properties the layer relies on.
 */
module Jwt {
  import opened Wrappers
  import Base64Url
  import opened PyStr

  /** The JSON values a claim can hold, as far as this layer distinguishes them. */
  datatype Json = JStr(s: string) | JInt(i: int) | JNull

  /** A decoded JWT payload. */
  type Claims = map<string, Json>

  /** `claims.get(k)` placed into a new JSON object: a missing claim becomes `null`. */
  function GetOrNull(c: Claims, k: string): (v: Json)
    ensures k in c ==> v == c[k]
    ensures k !in c ==> v == JNull
  {
    Get(c, k).GetOr(JNull)
  }

  /**
   * The time checks a JWT library performs on decoding: `exp` must lie in
   * the future, `iat` and `nbf` must not; each, when present, must be an
   * integer.
   */
  predicate Live(c: Claims, now: int) {
    && ("exp" in c ==> c["exp"].JInt? && now < c["exp"].i)
    && ("iat" in c ==> c["iat"].JInt? && c["iat"].i <= now)
    && ("nbf" in c ==> c["nbf"].JInt? && c["nbf"].i <= now)
  }

  /** A compact JWS (section 7.1 of RFC 7515): base64url segments joined by `.`. */
  predicate IsCompact(t: string) {
    t != [] && forall k :: 0 <= k < |t| ==> Base64Url.IsUrlSafe(t[k]) || t[k] == '.'
  }

  /**
   * HS256 signing (`jwt.encode(claims, key, algorithm="HS256")`) and
   * verifying decoding at a given time (`jwt.decode(token, key,
   * algorithms=["HS256"])`, `None` for any exception it raises), and which
   * strings the library takes as an HMAC key at all: it refuses one holding
   * a PEM block or an SSH public-key marker (`ssh-rsa` and the like), and
   * then both calls raise.
   */
  datatype Hs256 = Hs256(encode: (Claims, string) -> string, decode: (string, string, int) -> Option<Claims>,
                         acceptsKey: string -> bool)

  /**
   * Claims whose decoding by the gate's call (no `audience` passed, the
   * library's default time checks) `Live` describes: they carry no `aud`
   * claim, which the library refuses when no audience is expected, and
   * their `exp`, `iat` and `nbf`, where present, are integers (the library
   * also reads numeric strings, which `Live` does not); and their `sub` and
   * `jti`, where present, are strings (PyJWT 2.10 and later refuses other
   * types).
   */
  predicate GateReadable(c: Claims) {
    && "aud" !in c
    && ("exp" in c ==> c["exp"].JInt?)
    && ("iat" in c ==> c["iat"].JInt?)
    && ("nbf" in c ==> c["nbf"].JInt?)
    && ("sub" in c ==> c["sub"].JStr?)
    && ("jti" in c ==> c["jti"].JStr?)
  }

  /** The number of bytes of `s` in UTF-8. */
  function Utf8Length(s: string): (n: nat)
    ensures n >= |s|
  {
    if s == [] then 0
    else
      var c := s[0] as int;
      (if c < 0x80 then 1 else if c < 0x800 then 2 else if c < 0x1_0000 then 3 else 4) + Utf8Length(s[1..])
  }

  /** HMAC-SHA256's block size in bytes: shorter keys are padded with NUL bytes to it, longer ones hashed. */
  const HmacBlockSize := 64

  /** `k` as HMAC pads it: the trailing NULs make no difference. */
  function HmacPadded(k: string): string {
    RStripChar(k, 0 as char)
  }

  /**
   * Two secrets that are certainly different HMAC-SHA256 keys: both fit in
   * a block and still differ once the NUL padding is ignored, or both are
   * longer than a block (and so hashed) and differ, SHA-256 being taken as
   * collision-free. A short secret and a long one are not compared: the
   * short one could equal the long one's digest.
   */
  predicate DistinctHmacKeys(a: string, b: string) {
    || (Utf8Length(a) <= HmacBlockSize && Utf8Length(b) <= HmacBlockSize && HmacPadded(a) != HmacPadded(b))
    || (Utf8Length(a) > HmacBlockSize && Utf8Length(b) > HmacBlockSize && a != b)
  }

  /**
   * What the layer assumes of the library: tokens signed with an accepted
   * key are compact; a token over gate-readable claims decodes with its
   * own accepted key to the claims it was signed with exactly while those
   * claims are live (nothing is assumed for other claims); nothing decodes
   * with a refused key; whatever key it is decoded with, such a token yields
   * nothing or the claims it was signed with, never other ones; and a token
   * never decodes with a key that is a different HMAC key from the one it
   * was signed with.
   */
  ghost predicate Sound(h: Hs256) {
    && (forall c, key :: h.acceptsKey(key) ==> IsCompact(h.encode(c, key)))
    && (forall c, key, now :: GateReadable(c) && h.acceptsKey(key) ==>
          h.decode(h.encode(c, key), key, now) == if Live(c, now) then Some(c) else None)
    && (forall c, key, other, now :: GateReadable(c) ==>
          h.decode(h.encode(c, key), other, now).None? || h.decode(h.encode(c, key), other, now) == Some(c))
    && (forall token, key, now :: !h.acceptsKey(key) ==> h.decode(token, key, now) == None)
    && (forall c, key, other, now :: DistinctHmacKeys(key, other) ==> h.decode(h.encode(c, key), other, now) == None)
  }
}
