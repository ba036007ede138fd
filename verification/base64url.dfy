/**
 * `_b64url`: base64 with the URL- and filename-safe alphabet of section 5 of
 * RFC 4648, with the trailing `=` padding stripped. The login step encodes its
 * 16 random state bytes this way. `Decode` is the inverse, given as the
 * partner of the encoder.
 */
module Base64Url {
  import opened Wrappers
  import opened PyStr

  type byte = x: int | 0 <= x < 256
  type sextet = x: int | 0 <= x < 64

  /** The 64 characters of the URL- and filename-safe alphabet (section 5 of RFC 4648). */
  predicate IsUrlSafe(c: char) {
    ('A' <= c <= 'Z') || ('a' <= c <= 'z') || ('0' <= c <= '9') || c == '-' || c == '_'
  }

  /** The character for a 6-bit value. */
  function Sym(v: sextet): (c: char)
    ensures IsUrlSafe(c)
  {
    if v < 26 then (65 + v) as char
    else if v < 52 then (97 + v - 26) as char
    else if v < 62 then (48 + v - 52) as char
    else if v == 62 then '-'
    else '_'
  }

  /** The 6-bit value of an alphabet character. */
  function Val(c: char): (v: sextet)
    requires IsUrlSafe(c)
    ensures Sym(v) == c
  {
    if 'A' <= c <= 'Z' then c as int - 65
    else if 'a' <= c <= 'z' then c as int - 97 + 26
    else if '0' <= c <= '9' then c as int - 48 + 52
    else if c == '-' then 62
    else 63
  }

  lemma ValSym(v: sextet)
    ensures Val(Sym(v)) == v
  {
  }

  /** The four characters for three bytes. */
  function Quad(b0: byte, b1: byte, b2: byte): string {
    [Sym(b0 / 4), Sym((b0 % 4) * 16 + b1 / 16), Sym((b1 % 16) * 4 + b2 / 64), Sym(b2 % 64)]
  }

  /** The two characters for a final single byte. */
  function Pair(b0: byte): string {
    [Sym(b0 / 4), Sym((b0 % 4) * 16)]
  }

  /** The three characters for a final two bytes. */
  function Triple(b0: byte, b1: byte): string {
    [Sym(b0 / 4), Sym((b0 % 4) * 16 + b1 / 16), Sym((b1 % 16) * 4)]
  }

  /** `base64.urlsafe_b64encode`: groups of four characters, the last one padded with `=`. */
  function EncodePadded(b: seq<byte>): string
    decreases |b|
  {
    if |b| == 0 then ""
    else if |b| == 1 then Pair(b[0]) + "=="
    else if |b| == 2 then Triple(b[0], b[1]) + "="
    else Quad(b[0], b[1], b[2]) + EncodePadded(b[3..])
  }

  /** The same encoding without the padding. */
  function Unpadded(b: seq<byte>): string
    decreases |b|
  {
    if |b| == 0 then ""
    else if |b| == 1 then Pair(b[0])
    else if |b| == 2 then Triple(b[0], b[1])
    else Quad(b[0], b[1], b[2]) + Unpadded(b[3..])
  }

  /** The padding `urlsafe_b64encode` puts after the unpadded text. */
  function Padding(n: nat): string {
    if n % 3 == 1 then "==" else if n % 3 == 2 then "=" else ""
  }

  lemma {:induction false} PaddedIsUnpaddedPlusPadding(b: seq<byte>)
    ensures EncodePadded(b) == Unpadded(b) + Padding(|b|)
    decreases |b|
  {
    if |b| >= 3 {
      PaddedIsUnpaddedPlusPadding(b[3..]);
      EncodeGroup(b);
      UnpaddedGroup(b);
      PaddingGroup(|b|);
      AppendAssoc(Quad(b[0], b[1], b[2]), Unpadded(b[3..]), Padding(|b[3..]|));
    }
  }

  /** One step of each encoder: a full group, then the rest. */
  lemma EncodeGroup(b: seq<byte>)
    requires |b| >= 3
    ensures EncodePadded(b) == Quad(b[0], b[1], b[2]) + EncodePadded(b[3..])
  {
  }

  lemma UnpaddedGroup(b: seq<byte>)
    requires |b| >= 3
    ensures Unpadded(b) == Quad(b[0], b[1], b[2]) + Unpadded(b[3..])
  {
  }

  lemma PaddingGroup(n: nat)
    requires n >= 3
    ensures Padding(n) == Padding(n - 3)
  {
  }

  lemma AppendAssoc(q: string, u: string, p: string)
    ensures q + (u + p) == (q + u) + p
  {
  }

  /** Unpadded output is all alphabet characters, ceil(4n/3) of them. */
  lemma {:induction false} UnpaddedShape(b: seq<byte>)
    ensures |Unpadded(b)| == (4 * |b| + 2) / 3
    ensures forall k :: 0 <= k < |Unpadded(b)| ==> IsUrlSafe(Unpadded(b)[k])
    decreases |b|
  {
    if |b| >= 3 {
      UnpaddedShape(b[3..]);
      UnpaddedGroup(b);
      var q, r := Quad(b[0], b[1], b[2]), Unpadded(b[3..]);
      forall k | 0 <= k < |q + r| ensures IsUrlSafe((q + r)[k]) {
        if k >= |q| { assert (q + r)[k] == r[k - |q|]; }
      }
    }
  }

  /** Stripping `=` from a string of alphabet characters followed by `=`s leaves the alphabet characters. */
  lemma {:induction false} StripPadding(u: string, p: string)
    requires forall k :: 0 <= k < |u| ==> IsUrlSafe(u[k])
    requires forall k :: 0 <= k < |p| ==> p[k] == '='
    ensures RStripChar(u + p, '=') == u
    decreases |p|
  {
    if p == [] {
      assert u + p == u;
      assert u == [] || IsUrlSafe(u[|u| - 1]);
    } else {
      var s := u + p;
      assert s[|s| - 1] == p[|p| - 1];
      assert s[..|s| - 1] == u + p[..|p| - 1];
      StripPadding(u, p[..|p| - 1]);
    }
  }

  /** `_b64url(data)`: URL-safe base64 with the padding stripped. */
  function B64Url(data: seq<byte>): (r: string)
    ensures r == Unpadded(data)
    ensures '=' !in r
    ensures |r| == (4 * |data| + 2) / 3
    ensures forall k :: 0 <= k < |r| ==> IsUrlSafe(r[k])
  {
    PaddedIsUnpaddedPlusPadding(data);
    UnpaddedShape(data);
    StripPadding(Unpadded(data), Padding(|data|));
    RStripChar(EncodePadded(data), '=')
  }

  /** The login state: 16 random bytes give 22 characters. */
  lemma StateLength(data: seq<byte>)
    requires |data| == 16
    ensures |B64Url(data)| == 22 && B64Url(data) != ""
  {
  }

  /** Decodes unpadded URL-safe base64; `None` for a character outside the alphabet or a dangling character. */
  function Decode(s: string): Option<seq<byte>>
    decreases |s|
  {
    if |s| == 0 then Some([])
    else if |s| == 1 then None
    else if !IsUrlSafe(s[0]) || !IsUrlSafe(s[1]) then None
    else if |s| == 2 then Some([Val(s[0]) * 4 + Val(s[1]) / 16])
    else if !IsUrlSafe(s[2]) then None
    else if |s| == 3 then
      Some([Val(s[0]) * 4 + Val(s[1]) / 16, (Val(s[1]) % 16) * 16 + Val(s[2]) / 4])
    else if !IsUrlSafe(s[3]) then None
    else
      match Decode(s[4..])
      case None => None
      case Some(rest) =>
        Some([Val(s[0]) * 4 + Val(s[1]) / 16, (Val(s[1]) % 16) * 16 + Val(s[2]) / 4,
              (Val(s[2]) % 4) * 64 + Val(s[3])] + rest)
  }

  lemma GroupArith(b0: byte, b1: byte, b2: byte)
    ensures (b0 / 4) * 4 + ((b0 % 4) * 16 + b1 / 16) / 16 == b0
    ensures (((b0 % 4) * 16 + b1 / 16) % 16) * 16 + ((b1 % 16) * 4 + b2 / 64) / 4 == b1
    ensures (((b1 % 16) * 4 + b2 / 64) % 4) * 64 + b2 % 64 == b2
  {
  }

  lemma DecodeOneByte(b0: byte)
    ensures Decode(Unpadded([b0])) == Some([b0])
  {
    var s := Unpadded([b0]);
    GroupArith(b0, 0, 0);
    ValSym(b0 / 4);
    ValSym((b0 % 4) * 16);
    var v0: int, v1: int := Val(s[0]), Val(s[1]);
    assert v0 == b0 / 4 && v1 == (b0 % 4) * 16;
    assert Decode(s) == Some([v0 * 4 + v1 / 16]);
  }

  lemma DecodeTwoBytes(b0: byte, b1: byte)
    ensures Decode(Unpadded([b0, b1])) == Some([b0, b1])
  {
    var s := Unpadded([b0, b1]);
    GroupArith(b0, b1, 0);
    ValSym(b0 / 4);
    ValSym((b0 % 4) * 16 + b1 / 16);
    ValSym((b1 % 16) * 4);
    var v0: int, v1: int, v2: int := Val(s[0]), Val(s[1]), Val(s[2]);
    assert v0 == b0 / 4 && v1 == (b0 % 4) * 16 + b1 / 16 && v2 == (b1 % 16) * 4;
    assert Decode(s) == Some([v0 * 4 + v1 / 16, (v1 % 16) * 16 + v2 / 4]);
  }

  lemma DecodeQuad(b0: byte, b1: byte, b2: byte, rest: string, tail: seq<byte>)
    requires Decode(rest) == Some(tail)
    ensures Decode(Quad(b0, b1, b2) + rest) == Some([b0, b1, b2] + tail)
  {
    var s := Quad(b0, b1, b2) + rest;
    assert s[4..] == rest;
    GroupArith(b0, b1, b2);
    ValSym(b0 / 4);
    ValSym((b0 % 4) * 16 + b1 / 16);
    ValSym((b1 % 16) * 4 + b2 / 64);
    ValSym(b2 % 64);
  }

  /** Decoding undoes the unpadded encoding, group by group. */
  lemma {:induction false} DecodeUnpadded(data: seq<byte>)
    ensures Decode(Unpadded(data)) == Some(data)
    decreases |data|
  {
    if |data| == 1 {
      assert data == [data[0]];
      DecodeOneByte(data[0]);
    } else if |data| == 2 {
      assert data == [data[0], data[1]];
      DecodeTwoBytes(data[0], data[1]);
    } else if |data| >= 3 {
      DecodeUnpadded(data[3..]);
      UnpaddedGroup(data);
      DecodeQuad(data[0], data[1], data[2], Unpadded(data[3..]), data[3..]);
      assert data == [data[0], data[1], data[2]] + data[3..];
    }
  }

  /** Decoding undoes `_b64url`. */
  lemma DecodeB64Url(data: seq<byte>)
    ensures Decode(B64Url(data)) == Some(data)
  {
    DecodeUnpadded(data);
  }
}
