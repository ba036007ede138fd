/**
 * The few Python `str` operations the authentication layer relies on:
 * `strip()`, `rstrip(c)`, `startswith`, `in`, `split(sep)` and `split(sep, 1)`.
 * Strings are sequences of Unicode scalar values.
 */
module PyStr {

  /** Python's `str.isspace()` characters, which `str.strip()` removes. */
  predicate IsSpace(c: char) {
    || ('\t' <= c <= '\r')
    || ('\U{1C}' <= c <= ' ')
    || c == '\U{85}' || c == '\U{A0}' || c == '\U{1680}'
    || ('\U{2000}' <= c <= '\U{200A}')
    || c == '\U{2028}' || c == '\U{2029}' || c == '\U{202F}' || c == '\U{205F}' || c == '\U{3000}'
  }

  /** `s.strip()`: drops whitespace at both ends. */
  function Strip(s: string): string
    decreases |s|
  {
    if s != [] && IsSpace(s[0]) then Strip(s[1..])
    else if s != [] && IsSpace(s[|s| - 1]) then Strip(s[..|s| - 1])
    else s
  }

  /** A string with no whitespace at either end is its own `strip()`. */
  lemma StripUnchanged(s: string)
    requires s == [] || (!IsSpace(s[0]) && !IsSpace(s[|s| - 1]))
    ensures Strip(s) == s
  {
  }

  /** `strip()` leaves no whitespace at either end. */
  lemma {:induction false} StripEnds(s: string)
    ensures Strip(s) == [] || (!IsSpace(Strip(s)[0]) && !IsSpace(Strip(s)[|Strip(s)| - 1]))
    decreases |s|
  {
    if s != [] && IsSpace(s[0]) {
      StripEnds(s[1..]);
    } else if s != [] && IsSpace(s[|s| - 1]) {
      StripEnds(s[..|s| - 1]);
    }
  }

  /** `strip()` never removes a character that is not whitespace. */
  lemma {:induction false} StripKeeps(s: string, c: char)
    requires c in s && !IsSpace(c)
    ensures c in Strip(s)
    decreases |s|
  {
    var i :| 0 <= i < |s| && s[i] == c;
    if IsSpace(s[0]) {
      assert s[1..][i - 1] == c;
      StripKeeps(s[1..], c);
    } else if IsSpace(s[|s| - 1]) {
      assert s[..|s| - 1][i] == c;
      StripKeeps(s[..|s| - 1], c);
    }
  }

  /** `s.rstrip(c)`: drops every trailing occurrence of `c`. */
  function RStripChar(s: string, c: char): (r: string)
    ensures |r| <= |s| && r == s[..|r|]
    ensures forall k :: |r| <= k < |s| ==> s[k] == c
    ensures r == [] || r[|r| - 1] != c
  {
    if s != [] && s[|s| - 1] == c then RStripChar(s[..|s| - 1], c) else s
  }

  /** `s.startswith(prefix)`. */
  predicate StartsWith(s: string, prefix: string) {
    |prefix| <= |s| && s[..|prefix|] == prefix
  }

  /** `s.index(c)`: the position of the first occurrence of `c`. */
  function IndexOf(s: string, c: char): (i: nat)
    requires c in s
    ensures i < |s| && s[i] == c
    ensures c !in s[..i]
  {
    if s[0] == c then 0 else 1 + IndexOf(s[1..], c)
  }

  /** `s.split(sep)` for a one-character separator: the pieces between separators. */
  function Split(s: string, sep: char): (parts: seq<string>)
    ensures |parts| >= 1
    decreases |s|
  {
    if sep in s then
      var i := IndexOf(s, sep);
      [s[..i]] + Split(s[i + 1..], sep)
    else
      [s]
  }

  /** `sep.join(parts)`: the inverse of `Split`. */
  function Join(parts: seq<string>, sep: char): string
    requires |parts| >= 1
  {
    if |parts| == 1 then parts[0] else parts[0] + [sep] + Join(parts[1..], sep)
  }

  /** Splitting loses nothing: joining the pieces gives back the string. */
  lemma {:induction false} JoinSplit(s: string, sep: char)
    ensures Join(Split(s, sep), sep) == s
    decreases |s|
  {
    if sep in s {
      var i := IndexOf(s, sep);
      JoinSplit(s[i + 1..], sep);
      assert s == s[..i] + [sep] + s[i + 1..];
    }
  }

  /** No piece of a split contains the separator. */
  lemma {:induction false} SplitPiecesFree(s: string, sep: char)
    ensures forall k :: 0 <= k < |Split(s, sep)| ==> sep !in Split(s, sep)[k]
    decreases |s|
  {
    if sep in s {
      var i := IndexOf(s, sep);
      SplitPiecesFree(s[i + 1..], sep);
    }
  }

  /** Splitting a string that begins with a separator-free piece. */
  lemma SplitCons(a: string, sep: char, b: string)
    requires sep !in a
    ensures Split(a + [sep] + b, sep) == [a] + Split(b, sep)
  {
    var s := a + [sep] + b;
    assert s[|a|] == sep;
    var i := IndexOf(s, sep);
    assert s[..|a|] == a;
    assert s[i + 1..] == b;
  }

  /** A string without the separator splits into itself alone. */
  lemma SplitNone(s: string, sep: char)
    requires sep !in s
    ensures Split(s, sep) == [s]
  {
  }

  /** `s.split(sep, 1)` where `sep` occurs in `s`: the text before and after its first occurrence. */
  function SplitFirst(s: string, sep: char): (r: (string, string))
    requires sep in s
    ensures s == r.0 + [sep] + r.1
    ensures sep !in r.0
  {
    var i := IndexOf(s, sep);
    assert s == s[..i] + [sep] + s[i + 1..];
    (s[..i], s[i + 1..])
  }
}
