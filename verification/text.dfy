/** The JavaScript string operations the core relies on: `trim`, `toLowerCase`,
    `includes`, `startsWith`, `endsWith` and `substring`, over `seq<char>`. */
module Text {

  /** The characters `String.prototype.trim` removes: ECMAScript WhiteSpace
      (tab, vertical tab, form feed, space, no-break space, the byte order mark and
      the Unicode space separators) and LineTerminator (LF, CR, U+2028, U+2029). */
  predicate IsWhitespace(c: char) {
    || c == '\t' || c == '\n' || c == '\U{000B}' || c == '\U{000C}' || c == '\r'
    || c == ' ' || c == '\U{00A0}' || c == '\U{1680}'
    || ('\U{2000}' <= c <= '\U{200A}')
    || c == '\U{2028}' || c == '\U{2029}' || c == '\U{202F}' || c == '\U{205F}'
    || c == '\U{3000}' || c == '\U{FEFF}'
  }

  /** Neither end of `s` is whitespace. */
  predicate IsTrimmed(s: string) {
    s == [] || (!IsWhitespace(s[0]) && !IsWhitespace(s[|s| - 1]))
  }

  /** `String.prototype.trim`: `s` without its leading and trailing whitespace. */
  function Trim(s: string): (r: string)
    ensures IsTrimmed(r)
    ensures forall c :: c in r ==> c in s
    decreases |s|
  {
    if |s| > 0 && IsWhitespace(s[0]) then Trim(s[1..])
    else if |s| > 0 && IsWhitespace(s[|s| - 1]) then Trim(s[..|s| - 1])
    else s
  }

  /** `s[i..j]` is what is left of `s` once whitespace alone is dropped on either side. */
  predicate WhitespaceAround(s: string, i: int, j: int) {
    && 0 <= i <= j <= |s|
    && (forall k :: 0 <= k < i ==> IsWhitespace(s[k]))
    && (forall k :: j <= k < |s| ==> IsWhitespace(s[k]))
  }

  /** What `trim` keeps is a slice of `s`, and everything it drops on either side is
      whitespace. */
  lemma {:induction false} TrimIsSlice(s: string)
    ensures exists i, j :: WhitespaceAround(s, i, j) && Trim(s) == s[i..j]
    decreases |s|
  {
    if |s| > 0 && IsWhitespace(s[0]) {
      var t := s[1..];
      TrimIsSlice(t);
      var i, j :| WhitespaceAround(t, i, j) && Trim(t) == t[i..j];
      assert Trim(s) == s[i + 1..j + 1];
      assert WhitespaceAround(s, i + 1, j + 1) by {
        forall k | 1 <= k < |s| ensures s[k] == t[k - 1] {}
      }
    } else if |s| > 0 && IsWhitespace(s[|s| - 1]) {
      var t := s[..|s| - 1];
      TrimIsSlice(t);
      var i, j :| WhitespaceAround(t, i, j) && Trim(t) == t[i..j];
      assert Trim(s) == s[i..j];
      assert WhitespaceAround(s, i, j) by {
        forall k | 0 <= k < |t| ensures s[k] == t[k] {}
      }
    } else {
      assert Trim(s) == s[0..|s|];
      assert WhitespaceAround(s, 0, |s|);
    }
  }

  /** `trim` leaves a string that is already trimmed as it is. */
  lemma TrimTrimmed(s: string)
    requires IsTrimmed(s)
    ensures Trim(s) == s
  {
  }

  /** `trim` is idempotent. */
  lemma TrimIdempotent(s: string)
    ensures Trim(Trim(s)) == Trim(s)
  {
    TrimTrimmed(Trim(s));
  }

  /** `toLowerCase` on one character; only the ASCII letters A-Z are mapped. */
  function ToLowerChar(c: char): char {
    if 'A' <= c <= 'Z' then (c as int + 32) as char else c
  }

  function ToLower(s: string): (r: string)
    ensures |r| == |s|
    ensures forall c :: c in r ==> !('A' <= c <= 'Z')
  {
    seq(|s|, i requires 0 <= i < |s| => ToLowerChar(s[i]))
  }

  /** Lower-casing a string that has no upper-case letter leaves it as it is; in particular
      lower-casing twice is lower-casing once. */
  lemma ToLowerNoUpper(s: string)
    requires forall c :: c in s ==> !('A' <= c <= 'Z')
    ensures ToLower(s) == s
  {
    forall i | 0 <= i < |s| ensures ToLower(s)[i] == s[i] {
      assert s[i] in s;
    }
  }

  predicate StartsWith(s: string, prefix: string) {
    |prefix| <= |s| && s[..|prefix|] == prefix
  }

  predicate EndsWith(s: string, suffix: string) {
    |suffix| <= |s| && s[|s| - |suffix|..] == suffix
  }

  /** `s.includes(sub)`: `sub` occurs somewhere in `s` (the empty string occurs everywhere). */
  predicate Contains(s: string, sub: string) {
    StartsWith(s, sub) || (|s| > 0 && Contains(s[1..], sub))
  }

  /** Whatever contains `a + b` contains `a`. */
  lemma {:induction false} ContainsPrefix(s: string, a: string, b: string)
    requires Contains(s, a + b)
    ensures Contains(s, a)
  {
    if StartsWith(s, a + b) {
      assert s[..|a|] == (a + b)[..|a|] == a;
    } else {
      ContainsPrefix(s[1..], a, b);
    }
  }

  /** `s.substring(n)` for `0 <= n`: `s` without its first `n` characters, or "" when `s` is shorter. */
  function Substring(s: string, n: nat): (r: string)
    ensures n <= |s| ==> |r| == |s| - n
    ensures |s| <= n ==> r == ""
  {
    if n <= |s| then s[n..] else ""
  }

  /** `s.length` in JavaScript: the number of UTF-16 code units, so a character beyond the
      Basic Multilingual Plane (above U+FFFF) counts as two. */
  function JsLength(s: string): (n: nat)
    ensures |s| <= n <= 2 * |s|
    ensures s == [] <==> n == 0
  {
    if s == [] then 0 else (if s[0] as int > 0xFFFF then 2 else 1) + JsLength(s[1..])
  }

  /** Within the Basic Multilingual Plane the JavaScript length is the number of characters. */
  lemma {:induction false} JsLengthOfPlainText(s: string)
    requires forall i :: 0 <= i < |s| ==> s[i] as int <= 0xFFFF
    ensures JsLength(s) == |s|
  {
    if s != [] {
      JsLengthOfPlainText(s[1..]);
    }
  }

  /** Three emoji are three characters but six code units. */
  lemma EmojiCountTwice()
    ensures var s := "\U{1F600}\U{1F600}\U{1F600}"; |s| == 3 && JsLength(s) == 6
  {
  }

  function DigitChar(d: nat): char
    requires d < 10
  {
    (48 + d) as char
  }

  /** Decimal digits of `k`, used to render store ids. */
  function NatToString(k: nat): (r: string)
    ensures |r| >= 1
    ensures |r| == 1 <==> k < 10
    decreases k
  {
    if k < 10 then [DigitChar(k)] else NatToString(k / 10) + [DigitChar(k % 10)]
  }

  /** Different numbers render differently, so rendered ids never collide. */
  lemma {:induction false} NatToStringInjective(a: nat, b: nat)
    requires NatToString(a) == NatToString(b)
    ensures a == b
    decreases a
  {
    var s := NatToString(a);
    if 10 <= a {
      assert 10 <= b;
      assert s[..|s| - 1] == NatToString(a / 10) && s[..|s| - 1] == NatToString(b / 10);
      NatToStringInjective(a / 10, b / 10);
      assert DigitChar(a % 10) == s[|s| - 1] == DigitChar(b % 10);
    }
  }
}
