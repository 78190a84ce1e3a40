/**
 * The JavaScript string primitives the core relies on: `String.prototype.trim`,
 * `toLowerCase`, `toUpperCase` and the `[A-Za-z0-9]` character class.
 * Case conversion is modelled on ASCII letters only.
 */
module Text {

  /** The characters `trim` removes: ECMAScript WhiteSpace and LineTerminator. */
  predicate IsWhitespace(c: char)
  {
    || c == '\t' || c == '\n' || c == '\r' || c == ' '
    || c == '\U{000B}' || c == '\U{000C}' || c == '\U{00A0}' || c == '\U{1680}'
    || ('\U{2000}' <= c <= '\U{200A}')
    || c == '\U{2028}' || c == '\U{2029}' || c == '\U{202F}' || c == '\U{205F}'
    || c == '\U{3000}' || c == '\U{FEFF}'
  }

  predicate AllWhitespace(s: string)
  {
    forall i :: 0 <= i < |s| ==> IsWhitespace(s[i])
  }

  /** Drops leading whitespace. */
  function TrimStart(s: string): (r: string)
    ensures |r| <= |s| && r == s[|s| - |r|..]
    ensures AllWhitespace(s[..|s| - |r|])
    ensures r == [] || !IsWhitespace(r[0])
  {
    if s == [] || !IsWhitespace(s[0]) then s else TrimStart(s[1..])
  }

  /** Drops trailing whitespace. */
  function TrimEnd(s: string): (r: string)
    ensures |r| <= |s| && r == s[..|r|]
    ensures AllWhitespace(s[|r|..])
    ensures r == [] || !IsWhitespace(r[|r| - 1])
  {
    if s == [] || !IsWhitespace(s[|s| - 1]) then s else TrimEnd(s[..|s| - 1])
  }

  /** `s.trim()`: drops whitespace at both ends. */
  function Trim(s: string): (r: string)
    ensures r == [] || (!IsWhitespace(r[0]) && !IsWhitespace(r[|r| - 1]))
  {
    TrimEnd(TrimStart(s))
  }

  /** Trimming a string with no whitespace at either end leaves it unchanged. */
  lemma TrimNoop(s: string)
    requires s == [] || (!IsWhitespace(s[0]) && !IsWhitespace(s[|s| - 1]))
    ensures Trim(s) == s
  {
  }

  /** Whitespace before a part that starts with a non-blank character is all `trim` removes at the front. */
  lemma {:induction false} TrimStartConcat(a: string, m: string)
    requires m != [] && !IsWhitespace(m[0])
    ensures TrimStart(a + m) == TrimStart(a) + m
  {
    if a == [] {
      assert a + m == m;
    } else if !IsWhitespace(a[0]) {
    } else {
      assert (a + m)[1..] == a[1..] + m;
      TrimStartConcat(a[1..], m);
    }
  }

  predicate IsUpperAscii(c: char) { 'A' <= c <= 'Z' }
  predicate IsLowerAscii(c: char) { 'a' <= c <= 'z' }
  predicate IsDigit(c: char) { '0' <= c <= '9' }

  /** Membership in the regular-expression class `[A-Za-z0-9]`. */
  predicate IsAlnum(c: char) { IsUpperAscii(c) || IsLowerAscii(c) || IsDigit(c) }

  predicate AllAlnum(s: string)
  {
    forall i :: 0 <= i < |s| ==> IsAlnum(s[i])
  }

  function LowerChar(c: char): (r: char)
    ensures IsWhitespace(r) <==> IsWhitespace(c)
    ensures !IsUpperAscii(r)
  {
    if IsUpperAscii(c) then (c as int + 32) as char else c
  }

  function UpperChar(c: char): (r: char)
    ensures IsWhitespace(r) <==> IsWhitespace(c)
    ensures IsAlnum(r) <==> IsAlnum(c)
    ensures !IsLowerAscii(r)
    ensures IsLowerAscii(c) || r == c
  {
    if IsLowerAscii(c) then (c as int - 32) as char else c
  }

  /** `s.toLowerCase()` on ASCII letters. */
  function ToLower(s: string): (r: string)
    ensures |r| == |s|
    ensures forall i :: 0 <= i < |s| ==> r[i] == LowerChar(s[i])
  {
    seq(|s|, i requires 0 <= i < |s| => LowerChar(s[i]))
  }

  /** `s.toUpperCase()` on ASCII letters. */
  function ToUpper(s: string): (r: string)
    ensures |r| == |s|
    ensures forall i :: 0 <= i < |s| ==> r[i] == UpperChar(s[i])
  {
    seq(|s|, i requires 0 <= i < |s| => UpperChar(s[i]))
  }

  predicate NoLowercase(s: string)
  {
    forall i :: 0 <= i < |s| ==> !IsLowerAscii(s[i])
  }

  /** Upper-casing leaves no lower-case ASCII letter and is idempotent. */
  lemma ToUpperIdempotent(s: string)
    ensures NoLowercase(ToUpper(s))
    ensures ToUpper(ToUpper(s)) == ToUpper(s)
  {
  }

  /** Case-insensitive equality of two strings, as the regular-expression flag `i` compares ASCII letters. */
  predicate SameIgnoringCase(s: string, t: string)
  {
    |s| == |t| && forall i :: 0 <= i < |s| ==> UpperChar(s[i]) == UpperChar(t[i])
  }
}
