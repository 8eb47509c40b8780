/**
 * The java.lang.String operations the application relies on: case mapping,
 * trim, substring search, lastIndexOf, decimal rendering of integers, the
 * email pattern `^[A-Za-z0-9+_.-]+@(.+)$` and lexicographic order.
 */
module Texto {

  // ---------------------------------------------------------------- case mapping

  /** Character.toLowerCase on the Latin-1 range; other characters are left as they are. */
  function LowerChar(c: char): char
  {
    if 'A' <= c <= 'Z' || 'À' <= c <= 'Ö' || 'Ø' <= c <= 'Þ'
    then (c as int + 32) as char
    else c
  }

  /** Character.toUpperCase on the Latin-1 range; other characters, and 'ß' (whose String upper case is "SS"), are left as they are. */
  function UpperChar(c: char): char
  {
    if 'a' <= c <= 'z' || 'à' <= c <= 'ö' || 'ø' <= c <= 'þ' then (c as int - 32) as char
    else if c == 'ÿ' then 'Ÿ'
    else if c == 'µ' then 'Μ'
    else c
  }

  /** String.toLowerCase: maps every character and keeps the length. */
  function ToLower(s: string): (r: string)
    ensures |r| == |s|
    ensures forall i :: 0 <= i < |s| ==> r[i] == LowerChar(s[i])
  {
    seq(|s|, i requires 0 <= i < |s| => LowerChar(s[i]))
  }

  /** String.toUpperCase: maps every character and keeps the length. */
  function ToUpper(s: string): (r: string)
    ensures |r| == |s|
    ensures forall i :: 0 <= i < |s| ==> r[i] == UpperChar(s[i])
  {
    seq(|s|, i requires 0 <= i < |s| => UpperChar(s[i]))
  }

  /** Upper-casing twice is upper-casing once. */
  lemma ToUpperIdempotent(s: string)
    ensures ToUpper(ToUpper(s)) == ToUpper(s)
  {
  }

  // ---------------------------------------------------------------- trim

  /** The characters String.trim removes: every code point up to and including the space. */
  predicate IsSpace(c: char) { c <= ' ' }

  /** All characters of `s` are removed by trim. */
  predicate IsBlank(s: string)
  {
    forall i :: 0 <= i < |s| ==> IsSpace(s[i])
  }

  /** How many space characters String.trim skips at the front of `s`. */
  function LeadingSpaces(s: string): (n: nat)
    ensures n <= |s|
    ensures forall i :: 0 <= i < n ==> IsSpace(s[i])
    ensures n < |s| ==> !IsSpace(s[n])
  {
    if s == [] || !IsSpace(s[0]) then 0 else 1 + LeadingSpaces(s[1..])
  }

  /** Where String.trim stops when it cuts space characters off the end, never before `start`. */
  function TrimmedEnd(s: string, start: nat): (b: nat)
    requires start <= |s|
    ensures start <= b <= |s|
    ensures forall i :: b <= i < |s| ==> IsSpace(s[i])
    ensures b > start ==> !IsSpace(s[b - 1])
    decreases |s|
  {
    if |s| == start || !IsSpace(s[|s| - 1]) then |s|
    else TrimmedEnd(s[..|s| - 1], start)
  }

  /** String.trim: `s` without its leading and trailing characters up to the space. */
  function Trim(s: string): string
  {
    var a := LeadingSpaces(s);
    s[a..TrimmedEnd(s, a)]
  }

  /** `s.trim().isEmpty()` holds exactly when every character of `s` is a space character. */
  lemma TrimEmptyIffBlank(s: string)
    ensures Trim(s) == [] <==> IsBlank(s)
  {
    var a := LeadingSpaces(s);
    var b := TrimmedEnd(s, a);
    if a < |s| {
      assert !IsSpace(s[a]);
      assert b > a;
    }
  }

  /** What trim keeps neither starts nor ends with a space character. */
  lemma TrimmedEdges(s: string)
    ensures Trim(s) != [] ==> !IsSpace(Trim(s)[0]) && !IsSpace(Trim(s)[|Trim(s)| - 1])
  {
    var a := LeadingSpaces(s);
    var b := TrimmedEnd(s, a);
    if a < b {
      assert Trim(s)[0] == s[a];
      assert Trim(s)[|Trim(s)| - 1] == s[b - 1];
    }
  }

  /** Trimming twice is trimming once. */
  lemma TrimIdempotent(s: string)
    ensures Trim(Trim(s)) == Trim(s)
  {
    var r := Trim(s);
    TrimmedEdges(s);
    if r != [] {
      assert LeadingSpaces(r) == 0;
      assert TrimmedEnd(r, 0) == |r|;
    }
  }

  /** Where trim cuts depends only on which characters are space characters. */
  lemma TrimMismoPatron(s: string, t: string)
    requires |s| == |t| && forall i :: 0 <= i < |s| ==> (IsSpace(s[i]) <==> IsSpace(t[i]))
    ensures LeadingSpaces(s) == LeadingSpaces(t)
    ensures TrimmedEnd(s, LeadingSpaces(s)) == TrimmedEnd(t, LeadingSpaces(t))
  {
    var a := LeadingSpaces(s);
    assert a == LeadingSpaces(t);
  }

  /** Lower-casing keeps every space character and makes none: it commutes with trim. */
  lemma ToLowerTrim(s: string)
    ensures Trim(ToLower(s)) == ToLower(Trim(s))
  {
    TrimMismoPatron(s, ToLower(s));
  }

  /** Upper-casing keeps every space character and makes none: it commutes with trim. */
  lemma ToUpperTrim(s: string)
    ensures Trim(ToUpper(s)) == ToUpper(Trim(s))
  {
    TrimMismoPatron(s, ToUpper(s));
  }

  /** Lower-casing twice is lower-casing once. */
  lemma ToLowerIdempotent(s: string)
    ensures ToLower(ToLower(s)) == ToLower(s)
  {
  }

  // ---------------------------------------------------------------- search

  /** String.contains: `t` occurs in `s` at some position. */
  function Contains(s: string, t: string): (r: bool)
    ensures r <==> exists i :: 0 <= i <= |s| && t <= s[i..]
  {
    if t <= s then assert s[0..] == s; true
    else if s == [] then false
    else
      var r := Contains(s[1..], t);
      assert forall i :: 1 <= i <= |s| ==> s[i..] == s[1..][i - 1..];
      r
  }

  /** The empty string occurs in every string. */
  lemma ContainsEmpty(s: string)
    ensures Contains(s, "")
  {
    assert "" <= s[0..];
  }

  /** String.lastIndexOf(char): the last position of `c` in `s`, or -1. */
  function LastIndexOf(s: string, c: char): (r: int)
    ensures -1 <= r < |s|
    ensures r == -1 <==> c !in s
    ensures r >= 0 ==> s[r] == c && forall j :: r < j < |s| ==> s[j] != c
  {
    if s == [] then -1
    else if s[|s| - 1] == c then |s| - 1
    else
      var r := LastIndexOf(s[..|s| - 1], c);
      assert forall j :: 0 <= j < |s| - 1 ==> s[..|s| - 1][j] == s[j];
      assert c in s ==> c in s[..|s| - 1] by {
        if c in s { var k :| 0 <= k < |s| && s[k] == c; assert s[..|s| - 1][k] == c; }
      }
      r
  }

  // ---------------------------------------------------------------- integers

  function DigitChar(d: nat): char
    requires d < 10
  {
    "0123456789"[d]
  }

  predicate IsDigit(c: char) { '0' <= c <= '9' }

  /** Decimal digits of `n`, without leading zeros (as Long.toString prints a non-negative number). */
  function NatToString(n: nat): (r: string)
    ensures |r| >= 1
    ensures forall i :: 0 <= i < |r| ==> IsDigit(r[i])
    ensures |r| > 1 ==> r[0] != '0'
  {
    if n < 10 then [DigitChar(n)]
    else NatToString(n / 10) + [DigitChar(n % 10)]
  }

  /** The value of a string of decimal digits. */
  function DigitsValue(s: string): int
    requires forall i :: 0 <= i < |s| ==> IsDigit(s[i])
  {
    if s == [] then 0 else DigitsValue(s[..|s| - 1]) * 10 + (s[|s| - 1] as int - '0' as int)
  }

  /** Reading back the digits NatToString writes gives the number again. */
  lemma {:induction false} NatToStringRoundTrip(n: nat)
    ensures DigitsValue(NatToString(n)) == n
  {
    if n >= 10 {
      NatToStringRoundTrip(n / 10);
      var s := NatToString(n);
      assert s[..|s| - 1] == NatToString(n / 10);
    }
  }

  /** Integer.toString / Long.toString: a minus sign in front of negative numbers. */
  function IntToString(n: int): (r: string)
    ensures n >= 0 ==> r == NatToString(n)
    ensures n < 0 ==> r == "-" + NatToString(-n)
  {
    if n >= 0 then NatToString(n) else "-" + NatToString(-n)
  }

  // ---------------------------------------------------------------- email pattern

  /** Characters of the class `[A-Za-z0-9+_.-]`. */
  predicate EmailLocalChar(c: char)
  {
    'A' <= c <= 'Z' || 'a' <= c <= 'z' || '0' <= c <= '9' || c == '+' || c == '_' || c == '.' || c == '-'
  }

  /** The line terminators that `.` does not match in a java.util.regex pattern. */
  predicate LineTerminator(c: char)
  {
    c == '\n' || c == '\r' || c == '\U{85}' || c == '\U{2028}' || c == '\U{2029}'
  }

  /**
   * What `s.matches("^[A-Za-z0-9+_.-]+@(.+)$")` means: `s` splits at some `@`
   * into a non-empty run of class characters and a non-empty rest without
   * line terminators.
   */
  ghost predicate MatchesEmailPattern(s: string)
  {
    exists k :: 0 < k < |s| - 1 && s[k] == '@'
      && (forall i :: 0 <= i < k ==> EmailLocalChar(s[i]))
      && (forall i :: k < i < |s| ==> !LineTerminator(s[i]))
  }

  /** The length of the longest prefix of `s` made of class characters. */
  function LocalPrefixLength(s: string): (k: nat)
    ensures k <= |s|
    ensures forall i :: 0 <= i < k ==> EmailLocalChar(s[i])
    ensures k < |s| ==> !EmailLocalChar(s[k])
  {
    if s == [] || !EmailLocalChar(s[0]) then 0 else 1 + LocalPrefixLength(s[1..])
  }

  predicate NoLineTerminator(s: string)
  {
    forall i :: 0 <= i < |s| ==> !LineTerminator(s[i])
  }

  /**
   * The email check, decided by scanning: the first character outside the
   * class must be an `@` that is neither the first nor the last character,
   * and nothing after it may be a line terminator.
   */
  function IsValidEmail(s: string): bool
  {
    var k := LocalPrefixLength(s);
    0 < k < |s| - 1 && s[k] == '@' && NoLineTerminator(s[k + 1..])
  }

  /** The scan decides exactly the strings the pattern matches. */
  lemma IsValidEmailMatchesPattern(s: string)
    ensures IsValidEmail(s) <==> MatchesEmailPattern(s)
  {
    var k := LocalPrefixLength(s);
    if IsValidEmail(s) {
      assert forall i :: k < i < |s| ==> s[i] == s[k + 1..][i - k - 1];
    }
    if MatchesEmailPattern(s) {
      var j :| 0 < j < |s| - 1 && s[j] == '@'
        && (forall i :: 0 <= i < j ==> EmailLocalChar(s[i]))
        && (forall i :: j < i < |s| ==> !LineTerminator(s[i]));
      assert !EmailLocalChar(s[j]);
      assert k == j;
      var rest := s[k + 1..];
      forall i | 0 <= i < |rest| ensures !LineTerminator(rest[i]) {
        assert rest[i] == s[k + 1 + i];
      }
    }
  }

  // ---------------------------------------------------------------- ordering

  /** Lexicographic order on strings, character by character (String.compareTo(b) <= 0). */
  predicate LexLe(a: string, b: string)
  {
    if a == [] then true
    else if b == [] then false
    else if a[0] != b[0] then a[0] < b[0]
    else LexLe(a[1..], b[1..])
  }

  /** Any two strings are comparable. */
  lemma {:induction false} LexLeTotal(a: string, b: string)
    ensures LexLe(a, b) || LexLe(b, a)
  {
    if a != [] && b != [] && a[0] == b[0] {
      LexLeTotal(a[1..], b[1..]);
    }
  }

  /** The order is transitive. */
  lemma {:induction false} LexLeTrans(a: string, b: string, c: string)
    requires LexLe(a, b) && LexLe(b, c)
    ensures LexLe(a, c)
  {
    if a != [] && b != [] && c != [] && a[0] == b[0] && b[0] == c[0] {
      LexLeTrans(a[1..], b[1..], c[1..]);
    }
  }
}
