/**
 * The string operations of JavaScript that the clients use: `String.prototype.trim`
 * (which strips the ECMAScript WhiteSpace and LineTerminator characters at both ends)
 * and `String.prototype.toUpperCase`, restricted to the ASCII letters.
 */
module Text {

  /** The characters `trim` removes: ECMAScript WhiteSpace and LineTerminator. */
  predicate IsJsSpace(c: char) {
    c == ' ' || c == '\t' || c == '\n' || c == '\U{000B}' || c == '\U{000C}' || c == '\r'
    || c == '\U{00A0}' || c == '\U{1680}' || ('\U{2000}' <= c <= '\U{200A}')
    || c == '\U{2028}' || c == '\U{2029}' || c == '\U{202F}' || c == '\U{205F}'
    || c == '\U{3000}' || c == '\U{FEFF}'
  }

  /** Every character of `s` is white space (the empty string included). */
  predicate IsBlank(s: string) {
    forall i :: 0 <= i < |s| ==> IsJsSpace(s[i])
  }

  /** The number of white-space characters at the start of `s`. */
  function LeadingSpaces(s: string): (n: nat)
    ensures n <= |s|
    ensures forall i :: 0 <= i < n ==> IsJsSpace(s[i])
    ensures n < |s| ==> !IsJsSpace(s[n])
  {
    if |s| > 0 && IsJsSpace(s[0]) then 1 + LeadingSpaces(s[1..]) else 0
  }

  /** The number of white-space characters at the end of `s`. */
  function TrailingSpaces(s: string): (n: nat)
    ensures n <= |s|
    ensures forall i :: |s| - n <= i < |s| ==> IsJsSpace(s[i])
    ensures n < |s| ==> !IsJsSpace(s[|s| - 1 - n])
  {
    if |s| > 0 && IsJsSpace(s[|s| - 1]) then 1 + TrailingSpaces(s[..|s| - 1]) else 0
  }

  /** `s.trim()`: `s` without its leading and trailing white space. */
  function Trim(s: string): (r: string)
    ensures LeadingSpaces(s) + |r| <= |s|
    ensures r == s[LeadingSpaces(s)..LeadingSpaces(s) + |r|]
    ensures r != [] ==> !IsJsSpace(r[0]) && !IsJsSpace(r[|r| - 1])
  {
    var t := s[LeadingSpaces(s)..];
    assert |t| == |s| - LeadingSpaces(s);
    t[..|t| - TrailingSpaces(t)]
  }

  /** Trimming yields the empty string exactly when the input is blank. */
  lemma TrimEmptyIffBlank(s: string)
    ensures Trim(s) == [] <==> IsBlank(s)
  {
    if Trim(s) != [] {
      assert !IsJsSpace(s[LeadingSpaces(s)]);
    }
  }

  /** Trimming twice is trimming once. */
  lemma TrimIdempotent(s: string)
    ensures Trim(Trim(s)) == Trim(s)
  {
    var r := Trim(s);
    if r != [] {
      assert LeadingSpaces(r) == 0;
      assert TrailingSpaces(r) == 0;
    }
  }

  /** The ASCII part of `toUpperCase` on one character. */
  function UpperChar(c: char): (u: char)
    ensures !('a' <= u <= 'z')
    ensures !('a' <= c <= 'z') ==> u == c
    ensures IsJsSpace(u) <==> IsJsSpace(c)
  {
    if 'a' <= c <= 'z' then (c as int - 32) as char else c
  }

  /** `s.toUpperCase()` on ASCII letters; other characters are kept. */
  function ToUpper(s: string): (r: string)
    ensures |r| == |s|
    ensures forall i :: 0 <= i < |r| ==> !('a' <= r[i] <= 'z')
    ensures forall i :: 0 <= i < |s| && !('a' <= s[i] <= 'z') ==> r[i] == s[i]
  {
    seq(|s|, i requires 0 <= i < |s| => UpperChar(s[i]))
  }

  /** Upper-casing an upper-cased string changes nothing. */
  lemma ToUpperIdempotent(s: string)
    ensures ToUpper(ToUpper(s)) == ToUpper(s)
  {
  }

  lemma UpperSlice(s: string, i: nat, j: nat)
    requires i <= j <= |s|
    ensures ToUpper(s[i..j]) == ToUpper(s)[i..j]
  {
  }

  lemma {:induction false} LeadingSpacesOfUpper(s: string)
    ensures LeadingSpaces(ToUpper(s)) == LeadingSpaces(s)
  {
    if s != [] {
      UpperSlice(s, 1, |s|);
      LeadingSpacesOfUpper(s[1..]);
    }
  }

  lemma {:induction false} TrailingSpacesOfUpper(s: string)
    ensures TrailingSpaces(ToUpper(s)) == TrailingSpaces(s)
  {
    if s != [] {
      UpperSlice(s, 0, |s| - 1);
      TrailingSpacesOfUpper(s[..|s| - 1]);
    }
  }

  /** `Trim` as the two cuts it makes: the leading spaces of `s`, then the trailing spaces of the rest. */
  lemma TrimCuts(s: string)
    ensures var t := s[LeadingSpaces(s)..];
      Trim(s) == t[..|t| - TrailingSpaces(t)]
  {
  }

  /** Upper-casing a suffix is taking that suffix of the upper-cased string. */
  lemma UpperSuffix(s: string, a: nat)
    requires a <= |s|
    ensures ToUpper(s)[a..] == ToUpper(s[a..])
  {
    UpperSlice(s, a, |s|);
    assert s[a..|s|] == s[a..];
  }

  /** Upper-casing first makes the same two cuts. */
  lemma TrimOfUpper(s: string)
    ensures var t := s[LeadingSpaces(s)..];
      Trim(ToUpper(s)) == ToUpper(t)[..|t| - TrailingSpaces(t)]
  {
    LeadingSpacesOfUpper(s);
    UpperSuffix(s, LeadingSpaces(s));
    TrailingSpacesOfUpper(s[LeadingSpaces(s)..]);
    TrimCuts(ToUpper(s));
  }

  /** Trimming and upper-casing commute, so the order the join page uses does not matter. */
  lemma TrimUpperCommute(s: string)
    ensures ToUpper(Trim(s)) == Trim(ToUpper(s))
  {
    var t := s[LeadingSpaces(s)..];
    var n := |t| - TrailingSpaces(t);
    TrimOfUpper(s);
    TrimCuts(s);
    UpperSlice(t, 0, n);
  }
}
