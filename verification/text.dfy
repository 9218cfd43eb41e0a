/** The few `java.lang.String` operations the coupon service relies on:
    `toLowerCase` (ASCII letters only), `trim` and `isBlank`. */
module Text {

  predicate IsUpper(c: char) {
    'A' <= c <= 'Z'
  }

  /** ASCII lower-casing of one character; every other character is kept. */
  function LowerChar(c: char): (r: char)
    ensures !IsUpper(r)
    ensures IsUpper(c) ==> r as int == c as int + 32
    ensures !IsUpper(c) ==> r == c
  {
    if IsUpper(c) then (c as int + 32) as char else c
  }

  function Lower(s: string): (r: string)
    ensures |r| == |s|
    ensures forall i {:trigger r[i]} :: 0 <= i < |s| ==> r[i] == LowerChar(s[i])
  {
    seq(|s|, i requires 0 <= i < |s| => LowerChar(s[i]))
  }

  /** Lower-casing a second time changes nothing. */
  lemma LowerIdempotent(s: string)
    ensures Lower(Lower(s)) == Lower(s)
  {
  }

  /** `Character.isWhitespace`: the ASCII controls TAB..CR and FS..US, the
      space, and the Unicode space, line and paragraph separators other
      than the three no-break spaces. */
  predicate IsWhitespace(c: char) {
    || ('\U{9}' <= c <= '\U{D}')
    || ('\U{1C}' <= c <= ' ')
    || c == '\U{1680}'
    || ('\U{2000}' <= c <= '\U{2006}')
    || ('\U{2008}' <= c <= '\U{200A}')
    || c == '\U{2028}' || c == '\U{2029}' || c == '\U{205F}' || c == '\U{3000}'
  }

  /** `String.isBlank`: empty, or white space only. An ASCII blank string
      is one that `String.trim` empties, since all ASCII white space is at
      or below U+0020. */
  predicate IsBlank(s: string): (r: bool)
    ensures |s| == 0 ==> r
    ensures r && (forall i :: 0 <= i < |s| ==> s[i] < '\U{80}') ==> |TrimStart(s)| == 0
  {
    var blank := forall i :: 0 <= i < |s| ==> IsWhitespace(s[i]);
    if blank && (forall i :: 0 <= i < |s| ==> s[i] < '\U{80}') then
      AsciiWhitespaceTrimmable(s);
      TrimStartOfTrimmable(s);
      blank
    else blank
  }

  /** All ASCII white space is at or below U+0020. */
  lemma AsciiWhitespaceTrimmable(s: string)
    requires forall i :: 0 <= i < |s| ==> IsWhitespace(s[i]) && s[i] < '\U{80}'
    ensures forall i :: 0 <= i < |s| ==> Trimmable(s[i])
  {
    forall i | 0 <= i < |s|
      ensures Trimmable(s[i])
    {
      var c := s[i];
      assert IsWhitespace(c) && c < '\U{80}';
    }
  }

  /** A string of trimmable characters only has nothing left after trimming its start. */
  lemma TrimStartOfTrimmable(s: string)
    requires forall i :: 0 <= i < |s| ==> Trimmable(s[i])
    ensures |TrimStart(s)| == 0
  {
  }

  /** `String.trim` removes every code point at or below U+0020 from both ends. */
  predicate Trimmable(c: char) {
    c <= ' '
  }

  /** The suffix of `s` left after dropping its leading trimmable characters. */
  function TrimStart(s: string): (r: string)
    ensures |r| <= |s| && r == s[|s| - |r|..]
    ensures |r| > 0 ==> !Trimmable(r[0])
    ensures forall i :: 0 <= i < |s| - |r| ==> Trimmable(s[i])
    decreases |s|
  {
    if |s| > 0 && Trimmable(s[0]) then
      var r := TrimStart(s[1..]);
      assert s[1..][|s| - 1 - |r|..] == s[|s| - |r|..];
      assert forall i :: 1 <= i < |s| - |r| ==> s[i] == s[1..][i - 1];
      r
    else s
  }

  /** The prefix of `s` left after dropping its trailing trimmable characters. */
  function TrimEnd(s: string): (r: string)
    ensures |r| <= |s| && r == s[..|r|]
    ensures |r| > 0 ==> !Trimmable(r[|r| - 1])
    ensures forall i :: |r| <= i < |s| ==> Trimmable(s[i])
    decreases |s|
  {
    if |s| > 0 && Trimmable(s[|s| - 1]) then
      var r := TrimEnd(s[..|s| - 1]);
      assert s[..|s| - 1][..|r|] == s[..|r|];
      assert forall i :: |r| <= i < |s| - 1 ==> s[i] == s[..|s| - 1][i];
      r
    else s
  }

  /** `String.trim`: the middle of `s` left after dropping the trimmable
      characters at both ends; what is kept starts and ends untrimmable. */
  function Trim(s: string): (r: string)
    ensures |r| <= |s|
    ensures TrimmedSliceOf(s, r, |s| - |TrimStart(s)|)
    ensures |r| > 0 ==> !Trimmable(r[0]) && !Trimmable(r[|r| - 1])
  {
    var u := TrimStart(s);
    var r := TrimEnd(u);
    PrefixOfSuffix(s, u, r);
    r
  }

  /** `t` is the slice of `s` starting at `a`, and everything of `s`
      outside that slice is trimmable. */
  predicate TrimmedSliceOf(s: string, t: string, a: int) {
    && 0 <= a <= |s| - |t|
    && (forall i {:trigger t[i]} :: 0 <= i < |t| ==> t[i] == s[a + i])
    && (forall i :: 0 <= i < a ==> Trimmable(s[i]))
    && (forall i :: a + |t| <= i < |s| ==> Trimmable(s[i]))
  }

  /** A prefix `r` of a suffix `u` of `s`, where what the suffix drops and
      what the prefix drops are trimmable, is a trimmed slice of `s`. */
  lemma PrefixOfSuffix(s: string, u: string, r: string)
    requires |u| <= |s| && u == s[|s| - |u|..]
    requires forall i :: 0 <= i < |s| - |u| ==> Trimmable(s[i])
    requires |r| <= |u| && r == u[..|r|]
    requires forall i :: |r| <= i < |u| ==> Trimmable(u[i])
    ensures TrimmedSliceOf(s, r, |s| - |u|)
  {
    var a := |s| - |u|;
    forall i | 0 <= i < |r|
      ensures r[i] == s[a + i]
    {
      assert r[i] == u[i];
    }
    forall i | a + |r| <= i < |s|
      ensures Trimmable(s[i])
    {
      assert s[i] == u[i - a];
    }
  }

  /** A string whose ends are not trimmable is its own trim. */
  lemma TrimOfTrimmed(s: string)
    requires |s| > 0 ==> !Trimmable(s[0]) && !Trimmable(s[|s| - 1])
    ensures Trim(s) == s
  {
  }

  /** Trimming leaves a string with no trimmable character at either end. */
  lemma TrimLeavesCleanEnds(s: string)
    ensures var t := Trim(s); |t| > 0 ==> !Trimmable(t[0]) && !Trimmable(t[|t| - 1])
  {
    var u := TrimStart(s);
    var t := TrimEnd(u);
    if |t| > 0 {
      assert t[0] == u[0];
    }
  }

  /** `r` is the lower-cased slice of `s` starting at `a`, and everything
      of `s` outside that slice is trimmable. */
  predicate LowerSliceOf(s: string, r: string, a: int) {
    && 0 <= a <= |s| - |r|
    && (forall i {:trigger r[i]} :: 0 <= i < |r| ==> r[i] == LowerChar(s[a + i]))
    && (forall i :: 0 <= i < a ==> Trimmable(s[i]))
    && (forall i :: a + |r| <= i < |s| ==> Trimmable(s[i]))
  }

  /** `r` is the normal form of `s`: no longer than `s`, and normal at the
      offset of the first character that `String.trim` keeps. */
  predicate NormalOf(s: string, r: string) {
    |r| <= |s| && NormalAt(s, r, |s| - |TrimStart(s)|)
  }

  /** `r` is the normal form of `s` whose kept slice starts at `a`: the
      lower-cased slice of `s` starting at `a`, with only trimmable
      characters around it, no upper-case letter and untrimmable ends. */
  predicate NormalAt(s: string, r: string, a: int) {
    && LowerSliceOf(s, r, a)
    && (forall i :: 0 <= i < |r| ==> !IsUpper(r[i]))
    && (|r| > 0 ==> !Trimmable(r[0]) && !Trimmable(r[|r| - 1]))
  }

  /** The type normalisation of `createCoupon`: trim, then lower-case. The
      kept slice starts after the leading trimmable characters. */
  function Normalize(s: string): (r: string)
    ensures NormalOf(s, r)
  {
    LowerOfTrimIsNormal(s);
    Lower(Trim(s))
  }

  /** Lower-casing the trim of `s` gives its normal form. */
  lemma LowerOfTrimIsNormal(s: string)
    ensures NormalOf(s, Lower(Trim(s)))
  {
    var t := Trim(s);
    NormalOfParts(s, t, Lower(t), |s| - |TrimStart(s)|);
  }

  /** Lower-casing a trimmed slice with untrimmable ends gives its normal form. */
  lemma NormalOfParts(s: string, t: string, r: string, a: int)
    requires TrimmedSliceOf(s, t, a)
    requires |t| > 0 ==> !Trimmable(t[0]) && !Trimmable(t[|t| - 1])
    requires |r| == |t| && forall i {:trigger r[i]} :: 0 <= i < |t| ==> r[i] == LowerChar(t[i])
    ensures NormalAt(s, r, a)
  {
    if |t| > 0 {
      LowerKeepsUntrimmable(t[0]);
      LowerKeepsUntrimmable(t[|t| - 1]);
    }
  }

  /** Lower-casing never makes a character trimmable. */
  lemma LowerKeepsUntrimmable(c: char)
    requires !Trimmable(c)
    ensures !Trimmable(LowerChar(c))
  {
  }

  /** Normalising a normalised tag changes nothing. */
  lemma {:induction false} NormalizeIdempotent(s: string)
    ensures Normalize(Normalize(s)) == Normalize(s)
  {
    var t := Trim(s);
    TrimLeavesCleanEnds(s);
    var l := Lower(t);
    if |l| > 0 {
      assert l[0] == LowerChar(t[0]);
      assert l[|l| - 1] == LowerChar(t[|t| - 1]);
    }
    TrimOfTrimmed(l);
    LowerIdempotent(t);
  }
}
