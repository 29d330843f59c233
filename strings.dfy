/**
 The two Python string primitives PicMeta relies on: `str.strip()` with no
 argument, used to reject blank labels, and the `in` operator on strings, used
 to test whether a label occurs inside a tag name.
 */
module Strings {

  /** The characters Python's `str.isspace()` accepts, which are the ones a
      bare `str.strip()` removes from both ends of a string. None of them is
      a letter, a digit or an underscore (the characters of tag names), and
      none lies above U+3000. */
  predicate IsWhitespace(c: char)
    ensures IsWhitespace(c) ==> c <= '\U{3000}' && !('0' <= c <= '9' || 'A' <= c <= 'Z' || c == '_' || 'a' <= c <= 'z')
  {
    || ('\U{9}' <= c <= '\U{D}')
    || ('\U{1C}' <= c <= '\U{1F}')
    || c == ' '
    || c == '\U{85}'
    || c == '\U{A0}'
    || c == '\U{1680}'
    || ('\U{2000}' <= c <= '\U{200A}')
    || c == '\U{2028}'
    || c == '\U{2029}'
    || c == '\U{202F}'
    || c == '\U{205F}'
    || c == '\U{3000}'
  }

  /** `s` consists of whitespace only (the empty string included). */
  predicate AllWhitespace(s: string) {
    forall i :: 0 <= i < |s| ==> IsWhitespace(s[i])
  }

  /** Python's `s.strip()`, one end character at a time: it is empty exactly
      when `s` is all whitespace, and otherwise neither starts nor ends with
      whitespace. */
  function Strip(s: string): (r: string)
    ensures r == [] <==> AllWhitespace(s)
    ensures r != [] ==> !IsWhitespace(r[0]) && !IsWhitespace(r[|r| - 1])
    decreases |s|
  {
    if s == [] then
      s
    else if IsWhitespace(s[0]) then
      assert AllWhitespace(s) <==> AllWhitespace(s[1..]) by {
        assert forall i :: 0 <= i < |s| - 1 ==> s[1..][i] == s[i + 1];
      }
      Strip(s[1..])
    else if IsWhitespace(s[|s| - 1]) then
      assert !AllWhitespace(s);
      Strip(s[..|s| - 1])
    else
      s
  }

  /** `r` is the slice `s[lo..hi]`, and everything of `s` outside it is
      whitespace. */
  predicate StrippedAt(s: string, r: string, lo: int, hi: int) {
    && 0 <= lo <= hi <= |s|
    && r == s[lo..hi]
    && (forall i :: 0 <= i < lo ==> IsWhitespace(s[i]))
    && (forall i :: hi <= i < |s| ==> IsWhitespace(s[i]))
  }

  /** What strip() returns is a slice of its argument, with only whitespace
      cut from either side. */
  lemma {:induction false} StripIsSlice(s: string)
    ensures exists lo, hi :: StrippedAt(s, Strip(s), lo, hi)
    decreases |s|
  {
    var r := Strip(s);
    if s == [] {
      assert StrippedAt(s, r, 0, 0);
    } else if IsWhitespace(s[0]) {
      var t := s[1..];
      StripIsSlice(t);
      var lo, hi :| StrippedAt(t, r, lo, hi);
      assert s[lo + 1..hi + 1] == t[lo..hi];
      forall i | 0 <= i < lo + 1
        ensures IsWhitespace(s[i])
      {
        if i > 0 {
          assert s[i] == t[i - 1];
        }
      }
      forall i | hi + 1 <= i < |s|
        ensures IsWhitespace(s[i])
      {
        assert s[i] == t[i - 1];
      }
      assert StrippedAt(s, r, lo + 1, hi + 1);
    } else if IsWhitespace(s[|s| - 1]) {
      var t := s[..|s| - 1];
      StripIsSlice(t);
      var lo, hi :| StrippedAt(t, r, lo, hi);
      assert s[lo..hi] == t[lo..hi];
      forall i | hi <= i < |s|
        ensures IsWhitespace(s[i])
      {
        if i < |s| - 1 {
          assert s[i] == t[i];
        }
      }
      assert StrippedAt(s, r, lo, hi);
    } else {
      assert StrippedAt(s, r, 0, |s|);
    }
  }

  /** `t` occurs in `s` starting at position `i`. */
  predicate OccursAt(t: string, s: string, i: int) {
    0 <= i <= |s| - |t| && s[i..i + |t|] == t
  }

  /** `t` occurs as a contiguous, case-sensitive substring of `s`. */
  predicate IsSubstring(t: string, s: string) {
    exists i :: 0 <= i <= |s| - |t| && OccursAt(t, s, i)
  }

  /** If `s` does not start with `t`, then `t` occurs in `s` exactly when it
      occurs in `s` without its first character. */
  lemma SubstringOfTail(t: string, s: string)
    requires |t| <= |s| && s[..|t|] != t
    ensures IsSubstring(t, s) <==> IsSubstring(t, s[1..])
  {
    if IsSubstring(t, s) {
      var i :| 0 <= i <= |s| - |t| && OccursAt(t, s, i);
      assert s[i..i + |t|] == t;
      assert i != 0 by { assert s[..|t|] == s[0..|t|]; }
      assert s[1..][i - 1..i - 1 + |t|] == t;
      assert OccursAt(t, s[1..], i - 1);
    }
    if IsSubstring(t, s[1..]) {
      var i :| 0 <= i <= |s| - 1 - |t| && OccursAt(t, s[1..], i);
      assert s[i + 1..i + 1 + |t|] == t;
      assert OccursAt(t, s, i + 1);
    }
  }

  /** Python's `t in s` for strings, as a left-to-right scan of the start
      positions of `s`; it decides exactly IsSubstring. */
  function Occurs(t: string, s: string): (r: bool)
    ensures r <==> IsSubstring(t, s)
    decreases |s|
  {
    if |t| > |s| then
      false
    else if s[..|t|] == t then
      assert OccursAt(t, s, 0);
      true
    else
      SubstringOfTail(t, s);
      Occurs(t, s[1..])
  }

  /** A string that contains a character `c` cannot occur inside a string
      without `c`. */
  lemma MissingCharacter(t: string, s: string, c: char)
    requires c in t && c !in s
    ensures !IsSubstring(t, s)
  {
  }
}
