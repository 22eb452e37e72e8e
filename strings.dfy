/** The two text transformations both applications rely on: Python's
    `str.strip()` with no argument, and `str.lower()` on the ASCII letters. */
module Strings {

  /** Python's `str.isspace()` for a single code point: the ASCII controls
      TAB..CR and FS..US, the space, NEL, NO-BREAK SPACE and the Unicode
      space separators. */
  predicate IsSpace(c: char) {
    || c == ' '
    || ('\U{9}' <= c <= '\U{D}')
    || ('\U{1C}' <= c <= '\U{1F}')
    || c == '\U{85}' || c == '\U{A0}' || c == '\U{1680}'
    || ('\U{2000}' <= c <= '\U{200A}')
    || c == '\U{2028}' || c == '\U{2029}' || c == '\U{202F}'
    || c == '\U{205F}' || c == '\U{3000}'
  }

  /** Every character of `s` is white space (vacuously true of ""). */
  predicate AllSpace(s: string) {
    forall i :: 0 <= i < |s| ==> IsSpace(s[i])
  }

  /** The first index at or after `i` that is not white space (`|s|` when
      there is none): everything skipped is white space. */
  function SkipLeft(s: string, i: nat): (lo: nat)
    requires i <= |s|
    ensures i <= lo <= |s|
    ensures forall k :: i <= k < lo ==> IsSpace(s[k])
    ensures lo == |s| || !IsSpace(s[lo])
    decreases |s| - i
  {
    if i < |s| && IsSpace(s[i]) then SkipLeft(s, i + 1) else i
  }

  /** The end of `s[lo..j]` once its trailing white space is dropped:
      everything dropped is white space, and the character before the end,
      if any after `lo`, is not. */
  function SkipRight(s: string, lo: nat, j: nat): (hi: nat)
    requires lo <= j <= |s|
    ensures lo <= hi <= j
    ensures forall k :: hi <= k < j ==> IsSpace(s[k])
    ensures hi == lo || !IsSpace(s[hi - 1])
    decreases j
  {
    if lo < j && IsSpace(s[j - 1]) then SkipRight(s, lo, j - 1) else j
  }

  /** Python's `s.strip()`: `s` with its leading and trailing white space
      removed. The result is the slice of `s` that starts at its first
      character that is not white space; everything cut off on either side
      is white space, and neither end of the result is white space (see
      `StripEmptyIff` for when it is ""). */
  function Strip(s: string): (r: string)
    ensures var lo := SkipLeft(s, 0);
            && lo + |r| <= |s| && r == s[lo..lo + |r|]
            && (forall k :: 0 <= k < lo ==> IsSpace(s[k]))
            && (forall k :: lo + |r| <= k < |s| ==> IsSpace(s[k]))
    ensures r == [] || (!IsSpace(r[0]) && !IsSpace(r[|r| - 1]))
  {
    var lo := SkipLeft(s, 0);
    var hi := SkipRight(s, lo, |s|);
    assert lo < hi ==> s[lo..hi][0] == s[lo] && s[lo..hi][hi - lo - 1] == s[hi - 1];
    s[lo..hi]
  }

  /** `strip()` yields "" exactly when the text is all white space. */
  lemma StripEmptyIff(s: string)
    ensures Strip(s) == [] <==> AllSpace(s)
  {
    var lo := SkipLeft(s, 0);
    var hi := SkipRight(s, lo, |s|);
  }

  /** Stripping a stripped string changes nothing: a fact for the reader
      about `Strip`, which no caller relies on. */
  lemma StripIdempotent(s: string)
    ensures Strip(Strip(s)) == Strip(s)
  {
    var r := Strip(s);
    assert SkipLeft(r, 0) == 0 by {
      assert r != [] ==> !IsSpace(r[0]);
    }
    assert SkipRight(r, 0, |r|) == |r| by {
      assert r != [] ==> !IsSpace(r[|r| - 1]);
    }
  }

  /** `str.lower()` on one character, ASCII letters only. */
  function LowerChar(c: char): char {
    if 'A' <= c <= 'Z' then (c as int - 'A' as int + 'a' as int) as char else c
  }

  /** `str.lower()`, ASCII letters only. */
  function Lower(s: string): string {
    seq(|s|, i requires 0 <= i < |s| => LowerChar(s[i]))
  }
}
