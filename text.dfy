/**
 * String helpers of the Rust standard library that the chat code relies on:
 * `str::starts_with`, the greedy run of a negated character class, and `str::trim`.
 */
module Text {

  /** Rust's `s.starts_with(p)`. */
  predicate StartsWith(s: string, p: string) {
    |p| <= |s| && s[..|p|] == p
  }

  /** Rust's `s.ends_with(p)`. */
  predicate EndsWith(s: string, p: string) {
    |p| <= |s| && s[|s| - |p|..] == p
  }

  lemma StartsWithAppend(p: string, rest: string)
    ensures StartsWith(p + rest, p)
  {
    assert (p + rest)[..|p|] == p;
  }

  lemma EndsWithAppend(s: string, p: string)
    ensures EndsWith(s + p, p)
  {
    assert (s + p)[|s|..] == p;
  }

  /** Whether `p` occurs in `s` starting at index `i`. */
  predicate OccursAt(s: string, p: string, i: nat) {
    i + |p| <= |s| && s[i..i + |p|] == p
  }

  /**
   * End of the greedy run of characters other than `stop` that starts at `from`
   * (the match of `[^stop]*` there): the first index at or after `from` that holds
   * `stop`, or `|s|` if there is none.
   */
  function RunEnd(s: string, from: nat, stop: char): (j: nat)
    requires from <= |s|
    ensures from <= j <= |s|
    ensures forall k :: from <= k < j ==> s[k] != stop
    ensures j < |s| ==> s[j] == stop
    decreases |s| - from
  {
    if from == |s| || s[from] == stop then from else RunEnd(s, from + 1, stop)
  }

  /** Rust's `char::is_whitespace`: the Unicode White_Space property. */
  predicate IsWhiteSpace(c: char) {
    ('\t' <= c <= '\r') || c == ' ' || c == '\U{85}' || c == '\U{A0}' || c == '\U{1680}'
    || ('\U{2000}' <= c <= '\U{200A}') || c == '\U{2028}' || c == '\U{2029}'
    || c == '\U{202F}' || c == '\U{205F}' || c == '\U{3000}'
  }

  /** Index of the first character at or after `from` that is not white space, or `|s|`. */
  function SkipWhiteSpace(s: string, from: nat): (i: nat)
    requires from <= |s|
    ensures from <= i <= |s|
    ensures forall k :: from <= k < i ==> IsWhiteSpace(s[k])
    ensures i < |s| ==> !IsWhiteSpace(s[i])
    decreases |s| - from
  {
    if from < |s| && IsWhiteSpace(s[from]) then SkipWhiteSpace(s, from + 1) else from
  }

  /**
   * Walking back from `hi`, no further than `lo`: the index just past the last character
   * before `hi` that is not white space, or `lo`.
   */
  function SkipWhiteSpaceBack(s: string, lo: nat, hi: nat): (j: nat)
    requires lo <= hi <= |s|
    ensures lo <= j <= hi
    ensures forall k :: j <= k < hi ==> IsWhiteSpace(s[k])
    ensures lo < j ==> !IsWhiteSpace(s[j - 1])
    decreases hi
  {
    if lo < hi && IsWhiteSpace(s[hi - 1]) then SkipWhiteSpaceBack(s, lo, hi - 1) else hi
  }

  /** Start of `str::trim`'s result in `s`: the end of the leading white space. */
  function TrimFrom(s: string): (a: nat)
    ensures a <= |s|
  {
    SkipWhiteSpace(s, 0)
  }

  /** End of `str::trim`'s result in `s`: the start of the trailing white space. */
  function TrimTo(s: string): (b: nat)
    ensures TrimFrom(s) <= b <= |s|
  {
    SkipWhiteSpaceBack(s, TrimFrom(s), |s|)
  }

  /** Rust's `str::trim`: neither end of the result is white space. */
  function Trim(s: string): (r: string)
    ensures r != [] ==> !IsWhiteSpace(r[0]) && !IsWhiteSpace(r[|r| - 1])
  {
    s[TrimFrom(s)..TrimTo(s)]
  }

  /**
   * `Trim` removes nothing but white space: its result is the slice of `s` between
   * `TrimFrom(s)` and `TrimTo(s)`, and everything outside that slice is white space.
   */
  lemma TrimRemovesOnlyWhiteSpace(s: string)
    ensures var a, b := TrimFrom(s), TrimTo(s);
      Trim(s) == s[a..b]
      && (forall k :: 0 <= k < a ==> IsWhiteSpace(s[k]))
      && (forall k :: b <= k < |s| ==> IsWhiteSpace(s[k]))
  {
  }

  /**
   * `Trim` is fully determined: any slice `s[a..b]` with only white space outside it,
   * and whose ends are not white space (or which is empty because `s` is all white space),
   * is `Trim(s)`.
   */
  lemma TrimCharacterized(s: string, a: nat, b: nat)
    requires a <= b <= |s|
    requires forall k :: 0 <= k < a ==> IsWhiteSpace(s[k])
    requires forall k :: b <= k < |s| ==> IsWhiteSpace(s[k])
    requires a < b ==> !IsWhiteSpace(s[a]) && !IsWhiteSpace(s[b - 1])
    requires a == b ==> forall k :: 0 <= k < |s| ==> IsWhiteSpace(s[k])
    ensures Trim(s) == s[a..b]
  {
    var from := TrimFrom(s);
    if a < b {
      assert from == a;
      assert TrimTo(s) == b;
    } else {
      assert from == |s|;
    }
  }

  /** Trailing white space does not change the trim. */
  lemma TrimIgnoresTrailingWhiteSpace(s: string, w: char)
    requires IsWhiteSpace(w)
    ensures Trim(s + [w]) == Trim(s)
  {
    var a, b := TrimFrom(s), TrimTo(s);
    var t := s + [w];
    TrimRemovesOnlyWhiteSpace(s);
    assert forall k :: 0 <= k < |s| ==> t[k] == s[k];
    if a == b {
      assert forall k :: 0 <= k < |s| ==> IsWhiteSpace(s[k]);
      TrimCharacterized(t, 0, 0);
    } else {
      TrimCharacterized(t, a, b);
      assert t[a..b] == s[a..b];
    }
  }

  /** A string whose ends are not white space is its own trim. */
  lemma TrimOfTrimmed(s: string)
    requires s != [] ==> !IsWhiteSpace(s[0]) && !IsWhiteSpace(s[|s| - 1])
    ensures Trim(s) == s
  {
  }

  /** Trimming twice is trimming once. */
  lemma TrimIdempotent(s: string)
    ensures Trim(Trim(s)) == Trim(s)
  {
    TrimOfTrimmed(Trim(s));
  }

  /** Every character of `Trim(s)` occurs in `s`. */
  lemma TrimKeepsOnlyCharsOf(s: string, c: char)
    requires c !in s
    ensures c !in Trim(s)
  {
    TrimRemovesOnlyWhiteSpace(s);
  }
}
