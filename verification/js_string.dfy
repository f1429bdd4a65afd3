/**
 * The two JavaScript string operations the core relies on:
 *  - the ASCII case folding a regular expression with the `i` flag (and
 *    without the `u` flag) applies when its pattern text is ASCII, and
 *  - `String.prototype.trim`, which strips ECMAScript WhiteSpace and
 *    LineTerminator code points from both ends.
 */
module JsString {

  /** ASCII lower-casing of one character; every other character is kept. */
  function LowerChar(c: char): char
  {
    if 'A' <= c <= 'Z' then (c as int + 32) as char else c
  }

  function Lower(s: string): string
  {
    seq(|s|, i requires 0 <= i < |s| => LowerChar(s[i]))
  }

  /** Two characters that a case-insensitive ASCII pattern treats as equal. */
  predicate SameIgnoringCase(a: char, b: char)
  {
    LowerChar(a) == LowerChar(b)
  }

  lemma LowerCharIdempotent(c: char)
    ensures LowerChar(LowerChar(c)) == LowerChar(c)
  {
  }

  lemma LowerIdempotent(s: string)
    ensures |Lower(s)| == |s|
    ensures Lower(Lower(s)) == Lower(s)
  {
    forall i | 0 <= i < |s|
      ensures Lower(Lower(s))[i] == Lower(s)[i]
    {
      LowerCharIdempotent(s[i]);
    }
  }

  /** Lower-casing commutes with slicing, so "starts with" and "ends with" may be read on either side. */
  lemma LowerSlice(s: string, i: int, j: int)
    requires 0 <= i <= j <= |s|
    ensures Lower(s)[i..j] == Lower(s[i..j])
  {
  }

  // ---------------------------------------------------------------------------
  // String.prototype.trim
  // ---------------------------------------------------------------------------

  /**
   * The ECMAScript WhiteSpace code points (TAB, VT, FF, ZWNBSP and every
   * category Zs space) together with the LineTerminator code points
   * (LF, CR, LS, PS).
   */
  predicate IsTrimSpace(c: char)
  {
    var n := c as int;
    n == 0x09 || n == 0x0A || n == 0x0B || n == 0x0C || n == 0x0D
    || n == 0x20 || n == 0xA0 || n == 0x1680
    || (0x2000 <= n <= 0x200A)
    || n == 0x2028 || n == 0x2029 || n == 0x202F || n == 0x205F
    || n == 0x3000 || n == 0xFEFF
  }

  predicate AllTrimSpace(s: string)
  {
    forall k :: 0 <= k < |s| ==> IsTrimSpace(s[k])
  }

  /** Every character of `s` in `[lo, hi)` is a trim space. */
  predicate SpaceBetween(s: string, lo: int, hi: int)
    requires 0 <= lo && hi <= |s|
  {
    forall k :: lo <= k < hi ==> IsTrimSpace(s[k])
  }

  /** Neither end of `s` is a trim space (vacuously true of the empty string). */
  predicate Trimmed(s: string)
  {
    s == [] || (!IsTrimSpace(s[0]) && !IsTrimSpace(s[|s| - 1]))
  }

  /** Where the text starts once the white space from `i` on is skipped. */
  function SkipSpace(s: string, i: nat): (r: nat)
    requires i <= |s|
    ensures i <= r <= |s| && SpaceBetween(s, i, r)
    ensures r == |s| || !IsTrimSpace(s[r])
    decreases |s| - i
  {
    if i < |s| && IsTrimSpace(s[i]) then SkipSpace(s, i + 1) else i
  }

  /** Where the text ends once the white space before `j`, down to `lo`, is dropped. */
  function DropSpace(s: string, lo: nat, j: nat): (r: nat)
    requires lo <= j <= |s|
    ensures lo <= r <= j && SpaceBetween(s, r, j)
    ensures r == lo || !IsTrimSpace(s[r - 1])
  {
    if j > lo && IsTrimSpace(s[j - 1]) then DropSpace(s, lo, j - 1) else j
  }

  /** Where `Trim(s)` starts in `s`. */
  function TrimStartIndex(s: string): (i: nat)
    ensures i <= |s|
  {
    SkipSpace(s, 0)
  }

  /**
   * `s.trim()`: the infix of `s` left once the white space at both ends is
   * removed. Only white space is removed, and neither end of the result is
   * white space.
   */
  function Trim(s: string): (r: string)
    ensures var i := TrimStartIndex(s);
            i + |r| <= |s| && r == s[i..i + |r|]
            && SpaceBetween(s, 0, i) && SpaceBetween(s, i + |r|, |s|)
    ensures Trimmed(r)
  {
    var i := SkipSpace(s, 0);
    var j := DropSpace(s, i, |s|);
    s[i..j]
  }

  /**
   * The result of `Trim` is the only infix with white space (and nothing
   * else) on both sides and no white space at its ends.
   */
  lemma TrimUnique(s: string, i: int, j: int)
    requires 0 <= i <= j <= |s|
    requires SpaceBetween(s, 0, i) && SpaceBetween(s, j, |s|)
    requires Trimmed(s[i..j])
    ensures Trim(s) == s[i..j]
  {
    var i' := SkipSpace(s, 0);
    var j' := DropSpace(s, i', |s|);
    if i == j {
      // all of s is white space
      assert i' == |s|;
    } else {
      assert s[i] == s[i..j][0] && s[j - 1] == s[i..j][j - i - 1];
      assert i' == i;
      assert j' == j;
    }
  }

  lemma TrimAllSpace(s: string)
    requires AllTrimSpace(s)
    ensures Trim(s) == []
  {
    TrimUnique(s, 0, 0);
  }

  /** A string with no white space at its ends is its own trimmed form. */
  lemma TrimOfTrimmed(s: string)
    requires Trimmed(s)
    ensures Trim(s) == s
  {
    assert s[0..|s|] == s;
    TrimUnique(s, 0, |s|);
  }

  lemma TrimIdempotent(s: string)
    ensures Trim(Trim(s)) == Trim(s)
  {
    TrimOfTrimmed(Trim(s));
  }
}
