/**
 * The string primitives the handler relies on: substring search with the
 * semantics of Python's `str.find`, and whitespace stripping with the
 * semantics of `str.strip()` without arguments.
 */
module Text {

  /** `pat` occurs in `s` starting at index `i`. */
  predicate OccursAt(s: string, pat: string, i: nat) {
    i + |pat| <= |s| && s[i..i + |pat|] == pat
  }

  /** `pat` is a substring of `s` (Python's `pat in s`). */
  ghost predicate Contains(s: string, pat: string) {
    exists i: nat :: OccursAt(s, pat, i)
  }

  /** The lowest index at or after `from` where `pat` occurs in `s`, or -1. */
  function FindFrom(s: string, pat: string, from: nat): (r: int)
    ensures r == -1 || (from <= r && OccursAt(s, pat, r))
    ensures r == -1 ==> forall j: nat :: from <= j ==> !OccursAt(s, pat, j)
    ensures r != -1 ==> forall j: nat :: from <= j < r ==> !OccursAt(s, pat, j)
    decreases |s| + 1 - from
  {
    if from + |pat| > |s| then -1
    else if s[from..from + |pat|] == pat then from
    else FindFrom(s, pat, from + 1)
  }

  /** Python's `s.find(pat)`: the index of the first occurrence of `pat`, or -1 when there is none. */
  function Find(s: string, pat: string): (r: int)
    ensures r == -1 <==> !Contains(s, pat)
    ensures r != -1 ==> 0 <= r && OccursAt(s, pat, r)
    ensures r != -1 ==> forall j: nat :: j < r ==> !OccursAt(s, pat, j)
  {
    FindFrom(s, pat, 0)
  }

  /** Find is determined by the first occurrence: any index where `pat` occurs, with no occurrence before it, is the answer. */
  lemma FindFirstAt(s: string, pat: string, k: nat)
    requires OccursAt(s, pat, k)
    requires forall j: nat :: j < k ==> !OccursAt(s, pat, j)
    ensures Find(s, pat) == k
  {
    assert Contains(s, pat);
  }

  /** An occurrence in a slice is an occurrence in the whole, shifted by the slice's start. */
  lemma OccursInSlice(s: string, lo: nat, hi: nat, pat: string, j: nat)
    requires lo <= hi <= |s|
    requires OccursAt(s[lo..hi], pat, j)
    ensures OccursAt(s, pat, lo + j)
  {
    forall k | 0 <= k < |pat|
      ensures s[lo + j..lo + j + |pat|][k] == pat[k]
    {
      assert s[lo..hi][j..j + |pat|][k] == pat[k];
    }
    assert s[lo + j..lo + j + |pat|] == pat;
  }

  /** A slice of a string that does not contain `pat` does not contain it either. */
  lemma NotContainsSlice(s: string, lo: nat, hi: nat, pat: string)
    requires lo <= hi <= |s|
    requires !Contains(s, pat)
    ensures !Contains(s[lo..hi], pat)
  {
    if Contains(s[lo..hi], pat) {
      var j: nat :| OccursAt(s[lo..hi], pat, j);
      OccursInSlice(s, lo, hi, pat, j);
      assert Contains(s, pat);
    }
  }

  /**
   * In `s[..k]`, where `k` is the first occurrence of a non-empty `pat` in `s`,
   * `pat` does not occur, not even overlapping the occurrence at `k` by all
   * but one character.
   */
  lemma NoneBeforeFirst(s: string, pat: string, k: nat)
    requires 0 < |pat| && OccursAt(s, pat, k)
    requires forall j: nat :: j < k ==> !OccursAt(s, pat, j)
    ensures k + |pat| - 1 <= |s|
    ensures !Contains(s[..k + |pat| - 1], pat)
  {
    var t := s[..k + |pat| - 1];
    if Contains(t, pat) {
      var j: nat :| OccursAt(t, pat, j);
      OccursInSlice(s, 0, k + |pat| - 1, pat, j);
      assert false;
    }
  }

  /** Ahead of the first occurrence of a non-empty `pat`, `pat` does not occur. */
  lemma NoneInPrefixBeforeFirst(s: string, pat: string, k: nat)
    requires 0 < |pat| && k <= |s|
    requires forall j: nat :: j < k ==> !OccursAt(s, pat, j)
    ensures !Contains(s[..k], pat)
  {
    forall j: nat
      ensures !OccursAt(s[..k], pat, j)
    {
      if OccursAt(s[..k], pat, j) {
        OccursInSlice(s, 0, k, pat, j);
      }
    }
  }

  /**
   * When a non-empty `pat` does not occur in `s` followed by all but the last
   * character of `pat`, the first occurrence of `pat` in `s + pat + q` is
   * the one right after `s`.
   */
  lemma FindAfter(s: string, pat: string, q: string)
    requires 0 < |pat|
    requires !Contains(s + pat[..|pat| - 1], pat)
    ensures Find(s + pat + q, pat) == |s|
  {
    var t := s + pat + q;
    var w := s + pat[..|pat| - 1];
    assert t[|s|..|s| + |pat|] == pat;
    forall j: nat | j < |s|
      ensures !OccursAt(t, pat, j)
    {
      if OccursAt(t, pat, j) {
        assert t[j..j + |pat|] == w[j..j + |pat|];
        assert OccursAt(w, pat, j);
        assert Contains(w, pat);
      }
    }
    FindFirstAt(t, pat, |s|);
  }

  /**
   * Cutting `s` at the first occurrence of a non-empty `pat`: what comes
   * before it does not contain `pat`, not even overlapping the occurrence.
   */
  lemma SplitAtFirst(s: string, pat: string) returns (a: string, b: string)
    requires 0 < |pat| && Find(s, pat) != -1
    ensures s == a + pat + b && |a| == Find(s, pat)
    ensures !Contains(a + pat[..|pat| - 1], pat)
  {
    var k := Find(s, pat);
    a, b := s[..k], s[k + |pat|..];
    assert s[k..k + |pat|] == pat;
    assert s == a + pat + b by {
      assert s == s[..k] + s[k..k + |pat|] + s[k + |pat|..];
    }
    NoneBeforeFirst(s, pat, k);
    assert s[..k + |pat| - 1] == a + pat[..|pat| - 1];
  }

  /** Python's `str.isspace()` for one character: the whitespace that `str.strip()` removes. */
  predicate IsSpace(c: char) {
    || ('\t' <= c <= '\r')
    || ('\U{1C}' <= c <= ' ')
    || c == '\U{85}' || c == '\U{A0}' || c == '\U{1680}'
    || ('\U{2000}' <= c <= '\U{200A}')
    || c == '\U{2028}' || c == '\U{2029}' || c == '\U{202F}' || c == '\U{205F}'
    || c == '\U{3000}'
  }

  /** Every character of `s` is whitespace. */
  predicate AllSpace(s: string) {
    forall i :: 0 <= i < |s| ==> IsSpace(s[i])
  }

  /** `s` neither begins nor ends with whitespace. */
  predicate IsStripped(s: string) {
    s == [] || (!IsSpace(s[0]) && !IsSpace(s[|s| - 1]))
  }

  /** Python's `s.lstrip()`: the longest suffix of `s` that does not begin with whitespace. */
  function TrimStart(s: string): (r: string)
    ensures |r| <= |s| && r == s[|s| - |r|..]
    ensures forall i :: 0 <= i < |s| - |r| ==> IsSpace(s[i])
    ensures r == [] || !IsSpace(r[0])
  {
    if s != [] && IsSpace(s[0]) then
      var r := TrimStart(s[1..]);
      assert forall i :: 1 <= i < |s| - |r| ==> s[i] == s[1..][i - 1];
      r
    else s
  }

  /** Python's `s.rstrip()`: the longest prefix of `s` that does not end with whitespace. */
  function TrimEnd(s: string): (r: string)
    ensures |r| <= |s| && r == s[..|r|]
    ensures forall i :: |r| <= i < |s| ==> IsSpace(s[i])
    ensures r == [] || !IsSpace(r[|r| - 1])
  {
    if s != [] && IsSpace(s[|s| - 1]) then
      var r := TrimEnd(s[..|s| - 1]);
      assert forall i :: |r| <= i < |s| - 1 ==> s[i] == s[..|s| - 1][i];
      r
    else s
  }

  /**
   * Python's `s.strip()`: `s` without its leading and trailing whitespace.
   * The result is the slice `s[i..i + |r|]` such that everything cut off is
   * whitespace and the slice itself neither begins nor ends with whitespace.
   */
  function Strip(s: string): (r: string)
    ensures IsStripped(r)
    ensures |r| <= |s|
    ensures exists i: nat :: StripsTo(s, i, r)
  {
    StripTrims(s);
    TrimEnd(TrimStart(s))
  }

  /** What lstrip and then rstrip leave of `s`. */
  lemma StripTrims(s: string)
    ensures var r := TrimEnd(TrimStart(s));
      |r| <= |s| && IsStripped(r) && exists i: nat :: StripsTo(s, i, r)
  {
    var a := TrimStart(s);
    StripWitness(s, a, TrimEnd(a));
  }

  /** A prefix `r` of a suffix `a` of `s`, with only whitespace cut off on either side, is where `s` strips to. */
  lemma StripWitness(s: string, a: string, r: string)
    requires |a| <= |s| && a == s[|s| - |a|..]
    requires forall k :: 0 <= k < |s| - |a| ==> IsSpace(s[k])
    requires |r| <= |a| && r == a[..|r|]
    requires forall k :: |r| <= k < |a| ==> IsSpace(a[k])
    requires a == [] || !IsSpace(a[0])
    requires r == [] || !IsSpace(r[|r| - 1])
    ensures |r| <= |s| && IsStripped(r)
    ensures exists i: nat :: StripsTo(s, i, r)
  {
    var i: nat := |s| - |a|;
    assert s[i..][..|r|] == s[i..i + |r|];
    forall k | i + |r| <= k < |s|
      ensures IsSpace(s[k])
    {
      assert s[k] == a[k - i];
    }
    assert StripsTo(s, i, r);
  }

  /** `r` is `s[i..i + |r|]`, and what lies on either side of it in `s` is whitespace. */
  ghost predicate StripsTo(s: string, i: nat, r: string) {
    && i + |r| <= |s|
    && r == s[i..i + |r|]
    && (forall k :: 0 <= k < i ==> IsSpace(s[k]))
    && (forall k :: i + |r| <= k < |s| ==> IsSpace(s[k]))
  }

  /** Stripping cannot create an occurrence. */
  lemma StripKeepsOut(s: string, pat: string)
    requires !Contains(s, pat)
    ensures !Contains(Strip(s), pat)
  {
    var r := Strip(s);
    var i := StripSlice(s, r);
    SliceKeepsOut(s, i, r, pat);
  }

  /** A piece `r` of `s` starting at `i` holds no occurrence that `s` lacks. */
  lemma SliceKeepsOut(s: string, i: nat, r: string, pat: string)
    requires i + |r| <= |s| && r == s[i..i + |r|]
    requires !Contains(s, pat)
    ensures !Contains(r, pat)
  {
    NotContainsSlice(s, i, i + |r|, pat);
  }

  /** Where in `s` its stripped form sits. */
  lemma StripSlice(s: string, r: string) returns (i: nat)
    requires r == Strip(s)
    ensures i + |r| <= |s| && r == s[i..i + |r|]
  {
    i :| StripsTo(s, i, r);
  }

  /** Stripping a string that is already stripped changes nothing. */
  lemma StripStripped(s: string)
    requires IsStripped(s)
    ensures Strip(s) == s
  {
  }

  /** Stripping is idempotent. */
  lemma StripIdempotent(s: string)
    ensures Strip(Strip(s)) == Strip(s)
  {
    StripStripped(Strip(s));
  }

  /** Leading whitespace does not change what is left after `lstrip`. */
  lemma {:induction false} TrimStartSpacePrefix(a: string, s: string)
    requires AllSpace(a)
    ensures TrimStart(a + s) == TrimStart(s)
  {
    if a != [] {
      assert (a + s)[1..] == a[1..] + s;
      TrimStartSpacePrefix(a[1..], s);
    } else {
      assert a + s == s;
    }
  }

  /** Trailing whitespace does not change what is left after `rstrip`. */
  lemma {:induction false} TrimEndSpaceSuffix(s: string, b: string)
    requires AllSpace(b)
    ensures TrimEnd(s + b) == TrimEnd(s)
  {
    if b != [] {
      assert (s + b)[..|s + b| - 1] == s + b[..|b| - 1];
      TrimEndSpaceSuffix(s, b[..|b| - 1]);
    } else {
      assert s + b == s;
    }
  }

  /** `lstrip` of a concatenation: the second part survives whole unless the first is all whitespace. */
  lemma {:induction false} TrimStartAppend(s: string, b: string)
    ensures TrimStart(s + b) == if TrimStart(s) == [] then TrimStart(b) else TrimStart(s) + b
  {
    if s == [] {
      assert s + b == b;
    } else if IsSpace(s[0]) {
      assert (s + b)[1..] == s[1..] + b;
      TrimStartAppend(s[1..], b);
    }
  }

  /** Whitespace on either side of `s` does not change `s.strip()`. */
  lemma StripPadded(a: string, s: string, b: string)
    requires AllSpace(a) && AllSpace(b)
    ensures Strip(a + s + b) == Strip(s)
  {
    assert a + s + b == a + (s + b);
    TrimStartSpacePrefix(a, s + b);
    TrimStartAppend(s, b);
    if TrimStart(s) == [] {
      TrimStartSpacePrefix(b, []);
      assert b + [] == b;
    } else {
      TrimEndSpaceSuffix(TrimStart(s), b);
    }
  }
}
