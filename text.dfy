/**
 * Text as Python handles it on this page: `str.strip()` for column names
 * and the code-point order `<` that `sort_values` uses on product names.
 */
module Text {

  /** Python's `str.isspace()`: the characters `str.strip()` removes. */
  predicate IsSpace(c: char) {
    ('\U{09}' <= c <= '\U{0D}') || ('\U{1C}' <= c <= '\U{20}')
    || c == '\U{85}' || c == '\U{A0}' || c == '\U{1680}'
    || ('\U{2000}' <= c <= '\U{200A}')
    || c == '\U{2028}' || c == '\U{2029}' || c == '\U{202F}' || c == '\U{205F}' || c == '\U{3000}'
  }

  /** Neither starts nor ends with whitespace. */
  predicate IsStripped(s: string) {
    s == [] || (!IsSpace(s[0]) && !IsSpace(s[|s| - 1]))
  }

  /** Every character of `s` from `lo` up to `hi` is whitespace. */
  predicate SpaceBetween(s: string, lo: int, hi: int)
    requires 0 <= lo <= hi <= |s|
  {
    forall k :: lo <= k < hi ==> IsSpace(s[k])
  }

  /** The first index from `i` on that does not hold whitespace (or `|s|`). */
  function SkipSpaceForward(s: string, i: nat): (k: nat)
    requires i <= |s|
    ensures i <= k <= |s| && SpaceBetween(s, i, k)
    ensures k < |s| ==> !IsSpace(s[k])
    decreases |s| - i
  {
    if i < |s| && IsSpace(s[i]) then SkipSpaceForward(s, i + 1) else i
  }

  /** Going back from `j`, but not past `lo`: the end of the last non-whitespace character (or `lo`). */
  function SkipSpaceBackward(s: string, lo: nat, j: nat): (k: nat)
    requires lo <= j <= |s|
    ensures lo <= k <= j && SpaceBetween(s, k, j)
    ensures k > lo ==> !IsSpace(s[k - 1])
  {
    if j > lo && IsSpace(s[j - 1]) then SkipSpaceBackward(s, lo, j - 1) else j
  }

  /**
   * `s.strip()`: skip whitespace from the left, then from the right down
   * to where the left scan stopped, and keep what lies between.
   */
  function Strip(s: string): (r: string)
    ensures IsStripped(r) && |r| <= |s|
  {
    var i := SkipSpaceForward(s, 0);
    var j := SkipSpaceBackward(s, i, |s|);
    s[i..j]
  }

  /**
   * `str.strip()` removes whitespace at the ends and nothing else: the result
   * is a contiguous part of `s`, and everything before and after it is
   * whitespace.
   */
  lemma StripRemovesSpaceOnly(s: string)
    ensures exists i, j :: 0 <= i <= j <= |s| && Strip(s) == s[i..j]
                           && SpaceBetween(s, 0, i) && SpaceBetween(s, j, |s|)
  {
    var i := SkipSpaceForward(s, 0);
    var j := SkipSpaceBackward(s, i, |s|);
    assert Strip(s) == s[i..j] && SpaceBetween(s, 0, i) && SpaceBetween(s, j, |s|);
  }

  /** Stripping text that has no whitespace at its ends leaves it as it is. */
  lemma StripStripped(s: string)
    requires IsStripped(s)
    ensures Strip(s) == s
  {
  }

  /** `str.strip()` is idempotent. */
  lemma StripIdempotent(s: string)
    ensures Strip(Strip(s)) == Strip(s)
  {
    StripStripped(Strip(s));
  }

  /** `[str(c).strip() for c in df.columns]`. */
  function StripAll(names: seq<string>): (r: seq<string>)
    ensures |r| == |names|
    ensures forall i :: 0 <= i < |r| ==> IsStripped(r[i])
  {
    seq(|names|, i requires 0 <= i < |names| => Strip(names[i]))
  }

  /** A column name with no whitespace at its ends is found under that name after trimming. */
  lemma StrippedNameFound(names: seq<string>, i: nat)
    requires i < |names| && IsStripped(names[i])
    ensures names[i] in StripAll(names)
  {
    var name := names[i];
    assert StripAll(names)[i] == Strip(name);
    StripStripped(name);
  }

  /** Every character of `w` is whitespace. */
  predicate AllSpace(w: string) {
    forall k :: 0 <= k < |w| ==> IsSpace(w[k])
  }

  /** The left scan stops at the first non-whitespace character after a run of whitespace. */
  lemma SkipForwardStops(s: string, i: nat, m: nat)
    requires i <= m < |s| && SpaceBetween(s, i, m) && !IsSpace(s[m])
    ensures SkipSpaceForward(s, i) == m
  {
  }

  /** The right scan stops just after the last non-whitespace character before a run of whitespace. */
  lemma SkipBackwardStops(s: string, lo: nat, j: nat, m: nat)
    requires lo < m <= j <= |s| && SpaceBetween(s, m, j) && !IsSpace(s[m - 1])
    ensures SkipSpaceBackward(s, lo, j) == m
  {
  }

  /** A name padded with whitespace on either side strips to the bare name. */
  lemma StripPadded(w1: string, n: string, w2: string)
    requires n != [] && IsStripped(n) && AllSpace(w1) && AllSpace(w2)
    ensures Strip(w1 + n + w2) == n
  {
    var s := w1 + n + w2;
    var i, j := |w1|, |w1| + |n|;
    assert s[i] == n[0] && s[j - 1] == n[|n| - 1];
    assert SpaceBetween(s, 0, i) by {
      forall k | 0 <= k < i ensures IsSpace(s[k]) { assert s[k] == w1[k]; }
    }
    assert SpaceBetween(s, j, |s|) by {
      forall k | j <= k < |s| ensures IsSpace(s[k]) { assert s[k] == w2[k - j]; }
    }
    SkipForwardStops(s, 0, i);
    SkipBackwardStops(s, i, |s|, j);
    assert s[i..j] == n;
  }

  /** A column whose header is a name padded with whitespace is found under the bare name after trimming. */
  lemma PaddedNameFound(names: seq<string>, i: nat, w1: string, n: string, w2: string)
    requires i < |names| && names[i] == w1 + n + w2
    requires n != [] && IsStripped(n) && AllSpace(w1) && AllSpace(w2)
    ensures n in StripAll(names)
  {
    assert StripAll(names)[i] == Strip(names[i]);
    StripPadded(w1, n, w2);
  }

  /** Trimming the column names a second time changes nothing. */
  lemma StripAllIdempotent(names: seq<string>)
    ensures StripAll(StripAll(names)) == StripAll(names)
  {
    var once := StripAll(names);
    forall i | 0 <= i < |names|
      ensures StripAll(once)[i] == once[i]
    {
      StripStripped(once[i]);
    }
  }

  // ---------------------------------------------------------------
  // Python string order

  /** `a <= b` on Python strings: lexicographic by code point, a prefix first. */
  predicate TextLe(a: string, b: string) {
    a == [] || (b != [] && (a[0] < b[0] || (a[0] == b[0] && TextLe(a[1..], b[1..]))))
  }

  lemma {:induction false} TextLeTotal(a: string, b: string)
    ensures TextLe(a, b) || TextLe(b, a)
  {
    if a != [] && b != [] && a[0] == b[0] {
      TextLeTotal(a[1..], b[1..]);
    }
  }

  lemma {:induction false} TextLeTransitive(a: string, b: string, c: string)
    requires TextLe(a, b) && TextLe(b, c)
    ensures TextLe(a, c)
  {
    if a != [] && a[0] == b[0] && b[0] == c[0] {
      TextLeTransitive(a[1..], b[1..], c[1..]);
    }
  }
}
