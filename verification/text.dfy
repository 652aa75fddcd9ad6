/**
  Python's `str.strip()` with no argument, as the terminal uses it to turn the
  pending line into a command. Whitespace is the set of characters for which
  `str.isspace()` holds.
 */
module Text {

  /** `c.isspace()`: the characters Python 3 treats as whitespace. */
  predicate IsSpace(c: char) {
    || ('\t' <= c <= '\r')
    || ('\U{1C}' <= c <= ' ')
    || c == '\U{85}'
    || c == '\U{A0}'
    || c == '\U{1680}'
    || ('\U{2000}' <= c <= '\U{200A}')
    || c == '\U{2028}'
    || c == '\U{2029}'
    || c == '\U{202F}'
    || c == '\U{205F}'
    || c == '\U{3000}'
  }

  /** Every character of `s[lo..hi]` is whitespace. */
  ghost predicate SpaceBetween(s: string, lo: int, hi: int)
    requires 0 <= lo <= hi <= |s|
  {
    forall k :: lo <= k < hi ==> IsSpace(s[k])
  }

  ghost predicate AllSpace(s: string) {
    SpaceBetween(s, 0, |s|)
  }

  /** True when `s` starts and ends with a non-space character (or is empty). */
  ghost predicate Trimmed(s: string) {
    s == [] || (!IsSpace(s[0]) && !IsSpace(s[|s| - 1]))
  }

  /** The first index at or after `i` that holds a non-space, or `|s|` when there is none. */
  function SkipSpaces(s: string, i: nat): (n: nat)
    requires i <= |s|
    ensures i <= n <= |s|
    ensures SpaceBetween(s, i, n)
    ensures n == |s| || !IsSpace(s[n])
    decreases |s| - i
  {
    if i == |s| || !IsSpace(s[i]) then i else SkipSpaces(s, i + 1)
  }

  /** Walking back from `j` towards `lo`: the end of the last non-space, or `lo` when there is none. */
  function SkipSpacesBack(s: string, lo: nat, j: nat): (n: nat)
    requires lo <= j <= |s|
    ensures lo <= n <= j
    ensures SpaceBetween(s, n, j)
    ensures n == lo || !IsSpace(s[n - 1])
  {
    if j == lo || !IsSpace(s[j - 1]) then j else SkipSpacesBack(s, lo, j - 1)
  }

  /**
    `s.strip()`: what remains once the whitespace run at each end is removed.
    It starts and ends with a non-space, and it is empty exactly when `s` is
    all whitespace.
   */
  function Strip(s: string): (r: string)
    ensures |r| <= |s|
    ensures Trimmed(r)
    ensures r == [] <==> AllSpace(s)
  {
    var a := SkipSpaces(s, 0);
    var e := SkipSpacesBack(s, a, |s|);
    if a == e then
      assert AllSpace(s) by {
        assert SpaceBetween(s, 0, a) && SpaceBetween(s, a, |s|);
      }
      []
    else
      s[a..e]
  }

  /** Every string is whitespace, then its stripped form, then whitespace. */
  lemma StripDecompose(s: string) returns (pre: string, post: string)
    ensures s == pre + Strip(s) + post
    ensures AllSpace(pre) && AllSpace(post)
  {
    var a := SkipSpaces(s, 0);
    var e := SkipSpacesBack(s, a, |s|);
    if a == e {
      pre, post := s[..a], s[a..];
      assert s == pre + post;
    } else {
      pre, post := s[..a], s[e..];
      assert s[..e] == s[..a] + s[a..e];
      assert s == s[..e] + s[e..];
    }
    assert AllSpace(post) by {
      forall k | 0 <= k < |post| ensures IsSpace(post[k]) {
        assert post[k] == s[|s| - |post| + k];
      }
    }
  }

  /** The decomposition is unique: around a trimmed middle, Strip removes exactly the whitespace. */
  lemma StripUnique(pre: string, mid: string, post: string)
    requires AllSpace(pre) && AllSpace(post) && Trimmed(mid)
    ensures Strip(pre + mid + post) == mid
  {
    var s := pre + mid + post;
    if mid == [] {
      assert AllSpace(s) by {
        forall k | 0 <= k < |s| ensures IsSpace(s[k]) {
          if k < |pre| { assert s[k] == pre[k]; } else { assert s[k] == post[k - |pre|]; }
        }
      }
    } else {
      var e := |pre| + |mid|;
      assert s[|pre|] == mid[0];
      assert s[e - 1] == mid[|mid| - 1];
      assert SpaceBetween(s, 0, |pre|) by {
        forall k | 0 <= k < |pre| ensures IsSpace(s[k]) { assert s[k] == pre[k]; }
      }
      assert SpaceBetween(s, e, |s|) by {
        forall k | e <= k < |s| ensures IsSpace(s[k]) { assert s[k] == post[k - e]; }
      }
      SkipSpacesFrom(s, 0, |pre|);
      SkipSpacesBackFrom(s, |pre|, |s|, e);
      assert s[|pre|..e] == mid;
    }
  }

  /** SkipSpaces stops at the first non-space after a run of spaces. */
  lemma {:induction false} SkipSpacesFrom(s: string, i: nat, m: nat)
    requires i <= m < |s| && SpaceBetween(s, i, m) && !IsSpace(s[m])
    ensures SkipSpaces(s, i) == m
    decreases m - i
  {
    if i < m {
      SkipSpacesFrom(s, i + 1, m);
    }
  }

  /** SkipSpacesBack stops just after the last non-space before a run of spaces. */
  lemma {:induction false} SkipSpacesBackFrom(s: string, lo: nat, j: nat, m: nat)
    requires lo < m <= j <= |s| && SpaceBetween(s, m, j) && !IsSpace(s[m - 1])
    ensures SkipSpacesBack(s, lo, j) == m
    decreases j - m
  {
    if m < j {
      SkipSpacesBackFrom(s, lo, j - 1, m);
    }
  }

  /** Stripping twice is stripping once. */
  lemma StripIdempotent(s: string)
    ensures Strip(Strip(s)) == Strip(s)
  {
    StripUnique([], Strip(s), []);
    assert [] + Strip(s) + [] == Strip(s);
  }

  /** A command that already has no surrounding whitespace passes through unchanged. */
  lemma StripTrimmed(s: string)
    requires Trimmed(s)
    ensures Strip(s) == s
  {
    StripUnique([], s, []);
    assert [] + s + [] == s;
  }
}
