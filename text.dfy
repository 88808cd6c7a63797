/**
  Python's `str.strip()` with no argument: remove leading and trailing
  whitespace, where whitespace is what `str.isspace()` accepts.
  Every request field of the inventory API passes through it.
 */
module Text {

  /** The code points for which Python's `str.isspace()` holds. */
  predicate IsSpace(c: char) {
    || c == ' '
    || ('\t' <= c <= '\r')              // \t \n \v \f \r
    || ('\U{1C}' <= c <= '\U{1F}')      // file, group, record and unit separators
    || c == '\U{85}' || c == '\U{A0}' || c == '\U{1680}'
    || ('\U{2000}' <= c <= '\U{200A}')
    || c == '\U{2028}' || c == '\U{2029}' || c == '\U{202F}'
    || c == '\U{205F}' || c == '\U{3000}'
  }

  /** Every character of `s` is whitespace. */
  predicate AllSpace(s: string) {
    forall k :: 0 <= k < |s| ==> IsSpace(s[k])
  }

  /** Every character of `s` from index `i` up to `j` is whitespace. */
  predicate SpaceBetween(s: string, i: nat, j: nat)
    requires i <= j <= |s|
  {
    forall k :: i <= k < j ==> IsSpace(s[k])
  }

  /** True when `s` neither starts nor ends with whitespace. */
  predicate Trimmed(s: string) {
    s == [] || (!IsSpace(s[0]) && !IsSpace(s[|s| - 1]))
  }

  /**
    Where `s.lstrip()` starts, scanning forward from `i`: the first index
    at or after `i` that is not whitespace, or `|s|`.
   */
  function TextStart(s: string, i: nat): (n: nat)
    requires i <= |s|
    ensures i <= n <= |s|
    ensures SpaceBetween(s, i, n)
    ensures n == |s| || !IsSpace(s[n])
    decreases |s| - i
  {
    if i < |s| && IsSpace(s[i]) then TextStart(s, i + 1) else i
  }

  /**
    Where `s.rstrip()` ends, scanning back from `j` but not past `lo`: the
    index just after the last non-whitespace character, or `lo`.
   */
  function TextEnd(s: string, lo: nat, j: nat): (n: nat)
    requires lo <= j <= |s|
    ensures lo <= n <= j
    ensures SpaceBetween(s, n, j)
    ensures n == lo || !IsSpace(s[n - 1])
    decreases j
  {
    if j > lo && IsSpace(s[j - 1]) then TextEnd(s, lo, j - 1) else j
  }

  /** `s.strip()`: the slice between the leading and the trailing whitespace. */
  function Trim(s: string): (r: string)
    ensures Trimmed(r)
    ensures |r| <= |s|
    ensures r == [] <==> AllSpace(s)
  {
    var a := TextStart(s, 0);
    var b := TextEnd(s, a, |s|);
    assert AllSpace(s) ==> a == |s| by {
      if a < |s| {
        assert !IsSpace(s[a]);
      }
    }
    s[a..b]
  }

  /** A string that neither starts nor ends with whitespace is its own strip. */
  lemma TrimOfTrimmed(s: string)
    requires Trimmed(s)
    ensures Trim(s) == s
  {
    assert TextStart(s, 0) == 0;
    assert TextEnd(s, 0, |s|) == |s|;
    assert s[0..|s|] == s;
  }

  /** `s.strip().strip() == s.strip()`. */
  lemma TrimIdempotent(s: string)
    ensures Trim(Trim(s)) == Trim(s)
  {
    TrimOfTrimmed(Trim(s));
  }

  /**
    Stripping keeps exactly a middle slice of `s` and removes only
    whitespace before and after it.
   */
  lemma TrimIsSlice(s: string)
    ensures exists a, b :: 0 <= a <= b <= |s| && Trim(s) == s[a..b]
                           && SpaceBetween(s, 0, a) && SpaceBetween(s, b, |s|)
  {
    var a := TextStart(s, 0);
    var b := TextEnd(s, a, |s|);
    assert Trim(s) == s[a..b];
  }
}
