/** Character classes and the string helpers the reader relies on (`str::trim`, `str::starts_with`). */
module Text {

  /** The three characters the parser's whitespace arm matches: space, tab and line feed. */
  predicate IsBlank(c: char) {
    c == ' ' || c == '\t' || c == '\n'
  }

  /**
   * The characters `str::trim` removes, restricted to ASCII: tab, line feed,
   * vertical tab, form feed, carriage return (U+0009 to U+000D) and space.
   */
  predicate IsTrimSpace(c: char) {
    c == ' ' || ('\t' <= c <= '\r')
  }

  /** Whitespace that `trim` removes but that the parser does not treat as a separator (CR, VT, FF). */
  predicate IsExtraSpace(c: char) {
    IsTrimSpace(c) && !IsBlank(c)
  }

  predicate NoExtraSpace(s: string) {
    forall k :: 0 <= k < |s| ==> !IsExtraSpace(s[k])
  }

  predicate NoBlank(s: string) {
    forall k :: 0 <= k < |s| ==> !IsBlank(s[k])
  }

  predicate ParenFree(s: string) {
    forall k :: 0 <= k < |s| ==> s[k] != '(' && s[k] != ')'
  }

  /** A character that the parser appends to its pending buffer in the catch-all arm. */
  predicate IsWordChar(c: char) {
    !IsBlank(c) && c != '(' && c != ')'
  }

  /** Neither the first nor the last character is trim-whitespace. */
  predicate Trimmed(s: string) {
    s == [] || (!IsTrimSpace(s[0]) && !IsTrimSpace(s[|s| - 1]))
  }

  /** The first position at or after `i` that does not hold trim-whitespace (the scan of `str::trim_start`). */
  function SkipSpace(s: string, i: nat): (j: nat)
    requires i <= |s|
    ensures i <= j <= |s|
    ensures forall k :: i <= k < j ==> IsTrimSpace(s[k])
    ensures j < |s| ==> !IsTrimSpace(s[j])
    decreases |s| - i
  {
    if i < |s| && IsTrimSpace(s[i]) then SkipSpace(s, i + 1) else i
  }

  /** The end of `s[lo..j]` once its trailing trim-whitespace is dropped (the scan of `str::trim_end`). */
  function SkipSpaceBack(s: string, lo: nat, j: nat): (i: nat)
    requires lo <= j <= |s|
    ensures lo <= i <= j
    ensures forall k :: i <= k < j ==> IsTrimSpace(s[k])
    ensures i > lo ==> !IsTrimSpace(s[i - 1])
    decreases j
  {
    if j > lo && IsTrimSpace(s[j - 1]) then SkipSpaceBack(s, lo, j - 1) else j
  }

  /** `str::trim`: drops leading and trailing trim-whitespace. */
  function Trim(s: string): (r: string)
    ensures Trimmed(r) && |r| <= |s|
    ensures s != [] && !IsTrimSpace(s[0]) ==> r != [] && r[0] == s[0]
  {
    var i := SkipSpace(s, 0);
    s[i..SkipSpaceBack(s, i, |s|)]
  }

  /**
   * Trimming cuts a run of trim-whitespace from each end and nothing else: the
   * result is a contiguous slice of the original, everything before it and
   * everything after it is whitespace.
   */
  lemma TrimSlice(s: string)
    ensures exists i, j ::
              && 0 <= i <= j <= |s| && Trim(s) == s[i..j]
              && (forall k :: 0 <= k < i ==> IsTrimSpace(s[k]))
              && (forall k :: j <= k < |s| ==> IsTrimSpace(s[k]))
  {
    var i := SkipSpace(s, 0);
    var j := SkipSpaceBack(s, i, |s|);
    assert Trim(s) == s[i..j];
  }

  /** Trimming keeps only characters of the original string. */
  lemma TrimChars(s: string)
    ensures forall k :: 0 <= k < |Trim(s)| ==> Trim(s)[k] in s
  {
    var i := SkipSpace(s, 0);
    var r := Trim(s);
    assert r == s[i..SkipSpaceBack(s, i, |s|)];
    forall k | 0 <= k < |r|
      ensures r[k] in s
    {
      assert r[k] == s[i + k];
    }
  }

  /** Trimming yields the empty string exactly when every character is trim-whitespace. */
  lemma TrimEmpty(s: string)
    ensures Trim(s) == [] <==> forall k :: 0 <= k < |s| ==> IsTrimSpace(s[k])
  {
    var i := SkipSpace(s, 0);
    var j := SkipSpaceBack(s, i, |s|);
    if i < |s| {
      assert j > i;
    }
  }

  /** Trimming an already trimmed string changes nothing. */
  lemma TrimTrimmed(s: string)
    requires Trimmed(s)
    ensures Trim(s) == s
  {
  }

  /** Trimming twice gives what trimming once gives. */
  lemma TrimIdempotent(s: string)
    ensures Trim(Trim(s)) == Trim(s)
  {
    TrimTrimmed(Trim(s));
  }

  /** `str::starts_with` for a string pattern. */
  predicate StartsWith(s: string, p: string) {
    |p| <= |s| && s[..|p|] == p
  }
}
