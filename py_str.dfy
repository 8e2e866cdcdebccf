/** The two Python string operations the core relies on: `str.strip()` with
    no argument, and substring membership `needle in hay`. */
module PyStr {

  /** Python's `str.isspace()` for one character: the ASCII whitespace
      characters, the information separators U+001C..U+001F, NEL, and the
      Unicode space separators. */
  predicate IsSpace(c: char) {
    || c == ' ' || c == '\t' || c == '\n' || c == '\r' || c == '\U{0B}' || c == '\U{0C}'
    || ('\U{1C}' <= c <= '\U{1F}')
    || c == '\U{85}' || c == '\U{A0}' || c == '\U{1680}'
    || ('\U{2000}' <= c <= '\U{200A}')
    || c == '\U{2028}' || c == '\U{2029}' || c == '\U{202F}' || c == '\U{205F}' || c == '\U{3000}'
  }

  /** Every character of `s` is whitespace (true of the empty string). */
  ghost predicate AllSpace(s: string) {
    forall k :: 0 <= k < |s| ==> IsSpace(s[k])
  }

  /** Every character of `s` from index `i` up to index `j` is whitespace. */
  ghost predicate SpaceBetween(s: string, i: int, j: int) {
    forall k :: i <= k < j && 0 <= k < |s| ==> IsSpace(s[k])
  }

  /** `s[i..j]` is surrounded by nothing but whitespace in `s`. */
  ghost predicate SpaceAround(s: string, i: int, j: int) {
    0 <= i <= j <= |s| && SpaceBetween(s, 0, i) && SpaceBetween(s, j, |s|)
  }

  /** The index of the first non-whitespace character of `s` at or after
      `i`, or `|s|` when there is none. */
  function SkipSpaceForward(s: string, i: nat): (r: nat)
    requires i <= |s|
    ensures i <= r <= |s|
    ensures SpaceBetween(s, i, r)
    ensures r < |s| ==> !IsSpace(s[r])
    decreases |s| - i
  {
    if i < |s| && IsSpace(s[i]) then SkipSpaceForward(s, i + 1) else i
  }

  /** The index just past the last non-whitespace character of `s` before
      `j` and not before `lo`, or `lo` when there is none. */
  function SkipSpaceBackward(s: string, lo: nat, j: nat): (r: nat)
    requires lo <= j <= |s|
    ensures lo <= r <= j
    ensures SpaceBetween(s, r, j)
    ensures lo < r ==> !IsSpace(s[r - 1])
  {
    if lo < j && IsSpace(s[j - 1]) then SkipSpaceBackward(s, lo, j - 1) else j
  }

  /** Python's `s.strip()`: `s` without its leading and trailing whitespace.
      The result is a slice of `s` that only whitespace surrounds, it is
      empty exactly when `s` is all whitespace, and otherwise it begins and
      ends with a non-whitespace character. */
  function Strip(s: string): (r: string)
    ensures exists i, j :: SpaceAround(s, i, j) && r == s[i..j]
    ensures r == [] <==> AllSpace(s)
    ensures r != [] ==> !IsSpace(r[0]) && !IsSpace(r[|r| - 1])
  {
    var i := SkipSpaceForward(s, 0);
    var j := SkipSpaceBackward(s, i, |s|);
    assert SpaceAround(s, i, j);
    s[i..j]
  }

  /** SkipSpaceForward stops at the first non-whitespace character. */
  lemma {:induction false} SkipSpaceForwardStops(s: string, i: nat, stop: nat)
    requires i <= stop <= |s| && SpaceBetween(s, i, stop)
    requires stop < |s| ==> !IsSpace(s[stop])
    ensures SkipSpaceForward(s, i) == stop
    decreases |s| - i
  {
    if i < stop {
      SkipSpaceForwardStops(s, i + 1, stop);
    }
  }

  /** SkipSpaceBackward stops just past the last non-whitespace character. */
  lemma {:induction false} SkipSpaceBackwardStops(s: string, lo: nat, j: nat, stop: nat)
    requires lo <= stop <= j <= |s| && SpaceBetween(s, stop, j)
    requires lo < stop ==> !IsSpace(s[stop - 1])
    ensures SkipSpaceBackward(s, lo, j) == stop
  {
    if stop < j {
      SkipSpaceBackwardStops(s, lo, j - 1, stop);
    }
  }

  /** Strip has exactly one possible result: any slice of `s` that only
      whitespace surrounds and that neither begins nor ends with whitespace
      is `Strip(s)`. */
  lemma StripUnique(s: string, i: nat, j: nat)
    requires SpaceAround(s, i, j)
    requires i < j ==> !IsSpace(s[i]) && !IsSpace(s[j - 1])
    ensures Strip(s) == s[i..j]
  {
    if i == j {
      SkipSpaceForwardStops(s, 0, |s|);
      SkipSpaceBackwardStops(s, |s|, |s|, |s|);
    } else {
      SkipSpaceForwardStops(s, 0, i);
      SkipSpaceBackwardStops(s, i, |s|, j);
    }
  }

  /** Padding a string with whitespace on both sides keeps whatever
      whitespace surrounded a slice of it. */
  lemma PaddedSpaceAround(a: string, t: string, b: string, i: nat, j: nat)
    requires AllSpace(a) && AllSpace(b) && SpaceAround(t, i, j)
    ensures SpaceAround(a + t + b, |a| + i, |a| + j)
  {
    var s := a + t + b;
    forall k | 0 <= k < |a| + i ensures IsSpace(s[k]) {
      if k < |a| { assert s[k] == a[k]; } else { assert s[k] == t[k - |a|]; }
    }
    forall k | |a| + j <= k < |s| ensures IsSpace(s[k]) {
      if k < |a| + |t| { assert s[k] == t[k - |a|]; } else { assert s[k] == b[k - |a| - |t|]; }
    }
  }

  /** A slice of `t` is the matching slice of `t` with anything around it. */
  lemma PaddedSlice(a: string, t: string, b: string, i: nat, j: nat)
    requires i <= j <= |t|
    ensures (a + t + b)[|a| + i..|a| + j] == t[i..j]
  {
    var s := a + t + b;
    forall k | 0 <= k < j - i ensures s[|a| + i..|a| + j][k] == t[i..j][k] {
      assert s[|a| + i + k] == t[i + k];
    }
  }

  /** Surrounding whitespace does not change what Strip returns. */
  lemma StripIgnoresPadding(a: string, t: string, b: string)
    requires AllSpace(a) && AllSpace(b)
    ensures Strip(a + t + b) == Strip(t)
  {
    var r := Strip(t);
    var i, j :| SpaceAround(t, i, j) && r == t[i..j];
    var s := a + t + b;
    PaddedSpaceAround(a, t, b, i, j);
    PaddedSlice(a, t, b, i, j);
    StripUnique(s, |a| + i, |a| + j);
  }

  /** A string that neither begins nor ends with whitespace is its own strip. */
  lemma StripUnpadded(s: string)
    requires s != [] && !IsSpace(s[0]) && !IsSpace(s[|s| - 1])
    ensures Strip(s) == s
  {
    assert s[0..|s|] == s;
    StripUnique(s, 0, |s|);
  }

  /** Stripping twice is stripping once. */
  lemma StripIdempotent(s: string)
    ensures Strip(Strip(s)) == Strip(s)
  {
    var r := Strip(s);
    assert r[0..|r|] == r;
    StripUnique(r, 0, |r|);
  }

  /** `prefix` is a prefix of `s`. */
  predicate StartsWith(s: string, prefix: string) {
    |prefix| <= |s| && s[..|prefix|] == prefix
  }

  /** Python's case-sensitive `needle in hay`. */
  predicate Contains(hay: string, needle: string) {
    StartsWith(hay, needle) || (|hay| > 0 && Contains(hay[1..], needle))
  }

  /** `needle` occurs in `hay` starting at index `i`. */
  ghost predicate OccursAt(hay: string, needle: string, i: nat) {
    i + |needle| <= |hay| && hay[i..i + |needle|] == needle
  }

  /** Contains holds exactly when `needle` occurs somewhere in `hay`. */
  lemma {:induction false} ContainsIff(hay: string, needle: string)
    ensures Contains(hay, needle) <==> exists i: nat :: OccursAt(hay, needle, i)
  {
    if Contains(hay, needle) {
      if StartsWith(hay, needle) {
        assert OccursAt(hay, needle, 0);
      } else {
        ContainsIff(hay[1..], needle);
        var i: nat :| OccursAt(hay[1..], needle, i);
        assert hay[1..][i..i + |needle|] == hay[i + 1..i + 1 + |needle|];
        assert OccursAt(hay, needle, i + 1);
      }
    }
    if exists i: nat :: OccursAt(hay, needle, i) {
      var i: nat :| OccursAt(hay, needle, i);
      if i > 0 {
        assert hay[1..][i - 1..i - 1 + |needle|] == hay[i..i + |needle|];
        assert OccursAt(hay[1..], needle, i - 1);
        ContainsIff(hay[1..], needle);
      }
    }
  }

  /** Every character of a contained string is a character of the string
      that contains it. */
  lemma {:induction false} ContainsOnlyItsChars(hay: string, needle: string, k: int)
    requires Contains(hay, needle) && 0 <= k < |needle|
    ensures needle[k] in hay
  {
    if StartsWith(hay, needle) {
      assert needle[k] == hay[k];
    } else {
      ContainsOnlyItsChars(hay[1..], needle, k);
      assert needle[k] in hay[1..];
    }
  }

  /** Every string contains itself. */
  lemma ContainsSelf(s: string)
    ensures Contains(s, s)
  {
    assert StartsWith(s, s);
  }

  /** An occurrence of a string that begins and ends with non-whitespace
      characters lies inside any slice that only whitespace surrounds. */
  lemma OccurrenceInside(s: string, needle: string, k: nat, i: nat, j: nat)
    requires needle != [] && !IsSpace(needle[0]) && !IsSpace(needle[|needle| - 1])
    requires OccursAt(s, needle, k) && SpaceAround(s, i, j)
    ensures i <= k && k + |needle| <= j
  {
    var n := |needle|;
    assert s[k] == needle[0] && s[k + n - 1] == needle[n - 1];
  }

  /** An occurrence inside a slice is an occurrence in the slice. */
  lemma OccurrenceInSlice(s: string, needle: string, k: nat, i: nat, j: nat)
    requires OccursAt(s, needle, k) && i <= k && k + |needle| <= j <= |s|
    ensures OccursAt(s[i..j], needle, k - i)
  {
    var n := |needle|;
    forall m | 0 <= m < n ensures s[i..j][k - i + m] == needle[m] {
      assert s[i..j][k - i + m] == s[k..k + n][m];
    }
  }

  /** Stripping keeps every occurrence of a string that begins and ends with
      non-whitespace characters. */
  lemma StripKeepsOccurrence(s: string, needle: string)
    requires needle != [] && !IsSpace(needle[0]) && !IsSpace(needle[|needle| - 1])
    requires Contains(s, needle)
    ensures Contains(Strip(s), needle)
  {
    ContainsIff(s, needle);
    var k: nat :| OccursAt(s, needle, k);
    var r := Strip(s);
    var i, j :| SpaceAround(s, i, j) && r == s[i..j];
    OccurrenceInside(s, needle, k, i, j);
    OccurrenceInSlice(s, needle, k, i, j);
    ContainsIff(r, needle);
  }

  /** An occurrence in a slice is an occurrence in the whole string. */
  lemma OccurrenceOfSlice(s: string, needle: string, k: nat, i: nat, j: nat)
    requires i <= j <= |s| && OccursAt(s[i..j], needle, k)
    ensures OccursAt(s, needle, i + k)
  {
    var n := |needle|;
    var t := s[i..j];
    assert t[k..k + n] == needle;
    forall m | 0 <= m < n ensures s[i + k + m] == needle[m] {
      assert t[k + m] == s[i + k + m];
      assert t[k..k + n][m] == t[k + m];
    }
    assert s[i + k..i + k + n] == needle;
  }

  /** Whatever the stripped string contains, the string contains. */
  lemma StripAddsNoOccurrence(s: string, needle: string)
    requires Contains(Strip(s), needle)
    ensures Contains(s, needle)
  {
    var r := Strip(s);
    var i, j :| SpaceAround(s, i, j) && r == s[i..j];
    ContainsIff(r, needle);
    var k: nat :| OccursAt(r, needle, k);
    OccurrenceOfSlice(s, needle, k, i, j);
    ContainsIff(s, needle);
  }

  /** Stripping neither adds nor removes occurrences of a string that
      begins and ends with non-whitespace characters. */
  lemma StripPreservesOccurrence(s: string, needle: string)
    requires needle != [] && !IsSpace(needle[0]) && !IsSpace(needle[|needle| - 1])
    ensures Contains(Strip(s), needle) <==> Contains(s, needle)
  {
    if Contains(s, needle) { StripKeepsOccurrence(s, needle); }
    if Contains(Strip(s), needle) { StripAddsNoOccurrence(s, needle); }
  }
}
