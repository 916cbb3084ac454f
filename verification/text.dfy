/** Whitespace trimming with the semantics of Python's argument-less `str.strip()`. */
module Text {
  import Seqs

  /** The characters for which Python's `str.isspace()` holds. */
  predicate IsSpace(c: char) {
    || c == ' ' || c == '\t' || c == '\n' || c == '\r'
    || c == '\U{0B}' || c == '\U{0C}'
    || c == '\U{1C}' || c == '\U{1D}' || c == '\U{1E}' || c == '\U{1F}'
    || c == '\U{85}' || c == '\U{A0}' || c == '\U{1680}'
    || ('\U{2000}' <= c <= '\U{200A}')
    || c == '\U{2028}' || c == '\U{2029}' || c == '\U{202F}' || c == '\U{205F}'
    || c == '\U{3000}'
  }

  predicate AllSpace(s: string) {
    forall k :: 0 <= k < |s| ==> IsSpace(s[k])
  }

  /** Neither end of `s` is whitespace. */
  predicate Trimmed(s: string) {
    |s| == 0 || (!IsSpace(s[0]) && !IsSpace(s[|s| - 1]))
  }

  /** How many whitespace characters `s` starts with. */
  function LeadingSpace(s: string): (n: nat)
    ensures n <= |s|
    decreases |s|
  {
    if |s| > 0 && IsSpace(s[0]) then 1 + LeadingSpace(s[1..]) else 0
  }

  /** How many whitespace characters `s` ends with. */
  function TrailingSpace(s: string): (n: nat)
    ensures n <= |s|
    decreases |s|
  {
    if |s| > 0 && IsSpace(s[|s| - 1]) then 1 + TrailingSpace(s[..|s| - 1]) else 0
  }

  /** The leading run is whitespace and is followed by a non-whitespace character or the end. */
  lemma {:induction false} LeadingSpaceSpec(s: string)
    ensures AllSpace(s[..LeadingSpace(s)])
    ensures LeadingSpace(s) < |s| ==> !IsSpace(s[LeadingSpace(s)])
    decreases |s|
  {
    if |s| > 0 && IsSpace(s[0]) {
      LeadingSpaceSpec(s[1..]);
      var n := LeadingSpace(s[1..]);
      forall k | 1 <= k < n + 1
        ensures IsSpace(s[k])
      {
        assert s[k] == s[1..][..n][k - 1];
      }
      assert n + 1 < |s| ==> s[n + 1] == s[1..][n];
    }
  }

  /** The trailing run is whitespace and is preceded by a non-whitespace character or the start. */
  lemma {:induction false} TrailingSpaceSpec(s: string)
    ensures AllSpace(s[|s| - TrailingSpace(s)..])
    ensures TrailingSpace(s) < |s| ==> !IsSpace(s[|s| - TrailingSpace(s) - 1])
    decreases |s|
  {
    if |s| > 0 && IsSpace(s[|s| - 1]) {
      var t := s[..|s| - 1];
      TrailingSpaceSpec(t);
      var n := TrailingSpace(t);
      forall k | |s| - n - 1 <= k < |s| - 1
        ensures IsSpace(s[k])
      {
        assert s[k] == t[|t| - n..][k - (|t| - n)];
      }
      assert s[|s| - n - 1..][n] == s[|s| - 1];
    }
  }

  /** Whitespace up to a non-whitespace character (or the end) is the leading run. */
  lemma {:induction false} LeadingSpaceAt(s: string, i: nat)
    requires i <= |s| && AllSpace(s[..i]) && (i == |s| || !IsSpace(s[i]))
    ensures LeadingSpace(s) == i
    decreases i
  {
    if i > 0 {
      assert s[..i][0] == s[0];
      forall k | 1 <= k < i
        ensures IsSpace(s[k])
      {
        assert s[k] == s[..i][k];
      }
      assert i < |s| ==> s[1..][i - 1] == s[i];
      LeadingSpaceAt(s[1..], i - 1);
    }
  }

  /** Whitespace from just after a non-whitespace character (or the start) is the trailing run. */
  lemma {:induction false} TrailingSpaceAt(s: string, j: nat)
    requires j <= |s| && AllSpace(s[j..]) && (j == 0 || !IsSpace(s[j - 1]))
    ensures TrailingSpace(s) == |s| - j
    decreases |s| - j
  {
    if j < |s| {
      var t := s[..|s| - 1];
      assert s[j..][|s| - 1 - j] == s[|s| - 1];
      assert forall k :: 0 <= k < |s| - 1 - j ==> t[j..][k] == s[j..][k];
      assert j > 0 ==> t[j - 1] == s[j - 1];
      TrailingSpaceAt(t, j);
    }
  }

  /** `s` is whitespace, then `core` starting at index `i`, then whitespace. */
  ghost predicate Frames(s: string, i: nat, core: string) {
    && i + |core| <= |s|
    && s[i..i + |core|] == core
    && AllSpace(s[..i])
    && AllSpace(s[i + |core|..])
  }

  /** Where the text kept by `Strip` ends: before the trailing run of what
      follows the leading run. */
  function StripEnd(s: string): (b: nat)
    ensures LeadingSpace(s) <= b <= |s|
  {
    |s| - TrailingSpace(s[LeadingSpace(s)..])
  }

  /** `s.strip()`: what is removed at both ends is whitespace only, and what
      is kept starts and ends with a non-whitespace character. */
  function Strip(s: string): (r: string)
    ensures |r| <= |s|
    ensures Trimmed(r)
    ensures exists i :: Frames(s, i, r)
  {
    StripFrames(s);
    s[LeadingSpace(s)..StripEnd(s)]
  }

  lemma StripFrames(s: string)
    ensures var r := s[LeadingSpace(s)..StripEnd(s)];
            Trimmed(r) && Frames(s, LeadingSpace(s), r)
  {
    StripRuns(s);
    StripEdges(s);
  }

  lemma StripRuns(s: string)
    ensures Frames(s, LeadingSpace(s), s[LeadingSpace(s)..StripEnd(s)])
  {
    var a := LeadingSpace(s);
    var b := StripEnd(s);
    LeadingSpaceSpec(s);
    TrailingRunOfSuffix(s, a);
    FramesAt(s, a, b);
  }

  /** The trailing run of a suffix of `s` is a trailing whitespace run of `s`. */
  lemma TrailingRunOfSuffix(s: string, a: nat)
    requires a <= |s|
    ensures AllSpace(s[|s| - TrailingSpace(s[a..])..])
  {
    var t := s[a..];
    var n := TrailingSpace(t);
    var u := s[|s| - n..];
    TrailingSpaceSpec(t);
    forall k | 0 <= k < |u|
      ensures IsSpace(u[k])
    {
      assert u[k] == t[|t| - n..][k];
    }
  }

  lemma FramesAt(s: string, i: nat, j: nat)
    requires i <= j <= |s| && AllSpace(s[..i]) && AllSpace(s[j..])
    ensures Frames(s, i, s[i..j])
  {
    assert i + |s[i..j]| == j;
  }

  lemma StripEdges(s: string)
    ensures Trimmed(s[LeadingSpace(s)..StripEnd(s)])
  {
    var a := LeadingSpace(s);
    var b := StripEnd(s);
    var t := s[a..];
    LeadingSpaceSpec(s);
    TrailingSpaceSpec(t);
    if a < b {
      assert s[a..b][0] == s[a];
      assert s[a..b][b - a - 1] == t[|t| - TrailingSpace(t) - 1];
    }
  }

  /** A whitespace slice is whitespace at each of its positions. */
  lemma SpaceRun(s: string, a: nat, b: nat)
    requires a <= b <= |s| && AllSpace(s[a..b])
    ensures forall k :: a <= k < b ==> IsSpace(s[k])
  {
    forall k | a <= k < b
      ensures IsSpace(s[k])
    {
      assert s[a..b][k - a] == s[k];
    }
  }

  /** Stripping never cuts into a stretch that starts and ends with a
      non-whitespace character. */
  lemma StripKeepsInner(s: string, lo: nat, hi: nat)
    requires lo < hi <= |s| && !IsSpace(s[lo]) && !IsSpace(s[hi - 1])
    ensures Seqs.Occurs(s[lo..hi], Strip(s))
  {
    var r := Strip(s);
    var i: nat :| Frames(s, i, r);
    var e := i + |r|;
    // neither whitespace run reaches a non-whitespace end of the stretch
    SpaceRun(s, 0, i);
    SpaceRun(s, e, |s|);
    assert i <= lo && hi <= e;
    var k := lo - i;
    var part := r[k..][..hi - lo];
    forall j | 0 <= j < hi - lo
      ensures part[j] == s[lo..hi][j]
    {
      assert part[j] == s[i..e][k + j];
    }
    assert part == s[lo..hi];
  }

  /** Anything between two non-whitespace characters survives stripping. */
  lemma StripKeepsBetween(s: string, lo: nat, hi: nat, a: nat, b: nat)
    requires lo <= a <= b <= hi <= |s| && lo < hi && !IsSpace(s[lo]) && !IsSpace(s[hi - 1])
    ensures Seqs.Occurs(s[a..b], Strip(s))
  {
    StripKeepsInner(s, lo, hi);
    Seqs.SliceOfSlice(s, lo, hi, a, b);
    Seqs.OccursWithin(s[lo..hi], Strip(s), a - lo, b - lo);
  }

  /** `Strip(s)` is the only way to cut `s` into leading whitespace, a
      trimmed middle and trailing whitespace. */
  lemma StripUnique(s: string, i: nat, j: nat)
    requires i <= j <= |s|
    requires AllSpace(s[..i]) && AllSpace(s[j..]) && Trimmed(s[i..j])
    ensures Strip(s) == s[i..j]
  {
    if i < j {
      assert s[i..j][0] == s[i] && s[i..j][j - i - 1] == s[j - 1];
      LeadingSpaceAt(s, i);
      var t := s[i..];
      assert t[j - i..] == s[j..];
      assert t[j - i - 1] == s[j - 1];
      TrailingSpaceAt(t, j - i);
    } else {
      AllSpaceSplit(s, i);
      LeadingSpaceAt(s, |s|);
    }
  }

  lemma AllSpaceSplit(s: string, i: nat)
    requires i <= |s| && AllSpace(s[..i]) && AllSpace(s[i..])
    ensures AllSpace(s)
  {
    forall k | 0 <= k < |s|
      ensures IsSpace(s[k])
    {
      if k < i {
        assert s[..i][k] == s[k];
      } else {
        assert s[i..][k - i] == s[k];
      }
    }
  }

  /** A string that neither starts nor ends with whitespace is left unchanged. */
  lemma StripKeepsTrimmed(s: string)
    requires Trimmed(s)
    ensures Strip(s) == s
  {
    StripUnique(s, 0, |s|);
  }

  /** Stripping twice is stripping once. */
  lemma StripIdempotent(s: string)
    ensures Strip(Strip(s)) == Strip(s)
  {
    StripKeepsTrimmed(Strip(s));
  }
}
