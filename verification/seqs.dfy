/** Sequence utilities shared by the batching, indexing and answer modules. */
module Seqs {

  /** Concatenation of a sequence of sequences. */
  function Flatten<T>(xss: seq<seq<T>>): seq<T>
    decreases |xss|
  {
    if |xss| == 0 then [] else xss[0] + Flatten(xss[1..])
  }

  lemma {:induction false} FlattenAppend<T>(a: seq<seq<T>>, b: seq<seq<T>>)
    ensures Flatten(a + b) == Flatten(a) + Flatten(b)
    decreases |a|
  {
    if |a| == 0 {
      assert a + b == b;
    } else {
      assert (a + b)[1..] == a[1..] + b;
      FlattenAppend(a[1..], b);
    }
  }

  /** `sep.join(parts)`: the parts in order with `sep` between neighbours. */
  function Join<T>(parts: seq<seq<T>>, sep: seq<T>): seq<T>
    decreases |parts|
  {
    if |parts| == 0 then []
    else if |parts| == 1 then parts[0]
    else parts[0] + sep + Join(parts[1..], sep)
  }

  /** Where part `i` starts inside `Join(parts, sep)`. */
  function JoinOffset<T>(parts: seq<seq<T>>, sep: seq<T>, i: nat): nat
    requires i <= |parts|
  {
    if i == 0 then 0 else JoinOffset(parts, sep, i - 1) + |parts[i - 1]| + |sep|
  }

  lemma {:induction false} JoinOffsetShift<T>(parts: seq<seq<T>>, sep: seq<T>, i: nat)
    requires 1 <= i <= |parts|
    ensures JoinOffset(parts, sep, i) == |parts[0]| + |sep| + JoinOffset(parts[1..], sep, i - 1)
  {
    if i > 1 {
      JoinOffsetShift(parts, sep, i - 1);
    }
  }

  lemma SliceOfAppend<T>(p: seq<T>, q: seq<T>, x: nat, y: nat)
    requires x <= y <= |q|
    ensures (p + q)[|p| + x .. |p| + y] == q[x..y]
  {
    assert forall k :: 0 <= k < y - x ==> (p + q)[|p| + x .. |p| + y][k] == q[x..y][k];
  }

  /** Joining at least two parts puts the first part, then `sep`, then the join of the rest. */
  lemma JoinCons<T>(parts: seq<seq<T>>, sep: seq<T>)
    requires |parts| >= 2
    ensures Join(parts, sep) == (parts[0] + sep) + Join(parts[1..], sep)
  {
  }

  /** The length of a join: every part plus one `sep` between neighbours. */
  lemma {:induction false} JoinLength<T>(parts: seq<seq<T>>, sep: seq<T>)
    requires |parts| > 0
    ensures |Join(parts, sep)| == JoinOffset(parts, sep, |parts| - 1) + |parts[|parts| - 1]|
    decreases |parts|
  {
    if |parts| > 1 {
      JoinCons(parts, sep);
      JoinLength(parts[1..], sep);
      JoinOffsetShift(parts, sep, |parts| - 1);
    }
  }

  /** Part `i` appears verbatim at `JoinOffset(parts, sep, i)`. */
  lemma {:induction false} JoinPart<T>(parts: seq<seq<T>>, sep: seq<T>, i: nat)
    requires i < |parts|
    ensures JoinOffset(parts, sep, i) + |parts[i]| <= |Join(parts, sep)|
    ensures Join(parts, sep)[JoinOffset(parts, sep, i) .. JoinOffset(parts, sep, i) + |parts[i]|] == parts[i]
    decreases |parts|
  {
    if |parts| == 1 {
    } else {
      var head := parts[0] + sep;
      var tail := Join(parts[1..], sep);
      JoinCons(parts, sep);
      if i == 0 {
        assert (head + tail)[..|parts[0]|] == parts[0];
        JoinLength(parts[1..], sep);
      } else {
        JoinPart(parts[1..], sep, i - 1);
        JoinOffsetShift(parts, sep, i);
        var o := JoinOffset(parts[1..], sep, i - 1);
        SliceOfAppend(head, tail, o, o + |parts[i]|);
      }
    }
  }
  /** The first part opens the join and the last part closes it. */
  lemma JoinEnds<T>(parts: seq<seq<T>>, sep: seq<T>)
    requires |parts| > 0
    ensures var j, first, last := Join(parts, sep), parts[0], parts[|parts| - 1];
            && |first| <= |j| && j[..|first|] == first
            && |last| <= |j| && j[|j| - |last|..] == last
  {
    JoinPart(parts, sep, 0);
    JoinPart(parts, sep, |parts| - 1);
    JoinLength(parts, sep);
  }


  /** Between neighbouring parts `i` and `i + 1` stands exactly one `sep`. */
  lemma {:induction false} JoinSeparator<T>(parts: seq<seq<T>>, sep: seq<T>, i: nat)
    requires i + 1 < |parts|
    ensures JoinOffset(parts, sep, i + 1) <= |Join(parts, sep)|
    ensures Join(parts, sep)[JoinOffset(parts, sep, i) + |parts[i]| .. JoinOffset(parts, sep, i + 1)] == sep
    decreases |parts|
  {
    JoinPart(parts, sep, i + 1);
    if i == 0 {
      JoinFirstSeparator(parts, sep);
    } else {
      var head := parts[0] + sep;
      var tail := Join(parts[1..], sep);
      JoinCons(parts, sep);
      JoinSeparator(parts[1..], sep, i - 1);
      JoinOffsetShift(parts, sep, i);
      JoinOffsetShift(parts, sep, i + 1);
      assert parts[1..][i - 1] == parts[i];
      var lo := JoinOffset(parts[1..], sep, i - 1) + |parts[i]|;
      var hi := JoinOffset(parts[1..], sep, i);
      assert tail[lo..hi] == sep;
      SliceOfAppend(head, tail, lo, hi);
      assert JoinOffset(parts, sep, i) + |parts[i]| == |head| + lo;
      assert JoinOffset(parts, sep, i + 1) == |head| + hi;
    }
  }

  lemma JoinFirstSeparator<T>(parts: seq<seq<T>>, sep: seq<T>)
    requires |parts| >= 2
    ensures |parts[0]| + |sep| <= |Join(parts, sep)|
    ensures Join(parts, sep)[|parts[0]| .. |parts[0]| + |sep|] == sep
  {
    var tail := Join(parts[1..], sep);
    JoinCons(parts, sep);
    assert (parts[0] + sep) + tail == parts[0] + (sep + tail);
    SliceOfAppend(parts[0], sep + tail, 0, |sep|);
  }

  /** `a` is `b` with some elements left out, order kept. */
  predicate IsSubsequence<T(==)>(a: seq<T>, b: seq<T>)
    decreases |b|
  {
    || |a| == 0
    || (&& |b| > 0
        && ((a[0] == b[0] && IsSubsequence(a[1..], b[1..])) || IsSubsequence(a, b[1..])))
  }

  lemma {:induction false} SubsequenceOfItself<T>(xs: seq<T>)
    ensures IsSubsequence(xs, xs)
    decreases |xs|
  {
    if |xs| > 0 {
      SubsequenceOfItself(xs[1..]);
    }
  }

  /** `part` occurs in `s` as a contiguous stretch. */
  ghost predicate Occurs<T>(part: seq<T>, s: seq<T>) {
    exists k :: 0 <= k <= |s| - |part| && s[k..][..|part|] == part
  }

  lemma SliceOfSlice<T>(s: seq<T>, lo: nat, hi: nat, a: nat, b: nat)
    requires lo <= a <= b <= hi <= |s|
    ensures s[lo..hi][a - lo..b - lo] == s[a..b]
  {
    forall i | 0 <= i < b - a
      ensures s[lo..hi][a - lo..b - lo][i] == s[a..b][i]
    {
      assert s[lo..hi][a - lo..b - lo][i] == s[lo..hi][a - lo + i];
    }
  }

  /** A slice of a stretch that occurs in `s` occurs in `s` as well. */
  lemma OccursWithin<T>(part: seq<T>, s: seq<T>, a: nat, b: nat)
    requires Occurs(part, s) && a <= b <= |part|
    ensures Occurs(part[a..b], s)
  {
    var k :| 0 <= k <= |s| - |part| && s[k..][..|part|] == part;
    var found := s[k + a..][..b - a];
    forall i | 0 <= i < b - a
      ensures found[i] == part[a..b][i]
    {
      assert found[i] == s[k..][..|part|][a + i];
    }
    assert found == part[a..b];
  }

  predicate NoDuplicates<T(==)>(xs: seq<T>) {
    forall i, j :: 0 <= i < j < |xs| ==> xs[i] != xs[j]
  }

  /** The distinct elements of `xs`, each kept at its first occurrence. */
  function Dedup<T(==)>(xs: seq<T>): (r: seq<T>)
    ensures NoDuplicates(r)
    ensures forall i :: 0 <= i < |xs| ==> xs[i] in r
    ensures forall i :: 0 <= i < |r| ==> r[i] in xs
    ensures |r| <= |xs|
    decreases |xs|
  {
    if |xs| == 0 then []
    else
      var rest := Dedup(xs[..|xs| - 1]);
      var last := xs[|xs| - 1];
      assert xs == xs[..|xs| - 1] + [last];
      if last in rest then rest else rest + [last]
  }
}
