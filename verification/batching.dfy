/** The batching arithmetic of `add_documents`: `range(0, n, batch_size)`,
    the slices `chunks[i:i + batch_size]`, and the progress counters
    `batch_num` and `total_batches`. */
module Batching {
  import opened Seqs

  function Min(a: int, b: int): int {
    if a <= b then a else b
  }

  /** `(n - 1) // batch_size + 1`; Python's floor division and Dafny's
      Euclidean division agree for a positive divisor. */
  function TotalBatches(n: nat, batchSize: nat): int
    requires batchSize > 0
  {
    (n - 1) / batchSize + 1
  }

  lemma MulPos(b: int, d: int)
    requires b > 0 && d >= 1
    ensures b * d >= b
  {
    if d > 1 {
      MulPos(b, d - 1);
      assert b * d == b * (d - 1) + b;
    }
  }

  lemma DivUnique(a: int, b: int, q: int, r: int)
    requires b > 0 && 0 <= r < b && a == b * q + r
    ensures a / b == q
  {
    var q', r' := a / b, a % b;
    assert a == b * q' + r';
    var d := q - q';
    assert b * d == r' - r by {
      assert b * q - b * q' == b * (q - q');
    }
    if d >= 1 {
      MulPos(b, d);
    }
  }

  lemma DivStep(a: int, b: int)
    requires b > 0
    ensures (a + b) / b == a / b + 1
  {
    var q, r := a / b, a % b;
    assert a + b == b * (q + 1) + r by {
      assert b * (q + 1) == b * q + b;
    }
    DivUnique(a + b, b, q + 1, r);
  }

  /** Peeling one batch off `n` items removes one from the batch count. */
  lemma CountStep(n: nat, batchSize: nat)
    requires batchSize > 0 && n > 0
    ensures TotalBatches(n, batchSize) == TotalBatches(n - Min(batchSize, n), batchSize) + 1
  {
    if n <= batchSize {
      DivUnique(n - 1, batchSize, 0, n - 1);
      DivUnique(-1, batchSize, -1, batchSize - 1);
    } else {
      DivStep(n - batchSize - 1, batchSize);
    }
  }

  /** The batches of `xs`, in order: consecutive slices of at most
      `batchSize` items that together are `xs`. */
  function Batches<T>(xs: seq<T>, batchSize: nat): (r: seq<seq<T>>)
    requires batchSize > 0
    ensures Flatten(r) == xs
    decreases |xs|
  {
    if |xs| == 0 then []
    else
      var m := Min(batchSize, |xs|);
      var rest := Batches(xs[m..], batchSize);
      assert xs == xs[..m] + xs[m..];
      [xs[..m]] + rest
  }

  /** Every batch but the last holds exactly `batchSize` items; the last
      holds at least one and at most `batchSize`. */
  lemma {:induction false} BatchSizes<T>(xs: seq<T>, batchSize: nat)
    requires batchSize > 0
    ensures var r := Batches(xs, batchSize);
            && (forall k :: 0 <= k < |r| ==> 0 < |r[k]| <= batchSize)
            && (forall k :: 0 <= k < |r| - 1 ==> |r[k]| == batchSize)
    decreases |xs|
  {
    if |xs| > 0 {
      var m := Min(batchSize, |xs|);
      BatchSizes(xs[m..], batchSize);
      assert Batches(xs, batchSize) == [xs[..m]] + Batches(xs[m..], batchSize);
      if |xs| <= batchSize {
        assert xs[m..] == [];
      }
    }
  }

  /** There are `(n - 1) // batch_size + 1` batches: the `total_batches`
      the loop prints is the number of iterations it makes. */
  lemma {:induction false} BatchesCount<T>(xs: seq<T>, batchSize: nat)
    requires batchSize > 0
    ensures |Batches(xs, batchSize)| == TotalBatches(|xs|, batchSize)
    decreases |xs|
  {
    if |xs| == 0 {
      DivUnique(-1, batchSize, -1, batchSize - 1);
    } else {
      var m := Min(batchSize, |xs|);
      BatchesCount(xs[m..], batchSize);
      CountStep(|xs|, batchSize);
    }
  }

  /** The first `m` batches together are the first `m * batchSize` items
      (or all of them). */
  lemma BatchesPrefix<T>(xs: seq<T>, batchSize: nat, m: nat)
    requires batchSize > 0
    requires m <= |Batches(xs, batchSize)|
    ensures Flatten(Batches(xs, batchSize)[..m]) == xs[..Min(m * batchSize, |xs|)]
  {
    BatchSizes(xs, batchSize);
    PrefixOfChunking(Batches(xs, batchSize), xs, batchSize, m);
  }

  /** `BatchesPrefix` for any cutting of `xs` into non-empty pieces of at
      most `batchSize` items, all full but the last. */
  lemma PrefixOfChunking<T>(all: seq<seq<T>>, xs: seq<T>, batchSize: nat, m: nat)
    requires Flatten(all) == xs && m <= |all|
    requires forall j :: 0 <= j < |all| ==> 0 < |all[j]| <= batchSize
    requires forall j :: 0 <= j < |all| - 1 ==> |all[j]| == batchSize
    ensures Flatten(all[..m]) == xs[..Min(m * batchSize, |xs|)]
  {
    FlattenPrefix(all, m);
    PrefixLength(all, batchSize, m);
  }

  /** The first `m` pieces flattened are a prefix of all of them flattened. */
  lemma FlattenPrefix<T>(all: seq<seq<T>>, m: nat)
    requires m <= |all|
    ensures |Flatten(all[..m])| <= |Flatten(all)|
    ensures Flatten(all[..m]) == Flatten(all)[..|Flatten(all[..m])|]
  {
    assert all == all[..m] + all[m..];
    FlattenAppend(all[..m], all[m..]);
  }

  lemma PrefixLength<T>(all: seq<seq<T>>, batchSize: nat, m: nat)
    requires m <= |all|
    requires forall j :: 0 <= j < |all| ==> 0 < |all[j]| <= batchSize
    requires forall j :: 0 <= j < |all| - 1 ==> |all[j]| == batchSize
    ensures |Flatten(all[..m])| == Min(m * batchSize, |Flatten(all)|)
  {
    FlattenWhole(all);
    if m < |all| {
      FullPiecesLength(all, batchSize, m);
      FlattenPrefix(all, m);
    } else if m > 0 {
      FullPiecesLength(all, batchSize, m - 1);
      NextStart(all, m - 1);
      assert m * batchSize == (m - 1) * batchSize + batchSize;
    }
  }

  /** Before a non-empty piece, the earlier pieces do not reach the end. */
  lemma BeforeNonEmpty<T>(all: seq<seq<T>>, m: nat)
    requires m < |all| && |all[m]| > 0
    ensures |Flatten(all[..m])| + |all[m]| <= |Flatten(all)|
  {
    FlattenPrefix(all, m + 1);
    NextStart(all, m);
  }

  /** `m` full pieces hold `m * batchSize` items. */
  lemma {:induction false} FullPiecesLength<T>(all: seq<seq<T>>, batchSize: nat, m: nat)
    requires m < |all|
    requires forall j :: 0 <= j < |all| - 1 ==> |all[j]| == batchSize
    ensures |Flatten(all[..m])| == m * batchSize
    decreases m
  {
    if m > 0 {
      FullPiecesLength(all, batchSize, m - 1);
      NextStart(all, m - 1);
      assert m * batchSize == (m - 1) * batchSize + batchSize;
    }
  }

  /** One iteration of the batching loop: the offset `i` it starts at, the
      slice it sends, and the progress counters it prints. */
  datatype BatchInfo<T> = BatchInfo(start: nat, items: seq<T>, batchNum: int, totalBatches: int)

  /** Declarative description of the iterations: iteration `k` sends batch
      `k`, starting where the earlier batches end. */
  function Plan<T>(chunks: seq<T>, batchSize: nat): seq<BatchInfo<T>>
    requires batchSize > 0
  {
    var all := Batches(chunks, batchSize);
    seq(|all|, k requires 0 <= k < |all| => BatchInfo(|Flatten(all[..k])|, all[k], k + 1, |all|))
  }

  /** The iterations are contiguous slices of `chunks`, starting at offset 0,
      each beginning where the previous one ended; the counters satisfy
      `1 <= batch_num <= total_batches`, and `total_batches` is the number of
      iterations. */
  lemma PlanShape<T>(chunks: seq<T>, batchSize: nat)
    requires batchSize > 0
    ensures var plan := Plan(chunks, batchSize);
            && |plan| == TotalBatches(|chunks|, batchSize)
            && (|plan| > 0 ==> plan[0].start == 0)
            && (forall k :: 0 <= k < |plan| - 1 ==> plan[k + 1].start == plan[k].start + |plan[k].items|)
            && (forall k :: 0 <= k < |plan| ==>
                  && plan[k].start + |plan[k].items| <= |chunks|
                  && plan[k].items == chunks[plan[k].start .. plan[k].start + |plan[k].items|]
                  && 1 <= plan[k].batchNum <= plan[k].totalBatches == |plan|)
  {
    BatchesCount(chunks, batchSize);
    if |Plan(chunks, batchSize)| > 0 {
      assert Batches(chunks, batchSize)[..0] == [];
    }
    PlanLinks(chunks, batchSize);
    PlanSlices(chunks, batchSize);
  }

  lemma PlanLinks<T>(chunks: seq<T>, batchSize: nat)
    requires batchSize > 0
    ensures var plan := Plan(chunks, batchSize);
            forall k :: 0 <= k < |plan| - 1 ==> plan[k + 1].start == plan[k].start + |plan[k].items|
  {
    var all := Batches(chunks, batchSize);
    var plan := Plan(chunks, batchSize);
    forall k | 0 <= k < |plan| - 1
      ensures plan[k + 1].start == plan[k].start + |plan[k].items|
    {
      NextStart(all, k);
    }
  }

  lemma PlanSlices<T>(chunks: seq<T>, batchSize: nat)
    requires batchSize > 0
    ensures var plan := Plan(chunks, batchSize);
            forall k :: 0 <= k < |plan| ==>
              && plan[k].start + |plan[k].items| <= |chunks|
              && plan[k].items == chunks[plan[k].start .. plan[k].start + |plan[k].items|]
  {
    var all := Batches(chunks, batchSize);
    var plan := Plan(chunks, batchSize);
    forall k | 0 <= k < |plan|
      ensures plan[k].start + |plan[k].items| <= |chunks|
      ensures plan[k].items == chunks[plan[k].start .. plan[k].start + |plan[k].items|]
    {
      BatchInPlace(all, k);
    }
  }

  lemma FlattenWhole<T>(all: seq<seq<T>>)
    ensures Flatten(all[..|all|]) == Flatten(all)
  {
    assert all[..|all|] == all;
  }

  lemma NextStart<T>(all: seq<seq<T>>, k: nat)
    requires k < |all|
    ensures Flatten(all[..k + 1]) == Flatten(all[..k]) + all[k]
  {
    assert all[..k + 1] == all[..k] + [all[k]];
    FlattenAppend(all[..k], [all[k]]);
    assert Flatten([all[k]]) == all[k] + Flatten([]);
  }

  /** Batch `k` sits in the flattened sequence right after the earlier batches. */
  lemma BatchInPlace<T>(all: seq<seq<T>>, k: nat)
    requires k < |all|
    ensures |Flatten(all[..k])| + |all[k]| <= |Flatten(all)|
    ensures Flatten(all)[|Flatten(all[..k])| .. |Flatten(all[..k])| + |all[k]|] == all[k]
  {
    assert all == all[..k + 1] + all[k + 1..];
    FlattenAppend(all[..k + 1], all[k + 1..]);
    NextStart(all, k);
    var f := Flatten(all[..k]);
    assert Flatten(all) == f + all[k] + Flatten(all[k + 1..]);
    assert (f + all[k] + Flatten(all[k + 1..]))[|f| .. |f| + |all[k]|] == all[k];
  }

  /** Batch `k` is the slice of at most `batchSize` items starting where the
      earlier batches end, and only the last batch reaches the end of `xs`. */
  lemma BatchSlice<T>(xs: seq<T>, batchSize: nat, k: nat)
    requires batchSize > 0
    requires k < |Batches(xs, batchSize)|
    ensures var all := Batches(xs, batchSize);
            var start := |Flatten(all[..k])|;
            && start < |xs|
            && all[k] == xs[start .. Min(start + batchSize, |xs|)]
            && (start + batchSize < |xs| <==> k + 1 < |all|)
  {
    BatchSizes(xs, batchSize);
    SliceOfChunking(Batches(xs, batchSize), xs, batchSize, k);
  }

  /** `BatchSlice` for any cutting of `xs` into non-empty pieces of at most
      `batchSize` items, all full but the last. */
  lemma SliceOfChunking<T>(all: seq<seq<T>>, xs: seq<T>, batchSize: nat, k: nat)
    requires Flatten(all) == xs && k < |all|
    requires forall j :: 0 <= j < |all| ==> 0 < |all[j]| <= batchSize
    requires forall j :: 0 <= j < |all| - 1 ==> |all[j]| == batchSize
    ensures var start := |Flatten(all[..k])|;
            && start < |xs|
            && all[k] == xs[start .. Min(start + batchSize, |xs|)]
            && (start + batchSize < |xs| <==> k + 1 < |all|)
  {
    BatchInPlace(all, k);
    NextStart(all, k);
    if k + 1 < |all| {
      BeforeNonEmpty(all, k + 1);
    } else {
      FlattenWhole(all);
    }
  }

  /** One iteration of the loop at offset `i`, when `i` is where batch `k`
      starts: it performs iteration `k` of the plan, and the next offset is
      where batch `k + 1` starts, or past the end after the last batch. */
  lemma PlanStep<T>(chunks: seq<T>, batchSize: nat, k: nat, i: nat)
    requires batchSize > 0 && i < |chunks|
    requires k <= |Batches(chunks, batchSize)|
    requires i == |Flatten(Batches(chunks, batchSize)[..k])|
    ensures k < |Plan(chunks, batchSize)|
    ensures Plan(chunks, batchSize)[k]
            == BatchInfo(i, chunks[i .. Min(i + batchSize, |chunks|)], k + 1, |Batches(chunks, batchSize)|)
    ensures i + batchSize < |chunks| ==> i + batchSize == |Flatten(Batches(chunks, batchSize)[..k + 1])|
    ensures i + batchSize >= |chunks| ==> k + 1 == |Batches(chunks, batchSize)|
  {
    var all := Batches(chunks, batchSize);
    FlattenWhole(all);
    BatchSlice(chunks, batchSize, k);
    NextStart(all, k);
  }

  /** The loop `for i in range(0, len(chunks), batch_size)` with its slice
      `chunks[i:i + batch_size]` and counters `i // batch_size + 1` and
      `(len(chunks) - 1) // batch_size + 1` performs exactly the iterations
      `Plan` describes. */
  method PlanBatches<T>(chunks: seq<T>, batchSize: nat) returns (plan: seq<BatchInfo<T>>)
    requires batchSize > 0
    ensures plan == Plan(chunks, batchSize)
  {
    ghost var all := Batches(chunks, batchSize);
    ghost var expected := Plan(chunks, batchSize);
    BatchesCount(chunks, batchSize);
    plan := [];
    var i := 0;
    assert all[..0] == [];
    while i < |chunks|
      invariant i / batchSize == |plan|
      invariant |plan| <= |all|
      invariant i < |chunks| ==> i == |Flatten(all[..|plan|])|
      invariant i >= |chunks| ==> |plan| == |all|
      invariant plan == expected[..|plan|]
      decreases |chunks| - i
    {
      var batch := chunks[i .. Min(i + batchSize, |chunks|)];
      var batchNum := i / batchSize + 1;
      var total := (|chunks| - 1) / batchSize + 1;
      PlanStep(chunks, batchSize, |plan|, i);
      DivStep(i, batchSize);
      assert expected[..|plan| + 1] == plan + [expected[|plan|]];
      plan := plan + [BatchInfo(i, batch, batchNum, total)];
      i := i + batchSize;
    }
    assert expected[..|plan|] == expected;
  }
}
