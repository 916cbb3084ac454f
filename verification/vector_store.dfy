/** The index store (`VectorStoreManager`): an append-only vector collection
    plus the file ledger, with batched insertion whose ledger update happens
    only after every batch went in. */
module VectorStore {
  import opened Types
  import opened Seqs
  import opened Batching
  import opened ChangeDetection

  /** `batch_size` as `index_documents` passes it. */
  const DefaultBatchSize: nat := 100

  /** One stored chunk with the identifier the collection minted for it. */
  datatype Entry = Entry(id: Id, doc: Doc)

  /** The manager's state: the ledger, the collection's contents in insertion
      order, the next identifier the collection will mint, and whether the
      collection handle has been opened (`self.vector_store` is set). */
  datatype Store = Store(ledger: Ledger, collection: seq<Entry>, nextId: Id, loaded: bool)

  /** A step that may raise: the state it leaves behind and its outcome. */
  datatype AddOutcome = AddOutcome(store: Store, result: Result<seq<Id>>)

  /** Identifiers never repeat: they increase along the collection and stay
      below the next one to be minted. */
  ghost predicate Valid(s: Store) {
    && (forall k :: 0 <= k < |s.collection| ==> s.collection[k].id < s.nextId)
    && (forall a, b :: 0 <= a < b < |s.collection| ==> s.collection[a].id < s.collection[b].id)
  }

  /** The entries the collection creates for `docs` when it mints from `from`. */
  function Minted(docs: seq<Doc>, from: Id): (r: seq<Entry>)
    ensures |r| == |docs|
    ensures forall i :: 0 <= i < |docs| ==> r[i].doc == docs[i] && r[i].id == from + i
  {
    seq(|docs|, i requires 0 <= i < |docs| => Entry(from + i, docs[i]))
  }

  lemma MintedAppend(a: seq<Doc>, b: seq<Doc>, from: Id)
    ensures Minted(a + b, from) == Minted(a, from) + Minted(b, from + |a|)
  {
  }

  /** `n` consecutive identifiers starting at `from`. */
  function IdRange(from: Id, n: nat): (r: seq<Id>)
    ensures |r| == n
    ensures forall i :: 0 <= i < n ==> r[i] == from + i
  {
    seq(n, i requires 0 <= i < n => from + i)
  }

  lemma IdRangeAppend(from: Id, n: nat, m: nat)
    ensures IdRange(from, n) + IdRange(from + n, m) == IdRange(from, n + m)
  {
  }

  /** The collection's `add_documents` on one batch: appends the batch and
      returns one fresh identifier per document. */
  function AppendBatch(s: Store, batch: seq<Doc>): (Store, seq<Id>) {
    (s.(collection := s.collection + Minted(batch, s.nextId), nextId := s.nextId + |batch|),
     IdRange(s.nextId, |batch|))
  }

  /** Whether the injected failure hits one of the batches numbered
      `num .. num + count - 1`. */
  predicate FailsWithin(failAt: Option<nat>, num: nat, count: nat) {
    failAt.Some? && num <= failAt.value < num + count
  }

  /** What the batch loop from batch number `num` on does, with the
      collection failing on batch `failAt` (if any): the batches before the
      failing one stay in the collection and the error propagates; without
      a failure, all batches are appended in order and the returned
      identifiers are those of the appended entries; the ledger is never
      touched. */
  ghost predicate AppendSpec(s: Store, batches: seq<seq<Doc>>, num: nat, failAt: Option<nat>, r: AddOutcome) {
    && r.store.ledger == s.ledger && r.store.loaded == s.loaded
    && (FailsWithin(failAt, num, |batches|) ==>
          var done := Flatten(batches[..failAt.value - num]);
          && r.store.collection == s.collection + Minted(done, s.nextId)
          && r.store.nextId == s.nextId + |done|
          && r.result == Err(BatchFailed(failAt.value)))
    && (!FailsWithin(failAt, num, |batches|) ==>
          && r.store.collection == s.collection + Minted(Flatten(batches), s.nextId)
          && r.store.nextId == s.nextId + |Flatten(batches)|
          && r.result == Ok(IdRange(s.nextId, |Flatten(batches)|)))
  }

  /** The batch loop of `add_documents` from batch number `num` on. */
  function AppendBatches(s: Store, batches: seq<seq<Doc>>, num: nat, failAt: Option<nat>): (r: AddOutcome)
    ensures AppendSpec(s, batches, num, failAt, r)
    decreases |batches|
  {
    if |batches| == 0 then AddOutcome(s, Ok([]))
    else if failAt == Some(num) then
      assert batches[..0] == [];
      AddOutcome(s, Err(BatchFailed(num)))
    else
      var (s1, ids) := AppendBatch(s, batches[0]);
      var rest := AppendBatches(s1, batches[1..], num + 1, failAt);
      var r := AddOutcome(rest.store, if rest.result.Ok? then Ok(ids + rest.result.value) else rest.result);
      AppendStep(s, batches, num, failAt, rest, r);
      r
  }

  /** Appending the first batch and then running the loop on the rest meets
      the loop's description for all batches. */
  lemma AppendStep(s: Store, batches: seq<seq<Doc>>, num: nat, failAt: Option<nat>, rest: AddOutcome, r: AddOutcome)
    requires |batches| > 0 && failAt != Some(num)
    requires AppendSpec(AppendBatch(s, batches[0]).0, batches[1..], num + 1, failAt, rest)
    requires r == AddOutcome(rest.store,
                             if rest.result.Ok? then Ok(AppendBatch(s, batches[0]).1 + rest.result.value) else rest.result)
    ensures AppendSpec(s, batches, num, failAt, r)
  {
    if FailsWithin(failAt, num, |batches|) {
      AppendStepFails(s, batches, num, failAt, rest, r);
    } else {
      AppendStepSucceeds(s, batches, num, failAt, rest, r);
    }
  }

  lemma AppendStepFails(s: Store, batches: seq<seq<Doc>>, num: nat, failAt: Option<nat>, rest: AddOutcome, r: AddOutcome)
    requires |batches| > 0 && failAt != Some(num) && FailsWithin(failAt, num, |batches|)
    requires AppendSpec(AppendBatch(s, batches[0]).0, batches[1..], num + 1, failAt, rest)
    requires r == AddOutcome(rest.store,
                             if rest.result.Ok? then Ok(AppendBatch(s, batches[0]).1 + rest.result.value) else rest.result)
    ensures AppendSpec(s, batches, num, failAt, r)
  {
    AppendStepFailing(s, batches, num, failAt.value);
  }

  lemma AppendStepSucceeds(s: Store, batches: seq<seq<Doc>>, num: nat, failAt: Option<nat>, rest: AddOutcome, r: AddOutcome)
    requires |batches| > 0 && !FailsWithin(failAt, num, |batches|)
    requires AppendSpec(AppendBatch(s, batches[0]).0, batches[1..], num + 1, failAt, rest)
    requires r == AddOutcome(rest.store,
                             if rest.result.Ok? then Ok(AppendBatch(s, batches[0]).1 + rest.result.value) else rest.result)
    ensures AppendSpec(s, batches, num, failAt, r)
  {
    var b := batches[0];
    assert Flatten(batches) == b + Flatten(batches[1..]);
    MintedAppend(b, Flatten(batches[1..]), s.nextId);
    IdRangeAppend(s.nextId, |b|, |Flatten(batches[1..])|);
  }

  /** The batches before a failing one are the first batch and those the
      rest of the loop completed. */
  lemma AppendStepFailing(s: Store, batches: seq<seq<Doc>>, num: nat, failAt: nat)
    requires |batches| > 0 && num < failAt < num + |batches|
    ensures var j := failAt - num;
            Minted(Flatten(batches[..j]), s.nextId)
              == Minted(batches[0], s.nextId) + Minted(Flatten(batches[1..][..j - 1]), s.nextId + |batches[0]|)
  {
    var b := batches[0];
    var j := failAt - num;
    assert batches[..j] == [b] + batches[1..][..j - 1];
    assert Flatten(batches[..j]) == b + Flatten(batches[1..][..j - 1]);
    MintedAppend(b, Flatten(batches[1..][..j - 1]), s.nextId);
  }

  /** `if source_file:` — absent and empty paths are falsy. */
  predicate Truthy(sourceFile: Option<Path>) {
    sourceFile.Some? && |sourceFile.value| > 0
  }

  /** `add_documents(chunks, source_file, batch_size)`, with the collection
      failing on batch number `failAt` (1-based, as printed), if any. */
  function AddDocuments(env: Env, s: Store, chunks: seq<Doc>, sourceFile: Option<Path>,
                        batchSize: int, failAt: Option<nat>): (r: AddOutcome)
    ensures r.store.loaded
    // `range` with a zero step raises before anything is added
    ensures batchSize == 0 ==> r == AddOutcome(s.(loaded := true), Err(InvalidBatchSize))
    // the collection only grows, by a prefix of `chunks`, in order, with fresh identifiers
    ensures exists m :: 0 <= m <= |chunks| && Grown(s, r.store, chunks[..m])
    // with every batch accepted, the collection gains exactly `chunks`, in order
    ensures batchSize > 0 && !FailsWithin(failAt, 1, |Batches(chunks, batchSize)|) ==>
              && r.store.collection == s.collection + Minted(chunks, s.nextId)
              && r.store.nextId == s.nextId + |chunks|
    // a failing batch leaves the batches before it, keeps the ledger and propagates
    ensures batchSize > 0 && FailsWithin(failAt, 1, |Batches(chunks, batchSize)|) ==>
              var done := Flatten(Batches(chunks, batchSize)[..failAt.value - 1]);
              && r.store.collection == s.collection + Minted(done, s.nextId)
              && r.store.ledger == s.ledger
              && r.result == Err(BatchFailed(failAt.value))
    // the returned identifiers are those of the new entries, in order
    ensures r.result.Ok? ==>
              && |r.store.collection| == |s.collection| + |r.result.value|
              && forall i :: 0 <= i < |r.result.value| ==>
                   r.result.value[i] == r.store.collection[|s.collection| + i].id
    // besides the batch size and a batch, only marking a source file that is gone raises
    ensures r.result.Err? ==>
              || r.result.error == InvalidBatchSize
              || r.result.error.BatchFailed?
              || (Truthy(sourceFile) && sourceFile.value !in env.files && r.result.error == FileNotFound(sourceFile.value))
    // the ledger changes only after all batches succeeded, and only for a given source file
    ensures r.store.ledger != s.ledger ==> r.result.Ok? && Truthy(sourceFile)
    ensures r.result.Ok? && !Truthy(sourceFile) ==> r.store.ledger == s.ledger
    ensures r.result.Ok? && Truthy(sourceFile) ==>
              && sourceFile.value in env.files
              && r.store.ledger == s.ledger[env.basename(sourceFile.value) := env.digest(env.files[sourceFile.value])]
              && Current(env, r.store.ledger, sourceFile.value)
  {
    var s0 := s.(loaded := true);
    assert s.collection + Minted(chunks[..0], s.nextId) == s.collection;
    if batchSize == 0 then AddOutcome(s0, Err(InvalidBatchSize))
    else
      var appended :=
        if batchSize < 0 then AddOutcome(s0, Ok([]))
        else AppendBatches(s0, Batches(chunks, batchSize), 1, failAt);
      assert appended.store.ledger == s.ledger;
      assert exists m :: 0 <= m <= |chunks| && Grown(s, appended.store, chunks[..m]) by {
        if batchSize > 0 {
          AppendedPrefix(s0, chunks, batchSize, failAt);
        }
      }
      if appended.result.Err? || !Truthy(sourceFile) then appended
      else
        match MarkFileIndexed(env, appended.store.ledger, sourceFile.value)
        case Ok(l) => AddOutcome(appended.store.(ledger := l), appended.result)
        case Err(e) => AddOutcome(appended.store, Err(e))
  }

  /** `after` is `before` with `docs` appended under fresh identifiers. */
  ghost predicate Grown(before: Store, after: Store, docs: seq<Doc>) {
    && after.collection == before.collection + Minted(docs, before.nextId)
    && after.nextId == before.nextId + |docs|
  }

  /** Growing by `a` and then by `b` is growing by `a + b`. */
  lemma GrownTwice(s0: Store, s1: Store, s2: Store, a: seq<Doc>, b: seq<Doc>)
    requires Grown(s0, s1, a) && Grown(s1, s2, b)
    ensures Grown(s0, s2, a + b)
  {
    MintedAppend(a, b, s0.nextId);
  }

  /** The batch loop stores a prefix of the chunks. */
  lemma AppendedPrefix(s: Store, chunks: seq<Doc>, batchSize: nat, failAt: Option<nat>)
    requires batchSize > 0
    ensures exists m :: 0 <= m <= |chunks| && Grown(s, AppendBatches(s, Batches(chunks, batchSize), 1, failAt).store, chunks[..m])
  {
    var all := Batches(chunks, batchSize);
    var r := AppendBatches(s, all, 1, failAt);
    if FailsWithin(failAt, 1, |all|) {
      var k := failAt.value - 1;
      BatchesPrefix(chunks, batchSize, k);
      var m := Min(k * batchSize, |chunks|);
      assert Flatten(all[..k]) == chunks[..m];
      assert Grown(s, r.store, chunks[..m]);
    } else {
      assert chunks[..|chunks|] == chunks;
      assert Grown(s, r.store, chunks[..|chunks|]);
    }
  }

  /** Batch size is not observable on success: any two positive batch sizes
      leave the same store and return the same identifiers. */
  lemma BatchSizeInvariance(env: Env, s: Store, chunks: seq<Doc>, sourceFile: Option<Path>, bs1: nat, bs2: nat)
    requires bs1 > 0 && bs2 > 0
    ensures AddDocuments(env, s, chunks, sourceFile, bs1, None) == AddDocuments(env, s, chunks, sourceFile, bs2, None)
  {
    var r1 := AddDocuments(env, s, chunks, sourceFile, bs1, None);
    var r2 := AddDocuments(env, s, chunks, sourceFile, bs2, None);
    assert r1.store.collection == r2.store.collection;
    assert r1.result.Ok? <==> r2.result.Ok?;
    if r1.result.Ok? {
      assert r1.result.value == r2.result.value;
    }
  }

  /** With a collection that fails on the second of three batches, exactly
      the first batch is stored, the ledger is unchanged, and the failure
      is reported. */
  lemma SecondOfThreeBatchesFails(env: Env, s: Store, chunks: seq<Doc>, sourceFile: Option<Path>, batchSize: nat)
    requires batchSize > 0
    requires 2 * batchSize < |chunks| <= 3 * batchSize
    ensures var r := AddDocuments(env, s, chunks, sourceFile, batchSize, Some(2));
            && r.store.collection == s.collection + Minted(chunks[..batchSize], s.nextId)
            && r.store.ledger == s.ledger
            && r.result == Err(BatchFailed(2))
  {
    BatchesCount(chunks, batchSize);
    DivUnique(|chunks| - 1, batchSize, 2, |chunks| - 1 - 2 * batchSize);
    BatchesPrefix(chunks, batchSize, 1);
  }

  /** Adding documents keeps identifiers unique: the new ones are fresh. */
  lemma AddKeepsValid(env: Env, s: Store, chunks: seq<Doc>, sourceFile: Option<Path>, batchSize: int, failAt: Option<nat>)
    requires Valid(s)
    ensures Valid(AddDocuments(env, s, chunks, sourceFile, batchSize, failAt).store)
  {
    var r := AddDocuments(env, s, chunks, sourceFile, batchSize, failAt);
    var m :| 0 <= m <= |chunks| && Grown(s, r.store, chunks[..m]);
  }

  /** `delete_collection`: the ledger is emptied in every case; the
      collection is dropped only when its handle was opened. */
  function DeleteCollection(s: Store): (r: Store)
    ensures r.ledger == map[]
    ensures s.loaded ==> r.collection == []
    ensures !s.loaded ==> r.collection == s.collection
    ensures r.nextId == s.nextId && r.loaded == s.loaded
  {
    var dropped := if s.loaded then s.(collection := []) else s;
    dropped.(ledger := map[])
  }

  /** After `delete_collection` no file is indexed, and the store stays
      consistent. */
  lemma DeleteForgetsAll(env: Env, s: Store, p: Path)
    ensures IsFileIndexed(env, DeleteCollection(s).ledger, p) == Ok(false)
    ensures Valid(s) ==> Valid(DeleteCollection(s))
  {
  }

  /** Listing right after deleting an opened collection finds no file, and
      the collection is empty. */
  method ListAfterDelete(s: Store) returns (names: seq<string>, count: nat)
    requires s.loaded
    ensures names == [] && count == 0
  {
    var cleared := DeleteCollection(s);
    names := ListIndexedFiles(cleared);
    count := |cleared.collection|;
  }

  /** `list_indexed_files`: every ledger key exactly once. The order of
      Python's dict keys (insertion order) is not modelled. */
  method ListIndexedFiles(s: Store) returns (names: seq<string>)
    ensures NoDuplicates(names)
    ensures forall n :: n in names <==> n in s.ledger
    ensures |names| == |s.ledger|
  {
    names := [];
    var left := s.ledger.Keys;
    while left != {}
      invariant left <= s.ledger.Keys
      invariant NoDuplicates(names)
      invariant forall n :: n in names <==> n in s.ledger.Keys - left
      invariant |names| + |left| == |s.ledger.Keys|
      decreases |left|
    {
      var n :| n in left;
      assert n !in names;
      names := names + [n];
      left := left - {n};
    }
  }
}
