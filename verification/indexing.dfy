/** One `index` run (`index_documents`): choose the files to process through
    the ledger (or all of them when forced), then add each file's chunks in
    turn, counting them. */
module Indexing {
  import opened Types
  import opened Seqs
  import opened ChangeDetection
  import opened Batching
  import opened VectorStore

  /** The chunks the extractor yields for `f` (none when it raises). */
  function Chunks(env: Env, f: Path): seq<Doc> {
    match env.extract(f)
    case Some(c) => c
    case None => []
  }

  /** All chunks of `files`, file after file, each file's chunks in order. */
  function AllChunks(env: Env, files: seq<Path>): seq<Doc>
    decreases |files|
  {
    if |files| == 0 then [] else Chunks(env, files[0]) + AllChunks(env, files[1..])
  }

  /** The sum of `len(chunks)` over `files`. */
  function TotalChunks(env: Env, files: seq<Path>): nat
    decreases |files|
  {
    if |files| == 0 then 0 else |Chunks(env, files[0])| + TotalChunks(env, files[1..])
  }

  lemma {:induction false} TotalIsLength(env: Env, files: seq<Path>)
    ensures TotalChunks(env, files) == |AllChunks(env, files)|
    decreases |files|
  {
    if |files| > 0 {
      TotalIsLength(env, files[1..]);
    }
  }

  /** The ledger names that processing `files` may write: the basenames of
      the files with at least one chunk. */
  ghost function MarkedNames(env: Env, files: seq<Path>): set<string> {
    set i | 0 <= i < |files| && |Chunks(env, files[i])| > 0 :: env.basename(files[i])
  }

  /** Two ledgers agree on name `k`. */
  ghost predicate SameEntry(a: Ledger, b: Ledger, k: string) {
    (k in a <==> k in b) && (k in a ==> a[k] == b[k])
  }

  /** Among `files`, a basename determines the path (true of one directory's listing). */
  ghost predicate NamesIdentifyFiles(env: Env, files: seq<Path>) {
    forall f, g :: f in files && g in files && env.basename(f) == env.basename(g) ==> f == g
  }

  /** Every path is non-empty, so `if source_file:` holds for it. */
  predicate NonEmptyPaths(files: seq<Path>) {
    forall i :: 0 <= i < |files| ==> |files[i]| > 0
  }

  /** The unforced filter `[f for f in pdf_files if not is_file_indexed(f)]`:
      the files that are not current, in their listing order; the first
      file whose check raises aborts the filter. */
  function Unindexed(env: Env, ledger: Ledger, pdfs: seq<Path>): (r: Result<seq<Path>>)
    ensures r.Ok? <==> forall i :: 0 <= i < |pdfs| ==> IsFileIndexed(env, ledger, pdfs[i]).Ok?
    ensures r.Ok? ==> IsSubsequence(r.value, pdfs) && |r.value| <= |pdfs|
    ensures r.Ok? ==> forall i :: 0 <= i < |r.value| ==> r.value[i] in pdfs
    ensures r.Ok? ==> forall i :: 0 <= i < |pdfs| ==> (pdfs[i] in r.value <==> !Current(env, ledger, pdfs[i]))
    // the check raises only for a listed file the ledger knows but that is gone
    ensures r.Err? ==>
              && r.error.FileNotFound? && r.error.path in pdfs
              && env.basename(r.error.path) in ledger && r.error.path !in env.files
    decreases |pdfs|
  {
    if |pdfs| == 0 then Ok([])
    else
      match IsFileIndexed(env, ledger, pdfs[0])
      case Err(e) => Err(e)
      case Ok(indexed) =>
        match Unindexed(env, ledger, pdfs[1..])
        case Err(e) => Err(e)
        case Ok(rest) =>
          var kept := if indexed then rest else [pdfs[0]] + rest;
          UnindexedOrder(pdfs, indexed, rest, kept);
          UnindexedMembers(pdfs, indexed, rest, kept);
          UnindexedVerdict(env, ledger, pdfs, indexed, rest, kept);
          Ok(kept)
  }

  /** The filter's contract, carried from the remaining files to all of them
      once the first file's check answered `indexed`: order and length ... */
  lemma UnindexedOrder(pdfs: seq<Path>, indexed: bool, rest: seq<Path>, kept: seq<Path>)
    requires |pdfs| > 0 && kept == if indexed then rest else [pdfs[0]] + rest
    requires IsSubsequence(rest, pdfs[1..]) && |rest| <= |pdfs[1..]|
    ensures IsSubsequence(kept, pdfs) && |kept| <= |pdfs|
  {
    if !indexed {
      assert kept[1..] == rest;
    }
  }

  /** ... membership ... */
  lemma UnindexedMembers(pdfs: seq<Path>, indexed: bool, rest: seq<Path>, kept: seq<Path>)
    requires |pdfs| > 0 && kept == if indexed then rest else [pdfs[0]] + rest
    requires forall i :: 0 <= i < |rest| ==> rest[i] in pdfs[1..]
    ensures forall i :: 0 <= i < |kept| ==> kept[i] in pdfs
  {
    forall i | 0 <= i < |kept|
      ensures kept[i] in pdfs
    {
      if !indexed && i > 0 {
        assert kept[i] == rest[i - 1];
      }
    }
  }

  /** ... and the verdict each file is selected by. */
  lemma UnindexedVerdict(env: Env, ledger: Ledger, pdfs: seq<Path>, indexed: bool, rest: seq<Path>, kept: seq<Path>)
    requires |pdfs| > 0 && IsFileIndexed(env, ledger, pdfs[0]) == Ok(indexed)
    requires kept == if indexed then rest else [pdfs[0]] + rest
    requires forall i :: 0 <= i < |rest| ==> rest[i] in pdfs[1..]
    requires forall i :: 0 <= i < |pdfs[1..]| ==> (pdfs[1..][i] in rest <==> !Current(env, ledger, pdfs[1..][i]))
    ensures forall i :: 0 <= i < |pdfs| ==> (pdfs[i] in kept <==> !Current(env, ledger, pdfs[i]))
  {
    forall i | 0 <= i < |pdfs|
      ensures pdfs[i] in kept <==> !Current(env, ledger, pdfs[i])
    {
      if i > 0 {
        assert pdfs[i] == pdfs[1..][i - 1];
      } else if pdfs[0] in rest {
        var k :| 0 <= k < |rest| && rest[k] == pdfs[0];
        var i' :| 0 <= i' < |pdfs[1..]| && pdfs[1..][i'] == rest[k];
      }
    }
  }

  /** The filter keeps a path that is not current as often as it is listed,
      and a current one never; with the order kept, this fixes its result. */
  lemma {:induction false} UnindexedMultiplicity(env: Env, ledger: Ledger, pdfs: seq<Path>)
    ensures var r := Unindexed(env, ledger, pdfs);
            r.Ok? ==> forall x :: multiset(r.value)[x] == if Current(env, ledger, x) then 0 else multiset(pdfs)[x]
    decreases |pdfs|
  {
    var r := Unindexed(env, ledger, pdfs);
    if |pdfs| > 0 && r.Ok? {
      var indexed := IsFileIndexed(env, ledger, pdfs[0]).value;
      var rest := Unindexed(env, ledger, pdfs[1..]).value;
      UnindexedMultiplicity(env, ledger, pdfs[1..]);
      UnindexedCounts(env, ledger, pdfs, indexed, rest, r.value);
    }
  }

  /** A path's count after the first file's check, from its count after the rest. */
  lemma UnindexedCounts(env: Env, ledger: Ledger, pdfs: seq<Path>, indexed: bool, rest: seq<Path>, kept: seq<Path>)
    requires |pdfs| > 0 && IsFileIndexed(env, ledger, pdfs[0]) == Ok(indexed)
    requires kept == if indexed then rest else [pdfs[0]] + rest
    requires forall x :: multiset(rest)[x] == if Current(env, ledger, x) then 0 else multiset(pdfs[1..])[x]
    ensures forall x :: multiset(kept)[x] == if Current(env, ledger, x) then 0 else multiset(pdfs)[x]
  {
    assert pdfs == [pdfs[0]] + pdfs[1..];
    assert indexed <==> Current(env, ledger, pdfs[0]);
  }

  /** Which files the run processes: all of them when forced, otherwise
      those the ledger does not show as current. */
  function SelectFiles(env: Env, ledger: Ledger, pdfs: seq<Path>, force: bool): Result<seq<Path>> {
    if force then Ok(pdfs) else Unindexed(env, ledger, pdfs)
  }

  /** What the selection promises: a forced run takes every listed file; an
      unforced one succeeds exactly when every ledger check does, and then
      keeps, in listing order, exactly the files that are not current; a
      check raises only for a file the ledger knows but that is gone. */
  lemma SelectionSpec(env: Env, ledger: Ledger, pdfs: seq<Path>, force: bool)
    ensures var r := SelectFiles(env, ledger, pdfs, force);
            && (force ==> r == Ok(pdfs))
            && (!force ==> (r.Ok? <==> forall i :: 0 <= i < |pdfs| ==> IsFileIndexed(env, ledger, pdfs[i]).Ok?))
            && (r.Ok? ==> IsSubsequence(r.value, pdfs))
            && (!force && r.Ok? ==> forall i :: 0 <= i < |pdfs| ==> (pdfs[i] in r.value <==> !Current(env, ledger, pdfs[i])))
            && (!force && r.Ok? ==>
                  forall x :: multiset(r.value)[x] == if Current(env, ledger, x) then 0 else multiset(pdfs)[x])
            && (r.Err? ==>
                  && !force && r.error.FileNotFound? && r.error.path in pdfs
                  && env.basename(r.error.path) in ledger && r.error.path !in env.files)
  {
    if force {
      SubsequenceOfItself(pdfs);
    } else {
      UnindexedMultiplicity(env, ledger, pdfs);
    }
  }

  /** The state after part of a run, and the chunk count or the error. */
  datatype Progress = Progress(store: Store, result: Result<nat>)

  /** The per-file loop: extract each file's chunks and, when there are any,
      add them (marking the file) with batch size 100; an error from the
      extractor or from `add_documents` aborts the rest of the run. */
  function ProcessFiles(env: Env, s: Store, files: seq<Path>, fails: Path -> Option<nat>): (r: Progress)
    ensures Processed(env, s, files, r)
    decreases |files|
  {
    if |files| == 0 then Progress(s, Ok(0))
    else
      var f := files[0];
      match env.extract(f)
      case None =>
        var r := Progress(s, Err(ExtractionFailed(f)));
        ExtractAbort(env, s, files, r);
        r
      case Some(chunks) =>
        if |chunks| == 0 then
          var rest := ProcessFiles(env, s, files[1..], fails);
          SkipStep(env, s, files, rest);
          rest
        else
          var added := AddDocuments(env, s, chunks, Some(f), DefaultBatchSize, fails(f));
          if added.result.Err? then
            var r := Progress(added.store, Err(added.result.error));
            AddAbort(env, s, files, chunks, fails(f), r);
            r
          else
            var rest := ProcessFiles(env, added.store, files[1..], fails);
            var r := Progress(rest.store, if rest.result.Ok? then Ok(|chunks| + rest.result.value) else rest.result);
            AddStep(env, s, files, chunks, fails(f), added.store, rest, r);
            r
  }

  /** What processing `files` from `s` with outcome `r` guarantees. */
  ghost predicate Processed(env: Env, s: Store, files: seq<Path>, r: Progress) {
    && (s.loaded ==> r.store.loaded)
    // only the basenames of files with chunks can change in the ledger
    && (forall k :: k !in MarkedNames(env, files) ==> SameEntry(s.ledger, r.store.ledger, k))
    // success means every file was extracted
    && (r.result.Ok? ==> forall i :: 0 <= i < |files| ==> env.extract(files[i]).Some?)
    // the files' chunks are appended file after file, never interleaved, and counted
    && (r.result.Ok? ==>
          && r.result.value == TotalChunks(env, files)
          && r.store.collection == s.collection + Minted(AllChunks(env, files), s.nextId)
          && r.store.nextId == s.nextId + |AllChunks(env, files)|)
    // every file with chunks ends up current in the ledger
    && (r.result.Ok? && NamesIdentifyFiles(env, files) && NonEmptyPaths(files) ==>
          forall i :: 0 <= i < |files| && |Chunks(env, files[i])| > 0 ==> Current(env, r.store.ledger, files[i]))
    // an error stops the loop at some file, keeping what was done before it
    && (r.result.Err? ==> Aborted(env, s, files, r))
  }

  /** The run over `files` raised at one of them. */
  ghost predicate Aborted(env: Env, s: Store, files: seq<Path>, r: Progress) {
    exists j: nat, m: nat :: AbortedAt(env, s, files, r, j, m)
  }

  /** A run over `files` from `s` that raised at `files[j]`, after the files
      before it were handled completely and the first `m` chunks of
      `files[j]` were stored. */
  ghost predicate AbortedAt(env: Env, s: Store, files: seq<Path>, r: Progress, j: nat, m: nat) {
    && j < |files| && m <= |Chunks(env, files[j])|
    && r.result.Err?
    && (forall i :: 0 <= i < j ==> env.extract(files[i]).Some?)
    // a chunker failure stores nothing of its file; otherwise adding its chunks raised
    && (env.extract(files[j]).None? ==> r.result.error == ExtractionFailed(files[j]) && m == 0)
    && (env.extract(files[j]).Some? ==> r.result.error.BatchFailed? || r.result.error == FileNotFound(files[j]))
    // what was stored stays stored, in order, under fresh identifiers
    && Grown(s, r.store, AllChunks(env, files[..j]) + Chunks(env, files[j])[..m])
    // only names of the earlier files with chunks changed in the ledger ...
    && (forall k :: k !in MarkedNames(env, files[..j]) ==> SameEntry(s.ledger, r.store.ledger, k))
    // ... and those files are current
    && (NamesIdentifyFiles(env, files) && NonEmptyPaths(files) ==>
          forall i :: 0 <= i < j && |Chunks(env, files[i])| > 0 ==> Current(env, r.store.ledger, files[i]))
  }

  /** The file the run stopped at keeps its ledger entry, and so its verdict,
      unless an earlier listed file shares its basename. */
  lemma FailedFileKeepsVerdict(env: Env, s: Store, files: seq<Path>, r: Progress, j: nat, m: nat)
    requires AbortedAt(env, s, files, r, j, m)
    requires NamesIdentifyFiles(env, files) && files[j] !in files[..j]
    ensures SameEntry(s.ledger, r.store.ledger, env.basename(files[j]))
    ensures Current(env, r.store.ledger, files[j]) <==> Current(env, s.ledger, files[j])
  {
    assert env.basename(files[j]) !in MarkedNames(env, files[..j]);
  }

  /** The chunker raising on the first file ends the run with nothing done. */
  lemma ExtractAbort(env: Env, s: Store, files: seq<Path>, r: Progress)
    requires |files| > 0 && env.extract(files[0]).None?
    requires r == Progress(s, Err(ExtractionFailed(files[0])))
    ensures Processed(env, s, files, r)
  {
    assert AllChunks(env, files[..0]) + Chunks(env, files[0])[..0] == [];
    assert AbortedAt(env, s, files, r, 0, 0);
  }

  /** `add_documents` raising on the first file ends the run with a prefix
      of that file's chunks stored and the ledger untouched. */
  lemma AddAbort(env: Env, s: Store, files: seq<Path>, chunks: seq<Doc>, failAt: Option<nat>, r: Progress)
    requires |files| > 0 && env.extract(files[0]) == Some(chunks) && |chunks| > 0
    requires var added := AddDocuments(env, s, chunks, Some(files[0]), DefaultBatchSize, failAt);
             added.result.Err? && r == Progress(added.store, Err(added.result.error))
    ensures Processed(env, s, files, r)
  {
    var m :| 0 <= m <= |chunks| && Grown(s, r.store, chunks[..m]);
    assert AllChunks(env, files[..0]) + Chunks(env, files[0])[..m] == chunks[..m];
    assert AbortedAt(env, s, files, r, 0, m);
  }

  /** An abort among the remaining files, after the first file was handled,
      is an abort one position later among all of them. */
  lemma AbortStep(env: Env, s: Store, files: seq<Path>, s1: Store, rest: Progress, j: nat, m: nat)
    requires |files| > 0 && env.extract(files[0]).Some?
    requires s1.collection == s.collection + Minted(Chunks(env, files[0]), s.nextId)
    requires s1.nextId == s.nextId + |Chunks(env, files[0])|
    requires forall k :: k != env.basename(files[0]) ==> SameEntry(s.ledger, s1.ledger, k)
    requires |Chunks(env, files[0])| == 0 ==> s1.ledger == s.ledger
    requires |Chunks(env, files[0])| > 0 && |files[0]| > 0 ==> Current(env, s1.ledger, files[0])
    requires AbortedAt(env, s1, files[1..], rest, j, m)
    ensures AbortedAt(env, s, files, rest, j + 1, m)
  {
    var p := files[..j + 1];
    assert p[1..] == files[1..][..j];
    assert files[j + 1] == files[1..][j];
    AbortCollection(env, s, files, s1, rest.store, j, m);
    StepFrame(env, s.ledger, p, s1.ledger, rest.store.ledger);
    forall i | 0 < i < j + 1
      ensures env.extract(files[i]).Some?
    {
      assert files[i] == files[1..][i - 1];
    }
    if NamesIdentifyFiles(env, files) && NonEmptyPaths(files) {
      AbortCurrent(env, files, j, s1.ledger, rest.store.ledger);
    }
  }

  lemma AbortCollection(env: Env, s: Store, files: seq<Path>, s1: Store, s2: Store, j: nat, m: nat)
    requires j + 1 < |files| && m <= |Chunks(env, files[j + 1])|
    requires Grown(s, s1, Chunks(env, files[0]))
    requires Grown(s1, s2, AllChunks(env, files[1..][..j]) + Chunks(env, files[1..][j])[..m])
    ensures Grown(s, s2, AllChunks(env, files[..j + 1]) + Chunks(env, files[j + 1])[..m])
  {
    var first, middle := Chunks(env, files[0]), AllChunks(env, files[1..][..j]);
    var last := Chunks(env, files[j + 1])[..m];
    assert files[1..][j] == files[j + 1];
    GrownTwice(s, s1, s2, first, middle + last);
    AllChunksOfPrefix(env, files, j);
    assert (first + middle) + last == first + (middle + last);
  }

  lemma AllChunksOfPrefix(env: Env, files: seq<Path>, j: nat)
    requires j < |files|
    ensures AllChunks(env, files[..j + 1]) == Chunks(env, files[0]) + AllChunks(env, files[1..][..j])
  {
    assert files[..j + 1][1..] == files[1..][..j];
  }

  lemma AbortCurrent(env: Env, files: seq<Path>, j: nat, l1: Ledger, l2: Ledger)
    requires j + 1 < |files| && NamesIdentifyFiles(env, files) && NonEmptyPaths(files)
    requires |Chunks(env, files[0])| > 0 ==> Current(env, l1, files[0])
    requires forall k :: k !in MarkedNames(env, files[1..][..j]) ==> SameEntry(l1, l2, k)
    requires NamesIdentifyFiles(env, files[1..]) && NonEmptyPaths(files[1..]) ==>
               forall i :: 0 <= i < j && |Chunks(env, files[1..][i])| > 0 ==> Current(env, l2, files[1..][i])
    ensures forall i :: 0 <= i < j + 1 && |Chunks(env, files[i])| > 0 ==> Current(env, l2, files[i])
  {
    var p := files[..j + 1];
    assert p[1..] == files[1..][..j];
    assert NamesIdentifyFiles(env, files[1..]) by {
      assert forall f :: f in files[1..] ==> f in files;
    }
    assert NonEmptyPaths(files[1..]) by {
      RestIndex(files);
    }
    assert NamesIdentifyFiles(env, p) by {
      assert forall f :: f in p ==> f in files;
    }
    CurrentAll(env, p, l1, l2);
  }

  /** A first file without chunks is skipped: the outcome for the remaining
      files is the outcome for all of them. */
  lemma SkipStep(env: Env, s: Store, files: seq<Path>, rest: Progress)
    requires |files| > 0 && env.extract(files[0]).Some? && |env.extract(files[0]).value| == 0
    requires Processed(env, s, files[1..], rest)
    ensures Processed(env, s, files, rest)
  {
    assert s.collection + Minted(Chunks(env, files[0]), s.nextId) == s.collection;
    StepFrame(env, s.ledger, files, s.ledger, rest.store.ledger);
    StepExtracted(env, files, rest.result.Ok?);
    StepSums(env, s, files, s, rest);
    StepCurrent(env, files, s.ledger, rest.store.ledger, rest.result.Ok?);
    if rest.result.Err? {
      var j: nat, m: nat :| AbortedAt(env, s, files[1..], rest, j, m);
      AbortStep(env, s, files, s, rest, j, m);
    }
  }

  /** A first file whose chunks were all added (and which was marked) followed
      by the remaining files. */
  lemma AddStep(env: Env, s: Store, files: seq<Path>, chunks: seq<Doc>, failAt: Option<nat>,
                s1: Store, rest: Progress, r: Progress)
    requires |files| > 0 && env.extract(files[0]) == Some(chunks) && |chunks| > 0
    requires var added := AddDocuments(env, s, chunks, Some(files[0]), DefaultBatchSize, failAt);
             added.result.Ok? && added.store == s1
    requires Processed(env, s1, files[1..], rest)
    requires r.store == rest.store
    requires rest.result.Ok? ==> r.result == Ok(|chunks| + rest.result.value)
    requires rest.result.Err? ==> r.result == rest.result
    ensures Processed(env, s, files, r)
  {
    assert !FailsWithin(failAt, 1, |Batches(chunks, DefaultBatchSize)|);
    StepFrame(env, s.ledger, files, s1.ledger, rest.store.ledger);
    StepExtracted(env, files, rest.result.Ok?);
    StepSums(env, s, files, s1, rest);
    StepCurrent(env, files, s1.ledger, rest.store.ledger, rest.result.Ok?);
    if rest.result.Err? {
      var j: nat, m: nat :| AbortedAt(env, s1, files[1..], rest, j, m);
      AbortStep(env, s, files, s1, rest, j, m);
    }
  }

  /** The per-file loop's contract, carried from the remaining files to all
      of them after the first file was handled: `l0` and `l1` are the
      ledgers before and after the first file, `l2` the final one. */
  lemma StepFrame(env: Env, l0: Ledger, files: seq<Path>, l1: Ledger, l2: Ledger)
    requires |files| > 0
    requires forall k :: k != env.basename(files[0]) ==> SameEntry(l0, l1, k)
    requires |Chunks(env, files[0])| == 0 ==> l1 == l0
    requires forall k :: k !in MarkedNames(env, files[1..]) ==> SameEntry(l1, l2, k)
    ensures forall k :: k !in MarkedNames(env, files) ==> SameEntry(l0, l2, k)
  {
    MarkedNamesCons(env, files);
    forall k | k !in MarkedNames(env, files)
      ensures SameEntry(l0, l2, k)
    {
      assert SameEntry(l0, l1, k);
      assert SameEntry(l1, l2, k);
    }
  }

  lemma StepExtracted(env: Env, files: seq<Path>, ok: bool)
    requires |files| > 0 && env.extract(files[0]).Some?
    requires ok ==> forall i :: 0 <= i < |files[1..]| ==> env.extract(files[1..][i]).Some?
    ensures ok ==> forall i :: 0 <= i < |files| ==> env.extract(files[i]).Some?
  {
    forall i | ok && 0 < i < |files|
      ensures env.extract(files[i]).Some?
    {
      assert files[i] == files[1..][i - 1];
    }
  }

  lemma StepCurrent(env: Env, files: seq<Path>, l1: Ledger, l2: Ledger, ok: bool)
    requires |files| > 0
    requires |Chunks(env, files[0])| > 0 && |files[0]| > 0 ==> Current(env, l1, files[0])
    requires forall k :: k !in MarkedNames(env, files[1..]) ==> SameEntry(l1, l2, k)
    requires ok && NamesIdentifyFiles(env, files[1..]) && NonEmptyPaths(files[1..]) ==>
               forall i :: 0 <= i < |files[1..]| && |Chunks(env, files[1..][i])| > 0 ==>
                 Current(env, l2, files[1..][i])
    ensures ok && NamesIdentifyFiles(env, files) && NonEmptyPaths(files) ==>
              forall i :: 0 <= i < |files| && |Chunks(env, files[i])| > 0 ==> Current(env, l2, files[i])
  {
    if ok && NamesIdentifyFiles(env, files) && NonEmptyPaths(files) {
      CurrentAll(env, files, l1, l2);
    }
  }

  lemma CurrentAll(env: Env, files: seq<Path>, l1: Ledger, l2: Ledger)
    requires |files| > 0 && NamesIdentifyFiles(env, files) && NonEmptyPaths(files)
    requires |Chunks(env, files[0])| > 0 ==> Current(env, l1, files[0])
    requires forall k :: k !in MarkedNames(env, files[1..]) ==> SameEntry(l1, l2, k)
    requires NamesIdentifyFiles(env, files[1..]) && NonEmptyPaths(files[1..]) ==>
               forall i :: 0 <= i < |files[1..]| && |Chunks(env, files[1..][i])| > 0 ==>
                 Current(env, l2, files[1..][i])
    ensures forall i :: 0 <= i < |files| && |Chunks(env, files[i])| > 0 ==> Current(env, l2, files[i])
  {
    assert NamesIdentifyFiles(env, files[1..]) by {
      assert forall f :: f in files[1..] ==> f in files;
    }
    assert NonEmptyPaths(files[1..]) by {
      RestIndex(files);
    }
    forall i | 0 <= i < |files| && |Chunks(env, files[i])| > 0
      ensures Current(env, l2, files[i])
    {
      if i == 0 {
        FirstStaysCurrent(env, files, l1, l2);
      } else {
        assert files[i] == files[1..][i - 1];
      }
    }
  }

  lemma StepSums(env: Env, s: Store, files: seq<Path>, s1: Store, rest: Progress)
    requires |files| > 0
    requires s1.collection == s.collection + Minted(Chunks(env, files[0]), s.nextId)
    requires s1.nextId == s.nextId + |Chunks(env, files[0])|
    requires rest.result.Ok? ==>
               && rest.result.value == TotalChunks(env, files[1..])
               && rest.store.collection == s1.collection + Minted(AllChunks(env, files[1..]), s1.nextId)
               && rest.store.nextId == s1.nextId + |AllChunks(env, files[1..])|
    ensures rest.result.Ok? ==>
              && |Chunks(env, files[0])| + rest.result.value == TotalChunks(env, files)
              && rest.store.collection == s.collection + Minted(AllChunks(env, files), s.nextId)
              && rest.store.nextId == s.nextId + |AllChunks(env, files)|
  {
    MintedAppend(Chunks(env, files[0]), AllChunks(env, files[1..]), s.nextId);
  }

  lemma RestIndex(files: seq<Path>)
    requires |files| > 0
    ensures forall i :: 0 <= i < |files[1..]| ==> files[1..][i] == files[i + 1]
  {
  }

  /** The names the first file and the remaining files may write. */
  lemma MarkedNamesCons(env: Env, files: seq<Path>)
    requires |files| > 0
    ensures MarkedNames(env, files) ==
              (if |Chunks(env, files[0])| > 0 then {env.basename(files[0])} else {}) + MarkedNames(env, files[1..])
  {
    var head := if |Chunks(env, files[0])| > 0 then {env.basename(files[0])} else {};
    forall k | k in MarkedNames(env, files)
      ensures k in head + MarkedNames(env, files[1..])
    {
      var i :| 0 <= i < |files| && |Chunks(env, files[i])| > 0 && k == env.basename(files[i]);
      if i > 0 {
        assert files[i] == files[1..][i - 1];
      }
    }
    forall k | k in head + MarkedNames(env, files[1..])
      ensures k in MarkedNames(env, files)
    {
      if k !in head {
        var i :| 0 <= i < |files[1..]| && |Chunks(env, files[1..][i])| > 0 && k == env.basename(files[1..][i]);
        assert files[1..][i] == files[i + 1];
      }
    }
  }

  /** A file made current stays current while the later files are
      processed: a later write to its name can only come from the file itself. */
  lemma FirstStaysCurrent(env: Env, files: seq<Path>, before: Ledger, after: Ledger)
    requires |files| > 0 && NamesIdentifyFiles(env, files)
    requires Current(env, before, files[0])
    requires forall k :: k !in MarkedNames(env, files[1..]) ==> SameEntry(before, after, k)
    requires forall i :: 0 <= i < |files[1..]| && |Chunks(env, files[1..][i])| > 0 ==>
               Current(env, after, files[1..][i])
    ensures Current(env, after, files[0])
  {
    var name := env.basename(files[0]);
    if name in MarkedNames(env, files[1..]) {
      var j :| 0 <= j < |files[1..]| && |Chunks(env, files[1..][j])| > 0 && name == env.basename(files[1..][j]);
      assert files[1..][j] in files;
      assert files[1..][j] == files[0];
    } else {
      assert SameEntry(before, after, name);
    }
  }

  /** What the run prints at the end, or why it returned early. */
  datatype Report =
    | NoPdfs
    | AllIndexed(indexedFiles: nat)
    | Indexed(skipped: Option<int>, processed: seq<Path>, newChunks: nat, totalChunks: nat, indexedFiles: nat)

  datatype RunOutcome = RunOutcome(store: Store, result: Result<Report>)

  /** `index_documents(force_reindex)` over the directory listing `pdfs`,
      starting from the persisted state `s`. */
  function IndexDocuments(env: Env, s: Store, pdfs: seq<Path>, force: bool, fails: Path -> Option<nat>): (r: RunOutcome)
    ensures r.store.loaded
    ensures r.result == Ok(NoPdfs) <==> |pdfs| == 0
    // the early returns change nothing but open the store
    ensures r.result.Ok? && !r.result.value.Indexed? ==> r.store == s.(loaded := true)
    ensures r.result.Ok? && r.result.value.AllIndexed? ==>
              && !force
              && (forall i :: 0 <= i < |pdfs| ==> Current(env, s.ledger, pdfs[i]))
              && r.result.value.indexedFiles == |s.ledger|
    ensures r.result.Ok? && r.result.value.Indexed? ==>
              && SelectFiles(env, s.ledger, pdfs, force) == Ok(r.result.value.processed)
              && (force || |r.result.value.processed| > 0)
              && r.store == ProcessFiles(env, s.(loaded := true), r.result.value.processed, fails).store
              && ProcessFiles(env, s.(loaded := true), r.result.value.processed, fails).result == Ok(r.result.value.newChunks)
              && r.result.value.skipped == (if force then None else Some(|pdfs| - |r.result.value.processed|))
              && r.result.value.totalChunks == |r.store.collection|
              && r.result.value.indexedFiles == |r.store.ledger|
  {
    var s0 := s.(loaded := true);
    if |pdfs| == 0 then RunOutcome(s0, Ok(NoPdfs))
    else
      match SelectFiles(env, s.ledger, pdfs, force)
      case Err(e) => RunOutcome(s0, Err(e))
      case Ok(todo) =>
        if !force && |todo| == 0 then RunOutcome(s0, Ok(AllIndexed(|s.ledger|)))
        else
          var p := ProcessFiles(env, s0, todo, fails);
          match p.result
          case Err(e) => RunOutcome(p.store, Err(e))
          case Ok(n) =>
            RunOutcome(p.store, Ok(Indexed(if force then None else Some(|pdfs| - |todo|), todo, n,
                                           |p.store.collection|, |p.store.ledger|)))
  }

  /** A run that raises: a failing ledger check stops it before any file is
      processed, with the store only opened; otherwise the per-file loop
      stopped at one of the selected files, keeping what it had done. */
  lemma RunAbort(env: Env, s: Store, pdfs: seq<Path>, force: bool, fails: Path -> Option<nat>)
    ensures var r := IndexDocuments(env, s, pdfs, force, fails);
            var sel := SelectFiles(env, s.ledger, pdfs, force);
            r.result.Err? ==>
              && |pdfs| > 0
              && (sel.Err? ==> r == RunOutcome(s.(loaded := true), Err(sel.error)))
              && (sel.Ok? ==> Aborted(env, s.(loaded := true), sel.value, Progress(r.store, Err(r.result.error))))
  {
    var r := IndexDocuments(env, s, pdfs, force, fails);
    var sel := SelectFiles(env, s.ledger, pdfs, force);
    if r.result.Err? && sel.Ok? {
      var p := ProcessFiles(env, s.(loaded := true), sel.value, fails);
      assert p == Progress(r.store, Err(r.result.error));
    }
  }

  /** Which files a completed run processed, and how many it skipped. */
  lemma RunSelection(env: Env, s: Store, pdfs: seq<Path>, force: bool, fails: Path -> Option<nat>)
    ensures var r := IndexDocuments(env, s, pdfs, force, fails);
            r.result.Ok? && r.result.value.Indexed? ==>
              var rep := r.result.value;
              && (force ==> rep.processed == pdfs && rep.skipped == None)
              && (!force ==>
                    && IsSubsequence(rep.processed, pdfs)
                    && 0 < |rep.processed|
                    && rep.skipped == Some(|pdfs| - |rep.processed|)
                    && rep.skipped.value >= 0
                    && forall i :: 0 <= i < |pdfs| ==> (pdfs[i] in rep.processed <==> !Current(env, s.ledger, pdfs[i])))
              && forall i :: 0 <= i < |rep.processed| ==> rep.processed[i] in pdfs && env.extract(rep.processed[i]).Some?
  {
  }

  /** The counters a completed run prints, and where its chunks went. */
  lemma RunCounters(env: Env, s: Store, pdfs: seq<Path>, force: bool, fails: Path -> Option<nat>)
    ensures var r := IndexDocuments(env, s, pdfs, force, fails);
            r.result.Ok? && r.result.value.Indexed? ==>
              var rep := r.result.value;
              && rep.newChunks == |AllChunks(env, rep.processed)|
              && r.store.collection == s.collection + Minted(AllChunks(env, rep.processed), s.nextId)
              && r.store.nextId == s.nextId + rep.newChunks
              && rep.totalChunks == |r.store.collection|
              && rep.indexedFiles == |r.store.ledger|
  {
    var r := IndexDocuments(env, s, pdfs, force, fails);
    if r.result.Ok? && r.result.value.Indexed? {
      TotalIsLength(env, r.result.value.processed);
    }
  }

  /** Processing writes only names of processed files with chunks; when
      names identify files, every other file of the listing keeps its
      verdict. */
  lemma OthersKeepVerdict(env: Env, pdfs: seq<Path>, processed: seq<Path>, before: Ledger, after: Ledger)
    requires NamesIdentifyFiles(env, pdfs)
    requires forall i :: 0 <= i < |processed| ==> processed[i] in pdfs
    requires forall k :: k !in MarkedNames(env, processed) ==> SameEntry(before, after, k)
    ensures forall f :: f in pdfs && (f !in processed || |Chunks(env, f)| == 0) ==>
              (Current(env, after, f) <==> Current(env, before, f))
  {
    forall f | f in pdfs && (f !in processed || |Chunks(env, f)| == 0)
      ensures Current(env, after, f) <==> Current(env, before, f)
    {
      NotMarked(env, pdfs, processed, f);
      assert SameEntry(before, after, env.basename(f));
    }
  }

  lemma NotMarked(env: Env, pdfs: seq<Path>, processed: seq<Path>, f: Path)
    requires NamesIdentifyFiles(env, pdfs)
    requires forall i :: 0 <= i < |processed| ==> processed[i] in pdfs
    requires f in pdfs && (f !in processed || |Chunks(env, f)| == 0)
    ensures env.basename(f) !in MarkedNames(env, processed)
  {
  }

  /** After a completed run every listed file with chunks is current, and a
      file without chunks keeps the verdict it had before the run. */
  lemma RunLedgerEffect(env: Env, s: Store, pdfs: seq<Path>, force: bool, fails: Path -> Option<nat>)
    requires NamesIdentifyFiles(env, pdfs)
    ensures var r := IndexDocuments(env, s, pdfs, force, fails);
            r.result.Ok? ==>
              && (NonEmptyPaths(pdfs) ==>
                    forall i :: 0 <= i < |pdfs| && |Chunks(env, pdfs[i])| > 0 ==> Current(env, r.store.ledger, pdfs[i]))
              && forall i :: 0 <= i < |pdfs| && |Chunks(env, pdfs[i])| == 0 ==>
                   (Current(env, r.store.ledger, pdfs[i]) <==> Current(env, s.ledger, pdfs[i]))
  {
    var r := IndexDocuments(env, s, pdfs, force, fails);
    if r.result.Ok? && r.result.value.Indexed? {
      var processed := r.result.value.processed;
      RunSelection(env, s, pdfs, force, fails);
      OthersKeepVerdict(env, pdfs, processed, s.ledger, r.store.ledger);
      assert NamesIdentifyFiles(env, processed);
      if NonEmptyPaths(pdfs) {
        NonEmptyPart(pdfs, processed);
        CoveredCurrent(env, pdfs, processed, s.ledger, r.store.ledger);
      }
    }
  }

  lemma NonEmptyPart(pdfs: seq<Path>, processed: seq<Path>)
    requires NonEmptyPaths(pdfs)
    requires forall i :: 0 <= i < |processed| ==> processed[i] in pdfs
    ensures NonEmptyPaths(processed)
  {
    forall i | 0 <= i < |processed|
      ensures |processed[i]| > 0
    {
      var j :| 0 <= j < |pdfs| && pdfs[j] == processed[i];
    }
  }

  /** Every listed file with chunks is current afterwards when the processed
      files with chunks are, the others keep their verdict, and the files
      left out were current before. */
  lemma CoveredCurrent(env: Env, pdfs: seq<Path>, processed: seq<Path>, before: Ledger, after: Ledger)
    requires forall i :: 0 <= i < |processed| && |Chunks(env, processed[i])| > 0 ==> Current(env, after, processed[i])
    requires forall f :: f in pdfs && (f !in processed || |Chunks(env, f)| == 0) ==>
               (Current(env, after, f) <==> Current(env, before, f))
    requires forall i :: 0 <= i < |pdfs| && pdfs[i] !in processed ==> Current(env, before, pdfs[i])
    ensures forall i :: 0 <= i < |pdfs| && |Chunks(env, pdfs[i])| > 0 ==> Current(env, after, pdfs[i])
  {
    forall i | 0 <= i < |pdfs| && |Chunks(env, pdfs[i])| > 0
      ensures Current(env, after, pdfs[i])
    {
      if pdfs[i] in processed {
        var j :| 0 <= j < |processed| && processed[j] == pdfs[i];
      } else {
        assert pdfs[i] in pdfs;
      }
    }
  }

  /** Files whose extractor yields no chunks cost the per-file loop nothing. */
  lemma {:induction false} ProcessNothing(env: Env, s: Store, files: seq<Path>, fails: Path -> Option<nat>)
    requires forall i :: 0 <= i < |files| ==> env.extract(files[i]) == Some([])
    ensures ProcessFiles(env, s, files, fails) == Progress(s, Ok(0))
    decreases |files|
  {
    if |files| > 0 {
      assert forall i :: 0 <= i < |files[1..]| ==> files[1..][i] == files[i + 1];
      ProcessNothing(env, s, files[1..], fails);
    }
  }

  /** Every listed file is present on disk. */
  predicate AllExist(env: Env, pdfs: seq<Path>) {
    forall i :: 0 <= i < |pdfs| ==> pdfs[i] in env.files
  }

  /** Incremental indexing is idempotent: right after a completed run (forced
      or not), an unforced run over the same unchanged files completes,
      adds no chunk and leaves the store as it was. */
  lemma SecondRunAddsNothing(env: Env, s: Store, pdfs: seq<Path>, force: bool,
                             fails1: Path -> Option<nat>, fails2: Path -> Option<nat>)
    requires AllExist(env, pdfs) && NamesIdentifyFiles(env, pdfs) && NonEmptyPaths(pdfs)
    ensures var first := IndexDocuments(env, s, pdfs, force, fails1);
            var second := IndexDocuments(env, first.store, pdfs, false, fails2);
            first.result.Ok? ==>
              && second.store == first.store
              && second.result.Ok?
              && (second.result.value.Indexed? ==> second.result.value.newChunks == 0)
  {
    var first := IndexDocuments(env, s, pdfs, force, fails1);
    var s1 := first.store;
    if first.result.Ok? {
      OutOfDateAfterRun(env, s, pdfs, force, fails1);
      var select := Unindexed(env, s1.ledger, pdfs);
      assert select.Ok?;
      forall k | 0 <= k < |select.value|
        ensures env.extract(select.value[k]) == Some([])
      {
        var j :| 0 <= j < |pdfs| && pdfs[j] == select.value[k];
      }
      ProcessNothing(env, s1.(loaded := true), select.value, fails2);
    }
  }

  /** A listed file that a completed run leaves out of date was extracted
      and yielded no chunks. */
  lemma OutOfDateAfterRun(env: Env, s: Store, pdfs: seq<Path>, force: bool, fails: Path -> Option<nat>)
    requires NamesIdentifyFiles(env, pdfs) && NonEmptyPaths(pdfs)
    requires IndexDocuments(env, s, pdfs, force, fails).result.Ok?
    ensures forall i :: 0 <= i < |pdfs| && !Current(env, IndexDocuments(env, s, pdfs, force, fails).store.ledger, pdfs[i]) ==>
              env.extract(pdfs[i]) == Some([])
  {
    var first := IndexDocuments(env, s, pdfs, force, fails);
    RunLedgerEffect(env, s, pdfs, force, fails);
    RunSelection(env, s, pdfs, force, fails);
    forall i | 0 <= i < |pdfs| && !Current(env, first.store.ledger, pdfs[i])
      ensures env.extract(pdfs[i]) == Some([])
    {
      var processed := first.result.value.processed;
      if first.result.value.Indexed? {
        assert pdfs[i] in processed;
        var j :| 0 <= j < |processed| && processed[j] == pdfs[i];
      }
    }
  }
}
