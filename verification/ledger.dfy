/** The change detector: a ledger from file name (basename, not full path) to
    the digest of the contents last indexed under that name. */
module ChangeDetection {
  import opened Types

  type Ledger = map<string, Digest>

  /** `_file_hash`: the digest of the file's bytes; opening a missing file raises. */
  function FileHash(env: Env, p: Path): (r: Result<Digest>)
    ensures r.Ok? <==> p in env.files
    ensures r.Err? ==> r.error == FileNotFound(p)
    // the digest depends on the bytes only, not on the path
    ensures r.Ok? ==> r.value == env.digest(env.files[p])
  {
    if p in env.files then Ok(env.digest(env.files[p])) else Err(FileNotFound(p))
  }

  /** The ledger records `p`'s current contents under `p`'s basename. */
  ghost predicate Current(env: Env, ledger: Ledger, p: Path) {
    var name := env.basename(p);
    && name in ledger
    && p in env.files
    && ledger[name] == env.digest(env.files[p])
  }

  /** `is_file_indexed`: true exactly when the ledger holds the current
      digest of `p` under its basename. An unknown basename answers false
      without opening the file, so a missing file is an error only when its
      basename is in the ledger. */
  function IsFileIndexed(env: Env, ledger: Ledger, p: Path): (r: Result<bool>)
    ensures env.basename(p) !in ledger ==> r == Ok(false)
    ensures r == Ok(true) <==> Current(env, ledger, p)
    ensures r == Ok(false) <==> env.basename(p) !in ledger || (p in env.files && !Current(env, ledger, p))
    ensures r.Err? <==> env.basename(p) in ledger && p !in env.files
    ensures r.Err? ==> r.error == FileNotFound(p)
  {
    var name := env.basename(p);
    if name !in ledger then Ok(false)
    else
      match FileHash(env, p)
      case Err(e) => Err(e)
      case Ok(h) => Ok(ledger[name] == h)
  }

  /** `mark_file_indexed`: records `p`'s digest under its basename and
      changes no other entry; fails, leaving the ledger as it was, when `p`
      cannot be opened. */
  function MarkFileIndexed(env: Env, ledger: Ledger, p: Path): (r: Result<Ledger>)
    ensures r.Ok? <==> p in env.files
    ensures r.Err? ==> r.error == FileNotFound(p)
    ensures r.Ok? ==> r.value.Keys == ledger.Keys + {env.basename(p)}
    ensures r.Ok? ==> r.value[env.basename(p)] == env.digest(env.files[p])
    ensures r.Ok? ==> forall k :: k in ledger && k != env.basename(p) ==> r.value[k] == ledger[k]
  {
    var name := env.basename(p);
    match FileHash(env, p)
    case Err(e) => Err(e)
    case Ok(h) => Ok(ledger[name := h])
  }

  /** Marking a file makes it indexed, and so is every path with the same
      basename whose contents have the same digest: two such paths share one
      ledger entry. */
  lemma MarkThenIndexed(env: Env, ledger: Ledger, p: Path, q: Path)
    requires p in env.files
    requires env.basename(q) == env.basename(p)
    ensures var marked := MarkFileIndexed(env, ledger, p).value;
            && IsFileIndexed(env, marked, p) == Ok(true)
            && (q in env.files ==>
                  IsFileIndexed(env, marked, q) == Ok(env.digest(env.files[q]) == env.digest(env.files[p])))
  {
  }

  /** Marking `p` leaves the verdict for every path with another basename as it was. */
  lemma MarkKeepsOthers(env: Env, ledger: Ledger, p: Path, q: Path)
    requires p in env.files
    requires env.basename(q) != env.basename(p)
    ensures IsFileIndexed(env, MarkFileIndexed(env, ledger, p).value, q) == IsFileIndexed(env, ledger, q)
  {
  }

  /** After `p` was marked, changing its contents to bytes with another
      digest makes it not indexed. */
  lemma ChangedContentsNotIndexed(env: Env, ledger: Ledger, p: Path, newBytes: Bytes)
    requires p in env.files
    requires env.digest(newBytes) != env.digest(env.files[p])
    ensures var marked := MarkFileIndexed(env, ledger, p).value;
            IsFileIndexed(env.(files := env.files[p := newBytes]), marked, p) == Ok(false)
  {
  }
}
