/** Shared vocabulary of the document index: paths, file contents, chunks,
    errors, and the external collaborators the core consults. */
module Types {

  /** A file-system path as produced by the directory listing. */
  type Path = string

  newtype byte = x: int | 0 <= x < 256

  /** Raw file contents. */
  type Bytes = seq<byte>

  /** Hex digest of a file's contents, as stored in the ledger. */
  type Digest = string

  /** Opaque identifier minted by the vector collection for one stored chunk. */
  type Id = nat

  /** A chunk of extracted text with its metadata (`page_content`, `metadata`). */
  datatype Doc = Doc(content: string, metadata: map<string, string>)

  /** The exceptions the core can raise or propagate. */
  datatype Error =
    | FileNotFound(path: Path)       // opening a file that is not there
    | ExtractionFailed(path: Path)   // the chunker raised on this file
    | BatchFailed(batchNum: nat)     // the collection rejected this batch (1-based)
    | InvalidBatchSize               // `range` with a zero step

  datatype Option<+T> = None | Some(value: T)

  datatype Result<+T> = Ok(value: T) | Err(error: Error)

  /** The world outside the core, fixed for the duration of one run:
      the file system, the digest algorithm, the basename of a path and the
      PDF chunker (`None` when it raises). */
  datatype Env = Env(
    files: map<Path, Bytes>,
    digest: Bytes -> Digest,
    basename: Path -> string,
    extract: Path -> Option<seq<Doc>>)
}
