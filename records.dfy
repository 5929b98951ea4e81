/** The records the hasher produces and the choice of digest algorithm. */
module Records {
  import opened Prelude

  /** The digest algorithms `hash_files` can dispatch to. */
  datatype HashType = MD5 | SHA3 | BLAKE3

  /** A one-shot digest: the bytes `finalize` yields after the given input was fed.
      The algorithms themselves live in external crates and are a parameter here. */
  type DigestFn = (HashType, seq<byte>) -> seq<byte>

  /** Output width of each algorithm in bytes (MD5: 16, SHA3-256 and BLAKE3: 32). */
  function DigestWidth(alg: HashType): nat {
    match alg
    case MD5 => 16
    case SHA3 => 32
    case BLAKE3 => 32
  }

  /** `digest` behaves like the real crates as far as output width goes. */
  ghost predicate FixedWidth(digest: DigestFn) {
    forall alg, data :: |digest(alg, data)| == DigestWidth(alg)
  }

  /** One entry of a snapshot: the path it is keyed by, its checksum and its
      best-effort metadata. */
  datatype FileMetadata = FileMetadata(
    path: string,
    checkSum: seq<byte>,
    size: u64,
    ino: u64,
    ctime: i64,
    mtime: i64)
}
