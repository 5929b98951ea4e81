# filesystem-hashing: a Dafny model of snapshot construction

This project models the part of the `filesystem-hashing` crate that builds a
**snapshot**. A snapshot is a map from file path to a `FileMetadata` record: the
path, a checksum of the file's bytes, and its size, inode, ctime and mtime.

- `hash_files` (src/hasher.rs) fingerprints one file and inserts its record into
  the shared map:
  - it resolves a `./`-relative path against the working directory;
  - it checks the resolved path against a black list;
  - it reads the metadata on a best-effort basis;
  - it streams the file through a digest in chunks of `0x4000` bytes.
- `Snapshot::new` (src/snapshot.rs) walks a tree and runs `hash_files` for every
  regular file, one worker thread per file, with the map behind a mutex. It
  waits for all workers before returning the snapshot and its random id.

Files, one module each:

- `prelude.dfy` (`Prelude`): `Option`, `Result`, the crate's errors, fixed-width integers.
- `records.dfy` (`Records`): `HashType`, `FileMetadata`, the digest as a function parameter.
- `environment.dfy` (`Environment`): paths, working directory, `fs::metadata`, `File::open`, all as values.
- `path_resolution.dfy` (`PathResolution`): `full_path`, `split("./").last()`, the black-list test.
- `chunked_digest.dfy` (`ChunkedDigest`): the chunk loop of `hash_sha3` / `hash_md5` / `hash_blake3`.
- `hasher.dfy` (`Hasher`): `hash_files` and the map it updates.
- `uuid.dfy` (`Uuid`): `i128::to_string` for the snapshot id.
- `snapshot.dfy` (`Snapshots`): `Snapshot::new`.

How the model is built:

- **Digest.** The digest algorithms are a parameter `digest: (HashType, seq<byte>) -> seq<byte>`.
- **Streaming hasher.** It is a class whose state is the concatenation of what was fed to it. `Finalize` returns the one-shot digest of that input.
- **Operating system.** It is a value `Env`:
  - the working directory, or none when `env::current_dir` fails;
  - `fs::metadata` results keyed by path text;
  - `File::open` results keyed by path. An opened file has a kind (metadata failed, regular, not regular), its bytes, and optionally the index of the read call that fails.
- **Shared map.** It is the class `FileTable`. `HashFiles` changes it in place.
- **Workers.** Each worker holds the lock for its whole `hash_files` call (src/snapshot.rs:44-46), so the calls change the map one at a time. `Snapshot::new` is therefore modelled as two loops:
  - the first collects the dispatched paths (the handles);
  - the second "joins" them, running each `hash_files` call whole.
- **Any other order.** `OrderIndependent` proves that any other order of the calls gives the same map.

Behaviour of the code that the model reproduces:

- A `./` path resolves to the working directory, `/` and the text after the
  LAST `./`, not the remainder after the first one. So `./a/./b` run in `/home`
  reads its metadata from `/home/b`. The record is still keyed `./a/./b`, because
  the key is the unresolved path.
- When the working directory cannot be determined, `full_path` stays empty and
  no error is raised. `fs::metadata("")` always fails, so the metadata then
  falls back to zeros.
- A file that cannot be opened, whose handle metadata fails, or that is not a
  regular file is not an error. Its record is stored with the digest of the
  empty input, which is a full-width checksum. It is not left out of the map.
- A black-listed path is refused with the same "cannot parse path" error as
  text that is not UTF-8. The black list `hash_files` checks is hard-coded
  empty, so in the crate it refuses nothing. `Snapshot::new` takes no black
  list.
- The map lock is held for the whole `hash_files` call, hashing included, not
  only around the insert. Workers are spawned one per file, with no bound.

## Model

| member | source | states |
|---|---|---|
| `PathResolution.PieceStart` | src/hasher.rs:45-47 | the last piece of `split("./")` starts right after a `./` (or at 0 when there is none), and no `./` starts after that point |
| `PathResolution.PieceStartUnique` | src/hasher.rs:45-47 | those two properties determine the start of the last piece uniquely, so `LastPiece` is exactly the text after the last `./` |
| `PathResolution.LastPieceIsNotRemainderAfterFirst` | src/hasher.rs:45-47 | `./a/./b` splits to the last piece `b`, while the remainder after the first `./` would be `a/./b` |
| `PathResolution.LastPiece` | src/hasher.rs:45-47 | `split("./").last()` is a suffix of the path that holds no `./` and is either the whole text or preceded by `./` |
| `PathResolution.ResolveFullPath` | src/hasher.rs:34-58 | a `./` path becomes cwd + `/` + text after the path's last `./`; any other path is kept verbatim; a missing cwd gives `""` with no error; the only errors are non-UTF-8 cwd or path text |
| `PathResolution.Blacklisted` | src/hasher.rs:62-66 | a resolved path is refused exactly when some black-list entry is a prefix of it; the empty list refuses nothing and an empty entry refuses everything |
| `ChunkedDigest.ChunkingLength` | src/hasher.rs:120-132 | the chunks fed to the hasher add up to the file's length: full chunks, then one last chunk of 1 to 0x4000 bytes; there are no chunks only for an empty file |
| `ChunkedDigest.ChunkingUnique` | src/hasher.rs:120-132 | there is exactly one way to cut a file into 1..0x4000-byte chunks that are full except the last, so the loop's sequence of updates is determined by the file |
| `ChunkedDigest.StreamingHasher.constructor` | src/hasher.rs:115 | a new hasher (`Sha3_256::new()`, `md5::Context::new()`, `blake3::Hasher::new()`) has been fed nothing |
| `ChunkedDigest.StreamingHasher.Update` | src/hasher.rs:128 | `update` appends the chunk to the hasher's input and logs it as one more update |
| `ChunkedDigest.StreamingHasher.Finalize` | src/hasher.rs:136 | `finalize` yields the digest of the concatenation of all updates, under the hasher's algorithm |
| `ChunkedDigest.FileReader.constructor` | src/hasher.rs:116 | a freshly opened file is read from its first byte, with no read done yet |
| `ChunkedDigest.FileReader.ReadChunk` | src/hasher.rs:121-124 | `take(0x4000).read_to_end` returns the next `min(0x4000, remaining)` bytes and advances, or the I/O error planted on that read |
| `ChunkedDigest.StreamDigest` | src/hasher.rs:114-187 | what each `hash_*` returns: the digest of the empty input for a file that does not open or is not regular (never an error), the digest of the whole file otherwise, and an error only from a failing read |
| `ChunkedDigest.HashStream` | src/hasher.rs:114-137 | the loop shared by `hash_sha3`, `hash_md5` (139-162) and `hash_blake3` (164-187). A regular file that opens is digested whole and its updates form the unique chunking of its bytes. It is `Err` exactly when one of its `n / 0x4000 + 1` reads fails. A file that does not open, whose metadata fails, or that is not regular gives `Ok(digest of empty input)` |
| `Hasher.Fingerprint` | src/hasher.rs:28-112 | on success the record is keyed by the unresolved path text, its checksum is the whole-file digest (or the digest of no input), and its metadata is the resolved path's `fs::metadata` or zeros (its helper `StatOrZero`: zeros when `fs::metadata` fails, always so for the empty path). It fails exactly on an unresolvable path, a black-listed path, non-UTF-8 text or a read error |
| `Hasher.FileTable.constructor` | src/snapshot.rs:35-36 | the shared map starts empty |
| `Hasher.FileTable.Insert` | src/hasher.rs:96-106 | `HashMap::insert` adds the key or overwrites its value |
| `Hasher.HashFiles` | src/hasher.rs:28-112 | on success exactly one entry is added or overwritten, under the unresolved path text, holding `Fingerprint`'s record; on any error, including a black-listed path or a read error, the map is unchanged |
| `Hasher.MetadataBestEffort` | src/hasher.rs:68-78 | a failing `fs::metadata` never changes whether `hash_files` succeeds or what checksum it stores; it only zeroes size, ino, ctime and mtime |
| `Hasher.NoWorkingDirectoryZeroMetadata` | src/hasher.rs:36-78 | a `./` path run without a working directory keeps an empty `full_path`, so its record has size, ino, ctime and mtime all 0 |
| `Hasher.BlackListRefuses` | src/hasher.rs:60-66 | a resolved path starting with a black-list entry is refused before the map is touched; the hard-coded empty list refuses nothing |
| `Hasher.UnreadableFileRecorded` | src/hasher.rs:116-119 | any resolvable UTF-8 path, `./` paths included, whose file cannot be opened or is not regular is still recorded, with the digest of the empty input, which is a non-empty full-width checksum |
| `Hasher.DotSlashExample` | src/hasher.rs:35-107 | `./a/./b` run in `/home` is stored under `./a/./b` with the metadata of `/home/b` |
| `Uuid.Digits` | src/snapshot.rs:33 | the decimal digits of a natural number, without leading zeros |
| `Uuid.DecimalString` | src/snapshot.rs:31-33 | the id is non-empty, starts with `-` exactly when the random `i128` is negative, and is digits otherwise |
| `Uuid.DigitsRoundTrip` | src/snapshot.rs:33 | reading the digits back gives the number |
| `Uuid.DecimalRoundTrip` | src/snapshot.rs:31-33 | the id parses back to the `i128` it came from, so distinct draws give distinct ids |
| `Snapshots.Dispatched` | src/snapshot.rs:39-40 | a path is dispatched exactly when the walk yielded it as a regular file; walk errors are dropped |
| `Snapshots.Fold` | src/snapshot.rs:41-54 | running `hash_files` for each path in turn never removes a key, and every new key is the text of one of those paths |
| `Snapshots.FoldCharacterised` | src/snapshot.rs:39-54 | after the `hash_files` calls, a key is present exactly when it was there before or a call on that path succeeded, and then it holds that call's record; failures leave the map as it was and later calls still run |
| `Snapshots.OrderIndependent` | src/snapshot.rs:41-47 | whatever order the workers take the lock in (any permutation of the dispatched paths), the final map is the same |
| `Snapshots.SnapshotContents` | src/snapshot.rs:30-57 | the snapshot's keys are exactly the regular-file paths of the walk on which `hash_files` succeeded, each holding that call's record |
| `Snapshots.New` | src/snapshot.rs:30-57 | the snapshot is returned after every dispatched call has run; its map is the result of those calls on an initially empty map, and its id is the decimal rendering of the random `i128` |

## Left out

- The digest algorithms (MD5, SHA3-256, BLAKE3) come from external crates. They are a function parameter, and only their output width is stated (`FixedWidth`). The fixed test vectors at src/hasher.rs:193-235 are not modelled.
- Filesystem and environment calls are inputs, not effects: `env::current_dir`, `fs::metadata`, `File::open`, `f.metadata()`, reads and `walkdir::WalkDir`. The filesystem does not change while a snapshot is built.
- `Path::starts_with` compares whole path components. The model tests `./` as a text prefix, so for example `.` alone is not treated as starting with `./`.
- A path's text when it is not valid UTF-8 is a lossy rendering. Only whether `to_str` succeeds matters.
- Threads, `Arc`, `Mutex` and `JoinHandle` are left out. Only the serial order that the lock enforces is modelled. A panicking join (`expect`, src/snapshot.rs:53) is out of scope.
- The random number for the uuid is an input.
- The `verbose` printing (src/hasher.rs:83-85) is left out. With `verbose` set, the `path.to_str().unwrap()` at src/hasher.rs:84 panics on a non-UTF-8 `./` path when the working directory is unavailable (the only route that reaches that line with a non-UTF-8 path); on the same input the model returns `Err(CannotParsePath)`.
- src/file_hash.rs is left out. It is not declared as a module and only reads, hashes and prints one file.
- The wrappers in src/lib.rs are left out. They forward to `compare`, `export`, `import` and a three-argument `Snapshot::new`, none of which exist in src/snapshot.rs. The snapshot comparison and the export/import format are not part of this model.
- `Snapshot::new` calls `hash_files` with three arguments and its own `HashType {Fast, Full}` (src/snapshot.rs:9-13, 46). `hash_files` takes four arguments and `{MD5, SHA3, BLAKE3}`. The model passes the hasher's `HashType` straight through.
- The root path given to `Snapshot::new` is only used to start the walk. The model takes the walk's entries as the input instead.
- Hasher.HashFiles: the black list is a parameter rather than a local constant. `Snapshot::new` passes `HARD_CODED_BLACK_LIST`, the empty list `hash_files` declares.
