/** `hash_files`: fingerprint one file and insert its record into the shared map. */
module Hasher {
  import opened Prelude
  import opened Records
  import opened Environment
  import opened PathResolution
  import opened ChunkedDigest

  /** The black list `hash_files` declares for itself: empty. */
  const HARD_CODED_BLACK_LIST: seq<string> := []

  /** `fs::metadata(full_path)`, with every field 0 when it fails. It always
      fails on the empty path, which names no file, whatever `stat` holds. */
  function StatOrZero(stat: map<string, Stat>, fullPath: string): Stat
  {
    if fullPath != "" && fullPath in stat then stat[fullPath] else Stat(0, 0, 0, 0)
  }

  /** The outcome of `hash_files` on `path`: the record it inserts, or the error
      it returns before inserting anything. */
  function Fingerprint(path: Path, hashType: HashType, blackList: seq<string>, env: Env, digest: DigestFn)
    : (r: Result<FileMetadata>)
    // the only ways to fail
    ensures r.Err? <==>
      || ResolveFullPath(path, env.cwd).Err?
      || Blacklisted(ResolveFullPath(path, env.cwd).value, blackList)
      || !path.utf8
      || StreamDigest(hashType, Open(env, path), digest).Err?
    // the record is keyed by the path as given, never by its resolved form
    ensures r.Ok? ==> path.utf8 && r.value.path == path.text
    // the checksum covers the whole file, or is the digest of no input at all
    ensures r.Ok? ==>
      r.value.checkSum == if Open(env, path).Some? && Open(env, path).value.kind == Regular
                          then digest(hashType, Open(env, path).value.data) else digest(hashType, [])
    // the metadata is that of the resolved path, or zeros
    ensures r.Ok? ==> var m := StatOrZero(env.stat, ResolveFullPath(path, env.cwd).value);
      r.value.size == m.size && r.value.ino == m.ino && r.value.ctime == m.ctime && r.value.mtime == m.mtime
  {
    match ResolveFullPath(path, env.cwd)
    case Err(e) => Err(e)
    case Ok(fullPath) =>
      if Blacklisted(fullPath, blackList) then Err(CannotParsePath)
      else
        var m := StatOrZero(env.stat, fullPath);
        var byteHash := StreamDigest(hashType, Open(env, path), digest);
        match ToStr(path)
        case None => Err(CannotParsePath)
        case Some(p) =>
          match byteHash
          case Err(e) => Err(e)
          case Ok(sum) => Ok(FileMetadata(p, sum, m.size, m.ino, m.ctime, m.mtime))
  }

  /** The `HashMap<String, FileMetadata>` behind the snapshot's mutex. */
  class FileTable {
    var entries: map<string, FileMetadata>

    constructor ()
      ensures entries == map[]
    {
      entries := map[];
    }

    /** `HashMap::insert`: adds `key`, or replaces its value. */
    method Insert(key: string, value: FileMetadata)
      modifies this
      ensures entries == old(entries)[key := value]
    {
      entries := entries[key := value];
    }
  }

  /** `hash_files(path, file_hashes, hash_type, verbose)`, with the black list it
      checks passed in (callers pass HARD_CODED_BLACK_LIST). On success exactly
      one entry, keyed by the unresolved path, is added or overwritten; on error
      the map is untouched. */
  method HashFiles(path: Path, table: FileTable, hashType: HashType, blackList: seq<string>, env: Env, digest: DigestFn)
    returns (r: Result<()>)
    modifies table
    ensures r.Ok? <==> Fingerprint(path, hashType, blackList, env, digest).Ok?
    ensures r.Err? ==> r.error == Fingerprint(path, hashType, blackList, env, digest).error
    ensures r.Err? ==> table.entries == old(table.entries)
    ensures r.Ok? ==>
      table.entries == old(table.entries)[path.text := Fingerprint(path, hashType, blackList, env, digest).value]
  {
    var fullPath := "";
    if StartsWith(path.text, "./") {
      if env.cwd.Some? {
        var c := ToStr(env.cwd.value);
        if c.None? {
          return Err(CannotParsePath);
        }
        fullPath := fullPath + c.value;
        fullPath := fullPath + "/";
        var p := ToStr(path);
        if p.None? {
          return Err(CannotParsePath);
        }
        fullPath := fullPath + LastPiece(p.value);
        assert fullPath == c.value + "/" + LastPiece(p.value);
      }
    } else {
      var p := ToStr(path);
      if p.None? {
        return Err(CannotParsePath);
      }
      fullPath := fullPath + p.value;
      assert fullPath == p.value;
    }
    assert ResolveFullPath(path, env.cwd) == Ok(fullPath);

    var i := 0;
    while i < |blackList|
      invariant 0 <= i <= |blackList|
      invariant forall j :: 0 <= j < i ==> !StartsWith(fullPath, blackList[j])
    {
      if StartsWith(fullPath, blackList[i]) {
        return Err(CannotParsePath);
      }
      i := i + 1;
    }

    var size: u64, ino: u64, ctime: i64, mtime: i64 := 0, 0, 0, 0;
    // `fs::metadata("")` fails: the empty path names no file
    if fullPath != "" && fullPath in env.stat {
      var metadata := env.stat[fullPath];
      size := metadata.size;
      ctime := metadata.ctime;
      mtime := metadata.mtime;
      ino := metadata.ino;
    }

    var byteHash;
    ghost var chunks;
    byteHash, chunks := HashStream(hashType, Open(env, path), digest);

    var p := ToStr(path);
    if p.None? {
      return Err(CannotParsePath);
    }
    if byteHash.Err? {
      return Err(byteHash.error);
    }
    table.Insert(p.value, FileMetadata(p.value, byteHash.value, size, ino, ctime, mtime));
    r := Ok(());
  }

  /** Metadata is best effort: whether `fs::metadata` succeeds never decides
      success, and when it fails every metadata field is 0. */
  lemma MetadataBestEffort(path: Path, hashType: HashType, blackList: seq<string>, env: Env, digest: DigestFn)
    ensures var r := Fingerprint(path, hashType, blackList, env, digest);
      var r' := Fingerprint(path, hashType, blackList, env.(stat := map[]), digest);
      && (r'.Ok? <==> r.Ok?)
      && (r'.Ok? ==> r'.value.path == r.value.path && r'.value.checkSum == r.value.checkSum)
      && (r'.Ok? ==> r'.value.size == 0 && r'.value.ino == 0 && r'.value.ctime == 0 && r'.value.mtime == 0)
  {
  }

  /** A `./` path run without a working directory resolves to the empty path,
      so its metadata is all zeros, whatever the metadata map holds. */
  lemma NoWorkingDirectoryZeroMetadata(path: Path, hashType: HashType, blackList: seq<string>, env: Env,
                                       digest: DigestFn)
    requires StartsWith(path.text, "./") && env.cwd.None?
    ensures var r := Fingerprint(path, hashType, blackList, env, digest);
      r.Ok? ==> r.value.size == 0 && r.value.ino == 0 && r.value.ctime == 0 && r.value.mtime == 0
  {
  }

  /** A resolved path that starts with a black-list entry is refused, and the
      empty black list of `hash_files` refuses nothing. */
  lemma BlackListRefuses(path: Path, hashType: HashType, blackList: seq<string>, env: Env, digest: DigestFn, i: nat)
    requires ResolveFullPath(path, env.cwd).Ok?
    requires i < |blackList| && StartsWith(ResolveFullPath(path, env.cwd).value, blackList[i])
    ensures Fingerprint(path, hashType, blackList, env, digest) == Err(CannotParsePath)
    ensures !Blacklisted(ResolveFullPath(path, env.cwd).value, HARD_CODED_BLACK_LIST)
  {
  }

  /** A file that cannot be opened (or is not a regular file) is not an error:
      its record carries the digest of the empty input, which is a full-width,
      non-empty checksum. */
  lemma UnreadableFileRecorded(path: Path, hashType: HashType, env: Env, digest: DigestFn)
    requires FixedWidth(digest)
    requires ResolveFullPath(path, env.cwd).Ok? && path.utf8
    requires path !in env.open || env.open[path].kind != Regular
    ensures Fingerprint(path, hashType, HARD_CODED_BLACK_LIST, env, digest).Ok?
    ensures Fingerprint(path, hashType, HARD_CODED_BLACK_LIST, env, digest).value.checkSum == digest(hashType, [])
    ensures |Fingerprint(path, hashType, HARD_CODED_BLACK_LIST, env, digest).value.checkSum| == DigestWidth(hashType) > 0
  {
  }

  /** "./a/./b" run from "/home" is keyed "./a/./b" but takes its metadata from
      "/home/b". */
  lemma DotSlashExample(hashType: HashType, data: seq<byte>, digest: DigestFn)
    ensures var path := Path("./a/./b", true);
      var env := Env(Some(Path("/home", true)), map["/home/b" := Stat(7, 42, 1, 2)],
                     map[path := OpenFile(Regular, data, None)]);
      var r := Fingerprint(path, hashType, HARD_CODED_BLACK_LIST, env, digest);
      r == Ok(FileMetadata("./a/./b", digest(hashType, data), 7, 42, 1, 2))
  {
    var path := Path("./a/./b", true);
    assert StartsWith(path.text, "./");
    LastPieceIsNotRemainderAfterFirst();
    assert "/home" + "/" + "b" == "/home/b";
  }
}
