/** `Snapshot::new`: walk a tree, fingerprint every regular file and gather the
    records in one map. The workers it spawns each hold the map's lock for the
    whole of their `hash_files` call, so their effects on the map happen one at
    a time; the model runs them one after the other. */
module Snapshots {
  import opened Prelude
  import opened Records
  import opened Environment
  import opened Hasher
  import opened Uuid

  /** One item of the directory walk: an entry with whether its path is a
      regular file (`p.path().is_file()`), or an error that `flatten` drops. */
  datatype WalkItem = Entry(path: Path, isFile: bool) | WalkError

  datatype Snapshot = Snapshot(fileHashes: map<string, FileMetadata>, uuid: string)

  /** The paths a worker is spawned for, in walk order. */
  function Dispatched(walk: seq<WalkItem>): (paths: seq<Path>)
    ensures forall p :: p in paths <==> Entry(p, true) in walk
  {
    if walk == [] then []
    else
      var init := walk[..|walk| - 1];
      assert walk == init + [walk[|walk| - 1]];
      Dispatched(init) + if walk[|walk| - 1].Entry? && walk[|walk| - 1].isFile then [walk[|walk| - 1].path] else []
  }

  /** What one worker's `hash_files` call does to the map. */
  function Apply(m: map<string, FileMetadata>, outcome: Result<FileMetadata>): map<string, FileMetadata> {
    if outcome.Ok? then m[outcome.value.path := outcome.value] else m
  }

  /** The map after `hash_files` has run, in order, for each of `paths`, starting
      from `m0`; a failure leaves the map as it was and the next path goes on. */
  function Fold(paths: seq<Path>, hashType: HashType, env: Env, digest: DigestFn, m0: map<string, FileMetadata>)
    : (m: map<string, FileMetadata>)
    ensures m0.Keys <= m.Keys
    ensures forall k :: k in m && k !in m0 ==> Path(k, true) in paths
  {
    if paths == [] then m0
    else
      var last := paths[|paths| - 1];
      Apply(Fold(paths[..|paths| - 1], hashType, env, digest, m0),
            Fingerprint(last, hashType, HARD_CODED_BLACK_LIST, env, digest))
  }

  /** `hash_files` succeeds on `p`. */
  predicate Succeeds(p: Path, hashType: HashType, env: Env, digest: DigestFn) {
    Fingerprint(p, hashType, HARD_CODED_BLACK_LIST, env, digest).Ok?
  }

  /** After the calls, a key is present exactly when it was there before or some
      call on that path succeeded, and then it holds that call's record: the
      result depends only on which paths were run, not on their order. */
  lemma {:induction false} FoldCharacterised(paths: seq<Path>, hashType: HashType, env: Env, digest: DigestFn,
                                             m0: map<string, FileMetadata>, k: string)
    ensures var m := Fold(paths, hashType, env, digest, m0);
      var p := Path(k, true);
      && (k in m <==> k in m0 || (p in paths && Succeeds(p, hashType, env, digest)))
      && (k in m && p in paths && Succeeds(p, hashType, env, digest) ==>
            m[k] == Fingerprint(p, hashType, HARD_CODED_BLACK_LIST, env, digest).value)
      && (k in m && !(p in paths && Succeeds(p, hashType, env, digest)) ==> m[k] == m0[k])
  {
    if paths != [] {
      var init := paths[..|paths| - 1];
      var last := paths[|paths| - 1];
      assert paths == init + [last];
      FoldCharacterised(init, hashType, env, digest, m0, k);
    }
  }

  /** Whatever order the workers take the lock in, the snapshot's map is the same. */
  lemma OrderIndependent(a: seq<Path>, b: seq<Path>, hashType: HashType, env: Env, digest: DigestFn,
                         m0: map<string, FileMetadata>)
    requires multiset(a) == multiset(b)
    ensures Fold(a, hashType, env, digest, m0) == Fold(b, hashType, env, digest, m0)
  {
    var ma, mb := Fold(a, hashType, env, digest, m0), Fold(b, hashType, env, digest, m0);
    forall k
      ensures (k in ma <==> k in mb) && (k in ma ==> ma[k] == mb[k])
    {
      var p := Path(k, true);
      assert p in a <==> p in multiset(a);
      assert p in b <==> p in multiset(b);
      FoldCharacterised(a, hashType, env, digest, m0, k);
      FoldCharacterised(b, hashType, env, digest, m0, k);
    }
  }

  /** The map a snapshot ends with, starting empty: its keys are exactly the
      regular-file paths of the walk on which `hash_files` succeeded, each with
      the record of that call. */
  lemma SnapshotContents(walk: seq<WalkItem>, hashType: HashType, env: Env, digest: DigestFn, k: string)
    ensures var m := Fold(Dispatched(walk), hashType, env, digest, map[]);
      var p := Path(k, true);
      && (k in m <==> Entry(p, true) in walk && Succeeds(p, hashType, env, digest))
      && (k in m ==> Succeeds(p, hashType, env, digest)
                     && m[k] == Fingerprint(p, hashType, HARD_CODED_BLACK_LIST, env, digest).value)
  {
    FoldCharacterised(Dispatched(walk), hashType, env, digest, map[], k);
  }

  lemma DispatchedStep(walk: seq<WalkItem>, i: nat)
    requires i < |walk|
    ensures Dispatched(walk[..i + 1]) ==
      Dispatched(walk[..i]) + if walk[i].Entry? && walk[i].isFile then [walk[i].path] else []
  {
    assert walk[..i + 1][..i] == walk[..i];
  }

  lemma FoldStep(paths: seq<Path>, j: nat, hashType: HashType, env: Env, digest: DigestFn,
                 m0: map<string, FileMetadata>)
    requires j < |paths|
    ensures Fold(paths[..j + 1], hashType, env, digest, m0) ==
      Apply(Fold(paths[..j], hashType, env, digest, m0), Fingerprint(paths[j], hashType, HARD_CODED_BLACK_LIST, env, digest))
  {
    assert paths[..j + 1][..j] == paths[..j];
  }

  /** `Snapshot::new` over the walk `walk`, with `uuidInt` the random `i128`
      drawn for the id. The first loop spawns one worker per regular file; the
      second joins them, each worker's `hash_files` call running whole before
      the next one starts. */
  method New(hashType: HashType, walk: seq<WalkItem>, env: Env, digest: DigestFn, uuidInt: i128)
    returns (s: Snapshot)
    ensures s.uuid == DecimalString(uuidInt)
    ensures s.fileHashes == Fold(Dispatched(walk), hashType, env, digest, map[])
  {
    var uuid := DecimalString(uuidInt);
    var fileHashes := new FileTable();

    var handles: seq<Path> := [];
    for i := 0 to |walk|
      invariant handles == Dispatched(walk[..i])
      invariant fileHashes.entries == map[]
    {
      DispatchedStep(walk, i);
      match walk[i]
      case Entry(p, isFile) =>
        if isFile {
          handles := handles + [p];
        }
      case WalkError =>
    }
    assert walk[..|walk|] == walk;

    for j := 0 to |handles|
      invariant fileHashes.entries == Fold(handles[..j], hashType, env, digest, map[])
    {
      FoldStep(handles, j, hashType, env, digest, map[]);
      var _ := HashFiles(handles[j], fileHashes, hashType, HARD_CODED_BLACK_LIST, env, digest);
    }
    assert handles[..|handles|] == handles;

    s := Snapshot(fileHashes.entries, uuid);
  }
}
