/** The chunk loop shared by `hash_sha3`, `hash_md5` and `hash_blake3`: open the
    file, and if it is a regular file read it in chunks of at most 0x4000 bytes,
    feeding each chunk to a streaming hasher, until a read comes back empty or
    short. */
module ChunkedDigest {
  import opened Prelude
  import opened Records
  import opened Environment

  const CHUNK_SIZE: nat := 0x4000

  /** The concatenation of a sequence of chunks. */
  function Flatten(chunks: seq<seq<byte>>): seq<byte> {
    if chunks == [] then [] else Flatten(chunks[..|chunks| - 1]) + chunks[|chunks| - 1]
  }

  /** `chunks` cuts `data` the way the loop feeds it: every chunk holds 1 to
      CHUNK_SIZE bytes, every chunk but the last is full, and together they are
      exactly `data`. */
  ghost predicate IsChunking(chunks: seq<seq<byte>>, data: seq<byte>) {
    && Flatten(chunks) == data
    && (forall i :: 0 <= i < |chunks| ==> 0 < |chunks[i]| <= CHUNK_SIZE)
    && (forall i :: 0 <= i < |chunks| - 1 ==> |chunks[i]| == CHUNK_SIZE)
  }

  /** The length of a chunking: all chunks but the last are full. */
  lemma {:induction false} ChunkingLength(chunks: seq<seq<byte>>, data: seq<byte>)
    requires IsChunking(chunks, data)
    ensures chunks == [] <==> data == []
    ensures chunks != [] ==> |data| == CHUNK_SIZE * (|chunks| - 1) + |chunks[|chunks| - 1]|
  {
    if chunks != [] {
      var init := chunks[..|chunks| - 1];
      assert data == Flatten(init) + chunks[|chunks| - 1];
      if init != [] {
        assert IsChunking(init, Flatten(init));
        ChunkingLength(init, Flatten(init));
        assert |init[|init| - 1]| == CHUNK_SIZE;
      }
    }
  }

  /** There is only one way to cut `data` like that. */
  lemma {:induction false} ChunkingUnique(c1: seq<seq<byte>>, c2: seq<seq<byte>>, data: seq<byte>)
    requires IsChunking(c1, data) && IsChunking(c2, data)
    ensures c1 == c2
  {
    ChunkingLength(c1, data);
    ChunkingLength(c2, data);
    if c1 != [] {
      assert |c1| == |c2| && |c1[|c1| - 1]| == |c2[|c2| - 1]|;
      var init1, init2 := c1[..|c1| - 1], c2[..|c2| - 1];
      var last := |c1[|c1| - 1]|;
      assert c1[|c1| - 1] == data[|data| - last..] == c2[|c2| - 1];
      assert Flatten(init1) == data[..|data| - last] == Flatten(init2);
      assert IsChunking(init1, Flatten(init1)) && IsChunking(init2, Flatten(init1));
      ChunkingUnique(init1, init2, Flatten(init1));
      assert c1 == init1 + [c1[|c1| - 1]] && c2 == init2 + [c2[|c2| - 1]];
    }
  }

  /** A streaming hasher. Its state is modelled by everything fed to it so far;
      what `finalize` yields is the one-shot digest of that input. */
  class StreamingHasher {
    const alg: HashType
    var fed: seq<byte>
    ghost var updates: seq<seq<byte>>

    ghost predicate Valid()
      reads this
    {
      Flatten(updates) == fed
    }

    constructor (alg: HashType)
      ensures Valid() && this.alg == alg && fed == [] && updates == []
    {
      this.alg := alg;
      fed := [];
      updates := [];
    }

    method Update(chunk: seq<byte>)
      requires Valid()
      modifies this
      ensures Valid()
      ensures fed == old(fed) + chunk && updates == old(updates) + [chunk]
    {
      fed := fed + chunk;
      updates := updates + [chunk];
    }

    method Finalize(digest: DigestFn) returns (d: seq<byte>)
      requires Valid()
      ensures d == digest(alg, Flatten(updates)) && d == digest(alg, fed)
    {
      d := digest(alg, fed);
    }
  }

  /** An opened file read through `take(limit).read_to_end`. */
  class FileReader {
    const data: seq<byte>
    const failingRead: Option<nat>
    var pos: nat
    var readsDone: nat

    ghost predicate Valid()
      reads this
    {
      pos <= |data|
    }

    constructor (file: OpenFile)
      ensures Valid() && data == file.data && failingRead == file.failingRead
      ensures pos == 0 && readsDone == 0
    {
      data := file.data;
      failingRead := file.failingRead;
      pos := 0;
      readsDone := 0;
    }

    /** The next `limit` bytes, fewer at the end of the file, or the I/O error
        planted on this read. */
    method ReadChunk(limit: nat) returns (r: Result<seq<byte>>)
      requires Valid()
      modifies this
      ensures Valid() && readsDone == old(readsDone) + 1
      ensures failingRead == Some(old(readsDone)) ==> r == Err(ReadFailed) && pos == old(pos)
      ensures failingRead != Some(old(readsDone)) ==>
        && pos == (if old(pos) + limit <= |data| then old(pos) + limit else |data|)
        && r == Ok(data[old(pos)..pos])
    {
      if failingRead == Some(readsDone) {
        r := Err(ReadFailed);
      } else {
        var next := if pos + limit <= |data| then pos + limit else |data|;
        r := Ok(data[pos..next]);
        pos := next;
      }
      readsDone := readsDone + 1;
    }
  }

  /** How many reads the loop makes on a healthy regular file of `n` bytes: one
      per full chunk plus the final short or empty one. */
  function ReadCount(n: nat): nat {
    n / CHUNK_SIZE + 1
  }

  /** What the digest loop promises: a regular file that opens is digested as a
      whole unless one of its reads fails; a file that cannot be opened, whose
      handle metadata fails or that is not a regular file yields the digest of
      the empty input, not an error. */
  function StreamDigest(alg: HashType, file: Option<OpenFile>, digest: DigestFn): (r: Result<seq<byte>>)
    ensures file.None? || file.value.kind != Regular ==> r == Ok(digest(alg, []))
    ensures r.Ok? && file.Some? && file.value.kind == Regular ==> r.value == digest(alg, file.value.data)
    ensures r.Err? ==> r.error == ReadFailed && file.Some? && file.value.failingRead.Some?
  {
    match file
    case None => Ok(digest(alg, []))
    case Some(f) =>
      if f.kind != Regular then Ok(digest(alg, []))
      else if f.failingRead.Some? && f.failingRead.value < ReadCount(|f.data|) then Err(ReadFailed)
      else Ok(digest(alg, f.data))
  }

  /** The loop of `hash_sha3`, `hash_md5` and `hash_blake3` for algorithm `alg`;
      `chunks` records the arguments of the hasher's `update` calls. */
  method HashStream(alg: HashType, file: Option<OpenFile>, digest: DigestFn)
    returns (r: Result<seq<byte>>, ghost chunks: seq<seq<byte>>)
    ensures r == StreamDigest(alg, file, digest)
    ensures r.Ok? && file.Some? && file.value.kind == Regular ==> IsChunking(chunks, file.value.data)
    ensures file.None? || file.value.kind != Regular ==> chunks == []
  {
    var hasher := new StreamingHasher(alg);
    chunks := [];
    if file.Some? {
      var f := new FileReader(file.value);
      if file.value.kind == Regular {
        while true
          invariant f.Valid() && hasher.Valid() && hasher.alg == alg
          invariant hasher.fed == f.data[..f.pos] && chunks == hasher.updates
          invariant f.pos == CHUNK_SIZE * f.readsDone && |chunks| == f.readsDone
          invariant forall i :: 0 <= i < |chunks| ==> |chunks[i]| == CHUNK_SIZE
          invariant f.failingRead.None? || f.failingRead.value >= f.readsDone
          decreases |f.data| - f.pos
        {
          var read := f.ReadChunk(CHUNK_SIZE);
          if read.Err? {
            r := Err(read.error);
            return;
          }
          var chunk := read.value;
          var n := |chunk|;
          if n == 0 {
            break;
          }
          hasher.Update(chunk);
          chunks := hasher.updates;
          if n < CHUNK_SIZE {
            break;
          }
        }
        assert hasher.fed == f.data;
      }
    }
    var d := hasher.Finalize(digest);
    r := Ok(d);
  }
}
