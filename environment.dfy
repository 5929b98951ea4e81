/** The operating system as the hasher sees it: paths, the working directory,
    `fs::metadata` and `File::open`. All of it is an input of the model. */
module Environment {
  import opened Prelude

  /** A `std::path::Path`: its text (a lossy rendering when it is not valid
      UTF-8) and whether `to_str` succeeds on it. */
  datatype Path = Path(text: string, utf8: bool)

  /** `Path::to_str`. */
  function ToStr(p: Path): Option<string> {
    if p.utf8 then Some(p.text) else None
  }

  /** The fields of `fs::Metadata` the hasher reads. */
  datatype Stat = Stat(size: u64, ino: u64, ctime: i64, mtime: i64)

  /** What `f.metadata()` says about an opened file handle. */
  datatype HandleKind = MetadataFailed | Regular | NotRegular

  /** An opened file: its kind, its bytes, and optionally the index of the
      read call (0 for the first) that fails with an I/O error. */
  datatype OpenFile = OpenFile(kind: HandleKind, data: seq<byte>, failingRead: Option<nat>)

  /** The environment of one `hash_files` call: `env::current_dir` (None when it
      fails), `fs::metadata` by path text (absent when it fails) and `File::open`
      by path (absent when it fails). */
  datatype Env = Env(cwd: Option<Path>, stat: map<string, Stat>, open: map<Path, OpenFile>)

  /** `File::open(path)`: the opened file, or None when opening fails. */
  function Open(env: Env, path: Path): Option<OpenFile> {
    if path in env.open then Some(env.open[path]) else None
  }
}
