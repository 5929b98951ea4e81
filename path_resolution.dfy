/** How `hash_files` turns the path it is given into the `full_path` whose
    metadata it reads, and how that path is checked against a black list. */
module PathResolution {
  import opened Prelude
  import opened Environment

  /** The separator "./" occurs in `s` starting at index `i`. */
  predicate SeparatorAt(s: string, i: int) {
    0 <= i && i + 1 < |s| && s[i] == '.' && s[i + 1] == '/'
  }

  /** No "./" starts at or after index `j` of `s`. */
  predicate NoSeparatorFrom(s: string, j: int) {
    forall i :: j <= i < |s| ==> !SeparatorAt(s, i)
  }

  /** Where the last piece of `s[..n]` split on "./" starts: just after the last
      "./" inside `s[..n]`, or 0 when there is none. ("./" cannot overlap itself,
      so every occurrence is a split point.) */
  function PieceStart(s: string, n: nat): (j: nat)
    requires n <= |s|
    ensures j <= n
    ensures forall i :: j <= i && i + 1 < n ==> !SeparatorAt(s, i)
    ensures j == 0 || (2 <= j && SeparatorAt(s, j - 2))
  {
    if n < 2 then 0
    else if SeparatorAt(s, n - 2) then n
    else PieceStart(s, n - 1)
  }

  /** `s.split("./").last()`. `split` always yields at least one piece, so
      `last()` is never `None`. */
  function LastPiece(s: string): (r: string)
    ensures |r| <= |s| && r == s[|s| - |r|..]
    ensures NoSeparatorFrom(s, |s| - |r|)
    ensures |r| == |s| || SeparatorAt(s, |s| - |r| - 2)
  {
    s[PieceStart(s, |s|)..]
  }

  /** The properties of `PieceStart` pin it down: a start index after which `s`
      holds no "./" and which is 0 or follows a "./" is where the last piece
      starts. */
  lemma PieceStartUnique(s: string, j: nat)
    requires j <= |s|
    requires NoSeparatorFrom(s, j)
    requires j == 0 || (2 <= j && SeparatorAt(s, j - 2))
    ensures j == PieceStart(s, |s|)
  {
    // Were the "./" before PieceStart at or after j, j would not be a valid
    // start; were it the one just before j, its '.' would be the '/' that ends
    // the "./" before j. The same argument with the roles swapped.
  }

  /** The remainder after a leading "./", for contrast with `LastPiece`. */
  function AfterFirstSeparator(s: string): string
    requires StartsWith(s, "./")
  {
    s[2..]
  }

  /** A path with more than one "./" resolves by its last piece, not by what
      follows its leading "./". */
  lemma LastPieceIsNotRemainderAfterFirst()
    ensures LastPiece("./a/./b") == "b"
    ensures AfterFirstSeparator("./a/./b") == "a/./b"
  {
    PieceStartUnique("./a/./b", 6);
  }

  /** The `full_path` of `hash_files`: for a path starting with "./", the working
      directory, "/" and the last piece of the path split on "./"; for any other
      path its text. A working directory that cannot be determined leaves the
      path empty without an error; text that is not UTF-8 is an error. */
  function ResolveFullPath(path: Path, cwd: Option<Path>): (r: Result<string>)
    ensures r.Err? <==> (if StartsWith(path.text, "./") then cwd.Some? && !(cwd.value.utf8 && path.utf8) else !path.utf8)
    ensures r.Ok? && !StartsWith(path.text, "./") ==> r.value == path.text
    ensures StartsWith(path.text, "./") && cwd.None? ==> r == Ok("")
    ensures r.Ok? && StartsWith(path.text, "./") && cwd.Some? ==>
      exists j :: 2 <= j <= |path.text| && SeparatorAt(path.text, j - 2)
        && NoSeparatorFrom(path.text, j)
        && r.value == cwd.value.text + "/" + path.text[j..]
  {
    if StartsWith(path.text, "./") then
      match cwd
      case None => Ok("")
      case Some(c) =>
        match ToStr(c)
        case None => Err(CannotParsePath)
        case Some(cs) =>
          match ToStr(path)
          case None => Err(CannotParsePath)
          case Some(p) =>
            var j := PieceStart(p, |p|);
            assert j != 0 by { assert SeparatorAt(p, 0); }
            Ok(cs + "/" + LastPiece(p))
    else
      match ToStr(path)
      case None => Err(CannotParsePath)
      case Some(p) => Ok(p)
  }

  /** `full_path.starts_with(entry)` for some entry of the black list. */
  predicate Blacklisted(fullPath: string, blackList: seq<string>): (r: bool)
    ensures blackList == [] ==> !r
    ensures "" in blackList ==> r
    ensures r <==> exists e :: e in blackList && StartsWith(fullPath, e)
  {
    exists i :: 0 <= i < |blackList| && StartsWith(fullPath, blackList[i])
  }
}
