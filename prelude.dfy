/** Types shared by every module: optional values, the crate's error results and
    the fixed-width integers of the Rust source. */
module Prelude {

  datatype Option<T> = None | Some(value: T)

  /** The failures `hash_files` and the digest loops can report: text that is not
      valid UTF-8 or is refused by the black list (both raised as "cannot parse
      path"), and an I/O error while a file is being read. */
  datatype Error = CannotParsePath | ReadFailed

  datatype Result<T> = Ok(value: T) | Err(error: Error)

  type byte = x: int | 0 <= x < 0x100
  type u64 = x: int | 0 <= x < 0x1_0000_0000_0000_0000
  type i64 = x: int | -0x8000_0000_0000_0000 <= x < 0x8000_0000_0000_0000
  type i128 = x: int | -0x8000_0000_0000_0000_0000_0000_0000_0000 <= x < 0x8000_0000_0000_0000_0000_0000_0000_0000

  /** `str::starts_with` on text. */
  predicate StartsWith(s: string, prefix: string) {
    |prefix| <= |s| && s[..|prefix|] == prefix
  }
}
