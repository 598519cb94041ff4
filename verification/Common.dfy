/** Datatypes shared by every part of the model. */
module Common {

  datatype Option<+T> = None | Some(value: T)

  /** The agent's `Result<T, String>`; error texts are kept as the source spells them. */
  datatype Result<+T> = Ok(value: T) | Err(code: string)

  type byte = b: int | 0 <= b < 256

  type Bytes = seq<byte>

  const U64_MAX: nat := 0xFFFF_FFFF_FFFF_FFFF

  function Min(a: nat, b: nat): nat {
    if a <= b then a else b
  }

  predicate StartsWith(s: string, prefix: string) {
    prefix <= s
  }

  predicate EndsWith(s: string, suffix: string) {
    |suffix| <= |s| && s[|s| - |suffix|..] == suffix
  }
}
