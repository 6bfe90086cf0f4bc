/** Shared value types: failure wrappers, the machine integer ranges of the
    source, byte strings and identities. */
module Basics {

  datatype Option<+T> = None | Some(value: T)

  datatype Result<+T, +E> = Ok(value: T) | Err(error: E) {
    predicate IsFailure() {
      Err?
    }

    function PropagateFailure<U>(): Result<U, E>
      requires Err?
    {
      Err(error)
    }

    function Extract(): T
      requires Ok?
    {
      value
    }
  }

  const I64_MIN: int := -0x8000_0000_0000_0000
  const I64_MAX: int := 0x7FFF_FFFF_FFFF_FFFF
  const U32_MAX: int := 0xFFFF_FFFF
  const U64_MAX: int := 0xFFFF_FFFF_FFFF_FFFF
  const TWO_64: int := 0x1_0000_0000_0000_0000

  type I64 = x: int | I64_MIN <= x <= I64_MAX
  type U64 = x: int | 0 <= x <= U64_MAX
  type Byte = b: int | 0 <= b < 256

  /** UTF-8 text is the byte string that Rust holds; no value is longer than
      the largest allocation. */
  type Text = t: seq<Byte> | |t| <= I64_MAX

  /** A reader-local sequence number: a non-zero u64. */
  type Sequence = n: int | 1 <= n <= U64_MAX witness 1

  /** A device-protocol version: a non-zero u16. */
  type Version = v: int | 1 <= v <= 65535 witness 1

  const CURRENT_VERSION: Version := 1

  // Identities are carried by their canonical text, which is injective.
  datatype ReaderId = ReaderId(text: Text)
  datatype BatchId = BatchId(text: Text)
  datatype TransactionId = TransactionId(text: Text)

  function Min(a: int, b: int): int {
    if a <= b then a else b
  }

  function Max(a: int, b: int): int {
    if a <= b then b else a
  }
}
