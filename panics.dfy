/** The failures the core can raise. Every panic of the original is a value here that
    carries the numbers its message reports; no message text is modelled. */
module Panics {

  datatype Panic =
      /** `Index {index} invalid for slice of len {len}` */
    | IndexOutOfBounds(index: nat, len: nat)
      /** `value should have the same length as the chunk. Got a value of length {valueLen}
          for a chunk of length {chunkSize}` */
    | ChunkLengthMismatch(valueLen: nat, chunkSize: nat)
      /** `chunk_size should be a divisor of len. {len} / {chunkSize} = {quotient} with a
          remainder of {remainder}` */
    | ChunkSizeNotDivisor(len: nat, chunkSize: nat, quotient: nat, remainder: nat)
      /** Integer remainder by zero (`len % 0`), raised before any message is formatted. */
    | RemainderByZero(dividend: nat)
      /** A plain `assert_eq!(left, right)` that failed. */
    | AssertEqFailed(left: nat, right: nat)
      /** A plain `assert!(cond)` without a message: no numbers are reported. */
    | AssertionFailed

  /** Outcome of an operation that returns nothing but may panic. */
  datatype Outcome = Pass | Fail(panic: Panic)

  /** Outcome of an operation that returns a value but may panic. */
  datatype Result<+R> = Ok(value: R) | Err(panic: Panic)
}
