/** Shared vocabulary: octets, UTF-16 code units, optional values and decode limits. */
module Common {

  /** One element of a Uint8Array. */
  type Byte = b: int | 0 <= b < 0x100

  /** One UTF-16 code unit: what `charCodeAt` returns. */
  type Unit = u: int | 0 <= u < 0x1_0000

  datatype Option<+T> = None | Some(value: T)

  /** The resolved limits of `resolveDecodeLimits`: all are positive integers. */
  datatype Limits = Limits(
    maxEncodedBytes: nat,
    maxDecodedBytes: nat,
    maxDepth: nat,
    maxCollectionLength: nat,
    maxTotalValues: nat)
  {
    predicate Valid() {
      && 0 < maxEncodedBytes
      && 0 < maxDecodedBytes
      && 0 < maxDepth
      && 0 < maxCollectionLength
      && 0 < maxTotalValues
    }
  }

  function Max(a: int, b: int): int {
    if a < b then b else a
  }

  function Min(a: int, b: int): int {
    if a < b then a else b
  }
}
