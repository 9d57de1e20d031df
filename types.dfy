/** Value types of the blob sidecar cache: the fixed-width integers the
    consensus types use, block roots, the three fields of a blob sidecar that
    the cache reads, and the cache's error kinds. */
module Types {

  /** Rust's `u64`: slots and blob indices. */
  newtype U64 = x: int | 0 <= x < 0x1_0000_0000_0000_0000

  type Slot = U64

  newtype Byte = x: int | 0 <= x < 256

  /** `Hash256`: a 32-byte hash, here the root of the block a sidecar belongs to. */
  type Hash256 = b: seq<Byte> | |b| == 32 witness seq(32, _ => 0 as Byte)

  /** The part of a `BlobSidecar` the cache looks at; the blob, its
      commitment, proof and signed header play no part here. */
  datatype BlobSidecar = BlobSidecar(blockRoot: Hash256, slot: Slot, index: U64)

  /** The cache's `Error` enum. */
  datatype Error =
    | FinalizedBlob(slot: Slot, finalizedSlot: Slot)
    | InvalidBlobIndex(index: U64)

  /** Rust's `Result<T, Error>`. */
  datatype Result<T> = Ok(value: T) | Err(error: Error)
}
