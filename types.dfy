/** Scalar types of the contract and the failure-carrying wrappers shared by the other modules. */
module Types {

  /** Rust's fixed-width unsigned integers, as ranges of `nat`. */
  type uint8 = x: nat | x < 0x100
  type uint32 = x: nat | x < 0x1_0000_0000
  type uint64 = x: nat | x < 0x1_0000_0000_0000_0000

  /** A NEAR account id; only compared for equality here. */
  type AccountId = string

  /** A 32-byte digest, the `[u8; 32]` that `env::keccak256_array` returns. */
  type Digest = s: seq<uint8> | |s| == 32 witness seq(32, i => 0)

  datatype Option<+T> = None | Some(value: T)

  datatype Result<+R, +E> = Success(value: R) | Failure(error: E)

  /** The result of a call that returns nothing but may panic. */
  datatype Outcome<+E> = Pass | Fail(error: E)
}
