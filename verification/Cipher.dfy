/** A cipher under one directional key, as the program sees it. */
module Cipher {
  import opened Prelude
  import opened Bytes

  /** Octets by which a ciphertext is longer than its plaintext. */
  const TAG := 16

  /** `write_message` and `read_message` at a nonce; either may fail. */
  type Encrypt = (nat, seq<byte>) -> Option<seq<byte>>
  type Decrypt = (nat, seq<byte>) -> Option<seq<byte>>

  /** Plaintexts up to the given size can be sealed, and grow by the tag. */
  ghost predicate Seals(encrypt: Encrypt, size: nat) {
    forall n: nat, plain: seq<byte> | |plain| <= size ::
      encrypt(n, plain).Some? && |encrypt(n, plain).value| == |plain| + TAG
  }
}
