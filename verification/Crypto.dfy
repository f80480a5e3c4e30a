/** The cryptographic primitives the contracts call, as function values. */
module Cryptography {
  import opened Bytes

  /** `recover(digest, v, r, s)` is ECDSA public-key recovery on secp256k1: the 64 bytes X + Y, or no key. */
  datatype Crypto = Crypto(
    sha512_256: bytes -> bytes,
    keccak256: bytes -> bytes,
    recover: (bytes, byte, bytes, bytes) -> Option<bytes>)

  /** Sha512_256 is idealised as collision free. */
  ghost predicate CollisionFree(c: Crypto)
  {
    forall x, y :: c.sha512_256(x) == c.sha512_256(y) ==> x == y
  }

  /** Keccak256 digests are 32 bytes. */
  ghost predicate KeccakWidth(c: Crypto)
  {
    forall x :: |c.keccak256(x)| == 32
  }

  /** The Ethereum-style address of a public key: the last 20 bytes of its Keccak digest. */
  function AddressOf(c: Crypto, publicKey: bytes): (a: bytes)
    requires |c.keccak256(publicKey)| == 32
    ensures |a| == 20
  {
    c.keccak256(publicKey)[12..32]
  }

  function DoubleKeccak(c: Crypto, b: bytes): bytes
  {
    c.keccak256(c.keccak256(b))
  }

  /** One 66-byte signature record (guardian index, R, S, V) recovers to `key` over `digest`. */
  ghost predicate Recovers(c: Crypto, record: bytes, digest: bytes, key: bytes)
    requires |record| == 66 && KeccakWidth(c)
  {
    var pk := c.recover(digest, record[65], record[1..33], record[33..65]);
    pk.Some? && AddressOf(c, pk.value) == key
  }
}
