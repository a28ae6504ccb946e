/** Numbers and key pairs that several components use. */
module SharedTypes {
  import opened Bytes

  /** The total supply, in basic units. */
  const MAX_COIN: int := 10_000_000_000_000_000_000

  const U64_SIZE: int := 0x1_0000_0000_0000_0000

  type u64 = x: nat | x < U64_SIZE

  datatype KeyPair = KeyPair(publicKey: Bytes, hasPrivateKey: bool)
}
