/** Bytes, and the Buffer objects that carry them. */
module Bytes {

  type byte = x: nat | x < 256
  type Bytes = seq<byte>

  /** A Buffer object: `id` is its identity, which two copies of the same bytes do not share. */
  datatype Buffer = Buffer(id: nat, data: Bytes)
}
