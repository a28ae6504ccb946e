/**
 * The bytes of an unjail transaction, unsigned and signed, in the layout that the expected values of
 * lib/src/transaction/council_node/unjail_transaction.spec.ts show.
 */
module UnjailCodec {
  import opened Wrappers
  import opened Bytes
  import opened SharedTypes

  type Address = b: Bytes | |b| == 20 witness seq(20, _ => 0)
  type Signature = b: Bytes | |b| == 64 witness seq(64, _ => 0)

  datatype UnjailTx = UnjailTx(nonce: u64, address: Address, chain: byte, appVersion: u64)

  /** A recoverable signature. */
  datatype Proof = Proof(recoveryId: byte, signature: Signature)

  function LittleEndian(n: nat, size: nat): (b: Bytes)
    ensures |b| == size
  {
    if size == 0 then [] else [n % 256] + LittleEndian(n / 256, size - 1)
  }

  /** The first byte is the lowest. */
  lemma LittleEndianBytes(low: byte, high: nat, size: nat)
    ensures LittleEndian(low + 256 * high, size + 1) == [low] + LittleEndian(high, size)
  {
    var n := low + 256 * high;
    assert n % 256 == low && n / 256 == high;
  }

  function FromLittleEndian(b: Bytes): nat {
    if b == [] then 0 else b[0] + 256 * FromLittleEndian(b[1..])
  }

  function Pow256(k: nat): nat {
    if k == 0 then 1 else 256 * Pow256(k - 1)
  }

  lemma {:induction false} LittleEndianRoundTrip(n: nat, size: nat)
    requires n < Pow256(size)
    ensures FromLittleEndian(LittleEndian(n, size)) == n
  {
    if size > 0 {
      LittleEndianRoundTrip(n / 256, size - 1);
    }
  }

  lemma {:induction false} LittleEndianIsOnto(b: Bytes)
    ensures FromLittleEndian(b) < Pow256(|b|)
    ensures LittleEndian(FromLittleEndian(b), |b|) == b
  {
    if b != [] {
      LittleEndianIsOnto(b[1..]);
      assert b == [b[0]] + b[1..];
    }
  }

  lemma EightBytesHoldU64()
    ensures Pow256(8) == U64_SIZE
  {
    assert Pow256(4) == 0x1_0000_0000;
    assert Pow256(8) == 256 * (256 * (256 * (256 * Pow256(4))));
  }

  /** The unsigned transaction: nonce, address, attributes. */
  function EncodeTx(tx: UnjailTx): (b: Bytes)
    ensures |b| == 39
  {
    LittleEndian(tx.nonce, 8) + ([0] + (tx.address + ([0, tx.chain] + LittleEndian(tx.appVersion, 8))))
  }

  function EncodeProof(p: Proof): (b: Bytes)
    ensures |b| == 66
  {
    [0, p.recoveryId] + p.signature
  }

  /** The signed transaction, tagged as a public transaction of the unjail kind. */
  function EncodeAux(tx: UnjailTx, p: Proof): (b: Bytes)
    ensures |b| == 107
  {
    [1, 1] + (EncodeTx(tx) + EncodeProof(p))
  }

  /** The bytes that the expected values of the specification show, for nonce 1 on the main network. */
  lemma ExpectedBytes(address: Address, signature: Signature)
    ensures var tx := UnjailTx(1, address, 0x2a, 1);
      && EncodeTx(tx) == [1, 0, 0, 0, 0, 0, 0, 0, 0] + address + [0, 0x2a, 1, 0, 0, 0, 0, 0, 0, 0]
      && EncodeAux(tx, Proof(1, signature))
         == [1, 1, 1, 0, 0, 0, 0, 0, 0, 0, 0] + address + [0, 0x2a, 1, 0, 0, 0, 0, 0, 0, 0, 0, 1] + signature
  {
    OneInEightBytes();
  }

  lemma OneInEightBytes()
    ensures LittleEndian(1, 8) == [1, 0, 0, 0, 0, 0, 0, 0]
  {
  }

  function U64At(b: Bytes, i: nat): u64
    requires i + 8 <= |b|
  {
    LittleEndianIsOnto(b[i..i + 8]);
    EightBytesHoldU64();
    FromLittleEndian(b[i..i + 8])
  }

  /** Decoding reads the bytes it needs and leaves any that follow. */
  function DecodeTx(b: Bytes): Option<UnjailTx> {
    if |b| < 39 || b[8] != 0 || b[29] != 0 then None
    else Some(UnjailTx(U64At(b, 0), b[9..29], b[30], U64At(b, 31)))
  }

  function DecodeProof(b: Bytes): Option<Proof> {
    if |b| < 66 || b[0] != 0 then None else Some(Proof(b[1], b[2..66]))
  }

  function DecodeAux(b: Bytes): Option<(UnjailTx, Proof)> {
    if |b| < 107 || b[0] != 1 || b[1] != 1 then None
    else
      match (DecodeTx(b[2..]), DecodeProof(b[41..]))
      case (Some(tx), Some(p)) => Some((tx, p))
      case _ => None
  }

  lemma U64RoundTrip(n: u64, before: Bytes, after: Bytes)
    ensures U64At(before + (LittleEndian(n, 8) + after), |before|) == n
  {
    var b := before + (LittleEndian(n, 8) + after);
    assert b[|before|..|before| + 8] == LittleEndian(n, 8);
    EightBytesHoldU64();
    LittleEndianRoundTrip(n, 8);
  }

  lemma DecodeEncodedTx(tx: UnjailTx, rest: Bytes)
    ensures DecodeTx(EncodeTx(tx) + rest) == Some(tx)
  {
    var b := EncodeTx(tx) + rest;
    var nonce, version := LittleEndian(tx.nonce, 8), LittleEndian(tx.appVersion, 8);
    var middle := [0] + (tx.address + ([0, tx.chain] + version));
    assert b == [] + (nonce + (middle + rest));
    U64RoundTrip(tx.nonce, [], middle + rest);
    var head := nonce + ([0] + (tx.address + [0, tx.chain]));
    assert b == head + (version + rest);
    U64RoundTrip(tx.appVersion, head, rest);
    assert b[9..29] == tx.address;
  }

  /** The other way: bytes that decode begin with the encoding of what they decode to. */
  lemma EncodeDecodedTx(b: Bytes)
    ensures DecodeTx(b).Some? ==> b == EncodeTx(DecodeTx(b).value) + b[39..]
  {
    if DecodeTx(b).Some? {
      var tx := DecodeTx(b).value;
      U64Bytes(b, 0);
      U64Bytes(b, 31);
      SlicesOfEncoding(tx);
      assert b[0..8] == b[..8];
      JoinSlices(b, EncodeTx(tx));
    }
  }

  lemma SlicesOfEncoding(tx: UnjailTx)
    ensures var e := EncodeTx(tx);
      && e[..8] == LittleEndian(tx.nonce, 8) && e[8] == 0 && e[9..29] == tx.address
      && e[29] == 0 && e[30] == tx.chain && e[31..39] == LittleEndian(tx.appVersion, 8)
  {
  }

  lemma U64Bytes(b: Bytes, i: nat)
    requires i + 8 <= |b|
    ensures LittleEndian(U64At(b, i), 8) == b[i..i + 8]
  {
    LittleEndianIsOnto(b[i..i + 8]);
  }

  lemma JoinSlices(b: Bytes, e: Bytes)
    requires |b| >= 39 == |e|
    requires e[..8] == b[..8] && e[8] == b[8] && e[9..29] == b[9..29] && e[29] == b[29] && e[30] == b[30]
    requires e[31..39] == b[31..39]
    ensures b == e + b[39..]
  {
    forall i | 0 <= i < 39
      ensures b[i] == e[i]
    {
      if i < 8 {
        assert b[..8][i] == b[i] && e[..8][i] == e[i];
      } else if 9 <= i < 29 {
        assert b[9..29][i - 9] == b[i] && e[9..29][i - 9] == e[i];
      } else if 31 <= i {
        assert b[31..39][i - 31] == b[i] && e[31..39][i - 31] == e[i];
      }
    }
  }

  /** Decoding and encoding are inverse, with any bytes left over ignored. */
  lemma DecodeAuxIsInverse(b: Bytes, tx: UnjailTx, p: Proof)
    ensures DecodeAux(b) == Some((tx, p)) <==> EncodeAux(tx, p) <= b
  {
    if EncodeAux(tx, p) <= b {
      var rest := b[107..];
      assert b == EncodeAux(tx, p) + rest;
      assert b[2..] == EncodeTx(tx) + (EncodeProof(p) + rest);
      assert b[41..] == EncodeProof(p) + rest;
      DecodeEncodedTx(tx, EncodeProof(p) + rest);
      assert b[41..][2..66] == p.signature;
    }
    if DecodeAux(b) == Some((tx, p)) {
      EncodeDecodedTx(b[2..]);
      var proof := b[41..];
      assert EncodeProof(p) == proof[..66];
      assert b[2..][39..] == proof;
      assert b == [1, 1] + (EncodeTx(tx) + proof);
      assert proof == EncodeProof(p) + proof[66..];
      assert b == EncodeAux(tx, p) + proof[66..];
    }
  }
}
