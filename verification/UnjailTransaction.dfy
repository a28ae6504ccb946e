/**
 * Building, signing and verifying unjail transactions (lib/src/transaction/council_node/unjail_transaction.ts and
 * native/src/council_node_transaction/unjail_transaction.rs).
 */
module UnjailTransaction {
  import opened Wrappers
  import opened Bytes
  import opened SharedTypes
  import opened UnjailCodec

  const APP_VERSION: u64 := 1
  const ENCODING_PREFIX: Bytes := [1, 1]

  type PrivateKey = Bytes

  /** Hashing and recoverable signatures, and which bytes decode to a transaction of another kind. */
  datatype Crypto = Crypto(
    id: UnjailTx -> Bytes,
    sign: (PrivateKey, Bytes) -> Proof,
    wellFormed: Proof -> bool,
    otherKind: Bytes -> bool,
    recover: (Proof, Bytes) -> Option<Address>,
    addressOf: PrivateKey -> Address)

  /** A signature recovers, from the message it signs, the address of its key. */
  ghost predicate Lawful(c: Crypto) {
    forall k, m {:trigger c.sign(k, m)} ::
      c.wellFormed(c.sign(k, m)) && c.recover(c.sign(k, m), m) == Some(c.addressOf(k))
  }

  datatype Error =
    | InvalidNonce | NotCompleted | Undecodable | NotAnUnjailTransaction
    | MismatchAddress | MismatchNonce | MismatchChain | InvalidSignature | IncorrectSignature

  /** What a transaction is built from and what it is verified against; the nonce is any integer a caller may pass. */
  datatype Props = Props(stakingAddress: Address, nonce: int, chain: byte)

  /** The native side reads the nonce as a 64-bit unsigned number. */
  function ParseNonce(nonce: int): Result<u64, Error> {
    if 0 <= nonce < U64_SIZE then Ok(nonce) else Err(InvalidNonce)
  }

  function BuildTx(props: Props): Result<UnjailTx, Error> {
    match ParseNonce(props.nonce)
    case Err(e) => Err(e)
    case Ok(nonce) => Ok(UnjailTx(nonce, props.stakingAddress, props.chain, APP_VERSION))
  }

  /** The bytes of a signed transaction; those of a signature that is not well formed do not decode. */
  function DecodeSigned(c: Crypto, b: Bytes): Result<(UnjailTx, Proof), Error> {
    match DecodeAux(b)
    case None => Err(if !(ENCODING_PREFIX <= b) && c.otherKind(b) then NotAnUnjailTransaction else Undecodable)
    case Some((tx, p)) => if c.wellFormed(p) then Ok((tx, p)) else Err(Undecodable)
  }

  /** Decodes, then compares address, nonce and chain, then checks whose signature it is. */
  method VerifyUnjailTxAux(c: Crypto, b: Bytes, assertion: Props) returns (r: Result<(), Error>)
    ensures r == Verification(c, b, assertion)
  {
    var decoded := DecodeSigned(c, b);
    if decoded.Err? {
      return Err(decoded.error);
    }
    var nonce := ParseNonce(assertion.nonce);
    if nonce.Err? {
      return Err(nonce.error);
    }
    var (tx, p) := decoded.value;
    if tx.address != assertion.stakingAddress {
      return Err(MismatchAddress);
    }
    if tx.nonce != nonce.value {
      return Err(MismatchNonce);
    }
    if tx.chain != assertion.chain {
      return Err(MismatchChain);
    }
    var address := c.recover(p, c.id(tx));
    if address == None {
      return Err(InvalidSignature);
    }
    if address.value != assertion.stakingAddress {
      return Err(IncorrectSignature);
    }
    r := Ok(());
  }

  /** The outcome of verifying: the first check that fails, in the order the source makes them. */
  function Verification(c: Crypto, b: Bytes, assertion: Props): Result<(), Error> {
    match DecodeSigned(c, b)
    case Err(e) => Err(e)
    case Ok((tx, p)) =>
      if !(0 <= assertion.nonce < U64_SIZE) then Err(InvalidNonce)
      else FirstMismatch(tx, assertion, c.recover(p, c.id(tx)))
  }

  function FirstMismatch(tx: UnjailTx, assertion: Props, signer: Option<Address>): Result<(), Error> {
    if tx.address != assertion.stakingAddress then Err(MismatchAddress)
    else if tx.nonce != assertion.nonce then Err(MismatchNonce)
    else if tx.chain != assertion.chain then Err(MismatchChain)
    else match signer
      case None => Err(InvalidSignature)
      case Some(address) => if address != assertion.stakingAddress then Err(IncorrectSignature) else Ok(())
  }

  /** The signed bytes for a transaction built from `props`. */
  function SignedBytes(c: Crypto, tx: UnjailTx, key: PrivateKey): Bytes {
    EncodeAux(tx, c.sign(key, c.id(tx)))
  }

  /**
   * Round trip: what was built from `props` and signed by `key` is accepted against `assertion` exactly when address,
   * nonce and chain are those it was built from and the key is that of the staking address; otherwise the first
   * mismatch in that order is reported. Bytes after the transaction make no difference.
   */
  lemma RoundTrip(c: Crypto, props: Props, key: PrivateKey, assertion: Props, rest: Bytes)
    requires Lawful(c) && BuildTx(props).Ok?
    ensures var r := Verification(c, SignedBytes(c, BuildTx(props).value, key) + rest, assertion);
      && (r.Ok? <==> assertion == props && c.addressOf(key) == props.stakingAddress)
      && r == if !(0 <= assertion.nonce < U64_SIZE) then Err(InvalidNonce)
              else if assertion.stakingAddress != props.stakingAddress then Err(MismatchAddress)
              else if assertion.nonce != props.nonce then Err(MismatchNonce)
              else if assertion.chain != props.chain then Err(MismatchChain)
              else if c.addressOf(key) != props.stakingAddress then Err(IncorrectSignature)
              else Ok(())
  {
    var tx := BuildTx(props).value;
    var p := c.sign(key, c.id(tx));
    DecodeAuxIsInverse(SignedBytes(c, tx, key) + rest, tx, p);
  }

  /** Soundness for any bytes: only a transaction with the asserted fields and signer is accepted. */
  lemma AcceptsOnlySigned(c: Crypto, b: Bytes, assertion: Props)
    ensures Verification(c, b, assertion).Ok? <==>
      exists tx, p ::
        && EncodeAux(tx, p) <= b && c.wellFormed(p)
        && Props(tx.address, tx.nonce, tx.chain) == assertion
        && c.recover(p, c.id(tx)) == Some(assertion.stakingAddress)
  {
    if Verification(c, b, assertion).Ok? {
      var (tx, p) := DecodeAux(b).value;
      DecodeAuxIsInverse(b, tx, p);
    }
    if tx, p :|
      EncodeAux(tx, p) <= b && c.wellFormed(p) && Props(tx.address, tx.nonce, tx.chain) == assertion
      && c.recover(p, c.id(tx)) == Some(assertion.stakingAddress) {
      DecodeAuxIsInverse(b, tx, p);
    }
  }

  /** What verifying the bytes of a transaction with a well-formed signature reports, whoever made them. */
  lemma ReportsFirstMismatch(c: Crypto, tx: UnjailTx, p: Proof, rest: Bytes, assertion: Props)
    requires c.wellFormed(p)
    ensures var (r, signer) := (Verification(c, EncodeAux(tx, p) + rest, assertion), c.recover(p, c.id(tx)));
      && (r == Err(InvalidNonce) <==> assertion.nonce < 0 || assertion.nonce >= 0x1_0000_0000_0000_0000)
      && (r != Err(InvalidNonce) ==>
           && (r == Err(MismatchAddress) <==> tx.address != assertion.stakingAddress)
           && (r == Err(MismatchNonce) <==> tx.address == assertion.stakingAddress && tx.nonce != assertion.nonce)
           && (r == Err(MismatchChain) <==>
                 tx.address == assertion.stakingAddress && tx.nonce == assertion.nonce && tx.chain != assertion.chain)
           && (r == Err(InvalidSignature) <==> Props(tx.address, tx.nonce, tx.chain) == assertion && signer == None)
           && (r == Err(IncorrectSignature) <==>
                 && Props(tx.address, tx.nonce, tx.chain) == assertion
                 && signer.Some? && signer.value != assertion.stakingAddress)
           && (r == Ok(()) <==>
                 Props(tx.address, tx.nonce, tx.chain) == assertion && signer == Some(assertion.stakingAddress)))
  {
    DecodeAuxIsInverse(EncodeAux(tx, p) + rest, tx, p);
  }

  /** Bytes that no well-formed unjail transaction begins are refused, other kinds of transaction by name. */
  lemma RefusesOtherBytes(c: Crypto, b: Bytes, assertion: Props)
    requires forall tx, p :: EncodeAux(tx, p) <= b ==> !c.wellFormed(p)
    ensures Verification(c, b, assertion) ==
      if c.otherKind(b) && !([1, 1] <= b) then Err(NotAnUnjailTransaction) else Err(Undecodable)
  {
    if DecodeAux(b).Some? {
      var (tx, p) := DecodeAux(b).value;
      DecodeAuxIsInverse(b, tx, p);
    }
  }

  class UnjailTransactionBuilder {
    const crypto: Crypto
    const props: Props
    const unsignedRawTx: Bytes
    const innerTxId: Bytes
    var key: Option<PrivateKey>

    ghost predicate Valid() {
      && BuildTx(props).Ok? && unsignedRawTx == EncodeTx(BuildTx(props).value)
      && innerTxId == crypto.id(BuildTx(props).value)
    }

    constructor (crypto: Crypto, props: Props)
      requires BuildTx(props).Ok?
      ensures Valid() && this.crypto == crypto && this.props == props && key == None
    {
      this.crypto, this.props := crypto, props;
      var tx := BuildTx(props).value;
      unsignedRawTx, innerTxId := EncodeTx(tx), crypto.id(tx);
      key := None;
    }

    /** What a caller of the constructor gets; a nonce of 2^64 passes the argument check and is refused here. */
    static method Create(crypto: Crypto, props: Props) returns (r: Result<UnjailTransactionBuilder, Error>)
      ensures r.Ok? <==> 0 <= props.nonce < U64_SIZE
      ensures r.Err? ==> r.error == InvalidNonce
      ensures r.Ok? ==> fresh(r.value) && r.value.Valid() && r.value.props == props && r.value.crypto == crypto
      ensures r.Ok? ==> r.value.key == None
    {
      var tx := BuildTx(props);
      if tx.Err? {
        return Err(tx.error);
      }
      var b := new UnjailTransactionBuilder(crypto, props);
      r := Ok(b);
    }

    method Sign(key: PrivateKey)
      modifies this
      ensures this.key == Some(key)
    {
      this.key := Some(key);
    }

    method IsCompleted() returns (r: bool)
      ensures r <==> key != None
    {
      r := key.Some?;
    }

    method TxId() returns (id: Bytes)
      requires Valid()
      ensures 0 <= props.nonce < 0x1_0000_0000_0000_0000
      ensures id == crypto.id(UnjailTx(props.nonce, props.stakingAddress, props.chain, 1))
    {
      id := innerTxId;
    }

    method ToUnsignedHex() returns (b: Bytes)
      requires Valid()
      ensures 0 <= props.nonce < 0x1_0000_0000_0000_0000
      ensures b == [1, 1] + EncodeTx(UnjailTx(props.nonce, props.stakingAddress, props.chain, 1))
    {
      b := ENCODING_PREFIX + unsignedRawTx;
    }

    /** Decodes the unsigned bytes, signs the id, and encodes both; the unsigned bytes are a prefix of the result. */
    method ToHex() returns (r: Result<Bytes, Error>)
      requires Valid()
      ensures 0 <= props.nonce < 0x1_0000_0000_0000_0000
      ensures r == if key == None then Err(NotCompleted)
                   else
                     var tx := UnjailTx(props.nonce, props.stakingAddress, props.chain, 1);
                     Ok(EncodeAux(tx, crypto.sign(key.value, crypto.id(tx))))
      ensures r.Ok? ==> ENCODING_PREFIX + unsignedRawTx <= r.value
      ensures r.Ok? && Lawful(crypto) ==>
        (Verification(crypto, r.value, props).Ok? <==> crypto.addressOf(key.value) == props.stakingAddress)
    {
      var completed := IsCompleted();
      if !completed {
        return Err(NotCompleted);
      }
      DecodeEncodedTx(BuildTx(props).value, []);
      assert unsignedRawTx + [] == unsignedRawTx;
      var tx := DecodeTx(unsignedRawTx).value;
      r := Ok(EncodeAux(tx, crypto.sign(key.value, crypto.id(tx))));
      assert r.value + [] == r.value;
      if Lawful(crypto) {
        RoundTrip(crypto, props, key.value, props, []);
      }
    }
  }
}
