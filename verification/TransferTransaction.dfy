/** Transfer transactions and their native side (native/src/transfer_transaction/mod.rs). */
module TransferTransaction {
  import opened Wrappers
  import opened Bytes
  import opened AddressLeaves
  import opened SharedTypes

  datatype Output = Output(address: string, value: int, validFrom: Option<nat>)

  datatype Input = Input(prevTxId: string, prevIndex: nat, prevOutput: Output, addressParams: AddressParams)

  /** An input as the raw transaction keeps it, with the number of leaves of its address. */
  datatype RawInput = RawInput(input: Input, leaves: u16)

  datatype RawTx = RawTx(chain: byte, inputs: seq<RawInput>, outputs: seq<Output>, viewKeys: seq<Bytes>)

  /** A transaction with the witnesses collected so far: what the bytes of `incompleteHex` stand for. */
  datatype Incomplete = Incomplete(tx: RawTx, witnesses: seq<Option<Bytes>>)

  /** What the encoded size, and so the fee, depends on: amounts take the same number of bytes whatever their value. */
  datatype Shape = Shape(leaves: seq<nat>, timed: seq<bool>, viewKeys: nat)

  /**
   * The chain id and fee algorithm of the network, whether the native side was built with overflow checks, and the
   * parts of it that are not modelled: `witnessOf` is the witness it decodes from bytes handed in.
   */
  datatype Env = Env(
    chain: byte,
    linearFee: bool,
    overflowChecks: bool,
    inNetwork: string -> bool,
    validViewKey: Bytes -> bool,
    addressOf: KeyPair -> string,
    sign: (KeyPair, Bytes) -> Bytes,
    witnessOf: Bytes -> Bytes,
    txId: RawTx -> Bytes,
    fee: Shape -> Option<nat>)

  datatype Error =
    | InvalidArgument | WrongNetwork | NoPrivateKey | NotSignable | NoInput | NoOutput | NotCompleted
    | UnsupportedFeeAlgorithm | NativeError

  function ShapeOf(tx: RawTx): Shape {
    Shape(seq(|tx.inputs|, i requires 0 <= i < |tx.inputs| => tx.inputs[i].leaves),
          seq(|tx.outputs|, i requires 0 <= i < |tx.outputs| => tx.outputs[i].validFrom.Some?),
          |tx.viewKeys|)
  }

  /** Every input can be recorded: the leaf counter does not panic on it. */
  predicate Recordable(checked: bool, inputs: seq<Input>) {
    forall i :: 0 <= i < |inputs| ==> Records(checked, inputs[i].addressParams)
  }

  /** The raw transaction over the given fields; each input is recorded with its number of leaves. */
  function Rebuild(chain: byte, inputs: seq<Input>, outputs: seq<Output>, viewKeys: seq<Bytes>): RawTx {
    RawTx(chain, seq(|inputs|, i requires 0 <= i < |inputs| => RawInput(inputs[i], LeafCount(inputs[i].addressParams))),
          outputs, viewKeys)
  }

  /** The leaf counter gives a count for every input. */
  predicate AllCounted(checked: bool, inputs: seq<Input>) {
    forall i :: 0 <= i < |inputs| ==> RecordedLeaves(checked, inputs[i].addressParams).Count?
  }

  lemma CountedIsRecordable(checked: bool, inputs: seq<Input>)
    ensures AllCounted(checked, inputs) <==> Recordable(checked, inputs)
  {
    if AllCounted(checked, inputs) {
      forall i | 0 <= i < |inputs|
        ensures Records(checked, inputs[i].addressParams)
      {
        assert RecordedLeaves(checked, inputs[i].addressParams).Count?;
      }
    }
  }

  /** The transaction has exactly the given fields, in order, each input with the count the leaf counter gave. */
  predicate Carries(
      checked: bool, tx: RawTx, chain: byte, inputs: seq<Input>, outputs: seq<Output>, viewKeys: seq<Bytes>) {
    && tx.chain == chain && tx.outputs == outputs && tx.viewKeys == viewKeys && |tx.inputs| == |inputs|
    && forall i :: 0 <= i < |inputs| ==>
      tx.inputs[i].input == inputs[i] && RecordedLeaves(checked, inputs[i].addressParams) == Count(tx.inputs[i].leaves)
  }

  lemma CarriesIsUnique(
      checked: bool, a: RawTx, b: RawTx, chain: byte, inputs: seq<Input>, outputs: seq<Output>, viewKeys: seq<Bytes>)
    requires Carries(checked, a, chain, inputs, outputs, viewKeys)
    requires Carries(checked, b, chain, inputs, outputs, viewKeys)
    ensures a == b
  {
    forall i | 0 <= i < |inputs|
      ensures a.inputs[i] == b.inputs[i]
    {
      assert RecordedLeaves(checked, inputs[i].addressParams) == Count(a.inputs[i].leaves);
    }
  }

  function NoWitnesses(n: nat): seq<Option<Bytes>> {
    seq(n, _ => None)
  }

  lemma RebuildCarries(checked: bool, chain: byte, inputs: seq<Input>, outputs: seq<Output>, viewKeys: seq<Bytes>)
    requires AllCounted(checked, inputs)
    ensures Carries(checked, Rebuild(chain, inputs, outputs, viewKeys), chain, inputs, outputs, viewKeys)
  {
    var tx := Rebuild(chain, inputs, outputs, viewKeys);
    forall i | 0 <= i < |inputs|
      ensures RecordedLeaves(checked, inputs[i].addressParams) == Count(tx.inputs[i].leaves)
    {
      assert RecordedLeaves(checked, inputs[i].addressParams).Count?;
    }
  }

  /** Adds the fields to a native builder one by one; fails when the leaf counter panics on some input. */
  method BuildIncomplete(checked: bool, chain: byte, inputs: seq<Input>, outputs: seq<Output>, viewKeys: seq<Bytes>)
      returns (r: Result<Incomplete, Error>)
    ensures r == if Recordable(checked, inputs)
                 then Ok(Incomplete(Rebuild(chain, inputs, outputs, viewKeys), NoWitnesses(|inputs|)))
                 else Err(NativeError)
    ensures r.Ok? <==> AllCounted(checked, inputs)
    ensures r.Ok? ==> Carries(checked, r.value.tx, chain, inputs, outputs, viewKeys)
    ensures r.Ok? ==> |r.value.witnesses| == |inputs| && forall i :: 0 <= i < |inputs| ==> r.value.witnesses[i] == None
  {
    var accessPolicies: seq<Bytes> := [];
    for i := 0 to |viewKeys|
      invariant accessPolicies == viewKeys[..i]
    {
      accessPolicies := accessPolicies + [viewKeys[i]];
    }
    var rawInputs: seq<RawInput>, witnesses: seq<Option<Bytes>> := [], [];
    for i := 0 to |inputs|
      invariant |rawInputs| == i && witnesses == NoWitnesses(i)
      invariant forall j :: 0 <= j < i ==> rawInputs[j] == RawInput(inputs[j], LeafCount(inputs[j].addressParams))
      invariant Recordable(checked, inputs[..i])
    {
      var leaves := InputLeaves(checked, inputs[i].addressParams);
      if leaves.Panics? {
        return Err(NativeError);
      }
      rawInputs, witnesses := rawInputs + [RawInput(inputs[i], leaves.leaves)], witnesses + [None];
      assert Recordable(checked, inputs[..i + 1]);
    }
    assert inputs[..|inputs|] == inputs;
    var rawOutputs: seq<Output> := [];
    for i := 0 to |outputs|
      invariant rawOutputs == outputs[..i]
    {
      rawOutputs := rawOutputs + [outputs[i]];
    }
    var tx := RawTx(chain, rawInputs, rawOutputs, accessPolicies);
    assert tx == Rebuild(chain, inputs, outputs, viewKeys);
    r := Ok(Incomplete(tx, witnesses));
  }

  /** The native side adds a witness, unless it rejects it. */
  function AddNativeWitness(hex: Incomplete, index: nat, data: Bytes, accepted: bool): Result<Incomplete, Error>
    requires index < |hex.witnesses|
  {
    if accepted then Ok(hex.(witnesses := hex.witnesses[index := Some(data)])) else Err(NativeError)
  }

  predicate AllWitnessed(hex: Incomplete) {
    forall i :: 0 <= i < |hex.witnesses| ==> hex.witnesses[i].Some?
  }

  function TotalIn(inputs: seq<Input>): int {
    if inputs == [] then 0 else TotalIn(inputs[..|inputs| - 1]) + inputs[|inputs| - 1].prevOutput.value
  }

  function TotalOut(outputs: seq<Output>): int {
    if outputs == [] then 0 else TotalOut(outputs[..|outputs| - 1]) + outputs[|outputs| - 1].value
  }

  /** The totals are sums over the lists. */
  lemma {:induction false} TotalsAreSums(a: seq<Input>, b: seq<Input>, c: seq<Output>, d: seq<Output>)
    ensures TotalIn(a + b) == TotalIn(a) + TotalIn(b) && TotalOut(c + d) == TotalOut(c) + TotalOut(d)
    ensures forall i: Input :: TotalIn([i]) == i.prevOutput.value
    ensures forall o: Output :: TotalOut([o]) == o.value
    decreases |b| + |d|
  {
    if b != [] {
      TotalsAreSums(a, b[..|b| - 1], [], []);
      assert (a + b)[..|a + b| - 1] == a + b[..|b| - 1];
    } else {
      assert a + b == a;
    }
    if d != [] {
      TotalsAreSums([], [], c, d[..|d| - 1]);
      assert (c + d)[..|c + d| - 1] == c + d[..|d| - 1];
    } else {
      assert c + d == c;
    }
  }

  /** Changing the amount of the last output does not change the size of the transaction. */
  lemma ShapeIgnoresLastAmount(
      chain: byte, inputs: seq<Input>, outputs: seq<Output>, viewKeys: seq<Bytes>, address: string, v: int, w: int)
    ensures ShapeOf(Rebuild(chain, inputs, outputs + [Output(address, v, None)], viewKeys))
         == ShapeOf(Rebuild(chain, inputs, outputs + [Output(address, w, None)], viewKeys))
  {
    var a := ShapeOf(Rebuild(chain, inputs, outputs + [Output(address, v, None)], viewKeys));
    var b := ShapeOf(Rebuild(chain, inputs, outputs + [Output(address, w, None)], viewKeys));
    assert a.timed == b.timed && a.leaves == b.leaves;
  }
}
