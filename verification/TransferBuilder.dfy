/**
 * The transfer transaction builder (lib/src/transaction/transfer/transfer_transaction_builder.ts): the same lists as
 * the plain machine, and a transaction that is built when first signed and dropped whenever a list grows.
 */
module TransferBuilder {
  import opened Wrappers
  import opened Bytes
  import opened SharedTypes
  import opened TransferTransaction
  import opened PlainTransfer

  function WitnessMap(witnesses: seq<Option<Bytes>>): map<nat, Bytes> {
    map i: nat | i < |witnesses| && witnesses[i].Some? :: witnesses[i].value
  }

  class TransferTransactionBuilder {
    const env: Env
    var inputs: seq<Input>
    var outputs: seq<Output>
    var viewKeys: seq<Bytes>
    var incompleteHex: Option<Incomplete>

    /** A cached transaction is the one the current fields build, with a place for the witness of every input. */
    ghost predicate Valid()
      reads this
    {
      incompleteHex.Some? ==>
        && inputs != [] && env.linearFee && Recordable(env.overflowChecks, inputs)
        && incompleteHex.value.tx == Rebuild(env.chain, inputs, outputs, viewKeys)
        && |incompleteHex.value.witnesses| == |inputs|
    }

    /** The plain machine this builder stands for. */
    ghost function Abs(): Plain
      reads this
    {
      Plain(inputs, outputs, viewKeys, if incompleteHex.None? then map[] else WitnessMap(incompleteHex.value.witnesses))
    }

    constructor (env: Env)
      ensures Valid() && Abs() == EMPTY && this.env == env
    {
      this.env := env;
      inputs, outputs, viewKeys, incompleteHex := [], [], [], None;
    }

    method AddInputCall(input: Input) returns (r: Result<Reply, Error>)
      requires Valid()
      modifies this`inputs, this`incompleteHex
      ensures Valid() && (Abs(), r) == Perform(env, old(Abs()), AddInput(input))
      ensures r.Ok? <==>
        && 0 <= input.prevOutput.value <= 10_000_000_000_000_000_000 && env.inNetwork(input.prevOutput.address)
        && 0 < input.addressParams.requiredSigners <= input.addressParams.totalSigners
      ensures r.Ok? ==> inputs == old(inputs) + [input] && incompleteHex == None
    {
      if !ValidInput(input) {
        return Err(InvalidArgument);
      }
      if !env.inNetwork(input.prevOutput.address) {
        return Err(WrongNetwork);
      }
      incompleteHex := None;
      inputs := inputs + [input];
      r := Ok(Done);
    }

    method AddOutputCall(output: Output) returns (r: Result<Reply, Error>)
      requires Valid()
      modifies this`outputs, this`incompleteHex
      ensures Valid() && (Abs(), r) == Perform(env, old(Abs()), AddOutput(output))
      ensures r.Ok? <==> 0 <= output.value <= 10_000_000_000_000_000_000 && env.inNetwork(output.address)
      ensures r.Ok? ==> outputs == old(outputs) + [output] && incompleteHex == None
    {
      if !ValidOutput(output) {
        return Err(InvalidArgument);
      }
      if !env.inNetwork(output.address) {
        return Err(WrongNetwork);
      }
      incompleteHex := None;
      outputs := outputs + [output];
      r := Ok(Done);
    }

    method AddViewKeyCall(viewKey: Bytes) returns (r: Result<Reply, Error>)
      requires Valid()
      modifies this`viewKeys, this`incompleteHex
      ensures Valid() && (Abs(), r) == Perform(env, old(Abs()), AddViewKey(viewKey))
      ensures r.Ok? <==> env.validViewKey(viewKey)
      ensures r.Ok? ==> viewKeys == old(viewKeys) + [viewKey] && incompleteHex == None
    {
      if !env.validViewKey(viewKey) {
        return Err(InvalidArgument);
      }
      incompleteHex := None;
      viewKeys := viewKeys + [viewKey];
      r := Ok(Done);
    }

    /** Builds the transaction afresh from the fields, whatever is cached. */
    method BuildIncompleteHex() returns (r: Result<Incomplete, Error>)
      ensures r == if !env.linearFee then Err(UnsupportedFeeAlgorithm)
                   else if !Recordable(env.overflowChecks, inputs) then Err(NativeError)
                   else Ok(Incomplete(Rebuild(env.chain, inputs, outputs, viewKeys), NoWitnesses(|inputs|)))
    {
      if !env.linearFee {
        return Err(UnsupportedFeeAlgorithm);
      }
      r := BuildIncomplete(env.overflowChecks, env.chain, inputs, outputs, viewKeys);
    }

    /** Makes sure a transaction is cached; this alone does not change the plain machine. */
    method PrepareIncompleteSigningHex() returns (r: Result<Incomplete, Error>)
      requires Valid() && inputs != []
      modifies this`incompleteHex
      ensures Valid() && Abs() == old(Abs())
      ensures r == if Built(env, Abs()).Err? then Err(Built(env, Abs()).error) else Ok(Built(env, Abs()).value)
      ensures r.Ok? ==> incompleteHex == Some(r.value)
    {
      if incompleteHex == None {
        var built := BuildIncompleteHex();
        if built.Err? {
          return built;
        }
        incompleteHex := Some(built.value);
        NothingWitnessed(|inputs|);
        assert Abs() == old(Abs());
      }
      CacheIsBuilt();
      r := Ok(incompleteHex.value);
    }

    /** The cached transaction carries the witnesses of the plain machine, in input order. */
    lemma CacheIsBuilt()
      requires Valid() && incompleteHex.Some?
      ensures Built(env, Abs()) == Ok(incompleteHex.value)
    {
      assert Witnesses(Abs()) == incompleteHex.value.witnesses;
    }

    lemma CompletedMeansAllWitnessed()
      requires Valid()
      ensures Completed(Abs()) <==> incompleteHex.Some? && AllWitnessed(incompleteHex.value)
    {
      if incompleteHex.Some? {
        var witnesses := incompleteHex.value.witnesses;
        assert forall i :: 0 <= i < |inputs| ==> (i in WitnessMap(witnesses) <==> witnesses[i].Some?);
      } else if inputs != [] {
        assert 0 !in Abs().witnesses;
      }
    }

    method SignInputCall(index: int, keyPair: KeyPair, accepted: bool) returns (r: Result<Reply, Error>)
      requires Valid()
      modifies this`incompleteHex
      ensures Valid() && (Abs(), r) == Perform(env, old(Abs()), SignInput(index, keyPair, accepted))
    {
      if !(0 <= index < |inputs|) {
        return Err(InvalidArgument);
      }
      if !keyPair.hasPrivateKey {
        return Err(NoPrivateKey);
      }
      if inputs[index].prevOutput.address != env.addressOf(keyPair) {
        return Err(NotSignable);
      }
      var prepared := PrepareIncompleteSigningHex();
      if prepared.Err? {
        return Err(prepared.error);
      }
      var data := env.sign(keyPair, env.txId(prepared.value.tx));
      var updated := AddNativeWitness(prepared.value, index, data, accepted);
      if updated.Err? {
        return Err(updated.error);
      }
      incompleteHex := Some(updated.value);
      OneMoreWitness(prepared.value.witnesses, index, data);
      r := Ok(Done);
    }

    method AddWitnessCall(index: int, data: Bytes, accepted: bool) returns (r: Result<Reply, Error>)
      requires Valid()
      modifies this`incompleteHex
      ensures Valid() && (Abs(), r) == Perform(env, old(Abs()), AddWitness(index, data, accepted))
    {
      if !(0 <= index < |inputs|) {
        return Err(InvalidArgument);
      }
      var prepared := PrepareIncompleteSigningHex();
      if prepared.Err? {
        return Err(prepared.error);
      }
      var decoded := env.witnessOf(data);
      var updated := AddNativeWitness(prepared.value, index, decoded, accepted);
      if updated.Err? {
        return Err(updated.error);
      }
      incompleteHex := Some(updated.value);
      OneMoreWitness(prepared.value.witnesses, index, decoded);
      r := Ok(Done);
    }

    method TxIdCall() returns (r: Result<Reply, Error>)
      requires Valid()
      ensures r == Perform(env, Abs(), TxId).1
      ensures r.Ok? && incompleteHex.Some? ==> r == Ok(Id(env.txId(incompleteHex.value.tx)))
    {
      if inputs == [] {
        return Err(NoInput);
      }
      var built := BuildIncompleteHex();
      if built.Err? {
        return Err(built.error);
      }
      r := Ok(Id(env.txId(built.value.tx)));
    }

    method EstimateFeeCall() returns (r: Result<Reply, Error>)
      requires Valid()
      ensures r == Perform(env, Abs(), EstimateFee).1
    {
      if !env.linearFee {
        return Err(UnsupportedFeeAlgorithm);
      }
      if inputs == [] {
        return Err(NoInput);
      }
      if outputs == [] {
        return Err(NoOutput);
      }
      var built := BuildIncompleteHex();
      if built.Err? {
        return Err(built.error);
      }
      var fee := env.fee(ShapeOf(built.value.tx));
      r := if fee == None then Err(NativeError) else Ok(Fee(fee.value));
    }

    method IsCompletedCall() returns (r: Result<Reply, Error>)
      requires Valid()
      ensures r == Perform(env, Abs(), IsCompleted).1
    {
      CompletedMeansAllWitnessed();
      if incompleteHex == None {
        return Ok(Flag(false));
      }
      if !env.linearFee {
        return Err(UnsupportedFeeAlgorithm);
      }
      r := Ok(Flag(AllWitnessed(incompleteHex.value)));
    }

    method ToIncompleteHexCall() returns (r: Result<Reply, Error>)
      requires Valid()
      ensures r == Perform(env, Abs(), ToIncompleteHex).1
    {
      if incompleteHex.Some? {
        CacheIsBuilt();
        return Ok(Hex(incompleteHex.value));
      }
      var built := BuildIncompleteHex();
      if built.Err? {
        return Err(built.error);
      }
      assert Witnesses(Abs()) == NoWitnesses(|inputs|);
      r := Ok(Hex(built.value));
    }

    /** The native check accepts only a transaction that could be broadcast, so one with every witness. */
    method VerifyCall(accepted: bool) returns (r: Result<Reply, Error>)
      requires Valid()
      ensures r == Perform(env, Abs(), Verify(accepted)).1
    {
      if inputs == [] {
        return Err(NoInput);
      }
      if outputs == [] {
        return Err(NoOutput);
      }
      if !env.linearFee {
        return Err(UnsupportedFeeAlgorithm);
      }
      CompletedMeansAllWitnessed();
      if incompleteHex == None || !AllWitnessed(incompleteHex.value) || !accepted {
        return Err(NativeError);
      }
      r := Ok(Done);
    }

    method ToHexCall(verified: bool, exported: bool) returns (r: Result<Reply, Error>)
      requires Valid()
      ensures r == Perform(env, Abs(), ToHex(verified, exported)).1
    {
      if inputs == [] {
        return Err(NoInput);
      }
      if outputs == [] {
        return Err(NoOutput);
      }
      var completed := IsCompletedCall();
      if completed.Err? {
        return completed;
      }
      if !completed.value.flag {
        return Err(NotCompleted);
      }
      var verification := VerifyCall(verified);
      if verification.Err? {
        return verification;
      }
      if !exported {
        return Err(NativeError);
      }
      CompletedMeansAllWitnessed();
      CacheIsBuilt();
      r := Ok(Hex(incompleteHex.value));
    }

    method Clone() returns (c: TransferTransactionBuilder)
      requires Valid()
      ensures fresh(c) && c.Valid() && c.Abs() == Abs() && c.env == env
      ensures c.inputs == inputs && c.outputs == outputs && c.viewKeys == viewKeys && c.incompleteHex == incompleteHex
    {
      c := new TransferTransactionBuilder(env);
      c.inputs, c.outputs, c.viewKeys, c.incompleteHex := inputs, outputs, viewKeys, incompleteHex;
    }

    method Call(op: Op) returns (r: Result<Reply, Error>)
      requires Valid()
      modifies this
      ensures Valid() && (Abs(), r) == Perform(env, old(Abs()), op)
    {
      match op
      case AddInput(input) => r := AddInputCall(input);
      case AddOutput(output) => r := AddOutputCall(output);
      case AddViewKey(viewKey) => r := AddViewKeyCall(viewKey);
      case SignInput(index, keyPair, accepted) => r := SignInputCall(index, keyPair, accepted);
      case AddWitness(index, data, accepted) => r := AddWitnessCall(index, data, accepted);
      case TxId => r := TxIdCall();
      case EstimateFee => r := EstimateFeeCall();
      case IsCompleted => r := IsCompletedCall();
      case ToIncompleteHex => r := ToIncompleteHexCall();
      case Verify(accepted) => r := VerifyCall(accepted);
      case ToHex(verified, exported) => r := ToHexCall(verified, exported);
    }

    /** Every sequence of calls, failing ones included, behaves as on the plain machine. */
    method CallAll(ops: seq<Op>) returns (replies: seq<Result<Reply, Error>>)
      requires Valid()
      modifies this
      ensures Valid() && (Abs(), replies) == PerformAll(env, old(Abs()), ops)
    {
      replies := [];
      for i := 0 to |ops|
        invariant Valid() && (Abs(), replies) == PerformAll(env, old(Abs()), ops[..i])
      {
        var r := Call(ops[i]);
        replies := replies + [r];
        assert ops[..i + 1][..i] == ops[..i];
      }
      assert ops[..|ops|] == ops;
    }

    /**
     * Estimating the fee on a clone that carries the whole surplus, then adding the change that is left. It succeeds
     * when there is an estimate and the surplus is a coin that covers it, and then the inputs pay exactly the outputs
     * and the fee of the finished transaction; when it fails the builder is as before.
     */
    method AddChange(address: string, surplus: int) returns (r: Result<nat, Error>)
      requires Valid() && TotalIn(inputs) == TotalOut(outputs) + surplus
      modifies this
      ensures Valid() && (r.Err? ==> Abs() == old(Abs()))
      ensures r.Ok? ==> Abs() == WithChange(old(Abs()), address, surplus - r.value)
      ensures r.Ok? ==> Perform(env, Abs(), EstimateFee).1 == Ok(Fee(r.value))
      ensures r.Ok? ==> outputs == old(outputs) + [Output(address, surplus - r.value, None)]
      ensures inputs == old(inputs) && viewKeys == old(viewKeys)
      ensures r.Ok? ==> TotalIn(inputs) == TotalOut(outputs) + r.value
      ensures r.Ok? <==> CanPayFee(env, old(Abs()), address, surplus)
      ensures r.Ok? <==>
        && env.inNetwork(address) && surplus <= 10_000_000_000_000_000_000
        && var estimator := Plain(
             old(inputs), old(outputs) + [Output(address, surplus, None)], old(viewKeys), map[]);
           var estimate := Perform(env, estimator, EstimateFee).1;
           estimate.Ok? && estimate.value.Fee? && estimate.value.fee <= surplus
    {
      CanPayFeeByEstimate(env, Abs(), address, surplus);
      var estimator := Clone();
      var added := estimator.AddOutputCall(Output(address, surplus, None));
      if added.Err? {
        return Err(added.error);
      }
      EstimateWithChange(env, Abs(), address, surplus);
      assert estimator.Abs() == WithChange(Abs(), address, surplus);
      var estimated := estimator.EstimateFeeCall();
      if estimated.Err? {
        return Err(estimated.error);
      }
      var fee := estimated.value.fee;
      EstimateWithChange(env, Abs(), address, surplus - fee);
      TotalWithChange(outputs, address, surplus - fee);
      var finished := AddOutputCall(Output(address, surplus - fee, None));
      if finished.Err? {
        return Err(finished.error);
      }
      r := Ok(fee);
    }
  }

  function WithChange(p: Plain, address: string, amount: int): Plain {
    p.(outputs := p.outputs + [Output(address, amount, None)], witnesses := map[])
  }

  predicate CanPayFee(env: Env, p: Plain, address: string, surplus: int) {
    && env.linearFee && p.inputs != [] && Recordable(env.overflowChecks, p.inputs) && env.inNetwork(address)
    && FeeWithChange(env, p, address).Some? && FeeWithChange(env, p, address).value <= surplus <= MAX_COIN
  }

  lemma CanPayFeeByEstimate(env: Env, p: Plain, address: string, surplus: int)
    ensures var estimator := Plain(p.inputs, p.outputs + [Output(address, surplus, None)], p.viewKeys, map[]);
      var estimate := Perform(env, estimator, EstimateFee).1;
      CanPayFee(env, p, address, surplus) <==>
        && env.inNetwork(address) && surplus <= 10_000_000_000_000_000_000
        && estimate.Ok? && estimate.value.Fee? && estimate.value.fee <= surplus
  {
    EstimateWithChange(env, p, address, surplus);
  }

  /** The fee once a change output to `address` is there, whatever its amount. */
  function FeeWithChange(env: Env, p: Plain, address: string): Option<nat> {
    env.fee(ShapeOf(Rebuild(env.chain, p.inputs, p.outputs + [Output(address, 0, None)], p.viewKeys)))
  }

  lemma NothingWitnessed(n: nat)
    ensures WitnessMap(NoWitnesses(n)) == map[]
  {
  }

  lemma OneMoreWitness(witnesses: seq<Option<Bytes>>, index: nat, data: Bytes)
    requires index < |witnesses|
    ensures WitnessMap(witnesses[index := Some(data)]) == WitnessMap(witnesses)[index := data]
  {
  }

  lemma EstimateWithChange(env: Env, p: Plain, address: string, amount: int)
    ensures var r := Perform(env, WithChange(p, address, amount), EstimateFee).1;
      if env.linearFee && p.inputs != [] && Recordable(env.overflowChecks, p.inputs)
         && FeeWithChange(env, p, address).Some?
      then r == Ok(Fee(FeeWithChange(env, p, address).value)) else r.Err?
  {
    ShapeIgnoresLastAmount(env.chain, p.inputs, p.outputs, p.viewKeys, address, amount, 0);
  }

  lemma TotalWithChange(outputs: seq<Output>, address: string, amount: int)
    ensures TotalOut(outputs + [Output(address, amount, None)]) == TotalOut(outputs) + amount
  {
    var all := outputs + [Output(address, amount, None)];
    assert all[..|all| - 1] == outputs;
  }
}
