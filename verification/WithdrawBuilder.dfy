/**
 * The builder of withdraw-unbonded transactions (lib/src/transaction/staking/withdraw_unbonded_transaction_builder.ts)
 * and the plain machine it refines.
 *
 * Growing a list drops the cached transaction but not the witness. The plain machine therefore remembers of a
 * signature which lists it was made over.
 */
module WithdrawBuilder {
  import opened Wrappers
  import opened Bytes
  import opened History
  import opened SharedTypes

  const MAX_OUTPUT_SIZE := 65536
  const WITNESS_SIZE := 66
  const UNSIGNED_PREFIX: Bytes := [0, 2]
  const PLAIN_PREFIX: Bytes := [0]

  datatype Output = Output(address: string, value: int, validFrom: nat)

  /** The unsigned transaction; its encoding is one-to-one. */
  datatype RawWithdraw = RawWithdraw(nonce: nat, outputs: seq<Output>, viewKeys: seq<Bytes>, chain: byte)

  datatype Env = Env(
    nonce: nat,
    chain: byte,
    inNetwork: string -> bool,
    validViewKey: Bytes -> bool,
    fee: RawWithdraw -> Option<nat>,
    txId: RawWithdraw -> Bytes,
    sign: (KeyPair, Bytes) -> Bytes)

  /** Different transactions have different ids. */
  ghost predicate InjectiveId(env: Env) {
    forall a, b :: env.txId(a) == env.txId(b) ==> a == b
  }

  datatype Error = InvalidArgument | TooManyOutputs | WrongNetwork | NoOutput | NotSigned | NativeError

  datatype Stamp =
    | Unsigned
    | SignedOver(keyPair: KeyPair, outputs: seq<Output>, viewKeys: seq<Bytes>)
    | HandedIn(data: Bytes)

  /** `prepared`: whether a transaction is cached. */
  datatype Plain = Plain(outputs: seq<Output>, viewKeys: seq<Bytes>, stamp: Stamp, prepared: bool)

  const EMPTY := Plain([], [], Unsigned, false)

  /** `accepted` is whether the native call the operation ends in succeeds. */
  datatype Op =
    | AddOutput(output: Output)
    | AddViewKey(viewKey: Bytes)
    | EstimateFee
    | TxId
    | ToUnsignedHex
    | Sign(keyPair: KeyPair, accepted: bool)
    | AddWitness(data: Bytes)
    | GetWitness
    | IsCompleted
    | GetTotalOutputAmount
    | ToSignedPlainHex(accepted: bool)
    | ToHex(accepted: bool)

  datatype Reply =
    | Done | Id(id: Bytes) | Fee(fee: nat) | Amount(amount: int) | Flag(flag: bool) | Witness(data: Bytes)
    | Raw(prefix: Bytes, raw: RawWithdraw) | SignedPlain(prefix: Bytes, tx: RawWithdraw, data: Bytes)
    | Signed(tx: RawWithdraw, data: Bytes)

  predicate ValidOutput(o: Output) {
    0 <= o.value <= MAX_COIN
  }

  function Over(env: Env, outputs: seq<Output>, viewKeys: seq<Bytes>): RawWithdraw {
    RawWithdraw(env.nonce, outputs, viewKeys, env.chain)
  }

  function Tx(env: Env, p: Plain): RawWithdraw {
    Over(env, p.outputs, p.viewKeys)
  }

  /** The witness bytes the builder holds. */
  function Meaning(env: Env, stamp: Stamp): Option<Bytes> {
    match stamp
    case Unsigned => None
    case SignedOver(keyPair, outputs, viewKeys) => Some(env.sign(keyPair, env.txId(Over(env, outputs, viewKeys))))
    case HandedIn(data) => Some(data)
  }

  function Total(outputs: seq<Output>): int {
    if outputs == [] then 0 else Total(outputs[..|outputs| - 1]) + outputs[|outputs| - 1].value
  }

  /** Caching a transaction; the native side refuses a nonce that does not fit 64 bits. */
  function Prepare(env: Env, p: Plain): (Plain, Result<(), Error>) {
    if p.prepared then (p, Ok(()))
    else if p.outputs == [] then (p, Err(NoOutput))
    else if env.nonce >= U64_SIZE then (p, Err(NativeError))
    else (p.(prepared := true), Ok(()))
  }

  function Perform(env: Env, p: Plain, op: Op): (Plain, Result<Reply, Error>) {
    match op
    case AddOutput(output) =>
      if !ValidOutput(output) then (p, Err(InvalidArgument))
      else if |p.outputs| == MAX_OUTPUT_SIZE then (p, Err(TooManyOutputs))
      else if !env.inNetwork(output.address) then (p, Err(WrongNetwork))
      else (p.(outputs := p.outputs + [output], prepared := false), Ok(Done))
    case AddViewKey(viewKey) =>
      if !env.validViewKey(viewKey) then (p, Err(InvalidArgument))
      else (p.(viewKeys := p.viewKeys + [viewKey], prepared := false), Ok(Done))
    case EstimateFee =>
      var (q, r) := Prepare(env, p);
      (q, if r.Err? then Err(r.error)
          else match env.fee(Tx(env, q))
               case None => Err(NativeError)
               case Some(fee) => Ok(Fee(fee)))
    case TxId =>
      var (q, r) := Prepare(env, p);
      (q, if r.Err? then Err(r.error) else Ok(Id(env.txId(Tx(env, q)))))
    case ToUnsignedHex =>
      var (q, r) := Prepare(env, p);
      (q, if r.Err? then Err(r.error) else Ok(Raw(UNSIGNED_PREFIX, Tx(env, q))))
    case Sign(keyPair, accepted) =>
      var (q, r) := Prepare(env, p);
      if r.Err? then (q, Err(r.error))
      else if !accepted then (q, Err(NativeError))
      else (q.(stamp := SignedOver(keyPair, q.outputs, q.viewKeys)), Ok(Done))
    case AddWitness(data) =>
      if |data| != WITNESS_SIZE then (p, Err(InvalidArgument))
      else
        var (q, r) := Prepare(env, p);
        if r.Err? then (q, Err(r.error)) else (q.(stamp := HandedIn(data)), Ok(Done))
    case GetWitness => (p, if p.stamp.Unsigned? then Err(NotSigned) else Ok(Witness(Meaning(env, p.stamp).value)))
    case IsCompleted => (p, Ok(Flag(p.outputs != [] && !p.stamp.Unsigned?)))
    case GetTotalOutputAmount => (p, Ok(Amount(Total(p.outputs))))
    case ToSignedPlainHex(accepted) =>
      (p, if p.stamp.Unsigned? then Err(NotSigned)
          else if !p.prepared || !accepted then Err(NativeError)
          else Ok(SignedPlain(PLAIN_PREFIX, Tx(env, p), Meaning(env, p.stamp).value)))
    case ToHex(accepted) =>
      var (q, r) := Prepare(env, p);
      (q, if r.Err? then Err(r.error)
          else if q.stamp.Unsigned? then Err(NotSigned)
          else if !accepted then Err(NativeError)
          else Ok(Signed(Tx(env, q), Meaning(env, q.stamp).value)))
  }

  function Performing(env: Env): (Plain, Op) -> (Plain, Result<Reply, Error>) {
    (p, op) => Perform(env, p, op)
  }

  function PerformAll(env: Env, p: Plain, ops: seq<Op>): (Plain, seq<Result<Reply, Error>>) {
    RunAll(Performing(env), p, ops)
  }

  function StateAfter(env: Env, ops: seq<Op>): Plain {
    PerformAll(env, EMPTY, ops).0
  }

  function Replies(env: Env, ops: seq<Op>): (r: seq<Result<Reply, Error>>)
    ensures |r| == |ops|
  {
    PerformAll(env, EMPTY, ops).1
  }

  lemma OneMoreCall(env: Env, ops: seq<Op>, op: Op)
    ensures var (after, reply) := Perform(env, StateAfter(env, ops), op);
      StateAfter(env, ops + [op]) == after && Replies(env, ops + [op]) == Replies(env, ops) + [reply]
  {
    RunOneMore(Performing(env), EMPTY, ops, op);
  }

  // ----- What a builder holds and answers after any run, read off the calls and their replies

  function OutputOf(op: Op): Option<Output> {
    if op.AddOutput? then Some(op.output) else None
  }

  function ViewKeyOf(op: Op): Option<Bytes> {
    if op.AddViewKey? then Some(op.viewKey) else None
  }

  /** The outputs and view keys of the successful add calls, in call order. */
  function OutputsAdded(env: Env, ops: seq<Op>): seq<Output> {
    Added(ops, Replies(env, ops), OutputOf)
  }

  function ViewKeysAdded(env: Env, ops: seq<Op>): seq<Bytes> {
    Added(ops, Replies(env, ops), ViewKeyOf)
  }

  predicate IsAdd(op: Op) {
    op.AddOutput? || op.AddViewKey?
  }

  predicate GivesWitness(op: Op) {
    op.Sign? || op.AddWitness?
  }

  lemma ListsOneMore(env: Env, ops: seq<Op>, op: Op)
    ensures var ok := Perform(env, StateAfter(env, ops), op).1.Ok?;
      && OutputsAdded(env, ops + [op])
         == OutputsAdded(env, ops) + (if ok && op.AddOutput? then [op.output] else [])
      && ViewKeysAdded(env, ops + [op])
         == ViewKeysAdded(env, ops) + (if ok && op.AddViewKey? then [op.viewKey] else [])
  {
    OneMoreCall(env, ops, op);
    var reply := Perform(env, StateAfter(env, ops), op).1;
    AddedOneMore(ops, Replies(env, ops), op, reply, OutputOf);
    AddedOneMore(ops, Replies(env, ops), op, reply, ViewKeyOf);
  }

  lemma {:induction false} ListsHistory(env: Env, ops: seq<Op>)
    ensures var p := StateAfter(env, ops);
      && p.outputs == OutputsAdded(env, ops) && p.viewKeys == ViewKeysAdded(env, ops)
      && |p.outputs| <= 65536 && (p.prepared ==> p.outputs != [] && env.nonce < 0x1_0000_0000_0000_0000)
  {
    if ops != [] {
      var front, op := ops[..|ops| - 1], ops[|ops| - 1];
      ListsHistory(env, front);
      OneMoreCall(env, front, op);
      ListsOneMore(env, front, op);
      assert front + [op] == ops;
    }
  }

  /** No call from `t` on added anything. */
  ghost predicate NothingAddedFrom(env: Env, ops: seq<Op>, t: nat) {
    forall u :: t <= u < |ops| && Replies(env, ops)[u].Ok? ==> !IsAdd(ops[u])
  }

  /** The lists only grow, and they are still what they were at some call exactly when nothing was added since. */
  lemma {:induction false} ListsGrow(env: Env, ops: seq<Op>, t: nat)
    requires t <= |ops|
    ensures OutputsAdded(env, ops[..t]) <= OutputsAdded(env, ops)
    ensures ViewKeysAdded(env, ops[..t]) <= ViewKeysAdded(env, ops)
    ensures NothingAddedFrom(env, ops, t) <==>
      OutputsAdded(env, ops[..t]) == OutputsAdded(env, ops) && ViewKeysAdded(env, ops[..t]) == ViewKeysAdded(env, ops)
    decreases |ops|
  {
    if t == |ops| {
      assert ops[..t] == ops;
    } else {
      var front, op := ops[..|ops| - 1], ops[|ops| - 1];
      ListsGrow(env, front, t);
      ListsOneMore(env, front, op);
      OneMoreCall(env, front, op);
      assert front + [op] == ops && front[..t] == ops[..t];
      NothingAddedOneMore(env, front, op, t);
    }
  }

  lemma NothingAddedOneMore(env: Env, ops: seq<Op>, op: Op, t: nat)
    requires t <= |ops|
    ensures NothingAddedFrom(env, ops + [op], t) <==>
      NothingAddedFrom(env, ops, t) && (Perform(env, StateAfter(env, ops), op).1.Ok? ==> !IsAdd(op))
  {
    OneMoreCall(env, ops, op);
    var all := Replies(env, ops + [op]);
    assert all[|ops|] == Perform(env, StateAfter(env, ops), op).1 && (ops + [op])[|ops|] == op;
    assert forall u :: 0 <= u < |ops| ==> all[u] == Replies(env, ops)[u] && (ops + [op])[u] == ops[u];
  }

  /** Call `t` gave the witness, and no later call gave another. */
  ghost predicate GivenAt(env: Env, ops: seq<Op>, t: nat) {
    StandsAt(ops, Replies(env, ops), GivesWitness, GivesWitness, t)
  }

  ghost predicate IsGiven(env: Env, ops: seq<Op>) {
    exists t: nat :: GivenAt(env, ops, t)
  }

  lemma GivenAtOneMore(env: Env, ops: seq<Op>, op: Op, t: nat)
    ensures var reply := Perform(env, StateAfter(env, ops), op).1;
      GivenAt(env, ops + [op], t) <==>
        || (t < |ops| && GivenAt(env, ops, t) && (reply.Ok? ==> !GivesWitness(op)))
        || (t == |ops| && reply.Ok? && GivesWitness(op))
  {
    OneMoreCall(env, ops, op);
    StandsAfterOneMore(
      ops, Replies(env, ops), op, Perform(env, StateAfter(env, ops), op).1, GivesWitness, GivesWitness, t);
  }

  lemma GivenInOneMore(env: Env, ops: seq<Op>, op: Op)
    ensures IsGiven(env, ops + [op]) <==>
      IsGiven(env, ops) || (Perform(env, StateAfter(env, ops), op).1.Ok? && GivesWitness(op))
  {
    if t: nat :| GivenAt(env, ops + [op], t) {
      GivenAtOneMore(env, ops, op, t);
    }
    if t: nat :| GivenAt(env, ops, t) {
      GivenAtOneMore(env, ops, op, t);
    }
    GivenAtOneMore(env, ops, op, |ops|);
  }

  /** What the plain machine keeps of the witness that call `t` gave; a signature is over the lists as of that call. */
  predicate IsStampBy(env: Env, ops: seq<Op>, t: nat, stamp: Stamp)
    requires t < |ops|
  {
    match ops[t]
    case Sign(keyPair, _) => stamp == SignedOver(keyPair, OutputsAdded(env, ops[..t]), ViewKeysAdded(env, ops[..t]))
    case AddWitness(data) => stamp == HandedIn(data)
    case _ => false
  }

  ghost predicate StampKnown(env: Env, ops: seq<Op>, stamp: Stamp) {
    && (IsGiven(env, ops) <==> stamp != Unsigned)
    && forall t: nat {:trigger GivenAt(env, ops, t)} :: GivenAt(env, ops, t) ==> IsStampBy(env, ops, t, stamp)
  }

  /** Where the witness comes from: the last call that gave one, whatever was added since. */
  lemma {:induction false} StampHistory(env: Env, ops: seq<Op>)
    ensures StampKnown(env, ops, StateAfter(env, ops).stamp)
  {
    if ops != [] {
      var front, op := ops[..|ops| - 1], ops[|ops| - 1];
      StampHistory(env, front);
      assert front + [op] == ops;
      StampStep(env, front, op);
    }
  }

  lemma StampStep(env: Env, ops: seq<Op>, op: Op)
    requires StampKnown(env, ops, StateAfter(env, ops).stamp)
    ensures StampKnown(env, ops + [op], StateAfter(env, ops + [op]).stamp)
  {
    OneMoreCall(env, ops, op);
    ListsHistory(env, ops);
    GivenInOneMore(env, ops, op);
    var (p, q) := (StateAfter(env, ops), StateAfter(env, ops + [op]));
    StampAfter(env, p, op);
    forall t: nat | GivenAt(env, ops + [op], t)
      ensures IsStampBy(env, ops + [op], t, q.stamp)
    {
      GivenAtOneMore(env, ops, op, t);
      if t == |ops| {
        assert (ops + [op])[..t] == ops;
      } else {
        assert (ops + [op])[..t] == ops[..t];
      }
    }
  }

  lemma StampAfter(env: Env, p: Plain, op: Op)
    ensures var (q, reply) := Perform(env, p, op);
      if reply.Ok? && op.Sign? then q.stamp == SignedOver(op.keyPair, p.outputs, p.viewKeys)
      else if reply.Ok? && op.AddWitness? then q.stamp == HandedIn(op.data)
      else q.stamp == p.stamp
  {
  }

  /** The bytes of the witness that call `t` gave; a signature is over the transaction as it was at that call. */
  predicate IsWitnessBy(env: Env, ops: seq<Op>, t: nat, data: Bytes)
    requires t < |ops|
  {
    match ops[t]
    case Sign(keyPair, _) =>
      var signed := RawWithdraw(env.nonce, OutputsAdded(env, ops[..t]), ViewKeysAdded(env, ops[..t]), env.chain);
      data == env.sign(keyPair, env.txId(signed))
    case AddWitness(handedIn) => data == handedIn
    case _ => false
  }

  lemma HeldWitness(env: Env, ops: seq<Op>)
    ensures var held := Meaning(env, StateAfter(env, ops).stamp);
      && (held.Some? <==> IsGiven(env, ops))
      && forall t: nat {:trigger GivenAt(env, ops, t)} :: GivenAt(env, ops, t) ==>
           held.Some? && IsWitnessBy(env, ops, t, held.value)
  {
    StampHistory(env, ops);
  }

  /** Signing by `keyPair`. */
  function SignsBy(keyPair: KeyPair): Op -> bool {
    (op: Op) => op.Sign? && op.keyPair == keyPair
  }

  function Outdates(): Op -> bool {
    (op: Op) => IsAdd(op) || GivesWitness(op)
  }

  /** Call `t` signed with `keyPair`, and no later call added anything or gave another witness. */
  ghost predicate FreshlySigned(env: Env, ops: seq<Op>, keyPair: KeyPair, t: nat) {
    StandsAt(ops, Replies(env, ops), SignsBy(keyPair), Outdates(), t)
  }

  /** The witness held was made by `keyPair` over the id of the transaction as it is now. */
  ghost predicate SignsCurrent(env: Env, ops: seq<Op>, keyPair: KeyPair) {
    exists t: nat ::
      && GivenAt(env, ops, t) && ops[t].Sign? && ops[t].keyPair == keyPair
      && env.txId(RawWithdraw(env.nonce, OutputsAdded(env, ops[..t]), ViewKeysAdded(env, ops[..t]), env.chain))
         == env.txId(RawWithdraw(env.nonce, OutputsAdded(env, ops), ViewKeysAdded(env, ops), env.chain))
  }

  lemma FreshIsGivenAndNothingAdded(env: Env, ops: seq<Op>, keyPair: KeyPair, t: nat)
    ensures FreshlySigned(env, ops, keyPair, t) <==>
      GivenAt(env, ops, t) && ops[t].Sign? && ops[t].keyPair == keyPair && NothingAddedFrom(env, ops, t)
  {
  }

  /**
   * In every run, the witness signs the current transaction exactly when the last call of `sign` was followed by no
   * `addOutput`, `addViewKey` or `addWitness`. So a signature that has gone stale never becomes right again.
   */
  lemma SignsCurrentExactlyWhenFresh(env: Env, ops: seq<Op>, keyPair: KeyPair)
    requires InjectiveId(env)
    ensures SignsCurrent(env, ops, keyPair) <==> exists t: nat :: FreshlySigned(env, ops, keyPair, t)
  {
    if t: nat :|
      && GivenAt(env, ops, t) && ops[t].Sign? && ops[t].keyPair == keyPair
      && env.txId(RawWithdraw(env.nonce, OutputsAdded(env, ops[..t]), ViewKeysAdded(env, ops[..t]), env.chain))
         == env.txId(RawWithdraw(env.nonce, OutputsAdded(env, ops), ViewKeysAdded(env, ops), env.chain)) {
      ListsGrow(env, ops, t);
      FreshIsGivenAndNothingAdded(env, ops, keyPair, t);
    }
    if t: nat :| FreshlySigned(env, ops, keyPair, t) {
      FreshIsGivenAndNothingAdded(env, ops, keyPair, t);
      ListsGrow(env, ops, t);
    }
  }

  /** Right after an addition the witness never signs the current transaction. */
  lemma AddingOutdates(env: Env, ops: seq<Op>, op: Op, keyPair: KeyPair)
    requires InjectiveId(env) && IsAdd(op) && Perform(env, StateAfter(env, ops), op).1.Ok?
    ensures !SignsCurrent(env, ops + [op], keyPair)
  {
    OneMoreCall(env, ops, op);
    NothingAddedOneMore(env, ops, op, |ops|);
    assert (ops + [op])[|ops|] == op && Replies(env, ops + [op])[|ops|].Ok?;
    forall t: nat
      ensures !FreshlySigned(env, ops + [op], keyPair, t)
    {
    }
    SignsCurrentExactlyWhenFresh(env, ops + [op], keyPair);
  }

  /** Whether the transaction can be built, and why not. */
  function Buildable(env: Env, outputs: seq<Output>): Result<(), Error> {
    if outputs == [] then Err(NoOutput)
    else if env.nonce >= 0x1_0000_0000_0000_0000 then Err(NativeError)
    else Ok(())
  }

  /** What `estimateFee`, `txId` and `toUnsignedHex` answer after any run. */
  lemma AnswersAfterRun(env: Env, ops: seq<Op>)
    ensures var (p, outputs) := (StateAfter(env, ops), OutputsAdded(env, ops));
      var tx := RawWithdraw(env.nonce, outputs, ViewKeysAdded(env, ops), env.chain);
      match Buildable(env, outputs)
      case Err(e) =>
        Perform(env, p, TxId).1 == Perform(env, p, ToUnsignedHex).1 == Perform(env, p, EstimateFee).1 == Err(e)
      case Ok(_) =>
        && Perform(env, p, TxId).1 == Ok(Id(env.txId(tx))) && Perform(env, p, ToUnsignedHex).1 == Ok(Raw([0, 2], tx))
        && Perform(env, p, EstimateFee).1 ==
             match env.fee(tx) case None => Err(NativeError) case Some(fee) => Ok(Fee(fee))
  {
    ListsHistory(env, ops);
  }

  /** What `addOutput`, `addViewKey`, `sign` and `addWitness` answer after any run. */
  lemma ChangesAfterRun(
      env: Env, ops: seq<Op>, output: Output, viewKey: Bytes, keyPair: KeyPair, data: Bytes, accepted: bool)
    ensures var (p, can) := (StateAfter(env, ops), Buildable(env, OutputsAdded(env, ops)));
      && Perform(env, p, AddOutput(output)).1 ==
           (if !(0 <= output.value <= 10_000_000_000_000_000_000) then Err(InvalidArgument)
            else if |OutputsAdded(env, ops)| == 65536 then Err(TooManyOutputs)
            else if !env.inNetwork(output.address) then Err(WrongNetwork) else Ok(Done))
      && Perform(env, p, AddViewKey(viewKey)).1 ==
           (if env.validViewKey(viewKey) then Ok(Done) else Err(InvalidArgument))
      && Perform(env, p, Sign(keyPair, accepted)).1 ==
           (if can.Err? then Err(can.error) else if accepted then Ok(Done) else Err(NativeError))
      && Perform(env, p, AddWitness(data)).1 ==
           (if |data| != 66 then Err(InvalidArgument) else if can.Err? then Err(can.error) else Ok(Done))
  {
    ListsHistory(env, ops);
  }

  /** The sum of the amounts, added up from the first. */
  lemma {:induction false} TotalIsSum(a: seq<Output>, b: seq<Output>)
    ensures Total(a + b) == Total(a) + Total(b) && Total([]) == 0
    ensures forall o: Output :: Total([o]) == o.value
  {
    if b == [] {
      assert a + b == a;
    } else {
      TotalIsSum(a, b[..|b| - 1]);
      assert (a + b)[..|a + b| - 1] == a + b[..|b| - 1];
    }
  }

  /** What `getWitness`, `isCompleted` and `getTotalOutputAmount` answer after any run. */
  lemma HeldAfterRun(env: Env, ops: seq<Op>)
    ensures var p := StateAfter(env, ops);
      && (if IsGiven(env, ops)
          then Perform(env, p, GetWitness).1.Ok? && Perform(env, p, GetWitness).1.value.Witness?
               && forall t: nat {:trigger GivenAt(env, ops, t)} :: GivenAt(env, ops, t) ==>
                    IsWitnessBy(env, ops, t, Perform(env, p, GetWitness).1.value.data)
          else Perform(env, p, GetWitness).1 == Err(NotSigned))
      && Perform(env, p, IsCompleted).1 == Ok(Flag(OutputsAdded(env, ops) != [] && IsGiven(env, ops)))
      && Perform(env, p, GetTotalOutputAmount).1 == Ok(Amount(Total(OutputsAdded(env, ops))))
  {
    ListsHistory(env, ops);
    HeldWitness(env, ops);
  }

  /** The current transaction, with the witness given last; whether the two belong together is another matter. */
  ghost predicate Exports(env: Env, ops: seq<Op>, tx: RawWithdraw, data: Bytes) {
    && tx == RawWithdraw(env.nonce, OutputsAdded(env, ops), ViewKeysAdded(env, ops), env.chain)
    && forall t: nat {:trigger GivenAt(env, ops, t)} :: GivenAt(env, ops, t) ==> IsWitnessBy(env, ops, t, data)
  }

  /** What `toHex` answers after any run. */
  lemma HexAfterRun(env: Env, ops: seq<Op>, accepted: bool)
    ensures var r := Perform(env, StateAfter(env, ops), ToHex(accepted)).1;
      var can := Buildable(env, OutputsAdded(env, ops));
      if can.Err? then r == Err(can.error)
      else if !IsGiven(env, ops) then r == Err(NotSigned)
      else if !accepted then r == Err(NativeError)
      else r.Ok? && r.value.Signed? && Exports(env, ops, r.value.tx, r.value.data)
  {
    ListsHistory(env, ops);
    HeldWitness(env, ops);
  }

  /** Calls that build the transaction when it is not cached, also when they fail afterwards. */
  predicate Prepares(op: Op) {
    op.EstimateFee? || op.TxId? || op.ToUnsignedHex? || op.Sign? || op.ToHex? || (op.AddWitness? && |op.data| == 66)
  }

  /** Since the lists last grew, some call built the transaction. */
  ghost predicate IsCached(env: Env, ops: seq<Op>) {
    Buildable(env, OutputsAdded(env, ops)).Ok? && exists t: nat :: PreparedAt(env, ops, t)
  }

  ghost predicate PreparedAt(env: Env, ops: seq<Op>, t: nat) {
    t < |ops| && Prepares(ops[t]) && NothingAddedFrom(env, ops, t)
  }

  lemma PreparedOneMore(env: Env, ops: seq<Op>, op: Op)
    ensures (exists t: nat :: PreparedAt(env, ops + [op], t)) <==>
      || Prepares(op)
      || ((exists t: nat :: PreparedAt(env, ops, t)) && (Perform(env, StateAfter(env, ops), op).1.Ok? ==> !IsAdd(op)))
  {
    NothingAddedOneMore(env, ops, op, |ops|);
    assert (ops + [op])[|ops|] == op;
    if Prepares(op) {
      assert PreparedAt(env, ops + [op], |ops|);
    }
    if t: nat :| PreparedAt(env, ops + [op], t) {
      if t < |ops| {
        NothingAddedOneMore(env, ops, op, t);
        assert PreparedAt(env, ops, t);
      }
    }
    if t: nat :| PreparedAt(env, ops, t) {
      NothingAddedOneMore(env, ops, op, t);
      assert PreparedAt(env, ops + [op], t) || (Perform(env, StateAfter(env, ops), op).1.Ok? && IsAdd(op));
    }
  }

  lemma {:induction false} CacheHistory(env: Env, ops: seq<Op>)
    ensures StateAfter(env, ops).prepared <==> IsCached(env, ops)
  {
    if ops != [] {
      var front, op := ops[..|ops| - 1], ops[|ops| - 1];
      CacheHistory(env, front);
      assert front + [op] == ops;
      OneMoreCall(env, front, op);
      ListsHistory(env, front);
      ListsHistory(env, ops);
      PreparedOneMore(env, front, op);
    }
  }

  /** What `toSignedPlainHex` answers after any run; it alone does not build the transaction. */
  lemma SignedPlainAfterRun(env: Env, ops: seq<Op>, accepted: bool)
    ensures var r := Perform(env, StateAfter(env, ops), ToSignedPlainHex(accepted)).1;
      if !IsGiven(env, ops) then r == Err(NotSigned)
      else if !IsCached(env, ops) || !accepted then r == Err(NativeError)
      else r.Ok? && r.value.SignedPlain? && r.value.prefix == [0] && Exports(env, ops, r.value.tx, r.value.data)
  {
    ListsHistory(env, ops);
    HeldWitness(env, ops);
    CacheHistory(env, ops);
  }

  /**
   * Adding a view key is documented to clear the signatures. It does not: after output, sign, view key, the old
   * signature is still there and is exported with the new transaction.
   */
  lemma AddingKeepsStaleWitness(env: Env, output: Output, keyPair: KeyPair, viewKey: Bytes)
    requires InjectiveId(env) && env.nonce < U64_SIZE
    requires ValidOutput(output) && env.inNetwork(output.address) && env.validViewKey(viewKey)
    ensures var p := StateAfter(env, [AddOutput(output), Sign(keyPair, true), AddViewKey(viewKey)]);
      && !SignsCurrent(env, [AddOutput(output), Sign(keyPair, true), AddViewKey(viewKey)], keyPair)
      && Perform(env, p, IsCompleted).1 == Ok(Flag(true))
      && var signed, exported := RawWithdraw(env.nonce, [output], [], env.chain),
                              RawWithdraw(env.nonce, [output], [viewKey], env.chain);
        Perform(env, p, ToHex(true)).1 == Ok(Signed(exported, env.sign(keyPair, env.txId(signed))))
  {
    var a, b, c := AddOutput(output), Sign(keyPair, true), AddViewKey(viewKey);
    ThreeCalls(env, a, b, c);
    assert Perform(env, EMPTY, a).0 == Plain([output], [], Unsigned, false);
    assert StateAfter(env, [a, b]) == Plain([output], [], SignedOver(keyPair, [output], []), true);
    assert StateAfter(env, [a, b, c]) == Plain([output], [viewKey], SignedOver(keyPair, [output], []), false);
    assert [a, b] + [c] == [a, b, c];
    AddingOutdates(env, [a, b], c, keyPair);
  }

  lemma ThreeCalls(env: Env, a: Op, b: Op, c: Op)
    ensures StateAfter(env, [a, b]) == Perform(env, Perform(env, EMPTY, a).0, b).0
    ensures StateAfter(env, [a, b, c]) == Perform(env, StateAfter(env, [a, b]), c).0
  {
    OneMoreCall(env, [], a);
    assert [] + [a] == [a] && StateAfter(env, []) == EMPTY;
    assert StateAfter(env, [a]) == Perform(env, EMPTY, a).0;
    OneMoreCall(env, [a], b);
    assert [a] + [b] == [a, b];
    OneMoreCall(env, [a, b], c);
    assert [a, b] + [c] == [a, b, c];
  }

  class WithdrawUnbondedTransactionBuilder {
    const env: Env
    var outputs: seq<Output>
    var viewKeys: seq<Bytes>
    var unsignedRawTx: Option<RawWithdraw>
    var innerTxId: Option<Bytes>
    var witnessData: Option<Bytes>
    ghost var stamp: Stamp

    /** The cached transaction and id are both absent or both those of the current lists. */
    ghost predicate Valid()
      reads this
    {
      && (unsignedRawTx == None ==> innerTxId == None)
      && (unsignedRawTx.Some? ==>
            && unsignedRawTx == Some(Over(env, outputs, viewKeys))
            && innerTxId == Some(env.txId(Over(env, outputs, viewKeys))))
      && witnessData == Meaning(env, stamp)
    }

    ghost function Abs(): Plain
      reads this
    {
      Plain(outputs, viewKeys, stamp, unsignedRawTx.Some?)
    }

    constructor (env: Env)
      ensures Valid() && Abs() == EMPTY && this.env == env
    {
      this.env := env;
      outputs, viewKeys, unsignedRawTx, innerTxId, witnessData := [], [], None, None, None;
      stamp := Unsigned;
    }

    method ClearPreparedRawTx()
      modifies this`unsignedRawTx, this`innerTxId
      ensures unsignedRawTx == None && innerTxId == None
    {
      unsignedRawTx, innerTxId := None, None;
    }

    method AddOutputCall(output: Output) returns (r: Result<Reply, Error>)
      requires Valid()
      modifies this`outputs, this`unsignedRawTx, this`innerTxId
      ensures Valid() && (Abs(), r) == Perform(env, old(Abs()), AddOutput(output))
      ensures r.Ok? ==> outputs == old(outputs) + [output] && unsignedRawTx == None && innerTxId == None
    {
      if !ValidOutput(output) {
        return Err(InvalidArgument);
      }
      if |outputs| == MAX_OUTPUT_SIZE {
        return Err(TooManyOutputs);
      }
      if !env.inNetwork(output.address) {
        return Err(WrongNetwork);
      }
      ClearPreparedRawTx();
      outputs := outputs + [output];
      r := Ok(Done);
    }

    method AddViewKeyCall(viewKey: Bytes) returns (r: Result<Reply, Error>)
      requires Valid()
      modifies this`viewKeys, this`unsignedRawTx, this`innerTxId
      ensures Valid() && (Abs(), r) == Perform(env, old(Abs()), AddViewKey(viewKey))
      ensures r.Ok? ==> viewKeys == old(viewKeys) + [viewKey] && unsignedRawTx == None && innerTxId == None
    {
      if !env.validViewKey(viewKey) {
        return Err(InvalidArgument);
      }
      ClearPreparedRawTx();
      viewKeys := viewKeys + [viewKey];
      r := Ok(Done);
    }

    /** What most operations begin with: build the transaction unless it is cached. */
    method EnsurePrepared() returns (r: Result<(), Error>)
      requires Valid()
      modifies this`unsignedRawTx, this`innerTxId
      ensures Valid() && (Abs(), r) == Prepare(env, old(Abs()))
      ensures r.Ok? ==> unsignedRawTx == Some(RawWithdraw(env.nonce, outputs, viewKeys, env.chain))
      ensures r.Ok? ==> innerTxId == Some(env.txId(RawWithdraw(env.nonce, outputs, viewKeys, env.chain)))
    {
      if unsignedRawTx == None {
        if outputs == [] {
          return Err(NoOutput);
        }
        if env.nonce >= U64_SIZE {
          return Err(NativeError);
        }
        var tx := RawWithdraw(env.nonce, outputs, viewKeys, env.chain);
        unsignedRawTx, innerTxId := Some(tx), Some(env.txId(tx));
      }
      r := Ok(());
    }

    method EstimateFeeCall() returns (r: Result<Reply, Error>)
      requires Valid()
      modifies this
      ensures Valid() && (Abs(), r) == Perform(env, old(Abs()), EstimateFee)
    {
      var prepared := EnsurePrepared();
      if prepared.Err? {
        return Err(prepared.error);
      }
      var fee := env.fee(unsignedRawTx.value);
      r := if fee == None then Err(NativeError) else Ok(Fee(fee.value));
    }

    method TxIdCall() returns (r: Result<Reply, Error>)
      requires Valid()
      modifies this
      ensures Valid() && (Abs(), r) == Perform(env, old(Abs()), TxId)
    {
      var prepared := EnsurePrepared();
      r := if prepared.Err? then Err(prepared.error) else Ok(Id(innerTxId.value));
    }

    method ToUnsignedHexCall() returns (r: Result<Reply, Error>)
      requires Valid()
      modifies this
      ensures Valid() && (Abs(), r) == Perform(env, old(Abs()), ToUnsignedHex)
    {
      var prepared := EnsurePrepared();
      r := if prepared.Err? then Err(prepared.error) else Ok(Raw(UNSIGNED_PREFIX, unsignedRawTx.value));
    }

    method SignCall(keyPair: KeyPair, accepted: bool) returns (r: Result<Reply, Error>)
      requires Valid()
      modifies this
      ensures Valid() && (Abs(), r) == Perform(env, old(Abs()), Sign(keyPair, accepted))
    {
      var prepared := EnsurePrepared();
      if prepared.Err? {
        return Err(prepared.error);
      }
      if !accepted {
        return Err(NativeError);
      }
      witnessData := Some(env.sign(keyPair, env.txId(unsignedRawTx.value)));
      stamp := SignedOver(keyPair, outputs, viewKeys);
      r := Ok(Done);
    }

    method AddWitnessCall(data: Bytes) returns (r: Result<Reply, Error>)
      requires Valid()
      modifies this
      ensures Valid() && (Abs(), r) == Perform(env, old(Abs()), AddWitness(data))
    {
      if |data| != WITNESS_SIZE {
        return Err(InvalidArgument);
      }
      var prepared := EnsurePrepared();
      if prepared.Err? {
        return Err(prepared.error);
      }
      witnessData, stamp := Some(data), HandedIn(data);
      r := Ok(Done);
    }

    method GetWitnessCall() returns (r: Result<Reply, Error>)
      requires Valid()
      ensures r == Perform(env, Abs(), GetWitness).1
    {
      r := if witnessData == None then Err(NotSigned) else Ok(Witness(witnessData.value));
    }

    method IsCompletedCall() returns (r: Result<Reply, Error>)
      requires Valid()
      ensures r == Perform(env, Abs(), IsCompleted).1
    {
      r := Ok(Flag(|outputs| > 0 && witnessData.Some?));
    }

    method GetTotalOutputAmountCall() returns (r: Result<Reply, Error>)
      requires Valid()
      ensures r == Perform(env, Abs(), GetTotalOutputAmount).1
    {
      var total := 0;
      for i := 0 to |outputs|
        invariant total == Total(outputs[..i])
      {
        assert outputs[..i + 1][..i] == outputs[..i];
        total := total + outputs[i].value;
      }
      assert outputs[..|outputs|] == outputs;
      r := Ok(Amount(total));
    }

    method ToSignedPlainHexCall(accepted: bool) returns (r: Result<Reply, Error>)
      requires Valid()
      ensures r == Perform(env, Abs(), ToSignedPlainHex(accepted)).1
    {
      if witnessData == None {
        return Err(NotSigned);
      }
      if unsignedRawTx == None || !accepted {
        return Err(NativeError);
      }
      r := Ok(SignedPlain(PLAIN_PREFIX, unsignedRawTx.value, witnessData.value));
    }

    method ToHexCall(accepted: bool) returns (r: Result<Reply, Error>)
      requires Valid()
      modifies this
      ensures Valid() && (Abs(), r) == Perform(env, old(Abs()), ToHex(accepted))
    {
      var prepared := EnsurePrepared();
      if prepared.Err? {
        return Err(prepared.error);
      }
      if witnessData == None {
        return Err(NotSigned);
      }
      r := if accepted then Ok(Signed(unsignedRawTx.value, witnessData.value)) else Err(NativeError);
    }

    method Call(op: Op) returns (r: Result<Reply, Error>)
      requires Valid()
      modifies this
      ensures Valid() && (Abs(), r) == Perform(env, old(Abs()), op)
    {
      match op
      case AddOutput(output) => r := AddOutputCall(output);
      case AddViewKey(viewKey) => r := AddViewKeyCall(viewKey);
      case EstimateFee => r := EstimateFeeCall();
      case TxId => r := TxIdCall();
      case ToUnsignedHex => r := ToUnsignedHexCall();
      case Sign(keyPair, accepted) => r := SignCall(keyPair, accepted);
      case AddWitness(data) => r := AddWitnessCall(data);
      case GetWitness => r := GetWitnessCall();
      case IsCompleted => r := IsCompletedCall();
      case GetTotalOutputAmount => r := GetTotalOutputAmountCall();
      case ToSignedPlainHex(accepted) => r := ToSignedPlainHexCall(accepted);
      case ToHex(accepted) => r := ToHexCall(accepted);
    }

    /** Every sequence of calls behaves as on the plain machine. */
    method CallAll(ops: seq<Op>) returns (replies: seq<Result<Reply, Error>>)
      requires Valid()
      modifies this
      ensures Valid() && (Abs(), replies) == PerformAll(env, old(Abs()), ops)
    {
      replies := [];
      for i := 0 to |ops|
        invariant Valid() && (Abs(), replies) == PerformAll(env, old(Abs()), ops[..i])
      {
        var r := Call(ops[i]);
        replies := replies + [r];
        assert ops[..i + 1][..i] == ops[..i];
      }
      assert ops[..|ops|] == ops;
    }
  }
}
