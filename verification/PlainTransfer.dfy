/**
 * The plain machine that a transfer builder refines: growing lists of inputs, outputs and view keys, and a map of the
 * witnesses given since the lists last grew. It has no cached transaction.
 */
module PlainTransfer {
  import opened Wrappers
  import opened Bytes
  import opened SharedTypes
  import opened TransferTransaction
  import opened History

  datatype Plain = Plain(inputs: seq<Input>, outputs: seq<Output>, viewKeys: seq<Bytes>, witnesses: map<nat, Bytes>)

  const EMPTY := Plain([], [], [], map[])

  /** The public operations; `accepted` is whether the native call they end in succeeds. */
  datatype Op =
    | AddInput(input: Input)
    | AddOutput(output: Output)
    | AddViewKey(viewKey: Bytes)
    | SignInput(index: int, keyPair: KeyPair, accepted: bool)
    | AddWitness(index: int, data: Bytes, accepted: bool)
    | TxId
    | EstimateFee
    | IsCompleted
    | ToIncompleteHex
    | Verify(accepted: bool)
    | ToHex(verified: bool, exported: bool)

  datatype Reply = Done | Id(id: Bytes) | Fee(fee: nat) | Flag(flag: bool) | Hex(hex: Incomplete)

  predicate ValidOutput(o: Output) {
    0 <= o.value <= MAX_COIN
  }

  predicate ValidInput(i: Input) {
    ValidOutput(i.prevOutput) && 0 < i.addressParams.requiredSigners <= i.addressParams.totalSigners
  }

  function Tx(env: Env, p: Plain): RawTx {
    Rebuild(env.chain, p.inputs, p.outputs, p.viewKeys)
  }

  /** The witnesses in input order. */
  function Witnesses(p: Plain): seq<Option<Bytes>> {
    seq(|p.inputs|, i requires 0 <= i < |p.inputs| => if i in p.witnesses then Some(p.witnesses[i]) else None)
  }

  predicate Completed(p: Plain) {
    p.inputs != [] && forall i :: 0 <= i < |p.inputs| ==> i in p.witnesses
  }

  /** The fields as a transaction, when the fee algorithm is supported and the native side can build it. */
  function Built(env: Env, p: Plain): Result<Incomplete, Error> {
    if !env.linearFee then Err(UnsupportedFeeAlgorithm)
    else if !Recordable(env.overflowChecks, p.inputs) then Err(NativeError)
    else Ok(Incomplete(Tx(env, p), Witnesses(p)))
  }

  /** Giving input `index` a witness. */
  function Witnessing(env: Env, p: Plain, index: nat, data: Bytes, accepted: bool): (Plain, Result<Reply, Error>) {
    var built := Built(env, p);
    if built.Err? then (p, Err(built.error))
    else if !accepted then (p, Err(NativeError))
    else (p.(witnesses := p.witnesses[index := data]), Ok(Done))
  }

  function Perform(env: Env, p: Plain, op: Op): (Plain, Result<Reply, Error>) {
    match op
    case AddInput(input) =>
      if !ValidInput(input) then (p, Err(InvalidArgument))
      else if !env.inNetwork(input.prevOutput.address) then (p, Err(WrongNetwork))
      else (p.(inputs := p.inputs + [input], witnesses := map[]), Ok(Done))
    case AddOutput(output) =>
      if !ValidOutput(output) then (p, Err(InvalidArgument))
      else if !env.inNetwork(output.address) then (p, Err(WrongNetwork))
      else (p.(outputs := p.outputs + [output], witnesses := map[]), Ok(Done))
    case AddViewKey(viewKey) =>
      if !env.validViewKey(viewKey) then (p, Err(InvalidArgument))
      else (p.(viewKeys := p.viewKeys + [viewKey], witnesses := map[]), Ok(Done))
    case SignInput(index, keyPair, accepted) =>
      if !(0 <= index < |p.inputs|) then (p, Err(InvalidArgument))
      else if !keyPair.hasPrivateKey then (p, Err(NoPrivateKey))
      else if p.inputs[index].prevOutput.address != env.addressOf(keyPair) then (p, Err(NotSignable))
      else Witnessing(env, p, index, env.sign(keyPair, env.txId(Tx(env, p))), accepted)
    case AddWitness(index, data, accepted) =>
      if !(0 <= index < |p.inputs|) then (p, Err(InvalidArgument))
      else Witnessing(env, p, index, env.witnessOf(data), accepted)
    case TxId =>
      (p, if p.inputs == [] then Err(NoInput)
          else if Built(env, p).Err? then Err(Built(env, p).error)
          else Ok(Id(env.txId(Tx(env, p)))))
    case EstimateFee =>
      (p, if !env.linearFee then Err(UnsupportedFeeAlgorithm)
          else if p.inputs == [] then Err(NoInput)
          else if p.outputs == [] then Err(NoOutput)
          else if Built(env, p).Err? then Err(Built(env, p).error)
          else match env.fee(ShapeOf(Tx(env, p)))
               case None => Err(NativeError)
               case Some(fee) => Ok(Fee(fee)))
    case IsCompleted => (p, Ok(Flag(Completed(p))))
    case ToIncompleteHex => (p, if Built(env, p).Err? then Err(Built(env, p).error) else Ok(Hex(Built(env, p).value)))
    case Verify(accepted) =>
      (p, if p.inputs == [] then Err(NoInput)
          else if p.outputs == [] then Err(NoOutput)
          else if !env.linearFee then Err(UnsupportedFeeAlgorithm)
          else if accepted && Completed(p) then Ok(Done) else Err(NativeError))
    case ToHex(verified, exported) =>
      (p, if p.inputs == [] then Err(NoInput)
          else if p.outputs == [] then Err(NoOutput)
          else if !Completed(p) then Err(NotCompleted)
          else if !env.linearFee then Err(UnsupportedFeeAlgorithm)
          else if !verified || !exported then Err(NativeError)
          else Ok(Hex(Incomplete(Tx(env, p), Witnesses(p)))))
  }

  function Performing(env: Env): (Plain, Op) -> (Plain, Result<Reply, Error>) {
    (p, op) => Perform(env, p, op)
  }

  /** A sequence of calls, with the reply or the error of each. */
  function PerformAll(env: Env, p: Plain, ops: seq<Op>): (Plain, seq<Result<Reply, Error>>) {
    RunAll(Performing(env), p, ops)
  }

  function StateAfter(env: Env, ops: seq<Op>): Plain {
    PerformAll(env, EMPTY, ops).0
  }

  function Replies(env: Env, ops: seq<Op>): (r: seq<Result<Reply, Error>>)
    ensures |r| == |ops|
  {
    PerformAll(env, EMPTY, ops).1
  }

  lemma OneMoreCall(env: Env, ops: seq<Op>, op: Op)
    ensures var (after, reply) := Perform(env, StateAfter(env, ops), op);
      StateAfter(env, ops + [op]) == after && Replies(env, ops + [op]) == Replies(env, ops) + [reply]
  {
    RunOneMore(Performing(env), EMPTY, ops, op);
  }

  /** The calls of a run that succeed. */
  function Successes(env: Env, p: Plain, ops: seq<Op>): seq<Op> {
    if ops == [] then []
    else
      var before := Successes(env, p, ops[..|ops| - 1]);
      var q := PerformAll(env, p, ops[..|ops| - 1]).0;
      if Perform(env, q, ops[|ops| - 1]).1.Ok? then before + [ops[|ops| - 1]] else before
  }

  function OkReplies(replies: seq<Result<Reply, Error>>): seq<Result<Reply, Error>> {
    if replies == [] then []
    else
      var before := OkReplies(replies[..|replies| - 1]);
      if replies[|replies| - 1].Ok? then before + [replies[|replies| - 1]] else before
  }

  lemma FailureChangesNothing(env: Env, p: Plain, op: Op)
    ensures Perform(env, p, op).1.Err? ==> Perform(env, p, op).0 == p
  {
  }

  /** A run with failing calls ends where the run without them ends, and the remaining calls get the same replies. */
  lemma {:induction false} FailuresCanBeErased(env: Env, p: Plain, ops: seq<Op>)
    ensures PerformAll(env, p, Successes(env, p, ops)).0 == PerformAll(env, p, ops).0
    ensures PerformAll(env, p, Successes(env, p, ops)).1 == OkReplies(PerformAll(env, p, ops).1)
  {
    if ops != [] {
      var front, op := ops[..|ops| - 1], ops[|ops| - 1];
      FailuresCanBeErased(env, p, front);
      var (q, replies) := PerformAll(env, p, front);
      var reply := Perform(env, q, op).1;
      FailureChangesNothing(env, q, op);
      assert (replies + [reply])[..|ops| - 1] == replies;
      var kept := Successes(env, p, front);
      assert (kept + [op])[..|kept|] == kept;
    }
  }

  // ----- What a builder holds and answers after any run, read off the calls and their replies

  function InputOf(op: Op): Option<Input> {
    if op.AddInput? then Some(op.input) else None
  }

  function OutputOf(op: Op): Option<Output> {
    if op.AddOutput? then Some(op.output) else None
  }

  function ViewKeyOf(op: Op): Option<Bytes> {
    if op.AddViewKey? then Some(op.viewKey) else None
  }

  /** The inputs, outputs and view keys of the successful add calls, in call order. */
  function InputsAdded(env: Env, ops: seq<Op>): seq<Input> {
    Added(ops, Replies(env, ops), InputOf)
  }

  function OutputsAdded(env: Env, ops: seq<Op>): seq<Output> {
    Added(ops, Replies(env, ops), OutputOf)
  }

  function ViewKeysAdded(env: Env, ops: seq<Op>): seq<Bytes> {
    Added(ops, Replies(env, ops), ViewKeyOf)
  }

  lemma {:induction false} ListsHistory(env: Env, ops: seq<Op>)
    ensures var p := StateAfter(env, ops);
      && p.inputs == InputsAdded(env, ops) && p.outputs == OutputsAdded(env, ops)
      && p.viewKeys == ViewKeysAdded(env, ops)
  {
    if ops != [] {
      var front, op := ops[..|ops| - 1], ops[|ops| - 1];
      ListsHistory(env, front);
      OneMoreCall(env, front, op);
      var replies, reply := Replies(env, front), Perform(env, StateAfter(env, front), op).1;
      AddedOneMore(front, replies, op, reply, InputOf);
      AddedOneMore(front, replies, op, reply, OutputOf);
      AddedOneMore(front, replies, op, reply, ViewKeyOf);
      assert front + [op] == ops;
    }
  }

  predicate IsAdd(op: Op) {
    op.AddInput? || op.AddOutput? || op.AddViewKey?
  }

  predicate GivesWitness(op: Op, index: nat) {
    (op.SignInput? || op.AddWitness?) && op.index == index
  }

  function GivesTo(i: nat): Op -> bool {
    (op: Op) => GivesWitness(op, i)
  }

  function Disturbs(i: nat): Op -> bool {
    (op: Op) => IsAdd(op) || GivesWitness(op, i)
  }

  /** Call `t` gave input `i` a witness, and no later call grew a list or gave it another. */
  ghost predicate GivenAt(env: Env, ops: seq<Op>, i: nat, t: nat) {
    StandsAt(ops, Replies(env, ops), GivesTo(i), Disturbs(i), t)
  }

  ghost predicate IsGiven(env: Env, ops: seq<Op>, i: nat) {
    exists t: nat :: GivenAt(env, ops, i, t)
  }

  /** What a call gives as a witness; a signature is over the id of the transaction `tx`. */
  predicate IsWitnessBy(env: Env, op: Op, tx: RawTx, data: Bytes) {
    match op
    case SignInput(_, keyPair, _) => data == env.sign(keyPair, env.txId(tx))
    case AddWitness(_, handedIn, _) => data == env.witnessOf(handedIn)
    case _ => false
  }

  lemma GivenAtOneMore(env: Env, ops: seq<Op>, op: Op, i: nat, t: nat)
    ensures var reply := Perform(env, StateAfter(env, ops), op).1;
      GivenAt(env, ops + [op], i, t) <==>
        || (t < |ops| && GivenAt(env, ops, i, t) && (reply.Ok? ==> !IsAdd(op) && !GivesWitness(op, i)))
        || (t == |ops| && reply.Ok? && GivesWitness(op, i))
  {
    OneMoreCall(env, ops, op);
    StandsAfterOneMore(
      ops, Replies(env, ops), op, Perform(env, StateAfter(env, ops), op).1, GivesTo(i), Disturbs(i), t);
  }

  lemma GivenInOneMore(env: Env, ops: seq<Op>, op: Op, i: nat)
    ensures var reply := Perform(env, StateAfter(env, ops), op).1;
      IsGiven(env, ops + [op], i) <==>
        if reply.Err? then IsGiven(env, ops, i)
        else !IsAdd(op) && (GivesWitness(op, i) || IsGiven(env, ops, i))
  {
    if t: nat :| GivenAt(env, ops + [op], i, t) {
      GivenAtOneMore(env, ops, op, i, t);
    }
    if t: nat :| GivenAt(env, ops, i, t) {
      GivenAtOneMore(env, ops, op, i, t);
    }
    GivenAtOneMore(env, ops, op, i, |ops|);
  }

  /** How one call changes the witness of an input. */
  lemma WitnessAfter(env: Env, p: Plain, op: Op, i: nat)
    ensures var (q, reply) := Perform(env, p, op);
      if reply.Ok? && IsAdd(op) then
        q.witnesses == map[]
      else if reply.Ok? && GivesWitness(op, i) then
        && Tx(env, q) == Tx(env, p) && Built(env, q).Ok?
        && i in q.witnesses && IsWitnessBy(env, op, Tx(env, q), q.witnesses[i])
      else
        && Tx(env, q) == Tx(env, p) && Built(env, q).Ok? == Built(env, p).Ok?
        && (i in q.witnesses <==> i in p.witnesses) && (i in p.witnesses ==> q.witnesses[i] == p.witnesses[i])
  {
  }

  /** What is known of the witness of input `i` after a run. */
  ghost predicate WitnessKnown(env: Env, ops: seq<Op>, p: Plain, i: nat) {
    && (i in p.witnesses <==> IsGiven(env, ops, i))
    && (i in p.witnesses ==> Built(env, p).Ok?)
    && forall t: nat {:trigger GivenAt(env, ops, i, t)} :: GivenAt(env, ops, i, t) ==>
         i in p.witnesses && IsWitnessBy(env, ops[t], Tx(env, p), p.witnesses[i])
  }

  /**
   * Where every witness comes from: an input has a witness exactly when some call gave it one and no later call grew a
   * list or replaced it, and then it is what that call gave, a signature being over the id of the transaction as it
   * is now.
   */
  lemma {:induction false} WitnessHistory(env: Env, ops: seq<Op>, i: nat)
    ensures WitnessKnown(env, ops, StateAfter(env, ops), i)
  {
    if ops != [] {
      var front, op := ops[..|ops| - 1], ops[|ops| - 1];
      WitnessHistory(env, front, i);
      assert front + [op] == ops;
      WitnessStep(env, front, op, i);
    }
  }

  lemma WitnessStep(env: Env, ops: seq<Op>, op: Op, i: nat)
    requires WitnessKnown(env, ops, StateAfter(env, ops), i)
    ensures WitnessKnown(env, ops + [op], StateAfter(env, ops + [op]), i)
  {
    var p := StateAfter(env, ops);
    OneMoreCall(env, ops, op);
    GivenInOneMore(env, ops, op, i);
    WitnessAfter(env, p, op, i);
    forall t: nat | GivenAt(env, ops + [op], i, t)
      ensures var q := StateAfter(env, ops + [op]);
        i in q.witnesses && IsWitnessBy(env, (ops + [op])[t], Tx(env, q), q.witnesses[i])
    {
      GivenAtOneMore(env, ops, op, i, t);
    }
  }

  /** The transaction that the calls of the run describe. */
  ghost predicate IsDescribed(env: Env, ops: seq<Op>, tx: RawTx) {
    Carries(env.overflowChecks, tx, env.chain, InputsAdded(env, ops), OutputsAdded(env, ops), ViewKeysAdded(env, ops))
  }

  /** Every input that was added has been given a witness that no later call disturbed. */
  ghost predicate AllGiven(env: Env, ops: seq<Op>) {
    forall i: nat :: i < |InputsAdded(env, ops)| ==> IsGiven(env, ops, i)
  }

  /** The transaction that the calls describe, with what they gave as witnesses, each at the place of its input. */
  ghost predicate Shows(env: Env, ops: seq<Op>, hex: Incomplete) {
    && IsDescribed(env, ops, hex.tx) && |hex.witnesses| == |hex.tx.inputs|
    && (forall i: nat :: i < |hex.witnesses| ==> (hex.witnesses[i].Some? <==> IsGiven(env, ops, i)))
    && forall i: nat, t: nat {:trigger GivenAt(env, ops, i, t)} :: GivenAt(env, ops, i, t) && i < |hex.witnesses| ==>
         hex.witnesses[i].Some? && IsWitnessBy(env, ops[t], hex.tx, hex.witnesses[i].value)
  }

  /** Whether the fields can be built at all, and why not. */
  function Buildable(env: Env, inputs: seq<Input>): Result<(), Error> {
    if !env.linearFee then Err(UnsupportedFeeAlgorithm)
    else if !AllCounted(env.overflowChecks, inputs) then Err(NativeError)
    else Ok(())
  }

  lemma BuiltIsDescribed(env: Env, ops: seq<Op>)
    ensures var (p, can) := (StateAfter(env, ops), Buildable(env, InputsAdded(env, ops)));
      && p.inputs == InputsAdded(env, ops) && p.outputs == OutputsAdded(env, ops)
      && p.viewKeys == ViewKeysAdded(env, ops)
      && (can.Ok? <==> Built(env, p).Ok?) && (can.Err? ==> Built(env, p) == Err(can.error))
      && (can.Ok? ==> Built(env, p).value == Incomplete(Tx(env, p), Witnesses(p)) && IsDescribed(env, ops, Tx(env, p)))
  {
    ListsHistory(env, ops);
    CountedIsRecordable(env.overflowChecks, InputsAdded(env, ops));
    var p := StateAfter(env, ops);
    if Buildable(env, p.inputs).Ok? {
      RebuildCarries(env.overflowChecks, env.chain, p.inputs, p.outputs, p.viewKeys);
    }
  }

  lemma BuiltShows(env: Env, ops: seq<Op>)
    requires Buildable(env, InputsAdded(env, ops)).Ok?
    ensures var p := StateAfter(env, ops); Shows(env, ops, Incomplete(Tx(env, p), Witnesses(p)))
  {
    BuiltIsDescribed(env, ops);
    var p := StateAfter(env, ops);
    var witnesses := Witnesses(p);
    forall i: nat | i < |witnesses|
      ensures witnesses[i].Some? <==> IsGiven(env, ops, i)
    {
      WitnessHistory(env, ops, i);
    }
    forall i: nat, t: nat | GivenAt(env, ops, i, t) && i < |witnesses|
      ensures witnesses[i].Some? && IsWitnessBy(env, ops[t], Tx(env, p), witnesses[i].value)
    {
      WitnessHistory(env, ops, i);
    }
  }

  /** What `toIncompleteHex` answers after any run. */
  lemma IncompleteAfterRun(env: Env, ops: seq<Op>)
    ensures var r := Perform(env, StateAfter(env, ops), ToIncompleteHex).1;
      var can := Buildable(env, InputsAdded(env, ops));
      if can.Err? then r == Err(can.error) else r.Ok? && r.value.Hex? && Shows(env, ops, r.value.hex)
  {
    BuiltIsDescribed(env, ops);
    if Buildable(env, InputsAdded(env, ops)).Ok? {
      BuiltShows(env, ops);
    }
  }

  /** What `txId` answers after any run: the id of the transaction that the calls describe. */
  lemma IdAfterRun(env: Env, ops: seq<Op>, tx: RawTx)
    requires Buildable(env, InputsAdded(env, ops)).Ok? ==> IsDescribed(env, ops, tx)
    ensures Perform(env, StateAfter(env, ops), TxId).1 ==
      if InputsAdded(env, ops) == [] then Err(NoInput)
      else match Buildable(env, InputsAdded(env, ops))
        case Err(e) => Err(e)
        case Ok(_) => Ok(Id(env.txId(tx)))
  {
    BuiltIsDescribed(env, ops);
    DescribedIsUnique(env, ops, tx);
  }

  lemma DescribedIsUnique(env: Env, ops: seq<Op>, tx: RawTx)
    requires Buildable(env, InputsAdded(env, ops)).Ok? ==> IsDescribed(env, ops, tx)
    ensures Buildable(env, InputsAdded(env, ops)).Ok? ==> Tx(env, StateAfter(env, ops)) == tx
  {
    BuiltIsDescribed(env, ops);
    if Buildable(env, InputsAdded(env, ops)).Ok? {
      CarriesIsUnique(env.overflowChecks, Tx(env, StateAfter(env, ops)), tx, env.chain,
                      InputsAdded(env, ops), OutputsAdded(env, ops), ViewKeysAdded(env, ops));
    }
  }

  /** The numbers that the size of a transaction depends on. */
  predicate IsShapeOf(shape: Shape, tx: RawTx) {
    && |shape.leaves| == |tx.inputs| && |shape.timed| == |tx.outputs| && shape.viewKeys == |tx.viewKeys|
    && (forall i :: 0 <= i < |tx.inputs| ==> shape.leaves[i] == tx.inputs[i].leaves)
    && forall i :: 0 <= i < |tx.outputs| ==> (shape.timed[i] <==> tx.outputs[i].validFrom.Some?)
  }

  /** What `estimateFee` answers after any run. */
  lemma FeeAfterRun(env: Env, ops: seq<Op>, tx: RawTx, shape: Shape)
    requires Buildable(env, InputsAdded(env, ops)).Ok? ==> IsDescribed(env, ops, tx) && IsShapeOf(shape, tx)
    ensures Perform(env, StateAfter(env, ops), EstimateFee).1 ==
      if !env.linearFee then Err(UnsupportedFeeAlgorithm)
      else if InputsAdded(env, ops) == [] then Err(NoInput)
      else if OutputsAdded(env, ops) == [] then Err(NoOutput)
      else if Buildable(env, InputsAdded(env, ops)).Err? || env.fee(shape) == None then Err(NativeError)
      else Ok(Fee(env.fee(shape).value))
  {
    BuiltIsDescribed(env, ops);
    DescribedIsUnique(env, ops, tx);
    if Buildable(env, InputsAdded(env, ops)).Ok? {
      var actual := ShapeOf(tx);
      assert actual.leaves == shape.leaves && actual.timed == shape.timed;
    }
  }

  lemma CompletedWhenGiven(env: Env, ops: seq<Op>)
    ensures Completed(StateAfter(env, ops)) <==> InputsAdded(env, ops) != [] && AllGiven(env, ops)
    ensures Completed(StateAfter(env, ops)) ==> Buildable(env, InputsAdded(env, ops)).Ok?
  {
    BuiltIsDescribed(env, ops);
    var p := StateAfter(env, ops);
    forall i: nat
      ensures i in p.witnesses <==> IsGiven(env, ops, i)
      ensures i in p.witnesses ==> Built(env, p).Ok?
    {
      WitnessHistory(env, ops, i);
    }
    assert p.inputs != [] ==> (0 in p.witnesses <==> IsGiven(env, ops, 0));
  }

  /** A builder answers that it is completed exactly when there are inputs and each was given a witness that stands. */
  lemma CompletedAfterRun(env: Env, ops: seq<Op>)
    ensures Perform(env, StateAfter(env, ops), IsCompleted).1
         == Ok(Flag(InputsAdded(env, ops) != [] && AllGiven(env, ops)))
  {
    CompletedWhenGiven(env, ops);
  }

  /** What `verify` answers after any run. */
  lemma VerifyAfterRun(env: Env, ops: seq<Op>, accepted: bool)
    ensures Perform(env, StateAfter(env, ops), Verify(accepted)).1 ==
      if InputsAdded(env, ops) == [] then Err(NoInput)
      else if OutputsAdded(env, ops) == [] then Err(NoOutput)
      else if !env.linearFee then Err(UnsupportedFeeAlgorithm)
      else if AllGiven(env, ops) && accepted then Ok(Done) else Err(NativeError)
  {
    ListsHistory(env, ops);
    CompletedWhenGiven(env, ops);
  }

  /** What `toHex` answers after any run. */
  lemma HexAfterRun(env: Env, ops: seq<Op>, verified: bool, exported: bool)
    ensures var r := Perform(env, StateAfter(env, ops), ToHex(verified, exported)).1;
      if InputsAdded(env, ops) == [] then r == Err(NoInput)
      else if OutputsAdded(env, ops) == [] then r == Err(NoOutput)
      else if !AllGiven(env, ops) then r == Err(NotCompleted)
      else if !verified || !exported then r == Err(NativeError)
      else r.Ok? && r.value.Hex? && Shows(env, ops, r.value.hex)
  {
    ListsHistory(env, ops);
    CompletedWhenGiven(env, ops);
    if Buildable(env, InputsAdded(env, ops)).Ok? {
      BuiltShows(env, ops);
    }
  }

  /** What `addInput`, `addOutput` and `addViewKey` answer, whatever went before. */
  lemma AddingAfterRun(env: Env, ops: seq<Op>, input: Input, output: Output, viewKey: Bytes)
    ensures var (p, spent) := (StateAfter(env, ops), input.prevOutput);
      && Perform(env, p, AddInput(input)).1 ==
           (if !(0 <= spent.value <= 10_000_000_000_000_000_000) || input.addressParams.requiredSigners == 0
               || input.addressParams.requiredSigners > input.addressParams.totalSigners then Err(InvalidArgument)
            else if !env.inNetwork(spent.address) then Err(WrongNetwork) else Ok(Done))
      && Perform(env, p, AddOutput(output)).1 ==
           (if !(0 <= output.value <= 10_000_000_000_000_000_000) then Err(InvalidArgument)
            else if !env.inNetwork(output.address) then Err(WrongNetwork) else Ok(Done))
      && Perform(env, p, AddViewKey(viewKey)).1 ==
           (if env.validViewKey(viewKey) then Ok(Done) else Err(InvalidArgument))
  {
  }

  /** What `signInput` and `addWitness` answer after any run; `IncompleteAfterRun` says what a success leaves behind. */
  lemma WitnessingAfterRun(env: Env, ops: seq<Op>, index: int, keyPair: KeyPair, data: Bytes, accepted: bool)
    ensures var (inputs, p) := (InputsAdded(env, ops), StateAfter(env, ops));
      var outcome := match Buildable(env, inputs)
                     case Err(e) => Err(e)
                     case Ok(_) => if accepted then Ok(Done) else Err(NativeError);
      && Perform(env, p, AddWitness(index, data, accepted)).1 ==
           (if 0 <= index < |inputs| then outcome else Err(InvalidArgument))
      && Perform(env, p, SignInput(index, keyPair, accepted)).1 ==
           (if !(0 <= index < |inputs|) then Err(InvalidArgument)
            else if !keyPair.hasPrivateKey then Err(NoPrivateKey)
            else if inputs[index].prevOutput.address != env.addressOf(keyPair) then Err(NotSignable)
            else outcome)
  {
    BuiltIsDescribed(env, ops);
  }
}
