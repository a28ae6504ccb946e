/**
 * The deposit transaction builder (lib/src/transaction/staking/deposit_transaction_builder.ts) and the plain machine
 * it refines.
 *
 * The builder keeps, next to each input, the bytes of its witness, and caches the raw transaction and its id. The
 * plain machine has no cache, and remembers of a witness only who was to sign or which bytes were handed in; a
 * signature is then over the id of the transaction as it is when asked for.
 */
module DepositBuilder {
  import opened Wrappers
  import opened Bytes
  import opened History
  import opened SharedTypes

  datatype PrevOutputPointer = PrevOutputPointer(prevTxId: string, prevIndex: nat)

  datatype WitnessedPointer = WitnessedPointer(prevOutputPointer: PrevOutputPointer, witnessData: Option<Bytes>)

  /** The unsigned transaction; its encoding is one-to-one. */
  datatype RawDeposit = RawDeposit(inputs: seq<PrevOutputPointer>, toAddress: string, chain: byte)

  /**
   * What the builder is constructed with, and the parts of the native side that are not modelled: `builds` is whether
   * it accepts the fields of a transaction.
   */
  datatype Env = Env(
    stakingAddress: string,
    chain: byte,
    builds: RawDeposit -> bool,
    txId: RawDeposit -> Bytes,
    sign: (KeyPair, Bytes) -> Bytes)

  datatype Error = InvalidArgument | NoInput | IndexOutOfBound | NotCompleted | NativeError

  /** What the plain machine knows of an input's witness. */
  datatype Slot = Missing | SignedBy(keyPair: KeyPair) | HandedIn(data: Bytes)

  datatype Plain = Plain(pointers: seq<PrevOutputPointer>, slots: seq<Slot>) {
    predicate Valid() { |pointers| == |slots| }
  }

  type Machine = p: Plain | p.Valid() witness Plain([], [])

  const EMPTY: Machine := Plain([], [])

  /** `accepted` is whether the native call the operation ends in succeeds. */
  datatype Op =
    | AddInput(pointer: PrevOutputPointer)
    | TxId
    | SignInput(index: int, keyPair: KeyPair, accepted: bool)
    | AddWitness(index: int, data: Bytes)
    | HasWitness(index: int)
    | ToUnsignedHex
    | IsCompleted
    | ToHex(accepted: bool)

  datatype Reply =
    | Done | Id(id: Bytes) | Flag(flag: bool) | Unsigned(tx: RawDeposit)
    | Signed(signed: RawDeposit, witnesses: seq<Bytes>)

  function Tx(env: Env, p: Machine): RawDeposit {
    RawDeposit(p.pointers, env.stakingAddress, env.chain)
  }

  /** The bytes a slot stands for in a transaction with the given id. */
  function Meaning(env: Env, slot: Slot, id: Bytes): Option<Bytes> {
    match slot
    case Missing => None
    case SignedBy(keyPair) => Some(env.sign(keyPair, id))
    case HandedIn(data) => Some(data)
  }

  predicate Completed(p: Machine) {
    p.slots != [] && forall i :: 0 <= i < |p.slots| ==> !p.slots[i].Missing?
  }

  /** The witnesses of a completed transaction, one for each input, in order. */
  function Export(env: Env, p: Machine): seq<Bytes>
    requires Completed(p)
  {
    seq(|p.slots|, i requires 0 <= i < |p.slots| => Meaning(env, p.slots[i], env.txId(Tx(env, p))).value)
  }

  function AllMissing(n: nat): seq<Slot> {
    seq(n, _ => Missing)
  }

  /** `owPrevOutputPointer`: the index fits 16 bits. */
  predicate ValidPointer(pointer: PrevOutputPointer) {
    pointer.prevIndex < 0x1_0000
  }

  /** Whether there is a transaction over the current fields. */
  function Built(env: Env, p: Machine): Result<(), Error> {
    if p.pointers == [] then Err(NoInput)
    else if !env.builds(Tx(env, p)) then Err(NativeError)
    else Ok(())
  }

  function Perform(env: Env, p: Machine, op: Op): (Machine, Result<Reply, Error>) {
    match op
    case AddInput(pointer) =>
      if !ValidPointer(pointer) then (p, Err(InvalidArgument))
      else (Plain(p.pointers + [pointer], AllMissing(|p.slots| + 1)), Ok(Done))
    case TxId => (p, if Built(env, p).Err? then Err(Built(env, p).error) else Ok(Id(env.txId(Tx(env, p)))))
    case SignInput(index, keyPair, accepted) =>
      if Built(env, p).Err? then (p, Err(Built(env, p).error))
      else if !(0 <= index < |p.slots|) then (p, Err(IndexOutOfBound))
      else if !accepted then (p, Err(NativeError))
      else (p.(slots := p.slots[index := SignedBy(keyPair)]), Ok(Done))
    case AddWitness(index, data) =>
      if p.pointers == [] then (p, Err(NoInput))
      else if !(0 <= index < |p.slots|) then (p, Err(IndexOutOfBound))
      else (p.(slots := p.slots[index := HandedIn(data)]), Ok(Done))
    case HasWitness(index) =>
      (p, if !(0 <= index < |p.slots|) then Err(IndexOutOfBound) else Ok(Flag(!p.slots[index].Missing?)))
    case ToUnsignedHex => (p, if Built(env, p).Err? then Err(Built(env, p).error) else Ok(Unsigned(Tx(env, p))))
    case IsCompleted => (p, Ok(Flag(Completed(p))))
    case ToHex(accepted) =>
      (p, if Built(env, p).Err? then Err(Built(env, p).error)
          else if !Completed(p) then Err(NotCompleted)
          else if !accepted then Err(NativeError)
          else Ok(Signed(Tx(env, p), Export(env, p))))
  }

  function Performing(env: Env): (Machine, Op) -> (Machine, Result<Reply, Error>) {
    (p: Machine, op: Op) => Perform(env, p, op)
  }

  function PerformAll(env: Env, p: Machine, ops: seq<Op>): (Machine, seq<Result<Reply, Error>>) {
    RunAll<Machine, Op, Result<Reply, Error>>(Performing(env), p, ops)
  }

  function StateAfter(env: Env, ops: seq<Op>): Machine {
    PerformAll(env, EMPTY, ops).0
  }

  function Replies(env: Env, ops: seq<Op>): (r: seq<Result<Reply, Error>>)
    ensures |r| == |ops|
  {
    PerformAll(env, EMPTY, ops).1
  }

  lemma OneMoreCall(env: Env, ops: seq<Op>, op: Op)
    ensures var (after, reply) := Perform(env, StateAfter(env, ops), op);
      StateAfter(env, ops + [op]) == after && Replies(env, ops + [op]) == Replies(env, ops) + [reply]
  {
    RunOneMore<Machine, Op, Result<Reply, Error>>(Performing(env), EMPTY, ops, op);
  }

  // ----- What a builder holds and answers after any run, read off the calls and their replies

  function PointerOf(op: Op): Option<PrevOutputPointer> {
    if op.AddInput? then Some(op.pointer) else None
  }

  /** The inputs of the successful calls of `addInput`, in call order. */
  function PointersAdded(env: Env, ops: seq<Op>): seq<PrevOutputPointer> {
    Added(ops, Replies(env, ops), PointerOf)
  }

  predicate GivesWitness(op: Op, i: nat) {
    (op.SignInput? || op.AddWitness?) && op.index == i
  }

  function GivesTo(i: nat): Op -> bool {
    (op: Op) => GivesWitness(op, i)
  }

  function Disturbs(i: nat): Op -> bool {
    (op: Op) => op.AddInput? || GivesWitness(op, i)
  }

  /** Call `t` gave input `i` a witness, and no later call added an input or gave it another. */
  ghost predicate GivenAt(env: Env, ops: seq<Op>, i: nat, t: nat) {
    StandsAt(ops, Replies(env, ops), GivesTo(i), Disturbs(i), t)
  }

  ghost predicate IsGiven(env: Env, ops: seq<Op>, i: nat) {
    exists t: nat :: GivenAt(env, ops, i, t)
  }

  lemma {:induction false} PointersHistory(env: Env, ops: seq<Op>)
    ensures StateAfter(env, ops).pointers == PointersAdded(env, ops)
  {
    if ops != [] {
      var front, op := ops[..|ops| - 1], ops[|ops| - 1];
      PointersHistory(env, front);
      OneMoreCall(env, front, op);
      AddedOneMore(front, Replies(env, front), op, Perform(env, StateAfter(env, front), op).1, PointerOf);
      assert front + [op] == ops;
    }
  }

  lemma GivenAtOneMore(env: Env, ops: seq<Op>, op: Op, i: nat, t: nat)
    ensures var reply := Perform(env, StateAfter(env, ops), op).1;
      GivenAt(env, ops + [op], i, t) <==>
        || (t < |ops| && GivenAt(env, ops, i, t) && (reply.Ok? ==> !op.AddInput? && !GivesWitness(op, i)))
        || (t == |ops| && reply.Ok? && GivesWitness(op, i))
  {
    OneMoreCall(env, ops, op);
    StandsAfterOneMore(
      ops, Replies(env, ops), op, Perform(env, StateAfter(env, ops), op).1, GivesTo(i), Disturbs(i), t);
  }

  lemma GivenInOneMore(env: Env, ops: seq<Op>, op: Op, i: nat)
    ensures var reply := Perform(env, StateAfter(env, ops), op).1;
      IsGiven(env, ops + [op], i) <==>
        if reply.Err? then IsGiven(env, ops, i)
        else !op.AddInput? && (GivesWitness(op, i) || IsGiven(env, ops, i))
  {
    if t: nat :| GivenAt(env, ops + [op], i, t) {
      GivenAtOneMore(env, ops, op, i, t);
    }
    if t: nat :| GivenAt(env, ops, i, t) {
      GivenAtOneMore(env, ops, op, i, t);
    }
    GivenAtOneMore(env, ops, op, i, |ops|);
  }

  /** What the plain machine keeps of a witness that call `op` gave. */
  predicate IsSlotBy(op: Op, slot: Slot) {
    match op
    case SignInput(_, keyPair, _) => slot == SignedBy(keyPair)
    case AddWitness(_, data) => slot == HandedIn(data)
    case _ => false
  }

  ghost predicate SlotKnown(env: Env, ops: seq<Op>, p: Machine, i: nat) {
    && (IsGiven(env, ops, i) <==> i < |p.slots| && p.slots[i] != Missing)
    && forall t: nat {:trigger GivenAt(env, ops, i, t)} :: GivenAt(env, ops, i, t) ==>
         i < |p.slots| && IsSlotBy(ops[t], p.slots[i])
  }

  /** An input has the witness last given to it, unless an input was added since. */
  lemma {:induction false} SlotHistory(env: Env, ops: seq<Op>, i: nat)
    ensures SlotKnown(env, ops, StateAfter(env, ops), i)
  {
    if ops != [] {
      var front, op := ops[..|ops| - 1], ops[|ops| - 1];
      SlotHistory(env, front, i);
      assert front + [op] == ops;
      SlotStep(env, front, op, i);
    }
  }

  lemma SlotStep(env: Env, ops: seq<Op>, op: Op, i: nat)
    requires SlotKnown(env, ops, StateAfter(env, ops), i)
    ensures SlotKnown(env, ops + [op], StateAfter(env, ops + [op]), i)
  {
    OneMoreCall(env, ops, op);
    GivenInOneMore(env, ops, op, i);
    SlotAfter(env, StateAfter(env, ops), op, i);
    forall t: nat | GivenAt(env, ops + [op], i, t)
      ensures var q := StateAfter(env, ops + [op]); i < |q.slots| && IsSlotBy((ops + [op])[t], q.slots[i])
    {
      GivenAtOneMore(env, ops, op, i, t);
    }
  }

  lemma SlotAfter(env: Env, p: Machine, op: Op, i: nat)
    ensures var (q, reply) := Perform(env, p, op);
      if reply.Ok? && op.AddInput? then
        i < |q.slots| ==> q.slots[i] == Missing
      else if reply.Ok? && GivesWitness(op, i) then
        i < |q.slots| == |p.slots| && IsSlotBy(op, q.slots[i]) && q.slots[i] != Missing
      else
        |q.slots| == |p.slots| && (i < |p.slots| ==> q.slots[i] == p.slots[i])
  {
  }

  /** The transaction that the calls of the run describe. */
  function Described(env: Env, ops: seq<Op>): RawDeposit {
    RawDeposit(PointersAdded(env, ops), env.stakingAddress, env.chain)
  }

  /** Whether the transaction can be built, and why not. */
  function Buildable(env: Env, ops: seq<Op>): Result<(), Error> {
    if PointersAdded(env, ops) == [] then Err(NoInput)
    else if !env.builds(Described(env, ops)) then Err(NativeError)
    else Ok(())
  }

  lemma BuiltIsDescribed(env: Env, ops: seq<Op>)
    ensures var p := StateAfter(env, ops);
      && p.pointers == PointersAdded(env, ops) && Tx(env, p) == Described(env, ops)
      && Built(env, p) == Buildable(env, ops)
  {
    PointersHistory(env, ops);
  }

  /** Every input has been given a witness since an input was last added. */
  ghost predicate AllGiven(env: Env, ops: seq<Op>) {
    forall i: nat :: i < |PointersAdded(env, ops)| ==> IsGiven(env, ops, i)
  }

  lemma CompletedWhenGiven(env: Env, ops: seq<Op>)
    ensures Completed(StateAfter(env, ops)) <==> PointersAdded(env, ops) != [] && AllGiven(env, ops)
  {
    PointersHistory(env, ops);
    var p := StateAfter(env, ops);
    forall i: nat | i < |p.slots|
      ensures p.slots[i] != Missing <==> IsGiven(env, ops, i)
    {
      SlotHistory(env, ops, i);
    }
  }

  /** What `txId`, `toUnsignedHex` and `isCompleted` answer after any run. */
  lemma AnswersAfterRun(env: Env, ops: seq<Op>)
    ensures var (p, tx) := (StateAfter(env, ops), RawDeposit(PointersAdded(env, ops), env.stakingAddress, env.chain));
      && (match Buildable(env, ops)
          case Err(e) => Perform(env, p, TxId).1 == Perform(env, p, ToUnsignedHex).1 == Err(e)
          case Ok(_) => Perform(env, p, TxId).1 == Ok(Id(env.txId(tx)))
                        && Perform(env, p, ToUnsignedHex).1 == Ok(Unsigned(tx)))
      && Perform(env, p, IsCompleted).1 == Ok(Flag(PointersAdded(env, ops) != [] && AllGiven(env, ops)))
  {
    BuiltIsDescribed(env, ops);
    CompletedWhenGiven(env, ops);
  }

  /** What `signInput`, `addWitness` and `hasWitness` answer after any run. */
  lemma WitnessingAfterRun(env: Env, ops: seq<Op>, index: int, keyPair: KeyPair, data: Bytes, accepted: bool)
    ensures var (p, n) := (StateAfter(env, ops), |PointersAdded(env, ops)|);
      && Perform(env, p, HasWitness(index)).1 ==
           (if 0 <= index < n then Ok(Flag(IsGiven(env, ops, index))) else Err(IndexOutOfBound))
      && Perform(env, p, AddWitness(index, data)).1 ==
           (if n == 0 then Err(NoInput) else if 0 <= index < n then Ok(Done) else Err(IndexOutOfBound))
      && Perform(env, p, SignInput(index, keyPair, accepted)).1 ==
           (if Buildable(env, ops).Err? then Err(Buildable(env, ops).error)
            else if !(0 <= index < n) then Err(IndexOutOfBound)
            else if accepted then Ok(Done) else Err(NativeError))
  {
    BuiltIsDescribed(env, ops);
    if 0 <= index < |PointersAdded(env, ops)| {
      SlotHistory(env, ops, index);
    }
  }

  /** The bytes of a witness that call `op` gave, in a transaction with the given id. */
  predicate IsWitnessBy(env: Env, op: Op, id: Bytes, data: Bytes) {
    match op
    case SignInput(_, keyPair, _) => data == env.sign(keyPair, id)
    case AddWitness(_, handedIn) => data == handedIn
    case _ => false
  }

  /**
   * What `toHex` answers after any run: the inputs of the calls in their order, the staking address and the chain, and
   * for each input, at its place, the witness that stands; each signature is over the id of the very transaction.
   */
  lemma HexAfterRun(env: Env, ops: seq<Op>, accepted: bool)
    ensures var r := Perform(env, StateAfter(env, ops), ToHex(accepted)).1;
      var tx := RawDeposit(PointersAdded(env, ops), env.stakingAddress, env.chain);
      if Buildable(env, ops).Err? then r == Err(Buildable(env, ops).error)
      else if !AllGiven(env, ops) then r == Err(NotCompleted)
      else if !accepted then r == Err(NativeError)
      else r.Ok? && r.value.Signed? && r.value.signed == tx && |r.value.witnesses| == |tx.inputs|
           && forall i: nat, t: nat {:trigger GivenAt(env, ops, i, t)} :: GivenAt(env, ops, i, t) ==>
                i < |tx.inputs| && IsWitnessBy(env, ops[t], env.txId(tx), r.value.witnesses[i])
  {
    BuiltIsDescribed(env, ops);
    CompletedWhenGiven(env, ops);
    var p := StateAfter(env, ops);
    if Buildable(env, ops).Ok? && AllGiven(env, ops) {
      var witnesses := Export(env, p);
      forall i: nat, t: nat | GivenAt(env, ops, i, t)
        ensures i < |p.slots| && IsWitnessBy(env, ops[t], env.txId(Tx(env, p)), witnesses[i])
      {
        SlotHistory(env, ops, i);
      }
    }
  }

  ghost function PointersOf(inputs: seq<WitnessedPointer>): seq<PrevOutputPointer> {
    seq(|inputs|, i requires 0 <= i < |inputs| => inputs[i].prevOutputPointer)
  }

  class DepositTransactionBuilder {
    const env: Env
    var inputs: seq<WitnessedPointer>
    var unsignedRawTx: Option<RawDeposit>
    var innerTxId: Option<Bytes>
    ghost var slots: seq<Slot>

    ghost function CurrentTx(): RawDeposit
      reads this
    {
      RawDeposit(PointersOf(inputs), env.stakingAddress, env.chain)
    }

    /**
     * The cached transaction and id are both absent or both those of the current inputs, and every witness is what
     * its slot means for the current id.
     */
    ghost predicate Valid()
      reads this
    {
      && |slots| == |inputs|
      && (unsignedRawTx == None ==> innerTxId == None)
      && (unsignedRawTx.Some? ==>
            && inputs != [] && env.builds(CurrentTx())
            && unsignedRawTx == Some(CurrentTx()) && innerTxId == Some(env.txId(CurrentTx())))
      && forall i :: 0 <= i < |inputs| ==> inputs[i].witnessData == Meaning(env, slots[i], env.txId(CurrentTx()))
    }

    ghost function Abs(): Machine
      requires Valid()
      reads this
    {
      Plain(PointersOf(inputs), slots)
    }

    constructor (env: Env)
      ensures Valid() && Abs() == EMPTY && this.env == env
    {
      this.env := env;
      inputs, unsignedRawTx, innerTxId, slots := [], None, None, [];
    }

    method AddInputCall(pointer: PrevOutputPointer) returns (r: Result<Reply, Error>)
      requires Valid()
      modifies this
      ensures Valid() && (Abs(), r) == Perform(env, old(Abs()), AddInput(pointer))
      ensures if pointer.prevIndex < 65536 then r == Ok(Done) else r == Err(InvalidArgument)
      ensures r.Ok? ==> PointersOf(inputs) == PointersOf(old(inputs)) + [pointer]
      ensures r.Ok? ==> unsignedRawTx == None && innerTxId == None
      ensures r.Ok? ==> forall i :: 0 <= i < |inputs| ==> inputs[i].witnessData == None
    {
      if !ValidPointer(pointer) {
        return Err(InvalidArgument);
      }
      ClearWitnesses();
      unsignedRawTx, innerTxId := None, None;
      inputs := inputs + [WitnessedPointer(pointer, None)];
      slots := AllMissing(|inputs|);
      assert PointersOf(inputs) == PointersOf(old(inputs)) + [pointer];
      r := Ok(Done);
    }

    method ClearWitnesses()
      modifies this`inputs
      ensures |inputs| == |old(inputs)|
      ensures forall i :: 0 <= i < |inputs| ==> inputs[i] == WitnessedPointer(old(inputs)[i].prevOutputPointer, None)
    {
      var l := |inputs|;
      for i := 0 to l
        invariant |inputs| == l == |old(inputs)|
        invariant forall j :: 0 <= j < l ==>
          inputs[j] == if j < i then WitnessedPointer(old(inputs)[j].prevOutputPointer, None) else old(inputs)[j]
      {
        inputs := inputs[i := inputs[i].(witnessData := None)];
      }
    }

    method PrepareRawTx() returns (r: Result<(), Error>)
      requires Valid() && inputs != []
      modifies this`unsignedRawTx, this`innerTxId
      ensures Valid() && Abs() == old(Abs())
      ensures r.Ok? ==> unsignedRawTx == Some(RawDeposit(PointersOf(inputs), env.stakingAddress, env.chain))
      ensures r == Built(env, Abs())
    {
      var all := inputs;
      var pointers := seq(|all|, i requires 0 <= i < |all| => all[i].prevOutputPointer);
      assert pointers == PointersOf(inputs);
      var tx := RawDeposit(pointers, env.stakingAddress, env.chain);
      if !env.builds(tx) {
        return Err(NativeError);
      }
      unsignedRawTx, innerTxId := Some(tx), Some(env.txId(tx));
      r := Ok(());
    }

    /** What `txId`, `signInput` and `toHex` begin with. */
    method EnsurePrepared() returns (r: Result<(), Error>)
      requires Valid()
      modifies this`unsignedRawTx, this`innerTxId
      ensures Valid() && Abs() == old(Abs())
      ensures r == Built(env, Abs())
      ensures r.Ok? ==> unsignedRawTx.Some?
    {
      if unsignedRawTx == None {
        if inputs == [] {
          return Err(NoInput);
        }
        r := PrepareRawTx();
        return;
      }
      r := Ok(());
    }

    method TxIdCall() returns (r: Result<Reply, Error>)
      requires Valid()
      modifies this
      ensures Valid() && (Abs(), r) == Perform(env, old(Abs()), TxId)
    {
      var prepared := EnsurePrepared();
      if prepared.Err? {
        return Err(prepared.error);
      }
      r := Ok(Id(innerTxId.value));
    }

    method SignInputCall(index: int, keyPair: KeyPair, accepted: bool) returns (r: Result<Reply, Error>)
      requires Valid()
      modifies this
      ensures Valid() && (Abs(), r) == Perform(env, old(Abs()), SignInput(index, keyPair, accepted))
    {
      var prepared := EnsurePrepared();
      if prepared.Err? {
        return Err(prepared.error);
      }
      if index < 0 || index >= |inputs| {
        return Err(IndexOutOfBound);
      }
      if !accepted {
        return Err(NativeError);
      }
      SetWitness(index, env.sign(keyPair, innerTxId.value), SignedBy(keyPair));
      r := Ok(Done);
    }

    method AddWitnessCall(index: int, data: Bytes) returns (r: Result<Reply, Error>)
      requires Valid()
      modifies this
      ensures Valid() && (Abs(), r) == Perform(env, old(Abs()), AddWitness(index, data))
    {
      if inputs == [] {
        return Err(NoInput);
      }
      if index < 0 || index >= |inputs| {
        return Err(IndexOutOfBound);
      }
      SetWitness(index, data, HandedIn(data));
      r := Ok(Done);
    }

    method SetWitness(index: nat, data: Bytes, ghost slot: Slot)
      requires Valid() && index < |inputs| && Meaning(env, slot, env.txId(CurrentTx())) == Some(data)
      modifies this`inputs, this`slots
      ensures Valid() && Abs() == old(Abs()).(slots := old(slots)[index := slot])
    {
      inputs := inputs[index := inputs[index].(witnessData := Some(data))];
      slots := slots[index := slot];
      assert PointersOf(inputs) == PointersOf(old(inputs));
    }

    method HasWitnessCall(index: int) returns (r: Result<Reply, Error>)
      requires Valid()
      ensures r == Perform(env, Abs(), HasWitness(index)).1
    {
      if index < 0 || index >= |inputs| {
        return Err(IndexOutOfBound);
      }
      r := Ok(Flag(inputs[index].witnessData.Some?));
    }

    method ToUnsignedHexCall() returns (r: Result<Reply, Error>)
      requires Valid()
      modifies this
      ensures Valid() && (Abs(), r) == Perform(env, old(Abs()), ToUnsignedHex)
    {
      if inputs == [] {
        return Err(NoInput);
      }
      if unsignedRawTx == None {
        var prepared := PrepareRawTx();
        if prepared.Err? {
          return Err(prepared.error);
        }
      }
      r := Ok(Unsigned(unsignedRawTx.value));
    }

    method IsCompletedCall() returns (r: Result<Reply, Error>)
      requires Valid()
      ensures r == Perform(env, Abs(), IsCompleted).1
    {
      r := Ok(Flag(inputs != [] && forall i :: 0 <= i < |inputs| ==> inputs[i].witnessData.Some?));
    }

    method ToHexCall(accepted: bool) returns (r: Result<Reply, Error>)
      requires Valid()
      modifies this
      ensures Valid() && (Abs(), r) == Perform(env, old(Abs()), ToHex(accepted))
    {
      var prepared := EnsurePrepared();
      if prepared.Err? {
        return Err(prepared.error);
      }
      var completed := IsCompletedCall();
      if !completed.value.flag {
        return Err(NotCompleted);
      }
      var all := inputs;
      var witnesses := seq(|all|, i requires 0 <= i < |all| && all[i].witnessData.Some? => all[i].witnessData.value);
      assert witnesses == Export(env, Abs());
      if !accepted {
        return Err(NativeError);
      }
      r := Ok(Signed(unsignedRawTx.value, witnesses));
    }

    method Call(op: Op) returns (r: Result<Reply, Error>)
      requires Valid()
      modifies this
      ensures Valid() && (Abs(), r) == Perform(env, old(Abs()), op)
    {
      match op
      case AddInput(pointer) => r := AddInputCall(pointer);
      case TxId => r := TxIdCall();
      case SignInput(index, keyPair, accepted) => r := SignInputCall(index, keyPair, accepted);
      case AddWitness(index, data) => r := AddWitnessCall(index, data);
      case HasWitness(index) => r := HasWitnessCall(index);
      case ToUnsignedHex => r := ToUnsignedHexCall();
      case IsCompleted => r := IsCompletedCall();
      case ToHex(accepted) => r := ToHexCall(accepted);
    }

    /** Every sequence of calls behaves as on the plain machine. */
    method CallAll(ops: seq<Op>) returns (replies: seq<Result<Reply, Error>>)
      requires Valid()
      modifies this
      ensures Valid() && (Abs(), replies) == PerformAll(env, old(Abs()), ops)
    {
      replies := [];
      for i := 0 to |ops|
        invariant Valid() && (Abs(), replies) == PerformAll(env, old(Abs()), ops[..i])
      {
        var r := Call(ops[i]);
        replies := replies + [r];
        assert ops[..i + 1][..i] == ops[..i];
      }
      assert ops[..|ops|] == ops;
    }
  }
}
