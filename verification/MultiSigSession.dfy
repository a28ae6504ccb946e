/**
 * One signer's session of the multi-signature protocol (lib/src/multi_sig/multi_sig_session.ts).
 *
 * The protocol has three rounds, in which the signers exchange nonce commitments, nonces and partial signatures, and
 * a last stage that produces the signature. The native side of a session is not part of this model: what it answers
 * is a parameter of each call, and `MayAccept`, `MustAccept`, `MayGenerate` and `MustGenerate` say what it may answer.
 */
module MultiSigSession {
  import opened Wrappers
  import opened Bytes
  import opened KeyCombination

  const COMMITMENT: nat := 0
  const NONCE: nat := 1
  const PARTIAL: nat := 2
  const FINAL: nat := 3

  ghost predicate Distinct(keys: seq<Key>) {
    forall i, j :: 0 <= i < j < |keys| ==> keys[i] != keys[j]
  }

  ghost function KeySet(keys: seq<Key>): set<Key> {
    set k | k in keys
  }

  /** `own`: what this session generated; `cache`: the Buffers added so far; `accepted`: what the native side holds. */
  datatype Round = Round(own: Option<Buffer>, cache: seq<Buffer>, accepted: map<Key, Bytes>) {

    ghost predicate Valid(coSigners: set<Key>) {
      accepted.Keys <= coSigners && |cache| == |accepted|
    }
  }

  datatype Session = Session(
    self: Key, signers: seq<Key>, commitment: Round, nonce: Round, partial: Round, signature: Option<Buffer>) {

    function Get(round: nat): Round
      requires round < FINAL
    {
      if round == COMMITMENT then commitment else if round == NONCE then nonce else partial
    }

    function With(round: nat, value: Round): Session
      requires round < FINAL
    {
      if round == COMMITMENT then this.(commitment := value)
      else if round == NONCE then this.(nonce := value)
      else this.(partial := value)
    }

    /** The signers other than this one. */
    ghost function CoSigners(): set<Key> {
      KeySet(signers) - {self}
    }

    /** Whether the output of a stage has been generated. */
    predicate Generated(stage: nat)
      requires stage <= FINAL
    {
      if stage == FINAL then signature.Some? else Get(stage).own.Some?
    }

    /** The session's own check before a stage: as many cached Buffers as there are co-signers. */
    predicate HasCollectedAll(round: nat)
      requires round < FINAL
    {
      |Get(round).cache| == |signers| - 1
    }

    /** What holds of every session: one cached Buffer for each value the native side took from a co-signer. */
    ghost predicate Consistent() {
      commitment.Valid(CoSigners()) && nonce.Valid(CoSigners()) && partial.Valid(CoSigners())
    }

    /** A session whose signers are distinct. */
    ghost predicate Valid() {
      |signers| >= 2 && |CoSigners()| == |signers| - 1 && Consistent()
    }
  }

  datatype Error = NotAllCollected(stage: nat) | AlreadyAdded(round: nat) | NativeError

  function Fresh(self: Key, signers: seq<Key>): Session {
    Session(self, signers, Round(None, [], map[]), Round(None, [], map[]), Round(None, [], map[]), None)
  }

  // What the native side may answer. At most one value is taken for each co-signer in each round; the comment at
  // native/src/multi_sig.rs:192-193 says so of nonces, and the model takes it for all three rounds. Beyond that the
  // native side is free to refuse a value whose sender's previous value it does not have yet.

  ghost predicate MayAccept(s: Session, round: nat, from: Key)
    requires round < FINAL
  {
    from in s.CoSigners() && from !in s.Get(round).accepted
  }

  ghost predicate MustAccept(s: Session, round: nat, from: Key)
    requires round < FINAL
  {
    MayAccept(s, round, from) && (round > 0 ==> from in s.Get(round - 1).accepted)
  }

  /** A stage builds on the session's own output of the stage before. */
  ghost predicate MayGenerate(s: Session, stage: nat)
    requires stage <= FINAL
  {
    stage > 0 ==> s.Generated(stage - 1)
  }

  ghost predicate MustGenerate(s: Session, stage: nat)
    requires stage <= FINAL
  {
    && MayGenerate(s, stage) && !s.Generated(stage)
    && (stage > 0 ==> s.Get(stage - 1).accepted.Keys == s.CoSigners())
  }

  /** Generating the output of a stage; `answer` is what the native side returns, `None` when it throws. */
  function Generate(s: Session, stage: nat, answer: Option<Buffer>): (Session, Result<Buffer, Error>)
    requires stage <= FINAL
  {
    if stage > 0 && !s.HasCollectedAll(stage - 1) then (s, Err(NotAllCollected(stage)))
    else match answer
      case None => (s, Err(NativeError))
      case Some(buffer) =>
        (if stage == FINAL then s.(signature := answer)
         else s.With(stage, s.Get(stage).(own := answer)), Ok(buffer))
  }

  /** Whether this very Buffer object was added before; equal bytes in another Buffer do not count. */
  predicate HasThisBuffer(cache: seq<Buffer>, buffer: Buffer) {
    exists i :: 0 <= i < |cache| && cache[i].id == buffer.id
  }

  /** Adding a co-signer's value; `accepted` is whether the native side takes it. */
  function Add(s: Session, round: nat, from: Key, buffer: Buffer, accepted: bool): (Session, Result<(), Error>)
    requires round < FINAL
  {
    var current := s.Get(round);
    if HasThisBuffer(current.cache, buffer) then (s, Err(AlreadyAdded(round)))
    else if !accepted then (s, Err(NativeError))
    else
      (s.With(round, Round(current.own, current.cache + [buffer], current.accepted[from := buffer.data])), Ok(()))
  }

  /** The output of a stage. */
  function Output(s: Session, stage: nat): Option<Buffer>
    requires stage <= FINAL
  {
    if stage == FINAL then s.signature else s.Get(stage).own
  }

  /**
   * Generating: refused by the session when the round before is not collected, then by the native side; otherwise the
   * output of that stage, and nothing else, becomes the very Buffer that the native side returned.
   */
  lemma GenerateOutcome(s: Session, stage: nat, answer: Option<Buffer>)
    requires stage <= FINAL
    ensures var (g, r) := Generate(s, stage, answer);
      if stage > 0 && |s.Get(stage - 1).cache| != |s.signers| - 1 then g == s && r == Err(NotAllCollected(stage))
      else if answer == None then g == s && r == Err(NativeError)
      else r == Ok(answer.value) && SameCollected(s, g)
           && forall p :: 0 <= p <= FINAL ==> Output(g, p) == if p == stage then answer else Output(s, p)
  {
  }

  /** Adding: a Buffer object added before is refused, then the native side may; otherwise both sides keep the value. */
  lemma AddOutcome(s: Session, round: nat, from: Key, buffer: Buffer, accepted: bool)
    requires round < FINAL
    ensures var ((a, r), current) := (Add(s, round, from, buffer, accepted), s.Get(round));
      && (if exists i :: 0 <= i < |current.cache| && current.cache[i].id == buffer.id
          then a == s && r == Err(AlreadyAdded(round))
          else if !accepted then a == s && r == Err(NativeError)
          else r == Ok(()) && a.Get(round).cache == current.cache + [buffer]
               && a.Get(round).accepted == current.accepted[from := buffer.data])
      && a.self == s.self && a.signers == s.signers && (forall p :: 0 <= p <= FINAL ==> Output(a, p) == Output(s, p))
      && forall p :: 0 <= p < FINAL && p != round ==> a.Get(p) == s.Get(p)
  {
  }

  /** A Buffer that was added is refused from then on, whoever it is said to come from. */
  lemma AddedIsRefused(
      s: Session, round: nat, from: Key, buffer: Buffer, again: Buffer, from': Key, accepted: bool)
    requires round < FINAL && Add(s, round, from, buffer, true).1.Ok? && again.id == buffer.id
    ensures var a := Add(s, round, from, buffer, true).0;
      Add(a, round, from', again, accepted) == (a, Err(AlreadyAdded(round)))
  {
    var a := Add(s, round, from, buffer, true).0;
    assert a.Get(round).cache[|s.Get(round).cache|] == buffer;
  }

  /** What `verify` answers: it checks the signature given, else the session's own. */
  function VerifyOutcome(scheme: Scheme, s: Session, message: string, given: Option<Bytes>): Result<bool, VerifyError> {
    if given.Some? then Verification(scheme, given.value, message, s.signers)
    else if s.signature.Some? then Verification(scheme, s.signature.value.data, message, s.signers)
    else Err(NotReady)
  }

  /** Signing and then verifying checks the very signature that the native side produced. */
  lemma SignThenVerify(scheme: Scheme, s: Session, message: string, produced: Buffer)
    requires s.HasCollectedAll(PARTIAL)
    ensures var (g, r) := Generate(s, FINAL, Some(produced));
      && r == Ok(produced) && g.signature == Some(produced)
      && VerifyOutcome(scheme, g, message, None) == Verification(scheme, produced.data, message, s.signers)
  {
  }

  /** Opening a session on a list of keys that includes its own. */
  lemma FreshIsValid(self: Key, signers: seq<Key>)
    requires self in signers && |signers| >= 2
    ensures Fresh(self, signers).Consistent()
    ensures Fresh(self, signers).Valid() <==> Distinct(signers)
  {
    DistinctExactlyByCount(signers);
    assert KeySet(signers) == Fresh(self, signers).CoSigners() + {self};
  }

  /** With a key listed twice no round is ever collected, so no stage after the first is ever generated. */
  lemma RepeatedKeysNeverPass(s: Session, round: nat, answer: Option<Buffer>)
    requires s.Consistent() && s.self in s.signers && !Distinct(s.signers) && round < FINAL
    ensures !s.HasCollectedAll(round)
    ensures Generate(s, round + 1, answer) == (s, Err(NotAllCollected(round + 1)))
  {
    DistinctExactlyByCount(s.signers);
    assert KeySet(s.signers) == s.CoSigners() + {s.self};
    SubsetCount(s.Get(round).accepted.Keys, s.CoSigners());
    assert |s.Get(round).accepted| == |s.Get(round).accepted.Keys|;
  }

  /** A list has as many members as places exactly when nothing is listed twice. */
  lemma {:induction false} DistinctExactlyByCount(keys: seq<Key>)
    ensures |KeySet(keys)| == |keys| <==> Distinct(keys)
    ensures |KeySet(keys)| <= |keys|
  {
    if keys != [] {
      DistinctExactlyByCount(keys[1..]);
      assert KeySet(keys) == KeySet(keys[1..]) + {keys[0]};
    }
  }

  lemma SubsetOfSameSize<T>(a: set<T>, b: set<T>)
    requires a <= b && |a| >= |b|
    ensures a == b
  {
    assert b == a + (b - a);
    assert |b| == |a| + |b - a|;
  }

  /** The pigeonhole step: a full cache means one value from every co-signer, and nothing less does. */
  lemma FullCacheMeansEveryCoSigner(s: Session, round: nat)
    requires s.Valid() && round < FINAL
    ensures s.HasCollectedAll(round) <==> s.Get(round).accepted.Keys == s.CoSigners()
    ensures |s.Get(round).accepted| <= |s.signers| - 1
  {
    var taken := s.Get(round).accepted.Keys;
    assert |taken| == |s.Get(round).accepted|;
    SubsetCount(taken, s.CoSigners());
    if s.HasCollectedAll(round) {
      SubsetOfSameSize(taken, s.CoSigners());
    }
  }

  lemma SubsetCount<T>(a: set<T>, b: set<T>)
    requires a <= b
    ensures |a| <= |b|
  {
    assert b == a + (b - a);
  }

  ghost predicate SameCollected(s: Session, t: Session) {
    && s.self == t.self && s.signers == t.signers
    && s.commitment.cache == t.commitment.cache && s.commitment.accepted == t.commitment.accepted
    && s.nonce.cache == t.nonce.cache && s.nonce.accepted == t.nonce.accepted
    && s.partial.cache == t.partial.cache && s.partial.accepted == t.partial.accepted
  }

  /** Generating keeps a session consistent and leaves what was collected alone. */
  lemma GenerateKeepsValid(s: Session, stage: nat, answer: Option<Buffer>)
    requires s.Consistent() && stage <= FINAL
    ensures SameCollected(s, Generate(s, stage, answer).0)
    ensures Generate(s, stage, answer).0.Consistent()
    ensures s.Valid() ==> Generate(s, stage, answer).0.Valid()
  {
    var g := Generate(s, stage, answer).0;
    GenerateOutcome(s, stage, answer);
    if g != s {
      if stage == FINAL {
        FinalKeepsRounds(s, answer);
      } else {
        WithKeepsValid(s, stage, s.Get(stage).(own := answer));
      }
    }
  }

  lemma FinalKeepsRounds(s: Session, answer: Option<Buffer>)
    requires s.Consistent()
    ensures var g := s.(signature := answer); g.Consistent() && (s.Valid() ==> g.Valid())
  {
    SameSigners(s, s.(signature := answer));
  }

  /** Adding keeps a session consistent as long as the native side keeps to its contract. */
  lemma AddKeepsValid(s: Session, round: nat, from: Key, buffer: Buffer, accepted: bool)
    requires s.Consistent() && round < FINAL
    requires accepted ==> MayAccept(s, round, from)
    ensures var a := Add(s, round, from, buffer, accepted).0;
      a.Consistent() && (s.Valid() ==> a.Valid()) && a.CoSigners() == s.CoSigners()
  {
    if accepted {
      AddToRound(s.Get(round), s.CoSigners(), from, buffer);
      var current := s.Get(round);
      WithKeepsValid(s, round, Round(current.own, current.cache + [buffer], current.accepted[from := buffer.data]));
    }
  }

  lemma WithKeepsValid(s: Session, round: nat, value: Round)
    requires s.Consistent() && round < FINAL && value.Valid(s.CoSigners())
    ensures s.With(round, value).Consistent() && s.With(round, value).CoSigners() == s.CoSigners()
    ensures s.Valid() ==> s.With(round, value).Valid()
  {
    var t := s.With(round, value);
    SameSigners(s, t);
    assert t.Get(round) == value;
    assert forall r :: 0 <= r < FINAL && r != round ==> t.Get(r) == s.Get(r);
    ValidByRounds(s);
    ValidByRounds(t);
  }

  lemma SameSigners(s: Session, t: Session)
    requires s.self == t.self && s.signers == t.signers
    ensures s.CoSigners() == t.CoSigners()
  {
  }

  lemma ValidByRounds(s: Session)
    ensures s.Consistent() <==> forall r :: 0 <= r < FINAL ==> s.Get(r).Valid(s.CoSigners())
  {
    if forall r :: 0 <= r < FINAL ==> s.Get(r).Valid(s.CoSigners()) {
      assert s.Get(COMMITMENT).Valid(s.CoSigners()) && s.Get(NONCE).Valid(s.CoSigners());
      assert s.Get(PARTIAL).Valid(s.CoSigners());
    }
  }

  lemma AddToRound(current: Round, coSigners: set<Key>, from: Key, buffer: Buffer)
    requires current.Valid(coSigners) && from in coSigners && from !in current.accepted
    ensures Round(current.own, current.cache + [buffer], current.accepted[from := buffer.data]).Valid(coSigners)
  {
    var taken := current.accepted[from := buffer.data];
    assert taken.Keys == current.accepted.Keys + {from};
    assert |taken| == |taken.Keys|;
  }

  /** What the native session holds of the co-signers, in the three rounds. */
  datatype NativeSession = NativeSession(
    commitments: map<Key, Bytes>, nonces: map<Key, Bytes>, partialSignatures: map<Key, Bytes>)

  /** The session object; each method does to `State()` what the function of the same step says. */
  class MultiSigSession {
    const message: string
    const selfKey: Key
    const signerPublicKeys: seq<Key>
    var session: NativeSession
    var nonceCommitment: Option<Buffer>
    var coSignerNonceCommitments: seq<Buffer>
    var nonce: Option<Buffer>
    var coSignerNonces: seq<Buffer>
    var partialSignature: Option<Buffer>
    var coSignerSignatures: seq<Buffer>
    var signature: Option<Buffer>

    function State(): Session
      reads this
    {
      Session(selfKey, signerPublicKeys,
              Round(nonceCommitment, coSignerNonceCommitments, session.commitments),
              Round(nonce, coSignerNonces, session.nonces),
              Round(partialSignature, coSignerSignatures, session.partialSignatures), signature)
    }

    constructor (message: string, selfKey: Key, signerPublicKeys: seq<Key>)
      ensures State() == Fresh(selfKey, signerPublicKeys) && this.message == message
      ensures this.selfKey == selfKey && this.signerPublicKeys == signerPublicKeys
      ensures nonceCommitment == nonce == partialSignature == signature == None
      ensures coSignerNonceCommitments == coSignerNonces == coSignerSignatures == []
      ensures session == NativeSession(map[], map[], map[])
    {
      this.message, this.selfKey, this.signerPublicKeys := message, selfKey, signerPublicKeys;
      session := NativeSession(map[], map[], map[]);
      nonceCommitment, nonce, partialSignature, signature := None, None, None, None;
      coSignerNonceCommitments, coSignerNonces, coSignerSignatures := [], [], [];
    }

    method GenerateNonceCommitment(answer: Option<Buffer>) returns (r: Result<Buffer, Error>)
      modifies this`nonceCommitment
      ensures (State(), r) == Generate(old(State()), COMMITMENT, answer)
      ensures r.Ok? <==> answer.Some?
      ensures nonceCommitment == if r.Ok? then Some(r.value) else old(nonceCommitment)
      ensures r.Ok? ==> Some(r.value) == answer
    {
      match answer {
        case None => return Err(NativeError);
        case Some(buffer) =>
          nonceCommitment := answer;
          r := Ok(buffer);
      }
    }

    method AddNonceCommitment(from: Key, buffer: Buffer, accepted: bool) returns (r: Result<(), Error>)
      modifies this`session, this`coSignerNonceCommitments
      ensures (State(), r) == Add(old(State()), COMMITMENT, from, buffer, accepted)
      ensures r.Ok? ==> coSignerNonceCommitments == old(coSignerNonceCommitments) + [buffer]
      ensures r.Ok? ==> session == old(session).(commitments := old(session).commitments[from := buffer.data])
    {
      if HasThisBuffer(coSignerNonceCommitments, buffer) {
        return Err(AlreadyAdded(COMMITMENT));
      }
      if !accepted {
        return Err(NativeError);
      }
      session := session.(commitments := session.commitments[from := buffer.data]);
      coSignerNonceCommitments := coSignerNonceCommitments + [buffer];
      r := Ok(());
    }

    method GenerateNonce(answer: Option<Buffer>) returns (r: Result<Buffer, Error>)
      modifies this`nonce
      ensures (State(), r) == Generate(old(State()), NONCE, answer)
      ensures r.Ok? <==> |coSignerNonceCommitments| == |signerPublicKeys| - 1 && answer.Some?
      ensures nonce == if r.Ok? then Some(r.value) else old(nonce)
      ensures r.Ok? ==> Some(r.value) == answer
    {
      if |coSignerNonceCommitments| != TotalExternalCoSigners() {
        return Err(NotAllCollected(NONCE));
      }
      match answer {
        case None => return Err(NativeError);
        case Some(buffer) =>
          nonce := answer;
          r := Ok(buffer);
      }
    }

    method AddNonce(from: Key, buffer: Buffer, accepted: bool) returns (r: Result<(), Error>)
      modifies this`session, this`coSignerNonces
      ensures (State(), r) == Add(old(State()), NONCE, from, buffer, accepted)
      ensures r.Ok? ==> coSignerNonces == old(coSignerNonces) + [buffer]
      ensures r.Ok? ==> session == old(session).(nonces := old(session).nonces[from := buffer.data])
    {
      if HasThisBuffer(coSignerNonces, buffer) {
        return Err(AlreadyAdded(NONCE));
      }
      if !accepted {
        return Err(NativeError);
      }
      session := session.(nonces := session.nonces[from := buffer.data]);
      coSignerNonces := coSignerNonces + [buffer];
      r := Ok(());
    }

    method PartialSign(answer: Option<Buffer>) returns (r: Result<Buffer, Error>)
      modifies this`partialSignature
      ensures (State(), r) == Generate(old(State()), PARTIAL, answer)
      ensures r.Ok? <==> |coSignerNonces| == |signerPublicKeys| - 1 && answer.Some?
      ensures partialSignature == if r.Ok? then Some(r.value) else old(partialSignature)
      ensures r.Ok? ==> Some(r.value) == answer
    {
      if |coSignerNonces| != TotalExternalCoSigners() {
        return Err(NotAllCollected(PARTIAL));
      }
      match answer {
        case None => return Err(NativeError);
        case Some(buffer) =>
          partialSignature := answer;
          r := Ok(buffer);
      }
    }

    method AddPartialSignature(from: Key, buffer: Buffer, accepted: bool) returns (r: Result<(), Error>)
      modifies this`session, this`coSignerSignatures
      ensures (State(), r) == Add(old(State()), PARTIAL, from, buffer, accepted)
      ensures r.Ok? ==> coSignerSignatures == old(coSignerSignatures) + [buffer]
      ensures r.Ok? ==>
        session == old(session).(partialSignatures := old(session).partialSignatures[from := buffer.data])
    {
      if HasThisBuffer(coSignerSignatures, buffer) {
        return Err(AlreadyAdded(PARTIAL));
      }
      if !accepted {
        return Err(NativeError);
      }
      session := session.(partialSignatures := session.partialSignatures[from := buffer.data]);
      coSignerSignatures := coSignerSignatures + [buffer];
      r := Ok(());
    }

    method Sign(answer: Option<Buffer>) returns (r: Result<Buffer, Error>)
      modifies this`signature
      ensures (State(), r) == Generate(old(State()), FINAL, answer)
      ensures r.Ok? <==> |coSignerSignatures| == |signerPublicKeys| - 1 && answer.Some?
      ensures signature == if r.Ok? then Some(r.value) else old(signature)
      ensures r.Ok? ==> Some(r.value) == answer
    {
      if |coSignerSignatures| != TotalExternalCoSigners() {
        return Err(NotAllCollected(FINAL));
      }
      match answer {
        case None => return Err(NativeError);
        case Some(buffer) =>
          signature := answer;
          r := Ok(buffer);
      }
    }

    /** Checks a given signature, or this session's own when none is given. */
    method Verify(scheme: Scheme, given: Option<Bytes>) returns (r: Result<bool, VerifyError>)
      ensures r == VerifyOutcome(scheme, State(), message, given)
      ensures given == None && signature == None ==> r == Err(NotReady)
      ensures given.Some? ==> r == Verification(scheme, given.value, message, signerPublicKeys)
      ensures given == None && signature.Some? ==>
        r == Verification(scheme, signature.value.data, message, signerPublicKeys)
    {
      var checked: Bytes;
      if given == None {
        if signature == None {
          return Err(NotReady);
        }
        checked := signature.value.data;
      } else {
        checked := given.value;
      }
      var keys := new Key[|signerPublicKeys|](i requires 0 <= i < |signerPublicKeys| => signerPublicKeys[i]);
      assert keys[..] == signerPublicKeys;
      r := VerifyNative(scheme, checked, message, keys);
    }

    function TotalExternalCoSigners(): int {
      |signerPublicKeys| - 1
    }
  }

  datatype BuilderError = NoCoSigner | RequiredSignersOutOfRange

  datatype SessionError = EmptyMessage | NotOpened

  /** What one signer needs to open sessions (lib/src/multi_sig/multi_sig_builder.ts). */
  class MultiSigBuilder {
    const selfKey: Key
    const signerPublicKeys: seq<Key>
    const requiredSignerNumber: real
    var multiSigAddress: Option<string>

    constructor (selfKey: Key, coSignerPublicKeys: seq<Key>, requiredSignerNumber: real)
      requires Accepts(coSignerPublicKeys, requiredSignerNumber) == Ok(())
      ensures this.selfKey == selfKey && signerPublicKeys == SignerList(coSignerPublicKeys, selfKey)
      ensures this.requiredSignerNumber == requiredSignerNumber && multiSigAddress == None
    {
      this.selfKey, this.requiredSignerNumber := selfKey, requiredSignerNumber;
      signerPublicKeys := coSignerPublicKeys + [selfKey];
      multiSigAddress := None;
    }

    /** The checks the constructor makes, in their order. */
    static function Accepts(coSigners: seq<Key>, requiredSignerNumber: real): Result<(), BuilderError> {
      if coSigners == [] then Err(NoCoSigner)
      else if requiredSignerNumber < 1.0 || requiredSignerNumber > (|coSigners| + 1) as real
      then Err(RequiredSignersOutOfRange)
      else Ok(())
    }

    /** What a caller of the constructor gets: the builder, or the check that failed. */
    static method Create(selfKey: Key, coSignerPublicKeys: seq<Key>, requiredSignerNumber: real)
        returns (r: Result<MultiSigBuilder, BuilderError>)
      ensures r.Err? ==> r.error == if coSignerPublicKeys == [] then NoCoSigner else RequiredSignersOutOfRange
      ensures r.Ok? ==> r.value.signerPublicKeys == coSignerPublicKeys + [selfKey]
      ensures r.Ok? ==> r.value.selfKey == selfKey && r.value.requiredSignerNumber == requiredSignerNumber
      ensures r.Ok? <==> coSignerPublicKeys != [] && 1.0 <= requiredSignerNumber <= (|coSignerPublicKeys| + 1) as real
    {
      var accepted := Accepts(coSignerPublicKeys, requiredSignerNumber);
      if accepted.Err? {
        return Err(accepted.error);
      }
      var b := new MultiSigBuilder(selfKey, coSignerPublicKeys, requiredSignerNumber);
      r := Ok(b);
    }

    /** `accepted` is whether the native side opens its session on this message and these keys. */
    method CreateNewSession(message: string, accepted: bool) returns (r: Result<MultiSigSession, SessionError>)
      ensures r.Ok? <==> message != "" && accepted
      ensures r.Err? ==> r.error == if message == "" then EmptyMessage else NotOpened
      ensures r.Ok? ==> fresh(r.value) && r.value.message == message
      ensures r.Ok? ==> r.value.State() == Fresh(selfKey, signerPublicKeys)
      ensures r.Ok? ==> r.value.selfKey == selfKey && r.value.signerPublicKeys == signerPublicKeys
    {
      if message == "" {
        return Err(EmptyMessage);
      }
      if !accepted {
        return Err(NotOpened);
      }
      var s := new MultiSigSession(message, selfKey, signerPublicKeys);
      r := Ok(s);
    }
  }
}
