/**
 * All sessions of one multi-signature together with the messages in flight, and every run they can make.
 *
 * A message stays in flight once it is sent, so it may be delivered late, out of order, more than once, or never. Each
 * step is a call on one session and the answer its native side gives; the answer keeps to the contract of
 * `MultiSigSession`. Signers are honest: what reaches a session was generated by the session it is said to come from.
 */
module MultiSigProtocol {
  import opened Wrappers
  import opened Bytes
  import opened KeyCombination
  import opened MultiSigSession

  datatype Message = Message(from: Key, round: nat, data: Bytes)

  datatype World = World(order: seq<Key>, sessions: map<Key, Session>, sent: set<Message>)

  datatype Call =
    | Generating(at: Key, stage: nat)
    | Delivering(to: Key, message: Message, buffer: Buffer)

  datatype Step = Step(call: Call, answer: Option<Buffer>)

  /** A session just opened by signer `k` on some ordering of the keys. */
  ghost predicate Opened(s: Session, k: Key, keys: set<Key>) {
    exists signers :: Distinct(signers) && KeySet(signers) == keys && s == Fresh(k, signers)
  }

  /** Every signer opens a session on some ordering of the same keys. */
  ghost predicate Initial(w: World) {
    && Distinct(w.order) && |w.order| >= 2 && w.sessions.Keys == KeySet(w.order) && w.sent == {}
    && forall k {:trigger Opened(w.sessions[k], k, KeySet(w.order))} ::
         k in w.sessions ==> Opened(w.sessions[k], k, KeySet(w.order))
  }

  ghost predicate Possible(w: World, call: Call) {
    match call
    case Generating(at, stage) => at in w.sessions && stage <= FINAL
    case Delivering(to, message, buffer) =>
      && to in w.sessions && message in w.sent && message.from != to
      && message.round < FINAL && buffer.data == message.data
  }

  /** The answer keeps to the contract of the native side. */
  ghost predicate Answers(w: World, call: Call, answer: Option<Buffer>)
    requires Possible(w, call)
  {
    match call
    case Generating(at, stage) =>
      && (answer.Some? ==> MayGenerate(w.sessions[at], stage))
      && (MustGenerate(w.sessions[at], stage) ==> answer.Some?)
    case Delivering(to, message, _) =>
      && (answer.Some? ==> MayAccept(w.sessions[to], message.round, message.from))
      && (MustAccept(w.sessions[to], message.round, message.from) ==> answer.Some?)
  }

  ghost predicate Legal(w: World, step: Step) {
    Possible(w, step.call) && Answers(w, step.call, step.answer)
  }

  function Apply(w: World, step: Step): World
    requires Possible(w, step.call)
  {
    match step.call
    case Generating(at, stage) =>
      var (s, r) := Generate(w.sessions[at], stage, step.answer);
      var sent := if r.Ok? && stage < FINAL then {Message(at, stage, r.value.data)} else {};
      w.(sessions := w.sessions[at := s], sent := w.sent + sent)
    case Delivering(to, message, buffer) =>
      var (s, _) := Add(w.sessions[to], message.round, message.from, buffer, step.answer.Some?);
      w.(sessions := w.sessions[to := s])
  }

  ghost predicate LegalRun(w: World, steps: seq<Step>)
    decreases |steps|
  {
    steps != [] ==> Legal(w, steps[0]) && LegalRun(Apply(w, steps[0]), steps[1..])
  }

  ghost function Run(w: World, steps: seq<Step>): World
    requires LegalRun(w, steps)
    decreases |steps|
  {
    if steps == [] then w else Run(Apply(w, steps[0]), steps[1..])
  }

  // ----- What every reachable world keeps

  /** A stage was generated only after the stage before it and after everything of that stage was collected. */
  predicate InOrder(s: Session) {
    && (s.nonce.own.Some? ==> s.commitment.own.Some? && s.HasCollectedAll(COMMITMENT))
    && (s.partial.own.Some? ==> s.nonce.own.Some? && s.HasCollectedAll(NONCE))
    && (s.signature.Some? ==> s.partial.own.Some? && s.HasCollectedAll(PARTIAL))
  }

  ghost predicate SessionKept(s: Session, k: Key, keys: set<Key>) {
    s.Valid() && s.self == k && s.CoSigners() == keys - {k} && k in keys && InOrder(s)
  }

  /** Whatever a session generated was sent, and whatever it holds was sent by the signer it is held for. */
  ghost predicate Authentic(s: Session, sent: set<Message>) {
    && (forall r {:trigger s.Get(r).own} ::
      0 <= r < FINAL && s.Get(r).own.Some? ==> Message(s.self, r, s.Get(r).own.value.data) in sent)
    && forall r, j {:trigger Message(j, r, s.Get(r).accepted[j])} ::
      0 <= r < FINAL && j in s.Get(r).accepted ==> Message(j, r, s.Get(r).accepted[j]) in sent
  }

  /** Whatever was sent has been generated by its sender. */
  ghost predicate Originated(sent: set<Message>, sessions: map<Key, Session>) {
    forall m :: m in sent ==>
      m.round < FINAL && m.from in sessions && sessions[m.from].Generated(m.round)
  }

  ghost predicate AllKept(sessions: map<Key, Session>, keys: set<Key>) {
    forall k {:trigger SessionKept(sessions[k], k, keys)} :: k in sessions ==> SessionKept(sessions[k], k, keys)
  }

  ghost predicate AllAuthentic(sessions: map<Key, Session>, sent: set<Message>) {
    forall k {:trigger Authentic(sessions[k], sent)} :: k in sessions ==> Authentic(sessions[k], sent)
  }

  ghost predicate Kept(w: World) {
    && Distinct(w.order) && |w.order| >= 2 && w.sessions.Keys == KeySet(w.order)
    && AllKept(w.sessions, KeySet(w.order)) && AllAuthentic(w.sessions, w.sent) && Originated(w.sent, w.sessions)
  }

  lemma OpenedKept(s: Session, k: Key, keys: set<Key>, sent: set<Message>)
    requires Opened(s, k, keys) && k in keys && |keys| >= 2
    ensures SessionKept(s, k, keys) && Authentic(s, sent)
  {
    var signers :| Distinct(signers) && KeySet(signers) == keys && s == Fresh(k, signers);
    DistinctExactlyByCount(signers);
    FreshIsValid(k, signers);
  }

  lemma InitiallyKept(w: World)
    requires Initial(w)
    ensures Kept(w)
  {
    DistinctExactlyByCount(w.order);
    forall k | k in w.sessions
      ensures SessionKept(w.sessions[k], k, KeySet(w.order)) && Authentic(w.sessions[k], w.sent)
    {
      assert Opened(w.sessions[k], k, KeySet(w.order));
      OpenedKept(w.sessions[k], k, KeySet(w.order), w.sent);
    }
  }

  lemma GenerateKeepsOrder(s: Session, stage: nat, answer: Option<Buffer>)
    requires InOrder(s) && stage <= FINAL && (answer.Some? ==> MayGenerate(s, stage))
    ensures InOrder(Generate(s, stage, answer).0)
    ensures forall p :: 0 <= p <= FINAL && s.Generated(p) ==> Generate(s, stage, answer).0.Generated(p)
  {
  }

  /** A full cache takes nothing more, so a barrier once passed stays passed. */
  lemma AddKeepsOrder(s: Session, round: nat, from: Key, buffer: Buffer, accepted: bool)
    requires InOrder(s) && round < FINAL && (accepted ==> !s.HasCollectedAll(round))
    ensures var a := Add(s, round, from, buffer, accepted).0;
      InOrder(a) && forall p :: 0 <= p <= FINAL ==> (a.Generated(p) <==> s.Generated(p))
  {
  }

  lemma NotFullWhenAccepting(s: Session, round: nat, from: Key)
    requires s.Valid() && round < FINAL && MayAccept(s, round, from)
    ensures !s.HasCollectedAll(round)
  {
    FullCacheMeansEveryCoSigner(s, round);
  }

  /** Replacing one session, and sending what it newly generated, keeps the world. */
  lemma ReplaceSession(w: World, k: Key, s: Session, sent: set<Message>)
    requires Kept(w) && k in w.sessions
    requires SessionKept(s, k, KeySet(w.order)) && Authentic(s, sent) && w.sent <= sent
    requires forall p :: 0 <= p <= FINAL && w.sessions[k].Generated(p) ==> s.Generated(p)
    requires forall m :: m in sent && m !in w.sent ==> m.round < FINAL && m.from == k && s.Generated(m.round)
    ensures Kept(World(w.order, w.sessions[k := s], sent))
  {
    ReplaceKept(w.sessions, KeySet(w.order), k, s);
    ReplaceAuthentic(w.sessions, w.sent, k, s, sent);
    ReplaceOriginated(w.sessions, w.sent, k, s, sent);
    assert w.sessions[k := s].Keys == w.sessions.Keys;
  }

  lemma ReplaceKept(sessions: map<Key, Session>, keys: set<Key>, k: Key, s: Session)
    requires AllKept(sessions, keys) && SessionKept(s, k, keys)
    ensures AllKept(sessions[k := s], keys)
  {
    forall j | j in sessions
      ensures SessionKept(sessions[k := s][j], j, keys)
    {
      assert SessionKept(sessions[j], j, keys) || j == k;
    }
  }

  lemma ReplaceAuthentic(
      sessions: map<Key, Session>, sent: set<Message>, k: Key, s: Session, sent': set<Message>)
    requires AllAuthentic(sessions, sent) && Authentic(s, sent') && sent <= sent'
    ensures AllAuthentic(sessions[k := s], sent')
  {
    forall j | j in sessions
      ensures Authentic(sessions[k := s][j], sent')
    {
      assert Authentic(sessions[j], sent);
      StaysAuthentic(sessions[j], sent, sent');
    }
  }

  lemma ReplaceOriginated(
      sessions: map<Key, Session>, sent: set<Message>, k: Key, s: Session, sent': set<Message>)
    requires Originated(sent, sessions) && k in sessions
    requires forall p :: 0 <= p <= FINAL && sessions[k].Generated(p) ==> s.Generated(p)
    requires forall m :: m in sent' && m !in sent ==> m.round < FINAL && m.from == k && s.Generated(m.round)
    ensures Originated(sent', sessions[k := s])
  {
  }

  lemma StaysAuthentic(s: Session, sent: set<Message>, sent': set<Message>)
    requires Authentic(s, sent) && sent <= sent'
    ensures Authentic(s, sent')
  {
    forall r, j | 0 <= r < FINAL && j in s.Get(r).accepted
      ensures Message(j, r, s.Get(r).accepted[j]) in sent'
    {
      assert Message(j, r, s.Get(r).accepted[j]) in sent;
    }
  }

  lemma GenerateStaysAuthentic(s: Session, stage: nat, answer: Option<Buffer>, sent: set<Message>)
    requires Authentic(s, sent) && stage <= FINAL
    requires stage < FINAL && answer.Some? ==> Message(s.self, stage, answer.value.data) in sent
    ensures Authentic(Generate(s, stage, answer).0, sent)
  {
    var g := Generate(s, stage, answer).0;
    forall r | 0 <= r < FINAL && g.Get(r).own.Some?
      ensures Message(g.self, r, g.Get(r).own.value.data) in sent
    {
      assert r != stage ==> g.Get(r).own == s.Get(r).own;
    }
    forall r, j | 0 <= r < FINAL && j in g.Get(r).accepted
      ensures Message(j, r, g.Get(r).accepted[j]) in sent
    {
      assert g.Get(r).accepted == s.Get(r).accepted;
      assert Message(j, r, s.Get(r).accepted[j]) in sent;
    }
  }

  lemma GeneratingKeeps(w: World, step: Step)
    requires Kept(w) && Legal(w, step) && step.call.Generating?
    ensures Kept(Apply(w, step))
  {
    var at, stage := step.call.at, step.call.stage;
    var s, w' := w.sessions[at], Apply(w, step);
    assert SessionKept(s, at, KeySet(w.order)) && Authentic(s, w.sent);
    GenerateKeepsValid(s, stage, step.answer);
    GenerateKeepsOrder(s, stage, step.answer);
    StaysAuthentic(s, w.sent, w'.sent);
    if w'.sessions[at] != s {
      GenerateStaysAuthentic(s, stage, step.answer, w'.sent);
    }
    NewMessageWasGenerated(s, at, stage, step.answer);
    ReplaceSession(w, at, w'.sessions[at], w'.sent);
  }

  lemma NewMessageWasGenerated(s: Session, at: Key, stage: nat, answer: Option<Buffer>)
    requires stage <= FINAL
    ensures var (g, r) := Generate(s, stage, answer); r.Ok? ==> g.Generated(stage)
  {
  }

  lemma DeliveringKeeps(w: World, step: Step)
    requires Kept(w) && Legal(w, step) && step.call.Delivering?
    ensures Kept(Apply(w, step))
  {
    var to, m, buffer, accepted := step.call.to, step.call.message, step.call.buffer, step.answer.Some?;
    var s, w' := w.sessions[to], Apply(w, step);
    assert SessionKept(s, to, KeySet(w.order)) && Authentic(s, w.sent);
    AddKeepsValid(s, m.round, m.from, buffer, accepted);
    if accepted {
      NotFullWhenAccepting(s, m.round, m.from);
    }
    AddKeepsOrder(s, m.round, m.from, buffer, accepted);
    AddStaysAuthentic(s, m, buffer, accepted, w.sent);
    AddKeepsSigners(s, m.round, m.from, buffer, accepted);
    ReplaceSession(w, to, w'.sessions[to], w'.sent);
  }

  lemma AddKeepsSigners(s: Session, round: nat, from: Key, buffer: Buffer, accepted: bool)
    requires round < FINAL
    ensures var a := Add(s, round, from, buffer, accepted).0; a.self == s.self && a.signers == s.signers
  {
  }

  lemma AddStaysAuthentic(s: Session, m: Message, buffer: Buffer, accepted: bool, sent: set<Message>)
    requires Authentic(s, sent) && m in sent && m.round < FINAL && buffer.data == m.data
    ensures Authentic(Add(s, m.round, m.from, buffer, accepted).0, sent)
  {
    var a := Add(s, m.round, m.from, buffer, accepted).0;
    assert forall r :: 0 <= r < FINAL ==> a.Get(r).own == s.Get(r).own;
    forall r, j | 0 <= r < FINAL && j in a.Get(r).accepted
      ensures Message(j, r, a.Get(r).accepted[j]) in sent
    {
      if r == m.round && j == m.from && a != s {
        assert a.Get(r).accepted[j] == m.data;
      } else {
        assert j in s.Get(r).accepted && a.Get(r).accepted[j] == s.Get(r).accepted[j];
        assert Message(j, r, s.Get(r).accepted[j]) in sent;
      }
    }
  }

  lemma StepKeeps(w: World, step: Step)
    requires Kept(w) && Legal(w, step)
    ensures Kept(Apply(w, step))
  {
    if step.call.Generating? {
      GeneratingKeeps(w, step);
    } else {
      DeliveringKeeps(w, step);
    }
  }

  lemma {:induction false} RunKeeps(w: World, steps: seq<Step>)
    requires Kept(w) && LegalRun(w, steps)
    ensures Kept(Run(w, steps)) && Run(w, steps).order == w.order
    decreases |steps|
  {
    if steps != [] {
      StepKeeps(w, steps[0]);
      RunKeeps(Apply(w, steps[0]), steps[1..]);
    }
  }

  // ----- Safety: the barriers

  lemma StageCollected(s: Session, p: nat)
    requires InOrder(s) && 1 <= p <= FINAL && s.Generated(p)
    ensures s.HasCollectedAll(p - 1) && s.Generated(p - 1)
  {
  }

  /** A session that generated a stage holds the value of the stage before from every other signer. */
  lemma CollectedFromEveryone(w: World, i: Key, j: Key, p: nat)
    requires Kept(w) && i in w.sessions && j in w.sessions && i != j && 1 <= p <= FINAL
    requires w.sessions[i].Generated(p)
    ensures j in w.sessions[i].Get(p - 1).accepted
    ensures w.sessions[j].Generated(p - 1)
  {
    var s := w.sessions[i];
    assert SessionKept(s, i, KeySet(w.order)) && Authentic(s, w.sent);
    StageCollected(s, p);
    FullCacheOf(s, i, KeySet(w.order), p - 1);
    HeldWasGenerated(s, w.sent, w.sessions, j, p - 1);
  }

  lemma FullCacheOf(s: Session, i: Key, keys: set<Key>, round: nat)
    requires SessionKept(s, i, keys) && round < FINAL
    ensures s.HasCollectedAll(round) <==> s.Get(round).accepted.Keys == keys - {i}
    ensures s.Get(round).accepted.Keys <= keys - {i}
    ensures |s.signers| == |keys| && |s.Get(round).accepted| <= |keys| - 1
  {
    FullCacheMeansEveryCoSigner(s, round);
    assert keys == s.CoSigners() + {i};
  }

  lemma HeldWasGenerated(s: Session, sent: set<Message>, sessions: map<Key, Session>, j: Key, round: nat)
    requires Authentic(s, sent) && Originated(sent, sessions) && round < FINAL && j in s.Get(round).accepted
    ensures j in sessions && sessions[j].Generated(round)
  {
    var m := Message(j, round, s.Get(round).accepted[j]);
    assert m in sent;
  }

  /**
   * The phase barrier over every run: once some session has generated its nonce, partial signature or signature,
   * every other session has generated its commitment, nonce or partial signature.
   */
  lemma PhaseBarrier(w: World, steps: seq<Step>, i: Key, j: Key, p: nat)
    requires Initial(w) && LegalRun(w, steps)
    requires i in w.sessions && j in w.sessions && i != j && 1 <= p <= FINAL
    ensures var last := Run(w, steps);
      && i in last.sessions && j in last.sessions
      && (last.sessions[i].Generated(p) ==> last.sessions[j].Generated(p - 1))
  {
    InitiallyKept(w);
    RunKeeps(w, steps);
    var last := Run(w, steps);
    assert last.sessions.Keys == w.sessions.Keys;
    if last.sessions[i].Generated(p) {
      CollectedFromEveryone(last, i, j, p);
    }
  }

  /** The number of stages a session has generated. */
  function Phase(s: Session): nat {
    (if s.Generated(0) then 1 else 0) + (if s.Generated(1) then 1 else 0)
    + (if s.Generated(2) then 1 else 0) + (if s.Generated(3) then 1 else 0)
  }

  lemma PhaseIsLastStage(s: Session, p: nat)
    requires InOrder(s) && p <= FINAL
    ensures s.Generated(p) <==> p < Phase(s)
  {
  }

  /** No two sessions are ever more than one phase apart. */
  lemma AtMostOnePhaseApart(w: World, steps: seq<Step>, i: Key, j: Key)
    requires Initial(w) && LegalRun(w, steps) && i in w.sessions && j in w.sessions
    ensures var last := Run(w, steps);
      i in last.sessions && j in last.sessions && Phase(last.sessions[i]) <= Phase(last.sessions[j]) + 1
  {
    InitiallyKept(w);
    RunKeeps(w, steps);
    PhaseGap(Run(w, steps), i, j);
  }

  lemma PhaseGap(w: World, i: Key, j: Key)
    requires Kept(w) && i in w.sessions && j in w.sessions
    ensures Phase(w.sessions[i]) <= Phase(w.sessions[j]) + 1
  {
    var s, t := w.sessions[i], w.sessions[j];
    assert SessionKept(s, i, KeySet(w.order)) && SessionKept(t, j, KeySet(w.order));
    var p := Phase(s);
    if i != j && p >= 2 {
      PhaseIsLastStage(s, p - 1);
      CollectedFromEveryone(w, i, j, p - 1);
      PhaseIsLastStage(t, p - 2);
    }
  }

  // ----- What the outputs are

  /** The answer to the last successful call that generated the given stage at the given session. */
  ghost function LastAnswer(w: World, steps: seq<Step>, at: Key, stage: nat): Option<Buffer>
    requires LegalRun(w, steps) && stage <= FINAL
    decreases |steps|
  {
    if steps == [] then None
    else
      var later := LastAnswer(Apply(w, steps[0]), steps[1..], at, stage);
      if later.Some? then later
      else if steps[0].call == Generating(at, stage) && Generate(w.sessions[at], stage, steps[0].answer).1.Ok?
      then steps[0].answer
      else None
  }

  lemma StepOutput(w: World, step: Step, at: Key, stage: nat)
    requires Legal(w, step) && at in w.sessions && stage <= FINAL
    ensures at in Apply(w, step).sessions
    ensures Output(Apply(w, step).sessions[at], stage) ==
      if step.call == Generating(at, stage) && Generate(w.sessions[at], stage, step.answer).1.Ok? then step.answer
      else Output(w.sessions[at], stage)
  {
    match step.call
    case Generating(k, p) => GenerateOutcome(w.sessions[k], p, step.answer);
    case Delivering(to, m, buffer) => AddOutcome(w.sessions[to], m.round, m.from, buffer, step.answer.Some?);
  }

  lemma {:induction false} RunOutput(w: World, steps: seq<Step>, at: Key, stage: nat)
    requires LegalRun(w, steps) && at in w.sessions && stage <= FINAL
    ensures at in Run(w, steps).sessions
    ensures var last := LastAnswer(w, steps, at, stage);
      Output(Run(w, steps).sessions[at], stage) == if last.Some? then last else Output(w.sessions[at], stage)
    decreases |steps|
  {
    if steps != [] {
      StepOutput(w, steps[0], at, stage);
      RunOutput(Apply(w, steps[0]), steps[1..], at, stage);
    }
  }

  /** In every run an output, the signature included, is what the native side last answered for it. */
  lemma OutputsAreAnswers(w: World, steps: seq<Step>, at: Key, stage: nat)
    requires Initial(w) && LegalRun(w, steps) && at in w.sessions && stage <= FINAL
    ensures at in Run(w, steps).sessions
    ensures Output(Run(w, steps).sessions[at], stage) == LastAnswer(w, steps, at, stage)
  {
    RunOutput(w, steps, at, stage);
    assert Opened(w.sessions[at], at, KeySet(w.order));
  }

  // ----- Liveness: no deadlock, and a measure that every first-time step uses up

  /** What a session of an `n`-signer protocol still has to generate and to collect. */
  function Missing(s: Session, n: nat): int {
    4 - Phase(s) + 3 * (n - 1) - |s.commitment.accepted| - |s.nonce.accepted| - |s.partial.accepted|
  }

  function MissingOf(order: seq<Key>, sessions: map<Key, Session>, n: nat): int
    requires forall k :: k in order ==> k in sessions
  {
    if order == [] then 0 else Missing(sessions[order[0]], n) + MissingOf(order[1..], sessions, n)
  }

  function Measure(w: World): int
    requires forall k :: k in w.order ==> k in w.sessions
  {
    MissingOf(w.order, w.sessions, |w.order|)
  }

  /** A step that generates an output for the first time, or adds a value. */
  predicate IsFirstTime(w: World, step: Step)
    requires Possible(w, step.call)
  {
    match step.call
    case Generating(at, stage) =>
      !w.sessions[at].Generated(stage) && Generate(w.sessions[at], stage, step.answer).1.Ok?
    case Delivering(to, message, buffer) =>
      Add(w.sessions[to], message.round, message.from, buffer, step.answer.Some?).1.Ok?
  }

  lemma {:induction false} MissingOfUpdate(order: seq<Key>, sessions: map<Key, Session>, n: nat, k: Key, s: Session)
    requires Distinct(order) && forall j :: j in order ==> j in sessions
    ensures MissingOf(order, sessions[k := s], n)
         == MissingOf(order, sessions, n) + if k in order then Missing(s, n) - Missing(sessions[k], n) else 0
  {
    if order != [] {
      MissingOfUpdate(order[1..], sessions, n, k, s);
    }
  }

  lemma GenerateMissing(s: Session, stage: nat, answer: Option<Buffer>, n: nat)
    requires stage <= FINAL
    ensures var (g, r) := Generate(s, stage, answer);
      Missing(g, n) == Missing(s, n) - if !s.Generated(stage) && r.Ok? then 1 else 0
  {
    var g := Generate(s, stage, answer).0;
    assert g.commitment.accepted == s.commitment.accepted && g.nonce.accepted == s.nonce.accepted;
    assert g.partial.accepted == s.partial.accepted;
  }

  lemma AddMissing(s: Session, round: nat, from: Key, buffer: Buffer, accepted: bool, n: nat)
    requires round < FINAL && (accepted ==> from !in s.Get(round).accepted)
    ensures var (a, r) := Add(s, round, from, buffer, accepted);
      Missing(a, n) == Missing(s, n) - if r.Ok? then 1 else 0
  {
    var (a, r) := Add(s, round, from, buffer, accepted);
    if r.Ok? {
      NewKeyCounts(s.Get(round).accepted, from, buffer.data);
      assert Phase(a) == Phase(s);
    }
  }

  lemma NewKeyCounts(m: map<Key, Bytes>, k: Key, v: Bytes)
    requires k !in m
    ensures |m[k := v]| == |m| + 1
  {
    assert m[k := v].Keys == m.Keys + {k};
  }

  lemma StepMeasure(w: World, step: Step)
    requires Kept(w) && Legal(w, step)
    ensures Kept(Apply(w, step))
    ensures Measure(Apply(w, step)) == Measure(w) - if IsFirstTime(w, step) then 1 else 0
  {
    StepKeeps(w, step);
    match step.call
    case Generating(at, stage) =>
      GenerateMissing(w.sessions[at], stage, step.answer, |w.order|);
      MissingOfUpdate(w.order, w.sessions, |w.order|, at, Apply(w, step).sessions[at]);
    case Delivering(to, m, buffer) =>
      AddMissing(w.sessions[to], m.round, m.from, buffer, step.answer.Some?, |w.order|);
      MissingOfUpdate(w.order, w.sessions, |w.order|, to, Apply(w, step).sessions[to]);
  }

  ghost function FirstTimeSteps(w: World, steps: seq<Step>): nat
    requires LegalRun(w, steps)
    decreases |steps|
  {
    if steps == [] then 0
    else (if IsFirstTime(w, steps[0]) then 1 else 0) + FirstTimeSteps(Apply(w, steps[0]), steps[1..])
  }

  lemma {:induction false} RunMeasure(w: World, steps: seq<Step>)
    requires Kept(w) && LegalRun(w, steps)
    ensures Kept(Run(w, steps)) && Measure(Run(w, steps)) + FirstTimeSteps(w, steps) == Measure(w)
    decreases |steps|
  {
    if steps != [] {
      StepMeasure(w, steps[0]);
      RunMeasure(Apply(w, steps[0]), steps[1..]);
    }
  }

  lemma {:induction false} InitialMissing(order: seq<Key>, sessions: map<Key, Session>, n: nat)
    requires forall k :: k in order ==> k in sessions && Missing(sessions[k], n) == 4 + 3 * (n - 1)
    ensures MissingOf(order, sessions, n) == |order| * (4 + 3 * (n - 1))
  {
    if order != [] {
      InitialMissing(order[1..], sessions, n);
      assert |order| * (4 + 3 * (n - 1)) == (|order| - 1) * (4 + 3 * (n - 1)) + (4 + 3 * (n - 1));
    }
  }

  lemma InitialMeasure(w: World)
    requires Initial(w)
    ensures forall k :: k in w.order ==> k in w.sessions
    ensures Measure(w) == |w.order| * (4 + 3 * (|w.order| - 1))
  {
    forall k | k in w.order
      ensures k in w.sessions && Missing(w.sessions[k], |w.order|) == 4 + 3 * (|w.order| - 1)
    {
      assert k in KeySet(w.order) && Opened(w.sessions[k], k, KeySet(w.order));
    }
    InitialMissing(w.order, w.sessions, |w.order|);
  }

  /** Work is conserved: what was done and what is left always add up to four outputs and 3(n-1) values a session. */
  lemma WorkIsConserved(w: World, steps: seq<Step>)
    requires Initial(w) && LegalRun(w, steps)
    ensures forall k :: k in Run(w, steps).order ==> k in Run(w, steps).sessions
    ensures FirstTimeSteps(w, steps) + Measure(Run(w, steps)) == |w.order| * (4 + 3 * (|w.order| - 1))
    ensures Measure(Run(w, steps)) >= 0
  {
    InitiallyKept(w);
    InitialMeasure(w);
    RunMeasure(w, steps);
    MeasureCounts(Run(w, steps), Run(w, steps).order);
  }

  lemma SessionMissing(s: Session, k: Key, keys: set<Key>)
    requires SessionKept(s, k, keys)
    ensures Missing(s, |keys|) >= if s.Generated(FINAL) then 0 else 1
    ensures Missing(s, |keys|) == 0 <==> s.Generated(FINAL)
  {
    FullCacheOf(s, k, keys, COMMITMENT);
    FullCacheOf(s, k, keys, NONCE);
    FullCacheOf(s, k, keys, PARTIAL);
    FullySized(s, |keys|);
  }

  lemma FullySized(s: Session, n: nat)
    requires InOrder(s) && |s.signers| == n
    requires forall r :: 0 <= r < FINAL ==>
      |s.Get(r).cache| == |s.Get(r).accepted| && |s.Get(r).accepted| <= n - 1
    ensures Missing(s, n) >= if s.Generated(FINAL) then 0 else 1
    ensures Missing(s, n) == 0 <==> s.Generated(FINAL)
  {
    assert s.Get(0) == s.commitment && s.Get(1) == s.nonce && s.Get(2) == s.partial;
  }

  lemma {:induction false} MeasureCounts(w: World, order: seq<Key>)
    requires Kept(w) && forall k :: k in order ==> k in w.sessions
    ensures MissingOf(order, w.sessions, |w.order|) >= 0
    ensures MissingOf(order, w.sessions, |w.order|) == 0
       <==> forall k :: k in order ==> w.sessions[k].Generated(FINAL)
  {
    if order != [] {
      assert SessionKept(w.sessions[order[0]], order[0], KeySet(w.order));
      SessionMissing(w.sessions[order[0]], order[0], KeySet(w.order));
      DistinctExactlyByCount(w.order);
      MeasureCounts(w, order[1..]);
    }
  }

  lemma {:induction false} FreshId(cache: seq<Buffer>) returns (id: nat)
    ensures forall i :: 0 <= i < |cache| ==> cache[i].id < id
  {
    id := 0;
    if cache != [] {
      var last := cache[|cache| - 1].id;
      var rest := FreshId(cache[..|cache| - 1]);
      id := if last < rest then rest else last + 1;
    }
  }

  /** A call that makes progress whatever the native side answers, as long as it keeps to its contract. */
  ghost predicate Productive(w: World, call: Call) {
    && Possible(w, call)
    && forall answer :: Answers(w, call, answer) ==> IsFirstTime(w, Step(call, answer))
  }

  lemma GeneratingIsProductive(w: World, k: Key, stage: nat)
    requires k in w.sessions && stage <= FINAL && MustGenerate(w.sessions[k], stage)
    requires stage > 0 ==> w.sessions[k].HasCollectedAll(stage - 1)
    ensures Productive(w, Generating(k, stage))
  {
  }

  lemma DeliveringIsProductive(w: World, to: Key, m: Message, buffer: Buffer)
    requires Possible(w, Delivering(to, m, buffer)) && MustAccept(w.sessions[to], m.round, m.from)
    requires !HasThisBuffer(w.sessions[to].Get(m.round).cache, buffer)
    ensures Productive(w, Delivering(to, m, buffer))
  {
  }

  /** Every session holds, of the given round, a value from each of the others. */
  ghost predicate RoundDone(w: World, round: nat)
    requires round < FINAL
  {
    forall k {:trigger w.sessions[k]} :: k in w.sessions ==>
      w.sessions[k].Get(round).accepted.Keys == KeySet(w.order) - {k}
  }

  ghost predicate AllGenerated(w: World, stage: nat)
    requires stage <= FINAL
  {
    forall k {:trigger w.sessions[k]} :: k in w.sessions ==> w.sessions[k].Generated(stage)
  }

  lemma DeliverableMessage(w: World, to: Key, from: Key, round: nat) returns (call: Call)
    requires Kept(w) && round < FINAL && AllGenerated(w, round) && (round > 0 ==> RoundDone(w, round - 1))
    requires to in w.sessions && from in w.sessions && to != from && from !in w.sessions[to].Get(round).accepted
    ensures Productive(w, call)
  {
    var s, sender := w.sessions[to], w.sessions[from];
    assert SessionKept(s, to, KeySet(w.order)) && SessionKept(sender, from, KeySet(w.order));
    assert Authentic(sender, w.sent);
    var m := Message(from, round, sender.Get(round).own.value.data);
    var id := FreshId(s.Get(round).cache);
    call := Delivering(to, m, Buffer(id, m.data));
    DeliveringIsProductive(w, to, m, Buffer(id, m.data));
  }

  lemma NextStage(w: World, k: Key, stage: nat) returns (call: Call)
    requires Kept(w) && 1 <= stage <= FINAL && AllGenerated(w, stage - 1) && RoundDone(w, stage - 1)
    requires k in w.sessions && !w.sessions[k].Generated(stage)
    ensures Productive(w, call)
  {
    assert SessionKept(w.sessions[k], k, KeySet(w.order));
    FullCacheOf(w.sessions[k], k, KeySet(w.order), stage - 1);
    GeneratingIsProductive(w, k, stage);
    call := Generating(k, stage);
  }

  lemma RoundIsDone(w: World, round: nat)
    requires Kept(w) && round < FINAL
    requires forall to, from :: to in w.sessions && from in w.sessions ==> !Lacks(w, to, from, round)
    ensures RoundDone(w, round)
  {
    forall k | k in w.sessions
      ensures w.sessions[k].Get(round).accepted.Keys == KeySet(w.order) - {k}
    {
      assert SessionKept(w.sessions[k], k, KeySet(w.order));
      FullCacheOf(w.sessions[k], k, KeySet(w.order), round);
      assert forall from :: from in w.sessions ==> !Lacks(w, k, from, round);
    }
  }

  ghost predicate Lacks(w: World, to: Key, from: Key, round: nat)
    requires to in w.sessions && round < FINAL
  {
    to != from && from !in w.sessions[to].Get(round).accepted
  }

  /** With every session past `stage`, the next thing to do is found in round `stage` or in stage `stage + 1`. */
  lemma {:induction false} ProgressAfter(w: World, stage: nat) returns (call: Call)
    requires Kept(w) && stage < FINAL && AllGenerated(w, stage) && !AllGenerated(w, FINAL)
    requires stage > 0 ==> RoundDone(w, stage - 1)
    ensures Productive(w, call)
    decreases FINAL - stage
  {
    if to, from :| to in w.sessions && from in w.sessions && Lacks(w, to, from, stage) {
      call := DeliverableMessage(w, to, from, stage);
    } else {
      RoundIsDone(w, stage);
      if k :| k in w.sessions && !w.sessions[k].Generated(stage + 1) {
        call := NextStage(w, k, stage + 1);
      } else {
        call := ProgressAfter(w, stage + 1);
      }
    }
  }

  lemma SomeCallIsProductive(w: World) returns (call: Call)
    requires Kept(w) && !AllGenerated(w, FINAL)
    ensures Productive(w, call)
  {
    if k :| k in w.sessions && !w.sessions[k].Generated(COMMITMENT) {
      call := Generating(k, COMMITMENT);
      GeneratingIsProductive(w, k, COMMITMENT);
    } else {
      call := ProgressAfter(w, COMMITMENT);
    }
  }

  /** No run deadlocks: while a signature is missing there is a call that must make progress. */
  lemma NoDeadlock(w: World, steps: seq<Step>)
    requires Initial(w) && LegalRun(w, steps) && !AllGenerated(Run(w, steps), FINAL)
    ensures exists call :: Productive(Run(w, steps), call)
  {
    InitiallyKept(w);
    RunKeeps(w, steps);
    var call := SomeCallIsProductive(Run(w, steps));
  }

  /** The contract of the native side can always be kept. */
  lemma LegalAnswer(w: World, call: Call) returns (answer: Option<Buffer>)
    requires Possible(w, call)
    ensures Answers(w, call, answer)
  {
    var must := match call
      case Generating(at, stage) => MustGenerate(w.sessions[at], stage)
      case Delivering(to, message, _) => MustAccept(w.sessions[to], message.round, message.from);
    answer := if must then Some(Buffer(0, [])) else None;
  }

  lemma {:induction false} FinishFrom(w: World) returns (more: seq<Step>)
    requires Kept(w)
    ensures LegalRun(w, more) && AllGenerated(Run(w, more), FINAL)
    decreases Measure(w)
  {
    more := [];
    if !AllGenerated(w, FINAL) {
      var call := SomeCallIsProductive(w);
      var answer := LegalAnswer(w, call);
      var step := Step(call, answer);
      assert IsFirstTime(w, step);
      StepMeasure(w, step);
      MeasureCounts(w, w.order);
      var rest := FinishFrom(Apply(w, step));
      RunOneMore(w, step, rest);
      more := [step] + rest;
    }
  }

  lemma RunOneMore(w: World, step: Step, rest: seq<Step>)
    requires Legal(w, step) && LegalRun(Apply(w, step), rest)
    ensures LegalRun(w, [step] + rest) && Run(w, [step] + rest) == Run(Apply(w, step), rest)
  {
    assert ([step] + rest)[1..] == rest;
  }

  /** Whatever has happened, the run can be continued until every session has its signature. */
  ghost predicate CanFinish(w: World) {
    exists more :: LegalRun(w, more) && AllGenerated(Run(w, more), FINAL)
  }

  lemma EveryRunCanFinish(w: World, steps: seq<Step>)
    requires Initial(w) && LegalRun(w, steps)
    ensures CanFinish(Run(w, steps))
  {
    InitiallyKept(w);
    RunKeeps(w, steps);
    var more := FinishFrom(Run(w, steps));
  }

  /** The measure is used up exactly when every session has its signature. */
  lemma FinishedMeansSigned(w: World, steps: seq<Step>)
    requires Initial(w) && LegalRun(w, steps)
    ensures var last := Run(w, steps); forall k :: k in last.order ==> k in last.sessions
    ensures Measure(Run(w, steps)) == 0 <==> AllGenerated(Run(w, steps), FINAL)
  {
    InitiallyKept(w);
    RunKeeps(w, steps);
    var last := Run(w, steps);
    MeasureCounts(last, last.order);
    assert forall k :: k in last.sessions <==> k in last.order;
  }

  // ----- Agreement: as long as nobody changes an output, all sessions work on the same values

  /** Generating an output again, with other bytes than before. */
  predicate Changes(w: World, step: Step)
    requires Possible(w, step.call)
  {
    match step.call
    case Generating(at, stage) =>
      var (s, r) := (w.sessions[at], Generate(w.sessions[at], stage, step.answer).1);
      stage < FINAL && s.Generated(stage) && r.Ok? && r.value.data != s.Get(stage).own.value.data
    case Delivering(_, _, _) => false
  }

  ghost predicate NothingChanges(w: World, steps: seq<Step>)
    requires LegalRun(w, steps)
    decreases |steps|
  {
    steps != [] ==> !Changes(w, steps[0]) && NothingChanges(Apply(w, steps[0]), steps[1..])
  }

  /** Each message in flight carries what its sender still holds as its own. */
  ghost predicate SingleValued(sent: set<Message>, sessions: map<Key, Session>) {
    forall m {:trigger m in sent} :: m in sent && m.round < FINAL && m.from in sessions ==>
      sessions[m.from].Get(m.round).own.Some? && sessions[m.from].Get(m.round).own.value.data == m.data
  }

  lemma StepStaysSingleValued(w: World, step: Step)
    requires Legal(w, step) && !Changes(w, step) && SingleValued(w.sent, w.sessions)
    requires step.call.Generating? ==> Authentic(w.sessions[step.call.at], w.sent)
    ensures SingleValued(Apply(w, step).sent, Apply(w, step).sessions)
  {
    var w' := Apply(w, step);
    match step.call
    case Generating(at, stage) =>
      GenerateOwn(w.sessions[at], stage, step.answer);
    case Delivering(to, m, buffer) =>
      AddOwn(w.sessions[to], m.round, m.from, buffer, step.answer.Some?);
  }

  lemma GenerateOwn(s: Session, stage: nat, answer: Option<Buffer>)
    requires stage <= FINAL
    ensures var (g, r) := Generate(s, stage, answer);
      forall p :: 0 <= p < FINAL ==> g.Get(p).own == if p == stage && r.Ok? then answer else s.Get(p).own
    ensures var (g, r) := Generate(s, stage, answer); r.Ok? ==> answer == Some(r.value)
  {
  }

  lemma AddOwn(s: Session, round: nat, from: Key, buffer: Buffer, accepted: bool)
    requires round < FINAL
    ensures forall p :: 0 <= p < FINAL ==> Add(s, round, from, buffer, accepted).0.Get(p).own == s.Get(p).own
  {
  }

  lemma {:induction false} RunStaysSingleValued(w: World, steps: seq<Step>)
    requires Kept(w) && SingleValued(w.sent, w.sessions) && LegalRun(w, steps) && NothingChanges(w, steps)
    ensures SingleValued(Run(w, steps).sent, Run(w, steps).sessions)
    decreases |steps|
  {
    if steps != [] {
      StepKeeps(w, steps[0]);
      if steps[0].call.Generating? {
        assert Authentic(w.sessions[steps[0].call.at], w.sent);
      }
      StepStaysSingleValued(w, steps[0]);
      RunStaysSingleValued(Apply(w, steps[0]), steps[1..]);
    }
  }

  /** The values of one round, by signer, as one session has them. */
  function View(s: Session, round: nat): map<Key, Bytes>
    requires round < FINAL && s.Get(round).own.Some?
  {
    s.Get(round).accepted[s.self := s.Get(round).own.value.data]
  }

  /** Two sessions that have both passed a round used the same value for every signer. */
  lemma ViewsAgree(w: World, steps: seq<Step>, i: Key, j: Key, round: nat)
    requires Initial(w) && LegalRun(w, steps) && NothingChanges(w, steps) && round < FINAL
    requires i in w.sessions && j in w.sessions
    ensures Agree(Run(w, steps), i, j, round)
  {
    InitiallyKept(w);
    RunKeeps(w, steps);
    RunStaysSingleValued(w, steps);
    KeptAgree(Run(w, steps), i, j, round);
  }

  ghost predicate Agree(w: World, i: Key, j: Key, round: nat)
    requires round < FINAL
  {
    && i in w.sessions && j in w.sessions
    && var s, t := w.sessions[i], w.sessions[j];
      s.Generated(round + 1) && t.Generated(round + 1) ==>
        s.Generated(round) && t.Generated(round) && View(s, round) == View(t, round)
  }

  lemma KeptAgree(w: World, i: Key, j: Key, round: nat)
    requires Kept(w) && SingleValued(w.sent, w.sessions) && round < FINAL
    requires i in KeySet(w.order) && j in KeySet(w.order)
    ensures Agree(w, i, j, round)
  {
    var s, t := w.sessions[i], w.sessions[j];
    if s.Generated(round + 1) && t.Generated(round + 1) {
      ViewIsWhatSignersHold(w, i, round);
      ViewIsWhatSignersHold(w, j, round);
      SameMap(View(s, round), View(t, round));
    }
  }

  lemma SameMap(a: map<Key, Bytes>, b: map<Key, Bytes>)
    requires a.Keys == b.Keys && forall k :: k in a ==> a[k] == b[k]
    ensures a == b
  {
  }

  lemma ViewIsWhatSignersHold(w: World, i: Key, round: nat)
    requires Kept(w) && SingleValued(w.sent, w.sessions) && round < FINAL
    requires i in w.sessions && w.sessions[i].Generated(round + 1)
    ensures w.sessions[i].Generated(round) && View(w.sessions[i], round).Keys == w.sessions.Keys
    ensures forall k :: k in w.sessions ==>
      w.sessions[k].Get(round).own.Some? && View(w.sessions[i], round)[k] == w.sessions[k].Get(round).own.value.data
  {
    ViewKeys(w, i, round);
    assert Authentic(w.sessions[i], w.sent);
    forall k | k in w.sessions
      ensures w.sessions[k].Get(round).own.Some?
      ensures View(w.sessions[i], round)[k] == w.sessions[k].Get(round).own.value.data
    {
      if k != i {
        HeldIsOwn(w.sessions[i], k, round, w.sent, w.sessions);
      }
    }
  }

  lemma ViewKeys(w: World, i: Key, round: nat)
    requires Kept(w) && round < FINAL && i in w.sessions && w.sessions[i].Generated(round + 1)
    ensures w.sessions[i].Generated(round) && w.sessions[i].self == i
    ensures View(w.sessions[i], round).Keys == w.sessions.Keys
    ensures w.sessions[i].Get(round).accepted.Keys == w.sessions.Keys - {i}
  {
    var s := w.sessions[i];
    assert SessionKept(s, i, KeySet(w.order));
    StageCollected(s, round + 1);
    FullCacheOf(s, i, KeySet(w.order), round);
  }

  /** What a session holds of a co-signer is what the co-signer holds as its own. */
  lemma HeldIsOwn(s: Session, k: Key, round: nat, sent: set<Message>, sessions: map<Key, Session>)
    requires Authentic(s, sent) && SingleValued(sent, sessions)
    requires round < FINAL && k in s.Get(round).accepted && k in sessions
    ensures sessions[k].Get(round).own.Some?
    ensures s.Get(round).accepted[k] == sessions[k].Get(round).own.value.data
  {
    var m := Message(k, round, s.Get(round).accepted[k]);
    assert m in sent;
  }
}
