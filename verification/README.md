# A verified model of the Crypto.com Chain JavaScript library

This project models the parts of the library that hold real branching, state or arithmetic, and proves what they
promise. `dafny verify dfyconfig.toml` checks all of it.

| files | what they model |
|---|---|
| `AddressLeaves`, with `Arith`, `Gcd`, `Binomial`, `Subsets` | the leaf counter of an m-of-n transfer address, in 64-bit arithmetic, checked or wrapping |
| `MultiSigSession`, `KeyCombination` | one signer's session object, its builder, and verification of the final signature |
| `MultiSigProtocol` | all sessions of one multi-signature with the messages in flight, over every run |
| `PlainTransfer`, `TransferTransaction`, `TransferBuilder` | the transfer builder and the cache-free machine it refines |
| `DepositBuilder`, `WithdrawBuilder` | the two staking builders that cache a transaction, each with its plain machine |
| `History` | runs of calls on a machine: what the successful calls added, and which call a value comes from; used by the three builders |
| `FormatPath`, with `Decimal` | derivation paths made from a template, and when they can be read back |
| `UnjailCodec`, `UnjailTransaction` | bytes, building, signing and verifying of unjail transactions |
| `CroUnits` | conversion between CRO and its basic unit |
| `Bytes`, `SharedTypes`, `Wrappers` | shared types |

Objects that the source updates in place are classes. Each of their methods says outright what it does to the abstract
value of the object (`State()` or `Abs()`) and what it answers, by way of a function of the same step; the lemmas are
about that function and about runs of it. What a builder holds and answers after a run is stated by its calls and their
replies alone: which values the successful calls added, in what order, and which call each witness comes from.

Whether a native call succeeds, and what it returns, is a parameter of the call or of an `Env`, `Scheme` or `Crypto`
value: elliptic-curve and hash arithmetic, encodings that are not visible in the repository, and the size-based fee
come in that way.

## Where the code differs from what is said about it

- `parse_address_params` (`native/src/transfer_transaction/builder_options.rs:178-190`) reads `requiredSigners` for both
  fields, so the leaf counter always sees m = n. `AddressLeaves.TransferAddressLeaves` treats the counter with two
  independent parameters; `AddressLeaves.InputLeaves` is the composition as written. It records one leaf up to 67
  required signers; from 68 on the loop overflows, and the build (`neon build --release`, `package.json:77`), which
  wraps, records none. `AddressLeaves.RecordedCountIsIntended` says that the count is the intended one exactly when
  all signers are required and there are at most 67, and `AddressLeaves.WrongCounts` gives two inputs with a wrong one.
- The comment at `lib/src/transaction/staking/withdraw_unbonded_transaction_builder.ts:142-144` says that adding clears
  the signatures; `clearPreparedRawTx` leaves the witness. `WithdrawBuilder.AddingKeepsStaleWitness` is a run that shows
  it and `WithdrawBuilder.SignsCurrentExactlyWhenFresh` says exactly when the witness signs the current transaction.
- `lib/src/utils/utils.spec.ts:84-88` expects `toCRO` to refuse a value in basic units that is not an integer. Division
  rounds to 20 places first, so a value close enough to an integer is accepted: `CroUnits.FractionIsAccepted` is one,
  `CroUnits.ToCROAccepts` is the exact condition.
- `lib/src/types.ts:226-235` admits a nonce of 2^64, which the native side then refuses to parse.
- The check against adding a co-signer's value twice (`indexOf`) compares Buffer objects, not their bytes. That each
  co-signer gets at most one value in each round rests on the native side; `native/src/multi_sig.rs:192-193` documents
  this for nonces only.

## Model

| member | source | states |
|---|---|---|
| AddressLeaves.TransferAddressLeaves | native/src/transfer_transaction/mod.rs:72-85 | the loop returns the number of `required`-element subsets of `total` signers, truncated to 16 bits, when required <= total and the largest binomial up to the required one fits 64 bits; otherwise a build with overflow checks panics, and one without goes on with wrapped values |
| AddressLeaves.LoopCountsLeaves | native/src/transfer_transaction/mod.rs:72-85 | a loop state without overflow so far leads to the binomial coefficient when no later operation overflows, and otherwise to a panic in a checked build |
| AddressLeaves.LastRoundMayWrap | native/src/transfer_transaction/mod.rs:80-84 | when only the last round leaves 64 bits, a wrapping build still returns C(total, required) modulo 2^16 |
| AddressLeaves.MoreThanAll | native/src/transfer_transaction/mod.rs:76-83 | asked for more signers than there are, the wrapping loop ends at zero |
| AddressLeaves.OneRound | native/src/transfer_transaction/mod.rs:76-83 | a round divides without remainder, grows neither quotient, and takes C(total, d-1) to C(total, d) |
| AddressLeaves.FitsExactly | native/src/transfer_transaction/mod.rs:72-85 | no binomial up to the required one leaves 64 bits if and only if the largest of them does not |
| AddressLeaves.SecondEntryOverflows | native/src/transfer_transaction/mod.rs:81 | counting `d` up past the largest 64-bit number is reached only where the result has overflowed |
| AddressLeaves.LeavesAreSignerSets | native/src/transfer_transaction/mod.rs:72-85 | the count is the number of ways to pick the required signers, and the same as the number of ways to leave them out |
| AddressLeaves.U64Bound | native/src/transfer_transaction/mod.rs:72-85 | 64 bits suffice for every required <= total if and only if total <= 67 |
| AddressLeaves.U16Bound | native/src/transfer_transaction/mod.rs:84 | the cast to u16 keeps the count for every required <= total if and only if total <= 18 |
| AddressLeaves.InputLeaves | native/src/transfer_transaction/mod.rs:49-58 | end to end, whatever the total: one leaf up to 67 required signers; from 68 on a panic in a checked build, and zero leaves in a wrapping one |
| AddressLeaves.Vanishes | native/src/transfer_transaction/mod.rs:76-83 | with both parameters equal and at least 68 the wrapping loop ends at zero: nothing wraps in the second half of the row, where `result` stays below the entry |
| AddressLeaves.NeverEnds | native/src/transfer_transaction/mod.rs:76-83 | with the largest 64-bit number for both parameters `d` wraps to zero and the division by it panics |
| AddressLeaves.RecordedCountIsIntended | native/src/transfer_transaction/builder_options.rs:174-196 | in either kind of build, a count is recorded and is the intended C(total, required) if and only if all signers are required and there are at most 67 |
| AddressLeaves.WrongCounts | native/src/transfer_transaction/builder_options.rs:174-196 | one of two signers is recorded with one leaf instead of two; all of 68 signers with none, or not at all |
| GreatestCommonDivisor.CancelThenDivide | native/src/transfer_transaction/mod.rs:77-80 | when c*d = r*n, cancelling gcd(r, d) leaves an exact divisor of n, and the two quotients multiply to c |
| GreatestCommonDivisor.Euclid | native/src/transfer_transaction/mod.rs:77-80 | a number coprime to p that divides p*n divides n |
| GreatestCommonDivisor.Bezout | native/src/transfer_transaction/mod.rs:77 | the gcd divides both numbers and is an integer combination of them |
| GreatestCommonDivisor.GcdIsGreatest | native/src/transfer_transaction/mod.rs:77 | every common divisor divides the gcd |
| Binomial.Absorption | native/src/transfer_transaction/mod.rs:76-83 | C(n,k)*k = C(n,k-1)*(n-k+1), the recurrence behind a round, from Pascal's rule |
| Binomial.Symmetry | native/src/transfer_transaction/mod.rs:72-85 | C(n,k) = C(n,n-k) |
| Binomial.PeakIsMaximum | native/src/transfer_transaction/mod.rs:72-85 | rows are unimodal: the entry at min(k, n/2) bounds every entry up to k and is one of them |
| Binomial.MiddleGrows | native/src/transfer_transaction/mod.rs:72-85 | the largest entry of a row grows with the row |
| Subsets.CountSubsets | native/src/transfer_transaction/mod.rs:72-85 | a set of n has C(n,k) subsets of size k |
| MultiSigSession.FullCacheMeansEveryCoSigner | lib/src/multi_sig/multi_sig_session.ts:300-329 | a cache of n-1 Buffers means one accepted value from every co-signer, and nothing less does |
| MultiSigSession.FreshIsValid | lib/src/multi_sig/multi_sig_session.ts:48-68 | a session opened on a list that includes its own key starts with caches that agree with the native side, and with as many co-signers as places if and only if no key is repeated |
| MultiSigSession.RepeatedKeysNeverPass | lib/src/multi_sig/multi_sig_session.ts:152-272 | with a key listed twice no round is ever collected, and every later stage is refused |
| MultiSigSession.GenerateOutcome | lib/src/multi_sig/multi_sig_session.ts:152-167 | each generating call is refused by the session unless the round before is collected, then by the native side; otherwise the output of that stage, and nothing else, becomes the Buffer the native side returned |
| MultiSigSession.AddOutcome | lib/src/multi_sig/multi_sig_session.ts:123-143 | each adding call refuses a Buffer object added before, then asks the native side; success appends the Buffer and records its bytes for that co-signer, and changes nothing else |
| MultiSigSession.AddedIsRefused | lib/src/multi_sig/multi_sig_session.ts:129-133 | a Buffer once added is refused from then on, for whichever co-signer, and the session stays as it is |
| MultiSigSession.SignThenVerify | lib/src/multi_sig/multi_sig_session.ts:262-298 | after `sign` the session holds the native signature, and `verify` without an argument checks those very bytes |
| MultiSigSession.MultiSigSession.GenerateNonceCommitment | lib/src/multi_sig/multi_sig_session.ts:102-112 | stage 0 has no barrier; a native failure leaves the whole session as it was |
| MultiSigSession.MultiSigSession.AddNonceCommitment | lib/src/multi_sig/multi_sig_session.ts:123-143 | the same Buffer object is refused before the native side is asked; success adds to both caches |
| MultiSigSession.MultiSigSession.GenerateNonce | lib/src/multi_sig/multi_sig_session.ts:152-167 | refused unless all commitments are collected |
| MultiSigSession.MultiSigSession.AddNonce | lib/src/multi_sig/multi_sig_session.ts:179-195 | as for commitments, in the nonce round |
| MultiSigSession.MultiSigSession.PartialSign | lib/src/multi_sig/multi_sig_session.ts:204-220 | refused unless all nonces are collected |
| MultiSigSession.MultiSigSession.AddPartialSignature | lib/src/multi_sig/multi_sig_session.ts:232-253 | as for commitments, in the round of partial signatures |
| MultiSigSession.MultiSigSession.Sign | lib/src/multi_sig/multi_sig_session.ts:262-272 | refused unless all partial signatures are collected |
| MultiSigSession.MultiSigSession.Verify | lib/src/multi_sig/multi_sig_session.ts:282-298 | checks the signature given, else the session's own, else reports that there is none; what cannot be read is refused |
| MultiSigSession.MultiSigBuilder.Create | lib/src/multi_sig/multi_sig_builder.ts:33-57 | succeeds exactly with a co-signer and 1 <= required <= all signers; the list is the co-signers, then the signer itself |
| MultiSigSession.MultiSigBuilder.CreateNewSession | lib/src/multi_sig/multi_sig_builder.ts:90-100 | a fresh session on the builder's list, unless the message is empty or the native side does not open one |
| MultiSigProtocol.InitiallyKept | lib/src/multi_sig/multi_sig_session.ts:48-68 | sessions opened on any orderings of the same keys satisfy the protocol invariant |
| MultiSigProtocol.StepKeeps | lib/src/multi_sig/multi_sig_session.ts:102-272 | every call, succeeding or failing, keeps the protocol invariant |
| MultiSigProtocol.RunKeeps | lib/src/multi_sig/multi_sig_session.ts:102-272 | every run keeps it, with messages late, out of order, repeated or lost |
| MultiSigProtocol.CollectedFromEveryone | lib/src/multi_sig/multi_sig_session.ts:300-329 | a session past a barrier holds the value of the round before from every other signer, who generated it |
| MultiSigProtocol.PhaseBarrier | lib/src/multi_sig/multi_sig_session.ts:123-272 | in every run, a nonce, partial signature or signature at one session means a commitment, nonce or partial signature at every other |
| MultiSigProtocol.AtMostOnePhaseApart | lib/src/multi_sig/multi_sig_session.ts:123-272 | in every run no two sessions are more than one phase apart |
| MultiSigProtocol.OutputsAreAnswers | lib/src/multi_sig/multi_sig_session.ts:102-272 | in every run each output, the final signature included, is the answer to the last successful call that generated it |
| MultiSigProtocol.WorkIsConserved | lib/src/multi_sig/multi_sig_session.ts:102-272 | in every run first-time steps done plus work left make n(4 + 3(n-1)), so there are never more than that many first-time steps |
| MultiSigProtocol.NoDeadlock | lib/src/multi_sig/multi_sig_session.ts:102-272 | in every run, while a signature is missing some call must make progress whatever the native side answers within its contract |
| MultiSigProtocol.FinishedMeansSigned | lib/src/multi_sig/multi_sig_session.ts:262-272 | the work is used up if and only if every session has its signature |
| MultiSigProtocol.EveryRunCanFinish | lib/src/multi_sig/multi_sig_session.ts:102-272 | whatever has happened, some legal continuation gives every session its signature |
| MultiSigProtocol.ViewsAgree | lib/src/multi_sig/multi_sig_session.ts:123-272 | as long as no output is generated again with other bytes, two sessions past a round used the same value for every signer |
| KeyCombination.VerifyNative | native/src/multi_sig.rs:325-345 | reads signature and message, sorts the keys in place, combines them, checks; an unreadable signature, an unreadable message and keys that do not combine are reported in that order |
| KeyCombination.SortedPermutationsAreEqual | native/src/multi_sig.rs:333-334 | there is one sorted permutation of a list of keys |
| KeyCombination.OutcomeOfVerification | native/src/multi_sig.rs:325-345 | for the keys in ascending order: true if and only if all can be read and combined and the check against the combined key passes; each error if and only if its step is the first to fail |
| KeyCombination.VerificationIgnoresOrder | native/src/multi_sig.rs:333-344 | verification has the same outcome for any two orderings of the same keys |
| KeyCombination.EverySignerVerifiesAlike | lib/src/multi_sig/multi_sig_builder.ts:46-48 | two signers, each listing the others in any order and then itself, verify with the same outcome |
| TransferTransaction.BuildIncomplete | native/src/transfer_transaction/mod.rs:32-70 | succeeds if and only if the leaf counter gives every input a count; the transaction then has the given chain, outputs, view keys and inputs, in order, each input with its count, and no witness |
| PlainTransfer.FailuresCanBeErased | lib/src/transaction/transfer/transfer_transaction_builder.ts:225-293 | any run ends where the run without its failing calls ends, with the same replies to the other calls |
| PlainTransfer.ListsHistory | lib/src/transaction/transfer/transfer_transaction_builder.ts:76-141 | after any run the inputs, outputs and view keys are those of the successful add calls, in call order |
| PlainTransfer.AddingAfterRun | lib/src/transaction/transfer/transfer_transaction_builder.ts:76-141 | the add calls after any run: exactly when they succeed, and which check fails first |
| PlainTransfer.WitnessHistory | lib/src/transaction/transfer/transfer_transaction_builder.ts:225-293 | after any run an input is witnessed if and only if some call gave it a witness and no later call grew a list or gave it another, and then by what that call gave, a signature being over the current transaction's id |
| PlainTransfer.IncompleteAfterRun | lib/src/transaction/transfer/transfer_transaction_builder.ts:327-333 | `toIncompleteHex` after any run: the transaction that the calls describe, field by field, with what they gave as witnesses, each at its input |
| PlainTransfer.IdAfterRun | lib/src/transaction/transfer/transfer_transaction_builder.ts:202-216 | `txId` after any run: the id of the transaction that the calls describe, or the first check that fails |
| PlainTransfer.FeeAfterRun | lib/src/transaction/transfer/transfer_transaction_builder.ts:148-163 | `estimateFee` after any run: the fee for the leaf counts, outputs and view keys that the calls describe, or the first check that fails |
| PlainTransfer.WitnessingAfterRun | lib/src/transaction/transfer/transfer_transaction_builder.ts:225-293 | `signInput` and `addWitness` after any run: exactly when they succeed, and which check fails first |
| PlainTransfer.CompletedAfterRun | lib/src/transaction/transfer/transfer_transaction_builder.ts:341-356 | `isCompleted` after any run: true if and only if there are inputs and each was given a witness that still stands |
| PlainTransfer.VerifyAfterRun | lib/src/transaction/transfer/transfer_transaction_builder.ts:305-318 | `verify` after any run: exactly when it passes, and which check fails first |
| PlainTransfer.HexAfterRun | lib/src/transaction/transfer/transfer_transaction_builder.ts:365-390 | `toHex` after any run: exactly when it succeeds, and then the transaction and witnesses that the calls describe |
| TransferBuilder.TransferTransactionBuilder.AddInputCall | lib/src/transaction/transfer/transfer_transaction_builder.ts:76-90 | refines the plain machine: drops the cache, appends |
| TransferBuilder.TransferTransactionBuilder.AddOutputCall | lib/src/transaction/transfer/transfer_transaction_builder.ts:100-112 | the same for outputs |
| TransferBuilder.TransferTransactionBuilder.AddViewKeyCall | lib/src/transaction/transfer/transfer_transaction_builder.ts:129-141 | the same for view keys |
| TransferBuilder.TransferTransactionBuilder.EstimateFeeCall | lib/src/transaction/transfer/transfer_transaction_builder.ts:148-163 | the fee of the transaction rebuilt from the fields, or the first check that fails, the native estimate included |
| TransferBuilder.TransferTransactionBuilder.TxIdCall | lib/src/transaction/transfer/transfer_transaction_builder.ts:202-216 | the id, always of a rebuild, is that of the cached transaction when there is one |
| TransferBuilder.TransferTransactionBuilder.SignInputCall | lib/src/transaction/transfer/transfer_transaction_builder.ts:225-260 | refines the plain machine even when the native call throws after a transaction was cached |
| TransferBuilder.TransferTransactionBuilder.AddWitnessCall | lib/src/transaction/transfer/transfer_transaction_builder.ts:269-293 | the same for a witness handed in, which is kept as the native side decodes it |
| TransferBuilder.TransferTransactionBuilder.VerifyCall | lib/src/transaction/transfer/transfer_transaction_builder.ts:305-318 | the checks in order, then the native check of the cached transaction |
| TransferBuilder.TransferTransactionBuilder.ToIncompleteHexCall | lib/src/transaction/transfer/transfer_transaction_builder.ts:327-333 | cached or built, it is the current fields with the current witnesses |
| TransferBuilder.TransferTransactionBuilder.IsCompletedCall | lib/src/transaction/transfer/transfer_transaction_builder.ts:341-356 | the answer read off the cache is that of the plain machine: inputs non-empty and all witnessed |
| TransferBuilder.TransferTransactionBuilder.ToHexCall | lib/src/transaction/transfer/transfer_transaction_builder.ts:365-390 | exports the current fields with every witness in input order, or the first of the checks, the native verification and the native export that fails |
| TransferBuilder.TransferTransactionBuilder.PrepareIncompleteSigningHex | lib/src/transaction/transfer/transfer_transaction_builder.ts:412-418 | caching does not change the plain machine, and what is cached equals a rebuild with the current witnesses |
| TransferBuilder.TransferTransactionBuilder.BuildIncompleteHex | lib/src/transaction/transfer/transfer_transaction_builder.ts:420-441 | a rebuild ignores the cache and changes nothing |
| TransferBuilder.TransferTransactionBuilder.Clone | lib/src/transaction/transfer/transfer_transaction_builder.ts:449-451 | a new object that stands for the same plain machine |
| TransferBuilder.TransferTransactionBuilder.CallAll | lib/src/transaction/transfer/transfer_transaction_builder.ts:76-441 | every sequence of calls, failing ones included, gives the replies and the state of the plain machine |
| TransferBuilder.TransferTransactionBuilder.AddChange | integration-tests/transaction/transfer.spec.ts:81-99 | estimating on a clone and adding the change makes inputs = outputs + estimated fee of the final transaction; it succeeds exactly when the fee can be estimated and the surplus is a coin that covers it, and otherwise leaves the builder alone |
| DepositBuilder.PointersHistory | lib/src/transaction/staking/deposit_transaction_builder.ts:63-76 | after any run the inputs are those of the successful `addInput` calls, in call order |
| DepositBuilder.SlotHistory | lib/src/transaction/staking/deposit_transaction_builder.ts:63-160 | after any run an input has a witness if and only if some call gave it one and no later call added an input, and then it is the one given last |
| DepositBuilder.AnswersAfterRun | lib/src/transaction/staking/deposit_transaction_builder.ts:101-107 | `txId`, `toUnsignedHex` and `isCompleted` after any run, for the inputs in call order, the staking address and the chain |
| DepositBuilder.WitnessingAfterRun | lib/src/transaction/staking/deposit_transaction_builder.ts:117-189 | `signInput`, `addWitness` and `hasWitness` after any run: exactly when they succeed, what they answer, and which check fails first |
| DepositBuilder.HexAfterRun | lib/src/transaction/staking/deposit_transaction_builder.ts:225-246 | `toHex` after any run: exactly when it succeeds, and then the inputs in call order, the staking address, the chain, and at each input the witness that stands, a signature being over the id of this very transaction |
| DepositBuilder.DepositTransactionBuilder.AddInputCall | lib/src/transaction/staking/deposit_transaction_builder.ts:63-76 | refines the plain machine: all witnesses and the cache go, the input is appended |
| DepositBuilder.DepositTransactionBuilder.ClearWitnesses | lib/src/transaction/staking/deposit_transaction_builder.ts:83-87 | the loop clears every witness and keeps every pointer |
| DepositBuilder.DepositTransactionBuilder.TxIdCall | lib/src/transaction/staking/deposit_transaction_builder.ts:101-107 | the id is that of the current inputs, cached or not |
| DepositBuilder.DepositTransactionBuilder.SignInputCall | lib/src/transaction/staking/deposit_transaction_builder.ts:117-137 | the witness made signs the id of the current inputs; the checks come in order |
| DepositBuilder.DepositTransactionBuilder.AddWitnessCall | lib/src/transaction/staking/deposit_transaction_builder.ts:147-160 | the witness handed in replaces that of its input only |
| DepositBuilder.DepositTransactionBuilder.HasWitnessCall | lib/src/transaction/staking/deposit_transaction_builder.ts:183-189 | says whether the input has a witness, or that there is no such input |
| DepositBuilder.DepositTransactionBuilder.ToUnsignedHexCall | lib/src/transaction/staking/deposit_transaction_builder.ts:208-215 | exports the current inputs, address and chain, cached or not |
| DepositBuilder.DepositTransactionBuilder.ToHexCall | lib/src/transaction/staking/deposit_transaction_builder.ts:225-246 | exports the current transaction with the witnesses in input order, or the first check that fails |
| DepositBuilder.DepositTransactionBuilder.IsCompletedCall | lib/src/transaction/staking/deposit_transaction_builder.ts:258-267 | inputs non-empty and none without a witness |
| DepositBuilder.DepositTransactionBuilder.PrepareRawTx | lib/src/transaction/staking/deposit_transaction_builder.ts:273-286 | caching keeps the invariant and does not change the plain machine, also when the native side does not build the transaction |
| DepositBuilder.DepositTransactionBuilder.CallAll | lib/src/transaction/staking/deposit_transaction_builder.ts:63-286 | every sequence of calls keeps the invariant (transaction and id both absent or both current) and behaves as on the plain machine |
| WithdrawBuilder.ListsHistory | lib/src/transaction/staking/withdraw_unbonded_transaction_builder.ts:90-158 | after any run outputs and view keys are those of the successful add calls, in call order, never more than 65536 outputs |
| WithdrawBuilder.StampHistory | lib/src/transaction/staking/withdraw_unbonded_transaction_builder.ts:256-293 | after any run the witness is that of the last call that gave one, a signature being over the lists as of that call |
| WithdrawBuilder.SignsCurrentExactlyWhenFresh | lib/src/transaction/staking/withdraw_unbonded_transaction_builder.ts:256-272 | with an injective id, the witness signs the current transaction if and only if no `addOutput`, `addViewKey` or `addWitness` followed the last `sign` |
| WithdrawBuilder.AddingOutdates | lib/src/transaction/staking/withdraw_unbonded_transaction_builder.ts:90-158 | right after any addition the witness never signs the current transaction |
| WithdrawBuilder.AnswersAfterRun | lib/src/transaction/staking/withdraw_unbonded_transaction_builder.ts:181-230 | `estimateFee`, `txId` and `toUnsignedHex` after any run, for the builder's nonce and chain and the lists in call order |
| WithdrawBuilder.ChangesAfterRun | lib/src/transaction/staking/withdraw_unbonded_transaction_builder.ts:90-293 | `addOutput`, `addViewKey`, `sign` and `addWitness` after any run: exactly when they succeed, and which check fails first |
| WithdrawBuilder.HeldAfterRun | lib/src/transaction/staking/withdraw_unbonded_transaction_builder.ts:300-320 | `getWitness`, `isCompleted` and `getTotalOutputAmount` after any run: the witness given last, whether there are outputs and a witness, and the sum of the outputs added |
| WithdrawBuilder.HexAfterRun | lib/src/transaction/staking/withdraw_unbonded_transaction_builder.ts:348-371 | `toHex` after any run: exactly when it succeeds, and then nonce, lists and chain of the current transaction with the witness given last |
| WithdrawBuilder.SignedPlainAfterRun | lib/src/transaction/staking/withdraw_unbonded_transaction_builder.ts:328-339 | `toSignedPlainHex` after any run: the same, but only if some call built the transaction since the lists last grew |
| WithdrawBuilder.AddingKeepsStaleWitness | lib/src/transaction/staking/withdraw_unbonded_transaction_builder.ts:142-163 | against the comment: after output, sign, view key, the builder is complete and exports the old signature |
| WithdrawBuilder.WithdrawUnbondedTransactionBuilder.AddOutputCall | lib/src/transaction/staking/withdraw_unbonded_transaction_builder.ts:90-111 | refines the plain machine, with the bound on outputs; the cache goes, the witness stays |
| WithdrawBuilder.WithdrawUnbondedTransactionBuilder.GetTotalOutputAmountCall | lib/src/transaction/staking/withdraw_unbonded_transaction_builder.ts:118-123 | the fold is the sum of the outputs |
| WithdrawBuilder.WithdrawUnbondedTransactionBuilder.AddViewKeyCall | lib/src/transaction/staking/withdraw_unbonded_transaction_builder.ts:150-158 | as for outputs |
| WithdrawBuilder.WithdrawUnbondedTransactionBuilder.EstimateFeeCall | lib/src/transaction/staking/withdraw_unbonded_transaction_builder.ts:181-194 | the fee of the current lists, cached or not, unless the native estimate fails |
| WithdrawBuilder.WithdrawUnbondedTransactionBuilder.TxIdCall | lib/src/transaction/staking/withdraw_unbonded_transaction_builder.ts:203-213 | the id of the current lists, cached or not |
| WithdrawBuilder.WithdrawUnbondedTransactionBuilder.ToUnsignedHexCall | lib/src/transaction/staking/withdraw_unbonded_transaction_builder.ts:221-230 | the current lists with their prefix, cached or not |
| WithdrawBuilder.WithdrawUnbondedTransactionBuilder.EnsurePrepared | lib/src/transaction/staking/withdraw_unbonded_transaction_builder.ts:236-249 | caches the transaction of the current lists and its id, unless there is no output or the nonce does not fit |
| WithdrawBuilder.WithdrawUnbondedTransactionBuilder.SignCall | lib/src/transaction/staking/withdraw_unbonded_transaction_builder.ts:256-272 | the witness signs the current lists; a failing native call leaves the old witness |
| WithdrawBuilder.WithdrawUnbondedTransactionBuilder.AddWitnessCall | lib/src/transaction/staking/withdraw_unbonded_transaction_builder.ts:280-293 | a witness of the right size replaces the old one once the transaction can be built |
| WithdrawBuilder.WithdrawUnbondedTransactionBuilder.GetWitnessCall | lib/src/transaction/staking/withdraw_unbonded_transaction_builder.ts:300-306 | the witness held, stale or not |
| WithdrawBuilder.WithdrawUnbondedTransactionBuilder.IsCompletedCall | lib/src/transaction/staking/withdraw_unbonded_transaction_builder.ts:314-320 | there is an output and some witness |
| WithdrawBuilder.WithdrawUnbondedTransactionBuilder.ToSignedPlainHexCall | lib/src/transaction/staking/withdraw_unbonded_transaction_builder.ts:328-339 | unlike the other exports it does not build: it fails when nothing is cached |
| WithdrawBuilder.WithdrawUnbondedTransactionBuilder.ToHexCall | lib/src/transaction/staking/withdraw_unbonded_transaction_builder.ts:348-371 | builds when needed, then exports with the witness held |
| WithdrawBuilder.WithdrawUnbondedTransactionBuilder.CallAll | lib/src/transaction/staking/withdraw_unbonded_transaction_builder.ts:90-371 | every sequence of calls keeps the invariant (transaction and id both absent or both current) and behaves as on the plain machine |
| FormatPath.Derivef | lib/src/hd_wallet/hd_wallet.ts:24-42 | succeeds if and only if there are as many arguments as placeholders; too few and too many are told apart; the path has the arguments in order |
| FormatPath.SubstituteOutcome | lib/src/hd_wallet/hd_wallet.ts:28-39 | substituting one placeholder at a time either runs out of arguments or leaves the surplus, by their number alone |
| FormatPath.RenderConcat | lib/src/hd_wallet/hd_wallet.ts:28-35 | a path is put together piece by piece, each placeholder taking the next argument |
| FormatPath.ScanRestoresTemplate | lib/src/hd_wallet/hd_wallet.ts:28 | the pieces of any template, put together, are the template |
| FormatPath.ScanIsLeftmost | lib/src/hd_wallet/hd_wallet.ts:28 | every piece is a placeholder if and only if one matches there, so none is passed over |
| FormatPath.ReadBack | lib/src/hd_wallet/hd_wallet.ts:28-35 | stripping literals and reading digits recovers the arguments when a non-digit stands between any two placeholders |
| FormatPath.ReadableIsUnambiguous | lib/src/hd_wallet/hd_wallet.ts:28-35 | such a template makes different paths of different arguments |
| FormatPath.DigitsBetweenIsAmbiguous | lib/src/hd_wallet/hd_wallet.ts:28-35 | with at most eight digits and nothing else between two placeholders it does not |
| FormatPath.UnambiguousExactlyWhenReadable | lib/src/hd_wallet/hd_wallet.ts:28-35 | for templates whose all-digit separators have at most eight digits, unambiguous if and only if readable |
| FormatPath.MarkerSeparates | lib/src/hd_wallet/hd_wallet.ts:28-35 | nine digits can separate two placeholders, so that bound is the largest possible |
| FormatPath.Bip44PathIsUnambiguous | lib/src/network/network.ts:31 | the account and the index can be told from a path of any network (BIP-44, section "Path levels") |
| FormatPath.Bip44PathRendered | lib/src/network/network.ts:31 | the path that an account and an index make of a network's template, letter for letter |
| Decimal.ValueOfDigits | lib/src/hd_wallet/hd_wallet.ts:34 | reading a printed number gives the number back |
| Decimal.DigitsAppend | lib/src/hd_wallet/hd_wallet.ts:34 | the last digit of a numeral is the remainder by ten, and what stands before it is the quotient's numeral |
| Decimal.DigitsOfValue | lib/src/hd_wallet/hd_wallet.ts:34 | printing the value of a numeral without leading zero gives the numeral back |
| UnjailCodec.LittleEndianRoundTrip | lib/src/transaction/council_node/unjail_transaction.spec.ts:129-131 | a number that fits is read back from its bytes |
| UnjailCodec.LittleEndianIsOnto | lib/src/transaction/council_node/unjail_transaction.spec.ts:129-131 | bytes are written back from their number |
| UnjailCodec.DecodeEncodedTx | native/src/council_node_transaction/unjail_transaction.rs:60-65 | decoding the bytes of an unsigned transaction, whatever follows them, gives it back |
| UnjailCodec.EncodeDecodedTx | native/src/council_node_transaction/unjail_transaction.rs:60-65 | bytes that decode begin with the encoding of what they decode to |
| UnjailCodec.DecodeAuxIsInverse | lib/src/transaction/council_node/unjail_transaction.spec.ts:157-159 | bytes decode to a signed transaction if and only if they begin with its encoding |
| UnjailCodec.ExpectedBytes | lib/src/transaction/council_node/unjail_transaction.spec.ts:129-131 | the bytes the tests expect, unsigned and signed, for any address and signature |
| UnjailTransaction.VerifyUnjailTxAux | native/src/council_node_transaction/unjail_transaction.rs:67-88 | decodes, telling bytes of another kind of transaction from undecodable ones, then reports the first mismatch of address, nonce and chain, then checks whose signature it is |
| UnjailTransaction.RoundTrip | native/src/council_node_transaction/unjail_transaction.rs:17-105 | what was built and signed is accepted if and only if all three fields are those built with and the key is the staking address's; otherwise the first mismatch in order |
| UnjailTransaction.AcceptsOnlySigned | native/src/council_node_transaction/unjail_transaction.rs:67-105 | any bytes are accepted if and only if they begin with a transaction with the asserted fields and a signature that recovers the staking address |
| UnjailTransaction.ReportsFirstMismatch | native/src/council_node_transaction/unjail_transaction.rs:67-88 | for any transaction with a well-formed signature, each report is made if and only if its check is the first to fail |
| UnjailTransaction.RefusesOtherBytes | native/src/council_node_transaction/unjail_transaction.rs:90-105 | bytes that no such transaction begins are refused, as another kind of transaction or as undecodable |
| UnjailTransaction.UnjailTransactionBuilder.Create | lib/src/transaction/council_node/unjail_transaction.ts:35-59 | succeeds exactly for nonces in [0, 2^64), and then holds the bytes and the id |
| UnjailTransaction.UnjailTransactionBuilder.Sign | lib/src/transaction/council_node/unjail_transaction.ts:105-113 | remembers the key and nothing else |
| UnjailTransaction.UnjailTransactionBuilder.TxId | lib/src/transaction/council_node/unjail_transaction.ts:95-97 | the id of the transaction over the nonce, address and chain given |
| UnjailTransaction.UnjailTransactionBuilder.ToUnsignedHex | lib/src/transaction/council_node/unjail_transaction.ts:122-124 | the tagged bytes of the transaction built |
| UnjailTransaction.UnjailTransactionBuilder.ToHex | lib/src/transaction/council_node/unjail_transaction.ts:133-142 | the unsigned bytes followed by a signature; verifying it against the same options succeeds if and only if the key is the staking address's |
| CroUnits.VerifyAcceptsCoins | lib/src/utils/utils.ts:50-60 | accepted values are exactly the CRO amounts of the integers in [0, 10^19] |
| CroUnits.CoinDivisionIsExact | lib/src/utils/utils.ts:76 | rounding a quotient to 20 places never changes an integer input |
| CroUnits.CoinRoundTrip | lib/src/utils/utils.ts:69-104 | from basic units to CRO and back is the identity on coins |
| CroUnits.CRORoundTrip | lib/src/utils/utils.ts:90-104 | from CRO to basic units and back is the identity on what `fromCRO` accepts, and what it returns is a coin |
| CroUnits.CROIsKept | lib/src/utils/utils.ts:78-100 | in the unit CRO both directions return the value given if and only if it is the amount of a coin |
| CroUnits.UnitSizes | lib/src/utils/utils.ts:50-104 | one CRO is 10^8 basic units, and 10^11 CRO, the supply, the largest amount |
| CroUnits.RefusedAmounts | lib/src/utils/utils.ts:50-60 | exactly which amounts are refused, and for which reason: decimal places, then sign, then supply |
| CroUnits.ConversionKeepsOrder | lib/src/utils/utils.ts:69-104 | conversion keeps the order and is one-to-one |
| CroUnits.ToCROAccepts | lib/src/utils/utils.ts:69-88 | a value in basic units is accepted if and only if it is within half of 10^-12 of a coin (the upper end excluded), and is then taken for that coin |
| CroUnits.FractionIsAccepted | lib/src/utils/utils.ts:69-88 | a non-integer that is accepted, against `lib/src/utils/utils.spec.ts:84-88` |

## Left out

- MultiSigProtocol.ViewsAgree: runs in which a signer generates an output again with other bytes after the first was sent are not covered.
- MultiSigProtocol.PhaseBarrier: this and the other protocol results rest on the contract of the native sessions, whose code is in a library that is not shown: a stage is refused while the session's own output of the stage before is missing (`MayGenerate`; the TypeScript does not check this), and at most one value is taken from each co-signer in each round (`MayAccept`).
- MultiSigProtocol.NoDeadlock: this and `EveryRunCanFinish` also rest on what the native sessions must not refuse (`MustGenerate`, `MustAccept`).
- MultiSigSession.MultiSigBuilder.Create: the shape checks of the key pair and the network are not modelled.
- FormatPath.UnambiguousExactlyWhenReadable: templates with nine or more digits and nothing else between two placeholders are not decided.
- KeyCombination.VerifyNative: `SortInPlace` stands for the sort of the standard library.
- TransferBuilder.TransferTransactionBuilder.VerifyCall: the native check is assumed to accept only a transaction with every witness; what else it checks is a flag.
- TransferBuilder.TransferTransactionBuilder.AddChange: the fee is taken to depend on the encoded size alone and amounts to take eight bytes; both are contracts of the native side.
- Elliptic-curve, Schnorr and hash arithmetic, key derivation and mnemonics; the derivation that `derivef` starts with its path.
- Obfuscation, the Tendermint clients and their address arguments, and the argument marshalling of the native module.
- Shape checks of arguments other than those modelled: address syntax, fractional and NaN indices, and the cast of an index to 16 bits.
- Building a raw transfer or withdraw transaction fails only as modelled (leaf counter, nonce); the arguments are taken to have passed those checks.
- Changes a caller makes to an input or output object after handing it over.
- `createMultiSigAddress`, and the builders for unbonding and joining a node, whose only state is a key.
- Key pairs, networks, fee configuration and time specifications.
