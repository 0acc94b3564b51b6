# Payable gate and settlement protocol: a verified model

The repository pays suppliers through a vault contract on Stellar. Issuers sign obligations; the contract registers
them, sets their amounts aside, pays each once, and lets only unpromised money leave. Around it, a backend builds and
signs the byte strings the contract checks, submits the calls, follows the contract's events, and keeps a store that
the rest of the product reads. This project models those parts in Dafny and proves what they promise.

| file | what it holds |
|---|---|
| `primitives.dfy`, `text.dfy` | machine integers, octets, UTF-16 text and its UTF-8 bytes |
| `gate_spec.dfy` | the contract as a state machine: one pure function per entry point, with a history of what happened |
| `gate_invariants.dfy`, `gate_theorems.dfy` | what every call keeps, and what holds over whole runs |
| `gate_meaning.dfy` | for each entry point the conditions under which it goes through, written out, and what it leaves |
| `gate_examples.dfy` | a concrete run that reaches the failure of the spending figure described below |
| `gate_contract.dfy` | the contract as a class that reads and overwrites storage, proved equal to the state machine |
| `store.dfy` | the settlement store: five maps, as functions and as a class |
| `protocol.dfy`, `protocol_safety.dfy`, `protocol_recovery.dfy` | adapter, indexer, sweep and revocation as processes that take one step per await, interleaved with each other, with other callers, crashes and lost responses |
| `protocol_outcomes.dfy` | how an adapter run ends in each situation that is not a fresh payment, and what it leaves in the store |
| `adapter.dfy`, `indexer.dfy`, `agent.dfy` | the same processes as the classes they are |
| `indexing_meaning.dfy` | what the indexer writes and reports, field by field, for any events |
| `strkey.dfy`, `preimages.dfy`, `jcs.dfy`, `amount.dfy` | the encodings signatures and money rest on |
| `canonical_form.dfy`, `strkey_meaning.dfy` | what those texts look like, against their standards |
| `issuer.dfy`, `issuing_meaning.dfy`, `end_to_end.dfy` | signing, verifying, and the way from a signed proof to the contract |
| `kernel.dfy` | duplicate detection over a batch and the primary exception |

## What is assumed

- SHA-256 is a function about which nothing is assumed, not even injectivity. Results that need it to be collision
  free say instead which two named inputs would be a collision.
- Ed25519 verification is a predicate on key, digest and signature. That a key pair matches, or that one presented
  signature is no forgery, is a hypothesis of the results that need it.
- `require_auth` is membership in the set of principals that authorize a call. A call that errs or traps changes nothing.
- Ledger time does not run backwards from one call to the next. Payable entries are never archived.
- The asset is a well-behaved token: a transfer moves exactly its amount. Outside parties can move their own money at
  any time, but can only add to the gate's.
- The id of an RPC event is its position in the contract's log. Names of payables are identified with their hashes
  only through SHA-256 itself: a settlement record under a name speaks of the id that is the hash of that name.
- A JavaScript string is a sequence of UTF-16 code units; a Map is a map; what `Date.parse` makes of an instant is a
  parameter.

## Where the code and its documentation part

- `contracts/payable-contract/src/address_bytes.rs` keeps 32 bytes of an address and drops its kind, so a signature
  binds the recipient up to whether those bytes name an account or a contract (`DigestBindsTerms`, `KindIsNotSigned`).
- The threshold is compared with the length of the issuer list, repetitions included
  (`SetterAcceptsUnreachableThreshold`); it can be met exactly when it does not exceed the number of different issuers
  (`ThresholdIsReachableOnlyUpToDistinctIssuers`).
- "What was spent since the window started" is true in the order of payments; by timestamps it fails exactly when a
  payment shares its timestamp with the one that opened the next window (`SpentSinceStart`,
  `ClockReadingAfterSettling`), which takes a shortened window length (`OpeningIsLater`, `ShorterWindowForgets`) and can
  be reached (`SomeRunForgets`).
- The withdrawal comment speaks of the treasury fixed at `initialize`; the code sends to the treasury in force, which
  can be moved with its own consent (`TreasuryMovesOnlyByConsent`).
- The indexer stores an event before projecting it. A settlement is recorded exactly when its event had not been
  stored without its record (`DeliveryRecordsExactly`, `FullDeliveryRecordsEveryPayment`): a crash in between loses the
  projection for good (`CrashBetweenRecordAndProjectionLoses`), and the adapter's retry is what repairs it
  (`RecoveryLeavesTheRecord`).
- Names are hashed as UTF-8, which turns every unpaired surrogate into U+FFFD: two names share a registration's bytes
  exactly when they differ in unpaired surrogates only (`NamesShareBytesExactly`, `SameBytesExactlyWhenSameRepaired`).
  The canonical JSON a proof goes through refuses such names (`AcceptsExactly`).
- The adapter parses the settlement after the money has moved; an empty invoice or order id makes it throw with
  nothing recorded (`IllFormedContextIsPaidButUnrecorded`).
- The agent converts an amount outside its per-payable catch, and a proof's amount has no upper bound. Of the amounts
  a proof may carry exactly those above an i128 of units do not convert (`ShapedAmountsConvert`, `WholeNumberAbove`);
  one of them ends the whole cycle without a report (`OneAmountEndsTheCycle`), and so does any read outside the catch
  that throws, and nothing else (`CycleAbortsExactlyOnABadAmount`, `RunOnce`).
- The indexer notes a paid proof under its vendor and the amount rendered from units, the kernel compares vendor and
  the invoice's own amount text: the two meet exactly when that text has two or more fraction digits and no spare zero
  past the second (`FingerprintsMeetExactly`). An invoice of "5000" or "5000.5" whose payment
  only the indexer noted is not recognised as settled by that note. The adapter notes the text it is given.
- The sweep marks what it finds EXPIRED or SETTLED, not what it finds REVOKED (`SweepWrites`).

## Model

| member | source | states |
|---|---|---|
| GateContract.PayableGate.constructor | contracts/payable-contract/src/lib.rs:62-63 | a deployed contract starts in the state every run starts from, with nothing configured, registered or logged |
| GateContract.PayableGate.InitializeGate | contracts/payable-contract/src/lib.rs:72-117 | succeeds once; errors in the source's order, admin consent last; keeps every invariant |
| GateContract.PayableGate.RegisterPayable | contracts/payable-contract/src/lib.rs:128-219 | new state or error of registering, checks in source order; on success the payable is READY, its amount committed, two events logged; keeps every invariant |
| GateContract.PayableGate.CheckRegistration | contracts/payable-contract/src/lib.rs:138-172 | the first of the seven state checks that fails, if any |
| GateContract.PayableGate.CheckAuthority | contracts/payable-contract/src/lib.rs:174-190 | the digest is rebuilt from the typed arguments and the configuration, an address without 32 bytes traps, and the signatures are checked against exactly that digest |
| GateContract.PayableGate.AdmitSigned | contracts/payable-contract/src/lib.rs:174-217 | the signatures decide first, then an overflowing total traps; on success everything is stored together |
| GateContract.PayableGate.Admit | contracts/payable-contract/src/lib.rs:192-217 | payable, running total, both events and the grant all change together |
| GateContract.PayableGate.SettlePayable | contracts/payable-contract/src/lib.rs:222-264 | new state or error of settling; a transfer refused after the window was charged leaves no trace; keeps every invariant |
| GateContract.PayableGate.Charge | contracts/payable-contract/src/lib.rs:732-761 | the window is overwritten exactly when the charge fits the cap, with the old start or a new one as the elapsed time decides; an i128 overflow traps |
| GateContract.PayableGate.Disburse | contracts/payable-contract/src/lib.rs:238-262 | charges the window, then transfers; a cap or a refused transfer leaves the window and everything else as it was |
| GateContract.PayableGate.PayOut | contracts/payable-contract/src/lib.rs:240-262 | transfer, SETTLED status, release, event and payment history change together |
| GateContract.PayableGate.ExpirePayable | contracts/payable-contract/src/lib.rs:281-291 | expires exactly a READY payable whose expiry has passed; keeps every invariant |
| GateContract.PayableGate.ExpireMany | contracts/payable-contract/src/lib.rs:300-317 | the loop leaves the state and the count of sweeping the ids one by one; keeps every invariant |
| GateContract.PayableGate.RevokePayable | contracts/payable-contract/src/lib.rs:338-376 | revokes exactly a READY payable under valid signatures over its own proof hash and reason, paused or not; keeps every invariant |
| GateContract.PayableGate.CheckRevocation | contracts/payable-contract/src/lib.rs:351-361 | the digest is rebuilt from the id, the stored proof hash and the reason, and the signatures are checked against it |
| GateContract.PayableGate.WithdrawFloat | contracts/payable-contract/src/lib.rs:386-408 | moves the amount to the treasury in force or fails for the first reason in source order; keeps every invariant |
| GateContract.PayableGate.AttestLifecycle | contracts/payable-contract/src/lib.rs:431-485 | emits one event under valid signatures and changes no payable and no balance |
| GateContract.PayableGate.SetAdmin | contracts/payable-contract/src/lib.rs:509-518 | needs the old and the new admin; changes nothing else |
| GateContract.PayableGate.SetTreasury | contracts/payable-contract/src/lib.rs:524-533 | needs the admin and the treasury being replaced; changes nothing else |
| GateContract.PayableGate.SetPaused | contracts/payable-contract/src/lib.rs:549-556 | needs the admin; changes nothing else |
| GateContract.PayableGate.SetProofIssuers | contracts/payable-contract/src/lib.rs:558-573 | needs the admin, then a threshold between one and the length of the list; changes nothing else |
| GateContract.PayableGate.SetLimits | contracts/payable-contract/src/lib.rs:578-595 | needs the admin, then positive limits; leaves the running window alone |
| GateContract.PayableGate.SetExecutor | contracts/payable-contract/src/lib.rs:597-604 | needs the admin; changes nothing else |
| GateContract.PayableGate.VerifyIssuerSignatures | contracts/payable-contract/src/lib.rs:701-728 | the loop's verdict is the specification's, and is acceptance exactly when at least threshold signatures are given, all valid, all by listed issuers, none twice |
| GateInvariants.SignatureCheckMeaning | contracts/payable-contract/src/lib.rs:693-728 | signatures are accepted exactly when they authorize; any fault is an error or a trap |
| GateInvariants.ThresholdIsReachableOnlyUpToDistinctIssuers | contracts/payable-contract/src/lib.rs:558-573 | when every listed issuer can sign, a threshold can be met exactly when it does not exceed the number of different issuers |
| GateInvariants.SetterAcceptsUnreachableThreshold | contracts/payable-contract/src/lib.rs:558-573 | the setter lets a threshold of two through for a list that names one issuer twice |
| GateInvariants.CloseReleases | contracts/payable-contract/src/types.rs:101-110 | leaving READY lowers the running total by exactly what registering added, and it stays the sum over READY payables |
| GateInvariants.PayKeepsFunds | contracts/payable-contract/src/lib.rs:240-254 | balance and commitment fall together: the vault stays solvent and the balance stays received less paid less withdrawn |
| GateInvariants.ChargeKeepsWindow | contracts/payable-contract/src/lib.rs:732-761 | the stored window is always the last payment's: opened by a payment, holding the sum since that payment, within the cap it was charged under |
| GateInvariants.InvokeKeepsInv | contracts/payable-contract/src/lib.rs:66-605 | no call, by anyone, in any state, breaks any of the invariants: running total, solvency, log, one payment per SETTLED payable, grants, conservation, window, dates |
| GateTheorems.RunKeepsInv | contracts/payable-contract/src/lib.rs:66-605 | the invariants hold in every state of every run: any calls and outside transfers, in any order, at non-decreasing times |
| GateTheorems.LaterStatesAdvance | contracts/payable-contract/src/lib.rs:142-150 | between any two states of a run terms never change, READY is left at most once, terminal statuses are permanent, grants stand, log and payments only grow |
| GateTheorems.CommitmentsAreCovered | contracts/payable-contract/src/lib.rs:607-663 | in every reachable state the running total is the sum over READY payables, releasing never saturates, and in vault mode the balance covers it, so the clamp in available is never hit |
| GateTheorems.VaultCommitNeverOverflows | contracts/payable-contract/src/lib.rs:170-204 | in vault mode an accepted registration cannot overflow the running total |
| GateTheorems.OnlyRegisteringAdds | contracts/payable-contract/src/lib.rs:128-219 | an id enters the contract by no call but its own accepted registration |
| GateTheorems.RegisteredUnderTheIssuersInForce | contracts/payable-contract/src/lib.rs:174-202 | in every run each stored id was registered at a definite earlier step, and its grant names the issuers, threshold, network and asset configured at that step |
| GateTheorems.MoneyIsConserved | contracts/payable-contract/src/lib.rs:386-408 | in every reachable state the gate's balance is what came in less what it paid and withdrew to others |
| GateTheorems.PaymentsAreSignedAndUnique | contracts/payable-contract/src/lib.rs:174-190 | in every state of every run each payment is the only one for its id, goes to the recipient and amount registered under it, and its terms, the gate, the asset and the network were in one digest signed by at least threshold different issuers, issuers and threshold being those configured at the step that registered it; every SETTLED payable has its payment |
| GateTheorems.RegistrationNeedsTheIssuersInForce | contracts/payable-contract/src/lib.rs:185-202 | registering takes at least threshold different issuers of the list in force then, each signing exactly these terms, and that list is what is kept as the grant |
| GateTheorems.MoneyLeavesInTwoWays | contracts/payable-contract/src/lib.rs:54-63 | a vault's balance falls only by settling a READY unexpired payable, by its amount and to its recipient, or by withdrawing uncommitted money to the treasury in force |
| GateTheorems.TreasuryMovesOnlyByConsent | contracts/payable-contract/src/lib.rs:520-533 | the treasury changes exactly by an accepted setting to another address, which takes its own and the admin authorization; each withdrawal goes to the treasury of that moment |
| GateTheorems.ConfigurationMovesOnlyByConsent | contracts/payable-contract/src/lib.rs:506-604 | no call changes the configuration without the admin, hands over administration without the new admin or moves the treasury without the old one; payer, asset and network never change; threshold and limits stay valid |
| GateTheorems.RevocationNeedsTheReasonSigned | contracts/payable-contract/src/lib.rs:319-376 | a revocation is signed by the issuers in force over the id, the proof hash registered under it and the reason that is then logged, and moves no money |
| GateTheorems.DigestBindsTerms | contracts/payable-contract/src/address_bytes.rs:22-33 | two registrations with one digest have the same id, terms, network and 32-byte addresses, or exhibit a SHA-256 collision; recipients are then equal exactly when they are of the same kind |
| GateTheorems.KindIsNotSigned | contracts/payable-contract/src/address_bytes.rs:18-32 | the kind of address is really lost: an account and a contract with the same 32 bytes share every signature |
| GateTheorems.NeverRegisteredTwice | contracts/payable-contract/src/lib.rs:142-150 | an id registered at any point of a run is refused at every later one, as already existing unless the gate is paused |
| GateTheorems.TerminalIsForEver | contracts/payable-contract/src/lib.rs:229-236 | a payable that left READY never changes again, and is never settled, expired or revoked by any later call |
| GateTheorems.ExactlyOneTimeGuard | contracts/payable-contract/src/lib.rs:234-288 | at every instant a READY payable passes exactly one of the time guards of settle and expire |
| GateTheorems.VaultPaysWhatIsReady | contracts/payable-contract/src/lib.rs:222-246 | a vault the invariants hold of, whose token accepts, pays a READY payable exactly when unpaused, called by the executor, unexpired and within the window cap: funds are never what is missing |
| GateTheorems.SweepExpiresExactlyTheLapsed | contracts/payable-contract/src/lib.rs:300-317 | a sweep expires exactly the listed lapsed payables, whatever repetitions and unknown ids the list holds, and returns how many those are |
| GateTheorems.FullSweepFreesEverything | contracts/payable-contract/src/lib.rs:281-317 | more than seven days after the last registration a sweep over any list covering the READY ids returns their number and leaves nothing READY and nothing committed |
| GateTheorems.AnyIntervalIsCapped | contracts/payable-contract/src/lib.rs:732-761 | payments no further apart than one window length, ends included, come to at most twice the cap while the limits stand |
| GateTheorems.SpendingIsCapped | contracts/payable-contract/src/lib.rs:730-761 | in every reachable state each window is within the cap it was last charged under and any interval of one window length within twice the cap |
| GateTheorems.SpentSinceStart | contracts/payable-contract/src/lib.rs:575-595 | the stored figure is the sum of the payments since the one that opened the window; read by timestamps it is that sum exactly when the payment before came strictly earlier |
| GateTheorems.ClockReadingAfterSettling | contracts/payable-contract/src/lib.rs:732-761 | a settlement leaves the stored figure equal to the sum of payments since the start time exactly when, if it opens a window, the payment before came strictly earlier, and otherwise exactly when it was equal before |
| GateTheorems.OpeningIsLater | contracts/payable-contract/src/lib.rs:743-750 | that earlier payment does come strictly earlier unless the window length was shortened in between |
| GateTheorems.ShorterWindowForgets | contracts/payable-contract/src/lib.rs:578-595 | limits cut below the age of the window, then a settlement in the same instant as the previous payment: the stored figure is not the sum since its own start time |
| GateExamples.SomeRunForgets | contracts/payable-contract/src/lib.rs:578-595 | from any issuer key that can sign there is a run that gets there: three payables registered, one paid a second before another, the limits cut, the third paid at once |
| GateMeaning.RegisterExactly | contracts/payable-contract/src/lib.rs:138-219 | a registration goes through exactly when configured and unpaused, the id new, 0 < amount <= the per-payable cap, now < expiry <= now + 604800, in vault mode amount <= balance less the READY amounts, the three addresses have bytes, enough different listed issuers signed exactly these terms, and the total stays in range |
| GateMeaning.RegisterLeaves | contracts/payable-contract/src/lib.rs:192-217 | it adds this entry, adds its amount to the sum of the READY ones, logs its two events, and touches nothing else |
| GateMeaning.RegisterRefuses | contracts/payable-contract/src/lib.rs:138-206 | otherwise the first of the seven state checks that fails answers; past them an address without bytes traps, then the signatures decide, then a total out of range traps |
| GateMeaning.FirstFaultAnswers | contracts/payable-contract/src/lib.rs:701-728 | too few signatures are refused before any is looked at; then the first faulty one decides: unknown issuer, an issuer seen before, or a trap when it does not verify |
| GateMeaning.SettleExactly | contracts/payable-contract/src/lib.rs:222-262 | a settlement pays exactly when nothing stands in its way, and the first obstacle answers: pause, executor, unknown, not READY, expired, the sum of the window it falls in, the payer's consent and balance and the token |
| GateMeaning.SettleLeaves | contracts/payable-contract/src/lib.rs:240-262 | the amount moves from payer to recipient, the entry is SETTLED and no longer committed, the window holds the sum it was charged to, one event names recipient, amount and proof hash |
| GateMeaning.ExpireExactly | contracts/payable-contract/src/lib.rs:281-291 | expiring needs a READY entry whose expiry has passed, and changes its status, its commitment and one log line |
| GateMeaning.RevokeExactly | contracts/payable-contract/src/lib.rs:338-376 | a revocation goes through exactly when enough listed issuers signed id, stored proof hash and reason of a READY entry, paused or not; the first obstacle answers otherwise |
| GateMeaning.WithdrawExactly | contracts/payable-contract/src/lib.rs:386-408 | a withdrawal goes through exactly for the admin of a vault, for a positive amount up to the balance less the READY amounts, to the treasury in force; the first obstacle answers otherwise |
| GateMeaning.AttestExactly | contracts/payable-contract/src/lib.rs:431-485 | a statement is logged, under its own phase, exactly when enough listed issuers signed it; nothing else changes |
| GateMeaning.InitializeExactly | contracts/payable-contract/src/lib.rs:72-117 | the first accepted initialization stores the configuration it was given, unpaused; the first obstacle answers otherwise |
| GateMeaning.ConfigureExactly | contracts/payable-contract/src/lib.rs:509-604 | each setter puts its arguments in their own fields, logs a change of admin or treasury, and touches nothing else; the first obstacle answers otherwise |
| SettlementStore.MemorySettlementStore.constructor | packages/settlement/src/memoryStore.ts:4-9 | a new store is empty |
| SettlementStore.MemorySettlementStore.Upsert | packages/settlement/src/memoryStore.ts:11-13 | the record under its id hash is replaced, nothing else changes |
| SettlementStore.MemorySettlementStore.ProofByIdHash | packages/settlement/src/memoryStore.ts:15-17 | the stored proof, or none |
| SettlementStore.MemorySettlementStore.SetStatus | packages/settlement/src/memoryStore.ts:23-28 | an unknown proof is ignored; a missing transaction keeps the stored one |
| SettlementStore.MemorySettlementStore.Record | packages/settlement/src/memoryStore.ts:34-36 | the first settlement recorded for a payable stands |
| SettlementStore.MemorySettlementStore.SettlementOf | packages/settlement/src/memoryStore.ts:38-40 | the stored settlement, or none |
| SettlementStore.MemorySettlementStore.RecordEvent | packages/settlement/src/memoryStore.ts:46-50 | tells exactly whether the event id was new, and stores it if so |
| SettlementStore.MemorySettlementStore.FindEvent | packages/settlement/src/memoryStore.ts:52-56 | a settlement event of the payable that no other recorded one follows, or none exactly when there is none |
| SettlementStore.MemorySettlementStore.SaveCursor | packages/settlement/src/memoryStore.ts:62-64 | one cursor is replaced |
| SettlementStore.MemorySettlementStore.AddSettledFingerprint | packages/settlement/src/memoryStore.ts:66-68 | the first note for a fingerprint stands |
| SettlementStore.WritesReadBack | packages/settlement/src/memoryStore.ts:11-40 | what is written is read back by its own lookup, and nothing else moves |
| SettlementStore.FirstRecordStands | packages/settlement/src/memoryStore.ts:34-40 | however many settlements are recorded for a payable, the one there was stands, else the first of them |
| SettlementStore.LastStatusStands | packages/settlement/src/memoryStore.ts:23-28 | however often a proof is marked it shows the last status, the last transaction that was given, and is otherwise as it was |
| SettlementStore.NothingLater | packages/settlement/src/memoryStore.ts:52-56 | a lookup finds a payment of that payable that no recorded one follows |
| ProtocolSafety.KnowledgeStays | packages/settlement/src/adapter.ts:54-69 | what any process knows about the chain at any await stays true whatever others do to the gate meanwhile |
| ProtocolSafety.BackingStays | packages/settlement/src/adapter.ts:54-69 | what the store claims stays true whatever happens to the gate |
| ProtocolSafety.AdapterStepOk | packages/settlement/src/adapter.ts:83-161 | no await of the adapter, with its response answered, lost, failed or injected, makes the store overclaim |
| ProtocolSafety.IndexerWriteOk | packages/settlement/src/indexer.ts:188-226 | no await of the indexer makes the store overclaim, however stale what it read |
| ProtocolSafety.SweepStepOk | packages/settlement/src/agent.ts:139-156 | no await of the sweep makes the store overclaim |
| ProtocolSafety.RevokeStepOk | apps/api/src/app.ts:411-416 | no await of the revocation route makes the store overclaim |
| ProtocolSafety.SettleCallKeepsGate | packages/settlement/src/fakeGate.ts:27-30 | whatever becomes of the response, the gate has run a settle once or not at all, and an answer names the transaction and ledger in the log |
| ProtocolSafety.ActionKeepsWorldOk | packages/settlement/src/adapter.ts:83-293 | no action of anyone, crashes included, breaks what holds of gate, store and processes together |
| ProtocolSafety.NeverPaidTwice | packages/settlement/src/adapter.ts:54-69 | in every reachable world no id has been paid more than once |
| ProtocolSafety.SettledMeansPaidOnce | packages/settlement/src/adapter.ts:127-160 | a run that returned SETTLED: exactly one payment for the id exists, to the proof's recipient for the proof's amount, in the reported transaction and ledger |
| ProtocolSafety.AlreadySettledMeansPaidOnce | packages/settlement/src/adapter.ts:220-270 | a run that returned ALREADY_SETTLED: exactly one payment for the id exists, and a returned record names the transaction and ledger that made it |
| ProtocolSafety.StoreNeverOverclaims | packages/settlement/src/adapter.ts:90-112 | in every reachable world each stored status and each settlement record is what the chain shows, transaction and ledger included, whatever backward writes raced |
| ProtocolSafety.OneSettlementEvent | contracts/payable-contract/src/lib.rs:256-262 | the chain's log holds at most one settlement event per payable |
| ProtocolRecovery.SettleTerminates | packages/settlement/src/adapter.ts:83-161 | a run of settle that is not killed has ended after fourteen awaits of its own, whatever the network answers and whatever anyone else does in between |
| ProtocolRecovery.RecoveryLeavesTheRecord | packages/settlement/src/adapter.ts:211-270 | after any history, a run that starts once the settlement event is stored, and is not killed, ends with a settlement record of that event's transaction and ledger, and none of its awaits moves the gate, whatever other processes and callers do meanwhile |
| ProtocolRecovery.RetryEndsPaid | packages/settlement/src/adapter.ts:83-161 | an undisturbed run on an entry that is READY on these terms, or absent and registrable, at a gate that would pay it, ends SETTLED: paid once, as signed, the stored record naming the order's payable, invoice, purchase order, proof hash, gate, asset and amount and the payment's transaction and ledger, the fingerprint noted, the stored proof showing SETTLED; a proof not registered before keeps the order's own fields |
| ProtocolRecovery.IllFormedContextIsPaidButUnrecorded | packages/settlement/src/adapter.ts:127-144 | at the settle await the money moves and nothing is recorded exactly when the context's invoice or order id is empty |
| ProtocolOutcomes.ClosedIsRefused | packages/settlement/src/adapter.ts:91-97 | an EXPIRED or REVOKED entry is refused as closed, the gate untouched, the proof marked so, no record or fingerprint written |
| ProtocolOutcomes.MismatchIsRefused | packages/settlement/src/adapter.ts:197-209 | an entry READY whose proof hash, recipient, amount or expiry differs is refused, the gate untouched |
| ProtocolOutcomes.StaleIsRefused | packages/settlement/src/adapter.ts:182-190 | an absent entry whose proof has less than 120 seconds left is refused as stale before anything is submitted |
| ProtocolOutcomes.RegistersWhenFresh | packages/settlement/src/adapter.ts:99-103 | an absent entry whose proof has at least 120 seconds left is submitted for registration |
| ProtocolOutcomes.FailedRegistrationEnds | packages/settlement/src/adapter.ts:101-107 | a registration refused for anything but existing already ends refused, one without an answer throws; the store keeps what was remembered |
| ProtocolOutcomes.RegistrationIsMarked | packages/settlement/src/adapter.ts:101-112 | after a registration, or one that existed already, the entry is read back, the proof marked REGISTERED with the registering transaction if it was this run's, and what the entry shows decides what follows |
| ProtocolOutcomes.ReceiptIsKept | packages/settlement/src/adapter.ts:116-160 | the registering transaction a run reports is the one it reached the settlement with |
| ProtocolOutcomes.FailedSettlementEnds | packages/settlement/src/adapter.ts:116-125 | a refused settlement ends refused, NotReady included unless the entry is then SETTLED; one without an answer throws; no record is written |
| ProtocolOutcomes.SettledIsLookedUp | packages/settlement/src/adapter.ts:220-270 | on an entry already SETTLED the gate is left alone, a record that was there is returned untouched, and one that was missing is rebuilt from the stored event with the order's payable, invoice, purchase order, proof hash, gate, asset and amount and the event's transaction and ledger |
| ProtocolOutcomes.SettledMeanwhileIsLookedUp | packages/settlement/src/adapter.ts:119-124 | a run whose settlement is answered NotReady because another process has paid ends like one that found the entry SETTLED, not with a refusal |
| ProtocolOutcomes.RevokingEnds | apps/api/src/app.ts:411-416 | the proof shows REVOKED exactly after an answered revocation, by which the entry is REVOKED too; a lost answer leaves the store as it was |
| Adapter.SettlementAdapter.Settle | packages/settlement/src/adapter.ts:83-161 | what the adapter does, await by await, is an undisturbed run of the step machine from the state it found to its result |
| Adapter.SettlementAdapter.SettleFromChain | packages/settlement/src/adapter.ts:87-125 | each on-chain state leads to the branch the source takes |
| Adapter.SettlementAdapter.Register | packages/settlement/src/adapter.ts:99-112 | registers, tolerates an entry that already exists, reads back and marks before deciding |
| Adapter.SettlementAdapter.Pay | packages/settlement/src/adapter.ts:116-144 | settles, re-reads after NotReady, and records only an answered payment with a well-formed context |
| Adapter.SettlementAdapter.RecordIt | packages/settlement/src/adapter.ts:144-160 | record, status and fingerprint are written in this order |
| Adapter.SettlementAdapter.AlreadySettled | packages/settlement/src/adapter.ts:220-270 | marks SETTLED, then returns the record found or the one rebuilt from the stored event |
| Adapter.SettlementAdapter.RememberTheProof | packages/settlement/src/adapter.ts:272-287 | a record past SIGNED is never overwritten after having been read as such |
| Adapter.FoundIsTheOne | packages/settlement/src/memoryStore.ts:52-56 | among backed records the sort has only one settlement event to choose |
| Indexing.DeliveryStep | packages/settlement/src/indexer.ts:188-226 | delivering one more event takes the closed form of a set of delivered events to that of the larger set |
| Indexing.AnyFullDeliveryAgrees | packages/settlement/src/indexer.ts:120-186 | every permutation, duplication, paging or restart of a full delivery gives the same statuses, equal to the gate's own with READY as REGISTERED, the same settlement records and the same fingerprint keys |
| Indexing.DeliveryRecordsExactly | packages/settlement/src/indexer.ts:164-226 | any delivery from any store records a known proof's settlement exactly when it was recorded before, or its event had not been stored and is delivered now |
| Indexing.FullDeliveryRecordsEveryPayment | packages/settlement/src/indexer.ts:123-128 | a full delivery, from any store, leaves a record of a known proof's settlement exactly when one was there or its event had not been stored; the record names the transaction and ledger that paid |
| Indexing.DeliveryResumes | packages/settlement/src/indexer.ts:178-181 | stopping after any event and resuming later is the same as one delivery |
| Indexing.CrashBetweenRecordAndProjectionLoses | packages/settlement/src/indexer.ts:164-176 | an event recorded but not projected is never projected by any later delivery, so its settlement stays unrecorded, while one delivery without the crash records it |
| Indexing.AwaitsDeliver | packages/settlement/src/indexer.ts:164-226 | left alone, the indexer's awaits for one event write exactly what the one-step projection says |
| Indexing.PagesStopOnlyWhenCaughtUp | packages/settlement/src/indexer.ts:145-183 | each page is asked for where the one before left the cursor; a poll that stops before its page limit stops at its one idle page, where nothing came and the cursor stayed; an empty page whose cursor moved is read past |
| Indexing.EventIndexer.Poll | packages/settlement/src/indexer.ts:156-186 | reads at most maxPages pages; the store is what delivering their events in order makes it, its own cursor is where the last page left it and no other moves, and the report is the one of that delivery |
| Indexing.EventIndexer.TakePage | packages/settlement/src/indexer.ts:164-176 | the events of a page in order, each projected only if it was new |
| Indexing.EventIndexer.ProjectEvent | packages/settlement/src/indexer.ts:188-226 | what one new event writes and reports |
| IndexingMeaning.DeliveredRecordsTell | packages/settlement/src/indexer.ts:205-222 | whatever events are delivered to whatever store, every earlier settlement record stands, each new one carries the paid proof's payable, invoice, purchase order, proof hash, asset and amount, this gate, and the transaction and ledger of a newly delivered settlement event, and no such event of a kept proof is left without a record |
| IndexingMeaning.DeliveredNotesTell | packages/settlement/src/indexer.ts:223-225 | the same of settled fingerprints: earlier notes stand, each new one is the vendor and amount of a paid proof and names its payable and transaction |
| IndexingMeaning.EventTellsStatus | packages/settlement/src/indexer.ts:188-203 | a new event gives the proof it speaks of the status it tells, REGISTERED only to a SIGNED one and with its transaction; an old event changes nothing, and no other field or proof moves |
| IndexingMeaning.ReportTells | packages/settlement/src/indexer.ts:103-116 | the report names each newly recorded payable once and no other, and exactly the ids of payments no kept proof explains |
| Digest.RegistrationPreimage | contracts/payable-contract/src/digest.rs:50-71 | the growing buffer ends as the layout's concatenation, 261 bytes long |
| Digest.RegistrationPreimageIsInjective | contracts/payable-contract/src/digest.rs:50-71 | equal registration preimages have equal fields |
| Digest.RevocationPreimageIsInjective | contracts/payable-contract/src/digest.rs:119-134 | equal revocation preimages have equal fields |
| Digest.AttestationPreimageIsInjective | contracts/payable-contract/src/digest.rs:177-193 | equal attestation preimages have equal fields |
| Digest.DomainsAreSeparate | contracts/payable-contract/src/digest.rs:88-107 | no two of the three kinds ever produce the same bytes |
| Digest.RegistrationPreimageTable | contracts/payable-contract/src/digest.rs:11-62 | where each field lies in the 261 bytes, the numbers as sixteen and eight big-endian bytes |
| Digest.RevocationPreimageTable | contracts/payable-contract/src/digest.rs:119-134 | where each field lies in the 173 bytes |
| Digest.AttestationPreimageTable | contracts/payable-contract/src/digest.rs:177-193 | where each field lies in the 150 bytes |
| Digest.IntegersRead | contracts/payable-contract/src/digest.rs:60-62 | the amount's bytes read in base 256 are its two's complement, the expiry's are the expiry |
| Digest.DomainSpells | contracts/payable-contract/src/digest.rs:30-30 | the domain is the ASCII of PAKTA_REG_V1 and a zero byte |
| RegistrationDigest.I128BigEndian | packages/proof-hash/src/registrationDigest.ts:97-115 | the shift loop is 16-byte big endian on exactly the positive i128 values |
| RegistrationDigest.U64BigEndian | packages/proof-hash/src/registrationDigest.ts:118-134 | the shift loop is 8-byte big endian on exactly the u64 values, safe integers only when a number |
| RegistrationDigest.HexToBytes | packages/proof-hash/src/registrationDigest.ts:83-94 | the 32 bytes of 64 lowercase hexadecimal characters, anything else refused |
| RegistrationDigest.HashBytesAreInjective | packages/proof-hash/src/registrationDigest.ts:83-94 | different hash texts are different bytes |
| RegistrationDigest.HashBytesOfHexText | packages/proof-hash/src/registrationDigest.ts:197-200 | reading the hexadecimal text of 32 bytes gives them back |
| RegistrationDigest.ConcatExact | packages/proof-hash/src/registrationDigest.ts:248-260 | the concatenation, or an error exactly when its length is not the expected one |
| RegistrationDigest.RegistrationPreimageOf | packages/proof-hash/src/registrationDigest.ts:157-190 | the bytes, or the first field's error in source order |
| RegistrationDigest.RegistrationBytesAgree | packages/proof-hash/src/registrationDigest.ts:157-190 | for every accepted input the backend's registration bytes are the contract's |
| RegistrationDigest.RevocationBytesAgree | packages/proof-hash/src/registrationDigest.ts:262-275 | for every accepted input the backend's revocation bytes are the contract's |
| RegistrationDigest.AttestationBytesAgree | packages/proof-hash/src/registrationDigest.ts:332-349 | for every accepted input the backend's attestation bytes are the contract's |
| RegistrationDigest.RegistrationBytesBind | packages/proof-hash/src/registrationDigest.ts:157-190 | the bytes determine every input field text for text, names up to which unpaired surrogates they hold, or exhibit a SHA-256 collision between two named texts |
| RegistrationDigest.NamesShareBytesExactly | packages/proof-hash/src/registrationDigest.ts:70-74 | two names give one registration the same bytes exactly when they differ in unpaired surrogates only or collide under SHA-256 |
| RegistrationDigest.IllFormedNamesShareBytes | packages/proof-hash/src/registrationDigest.ts:70-74 | two names that are different unpaired surrogates give the same bytes |
| RegistrationDigest.RegistrationBytesMeet | packages/proof-hash/src/registrationDigest.ts:157-190 | the backend refuses an input for its first unusable field in the order of the layout, names empty, keys or hashes malformed, numbers out of range, and otherwise gives bytes |
| RegistrationDigest.RegistrationBytesTable | packages/proof-hash/src/registrationDigest.ts:157-190 | where each input's encoding lies in those bytes |
| RegistrationDigest.RevocationBytesMeet | packages/proof-hash/src/registrationDigest.ts:262-275 | the same for revocations |
| RegistrationDigest.RevocationBytesTable | packages/proof-hash/src/registrationDigest.ts:262-275 | where each input's encoding lies in a revocation's bytes |
| RegistrationDigest.AttestationBytesMeet | packages/proof-hash/src/registrationDigest.ts:332-349 | the same for attestations |
| RegistrationDigest.AttestationBytesTable | packages/proof-hash/src/registrationDigest.ts:332-349 | where each input's encoding lies in an attestation's bytes, phases as 0, 1, 2 |
| StrKeyMeaning.DigitsAreLetters | packages/stellar-sdk-wrapper/src/strkey.ts:31-40 | digit d is the d-th letter of ABCDEFGHIJKLMNOPQRSTUVWXYZ234567 and no other character is a digit; section 6 of RFC 4648 |
| StrKeyMeaning.RemainderDivides | packages/stellar-sdk-wrapper/src/strkey.ts:81-90 | there is a quotient whose product with x^16 + x^12 + x^5 + 1 is the message shifted by sixteen places plus the register: the register is the remainder |
| StrKeyMeaning.TextBits | packages/stellar-sdk-wrapper/src/strkey.ts:131-144 | the text's digits, as bits, are the version byte, the key, and the checksum of both, low byte first |
| StrKeyMeaning.FirstLetters | packages/stellar-sdk-wrapper/src/strkey.ts:25-29 | account keys begin with G and contract keys with C |
| StrKeyMeaning.ShapeRefused | packages/stellar-sdk-wrapper/src/strkey.ts:45-60 | a text is refused first for a length other than 56, then for its first character outside the alphabet |
| StrKeyMeaning.ContentRefused | packages/stellar-sdk-wrapper/src/strkey.ts:92-113 | then for its version byte, last for its checksum |
| StrKey.Base32Decode | packages/stellar-sdk-wrapper/src/strkey.ts:45-78 | the accumulator loop is the 8-bit regrouping of 56 base32 characters, the first bad character reported otherwise; section 6 of RFC 4648 |
| StrKey.Base32Encode | packages/stellar-sdk-wrapper/src/strkey.ts:115-129 | the accumulator loop is the 5-bit regrouping of the bytes |
| StrKey.Crc16XModem | packages/stellar-sdk-wrapper/src/strkey.ts:81-90 | the word loop computes the remainder of the polynomial division of the message's bits |
| StrKey.DecodeStrKey | packages/stellar-sdk-wrapper/src/strkey.ts:92-113 | the payload, or the source's first error |
| StrKey.EncodeStrKey | packages/stellar-sdk-wrapper/src/strkey.ts:131-144 | the text, or an error exactly when the payload is not 32 bytes |
| StrKey.DecodeEncode | packages/stellar-sdk-wrapper/src/strkey.ts:131-159 | decoding the encoding of any 32-byte key gives it back, for every version byte |
| StrKey.EncodeDecode | packages/stellar-sdk-wrapper/src/strkey.ts:92-149 | encoding what any accepted text decodes to gives that text back |
| StrKey.BurstIsCaught | packages/stellar-sdk-wrapper/src/strkey.ts:81-90 | two messages that differ only within sixteen consecutive bits have different remainders |
| StrKey.SingleCharacterErrorIsCaught | packages/stellar-sdk-wrapper/src/strkey.ts:81-113 | replacing any one character of an accepted text by any other makes decoding fail |
| Text.HasLoneSurrogate | packages/proof-hash/src/jcs.ts:34-46 | the index loop finds an unpaired surrogate exactly when there is one |
| Text.Utf8IsInjective | packages/proof-hash/src/jcs.ts:112-114 | different well-formed texts have different UTF-8 bytes |
| Text.SameBytesExactlyWhenSameRepaired | packages/proof-hash/src/registrationDigest.ts:70-74 | two texts have the same UTF-8 bytes exactly when they agree once every unpaired surrogate is replaced by U+FFFD |
| Text.ScalarBytesRead | packages/proof-hash/src/jcs.ts:112-114 | the bytes written for a scalar value read back to it as section 3 of RFC 3629 says |
| Text.FirstScalarReads | packages/proof-hash/src/jcs.ts:112-114 | a surrogate pair is the scalar value section 2.1 of RFC 2781 says, an unpaired one U+FFFD, any other unit itself |
| CanonicalForm.BeforeIsCodeUnitOrder | packages/proof-hash/src/jcs.ts:88-91 | one key comes before another exactly when it is a proper prefix of it or has the smaller code unit at the first index where they differ; section 3.2.3 of RFC 8785 |
| CanonicalForm.ObjectText | packages/proof-hash/src/jcs.ts:87-102 | an accepted object's text is its members, each exactly once, key and value joined by a colon, in strictly ascending key order, between braces with commas |
| CanonicalForm.ArrayText | packages/proof-hash/src/jcs.ts:82-85 | an accepted array's text is its items' texts in order, between brackets with commas |
| CanonicalForm.ObjectFails | packages/proof-hash/src/jcs.ts:91-101 | of an object's faulty members the one whose key comes first decides the error: undefined value, then the key, then the value |
| CanonicalForm.ArrayFails | packages/proof-hash/src/jcs.ts:82-85 | the first faulty item decides the error of an array |
| CanonicalForm.SimpleTexts | packages/proof-hash/src/jcs.ts:58-80 | the texts of null, true, false, integers and strings, and what is refused with which error |
| CanonicalForm.IntegerReads | packages/proof-hash/src/jcs.ts:58-68 | an integer's text is a minus sign if it is negative, then digits without a leading zero that read back to its magnitude |
| CanonicalForm.StringsReadBack | packages/proof-hash/src/jcs.ts:48-56 | a reader of JSON strings written from section 7 of RFC 8259 gets every string back and stops at its closing quote |
| CanonicalForm.EscapesAreMinimal | packages/proof-hash/src/jcs.ts:48-56 | only quote, backslash and control characters are escaped: two code units where there is a short form, six otherwise; section 3.2.2.2 of RFC 8785 |
| Jcs.CanonicalTextIsUnambiguous | packages/proof-hash/src/jcs.ts:76-110 | two accepted values have one canonical text exactly when they are equal as JSON values; sections 3.2.2 and 3.2.3 of RFC 8785 |
| Jcs.ValuePrefixFree | packages/proof-hash/src/jcs.ts:76-105 | inside a document it can be told where a value ends: no accepted value's text, delimited, begins another's |
| Jcs.SameValueSameText | packages/proof-hash/src/jcs.ts:87-101 | values equal up to member order at any depth have the same text, or the same error |
| Jcs.ReorderingIsInvisible | packages/proof-hash/src/jcs.ts:88-91 | reordering an object's members never changes the result |
| Jcs.AcceptsExactly | packages/proof-hash/src/jcs.ts:58-105 | accepted are exactly the values whose texts are well formed, whose numbers are safe integers and which hold nothing outside JSON |
| Jcs.CanonicalTextIsWellFormed | packages/proof-hash/src/jcs.ts:29-56 | canonical text never holds half a surrogate pair |
| Jcs.ProofHashBinds | packages/proof-hash/src/jcs.ts:143-146 | one proof hash, one JSON value, or a SHA-256 collision between their two texts |
| Jcs.StripEnvelope | packages/proof-hash/src/jcs.ts:131-141 | the loop keeps exactly the members outside the envelope, in order |
| Jcs.StrippedKeepsTheRest | packages/proof-hash/src/jcs.ts:131-141 | a member survives stripping exactly when it is not an envelope key, with its value |
| Jcs.EnvelopeDoesNotCount | packages/proof-hash/src/jcs.ts:116-146 | no envelope field, whatever it says, changes the proof hash |
| Amount.UnitsToDecimal | packages/stellar-sdk-wrapper/src/amount.ts:82-105 | the trimming loop gives the rendered text, or the first range error |
| Amount.UnitsRoundTrip | packages/stellar-sdk-wrapper/src/amount.ts:44-105 | every positive i128 amount survives rendering and parsing at every precision from 0 to 7 |
| Amount.SameUnitsExactlyWhenSameDigits | packages/stellar-sdk-wrapper/src/amount.ts:44-73 | two accepted strings are the same money exactly when they differ only in zeros ending the fraction |
| Amount.TextRoundTripsExactlyWhenTight | packages/stellar-sdk-wrapper/src/amount.ts:75-105 | an accepted string comes back unchanged exactly when it has two or more fraction digits and no spare zero past the second |
| Amount.ShapedAmountsConvert | packages/stellar-sdk-wrapper/src/amount.ts:44-73 | of the amounts a proof may carry exactly those above an i128 of units do not convert |
| Amount.WholeNumberAbove | packages/canonical-model/src/proof.ts:43-46 | such amounts exist: any whole number whose units exceed an i128 is one |
| Amount.ConvertsExactly | packages/stellar-sdk-wrapper/src/amount.ts:44-73 | which strings convert, and the first reason one does not |
| Amount.UnitsAreTenMillionths | packages/stellar-sdk-wrapper/src/amount.ts:63-73 | the units are the number the decimal writes times ten million |
| Amount.RendersExactly | packages/stellar-sdk-wrapper/src/amount.ts:75-105 | the text of an amount is the canonical decimal of that value with at least the asked fraction digits and no spare zero |
| IssuingMeaning.SchemaExactly | packages/canonical-model/src/proof.ts:54-73 | what the schema asks of each field, by name |
| IssuingMeaning.ProofObjectTells | packages/canonical-model/src/proof.ts:54-73 | the hashed object has fourteen members, each of the proof's fields under its own name and the status READY |
| IssuingMeaning.PreparesExactly | packages/settlement/src/registration.ts:40-88 | a proof is prepared exactly when nothing stands in the way; the first obstacle in source order is the error |
| IssuingMeaning.PreparedTells | packages/settlement/src/registration.ts:68-88 | each prepared value is made from the proof's field of that name, the digest from the eight inputs under their own names |
| IssuingMeaning.SignsExactly | packages/settlement/src/issuer.ts:60-73 | whatever can be prepared is signed when signatures have 64 bytes, in an envelope that names the proof, its hash, the issuer's own key, the signature over the digest and the deployment |
| IssuingMeaning.VerifiesExactly | packages/settlement/src/issuer.ts:122-158 | what an envelope is refused for, in order; otherwise it yields what its proof prepares to |
| IssuingMeaning.WithoutItsEnvelope | packages/proof-hash/src/jcs.ts:131-146 | the hash of a signed proof without its envelope is the proof's own |
| Issuing.VerifyingWhatWasSigned | packages/settlement/src/issuer.ts:60-73 | verifying what an issuer signed for a deployment gives exactly what was prepared |
| Issuing.AcceptedMeansSigned | packages/settlement/src/issuer.ts:122-158 | an accepted envelope whose signature is no forgery carries, field for field, a proof the key's owner signed for the same network, gate and asset, or two named inputs collide under SHA-256 |
| Issuing.HeldAsItIs | packages/settlement/src/issuer.ts:122-158 | for well-formed passphrases the proof found is in the book for this very deployment |
| Issuing.OwnEnvelopesAreUnforged | packages/settlement/src/issuer.ts:60-73 | what a working key signs is accepted and meets that condition |
| Issuing.SameBytesSameStatement | packages/settlement/src/registration.ts:40-88 | two proofs prepared to the same bytes are the same proof for the same deployment, its passphrase up to unpaired surrogates, or two named inputs collide |
| Issuing.OnlyRegistrationsRegister | packages/settlement/src/issuer.ts:80-114 | a revocation or attestation the issuer signed never has a registration's bytes |
| Issuing.SameJsonSameProof | packages/settlement/src/registration.ts:66-66 | proofs whose JSON is equal are equal in every field |
| EndToEnd.ContractRebuildsTheSignedFields | contracts/payable-contract/src/lib.rs:174-184 | the fields the contract rebuilds from typed arguments and its own configuration are the ones the issuer signed |
| EndToEnd.VerifiedProofsRegister | packages/settlement/src/issuer.ts:117-158 | a proof the backend verified under a key the gate lists, with threshold one, can be refused on-chain only for the gate's own state |
| EndToEnd.VerifiedProofsMakeOrders | packages/settlement/src/registration.ts:68-75 | an adapter run on a verified proof starts with an order whose every field is the proof's, the envelope's or the context's of that name, under the id that is the hash of the proof's own name |
| EndToEnd.RevocationsAgree | packages/settlement/src/issuer.ts:80-92 | a revocation signed for this gate, for a payable and the proof hash registered under it, is over the digest the contract rebuilds |
| EndToEnd.AttestationsAgree | packages/settlement/src/issuer.ts:94-114 | the same of an attestation, its phase included |
| EndToEnd.FingerprintsMeetExactly | packages/rules-kernel/src/types.ts:21-24 | what the indexer notes for a paid proof is the fingerprint the kernel looks for exactly when the invoice's amount has two or more fraction digits and no spare zero past the second |
| Agent.CycleMeaning | packages/settlement/src/agent.ts:85-130 | a cycle goes through exactly when every amount converts and every stored proof can be read; then the READY payables without a record are divided among settled, skipped and failed, each in exactly one; the settled ones in non-decreasing expiry; those newly committed and paid sum to at most the figure read at the start; each attempted one expires later than now and is registered or within what is left at its turn, settled or failed as its attempt ended; each skipped one is expired or is new and above what is left |
| Agent.CycleAbortsExactlyOnABadAmount | packages/settlement/src/agent.ts:95-97 | over payables that proofs can be built for, a cycle ends early exactly when one without a record is for more than an i128 of units, or a stored proof cannot be read |
| Agent.OneAmountEndsTheCycle | packages/settlement/src/agent.ts:94-97 | adding one READY payable whose amount a proof may carry, to any others, is enough to end a cycle without a report |
| Agent.SortMeaning | packages/settlement/src/agent.ts:91-91 | soonest first, nothing lost or added, ties left in the order they came |
| Agent.SettlementAgent.PayReady | packages/settlement/src/agent.ts:93-128 | the loop computes the cycle the theorems are about |
| Agent.SettlementAgent.WithoutRecord | packages/settlement/src/agent.ts:86-90 | keeps exactly the payables without a settlement record, in order; fails exactly when one of the reads throws |
| Agent.SettlementAgent.Sweep | packages/settlement/src/agent.ts:139-156 | the gate, the statuses and the count are those of the sweep function, which writes for the ids before the first that throws; it fails exactly when the listing, the call or something awaited for one of the ids throws; the store still claims only what the chain shows |
| Agent.SettlementAgent.RunOnce | packages/settlement/src/agent.ts:70-131 | there is a report exactly when the sweep and every read outside the attempts answer and every amount converts; it lists the three groups of the cycle over the store the sweep left, by name and with the fate of each, and the count of the sweep; an indexer failure adds one line and stops nothing |
| Agent.SweepWrites | packages/settlement/src/agent.ts:145-154 | after the sweep's writes each listed proof shows EXPIRED or SETTLED when the chain does and keeps its status otherwise, REVOKED included; nothing else about any proof and nothing else in the store changes |
| Agent.CycleFates | packages/settlement/src/agent.ts:93-128 | the fate of every position without reference to how it was decided: expiry, registration, what is left of the figure, and the attempt |
| Agent.SweepCounts | packages/settlement/src/agent.ts:145-156 | the count is the number of listed ids, repetitions included, that the chain shows EXPIRED |
| Agent.SweepEnds | packages/settlement/src/agent.ts:139-156 | a sweep completes exactly when everything it awaits answers; the gate moves when its call arrives, answered or not; it writes only after an answer and only for the ids it got to |
| Agent.AwaitsSweep | packages/settlement/src/agent.ts:139-156 | left alone, the sweep's awaits leave the gate and the store its function says |
| Kernel.BatchCollisions | packages/rules-kernel/src/kernel.ts:73-79 | the two-set loop collects exactly the fingerprints at two or more positions |
| Kernel.EvaluatePayable | packages/rules-kernel/src/kernel.ts:30-61 | every rule is run; READY exactly without exceptions |
| Kernel.EvaluateBatch | packages/rules-kernel/src/kernel.ts:69-87 | each payable is evaluated with the known fingerprints and the batch's collisions |
| Kernel.ReadyMeansUnseen | packages/rules-kernel/src/rules/duplicateCheck.ts:18-42 | with duplicate detection on, READY payables have pairwise different fingerprints, none known before and none settled |
| Kernel.PermutingTheBatchPermutesResults | packages/rules-kernel/src/kernel.ts:69-87 | a payable's result does not depend on the order of the batch |
| Kernel.PrimaryIsLeastBySeverityThenRuleOrder | packages/rules-kernel/src/kernel.ts:56-58 | the primary exception is the least by severity and then by rule order |
| Kernel.PrimaryIsTheFirstOfTheMostSevere | packages/rules-kernel/src/kernel.ts:23-58 | the primary exception is the first CRITICAL one if there is any, else the first HIGH, else the first MEDIUM, else the first LOW |
| Kernel.SeverityTable | packages/rules-kernel/src/reasonCodeMetadata.ts:21-31 | the severity of each reason code |
| Kernel.ExceptionsAreTheFaults | packages/rules-kernel/src/kernel.ts:30-50 | the exceptions are the rules' faults in rule order, one for each, naming payable, reason, its severity and policy version |
| Kernel.DuplicatesExactly | packages/rules-kernel/src/rules/duplicateCheck.ts:18-42 | over a batch: with detection on, already settled first, then known before or shared with another payable of the batch; nothing otherwise |
| Kernel.ReadyExactly | packages/rules-kernel/src/kernel.ts:52-87 | a payable of a batch is READY exactly when no other rule faults it and, with detection on, its fingerprint is neither settled, known nor shared |
| Kernel.FingerprintNamesVendorAndAmount | packages/rules-kernel/src/types.ts:21-24 | equal fingerprints mean equal vendor and amount as long as amounts hold no bar |

## Left out

- `upgrade()`: new code can do anything, so no property of a run could be stated with it.
- Archival and TTL bumping of contract entries, contract storage costs and resource limits.
- XDR, RPC, transaction building and polling (`chain.ts`), and `RpcEventSource`: kept only as the answers they give. `FakeGate` is not used as a specification.
- The Postgres store: its statements are insert-or-ignore and upsert, as the in-memory maps are.
- The aliasing of proof objects in the in-memory store: a proof read earlier does not change when the stored one does.
- `settledAt`, messages of errors, and log lines.
- Calendar parsing of ISO instants, and candidates whose `expires_at` is not a date.
- Base64 of signatures, key wrapping in DER, and deriving a public key from a seed.
- The `__proto__` key, sparse arrays and negative zero in canonical JSON; error paths in its messages.
- The six rules of the kernel that look at one payable alone: any functions may stand for them. Decimal tolerance arithmetic is theirs.
- The HTTP routes beyond the one store write of revocation, ingestion, web interface, notifications and demo data.
- The agent's timer and its guard against overlapping cycles: one cycle at a time is modelled.
- Agent.SettlementAgent.RunOnce: does not state gate and store at the end beyond what every advance of the gate keeps, because what the indexer's turn and the attempts do to them is modelled in the protocol; the cycle itself sees only how each attempt ends.
- Indexing.AnyFullDeliveryAgrees: does not claim equal notes under a fingerprint or equal registering transactions, because the first of several payables with one fingerprint, and whether a registration was projected before its closing event, do depend on the order of delivery.
- ProtocolRecovery.RecoveryLeavesTheRecord: does not claim that the fingerprint is present after a crash between recording a settlement and adding it, because the retry does not add it again.
- ProtocolSafety.AlreadySettledMeansPaidOnce: does not claim the payment was on this proof's terms, because that path does not compare them.
