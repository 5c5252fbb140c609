# Verified model of the WizPay control plane

WizPay MCP turns a frozen financial intent into at most one on-chain payment: a policy
evaluates the intent, a person approves it, the approval is consumed into one execution,
workers submit and reconcile that execution under leases, and chain receipts prove what
happened. This project models the parts of that path whose guarantees span several
functions or whole runs, and proves them in Dafny. `dafny verify dfyconfig.toml` checks
everything.

| file | component |
|---|---|
| `Text`, `Receipts`, `Ordering`, `Amounts` | text, receipts and addresses, key order, exact decimals |
| `Lifecycle`, `ExecutionResults` | the execution lifecycle and the results that drive it |
| `RuntimeProtocol`, `RuntimeService`, `RuntimeProgress`, `RuntimeAnswers` | workers, leases, fences and the PostgreSQL store as a state machine; the service methods that run on it; what it can always still do; what each adapter and verifier answer leads to |
| `Observations`, `ProviderReference`, `ChainVerifier`, `ChainAnswers`, `VerifiedExecutions` | receipt baselines, their durable text form, on-chain verification, exactly when it gives each answer, and the runtime with that verifier plugged in |
| `Intents`, `Policies`, `PolicyDecisions` | intent validation; policy evaluation; what it decides, in terms of the intent |
| `DomainResults`, `PayrollVerifier`, `PayrollSettlement`, `SwapVerifier`, `SwapSettlement`, `SpendBound` | the domain verifiers; the planned transaction, events and settlement they accept, field by field; policy against settlement |
| `CanonicalJson`, `Approvals`, `ExecutionRequests`, `Authority`, `Preparations` | frozen bytes, approvals, request keys, one approval under concurrent services, and exactly when their calls succeed |
| `Ledgers`, `Occurrences`, `Recurrences` | autonomous spending caps, occurrence fencing, recurrence |

Source code that mutates state is modelled by classes and loops, each proved against a
specification function; the properties are then lemmas about those functions. Runs are
sequences of actions with no bound on their length, on the number of processes or on
clock values, unless a statement says otherwise.

What stands outside the model enters as a parameter: clocks, hashes (`sha`, `idOf`,
`digest`), ABI topics and decoders (the `Abi` records), answers of adapters, verifiers and
chain clients, and the answers of the identity, wallet and grant components. Lemmas that
need a hash to be collision-free say so with `Injective`, those that need it to print as 64
hexadecimal digits with `Hexadecimal`, and those that need the five payroll event signatures
to have different topics with `TopicsDiffer`. Times are integer nanoseconds
since the start of year 1, Go's zero time, so 0 is the unset time.

Findings about the code, each proved:

- `RuntimeProtocol.RecoveryObservationsBlockVerification`: PersistClaimedObservation stores
  FAILED and RECOVERY_REQUIRED observations without their error code
  (internal/storage/postgres/runtime_repository.go:242), so reading the evidence fails from
  then on. An execution that ever stored one is never VERIFIED or COMPLETED afterwards, even
  when the observation was recoverable; evidence is readable exactly in the runs that stored
  none. `RuntimeProgress.UnreadableIsReachable` gives such a run from every created execution,
  and `RuntimeProgress.CompletesIffReadable` shows that nothing else stands in the way: a
  reachable non-terminal execution can still be completed if and only if its evidence is
  readable.
- `Observations.LogMutationDetectedIff`: a changed log fingerprint is noticed exactly when
  the receipt was present on the immediately preceding pass, not across a missing pass as
  the comment at internal/providers/reorg.go:150-151 says.
- `ProviderReference.EncodesIff` and `ProviderReference.LongIdentifiersOverflow`: a valid
  reference need not encode; it does exactly when its fields fit in 512 characters, which
  identifiers of up to 170 characters guarantee and 171 do not.
- `Amounts.ValidAmountIff`: base units may carry a sign, so they are not unique per value;
  the decimal text is.
- `Recurrences.MissedInstant`: RUN_LATEST yields the latest due instant exactly when at most
  `max` are due, otherwise the max-th.
- `PayrollVerifier.ForeignLogsIffBound`: a verified receipt keeps verifying with foreign logs
  added exactly up to the bound of 64 logs; `PayrollVerifier.SixtyFifthLogRefused` pads any
  verified receipt to 64, which verifies, and to 65, which does not.

## Model

| member | source | states |
|---|---|---|
| Lifecycle.ApplyKeepsProgress | internal/execution/lifecycle.go:60-222 | every accepted lifecycle change keeps the execution valid, raises the revision by exactly one and never lowers its progress rank, FAILED counted at the state it failed from and RECOVERY_REQUIRED at its target |
| Lifecycle.ProgressNeverRegresses | internal/execution/lifecycle.go:60-222 | over every sequence of attempted changes, accepted or refused, the rank never decreases |
| Lifecycle.NeverExecutesAgain | internal/execution/lifecycle.go:132-203 | an execution past SUBMITTED is never EXECUTING again in any later state |
| Lifecycle.TerminalIsAbsorbing | internal/execution/lifecycle.go:224-227 | a terminal execution is unchanged by every sequence of attempted changes |
| Lifecycle.RecoveryResumesAtCheckpoint | internal/execution/lifecycle.go:132-188 | requiring recovery and resuming lands exactly on the checkpoint of the state left, so recovery repeats no earlier stage |
| Lifecycle.ChangesIff | internal/execution/lifecycle.go:60-222 | exactly which attempted changes an execution accepts, and what each makes of it: one rung up, EXECUTING to CONFIRMING, early cancellation, classified failure, doubt, and recovery at the checkpoint |
| RuntimeProtocol.StepFits | internal/execution/runtime/service.go:93-353 | one step of one process, wherever it was, keeps the store consistent and leaves the process in a state its next call may rely on |
| RuntimeProtocol.RunFits | internal/execution/runtime/service.go:93-353 | the invariant of store and all processes holds after every interleaving, with stops and lease expiry between any two store calls |
| RuntimeProtocol.ExecutesAtMostOnce | internal/execution/runtime/service.go:147-166 | in every run the adapter's Execute is called at most once, and only once the durable marker is set |
| RuntimeProtocol.AfterwardsOnlyReconciles | internal/execution/runtime/service.go:147-166 | once the marker is set, even if its process stops before the call, every claim taken later carries it and so reconciles, only the process that set it may still call Execute, and after the call nobody may |
| RuntimeProtocol.VerifiedNeedsEvidence | internal/execution/runtime/service.go:218-296 | VERIFIED implies VERIFIED evidence at exactly that revision, COMPLETED at the one before, and every such row repeats a VERIFIED verifier answer, despite unfenced appends and arbitrary adapter answers |
| RuntimeProtocol.CompletesOnlyFromVerified | internal/execution/runtime/service.go:115-123 | the step that completes an execution starts from VERIFIED with evidence at that revision |
| RuntimeProtocol.RunProgresses | internal/storage/postgres/runtime_repository.go:175-326 | over every run the stored row never regresses, keeps its request, and evidence rows are never lost |
| RuntimeProtocol.FailureObservationUnreadable | internal/storage/postgres/runtime_repository.go:216-270 | storing an observation keeps the evidence readable if and only if it is neither FAILED nor RECOVERY_REQUIRED |
| RuntimeProtocol.RecoveryObservationsBlockVerification | internal/storage/postgres/evidence_repository.go:37-63 | evidence is readable exactly in runs that stored no such observation, and once unreadable the execution is never VERIFIED or COMPLETED |
| RuntimeProgress.TakesOver | internal/storage/postgres/runtime_repository.go:73-110 | from every state, however other processes stopped, an idle process can claim a non-terminal execution once the previous lease has run out, and works on the current row under a fresh token |
| RuntimeProgress.UnreadableIsReachable | internal/storage/postgres/runtime_repository.go:216-270 | from every created execution a run reaches unreadable evidence under a non-terminal RECOVERY_REQUIRED row: one adapter call of unknown outcome is enough |
| RuntimeProgress.CompletesIffReadable | internal/storage/postgres/evidence_repository.go:37-63 | from every reachable state of a non-terminal execution with room in its revision counter, COMPLETED can still be reached if and only if the evidence is readable |
| RuntimeAnswers.AnswerLeadsTo | internal/execution/runtime/service.go:167-216 | for each adapter answer the row and observation written: a rejection fails with its code, terminally exactly if permanent; SUBMITTED goes to SUBMITTED, CONFIRMING and CONFIRMED to CONFIRMING, FAILED fails terminally, RECOVERY_REQUIRED and no answer go to RECOVERY_REQUIRED |
| RuntimeAnswers.AnswersAreWritten | internal/execution/runtime/service.go:167-216 | exactly which answers are written: every missing one, rejections with a valid code, and valid results for this execution in those five states |
| RuntimeAnswers.VerdictLeadsTo | internal/execution/runtime/service.go:233-296 | the same for each verifier answer, malformed ones included: nothing, recovery, a pending append for a new reference, terminal failure, confirmation first, proof |
| RuntimeAnswers.PlainLeadsTo | internal/execution/runtime/service.go:93-145 | a visit without a call moves on exactly from the non-terminal states that need none, each to its successor |
| RuntimeAnswers.WritesAreFenced | internal/storage/postgres/runtime_repository.go:112-326 | a step changes the row, by one revision, or sets the marker only for the process whose unexpired lease is the stored one, on the revision it read |
| RuntimeAnswers.LeaseGrantedIff | internal/storage/postgres/runtime_repository.go:73-110 | a lease is granted exactly for due, non-terminal work that nobody holds, under the next token and for the asked time |
| RuntimeAnswers.OneHolder | internal/storage/postgres/runtime_repository.go:73-110 | in every run and at every instant at most one process holds the lease |
| RuntimeService.ExecutionRuntime.MarkSubmissionStarted | internal/storage/postgres/runtime_repository.go:112-131 | reports true exactly when the lease is held and the marker was unset, and then sets it, changing nothing else |
| RuntimeService.ExecutionRuntime.UpdateClaimedExecution | internal/storage/postgres/runtime_repository.go:175-214 | the fenced, revision-checked row write: applied exactly when permitted, otherwise the store is unchanged |
| RuntimeService.ExecutionRuntime.PersistClaimedObservation | internal/storage/postgres/runtime_repository.go:216-270 | row and observation are written together or not at all |
| RuntimeService.ExecutionRuntime.PersistClaimedEvidence | internal/storage/postgres/runtime_repository.go:272-326 | row and proof are written together or not at all |
| RuntimeService.ExecutionRuntime.AppendVerificationEvidence | internal/storage/postgres/evidence_repository.go:12-36 | the append that no lease guards adds at most one row and touches nothing else |
| RuntimeService.ExecutionRuntime.FindLatestReference | internal/execution/runtime/service.go:329-340 | the backward scan finds the reference of the latest evidence row that has one |
| RuntimeService.ExecutionRuntime.HasVerifiedEvidence | internal/execution/runtime/service.go:342-353 | the scan succeeds exactly when readable VERIFIED evidence exists at that revision |
| RuntimeService.ExecutionRuntime.Guarantees | internal/execution/runtime/service.go:93-145 | whatever the recorded history, the protocol invariant holds and Execute was called at most once |
| RuntimeService.ExecutionRuntime.SubmitOrReconcile | internal/execution/runtime/service.go:147-216 | the visit is a run of protocol steps, with other processes in between, that ends finished unless the process was stopped; the answers lead where RuntimeAnswers.AnswerLeadsTo says |
| RuntimeService.ExecutionRuntime.VerifyOutcome | internal/execution/runtime/service.go:218-296 | same for verification, including the two-step confirmation, with RuntimeAnswers.VerdictLeadsTo |
| RuntimeService.ExecutionRuntime.ProcessClaim | internal/execution/runtime/service.go:93-145 | same for a whole visit, after which the invariant holds and Execute was called at most once |
| RuntimeService.ExecutionRuntime.ClaimWork | internal/storage/postgres/runtime_repository.go:73-110 | a claim is returned only if its lease is held at the check made after the row was read, and then under this worker |
| RuntimeService.ExecutionRuntime.WorkerRun | internal/execution/runtime/worker.go:31-55 | any number of claim, process and release rounds, ended early by an error, keeps the invariant and the single Execute |
| Observations.ObservationTracker.Evaluate | internal/providers/reorg.go:210-232 | signal, merged observation and tracker memory are those of comparing with process memory first, the durable prior otherwise |
| Observations.ObservationTracker.Remember | internal/providers/reorg.go:190-204 | stores under the normalized transaction key, and nothing for an unkeyed observation |
| Observations.FromReceiptIsPass | internal/providers/reorg.go:237-253 | an absent receipt contributes no inclusion identity |
| Observations.BaselineOfLastPresent | internal/providers/reorg.go:126-158 | after any run the baseline carries identity and logs of the last present pass, and presence and depth only while that pass is the latest |
| Observations.BaselineOfAbsence | internal/providers/reorg.go:126-158 | a run of absent passes leaves no inclusion to compare with |
| Observations.SignalCharacterised | internal/providers/reorg.go:83-119 | a pass is consistent if and only if it agrees with the last present pass on identity and, when adjacent, on depth and logs |
| Observations.FirstPresenceIsConsistent | internal/providers/reorg.go:83-119 | the first appearance of a receipt never raises a signal |
| Observations.LogMutationDetectedIff | internal/providers/reorg.go:110-158 | with everything else equal, changed logs raise a signal exactly if the receipt was present on the immediately preceding pass |
| Observations.LogMutationAcrossGapUndetected | internal/providers/reorg.go:150-151 | a concrete run in which changed logs across a missing pass stay unnoticed although the baseline kept the fingerprint |
| ProviderReference.ParseReference | internal/providers/reference.go:236-307 | the filling loop accepts exactly what the field-by-field specification accepts, with the same result |
| ProviderReference.RoundTrip | internal/providers/reference.go:139-307 | whatever encodes parses back to the normalised reference, which encodes to the same text |
| ProviderReference.EncodeIsInjective | internal/providers/reference.go:139-184 | different normalised references never share a text |
| ProviderReference.EncodedIsTrimmed | internal/providers/reference.go:139-184 | an encoded reference survives the trimming of stored results |
| ProviderReference.EncodesIff | internal/providers/reference.go:139-184 | Encode succeeds if and only if the reference is valid and its written fields fit in 512 characters |
| ProviderReference.ShortIdentifiersFit | internal/providers/reference.go:139-184 | every valid reference whose three identifiers total at most 170 characters encodes |
| ProviderReference.LongIdentifiersOverflow | internal/providers/reference.go:180-182 | a valid reference with identifiers totalling 171 characters that does not encode, so the bound is tight |
| ChainVerifier.Verifier.VerifyObservation | internal/providers/verifier.go:171-296 | one pass with one receipt read: the answer and the tracker memory are those of the specification, whose answers ChainAnswers characterises |
| ChainVerifier.VerifiedMeans | internal/providers/verifier.go:194-247 | what the answered reference names: VERIFIED only for a SUCCESS receipt, deep enough and with no inconsistency signal, on the chain and for the transaction of the reference asked about, which is also the transaction the answered reference names |
| ChainVerifier.FailedMeans | internal/providers/verifier.go:222-231 | FAILED only for a REVERTED receipt on the chain and for the transaction of the reference asked about, consistent with the baseline |
| ChainAnswers.ResolvesIff | internal/providers/verifier.go:252-273 | a resolved reference stands for the asked one exactly when that names its transaction already, or provider, chain and any provider transaction are kept |
| ChainAnswers.ConsistentIff | internal/providers/reorg.go:83-119 | no signal exactly when the receipt contradicts nothing observed: not vanished, same block and logs, no fewer confirmations |
| ChainAnswers.RecordsMerge | internal/providers/reference.go:188-219 | the reference answered carries exactly the observation of this pass, or of the last one with a receipt |
| ChainAnswers.JudgesIff | internal/providers/verifier.go:216-247 | for a reference that encodes: VERIFIED iff consistent SUCCESS at the depth, FAILED with its code iff consistent REVERTED, otherwise PENDING with the encoded reference |
| ChainAnswers.VerifiedIff | internal/providers/verifier.go:171-247 | VERIFIED if and only if the transaction asked about has a SUCCESS receipt at the required depth that agrees with everything observed and still encodes |
| ChainAnswers.FailedIff | internal/providers/verifier.go:171-247 | FAILED if and only if that transaction has such a REVERTED receipt |
| ChainAnswers.PendingIff | internal/providers/verifier.go:182-245 | PENDING with that text if and only if no transaction is named yet, or the receipt read settles nothing |
| ChainAnswers.UnavailableIff | internal/providers/verifier.go:188-192 | the resolver and the chain outage, and nothing else, are reported as unavailable |
| ChainVerifier.EvaluatesAlike | internal/providers/reorg.go:210-232 | two memories in step with the same durable reference give the same signal and merged observation |
| ChainVerifier.MergedStaysInStep | internal/providers/reference.go:188-219 | after a pass, memory and the re-encoded reference are in step again |
| ChainVerifier.VerifyAlike | internal/providers/verifier.go:171-248 | two processes in step answer a pass alike and stay in step |
| ChainVerifier.RestartEquivalence | internal/providers/reorg.go:160-232 | for every sequence of passes and every choice of restarts, signals, merged observations and answers equal those of a process that never restarts, up to a pass whose observation does not encode |
| ChainVerifier.WatchedHoldsBaseline | internal/providers/verifier.go:206-215 | the tracker's entry after any receipts is the baseline of those passes |
| ChainVerifier.VerifiedAgreesWithRun | internal/providers/verifier.go:206-233 | a VERIFIED pass agrees with the last earlier present pass on block identity, and with an adjacent one on depth and logs |
| VerifiedExecutions.VerifiedMeansSettled | internal/execution/runtime/service.go:218-296 | in every run with a chain verifier and its own tracker in each process, each VERIFIED row has a verifier call of that run whose own receipt is a qualifying SUCCESS for the reference asked about, which an earlier evidence row carried; VERIFIED and COMPLETED executions have such a row |
| VerifiedExecutions.BackedIsRun | internal/execution/runtime/service.go:218-296 | such a run is a run of the protocol, so every other guarantee holds of it |
| Amounts.PrintedParses | internal/policies/evaluator.go:230-244 | parsing the printed decimal of any value gives the value back, for any number of decimals |
| Amounts.PrintedIsValid | internal/services/payroll.go:118-133 | the printed amount validates and denotes the value |
| Amounts.ParsedPrints | internal/intents/types.go:91-122 | every accepted decimal text is exactly the print of its value |
| Amounts.ValidAmountIff | internal/intents/types.go:44-63 | an amount validates if and only if its decimal is the print of what its base units denote, which may carry a sign but no leading zero |
| Amounts.SignedBaseUnitsValidate | internal/intents/types.go:52-58 | every value also validates with a plus sign before its base units |
| Intents.ScanLines | internal/intents/payroll_params.go:301-355 | the recipient loop accepts exactly lists whose lines all pass, agree with the first and have distinct keys, and adds up their amounts |
| Intents.ValidatePhase12 | internal/intents/payroll_params.go:263-380 | accepts exactly payrolls with valid lines, distinct addresses up to case, one output token where required, and a total that is the printed sum |
| Intents.ValidateSameToken | internal/intents/payroll_params.go:58-83 | accepts exactly phase 12 payrolls in one canonical token with exact line amounts |
| Intents.ValidateCrossTokenTimeline | internal/intents/payroll_params.go:96-206 | accepts exactly cross-token payrolls whose obligations are distinct, positive, in the opposite token, covered by the minimum output and within the timeline |
| Intents.CheckTimeline | internal/intents/payroll_params.go:175-191 | accepts exactly deadlines after creation, at most twenty minutes later, and within the given deadline and expiry |
| Intents.SameTokenTotal | internal/intents/payroll_params.go:357-368 | the total of an accepted payroll denotes the exact sum of its lines |
| Intents.CrossTokenTotal | internal/intents/payroll_params.go:119-167 | the total denotes the exact sum of obligations, at most the minimum output |
| Intents.CeilingIsLeast | internal/intents/swap_params.go:300-311 | the ceiling is the least amount within the slippage bound and never above the expected output, so some minimum is always acceptable |
| Ordering.Search | internal/policies/evaluator.go:298-301 | binary search over ordered keys returns the first index not before the target |
| Ordering.Contains | internal/policies/evaluator.go:298-321 | finds a key exactly when it is a member |
| Ordering.SortOrders | internal/policies/rules.go:186-223 | sorting leaves the keys in order |
| Ordering.SortKeeps | internal/policies/rules.go:186-223 | sorting keeps every element with its multiplicity |
| Policies.UniqueSorted | internal/policies/evaluator.go:246-255 | the in-place loop leaves strictly increasing values, namely the sorted list without repeats |
| Policies.NormalizedIsSearchable | internal/policies/rules.go:186-223 | normalised rules satisfy what the binary searches need |
| Policies.NormalizedVerdict | internal/policies/rules.go:186-223 | normalising a rule does not change what it says about any intent |
| Policies.ViewVerdict | internal/policies/evaluator.go:158-217 | neither does sorting and deduplicating the intent view |
| Policies.EvaluateRule | internal/policies/evaluator.go:257-296 | the searching evaluator computes the set-based meaning of the rule, errors included |
| Policies.ApplyRules | internal/policies/evaluator.go:93-106 | the loop over normalised rules computes findings and decision of the meaning of the original rules |
| Policies.Evaluate | internal/policies/evaluator.go:28-108 | the whole evaluation, gates and errors included, computes its order-free meaning, which PolicyDecisions spells out |
| Policies.DecisionIsWorst | internal/policies/evaluator.go:93-126 | DENY iff a violated rule denies, ALLOW iff none is violated, and findings name exactly the violated rules |
| Policies.AppliedIff | internal/policies/evaluator.go:93-106 | evaluation errs iff some rule cannot be evaluated |
| PolicyDecisions.VerdictIff | internal/policies/evaluator.go:158-296 | each rule kind in terms of the intent: it passes, or is violated for its reason, exactly when the spent token and amount, the chains, tokens, recipients and ends of the intent say so |
| PolicyDecisions.RefusesIff | internal/policies/evaluator.go:76-92 | no refusal before the rules exactly when the policy is active, in its window, named by the intent and in scope; each refusal reason with exactly its cause |
| PolicyDecisions.AllowIff | internal/policies/evaluator.go:28-108 | ALLOW if and only if policy, intent and caller are admissible, the policy is in force, named and in scope, and every rule passes |
| PolicyDecisions.DecisionIff | internal/policies/evaluator.go:28-126 | exactly when evaluation errs, denies or requires review |
| PolicyDecisions.RefusalReason | internal/policies/evaluator.go:110-116 | a refused intent is denied with that one reason |
| PolicyDecisions.FindingsIff | internal/policies/evaluator.go:93-106 | the findings are exactly the violated rules with their decisions and reasons |
| Policies.ExposureUnits | internal/policies/evaluator.go:219-228 | the exposure is a valid amount of obligations plus the highest fee on them |
| Policies.TokenKeyInjective | internal/policies/types.go:142-144 | keys of valid references are equal exactly for equal chain, standard, decimals and address up to case |
| DomainResults.AddressesEqualIff | internal/contracts/address.go:14-49 | addresses are equal exactly when both are valid and agree digit by digit up to case |
| DomainResults.EnvelopeIff | internal/payroll/verifier.go:62-83 | the first checks pass exactly for a successful Arc Mainnet transaction of the wallet to the contract, and leave the result open exactly while the receipt decides nothing |
| PayrollVerifier.CollectEvents | internal/payroll/verifier.go:118-150 | the log loop gathers events of each kind in order, or stops with the code of the first malformed one |
| PayrollVerifier.MatchSameTokenCall | internal/payroll/verifier.go:99-109 | the decoded call matches iff token, reference, recipients and amounts do, and the running total is the exact sum |
| PayrollVerifier.VerifySameToken | internal/payroll/verifier.go:56-195 | result and reason code are those of the specification for every receipt; what it accepts is characterised below |
| PayrollVerifier.MatchCrossTokenCall | internal/payroll/verifier.go:230-247 | the decoded call matches iff every frozen field and line does, and obligations are the exact sum |
| PayrollVerifier.VerifyCrossToken | internal/payroll/verifier.go:197-355 | result and reason code are those of the specification for every receipt; what it accepts is characterised below |
| PayrollVerifier.Verify | internal/payroll/verifier.go:43-195 | the variant is chosen by cross-token validity, and the result is that variant's |
| PayrollSettlement.SameTokenPlannedIff | internal/payroll/verifier.go:62-112 | the transaction checks pass exactly for the planned transaction: sender, target, chain, hash, call data, zero native value, the decoded call line by line, at most 64 well-formed logs |
| PayrollSettlement.CrossTokenPlannedIff | internal/payroll/verifier.go:197-261 | same for cross-token, with swap bounds, deadline in whole seconds and the native value that funds a USDC input |
| PayrollSettlement.CollectsIff | internal/payroll/verifier.go:113-150 | the events collected are exactly the decoded logs of the payroll contract under each topic, in order; swap and refund logs stop a same-token payroll |
| PayrollSettlement.SameTokenVerifiedIff | internal/payroll/verifier.go:56-195 | VERIFIED if and only if the planned transaction was executed and its logs carry one payment per line in order under one reference hash and two totals events that declare the total plus a fee of at most one percent |
| PayrollSettlement.CrossTokenVerifiedIff | internal/payroll/verifier.go:197-355 | same for cross-token: one swap within its bounds, payments in order, matching totals, and one refund exactly when something is left over |
| PayrollSettlement.OpenIff | internal/payroll/verifier.go:56-78 | the result stays unverified exactly while the receipt decides nothing; everything else that does not verify is a definitive failure |
| PayrollVerifier.ForeignLogIsNoCore | internal/payroll/verifier.go:121-124 | inserting a foreign log anywhere leaves the logs the verifier reads unchanged |
| PayrollVerifier.ForeignLogsIgnored | internal/payroll/verifier.go:110-150 | receipts that differ only in well-formed foreign logs within the bound get the same result and reason |
| PayrollVerifier.TooManyLogsRefused | internal/providers/receipt.go:108-118 | a receipt with more than 64 logs never verifies |
| PayrollVerifier.ForeignLogsIffBound | internal/providers/receipt.go:108-118 | a verified receipt with well-formed foreign logs added or removed still verifies if and only if it holds at most 64 logs |
| PayrollVerifier.SixtyFifthLogRefused | internal/providers/receipt.go:16-18 | every verified receipt padded with empty foreign logs verifies at 64 logs and is refused at 65 |
| PayrollVerifier.SameTokenConserves | internal/payroll/verifier.go:181-188 | in a verified receipt input equals payments plus fees, fees are at most one percent, payments equal the approved total |
| PayrollVerifier.CrossTokenConserves | internal/payroll/verifier.go:240-351 | in a verified receipt gross equals net plus a fee of at most one percent, swap output equals the payments in intent order plus the refund, refund zero iff no refund event, native value gross times 10^12 for USDC and 0 for EURC |
| SwapVerifier.HasOutputTransfer | internal/swap/verifier.go:154-164 | true iff some log transfers exactly the output amount of the token to the wallet |
| SwapVerifier.CollectExecuted | internal/swap/verifier.go:108-119 | gathers the swap events in order, none if one is malformed |
| SwapVerifier.Verify | internal/swap/verifier.go:43-150 | result and reason code are those of the specification for every receipt; what it accepts is characterised below |
| SwapSettlement.TransferIff | internal/swap/verifier.go:154-176 | an output transfer is exactly a log of the token with the wallet address, byte by byte, in the third topic and the amount as a 32-byte word |
| SwapSettlement.PlannedIff | internal/swap/verifier.go:56-106 | the transaction checks pass exactly for the planned transaction |
| SwapSettlement.ExecutedIff | internal/swap/verifier.go:107-119 | the events collected are exactly the decoded logs of the swap contract under its topic |
| SwapSettlement.VerifiedIff | internal/swap/verifier.go:52-150 | VERIFIED if and only if the planned transaction was executed, its logs carry exactly one swap event, and that event and an output transfer settle the intent |
| SwapSettlement.OpenIff | internal/swap/verifier.go:52-72 | the result stays unverified exactly while the receipt decides nothing |
| SwapVerifier.SlippageHonoured | internal/swap/verifier.go:130-135 | a verified swap delivered at least the expected output less the approved slippage, for exactly the approved input with a fee of at most one percent |
| SpendBound.AllowBounds | internal/policies/evaluator.go:261-276 | an allowed intent spends the token of every covering spending limit, at most its maximum |
| SpendBound.PayrollBounded | internal/policies/evaluator.go:170-192 | if a payroll is allowed and its receipt later verifies, the input reported on chain, fees included, is at most the maximum of every covering limit |
| SpendBound.SwapBounded | internal/swap/verifier.go:130-135 | same for the input of a swap |
| CanonicalJson.CharsRead | internal/intents/canonical.go:107-136 | escaped text followed by a quote reads back as the text, for every character |
| CanonicalJson.RoundTrip | internal/intents/canonical.go:25-136 | a decoder inverts rendering of every supported tree |
| CanonicalJson.CanonIsInOrder | internal/intents/canonical.go:63-75 | the printed tree has the names of every record in order, as section 3.2.3 of RFC 8785 asks |
| CanonicalJson.CanonPermutes | internal/intents/canonical.go:42-64 | sorting a record keeps exactly its fields |
| CanonicalJson.PrintDecodes | internal/intents/canonical.go:17-23 | canonical bytes decode to the key-sorted tree |
| CanonicalJson.PrintIsInjective | internal/intents/canonical.go:17-23 | trees that differ after key sorting never print alike |
| CanonicalJson.Builder.AppendString | internal/intents/canonical.go:107-136 | appends the quoted form section 3.2.2.2 of RFC 8785 asks for |
| CanonicalJson.Builder.Append | internal/intents/canonical.go:25-105 | succeeds exactly on supported material and then appends its canonical form |
| Approvals.ApplyAdvances | internal/approvals/lifecycle.go:46-152 | a changed approval is one revision further with the same binding and window, keeps a made decision, was not terminal, and is consumed only from an approved state inside its window |
| Approvals.AppliesIff | internal/approvals/lifecycle.go:46-162 | exactly which events move an approval, to which values, and which repeat one; expiry waits for its time, everything else must come before it |
| ExecutionRequests.Preimage | internal/execution/request.go:152-160 | the writing loop produces domain and length-prefixed parts |
| ExecutionRequests.FramingIsInjective | internal/execution/request.go:152-160 | different lists of parts, of any lengths, are never framed alike |
| ExecutionRequests.PreimageIsInjective | internal/execution/request.go:15-20 | preimages agree only for the same domain and the same parts |
| ExecutionRequests.RequestBinds | internal/execution/request.go:46-105 | an accepted request names that consumed approval, that intent digest and an ALLOW evaluation no later than the consumption, which is no later than the request |
| ExecutionRequests.RequestKeyDetermines | internal/execution/request.go:116-146 | with a collision-free hash, equal request keys mean equal operation, approval, policy, intent and evaluation time |
| Authority.AuthorityStore.UpdateApproval | internal/storage/postgres/approval_repository.go:162-197 | the row changes only if it still has the revision that was read |
| Authority.AuthorityStore.PrepareExecutionWith | internal/services/execution.go:34-108 | consuming and creating happen together or not at all, and the answer is that of the specification, replay included; exactly when it succeeds is Preparations |
| Authority.StepKeeps | internal/storage/postgres/atomic_repository.go:116-179 | every step of any service, with however stale a reading, keeps: one decision, terminal values final, one request exactly when consumed |
| Authority.DecidedOnce | internal/approvals/lifecycle.go:46-103 | in every interleaving a decision and its time never change once made |
| Authority.ConsumedOnce | internal/approvals/lifecycle.go:126-152 | in every interleaving at most one request is created, exactly when the approval is consumed, inside its window and bound to it |
| Authority.PreparationsAgree | internal/services/execution.go:110-133 | every successful preparation, first or replayed, answers the same request |
| Preparations.ReplaysIff | internal/services/execution.go:58-133 | in every run a preparation that reads the approval as consumed changes nothing and answers the one request created exactly when it asks for that operation, intent, owner and policy again |
| Preparations.FirstPreparationIff | internal/services/execution.go:34-108 | in every run the first preparation succeeds exactly when approval, intent, evaluation and times authorize it, it read the row as it stands and its operation has no request; it then consumes the approval and creates the request that names them |
| Preparations.LostRaceIff | internal/storage/postgres/atomic_repository.go:116-179 | a preparation that lost the race is answered exactly when it would have created the very same request |
| Preparations.UpdateIff | internal/storage/postgres/approval_repository.go:162-197 | an update takes effect exactly when it read the row as it stands and the event moves it |
| Ledgers.Ledger.Sums | internal/autonomy/accounting.go:39-50 | the loop's totals are the sums over the book, whatever the iteration order |
| Ledgers.Ledger.ReserveAmount | internal/autonomy/accounting.go:25-68 | reserves exactly when grant and amount are valid, the occurrence is new and both caps still hold; a repeated occurrence is answered by its grant and changes nothing |
| Ledgers.Ledger.CommitOccurrence | internal/autonomy/accounting.go:69-79 | commits a known reservation and changes nothing else |
| Ledgers.Ledger.ReleaseOccurrence | internal/autonomy/accounting.go:80-87 | removes a reservation that is not committed and nothing else |
| Ledgers.ReservesIff | internal/autonomy/accounting.go:39-67 | a new reservation is made exactly when the book that holds it respects both caps, the caps themselves included |
| Ledgers.ReserveKeepsWindow | internal/autonomy/accounting.go:58-65 | a reservation fits every rolling window it falls into, also when clocks run backwards |
| Ledgers.CapsHold | internal/autonomy/accounting.go:25-87 | after any operations with any clock values every grant version is within its aggregate cap, and at every instant within its rolling cap |
| Occurrences.MemoryStore.SaveOccurrence | internal/autonomy/runtime.go:98-115 | a new valid occurrence is stored, an existing one never replaced |
| Occurrences.MemoryStore.ClaimDue | internal/autonomy/runtime.go:126-144 | claims some claimable occurrence under the next fence, or reports that none is claimable |
| Occurrences.MemoryStore.CheckDispatchFence | internal/autonomy/runtime.go:178-191 | passes only a pair that holds an unexpired lease under that fence, and with unique identifiers exactly that pair |
| Occurrences.MemoryStore.BeforeDispatch | internal/autonomy/runtime.go:268-316 | eligible only when the stop is readable, the guards clear and the pair holds the fence of an occurrence of that schedule and grant, and with unique identifiers exactly then; every refusal carries its reason |
| Occurrences.RefusalIff | internal/autonomy/runtime.go:283-305 | the guards clear exactly when runtime, schedule, grant and delegation agree and are active, and each reason has exactly its cause |
| Occurrences.RunSucceeds | internal/autonomy/runtime.go:126-144 | over every run an occurrence is unchanged or claimed again under a higher fence after its lease ended |
| Occurrences.OnePairPerInstant | internal/autonomy/runtime.go:178-191 | two pairs that pass in one run are the same or the later one has a higher fence and a strictly later instant |
| Occurrences.SupersededNeverPasses | internal/autonomy/runtime.go:178-191 | a pair with a lower fence never passes in any later state |
| Occurrences.LeasesDoNotOverlap | internal/autonomy/runtime.go:131-141 | a later claim starts no earlier than the end of any earlier lease, under a strictly higher fence |
| Occurrences.ClaimedPairPasses | internal/autonomy/runtime.go:126-191 | the pair a claim hands out passes the fence exactly until its lease ends, unless the occurrence is claimed again |
| Recurrences.NextDaily | internal/autonomy/model.go:118-122 | the loop ends with the least daily instant strictly after the given one |
| Recurrences.NextWeekly | internal/autonomy/model.go:123-127 | the loop terminates with the least instant on the weekday strictly after the given one |
| Recurrences.Next | internal/autonomy/model.go:105-139 | the least named instant strictly after the given one and before the end, none iff there is none |
| Recurrences.MissedInstant | internal/autonomy/scheduler.go:52-76 | RUN_LATEST yields a due instant iff there is one; it is the latest iff at most max are due, otherwise exactly the max-th |

## Left out

- HTTP handlers, MCP tools, the web interface, configuration, OAuth and SIWE: wiring without deep invariants.
- ABI packing, Keccak, SHA-256 and signature recovery: parameters, see above.
- Unicode case folding: lower-casing and case-insensitive comparison treat ASCII letters only; hashes, addresses and hexadecimal text are ASCII.
- Tenant and actor scopes, audit rows and transaction isolation of PostgreSQL beyond atomic single transactions.
- Database CHECK and foreign-key constraints that only refuse more writes; timestamps are not rounded to microseconds.
- ResetSubmissionStarted: no code calls it.
- RuntimeProgress.CompletesIffReadable: needs room for eight more changes of the 64-bit revision counter, and the execution ID and version that request validation guarantees.
- RuntimeAnswers.AnswersAreWritten: stated for times the row admits and requests with the execution ID and version that validation guarantees.
- RuntimeAnswers.VerdictLeadsTo: same.
- PayrollVerifier.Verify: which of several failed checks names the reason code is given only by the order of the checks in the specification function.
- SwapVerifier.Verify: same.
- Trackers shared by several workers of one process: each process has its own.
- Wrap-around of 64-bit revisions, fences and lease tokens.
- RuntimeService.ExecutionRuntime.WorkerRun: runs a given number of rounds, because the source's loop is endless; which rounds report an error is given, and idle waiting is not modelled.
- ChainVerifier.RestartEquivalence: compares up to the first pass whose observation does not fit an encoded reference, because memory and durable form part there.
- Outcome.AdapterResult: any adapter answer is allowed in the runtime model, which subsumes it.
- Plan binding and Intent.Validate inside the domain verifiers: the caller's answer is taken; the checks on calldata, amounts and validity that the verifiers repeat are modelled.
- Intent.Validate in policy evaluation, identity and wallet authorization: booleans of the intent and the caller.
- Legacy payroll and swap shapes: readable but not executable.
- payrollFinancial: it fills parameters and calls the validators that are modelled.
- CanonicalJson.PrintDecodes: reflection, omitted fields and time formatting are outside; a value tree is given, and names are ordered by code point, which agrees with RFC 8785 for the ASCII names in use.
- Occurrences.MemoryStore.CheckDispatchFence: which of two occurrences with one identifier is looked at depends on the map's iteration order; in every run with a collision-free hash there is only one.
- Recurrences.Next: monthly recurrence and time zones are not modelled; leastness is stated for starts in year 1 or later.
- Grant and delegation validation in the dispatch gate, Simulate and the reservation map of the memory store: easy members.
- The state of schedules, capability and contract registries, identity and wallet state machines.
