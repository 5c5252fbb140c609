/** The execution runtime protocol. Any number of worker processes run
    internal/execution/runtime/service.go against the PostgreSQL store
    (internal/storage/postgres/runtime_repository.go, db/queries/foundation.sql); a process
    may stop, and a lease may expire, between any two store calls. The world holds the
    rows of one execution, which shares no state with any other. */
module RuntimeProtocol {
  import opened Text
  import opened Receipts
  import opened Lifecycle
  import opened ExecutionResults

  // ---------------------------------------------------------------- the store

  datatype Claim = Claim(execution: Execution, owner: string, token: nat, submissionStarted: bool)

  /** The execution row, its runtime work row and its evidence rows, the latter in query
      order: by observation time, then by insertion. */
  datatype Store = Store(
    row: Execution, nextRunAt: Time, owner: string, leaseExpiresAt: Option<Time>, token: nat,
    started: bool, evidence: seq<Result>)

  const HOUR: Time := 3_600_000_000_000

  predicate Claimable(st: Store, clock: Time) {
    && st.nextRunAt <= clock
    && (st.leaseExpiresAt.Some? ==> st.leaseExpiresAt.value <= clock)
    && !IsTerminal(st.row)
  }

  function TakenLease(st: Store, owner: string, clock: Time, duration: Time): Option<Store> {
    if owner == "" || !(0 < duration <= HOUR) || !Claimable(st, clock) then None
    else Some(st.(owner := owner, leaseExpiresAt := Some(clock + duration), token := st.token + 1))
  }

  /** ValidateExecutionClaim: the caller still owns an unexpired lease under its token. */
  predicate Holds(st: Store, owner: string, token: nat, clock: Time) {
    st.owner == owner && st.token == token && st.leaseExpiresAt.Some? && st.leaseExpiresAt.value > clock
  }

  /** MarkSubmissionStarted reports true at most once per execution. */
  predicate CanMark(st: Store, claim: Claim, clock: Time) {
    Holds(st, claim.owner, claim.token, clock) && !st.started
  }

  /** Fenced by the claim and by the revision it was computed from. */
  predicate CanWrite(st: Store, claim: Claim, next: Execution, expected: uint64, clock: Time) {
    && claim.owner != ""
    && Holds(st, claim.owner, claim.token, clock)
    && st.row.revision == expected && next.revision == expected + 1
  }

  predicate IsNew(evidence: seq<Result>, r: Result) {
    forall e | e in evidence ::
      !(e.executionVersion == r.executionVersion && e.status == r.status && e.observedAt == r.observedAt)
  }

  function Inserted(evidence: seq<Result>, r: Result): (out: seq<Result>)
    ensures multiset(out) == multiset(evidence) + multiset{r}
    ensures forall e :: e in out <==> e in evidence || e == r
  {
    if evidence != [] && r.observedAt < evidence[|evidence| - 1].observedAt then
      assert evidence == evidence[..|evidence| - 1] + [evidence[|evidence| - 1]];
      Inserted(evidence[..|evidence| - 1], r) + [evidence[|evidence| - 1]]
    else evidence + [r]
  }

  function Updated(st: Store, claim: Claim, next: Execution, expected: uint64, clock: Time): Option<Store> {
    if Valid(next) && CanWrite(st, claim, next, expected, clock) then Some(st.(row := next)) else None
  }

  /** PersistClaimedObservation writes the row and the observation together. The row it
      inserts leaves the error code empty. */
  function ObservationWritten(
    st: Store, claim: Claim, observation: Result, next: Execution, expected: uint64, clock: Time
  ): Option<Store> {
    var stored := observation.(errorCode := "");
    if && ValidResult(observation) && observation.executionVersion == next.revision && observation.status == next.status
       && CanWrite(st, claim, next, expected, clock) && IsNew(st.evidence, stored)
    then Some(st.(row := next, evidence := Inserted(st.evidence, stored))) else None
  }

  function EvidenceWritten(
    st: Store, claim: Claim, evidence: Result, next: Execution, expected: uint64, clock: Time
  ): Option<Store> {
    if && ValidResult(evidence) && next.status == StatusVerified && evidence.status == StatusVerified
       && evidence.executionVersion == next.revision
       && CanWrite(st, claim, next, expected, clock) && IsNew(st.evidence, evidence)
    then Some(st.(row := next, evidence := Inserted(st.evidence, evidence))) else None
  }

  /** AppendVerificationEvidence is not fenced; it only matches the current revision and status. */
  function Appended(st: Store, r: Result): Store {
    if ValidResult(r) && st.row.revision == r.executionVersion && st.row.status == r.status && IsNew(st.evidence, r)
    then st.(evidence := Inserted(st.evidence, r)) else st
  }

  /** FindVerificationEvidence rebuilds every row and fails if one of them is not a valid result. */
  predicate Readable(evidence: seq<Result>) { forall e | e in evidence :: ValidResult(e) }

  function Released(st: Store, claim: Claim, nextRunAt: Time): Store {
    if nextRunAt != 0 && st.owner == claim.owner && st.token == claim.token
    then st.(owner := "", leaseExpiresAt := None, nextRunAt := nextRunAt) else st
  }

  // ---------------------------------------------------------------- reading evidence

  function LatestReference(evidence: seq<Result>): (reference: string)
    ensures reference != "" ==> exists e | e in evidence :: e.adapterReference == reference
  {
    if evidence == [] then ""
    else if evidence[|evidence| - 1].adapterReference != "" then evidence[|evidence| - 1].adapterReference
    else LatestReference(evidence[..|evidence| - 1])
  }

  predicate HasVerified(evidence: seq<Result>, revision: int) {
    exists e | e in evidence :: e.status == StatusVerified && e.executionVersion == revision
  }

  // ---------------------------------------------------------------- what one visit writes

  datatype Write = Write(next: Execution, observation: Result)

  /** persistFailureObservation and persistObservation rebuild the result for the new revision. */
  function ObservationOf(next: Execution, reference: string, errorCode: string, observedAt: Time): Option<Write> {
    var r := NewResult(next.request.executionID, next.revision, next.status, reference, errorCode, observedAt);
    if r.Some? then Some(Write(next, r.value)) else None
  }

  function Failed(value: Execution, failure: Failure, reference: string, observedAt: Time, now: Time): Option<Write> {
    var next := Fail(value, failure, now);
    if next.None? then None else ObservationOf(next.value, reference, failure.code, observedAt)
  }

  function InDoubt(value: Execution, reason: string, reference: string, observedAt: Time, now: Time): Option<Write> {
    var next := RequireRecovery(value, reason, now);
    if next.None? then None else ObservationOf(next.value, reference, reason, observedAt)
  }

  function Moved(value: Execution, status: Status, result: Result, now: Time): Option<Write> {
    var next := Transition(value, status, now);
    if next.None? then None else ObservationOf(next.value, result.adapterReference, "", result.observedAt)
  }

  /** The tail of submitOrReconcile, after the adapter was called. */
  function AnswerWrite(value: Execution, answer: AdapterAnswer, now: Time): Option<Write> {
    match answer
    case Rejected(permanent, reason) =>
      Failed(value, if permanent then Failure(reason, Terminal, StatusUnset)
                    else Failure(reason, Recoverable, StatusExecuting), "", now, now)
    case NoAnswer => InDoubt(value, "SUBMISSION_OUTCOME_AMBIGUOUS", "", now, now)
    case Observed(result) =>
      if !EnsureMatches(result, value.request) then None else
        match result.status
        case StatusSubmitted => Moved(value, StatusSubmitted, result, now)
        case StatusConfirming | StatusConfirmed => Moved(value, StatusConfirming, result, now)
        case StatusFailed =>
          Failed(value, Failure(result.errorCode, Terminal, StatusUnset), result.adapterReference, result.observedAt,
                 now)
        case StatusRecoveryRequired =>
          InDoubt(value, result.errorCode, result.adapterReference, result.observedAt, now)
        case _ => None
  }

  /** The lifecycle step of a visit that neither calls the adapter nor the verifier. */
  function PlainStep(value: Execution, now: Time): Option<Execution> {
    match value.status
    case StatusCreated => Transition(value, StatusAuthorized, now)
    case StatusAuthorized => Transition(value, StatusQueued, now)
    case StatusQueued => Transition(value, StatusExecuting, now)
    case StatusSubmitted => Transition(value, StatusConfirming, now)
    case StatusFailed => Recover(value, now)
    case StatusRecoveryRequired => Resume(value, now)
    case _ => None
  }

  /** What verify does with the verifier's answer. */
  datatype VerdictStep = Nothing | UpdateRow(next: Execution) | AppendPending(observation: Result)
    | Observe(write: Write) | ConfirmFirst(next: Execution, result: VerificationResult) | Prove(write: Write)

  function VerdictStepOf(value: Execution, reference: string, answer: VerifierAnswer, now: Time): VerdictStep {
    match answer
    case Unavailable(_) => Nothing
    case Unclear =>
      var next := RequireRecovery(value, "VERIFICATION_OUTCOME_AMBIGUOUS", now);
      if next.Some? then UpdateRow(next.value) else Nothing
    case Answered(result) =>
      if !ValidVerification(result) then Nothing else
        match result.outcome
        case Pending =>
          if result.reference == reference then Nothing else
            var r := NewResult(value.request.executionID, value.revision, value.status, result.reference, "",
                               result.observedAt);
            if r.Some? then AppendPending(r.value) else Nothing
        case FailedOutcome =>
          var w := Failed(value, Failure(result.reasonCode, Terminal, StatusUnset), "", result.observedAt, now);
          if w.Some? then Observe(w.value) else Nothing
        case VerifiedOutcome =>
          if value.status == StatusConfirming then
            var next := Transition(value, StatusConfirmed, now);
            if next.Some? then ConfirmFirst(next.value, result) else Nothing
          else
            var w := ProofWrite(value, result, now);
            if w.Some? then Prove(w.value) else Nothing
  }

  function ProofWrite(confirmed: Execution, result: VerificationResult, now: Time): Option<Write> {
    var next := Transition(confirmed, StatusVerified, now);
    if next.None? then None else
      var r := NewResult(next.value.request.executionID, next.value.revision, StatusVerified, result.reference, "",
                         result.observedAt);
      if r.Some? then Some(Write(next.value, r.value)) else None
  }

  // ---------------------------------------------------------------- processes and steps

  type ProcessId = nat

  /** Where a process is: which calls of the current visit have returned, and what they said. */
  datatype Pc = Idle
    | Leased(owner: string, token: nat, submissionStarted: bool)
    | Loaded(claim: Claim)
    | Working(claim: Claim)
    | MustExecute(claim: Claim)
    | AlreadyStarted(claim: Claim)
    | AdapterSaid(claim: Claim, adapterAnswer: AdapterAnswer)
    | Verifying(claim: Claim, reference: string)
    | VerifierSaid(claim: Claim, reference: string, verifierAnswer: VerifierAnswer)
    | Proving(claim: Claim, result: VerificationResult)
    | EvidenceSeen(claim: Claim)
    | Finished(claim: Claim)

  datatype Verdict = Verdict(reference: string, answer: VerifierAnswer)

  /** `executes` counts the calls of the adapter's Execute; `verdicts` logs the verifier calls. */
  datatype World = World(store: Store, processes: map<ProcessId, Pc>, executes: nat, verdicts: seq<Verdict>)
  {
    function At(p: ProcessId): Pc { if p in processes then processes[p] else Idle }
  }

  /** One atomic step of process p. `clock` is the database clock, `now` the clock read by
      the process; neither is assumed monotone. */
  datatype Action =
    | TakeLease(p: ProcessId, owner: string, clock: Time, duration: Time)
    | LoadRow(p: ProcessId)
    | CheckClaim(p: ProcessId, clock: Time)
    | PersistStep(p: ProcessId, clock: Time, now: Time)
    | MarkSubmission(p: ProcessId, clock: Time)
    | CallExecute(p: ProcessId, adapter: AdapterAnswer)
    | CallGetStatus(p: ProcessId, adapter: AdapterAnswer)
    | PersistAlreadyStarted(p: ProcessId, clock: Time, now: Time)
    | PersistAnswer(p: ProcessId, clock: Time, now: Time)
    | ReadReference(p: ProcessId)
    | CallVerify(p: ProcessId, verifier: VerifierAnswer)
    | PersistVerdict(p: ProcessId, clock: Time, now: Time)
    | PersistProof(p: ProcessId, clock: Time, now: Time)
    | CheckEvidence(p: ProcessId)
    | Complete(p: ProcessId, clock: Time, now: Time)
    | Release(p: ProcessId, nextRunAt: Time)
    | Stop(p: ProcessId)

  /** What one step does: the store it leaves, where its process is next, whether it called
      Execute, and the verifier call it made. */
  datatype Effect = Effect(store: Store, pc: Pc, executes: nat, heard: seq<Verdict>)

  function Quiet(st: Store, pc: Pc): Effect { Effect(st, pc, 0, []) }

  function Persist(st: Store, claim: Claim, next: Option<Execution>, clock: Time): Store {
    if next.None? then st else
      var written := Updated(st, claim, next.value, claim.execution.revision, clock);
      if written.Some? then written.value else st
  }

  function PersistObservation(st: Store, claim: Claim, write: Option<Write>, clock: Time): Store {
    if write.None? then st else
      var written := ObservationWritten(st, claim, write.value.observation, write.value.next, claim.execution.revision,
                                        clock);
      if written.Some? then written.value else st
  }

  function PersistEvidence(st: Store, claim: Claim, write: Option<Write>, clock: Time): Store {
    if write.None? then st else
      var written := EvidenceWritten(st, claim, write.value.observation, write.value.next, claim.execution.revision,
                                     clock);
      if written.Some? then written.value else st
  }

  function Conclude(st: Store, claim: Claim, step: VerdictStep, clock: Time): Effect {
    match step
    case Nothing => Quiet(st, Finished(claim))
    case UpdateRow(next) => Quiet(Persist(st, claim, Some(next), clock), Finished(claim))
    case AppendPending(r) => Quiet(Appended(st, r), Finished(claim))
    case Observe(write) => Quiet(PersistObservation(st, claim, Some(write), clock), Finished(claim))
    case ConfirmFirst(next, result) =>
      var written := Updated(st, claim, next, claim.execution.revision, clock);
      if written.None? then Quiet(st, Finished(claim))
      else Quiet(written.value, Proving(claim.(execution := next), result))
    case Prove(write) => Quiet(PersistEvidence(st, claim, Some(write), clock), Finished(claim))
  }

  /** A step that does not fit where its process is has no effect. */
  function Do(st: Store, pc: Pc, a: Action): Effect {
    match a
    case TakeLease(_, owner, clock, duration) =>
      var taken := TakenLease(st, owner, clock, duration);
      if !pc.Idle? || taken.None? then Quiet(st, pc)
      else Quiet(taken.value, Leased(owner, taken.value.token, st.started))
    case LoadRow(_) =>
      if !pc.Leased? then Quiet(st, pc)
      else Quiet(st, Loaded(Claim(st.row, pc.owner, pc.token, pc.submissionStarted)))
    case CheckClaim(_, clock) =>
      if !pc.Loaded? then Quiet(st, pc)
      else Quiet(st, if Holds(st, pc.claim.owner, pc.claim.token, clock) then Working(pc.claim) else Idle)
    case PersistStep(_, clock, now) =>
      if !pc.Working? || pc.claim.execution.status in CALLING then Quiet(st, pc)
      else Quiet(Persist(st, pc.claim, PlainStep(pc.claim.execution, now), clock), Finished(pc.claim))
    case MarkSubmission(_, clock) =>
      if !pc.Working? || pc.claim.execution.status != StatusExecuting || pc.claim.submissionStarted then Quiet(st, pc)
      else if CanMark(st, pc.claim, clock) then
        Quiet(st.(started := true), MustExecute(pc.claim.(submissionStarted := true)))
      else Quiet(st, AlreadyStarted(pc.claim))
    case CallExecute(_, answer) =>
      if !pc.MustExecute? then Quiet(st, pc) else Effect(st, AdapterSaid(pc.claim, answer), 1, [])
    case CallGetStatus(_, answer) =>
      if !pc.Working? || pc.claim.execution.status != StatusExecuting || !pc.claim.submissionStarted then Quiet(st, pc)
      else Quiet(st, AdapterSaid(pc.claim, answer))
    case PersistAlreadyStarted(_, clock, now) =>
      if !pc.AlreadyStarted? then Quiet(st, pc)
      else Quiet(Persist(st, pc.claim, RequireRecovery(pc.claim.execution, "SUBMISSION_ALREADY_STARTED", now), clock),
                 Finished(pc.claim))
    case PersistAnswer(_, clock, now) =>
      if !pc.AdapterSaid? then Quiet(st, pc)
      else Quiet(PersistObservation(st, pc.claim, AnswerWrite(pc.claim.execution, pc.adapterAnswer, now), clock),
                 Finished(pc.claim))
    case ReadReference(_) =>
      if !pc.Working? || !(pc.claim.execution.status in {StatusConfirming, StatusConfirmed}) then Quiet(st, pc)
      else if !Readable(st.evidence) || LatestReference(st.evidence) == "" then Quiet(st, Finished(pc.claim))
      else Quiet(st, Verifying(pc.claim, LatestReference(st.evidence)))
    case CallVerify(_, answer) =>
      if !pc.Verifying? then Quiet(st, pc)
      else Effect(st, VerifierSaid(pc.claim, pc.reference, answer), 0, [Verdict(pc.reference, answer)])
    case PersistVerdict(_, clock, now) =>
      if !pc.VerifierSaid? then Quiet(st, pc)
      else Conclude(st, pc.claim, VerdictStepOf(pc.claim.execution, pc.reference, pc.verifierAnswer, now), clock)
    case PersistProof(_, clock, now) =>
      if !pc.Proving? then Quiet(st, pc)
      else Quiet(PersistEvidence(st, pc.claim, ProofWrite(pc.claim.execution, pc.result, now), clock),
                 Finished(pc.claim))
    case CheckEvidence(_) =>
      if !pc.Working? || pc.claim.execution.status != StatusVerified then Quiet(st, pc)
      else Quiet(st, if Readable(st.evidence) && HasVerified(st.evidence, pc.claim.execution.revision)
                     then EvidenceSeen(pc.claim) else Finished(pc.claim))
    case Complete(_, clock, now) =>
      if !pc.EvidenceSeen? then Quiet(st, pc)
      else Quiet(Persist(st, pc.claim, Transition(pc.claim.execution, StatusCompleted, now), clock), Finished(pc.claim))
    case Release(_, nextRunAt) =>
      if !pc.Finished? then Quiet(st, pc) else Quiet(Released(st, pc.claim, nextRunAt), Idle)
    case Stop(_) => Quiet(st, Idle)
  }

  function After(w: World, p: ProcessId, effect: Effect): World {
    World(effect.store, w.processes[p := effect.pc], w.executes + effect.executes, w.verdicts + effect.heard)
  }

  function Next(w: World, a: Action): World { After(w, a.p, Do(w.store, w.At(a.p), a)) }

  /** States in which a visit calls the adapter, the verifier or the evidence reader first. */
  const CALLING: set<Status> := {StatusExecuting, StatusConfirming, StatusConfirmed, StatusVerified}

  function Run(w: World, actions: seq<Action>): World
    decreases |actions|
  {
    if actions == [] then w else Run(Next(w, actions[0]), actions[1..])
  }

  lemma {:induction false} RunThen(w: World, actions: seq<Action>, a: Action)
    ensures Run(w, actions + [a]) == Next(Run(w, actions), a)
    decreases |actions|
  {
    if actions == [] {
      assert (actions + [a])[1..] == [];
    } else {
      assert (actions + [a])[1..] == actions[1..] + [a];
      RunThen(Next(w, actions[0]), actions[1..], a);
    }
  }

  /** A created execution that no process has touched. */
  predicate Initial(w: World) {
    && Valid(w.store.row) && w.store.row.status == StatusCreated
    && !w.store.started && w.store.evidence == []
    && w.processes == map[] && w.executes == 0 && w.verdicts == []
  }

  // ---------------------------------------------------------------- what the writes compute

  /** Rows the service produces: recovery never aims past CONFIRMED. */
  predicate ServiceRow(e: Execution) {
    && Valid(e)
    && (e.status == StatusRecoveryRequired ==> e.recovery.target != StatusVerified)
    && (e.status == StatusFailed && e.failure.eligibility == Recoverable ==>
          e.failure.recoveryTarget == StatusExecuting)
  }

  /** One lifecycle change that a row may take. */
  predicate Advances(value: Execution, next: Execution) {
    ServiceRow(next) && next.revision == value.revision + 1 && Progress(next) >= Progress(value)
    && next.request == value.request
  }

  lemma AttemptAdvances(value: Execution, event: Event)
    requires Valid(value) && Attempt(value, event).Some? && Attempt(value, event).value != value
    requires ServiceRow(Attempt(value, event).value)
    ensures Advances(value, Attempt(value, event).value)
  {
    ApplyKeepsProgress(value, event);
  }

  lemma PlainStepAdvances(value: Execution, now: Time)
    requires ServiceRow(value) && value.status !in CALLING && PlainStep(value, now).Some?
    ensures var next := PlainStep(value, now).value;
            Advances(value, next) && next.status != StatusVerified && next.status != StatusCompleted
  {
    match value.status
    case StatusCreated => AttemptAdvances(value, Move(StatusAuthorized, now));
    case StatusAuthorized => AttemptAdvances(value, Move(StatusQueued, now));
    case StatusQueued => AttemptAdvances(value, Move(StatusExecuting, now));
    case StatusSubmitted => AttemptAdvances(value, Move(StatusConfirming, now));
    case StatusFailed => AttemptAdvances(value, StartRecovery(now));
    case StatusRecoveryRequired => AttemptAdvances(value, EndRecovery(now));
    case _ =>
  }

  predicate Observes(value: Execution, w: Write) {
    && Advances(value, w.next)
    && w.next.status in {StatusSubmitted, StatusConfirming, StatusFailed, StatusRecoveryRequired}
    && ValidResult(w.observation) && w.observation.status == w.next.status
    && w.observation.executionVersion == w.next.revision
  }

  lemma FailedObserves(value: Execution, failure: Failure, reference: string, observedAt: Time, now: Time)
    requires ServiceRow(value) && value.status != StatusFailed
    requires failure.eligibility == Recoverable ==> failure.recoveryTarget == StatusExecuting
    requires Failed(value, failure, reference, observedAt, now).Some?
    ensures Observes(value, Failed(value, failure, reference, observedAt, now).value)
  {
    AttemptAdvances(value, Break(failure, now));
  }

  lemma InDoubtObserves(value: Execution, reason: string, reference: string, observedAt: Time, now: Time)
    requires ServiceRow(value) && value.status != StatusVerified && value.status != StatusRecoveryRequired
    requires InDoubt(value, reason, reference, observedAt, now).Some?
    ensures Observes(value, InDoubt(value, reason, reference, observedAt, now).value)
  {
    AttemptAdvances(value, Doubt(reason, now));
  }

  lemma MovedObserves(value: Execution, status: Status, result: Result, now: Time)
    requires ServiceRow(value) && value.status == StatusExecuting
    requires status == StatusSubmitted || status == StatusConfirming
    requires Moved(value, status, result, now).Some?
    ensures Observes(value, Moved(value, status, result, now).value)
  {
    AttemptAdvances(value, Move(status, now));
  }

  /** Whatever the adapter answers, the row it leads to is not VERIFIED. */
  lemma AnswerObserves(value: Execution, answer: AdapterAnswer, now: Time)
    requires ServiceRow(value) && value.status == StatusExecuting && AnswerWrite(value, answer, now).Some?
    ensures Observes(value, AnswerWrite(value, answer, now).value)
  {
    match answer
    case Rejected(permanent, reason) =>
      FailedObserves(value, if permanent then Failure(reason, Terminal, StatusUnset)
                            else Failure(reason, Recoverable, StatusExecuting), "", now, now);
    case NoAnswer => InDoubtObserves(value, "SUBMISSION_OUTCOME_AMBIGUOUS", "", now, now);
    case Observed(result) =>
      match result.status
      case StatusSubmitted => MovedObserves(value, StatusSubmitted, result, now);
      case StatusConfirming | StatusConfirmed => MovedObserves(value, StatusConfirming, result, now);
      case StatusFailed =>
        FailedObserves(value, Failure(result.errorCode, Terminal, StatusUnset), result.adapterReference,
                       result.observedAt, now);
      case StatusRecoveryRequired =>
        InDoubtObserves(value, result.errorCode, result.adapterReference, result.observedAt, now);
      case _ =>
  }

  predicate Proves(value: Execution, result: VerificationResult, w: Write) {
    && Advances(value, w.next) && w.next.status == StatusVerified
    && ValidResult(w.observation) && w.observation.status == StatusVerified
    && w.observation.executionVersion == w.next.revision
    && w.observation.adapterReference == Trim(result.reference)
  }

  lemma ProofProves(value: Execution, result: VerificationResult, now: Time)
    requires ServiceRow(value) && value.status == StatusConfirmed && ProofWrite(value, result, now).Some?
    ensures Proves(value, result, ProofWrite(value, result, now).value)
  {
    AttemptAdvances(value, Move(StatusVerified, now));
  }

  /** What verify may do next, whatever the verifier answers. */
  predicate VerdictFits(value: Execution, answer: VerifierAnswer, step: VerdictStep) {
    match step
    case Nothing => true
    case UpdateRow(next) => Advances(value, next) && next.status == StatusRecoveryRequired
    case AppendPending(r) => ValidResult(r) && r.status == value.status
    case Observe(w) => Observes(value, w)
    case ConfirmFirst(next, result) =>
      Advances(value, next) && next.status == StatusConfirmed
      && answer == Answered(result) && result.outcome == VerifiedOutcome
    case Prove(w) => answer.Answered? && answer.result.outcome == VerifiedOutcome && Proves(value, answer.result, w)
  }

  lemma VerdictStepFits(value: Execution, reference: string, answer: VerifierAnswer, now: Time)
    requires ServiceRow(value) && value.status in {StatusConfirming, StatusConfirmed}
    ensures VerdictFits(value, answer, VerdictStepOf(value, reference, answer, now))
  {
    var step := VerdictStepOf(value, reference, answer, now);
    match step
    case Nothing =>
    case UpdateRow(next) => AttemptAdvances(value, Doubt("VERIFICATION_OUTCOME_AMBIGUOUS", now));
    case AppendPending(r) =>
    case Observe(w) =>
      FailedObserves(value, Failure(answer.result.reasonCode, Terminal, StatusUnset), "", answer.result.observedAt,
                     now);
    case ConfirmFirst(next, result) => AttemptAdvances(value, Move(StatusConfirmed, now));
    case Prove(w) => ProofProves(value, answer.result, now);
  }

  // ---------------------------------------------------------------- invariants

  predicate HasClaim(pc: Pc) { !pc.Idle? && !pc.Leased? }

  /** A snapshot is never ahead of the row, and at the same revision it is the row. */
  predicate ClaimFits(row: Execution, pc: Pc) {
    HasClaim(pc) ==>
      var e := pc.claim.execution;
      ServiceRow(e) && e.revision <= row.revision && (e.revision == row.revision ==> e == row)
  }

  /** What the calls of the visit so far have established. */
  predicate VisitFits(evidence: seq<Result>, verdicts: seq<Verdict>, pc: Pc) {
    match pc
    case MustExecute(claim) => claim.execution.status == StatusExecuting
    case AlreadyStarted(claim) => claim.execution.status == StatusExecuting
    case AdapterSaid(claim, _) => claim.execution.status == StatusExecuting
    case Verifying(claim, _) => claim.execution.status in {StatusConfirming, StatusConfirmed}
    case VerifierSaid(claim, reference, answer) =>
      claim.execution.status in {StatusConfirming, StatusConfirmed} && Verdict(reference, answer) in verdicts
    case Proving(claim, result) =>
      claim.execution.status == StatusConfirmed && result.outcome == VerifiedOutcome && Heard(verdicts, result)
    case EvidenceSeen(claim) =>
      claim.execution.status == StatusVerified && HasVerified(evidence, claim.execution.revision)
    case _ => true
  }

  predicate Heard(verdicts: seq<Verdict>, result: VerificationResult) {
    exists v | v in verdicts :: v.answer == Answered(result)
  }

  predicate RowProved(st: Store) {
    && (st.row.status == StatusVerified ==> HasVerified(st.evidence, st.row.revision))
    && (st.row.status == StatusCompleted ==> HasVerified(st.evidence, st.row.revision - 1))
  }

  predicate VerifiedBy(verdicts: seq<Verdict>, reference: string) {
    exists v | v in verdicts ::
      && v.answer.Answered? && v.answer.result.outcome == VerifiedOutcome
      && Trim(v.answer.result.reference) == reference
  }

  /** Every VERIFIED evidence row was produced by a verifier answer VERIFIED, with its reference. */
  predicate EvidenceHeard(evidence: seq<Result>, verdicts: seq<Verdict>) {
    forall e | e in evidence && e.status == StatusVerified :: VerifiedBy(verdicts, e.adapterReference)
  }

  /** Past the point where the visit has read the evidence. */
  predicate HasRead(pc: Pc) { pc.Verifying? || pc.VerifierSaid? || pc.Proving? || pc.EvidenceSeen? }

  /** Once an evidence row cannot be read back, every visit that read earlier is outdated. */
  predicate Outdated(st: Store, pc: Pc) {
    !Readable(st.evidence) && HasRead(pc) ==> pc.claim.execution.revision < st.row.revision
  }

  /** The evidence rows that cannot be read back are exactly the failure and recovery ones. */
  predicate EvidenceShaped(evidence: seq<Result>) {
    forall e | e in evidence :: ValidResult(e) <==> e.status != StatusFailed && e.status != StatusRecoveryRequired
  }

  predicate StoreFits(st: Store, verdicts: seq<Verdict>) {
    && ServiceRow(st.row) && RowProved(st) && EvidenceHeard(st.evidence, verdicts) && EvidenceShaped(st.evidence)
    && (!Readable(st.evidence) ==> st.row.status != StatusVerified && st.row.status != StatusCompleted)
  }

  predicate ProcessFits(st: Store, verdicts: seq<Verdict>, pc: Pc) {
    ClaimFits(st.row, pc) && VisitFits(st.evidence, verdicts, pc) && Outdated(st, pc)
  }

  ghost predicate Submission(w: World) {
    && w.executes <= 1
    && (w.executes == 1 ==> w.store.started)
    && (forall p: ProcessId | w.At(p).MustExecute? :: w.store.started && w.executes == 0)
    && (forall p: ProcessId, q: ProcessId | w.At(p).MustExecute? && w.At(q).MustExecute? :: p == q)
  }

  ghost predicate Inv(w: World) {
    && StoreFits(w.store, w.verdicts)
    && (forall p: ProcessId :: ProcessFits(w.store, w.verdicts, w.At(p)))
    && Submission(w)
  }

  // ---------------------------------------------------------------- one step, seen locally

  /** Everything later proofs use about a step's effect on the store. */
  predicate StoreMoves(st: Store, st': Store, verdicts: seq<Verdict>) {
    && (st'.row == st.row || Advances(st.row, st'.row))
    && (st'.row != st.row && st'.row.status == StatusCompleted ==> st.row.status == StatusVerified)
    && (forall e | e in st.evidence :: e in st'.evidence)
    && (st'.row == st.row ==> Readable(st.evidence) ==> Readable(st'.evidence))
    && StoreFits(st', verdicts)
  }

  lemma InsertedKeeps(evidence: seq<Result>, r: Result, revision: int)
    ensures HasVerified(evidence, revision) ==> HasVerified(Inserted(evidence, r), revision)
    ensures r.status == StatusVerified && r.executionVersion == revision ==> HasVerified(Inserted(evidence, r),
                                                                                         revision)
    ensures !Readable(evidence) ==> !Readable(Inserted(evidence, r))
  {
    if HasVerified(evidence, revision) {
      var e :| e in evidence && e.status == StatusVerified && e.executionVersion == revision;
      assert e in Inserted(evidence, r);
    }
    assert r in Inserted(evidence, r);
    if !Readable(evidence) {
      var e :| e in evidence && !ValidResult(e);
      assert e in Inserted(evidence, r);
    }
  }

  lemma PersistMoves(st: Store, claim: Claim, next: Option<Execution>, clock: Time, verdicts: seq<Verdict>)
    requires StoreFits(st, verdicts) && ClaimFits(st.row, Finished(claim))
    requires next.Some? ==> Advances(claim.execution, next.value) && next.value.status != StatusVerified
    requires next.Some? && next.value.status == StatusCompleted ==>
               claim.execution.status == StatusVerified && HasVerified(st.evidence, claim.execution.revision)
               && (!Readable(st.evidence) ==> claim.execution.revision < st.row.revision)
    ensures StoreMoves(st, Persist(st, claim, next, clock), verdicts)
  {
  }

  lemma PersistObservationMoves(st: Store, claim: Claim, write: Option<Write>, clock: Time, verdicts: seq<Verdict>)
    requires StoreFits(st, verdicts) && ClaimFits(st.row, Finished(claim))
    requires write.Some? ==> Observes(claim.execution, write.value)
    ensures StoreMoves(st, PersistObservation(st, claim, write, clock), verdicts)
  {
    if write.Some? {
      InsertedKeeps(st.evidence, write.value.observation.(errorCode := ""), 0);
    }
  }

  lemma PersistEvidenceMoves(
    st: Store, claim: Claim, result: VerificationResult, write: Option<Write>, clock: Time, verdicts: seq<Verdict>)
    requires StoreFits(st, verdicts) && ClaimFits(st.row, Finished(claim))
    requires !Readable(st.evidence) ==> claim.execution.revision < st.row.revision
    requires write.Some? ==> Proves(claim.execution, result, write.value) && VerifiedBy(verdicts,
                                                                                        Trim(result.reference))
    ensures StoreMoves(st, PersistEvidence(st, claim, write, clock), verdicts)
  {
    if write.Some? {
      InsertedKeeps(st.evidence, write.value.observation, write.value.next.revision);
    }
  }

  lemma AppendedMoves(st: Store, r: Result, verdicts: seq<Verdict>)
    requires StoreFits(st, verdicts)
    requires ValidResult(r) && r.status in {StatusConfirming, StatusConfirmed}
    ensures StoreMoves(st, Appended(st, r), verdicts) && Appended(st, r).row == st.row
  {
    InsertedKeeps(st.evidence, r, st.row.revision);
    InsertedKeeps(st.evidence, r, st.row.revision - 1);
  }

  predicate EffectFits(st: Store, verdicts: seq<Verdict>, pc: Pc, effect: Effect) {
    && StoreMoves(st, effect.store, verdicts + effect.heard)
    && ProcessFits(effect.store, verdicts + effect.heard, effect.pc)
    && (st.started ==> effect.store.started)
    && effect.executes <= 1
    && (effect.executes == 1 ==> pc.MustExecute? && !effect.pc.MustExecute?)
    && (effect.pc.MustExecute? && !pc.MustExecute? ==> !st.started && effect.store.started)
  }

  lemma MoreVerdicts(st: Store, verdicts: seq<Verdict>, heard: seq<Verdict>, pc: Pc)
    requires StoreFits(st, verdicts) && ProcessFits(st, verdicts, pc)
    ensures StoreFits(st, verdicts + heard) && ProcessFits(st, verdicts + heard, pc)
  {
    forall e | e in st.evidence && e.status == StatusVerified ensures VerifiedBy(verdicts + heard, e.adapterReference) {
      var v :| v in verdicts && v.answer.Answered? && v.answer.result.outcome == VerifiedOutcome
        && Trim(v.answer.result.reference) == e.adapterReference;
      assert v in verdicts + heard;
    }
    if pc.Proving? {
      var v :| v in verdicts && v.answer == Answered(pc.result);
      assert v in verdicts + heard;
    }
  }

  /** A process that did not step still fits after another one did. */
  lemma OtherStillFits(st: Store, st': Store, verdicts: seq<Verdict>, heard: seq<Verdict>, pc: Pc)
    requires StoreFits(st, verdicts) && ProcessFits(st, verdicts, pc) && StoreMoves(st, st', verdicts + heard)
    ensures ProcessFits(st', verdicts + heard, pc)
  {
    MoreVerdicts(st, verdicts, heard, pc);
    if pc.EvidenceSeen? {
      var e :| e in st.evidence && e.status == StatusVerified && e.executionVersion == pc.claim.execution.revision;
      assert e in st'.evidence;
    }
  }

  /** A visit that ends with one write. */
  lemma FinishFits(st: Store, st': Store, verdicts: seq<Verdict>, pc: Pc)
    requires HasClaim(pc) && ClaimFits(st.row, pc) && StoreMoves(st, st', verdicts) && st'.started == st.started
    ensures EffectFits(st, verdicts, pc, Quiet(st', Finished(pc.claim)))
  {
    assert verdicts + [] == verdicts;
  }

  /** A step that changes neither row nor evidence. */
  lemma SameRowsFit(st: Store, st': Store, verdicts: seq<Verdict>, pc: Pc, pc': Pc)
    requires StoreFits(st, verdicts) && ProcessFits(st, verdicts, pc')
    requires st'.row == st.row && st'.evidence == st.evidence && (st.started ==> st'.started)
    requires pc'.MustExecute? && !pc.MustExecute? ==> !st.started && st'.started
    ensures EffectFits(st, verdicts, pc, Quiet(st', pc'))
  {
    assert verdicts + [] == verdicts;
  }

  lemma ConfirmFits(st: Store, verdicts: seq<Verdict>, pc: Pc, next: Execution, result: VerificationResult, clock: Time)
    requires StoreFits(st, verdicts) && ProcessFits(st, verdicts, pc) && pc.VerifierSaid?
    requires VerdictFits(pc.claim.execution, pc.verifierAnswer, ConfirmFirst(next, result))
    ensures EffectFits(st, verdicts, pc, Conclude(st, pc.claim, ConfirmFirst(next, result), clock))
  {
    PersistMoves(st, pc.claim, Some(next), clock, verdicts);
    SameRowsFit(st, st, verdicts, pc, Finished(pc.claim));
    assert verdicts + [] == verdicts;
    assert Verdict(pc.reference, pc.verifierAnswer) in verdicts;
  }

  lemma ConcludeFits(st: Store, verdicts: seq<Verdict>, pc: Pc, step: VerdictStep, clock: Time)
    requires StoreFits(st, verdicts) && ProcessFits(st, verdicts, pc) && pc.VerifierSaid?
    requires VerdictFits(pc.claim.execution, pc.verifierAnswer, step)
    ensures EffectFits(st, verdicts, pc, Conclude(st, pc.claim, step, clock))
  {
    hide RowProved, EvidenceHeard, EvidenceShaped, ServiceRow;
    var claim, answer := pc.claim, pc.verifierAnswer;
    match step
    case Nothing => SameRowsFit(st, st, verdicts, pc, Finished(claim));
    case UpdateRow(next) =>
      PersistMoves(st, claim, Some(next), clock, verdicts);
      FinishFits(st, Persist(st, claim, Some(next), clock), verdicts, pc);
    case AppendPending(r) =>
      AppendedMoves(st, r, verdicts);
      FinishFits(st, Appended(st, r), verdicts, pc);
    case Observe(write) =>
      PersistObservationMoves(st, claim, Some(write), clock, verdicts);
      FinishFits(st, PersistObservation(st, claim, Some(write), clock), verdicts, pc);
    case ConfirmFirst(next, result) => ConfirmFits(st, verdicts, pc, next, result, clock);
    case Prove(write) => ProveFits(st, verdicts, pc, write, clock);
  }

  lemma ProveFits(st: Store, verdicts: seq<Verdict>, pc: Pc, write: Write, clock: Time)
    requires StoreFits(st, verdicts) && ProcessFits(st, verdicts, pc) && pc.VerifierSaid?
    requires VerdictFits(pc.claim.execution, pc.verifierAnswer, Prove(write))
    ensures EffectFits(st, verdicts, pc, Conclude(st, pc.claim, Prove(write), clock))
  {
    assert Verdict(pc.reference, pc.verifierAnswer) in verdicts;
    PersistEvidenceMoves(st, pc.claim, pc.verifierAnswer.result, Some(write), clock, verdicts);
    FinishFits(st, PersistEvidence(st, pc.claim, Some(write), clock), verdicts, pc);
  }

  lemma ProofFits(st: Store, verdicts: seq<Verdict>, pc: Pc, clock: Time, now: Time)
    requires StoreFits(st, verdicts) && ProcessFits(st, verdicts, pc) && pc.Proving?
    ensures var write := ProofWrite(pc.claim.execution, pc.result, now);
            EffectFits(st, verdicts, pc, Quiet(PersistEvidence(st, pc.claim, write, clock), Finished(pc.claim)))
  {
    var write := ProofWrite(pc.claim.execution, pc.result, now);
    if write.Some? {
      ProofProves(pc.claim.execution, pc.result, now);
    }
    var v :| v in verdicts && v.answer == Answered(pc.result);
    PersistEvidenceMoves(st, pc.claim, pc.result, write, clock, verdicts);
    FinishFits(st, PersistEvidence(st, pc.claim, write, clock), verdicts, pc);
  }

  lemma WriteFits(st: Store, verdicts: seq<Verdict>, pc: Pc, next: Option<Execution>, clock: Time)
    requires StoreFits(st, verdicts) && ProcessFits(st, verdicts, pc) && HasClaim(pc)
    requires next.Some? ==> Advances(pc.claim.execution, next.value) && next.value.status != StatusVerified
    requires next.Some? && next.value.status == StatusCompleted ==> pc.EvidenceSeen?
    ensures EffectFits(st, verdicts, pc, Quiet(Persist(st, pc.claim, next, clock), Finished(pc.claim)))
  {
    PersistMoves(st, pc.claim, next, clock, verdicts);
    FinishFits(st, Persist(st, pc.claim, next, clock), verdicts, pc);
  }

  lemma AnswerFits(st: Store, verdicts: seq<Verdict>, pc: Pc, clock: Time, now: Time)
    requires StoreFits(st, verdicts) && ProcessFits(st, verdicts, pc) && pc.AdapterSaid?
    ensures var write := AnswerWrite(pc.claim.execution, pc.adapterAnswer, now);
            EffectFits(st, verdicts, pc, Quiet(PersistObservation(st, pc.claim, write, clock), Finished(pc.claim)))
  {
    var write := AnswerWrite(pc.claim.execution, pc.adapterAnswer, now);
    if write.Some? {
      AnswerObserves(pc.claim.execution, pc.adapterAnswer, now);
    }
    PersistObservationMoves(st, pc.claim, write, clock, verdicts);
    FinishFits(st, PersistObservation(st, pc.claim, write, clock), verdicts, pc);
  }

  lemma LeaseFits(st: Store, verdicts: seq<Verdict>, pc: Pc, a: Action)
    requires StoreFits(st, verdicts) && ProcessFits(st, verdicts, pc) && (a.TakeLease? || a.Release? || a.Stop?)
    ensures EffectFits(st, verdicts, pc, Do(st, pc, a))
  {
    var effect := Do(st, pc, a);
    SameRowsFit(st, effect.store, verdicts, pc, effect.pc);
  }

  lemma ClaimStepFits(st: Store, verdicts: seq<Verdict>, pc: Pc, a: Action)
    requires StoreFits(st, verdicts) && ProcessFits(st, verdicts, pc) && (a.LoadRow? || a.CheckClaim?)
    ensures EffectFits(st, verdicts, pc, Do(st, pc, a))
  {
    var effect := Do(st, pc, a);
    SameRowsFit(st, effect.store, verdicts, pc, effect.pc);
  }

  lemma MarkFits(st: Store, verdicts: seq<Verdict>, pc: Pc, a: Action)
    requires StoreFits(st, verdicts) && ProcessFits(st, verdicts, pc) && (a.MarkSubmission?)
    ensures EffectFits(st, verdicts, pc, Do(st, pc, a))
  {
    var effect := Do(st, pc, a);
    SameRowsFit(st, effect.store, verdicts, pc, effect.pc);
  }

  lemma CallFits(st: Store, verdicts: seq<Verdict>, pc: Pc, a: Action)
    requires StoreFits(st, verdicts) && ProcessFits(st, verdicts, pc) && (a.CallExecute? || a.CallGetStatus?)
    ensures EffectFits(st, verdicts, pc, Do(st, pc, a))
  {
    var effect := Do(st, pc, a);
    SameRowsFit(st, effect.store, verdicts, pc, effect.pc);
  }

  lemma ReadReferenceFits(st: Store, verdicts: seq<Verdict>, pc: Pc, a: Action)
    requires StoreFits(st, verdicts) && ProcessFits(st, verdicts, pc) && (a.ReadReference?)
    ensures EffectFits(st, verdicts, pc, Do(st, pc, a))
  {
    var effect := Do(st, pc, a);
    SameRowsFit(st, effect.store, verdicts, pc, effect.pc);
  }

  lemma CheckEvidenceFits(st: Store, verdicts: seq<Verdict>, pc: Pc, a: Action)
    requires StoreFits(st, verdicts) && ProcessFits(st, verdicts, pc) && (a.CheckEvidence?)
    ensures EffectFits(st, verdicts, pc, Do(st, pc, a))
  {
    var effect := Do(st, pc, a);
    SameRowsFit(st, effect.store, verdicts, pc, effect.pc);
  }

  lemma QuietFits(st: Store, verdicts: seq<Verdict>, pc: Pc)
    requires StoreFits(st, verdicts) && ProcessFits(st, verdicts, pc)
    ensures EffectFits(st, verdicts, pc, Quiet(st, pc))
  {
    assert verdicts + [] == verdicts;
  }

  lemma StepFits(st: Store, verdicts: seq<Verdict>, pc: Pc, a: Action)
    requires StoreFits(st, verdicts) && ProcessFits(st, verdicts, pc)
    ensures EffectFits(st, verdicts, pc, Do(st, pc, a))
  {
    hide RowProved, EvidenceHeard, EvidenceShaped, Readable, ServiceRow, Advances;
    QuietFits(st, verdicts, pc);
    match a
    case PersistStep(_, clock, now) =>
      if pc.Working? && pc.claim.execution.status !in CALLING {
        var next := PlainStep(pc.claim.execution, now);
        if next.Some? {
          PlainStepAdvances(pc.claim.execution, now);
        }
        WriteFits(st, verdicts, pc, next, clock);
      }
    case PersistAlreadyStarted(_, clock, now) =>
      if pc.AlreadyStarted? {
        var next := RequireRecovery(pc.claim.execution, "SUBMISSION_ALREADY_STARTED", now);
        if next.Some? {
          AttemptAdvances(pc.claim.execution, Doubt("SUBMISSION_ALREADY_STARTED", now));
        }
        WriteFits(st, verdicts, pc, next, clock);
      }
    case PersistAnswer(_, clock, now) => if pc.AdapterSaid? { AnswerFits(st, verdicts, pc, clock, now); }
    case CallVerify(_, answer) =>
      if pc.Verifying? {
        var heard := [Verdict(pc.reference, answer)];
        MoreVerdicts(st, verdicts, heard, pc);
        assert heard[0] in verdicts + heard;
      }
    case PersistVerdict(_, clock, now) =>
      if pc.VerifierSaid? {
        VerdictStepFits(pc.claim.execution, pc.reference, pc.verifierAnswer, now);
        ConcludeFits(st, verdicts, pc, VerdictStepOf(pc.claim.execution, pc.reference, pc.verifierAnswer, now), clock);
      }
    case PersistProof(_, clock, now) => if pc.Proving? { ProofFits(st, verdicts, pc, clock, now); }
    case Complete(_, clock, now) =>
      if pc.EvidenceSeen? {
        var next := Transition(pc.claim.execution, StatusCompleted, now);
        if next.Some? {
          AttemptAdvances(pc.claim.execution, Move(StatusCompleted, now));
        }
        WriteFits(st, verdicts, pc, next, clock);
      }
    case LoadRow(_) => ClaimStepFits(st, verdicts, pc, a);
    case CheckClaim(_, _) => ClaimStepFits(st, verdicts, pc, a);
    case MarkSubmission(_, _) => MarkFits(st, verdicts, pc, a);
    case CallExecute(_, _) => CallFits(st, verdicts, pc, a);
    case CallGetStatus(_, _) => CallFits(st, verdicts, pc, a);
    case ReadReference(_) => ReadReferenceFits(st, verdicts, pc, a);
    case CheckEvidence(_) => CheckEvidenceFits(st, verdicts, pc, a);
    case _ => LeaseFits(st, verdicts, pc, a);
  }

  // ---------------------------------------------------------------- one step, seen globally

  lemma AfterFits(w: World, p: ProcessId, effect: Effect)
    requires Inv(w) && EffectFits(w.store, w.verdicts, w.At(p), effect)
    ensures Inv(After(w, p, effect))
  {
    var w' := After(w, p, effect);
    forall q: ProcessId ensures ProcessFits(w'.store, w'.verdicts, w'.At(q)) {
      if q != p {
        assert w'.At(q) == w.At(q);
        OtherStillFits(w.store, effect.store, w.verdicts, effect.heard, w.At(q));
      }
    }
    assert forall q: ProcessId | q != p :: w'.At(q) == w.At(q);
    assert w'.At(p) == effect.pc;
  }

  lemma NextFits(w: World, a: Action)
    requires Inv(w)
    ensures Inv(Next(w, a))
  {
    StepFits(w.store, w.verdicts, w.At(a.p), a);
    AfterFits(w, a.p, Do(w.store, w.At(a.p), a));
  }

  lemma InitialFits(w: World)
    requires Initial(w)
    ensures Inv(w)
  {
  }

  lemma {:induction false} RunFits(w: World, actions: seq<Action>)
    requires Inv(w)
    ensures Inv(Run(w, actions))
    decreases |actions|
  {
    if actions != [] {
      NextFits(w, actions[0]);
      RunFits(Next(w, actions[0]), actions[1..]);
    }
  }

  // ---------------------------------------------------------------- every run

  /** However any number of processes interleave, stop and lose their leases, the adapter's
      Execute is called at most once, and only after the durable marker was set. */
  lemma ExecutesAtMostOnce(w: World, actions: seq<Action>)
    requires Initial(w)
    ensures Run(w, actions).executes <= 1
    ensures Run(w, actions).executes == 1 ==> Run(w, actions).store.started
  {
    InitialFits(w);
    RunFits(w, actions);
  }

  /** The lease token a process works under, if any. */
  function TokenOf(pc: Pc): nat { if pc.Idle? then 0 else if pc.Leased? then pc.token else pc.claim.token }

  /** What the process knows about the marker. */
  predicate KnowsStarted(pc: Pc) {
    if pc.Idle? then false else if pc.Leased? then pc.submissionStarted else pc.claim.submissionStarted
  }

  /** Whoever took a lease after `token` knows that submission started. */
  ghost predicate LaterClaimsKnow(w: World, token: nat) {
    && w.store.started && w.store.token >= token
    && forall p: ProcessId | TokenOf(w.At(p)) > token :: KnowsStarted(w.At(p))
  }

  lemma StepKnows(st: Store, pc: Pc, a: Action, token: nat)
    requires st.started && st.token >= token && (TokenOf(pc) > token ==> KnowsStarted(pc))
    ensures var effect := Do(st, pc, a);
            && effect.store.started && effect.store.token >= token
            && (TokenOf(effect.pc) > token ==> KnowsStarted(effect.pc))
            && (effect.pc.MustExecute? ==> pc.MustExecute?)
            && effect.executes <= 1 && (effect.executes == 1 ==> pc.MustExecute? && !effect.pc.MustExecute?)
  {
    hide PlainStep, AnswerWrite, VerdictStepOf, ProofWrite, Transition, RequireRecovery, Valid, ValidResult, IsNew,
         Inserted,
         Readable, HasVerified, LatestReference;
  }

  lemma {:induction false} RunKnows(w: World, more: seq<Action>, token: nat)
    requires LaterClaimsKnow(w, token)
    ensures var last := Run(w, more);
            && LaterClaimsKnow(last, token)
            && last.executes >= w.executes
            && (forall p: ProcessId | last.At(p).MustExecute? :: w.At(p).MustExecute?)
    decreases |more|
  {
    if more != [] {
      var a := more[0];
      StepKnows(w.store, w.At(a.p), a, token);
      var w' := Next(w, a);
      hide Do;
      assert forall q: ProcessId :: w'.At(q) == if q == a.p then Do(w.store, w.At(a.p), a).pc else w.At(q);
      RunKnows(w', more[1..], token);
    }
  }

  /** Once the marker is set, even if its process stops before calling Execute: every claim
      taken later carries the marker and so reconciles by GetStatus, only the process that
      set it may still call Execute, and once that call was made nobody may. */
  lemma AfterwardsOnlyReconciles(w: World, actions: seq<Action>, more: seq<Action>)
    requires Initial(w) && Run(w, actions).store.started
    ensures var mid, last := Run(w, actions), Run(Run(w, actions), more);
            && (forall p: ProcessId | TokenOf(last.At(p)) > mid.store.token :: KnowsStarted(last.At(p)))
            && (forall p: ProcessId | last.At(p).MustExecute? :: mid.At(p).MustExecute?)
            && (forall p: ProcessId, q: ProcessId | last.At(p).MustExecute? && last.At(q).MustExecute? :: p == q)
            && last.executes <= 1
            && (mid.executes == 1 ==> last.executes == 1 && forall p: ProcessId :: !last.At(p).MustExecute?)
  {
    InitialFits(w);
    RunFits(w, actions);
    RunTokens(w, actions);
    RunFits(Run(w, actions), more);
    hide Run, StoreFits, ProcessFits;
    RunKnows(Run(w, actions), more, Run(w, actions).store.token);
  }

  /** Tokens are handed out in order. */
  ghost predicate TokensFit(w: World) { forall p: ProcessId :: TokenOf(w.At(p)) <= w.store.token }

  lemma StepTokens(st: Store, pc: Pc, a: Action)
    requires TokenOf(pc) <= st.token
    ensures TokenOf(Do(st, pc, a).pc) <= Do(st, pc, a).store.token && st.token <= Do(st, pc, a).store.token
  {
    hide PlainStep, AnswerWrite, VerdictStepOf, ProofWrite, Transition, RequireRecovery, Valid, ValidResult, IsNew,
         Inserted,
         Readable, HasVerified, LatestReference;
  }

  lemma {:induction false} TokensStayFit(w: World, actions: seq<Action>)
    requires TokensFit(w)
    ensures TokensFit(Run(w, actions))
    decreases |actions|
  {
    if actions != [] {
      var a := actions[0];
      StepTokens(w.store, w.At(a.p), a);
      var w' := Next(w, a);
      hide Do;
      assert forall q: ProcessId :: w'.At(q) == if q == a.p then Do(w.store, w.At(a.p), a).pc else w.At(q);
      TokensStayFit(w', actions[1..]);
    }
  }

  lemma RunTokens(w: World, actions: seq<Action>)
    requires Initial(w)
    ensures TokensFit(Run(w, actions))
  {
    assert forall p: ProcessId :: w.At(p).Idle?;
    TokensStayFit(w, actions);
  }

  /** VERIFIED means evidence VERIFIED at exactly that revision, COMPLETED means it at the
      revision before; and each such evidence row repeats the reference of a verifier answer
      VERIFIED. Adapter answers and unfenced appends never produce one. */
  lemma VerifiedNeedsEvidence(w: World, actions: seq<Action>)
    requires Initial(w)
    ensures var last := Run(w, actions);
            && (last.store.row.status == StatusVerified ==> HasVerified(last.store.evidence, last.store.row.revision))
            && (last.store.row.status == StatusCompleted ==> HasVerified(last.store.evidence,
                                                                         last.store.row.revision - 1))
            && forall e | e in last.store.evidence && e.status == StatusVerified ::
                 VerifiedBy(last.verdicts, e.adapterReference)
  {
    InitialFits(w);
    RunFits(w, actions);
  }

  lemma CompletesOnlyFromVerified(w: World, actions: seq<Action>, a: Action)
    requires Initial(w)
    requires Run(w, actions).store.row.status != StatusCompleted
    requires Next(Run(w, actions), a).store.row.status == StatusCompleted
    ensures Run(w, actions).store.row.status == StatusVerified
    ensures HasVerified(Run(w, actions).store.evidence, Run(w, actions).store.row.revision)
  {
    InitialFits(w);
    RunFits(w, actions);
    var before := Run(w, actions);
    StepFits(before.store, before.verdicts, before.At(a.p), a);
  }

  /** Over every run the stored row only makes progress and keeps its identity. */
  lemma {:induction false} RunProgresses(w: World, actions: seq<Action>)
    requires Inv(w)
    ensures var last := Run(w, actions);
            && Progress(last.store.row) >= Progress(w.store.row)
            && last.store.row.revision >= w.store.row.revision
            && last.store.row.request == w.store.row.request
            && (forall e | e in w.store.evidence :: e in last.store.evidence)
    decreases |actions|
  {
    if actions != [] {
      StepFits(w.store, w.verdicts, w.At(actions[0].p), actions[0]);
      NextFits(w, actions[0]);
      RunProgresses(Next(w, actions[0]), actions[1..]);
    }
  }

  /** An observation of FAILED or RECOVERY_REQUIRED is stored without its error code, so it
      makes the evidence unreadable from then on. */
  lemma FailureObservationUnreadable(
    st: Store, claim: Claim, observation: Result, next: Execution, expected: uint64, clock: Time)
    requires ObservationWritten(st, claim, observation, next, expected, clock).Some?
    requires Readable(st.evidence)
    ensures var st' := ObservationWritten(st, claim, observation, next, expected, clock).value;
            Readable(st'.evidence)
            <==> observation.status != StatusFailed && observation.status != StatusRecoveryRequired
  {
    var stored := observation.(errorCode := "");
    assert stored in Inserted(st.evidence, stored);
  }

  /** Consequently a run that ever stores such an observation, even a recoverable one, is
      never VERIFIED or COMPLETED afterwards: reading evidence is possible exactly in the
      runs that stored none. */
  lemma RecoveryObservationsBlockVerification(w: World, actions: seq<Action>, more: seq<Action>)
    requires Initial(w)
    ensures var mid := Run(w, actions);
            Readable(mid.store.evidence)
            <==> forall e | e in mid.store.evidence :: e.status != StatusFailed && e.status != StatusRecoveryRequired
    ensures !Readable(Run(w, actions).store.evidence) ==>
              var last := Run(Run(w, actions), more);
              last.store.row.status != StatusVerified && last.store.row.status != StatusCompleted
  {
    InitialFits(w);
    RunFits(w, actions);
    var mid := Run(w, actions);
    RunFits(mid, more);
    if !Readable(mid.store.evidence) {
      RunProgresses(mid, more);
      var e :| e in mid.store.evidence && !ValidResult(e);
      assert e in Run(mid, more).store.evidence;
    }
  }
}
