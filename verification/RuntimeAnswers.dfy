/** What each answer of adapter and verifier leads to, and when it leads anywhere
    (internal/execution/runtime/service.go); who may write a row, and who holds a lease
    (internal/storage/postgres/runtime_repository.go). */
module RuntimeAnswers {
  import opened Text
  import opened Receipts
  import opened Lifecycle
  import opened ExecutionResults
  import opened RuntimeProtocol
  import opened RuntimeProgress

  // ---------------------------------------------------------------- rows an answer leads to

  predicate Same(value: Execution, next: Execution, now: Time) {
    && next.request == value.request && next.createdAt == value.createdAt && next.updatedAt == now
    && next.revision == value.revision + 1
  }

  predicate FailedFor(value: Execution, next: Execution, code: string, terminal: bool, now: Time) {
    && Same(value, next, now) && next.status == StatusFailed && next.failedFrom == value.status
    && next.failure.code == code && (IsTerminal(next) <==> terminal)
    && (!terminal ==> next.failure.recoveryTarget == StatusExecuting)
  }

  predicate InDoubtFor(value: Execution, next: Execution, reason: string, now: Time) {
    && Same(value, next, now) && next.status == StatusRecoveryRequired
    && next.recovery.reasonCode == reason && next.recovery.fromStatus == value.status
    && ValidRecoveryTarget(value.status, next.recovery.target)
  }

  /** The observation stored beside the row. */
  predicate Records(next: Execution, observation: Result, reference: string, code: string, at: Time) {
    && observation.executionID == Trim(next.request.executionID) && observation.executionVersion == next.revision
    && observation.status == next.status && observation.adapterReference == Trim(reference)
    && observation.errorCode == Trim(code) && observation.observedAt == at
  }

  /** What submitOrReconcile writes for each adapter answer. */
  predicate AnswerLeads(value: Execution, answer: AdapterAnswer, now: Time, w: Write) {
    match answer
    case Rejected(permanent, reason) =>
      FailedFor(value, w.next, reason, permanent, now) && Records(w.next, w.observation, "", reason, now)
    case NoAnswer =>
      && InDoubtFor(value, w.next, "SUBMISSION_OUTCOME_AMBIGUOUS", now)
      && Records(w.next, w.observation, "", "SUBMISSION_OUTCOME_AMBIGUOUS", now)
    case Observed(r) =>
      match r.status
      case StatusSubmitted =>
        && Same(value, w.next, now) && w.next.status == StatusSubmitted
        && Records(w.next, w.observation, r.adapterReference, "", r.observedAt)
      case StatusConfirming | StatusConfirmed =>
        && Same(value, w.next, now) && w.next.status == StatusConfirming
        && Records(w.next, w.observation, r.adapterReference, "", r.observedAt)
      case StatusFailed =>
        && FailedFor(value, w.next, r.errorCode, true, now)
        && Records(w.next, w.observation, r.adapterReference, r.errorCode, r.observedAt)
      case StatusRecoveryRequired =>
        && InDoubtFor(value, w.next, r.errorCode, now)
        && Records(w.next, w.observation, r.adapterReference, r.errorCode, r.observedAt)
      case _ => false
  }

  lemma AnswerLeadsTo(value: Execution, answer: AdapterAnswer, now: Time)
    requires ServiceRow(value) && value.status == StatusExecuting && AnswerWrite(value, answer, now).Some?
    ensures AnswerLeads(value, answer, now, AnswerWrite(value, answer, now).value)
  {
    hide ValidResult, ValidReasonCode, Trim;
  }

  /** Answers the service acts on. */
  predicate Actionable(value: Execution, answer: AdapterAnswer) {
    match answer
    case Rejected(_, reason) => ValidReasonCode(reason)
    case NoAnswer => true
    case Observed(r) =>
      && ValidResult(r) && r.executionID == value.request.executionID && r.executionVersion == value.request.version
      && r.status in {StatusSubmitted, StatusConfirming, StatusConfirmed, StatusFailed, StatusRecoveryRequired}
  }

  lemma ReasonIsTrimmed(reason: string)
    requires ValidReasonCode(reason)
    ensures Trim(reason) == reason
  {
  }

  lemma AmbiguousReasons()
    ensures ValidReasonCode("SUBMISSION_OUTCOME_AMBIGUOUS") && ValidReasonCode("VERIFICATION_OUTCOME_AMBIGUOUS")
    ensures ValidReasonCode("SUBMISSION_ALREADY_STARTED")
  {
  }

  lemma NewResultWorks(next: Execution, reference: string, code: string, at: Time)
    requires Named(next.request) && next.revision != 0 && at != 0
    requires reference != "" ==> IsBoundedText(reference, MAX_ADAPTER_REFERENCE_LENGTH)
    requires code != "" ==> ValidReasonCode(code)
    requires if next.status in {StatusFailed, StatusRecoveryRequired} then code != "" else reference != "" && code == ""
    requires next.status in {StatusSubmitted, StatusConfirming, StatusFailed, StatusRecoveryRequired, StatusVerified}
    ensures NewResult(next.request.executionID, next.revision, next.status, reference, code, at).Some?
  {
    assert Trim("") == "";
    if code != "" {
      ReasonIsTrimmed(code);
    }
    hide ValidReasonCode;
  }

  lemma FailsWhenCalled(value: Execution, failure: Failure, reference: string, observedAt: Time, now: Time)
    requires ServiceRow(value) && Named(value.request) && ValidTime(value, now) && observedAt != 0
    requires value.status in {StatusExecuting, StatusConfirming, StatusConfirmed}
    requires ValidFailure(failure, value.status)
    requires reference != "" ==> IsBoundedText(reference, MAX_ADAPTER_REFERENCE_LENGTH)
    ensures RuntimeProtocol.Failed(value, failure, reference, observedAt, now).Some?
  {
    hide IsBoundedText, ValidReasonCode;
    var next := Fail(value, failure, now).value;
    CodeIsText(failure.code);
    NewResultWorks(next, reference, failure.code, observedAt);
    hide NewResult;
  }

  lemma CodeIsText(code: string)
    requires ValidReasonCode(code)
    ensures code != ""
  {
  }

  lemma DoubtsWhenCalled(value: Execution, reason: string, reference: string, observedAt: Time, now: Time)
    requires ServiceRow(value) && Named(value.request) && ValidTime(value, now) && observedAt != 0
    requires value.status in {StatusExecuting, StatusConfirming, StatusConfirmed} && ValidReasonCode(reason)
    requires reference != "" ==> IsBoundedText(reference, MAX_ADAPTER_REFERENCE_LENGTH)
    ensures InDoubt(value, reason, reference, observedAt, now).Some?
  {
    hide IsBoundedText, ValidReasonCode;
    var next := RequireRecovery(value, reason, now).value;
    CodeIsText(reason);
    NewResultWorks(next, reference, reason, observedAt);
    hide NewResult;
  }

  lemma MovesWhenCalled(value: Execution, status: Status, result: Result, now: Time)
    requires ServiceRow(value) && Named(value.request) && ValidTime(value, now) && value.status == StatusExecuting
    requires status in {StatusSubmitted, StatusConfirming} && result.observedAt != 0
    requires IsBoundedText(result.adapterReference, MAX_ADAPTER_REFERENCE_LENGTH)
    ensures Moved(value, status, result, now).Some?
  {
    hide IsBoundedText;
    var next := Transition(value, status, now).value;
    assert result.adapterReference != "" by { TextIsNotEmpty(result.adapterReference); }
    NewResultWorks(next, result.adapterReference, "", result.observedAt);
    hide NewResult;
  }

  lemma TextIsNotEmpty(s: string)
    requires IsBoundedText(s, MAX_ADAPTER_REFERENCE_LENGTH)
    ensures s != ""
  {
  }

  /** Exactly the actionable answers are written, at any time the row admits a change. */
  lemma AnswersAreWritten(value: Execution, answer: AdapterAnswer, now: Time)
    requires ServiceRow(value) && Named(value.request) && value.status == StatusExecuting && ValidTime(value, now)
    ensures AnswerWrite(value, answer, now).Some? <==> Actionable(value, answer)
  {
    match answer
    case Rejected(permanent, reason) =>
      var failure := if permanent then Failure(reason, Terminal, StatusUnset)
                     else Failure(reason, Recoverable, StatusExecuting);
      if ValidReasonCode(reason) {
        FailsWhenCalled(value, failure, "", now, now);
      }
    case NoAnswer =>
      AmbiguousReasons();
      DoubtsWhenCalled(value, "SUBMISSION_OUTCOME_AMBIGUOUS", "", now, now);
    case Observed(r) =>
      hide IsBoundedText, ValidReasonCode, NewResult;
      if Actionable(value, answer) {
        match r.status
        case StatusSubmitted => MovesWhenCalled(value, StatusSubmitted, r, now);
        case StatusConfirming => MovesWhenCalled(value, StatusConfirming, r, now);
        case StatusConfirmed => MovesWhenCalled(value, StatusConfirming, r, now);
        case StatusFailed =>
          FailsWhenCalled(value, Failure(r.errorCode, Terminal, StatusUnset), r.adapterReference, r.observedAt, now);
        case StatusRecoveryRequired =>
          DoubtsWhenCalled(value, r.errorCode, r.adapterReference, r.observedAt, now);
        case _ =>
      }
  }

  // ---------------------------------------------------------------- what a verdict leads to

  /** A reference that can be stored, once trimmed. */
  predicate Storable(reference: string) { IsBoundedText(Trim(reference), MAX_ADAPTER_REFERENCE_LENGTH) }

  /** What verify does for each verifier answer, malformed ones included. */
  predicate VerdictLeads(value: Execution, reference: string, answer: VerifierAnswer, now: Time, step: VerdictStep) {
    match answer
    case Unavailable(_) => step == Nothing
    case Unclear => step.UpdateRow? && InDoubtFor(value, step.next, "VERIFICATION_OUTCOME_AMBIGUOUS", now)
    case Answered(r) =>
      match r.outcome
      case Pending =>
        if r.observedAt == 0 || r.reasonCode != "" || r.reference == reference || !Storable(r.reference)
        then step == Nothing
        else step.AppendPending? && Records(value, step.observation, r.reference, "", r.observedAt)
      case FailedOutcome =>
        if r.observedAt == 0 || !ValidReasonCode(r.reasonCode) then step == Nothing else
          && step.Observe? && FailedFor(value, step.write.next, r.reasonCode, true, now)
          && Records(step.write.next, step.write.observation, "", r.reasonCode, r.observedAt)
      case VerifiedOutcome =>
        if r.observedAt == 0 || r.reasonCode != "" || r.reference == "" then step == Nothing
        else if value.status == StatusConfirming then
          step.ConfirmFirst? && Same(value, step.next, now) && step.next.status == StatusConfirmed && step.result == r
        else if !Storable(r.reference) then step == Nothing
        else
          && step.Prove? && Same(value, step.write.next, now) && step.write.next.status == StatusVerified
          && Records(step.write.next, step.write.observation, r.reference, "", r.observedAt)
  }

  lemma VerdictLeadsTo(value: Execution, reference: string, answer: VerifierAnswer, now: Time)
    requires ServiceRow(value) && Named(value.request) && ValidTime(value, now)
    requires value.status in {StatusConfirming, StatusConfirmed}
    ensures VerdictLeads(value, reference, answer, now, VerdictStepOf(value, reference, answer, now))
  {
    match answer
    case Unavailable(_) =>
    case Unclear => AmbiguousReasons();
    case Answered(r) =>
      match r.outcome
      case Pending => PendingLeadsTo(value, reference, r, now);
      case FailedOutcome => FailureLeadsTo(value, reference, r, now);
      case VerifiedOutcome => ProofLeadsTo(value, reference, r, now);
  }

  lemma StoresIff(executionID: string, version: uint64, status: Status, reference: string, at: Time)
    requires IsBoundedText(Trim(executionID), MAX_TEXT_LENGTH) && version != 0
    requires status in {StatusConfirming, StatusConfirmed, StatusVerified}
    ensures NewResult(executionID, version, status, reference, "", at).Some? <==> at != 0 && Storable(reference)
  {
    assert Trim("") == "";
    if Storable(reference) {
      TextIsNotEmpty(Trim(reference));
    }
    hide IsBoundedText, Trim;
  }

  lemma PendingLeadsTo(value: Execution, reference: string, r: VerificationResult, now: Time)
    requires ServiceRow(value) && Named(value.request) && r.outcome == Pending
    requires value.status in {StatusConfirming, StatusConfirmed}
    ensures VerdictLeads(value, reference, Answered(r), now, VerdictStepOf(value, reference, Answered(r), now))
  {
    StoresIff(value.request.executionID, value.revision, value.status, r.reference, r.observedAt);
    EmptyIsNotStorable();
    hide IsBoundedText, ValidReasonCode, ValidResult, Trim, Storable;
  }

  lemma EmptyIsNotStorable()
    ensures !Storable("")
  {
  }

  lemma FailureLeadsTo(value: Execution, reference: string, r: VerificationResult, now: Time)
    requires ServiceRow(value) && Named(value.request) && ValidTime(value, now) && r.outcome == FailedOutcome
    requires value.status in {StatusConfirming, StatusConfirmed}
    ensures VerdictLeads(value, reference, Answered(r), now, VerdictStepOf(value, reference, Answered(r), now))
  {
    hide IsBoundedText, ValidReasonCode, Trim;
    if ValidReasonCode(r.reasonCode) && r.observedAt != 0 {
      CodeIsText(r.reasonCode);
      FailsWhenCalled(value, Failure(r.reasonCode, Terminal, StatusUnset), "", r.observedAt, now);
    }
  }

  lemma ProofLeadsTo(value: Execution, reference: string, r: VerificationResult, now: Time)
    requires ServiceRow(value) && Named(value.request) && ValidTime(value, now) && r.outcome == VerifiedOutcome
    requires value.status in {StatusConfirming, StatusConfirmed}
    ensures VerdictLeads(value, reference, Answered(r), now, VerdictStepOf(value, reference, Answered(r), now))
  {
    StoresIff(value.request.executionID, value.revision + 1, StatusVerified, r.reference, r.observedAt);
    hide IsBoundedText, ValidReasonCode, ValidResult, Trim, Storable;
  }

  // ---------------------------------------------------------------- visits without a call

  /** The next state of a visit that calls neither adapter nor verifier. */
  predicate PlainLeads(value: Execution, now: Time, next: Execution) {
    && Same(value, next, now)
    && match value.status
       case StatusCreated => next.status == StatusAuthorized
       case StatusAuthorized => next.status == StatusQueued
       case StatusQueued => next.status == StatusExecuting
       case StatusSubmitted => next.status == StatusConfirming
       case StatusFailed =>
         && value.failure.eligibility == Recoverable && next.status == StatusRecoveryRequired
         && next.recovery == Recovery(value.failure.code, value.failedFrom, value.failure.recoveryTarget)
       case StatusRecoveryRequired => next.status == value.recovery.target
       case _ => false
  }

  /** It is taken exactly by non-terminal rows in those states. */
  lemma PlainLeadsTo(value: Execution, now: Time)
    requires ServiceRow(value) && ValidTime(value, now)
    ensures PlainStep(value, now).Some? <==> !IsTerminal(value) && value.status !in CALLING
    ensures PlainStep(value, now).Some? ==> PlainLeads(value, now, PlainStep(value, now).value)
  {
  }

  // ---------------------------------------------------------------- fencing

  /** The lease recorded in the store is this claim's and has not run out. */
  predicate IsHolder(st: Store, claim: Claim, clock: Time) {
    st.owner == claim.owner && st.token == claim.token && st.leaseExpiresAt.Some? && clock < st.leaseExpiresAt.value
  }

  /** Every change of the row, and setting the marker, is made by the holder of the lease, on
      the revision it read. */
  lemma WritesAreFenced(st: Store, pc: Pc, a: Action)
    ensures var st' := Do(st, pc, a).store;
            && (st'.row != st.row ==>
                  && HasClaim(pc) && (a.PersistStep? || a.PersistAlreadyStarted? || a.PersistAnswer?
                                      || a.PersistVerdict? || a.PersistProof? || a.Complete?)
                  && IsHolder(st, pc.claim, a.clock) && st.row.revision == pc.claim.execution.revision
                  && st'.row.revision == st.row.revision + 1)
            && (st'.started != st.started ==> HasClaim(pc) && a.MarkSubmission? && IsHolder(st, pc.claim, a.clock))
  {
    hide PlainStep, AnswerWrite, VerdictStepOf, ProofWrite, Transition, RequireRecovery, Lifecycle.Valid, ValidResult,
         IsNew, Inserted, Readable, HasVerified, LatestReference;
  }

  /** A lease is granted exactly when the work is due, not terminal, and nobody's lease runs. */
  lemma LeaseGrantedIff(st: Store, owner: string, clock: Time, duration: Time)
    ensures TakenLease(st, owner, clock, duration).Some? <==>
              && owner != "" && 0 < duration <= HOUR && st.nextRunAt <= clock && !IsTerminal(st.row)
              && !(st.leaseExpiresAt.Some? && clock < st.leaseExpiresAt.value)
    ensures var taken := TakenLease(st, owner, clock, duration);
            taken.Some? ==> IsHolder(taken.value, Claim(st.row, owner, st.token + 1, st.started), clock)
                            && !IsHolder(taken.value, Claim(st.row, owner, st.token, st.started), clock)
                            && taken.value.leaseExpiresAt == Some(clock + duration)
  {
  }

  /** No two processes share a lease token. */
  ghost predicate TokensDiffer(w: World) {
    forall p: ProcessId, q: ProcessId | p != q && !w.At(p).Idle? && !w.At(q).Idle? ::
      TokenOf(w.At(p)) != TokenOf(w.At(q))
  }

  lemma StepToken(st: Store, pc: Pc, a: Action)
    requires TokenOf(pc) <= st.token
    ensures var effect := Do(st, pc, a);
            !effect.pc.Idle? ==>
              (!pc.Idle? && TokenOf(effect.pc) == TokenOf(pc)) || TokenOf(effect.pc) == st.token + 1
  {
    hide PlainStep, AnswerWrite, VerdictStepOf, ProofWrite, Transition, RequireRecovery, Lifecycle.Valid, ValidResult,
         IsNew, Inserted, Readable, HasVerified, LatestReference;
  }

  lemma {:induction false} RunKeepsTokens(w: World, actions: seq<Action>)
    requires TokensFit(w) && TokensDiffer(w)
    ensures TokensDiffer(RuntimeProtocol.Run(w, actions))
    decreases |actions|
  {
    if actions != [] {
      var a := actions[0];
      StepToken(w.store, w.At(a.p), a);
      StepTokens(w.store, w.At(a.p), a);
      var w' := Next(w, a);
      hide Do;
      assert forall q: ProcessId :: w'.At(q) == if q == a.p then Do(w.store, w.At(a.p), a).pc else w.At(q);
      RunKeepsTokens(w', actions[1..]);
    }
  }

  /** In every run, at every instant, at most one process holds the lease. */
  lemma OneHolder(w: World, actions: seq<Action>, p: ProcessId, q: ProcessId, clock: Time)
    requires Initial(w)
    requires var last := RuntimeProtocol.Run(w, actions);
             && HasClaim(last.At(p)) && IsHolder(last.store, last.At(p).claim, clock)
             && HasClaim(last.At(q)) && IsHolder(last.store, last.At(q).claim, clock)
    ensures p == q
  {
    assert forall r: ProcessId :: w.At(r).Idle?;
    RunKeepsTokens(w, actions);
  }
}
