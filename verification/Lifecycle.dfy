/** The execution lifecycle (internal/execution/lifecycle.go, internal/execution/types.go):
    immutable values whose transitions return a new value or refuse. */
module Lifecycle {
  import opened Text
  import opened Receipts

  /** StatusUnset stands for every string that is not a status, the empty one included. */
  datatype Status = StatusCreated | StatusAuthorized | StatusQueued | StatusExecuting | StatusSubmitted
    | StatusConfirming | StatusConfirmed | StatusVerified | StatusCompleted | StatusFailed
    | StatusRecoveryRequired | StatusCancelled | StatusUnset

  datatype Eligibility = Terminal | Recoverable | NoEligibility

  datatype Failure = Failure(code: string, eligibility: Eligibility, recoveryTarget: Status)

  datatype Recovery = Recovery(reasonCode: string, fromStatus: Status, target: Status)

  /** The immutable request; `valid` is the outcome of its own validation. */
  datatype Request = Request(executionID: string, version: uint64, createdAt: Time, valid: bool)

  datatype Execution = Execution(
    request: Request, status: Status, revision: uint64, createdAt: Time, updatedAt: Time,
    failure: Failure, failedFrom: Status, recovery: Recovery)

  const NO_FAILURE := Failure("", NoEligibility, StatusUnset)
  const NO_RECOVERY := Recovery("", StatusUnset, StatusUnset)
  const MAX_REVISION: uint64 := 0xFFFF_FFFF_FFFF_FFFF

  function New(request: Request): Option<Execution> {
    var e := Execution(request, StatusCreated, 1, request.createdAt, request.createdAt, NO_FAILURE, StatusUnset,
                       NO_RECOVERY);
    if Valid(e) then Some(e) else None
  }

  predicate ValidRecoveryTarget(from: Status, target: Status) {
    match from
    case StatusQueued | StatusExecuting => target == StatusExecuting
    case StatusSubmitted | StatusConfirming => target == StatusConfirming
    case StatusConfirmed => target == StatusConfirmed
    case StatusVerified => target == StatusVerified
    case _ => false
  }

  predicate ValidFailure(f: Failure, failedFrom: Status) {
    && ValidReasonCode(f.code)
    && f.eligibility != NoEligibility
    && (f.eligibility == Terminal ==> f.recoveryTarget == StatusUnset)
    && (f.eligibility == Recoverable ==> ValidRecoveryTarget(failedFrom, f.recoveryTarget))
  }

  predicate ValidRecovery(r: Recovery) {
    ValidReasonCode(r.reasonCode) && ValidRecoveryTarget(r.fromStatus, r.target)
  }

  predicate Valid(e: Execution) {
    && e.request.valid
    && e.status != StatusUnset
    && e.revision != 0 && e.createdAt != 0 && e.updatedAt != 0 && e.createdAt <= e.updatedAt
    && (e.status == StatusFailed ==>
          e.failedFrom != StatusUnset && e.failedFrom != StatusFailed && ValidFailure(e.failure, e.failedFrom))
    && (e.status == StatusRecoveryRequired ==> ValidRecovery(e.recovery))
  }

  predicate ValidTime(e: Execution, at: Time) {
    at != 0 && e.updatedAt <= at && e.revision != MAX_REVISION
  }

  function Advance(e: Execution, status: Status, at: Time): Option<Execution>
    requires e.revision != MAX_REVISION
  {
    var next := e.(status := status, updatedAt := at, revision := e.revision + 1);
    if Valid(next) then Some(next) else None
  }

  predicate ValidTransition(current: Status, next: Status) {
    match current
    case StatusCreated => next == StatusAuthorized || next == StatusCancelled
    case StatusAuthorized => next == StatusQueued || next == StatusCancelled
    case StatusQueued => next == StatusExecuting
    case StatusExecuting => next == StatusSubmitted || next == StatusConfirming
    case StatusSubmitted => next == StatusConfirming
    case StatusConfirming => next == StatusConfirmed
    case StatusConfirmed => next == StatusVerified
    case StatusVerified => next == StatusCompleted
    case _ => false
  }

  function Transition(e: Execution, next: Status, at: Time): Option<Execution> {
    if !Valid(e) then None
    else if next == e.status then Some(e)
    else if next == StatusFailed || next == StatusRecoveryRequired then None
    else if !ValidTime(e, at) || !ValidTransition(e.status, next) then None
    else Advance(e, next, at)
  }

  function Fail(e: Execution, failure: Failure, at: Time): Option<Execution> {
    if !Valid(e) then None
    else if e.status == StatusFailed then (if e.failure == failure then Some(e) else None)
    else if !ValidTime(e, at) then None
    else if e.status != StatusExecuting && e.status != StatusSubmitted && e.status != StatusConfirming
            && e.status != StatusConfirmed then None
    else if !ValidFailure(failure, e.status) then None
    else Advance(e.(failure := failure, failedFrom := e.status), StatusFailed, at)
  }

  function RecoveryTarget(status: Status): Status {
    match status
    case StatusQueued | StatusExecuting => StatusExecuting
    case StatusSubmitted | StatusConfirming => StatusConfirming
    case StatusConfirmed => StatusConfirmed
    case StatusVerified => StatusVerified
    case _ => StatusUnset
  }

  function RequireRecovery(e: Execution, reasonCode: string, at: Time): Option<Execution> {
    if !Valid(e) then None
    else if e.status == StatusRecoveryRequired then (if e.recovery.reasonCode == reasonCode then Some(e) else None)
    else if !ValidTime(e, at) then None
    else
      var recovery := Recovery(reasonCode, e.status, RecoveryTarget(e.status));
      if !ValidRecovery(recovery) then None
      else Advance(e.(recovery := recovery), StatusRecoveryRequired, at)
  }

  function Recover(e: Execution, at: Time): Option<Execution> {
    if !Valid(e) || e.status != StatusFailed || e.failure.eligibility != Recoverable || !ValidTime(e, at) then None
    else
      Advance(e.(recovery := Recovery(e.failure.code, e.failedFrom, e.failure.recoveryTarget)), StatusRecoveryRequired,
              at)
  }

  function Resume(e: Execution, at: Time): Option<Execution> {
    if !Valid(e) || e.status != StatusRecoveryRequired || !ValidTime(e, at) then None
    else Advance(e, e.recovery.target, at)
  }

  predicate IsTerminal(e: Execution) {
    e.status == StatusCompleted || e.status == StatusCancelled
    || (e.status == StatusFailed && e.failure.eligibility == Terminal)
  }

  // ---------------------------------------------------------------- runs

  datatype Event = Move(next: Status, at: Time) | Break(failure: Failure, at: Time)
    | Doubt(reasonCode: string, at: Time) | StartRecovery(at: Time) | EndRecovery(at: Time)

  function Attempt(e: Execution, event: Event): Option<Execution> {
    match event
    case Move(next, at) => Transition(e, next, at)
    case Break(failure, at) => Fail(e, failure, at)
    case Doubt(reason, at) => RequireRecovery(e, reason, at)
    case StartRecovery(at) => Recover(e, at)
    case EndRecovery(at) => Resume(e, at)
  }

  /** A refused event leaves the execution as it was. */
  function Apply(e: Execution, event: Event): Execution {
    var next := Attempt(e, event);
    if next.Some? then next.value else e
  }

  function Run(e: Execution, events: seq<Event>): Execution
    decreases |events|
  {
    if events == [] then e else Run(Apply(e, events[0]), events[1..])
  }

  function StatusRank(s: Status): nat {
    match s
    case StatusCreated => 1
    case StatusAuthorized => 2
    case StatusQueued => 3
    case StatusExecuting => 4
    case StatusSubmitted => 5
    case StatusConfirming => 6
    case StatusConfirmed => 7
    case StatusVerified => 8
    case StatusCompleted => 9
    case StatusCancelled => 9
    case _ => 0
  }

  /** Progress already made: a failed execution keeps that of the state it failed from, a
      recovering one counts as the checkpoint it will resume at. */
  function Progress(e: Execution): nat {
    if e.status == StatusFailed then StatusRank(e.failedFrom)
    else if e.status == StatusRecoveryRequired then StatusRank(e.recovery.target)
    else StatusRank(e.status)
  }

  lemma ApplyKeepsProgress(e: Execution, event: Event)
    requires Valid(e)
    ensures var next := Apply(e, event);
            && Valid(next)
            && Progress(next) >= Progress(e)
            && (next == e || next.revision == e.revision + 1)
            && (IsTerminal(e) ==> next == e)
            && next.request == e.request && next.createdAt == e.createdAt && next.updatedAt >= e.updatedAt
  {
  }

  /** Over every run: progress never regresses, the revision counts the changes, and the
      identity of the execution never changes. */
  lemma {:induction false} ProgressNeverRegresses(e: Execution, events: seq<Event>)
    requires Valid(e)
    ensures var last := Run(e, events);
            && Valid(last)
            && Progress(last) >= Progress(e)
            && e.revision <= last.revision <= e.revision + |events|
            && (last.revision == e.revision ==> last == e)
            && last.request == e.request
    decreases |events|
  {
    if events != [] {
      ApplyKeepsProgress(e, events[0]);
      ProgressNeverRegresses(Apply(e, events[0]), events[1..]);
    }
  }

  /** Once past EXECUTING an execution never re-enters it, whatever fails or recovers later. */
  lemma NeverExecutesAgain(e: Execution, events: seq<Event>)
    requires Valid(e) && Progress(e) > StatusRank(StatusExecuting)
    ensures var last := Run(e, events);
            && last.status != StatusExecuting
            && (last.status == StatusRecoveryRequired ==> last.recovery.target != StatusExecuting)
  {
    ProgressNeverRegresses(e, events);
  }

  lemma {:induction false} TerminalIsAbsorbing(e: Execution, events: seq<Event>)
    requires Valid(e) && IsTerminal(e)
    ensures Run(e, events) == e
  {
    if events != [] {
      ApplyKeepsProgress(e, events[0]);
      TerminalIsAbsorbing(e, events[1..]);
    }
  }

  /** Every recovery ends exactly at the checkpoint derived from the state it left. */
  lemma RecoveryResumesAtCheckpoint(e: Execution, reasonCode: string, at: Time, later: Time)
    requires Valid(e) && e.status != StatusRecoveryRequired
    requires RequireRecovery(e, reasonCode, at).Some?
    requires Resume(RequireRecovery(e, reasonCode, at).value, later).Some?
    ensures var resumed := Resume(RequireRecovery(e, reasonCode, at).value, later).value;
            && ValidRecoveryTarget(e.status, resumed.status)
            && StatusRank(e.status) <= StatusRank(resumed.status) <= StatusRank(e.status) + 1
            && resumed.revision == e.revision + 2
  {
  }

  // ---------------------------------------------------------------- which events change an execution

  /** One rung up the ladder from CREATED to COMPLETED, straight from EXECUTING to CONFIRMING,
      or a cancellation before anything is queued. */
  predicate IsStep(current: Status, next: Status) {
    || (next != StatusCancelled && StatusRank(current) >= 1 && StatusRank(next) == StatusRank(current) + 1)
    || (current == StatusExecuting && next == StatusConfirming)
    || (next == StatusCancelled && current in {StatusCreated, StatusAuthorized})
  }

  /** Where work interrupted in a state is taken up: at EXECUTING only if nothing was
      submitted, at CONFIRMING once something was. */
  predicate TakenUpAt(from: Status, checkpoint: Status) {
    || (StatusRank(from) in {3, 4} && checkpoint == StatusExecuting)
    || (StatusRank(from) in {5, 6} && checkpoint == StatusConfirming)
    || (StatusRank(from) in {7, 8} && checkpoint == from)
  }

  predicate Changes(e: Execution, event: Event) {
    && event.at != 0 && e.updatedAt <= event.at && e.revision < MAX_REVISION
    && (match event
        case Move(next, _) => IsStep(e.status, next)
        case Break(failure, _) =>
          && 4 <= StatusRank(e.status) <= 7 && ValidReasonCode(failure.code)
          && (match failure.eligibility
              case Terminal => failure.recoveryTarget == StatusUnset
              case Recoverable => TakenUpAt(e.status, failure.recoveryTarget)
              case NoEligibility => false)
        case Doubt(reason, _) => 3 <= StatusRank(e.status) <= 8 && ValidReasonCode(reason)
        case StartRecovery(_) => e.status == StatusFailed && e.failure.eligibility == Recoverable
        case EndRecovery(_) => e.status == StatusRecoveryRequired)
  }

  /** What an event makes of the execution. */
  predicate Becomes(e: Execution, event: Event, next: Execution) {
    && next.request == e.request && next.createdAt == e.createdAt
    && next.revision == e.revision + 1 && next.updatedAt == event.at
    && (match event
        case Move(status, _) => next.status == status
        case Break(failure, _) =>
          next.status == StatusFailed && next.failure == failure && next.failedFrom == e.status
        case Doubt(reason, _) =>
          && next.status == StatusRecoveryRequired && next.recovery.reasonCode == reason
          && next.recovery.fromStatus == e.status && TakenUpAt(e.status, next.recovery.target)
        case StartRecovery(_) =>
          && next.status == StatusRecoveryRequired
          && next.recovery == Recovery(e.failure.code, e.failedFrom, e.failure.recoveryTarget)
        case EndRecovery(_) => next.status == e.recovery.target)
  }

  /** Exactly these events change a valid execution, each in exactly this way. */
  lemma ChangesIff(e: Execution, event: Event)
    requires Valid(e)
    ensures Apply(e, event) != e <==> Changes(e, event)
    ensures Changes(e, event) ==> Becomes(e, event, Apply(e, event))
  {
    hide ValidReasonCode;
  }
}
