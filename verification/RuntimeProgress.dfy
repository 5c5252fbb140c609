/** What the runtime protocol makes possible: a lease never blocks an execution for good, and
    a reachable execution can still be carried to COMPLETED exactly when its evidence can be
    read. */
module RuntimeProgress {
  import opened Text
  import opened Receipts
  import opened Lifecycle
  import opened ExecutionResults
  import opened RuntimeProtocol

  ghost predicate Reaches(w: World, v: World) { exists actions :: RuntimeProtocol.Run(w, actions) == v }

  lemma ReachesItself(w: World)
    ensures Reaches(w, w)
  {
    assert RuntimeProtocol.Run(w, []) == w;
  }

  lemma ReachesNext(w: World, v: World, a: Action)
    requires Reaches(w, v)
    ensures Reaches(w, Next(v, a))
  {
    var actions :| RuntimeProtocol.Run(w, actions) == v;
    RunThen(w, actions, a);
  }

  // ---------------------------------------------------------------- taking over

  function Latest(a: Time, b: Time): Time { if a < b then b else a }

  /** A moment at which the previous lease has run out and the work is due. */
  function FreeAt(st: Store): Time {
    Latest(st.nextRunAt, if st.leaseExpiresAt.Some? then st.leaseExpiresAt.value else st.nextRunAt)
  }

  function TakenOver(st: Store, owner: string): Store {
    st.(owner := owner, leaseExpiresAt := Some(FreeAt(st) + HOUR), token := st.token + 1)
  }

  /** Whatever processes were doing when they stopped, any idle process can take the lease,
      once the previous one has run out, and work on the current row under a fresh token. */
  lemma TakesOver(w: World, p: ProcessId, owner: string) returns (v: World)
    requires w.At(p).Idle? && owner != "" && !IsTerminal(w.store.row)
    ensures Reaches(w, v)
    ensures v.store == TakenOver(w.store, owner) && v.executes == w.executes && v.verdicts == w.verdicts
    ensures v.At(p) == Working(Claim(w.store.row, owner, w.store.token + 1, w.store.started))
    ensures forall q: ProcessId | q != p :: v.At(q) == w.At(q)
  {
    hide Reaches, IsTerminal;
    var clock := FreeAt(w.store);
    ReachesItself(w);
    var a, b, c := TakeLease(p, owner, clock, HOUR), LoadRow(p), CheckClaim(p, clock);
    var w1 := Next(w, a);
    ReachesNext(w, w, a);
    var w2 := Next(w1, b);
    ReachesNext(w, w1, b);
    v := Next(w2, c);
    ReachesNext(w, w2, c);
    assert w.verdicts + [] == w.verdicts;
  }

  // ---------------------------------------------------------------- single visits

  ghost predicate CanComplete(w: World) {
    exists more :: RuntimeProtocol.Run(w, more).store.row.status == StatusCompleted
  }

  lemma {:induction false} RunJoined(w: World, a: seq<Action>, b: seq<Action>)
    ensures RuntimeProtocol.Run(w, a + b) == RuntimeProtocol.Run(RuntimeProtocol.Run(w, a), b)
    decreases |a|
  {
    if a == [] {
      assert a + b == b;
    } else {
      assert (a + b)[1..] == a[1..] + b;
      RunJoined(Next(w, a[0]), a[1..], b);
    }
  }

  lemma CompletesThrough(w: World, u: World)
    requires Reaches(w, u) && CanComplete(u)
    ensures CanComplete(w)
  {
    var a :| RuntimeProtocol.Run(w, a) == u;
    var b :| RuntimeProtocol.Run(u, b).store.row.status == StatusCompleted;
    RunJoined(w, a, b);
  }

  lemma GivesBack(w: World, v: World, p: ProcessId) returns (u: World)
    requires Reaches(w, v) && v.At(p).Finished?
    ensures Reaches(w, u) && u.At(p).Idle?
    ensures u.store.row == v.store.row && u.store.started == v.store.started && u.store.evidence == v.store.evidence
  {
    var a := Release(p, 1);
    u := Next(v, a);
    ReachesNext(w, v, a);
  }

  lemma PlainVisit(w: World, p: ProcessId, next: Execution) returns (u: World)
    requires w.At(p).Idle? && Lifecycle.Valid(next) && !IsTerminal(w.store.row) && w.store.row.status !in CALLING
    requires PlainStep(w.store.row, w.store.row.updatedAt) == Some(next) && next.revision == w.store.row.revision + 1
    ensures Reaches(w, u) && u.At(p).Idle? && u.store.row == next
    ensures u.store.started == w.store.started && u.store.evidence == w.store.evidence
  {
    hide PlainStep, Lifecycle.Valid, IsTerminal, Reaches;
    var v := TakesOver(w, p, "w");
    var a := PersistStep(p, FreeAt(w.store), w.store.row.updatedAt);
    ReachesNext(w, v, a);
    u := GivesBack(w, Next(v, a), p);
  }

  /** The adapter is called: Execute behind a fresh marker, GetStatus behind an old one. */
  lemma AdapterAnswers(w: World, p: ProcessId, answer: AdapterAnswer) returns (v: World)
    requires w.At(p).Idle? && w.store.row.status == StatusExecuting
    ensures Reaches(w, v) && v.At(p).AdapterSaid? && v.At(p).adapterAnswer == answer
    ensures v.At(p).claim.execution == w.store.row && v.At(p).claim.owner != ""
    ensures Holds(v.store, v.At(p).claim.owner, v.At(p).claim.token, FreeAt(w.store))
    ensures v.store.row == w.store.row && v.store.evidence == w.store.evidence
  {
    hide Reaches;
    var v0 := TakesOver(w, p, "w");
    if w.store.started {
      var a := CallGetStatus(p, answer);
      v := Next(v0, a);
      ReachesNext(w, v0, a);
    } else {
      var a, b := MarkSubmission(p, FreeAt(w.store)), CallExecute(p, answer);
      var v1 := Next(v0, a);
      ReachesNext(w, v0, a);
      v := Next(v1, b);
      ReachesNext(w, v1, b);
    }
  }

  lemma AdapterVisit(w: World, p: ProcessId, write: Write, answer: AdapterAnswer) returns (u: World)
    requires w.At(p).Idle? && w.store.row.status == StatusExecuting
    requires AnswerWrite(w.store.row, answer, w.store.row.updatedAt) == Some(write)
    requires ValidResult(write.observation) && write.observation.status == write.next.status
    requires write.observation.executionVersion == write.next.revision == w.store.row.revision + 1
    requires IsNew(w.store.evidence, write.observation.(errorCode := ""))
    ensures Reaches(w, u) && u.At(p).Idle? && u.store.row == write.next
    ensures u.store.evidence == Inserted(w.store.evidence, write.observation.(errorCode := ""))
  {
    hide AnswerWrite, ValidResult, Reaches, IsNew, Inserted;
    var v := AdapterAnswers(w, p, answer);
    var a := PersistAnswer(p, FreeAt(w.store), w.store.row.updatedAt);
    ReachesNext(w, v, a);
    u := GivesBack(w, Next(v, a), p);
  }

  /** The verifier is asked about the latest reference and verifies. */
  lemma VerifierAnswers(w: World, p: ProcessId, result: VerificationResult) returns (v: World)
    requires w.At(p).Idle? && w.store.row.status in {StatusConfirming, StatusConfirmed}
    requires Readable(w.store.evidence) && LatestReference(w.store.evidence) != ""
    ensures Reaches(w, v) && v.At(p).VerifierSaid? && v.At(p).verifierAnswer == Answered(result)
    ensures v.At(p).claim.execution == w.store.row && v.At(p).claim.owner != ""
    ensures Holds(v.store, v.At(p).claim.owner, v.At(p).claim.token, FreeAt(w.store))
    ensures v.store.row == w.store.row && v.store.evidence == w.store.evidence
  {
    hide Reaches, Readable, LatestReference;
    var v0 := TakesOver(w, p, "w");
    var a, b := ReadReference(p), CallVerify(p, Answered(result));
    var v1 := Next(v0, a);
    ReachesNext(w, v0, a);
    v := Next(v1, b);
    ReachesNext(w, v1, b);
  }

  lemma ConfirmVisit(w: World, p: ProcessId, next: Execution, result: VerificationResult) returns (u: World)
    requires w.At(p).Idle? && w.store.row.status == StatusConfirming
    requires Readable(w.store.evidence) && LatestReference(w.store.evidence) != ""
    requires ValidVerification(result) && result.outcome == VerifiedOutcome
    requires Transition(w.store.row, StatusConfirmed, w.store.row.updatedAt) == Some(next) && Lifecycle.Valid(next)
    requires next.revision == w.store.row.revision + 1
    ensures Reaches(w, u) && u.At(p).Idle? && u.store.row == next && u.store.evidence == w.store.evidence
  {
    hide Transition, Lifecycle.Valid, ValidVerification, Reaches, Readable, LatestReference;
    var v := VerifierAnswers(w, p, result);
    var a, b := PersistVerdict(p, FreeAt(w.store), w.store.row.updatedAt), Stop(p);
    var v1 := Next(v, a);
    ReachesNext(w, v, a);
    assert v1.At(p).Proving? && v1.store.row == next;
    u := Next(v1, b);
    ReachesNext(w, v1, b);
  }

  lemma ProveVisit(w: World, p: ProcessId, proof: Write, result: VerificationResult) returns (u: World)
    requires w.At(p).Idle? && w.store.row.status == StatusConfirmed
    requires Readable(w.store.evidence) && LatestReference(w.store.evidence) != ""
    requires ValidVerification(result) && result.outcome == VerifiedOutcome
    requires ProofWrite(w.store.row, result, w.store.row.updatedAt) == Some(proof) && ValidResult(proof.observation)
    requires proof.next.status == proof.observation.status == StatusVerified
    requires proof.observation.executionVersion == proof.next.revision == w.store.row.revision + 1
    requires IsNew(w.store.evidence, proof.observation)
    ensures Reaches(w, u) && u.At(p).Idle? && u.store.row == proof.next
    ensures u.store.evidence == Inserted(w.store.evidence, proof.observation)
  {
    hide ProofWrite, ValidResult, ValidVerification, Reaches, Readable, LatestReference, IsNew, Inserted;
    var v := VerifierAnswers(w, p, result);
    var a := PersistVerdict(p, FreeAt(w.store), w.store.row.updatedAt);
    ReachesNext(w, v, a);
    u := GivesBack(w, Next(v, a), p);
  }

  lemma CompleteVisit(w: World, p: ProcessId, next: Execution) returns (u: World)
    requires w.At(p).Idle? && w.store.row.status == StatusVerified && Readable(w.store.evidence)
    requires HasVerified(w.store.evidence, w.store.row.revision)
    requires Transition(w.store.row, StatusCompleted, w.store.row.updatedAt) == Some(next) && Lifecycle.Valid(next)
    requires next.revision == w.store.row.revision + 1
    ensures Reaches(w, u) && u.store.row == next
  {
    hide Transition, Lifecycle.Valid, Readable, HasVerified, Reaches;
    var v := TakesOver(w, p, "w");
    var a, b := CheckEvidence(p), Complete(p, FreeAt(w.store), w.store.row.updatedAt);
    var v1 := Next(v, a);
    ReachesNext(w, v, a);
    u := Next(v1, b);
    ReachesNext(w, v1, b);
  }

  // ---------------------------------------------------------------- to completion

  /** What validation of a request establishes about its identity. */
  predicate Named(request: Request) { IsBoundedText(request.executionID, MAX_TEXT_LENGTH) && request.version != 0 }

  function MovedTo(row: Execution, status: Status): Execution
    requires row.revision < MAX_REVISION
  {
    row.(status := status, revision := row.revision + 1)
  }

  lemma Moves(row: Execution, status: Status)
    requires Lifecycle.Valid(row) && row.revision < MAX_REVISION && ValidTransition(row.status, status)
    ensures Transition(row, status, row.updatedAt) == Some(MovedTo(row, status)) && Lifecycle.Valid(MovedTo(row,
                                                                                                            status))
  {
  }

  /** An observation time no evidence row has. */
  function FreshTime(evidence: seq<Result>): (t: Time)
    ensures t > 0 && forall e | e in evidence :: e.observedAt < t
  {
    if evidence == [] then 1 else
      var t := FreshTime(evidence[1..]);
      assert evidence == [evidence[0]] + evidence[1..];
      if evidence[0].observedAt < t then t else evidence[0].observedAt + 1
  }

  /** A process ready to work on a row with that status and room for that many changes. */
  predicate Ready(w: World, p: ProcessId, status: Status, room: nat) {
    && w.At(p).Idle? && Lifecycle.Valid(w.store.row) && w.store.row.status == status && Named(w.store.row.request)
    && w.store.row.revision + room <= MAX_REVISION
    && Readable(w.store.evidence)
  }

  predicate Pointed(evidence: seq<Result>) { exists e | e in evidence :: e.adapterReference != "" }

  lemma {:induction false} PointedHasLatest(evidence: seq<Result>)
    requires Pointed(evidence)
    ensures LatestReference(evidence) != ""
  {
    if evidence != [] && evidence[|evidence| - 1].adapterReference == "" {
      var front := evidence[..|evidence| - 1];
      assert evidence == front + [evidence[|evidence| - 1]];
      PointedHasLatest(front);
    }
  }

  /** The result rebuilt for a row, with a reference and an observation time. */
  function Stored(row: Execution, status: Status, at: Time): Result {
    Result(row.request.executionID, row.revision, status, "r", "", at)
  }

  lemma StoredIsValid(row: Execution, at: Time)
    requires Lifecycle.Valid(row) && Named(row.request) && at > 0
    requires row.status in {StatusSubmitted, StatusVerified}
    ensures ValidResult(Stored(row, row.status, at))
    ensures NewResult(row.request.executionID, row.revision, row.status, "r", "",
                      at) == Some(Stored(row, row.status, at))
  {
    assert Trim("") == "" && Trim("r") == "r";
    ShortText();
  }

  lemma ShortText()
    ensures IsBoundedText("r", MAX_ADAPTER_REFERENCE_LENGTH)
  {
    assert Trim("r") == "r";
    assert "r"[1..] == "";
    assert ByteLength("r") == 1;
  }

  lemma FromVerified(w: World, p: ProcessId)
    requires Ready(w, p, StatusVerified, 1) && HasVerified(w.store.evidence, w.store.row.revision)
    ensures CanComplete(w)
  {
    var next := MovedTo(w.store.row, StatusCompleted);
    Moves(w.store.row, StatusCompleted);
    hide Lifecycle.Valid, Transition, Readable, HasVerified, Reaches;
    var u := CompleteVisit(w, p, next);
    assert RuntimeProtocol.Run(u, []).store.row.status == StatusCompleted;
    CompletesThrough(w, u);
  }

  lemma FromConfirmed(w: World, p: ProcessId)
    requires Ready(w, p, StatusConfirmed, 2) && Pointed(w.store.evidence)
    ensures CanComplete(w)
  {
    var row, at := w.store.row, FreshTime(w.store.evidence);
    var next := MovedTo(row, StatusVerified);
    var proof := Write(next, Stored(next, StatusVerified, at));
    var result := VerificationResult(VerifiedOutcome, "r", "", at);
    Moves(row, StatusVerified);
    StoredIsValid(next, at);
    PointedHasLatest(w.store.evidence);
    assert ProofWrite(row, result, row.updatedAt) == Some(proof);
    assert ValidVerification(result);
    InsertedReads(w.store.evidence, proof.observation);
    hide Lifecycle.Valid, Transition, ProofWrite, ValidResult, ValidVerification, Reaches, CanComplete, Inserted;
    var u := ProveVisit(w, p, proof, result);
    FromVerified(u, p);
    CompletesThrough(w, u);
  }

  lemma InsertedReads(evidence: seq<Result>, r: Result)
    requires Readable(evidence) && ValidResult(r)
    ensures Readable(Inserted(evidence, r)) && r in Inserted(evidence, r)
    ensures r.adapterReference != "" ==> Pointed(Inserted(evidence, r))
    ensures r.status == StatusVerified ==> HasVerified(Inserted(evidence, r), r.executionVersion)
  {
    hide ValidResult;
    assert r in Inserted(evidence, r);
  }

  lemma FromConfirming(w: World, p: ProcessId)
    requires Ready(w, p, StatusConfirming, 3) && Pointed(w.store.evidence)
    ensures CanComplete(w)
  {
    var next := MovedTo(w.store.row, StatusConfirmed);
    var result := VerificationResult(VerifiedOutcome, "r", "", 1);
    Moves(w.store.row, StatusConfirmed);
    PointedHasLatest(w.store.evidence);
    assert ValidVerification(result);
    hide Lifecycle.Valid, Transition, ValidVerification, Reaches, CanComplete;
    var u := ConfirmVisit(w, p, next, result);
    FromConfirmed(u, p);
    CompletesThrough(w, u);
  }

  lemma FromSubmitted(w: World, p: ProcessId)
    requires Ready(w, p, StatusSubmitted, 4) && Pointed(w.store.evidence)
    ensures CanComplete(w)
  {
    var next := MovedTo(w.store.row, StatusConfirming);
    Moves(w.store.row, StatusConfirming);
    hide Lifecycle.Valid, Transition, Reaches, CanComplete;
    var u := PlainVisit(w, p, next);
    FromConfirming(u, p);
    CompletesThrough(w, u);
  }

  lemma SubmissionWrite(row: Execution, at: Time)
    requires Lifecycle.Valid(row) && row.status == StatusExecuting && row.revision < MAX_REVISION
    requires Named(row.request) && at > 0
    ensures var next := MovedTo(row, StatusSubmitted);
            && ValidResult(Stored(next, StatusSubmitted, at))
            && var said := Result(row.request.executionID, row.request.version, StatusSubmitted, "r", "", at);
               AnswerWrite(row, Observed(said), row.updatedAt) == Some(Write(next, Stored(next, StatusSubmitted, at)))
  {
    var next := MovedTo(row, StatusSubmitted);
    Moves(row, StatusSubmitted);
    StoredIsValid(next, at);
    hide Transition;
  }

  lemma FromExecuting(w: World, p: ProcessId)
    requires Ready(w, p, StatusExecuting, 5)
    ensures CanComplete(w)
  {
    var row, at := w.store.row, FreshTime(w.store.evidence);
    var next := MovedTo(row, StatusSubmitted);
    var said := Result(row.request.executionID, row.request.version, StatusSubmitted, "r", "", at);
    var observation := Stored(next, StatusSubmitted, at);
    Moves(row, StatusSubmitted);
    SubmissionWrite(row, at);
    assert observation.(errorCode := "") == observation;
    InsertedReads(w.store.evidence, observation);
    hide Lifecycle.Valid, Transition, AnswerWrite, ValidResult, Reaches, CanComplete, Inserted;
    var u := AdapterVisit(w, p, Write(next, observation), Observed(said));
    FromSubmitted(u, p);
    CompletesThrough(w, u);
  }

  lemma FromEarly(w: World, p: ProcessId, room: nat)
    requires w.store.row.status in {StatusCreated, StatusAuthorized, StatusQueued}
    requires Ready(w, p, w.store.row.status, room) && room >= 9 - StatusRank(w.store.row.status)
    ensures CanComplete(w)
    decreases 4 - StatusRank(w.store.row.status)
  {
    var row := w.store.row;
    var status := if row.status == StatusCreated then StatusAuthorized
                  else if row.status == StatusAuthorized then StatusQueued else StatusExecuting;
    var next := MovedTo(row, status);
    Moves(row, status);
    hide Lifecycle.Valid, Transition, Reaches, CanComplete;
    var u := PlainVisit(w, p, next);
    if status == StatusExecuting {
      FromExecuting(u, p);
    } else {
      FromEarly(u, p, room - 1);
    }
    CompletesThrough(w, u);
  }

  lemma FromRecovery(w: World, p: ProcessId)
    requires Ready(w, p, StatusRecoveryRequired, 6) && w.store.row.recovery.target != StatusVerified
    requires Progress(w.store.row) > StatusRank(StatusExecuting) ==> Pointed(w.store.evidence)
    ensures CanComplete(w)
  {
    var row := w.store.row;
    var next := MovedTo(row, row.recovery.target);
    assert PlainStep(row, row.updatedAt) == Some(next) && Lifecycle.Valid(next);
    assert row.recovery.target in {StatusExecuting, StatusConfirming, StatusConfirmed};
    hide Lifecycle.Valid, PlainStep, Reaches, CanComplete;
    var u := PlainVisit(w, p, next);
    if next.status == StatusExecuting {
      FromExecuting(u, p);
    } else if next.status == StatusConfirming {
      FromConfirming(u, p);
    } else {
      FromConfirmed(u, p);
    }
    CompletesThrough(w, u);
  }

  // ---------------------------------------------------------------- what reachable rows rest on

  /** Past EXECUTING some evidence row carries a reference, and a failed row has left an
      unreadable one. */
  predicate Grounded(st: Store) {
    && (Progress(st.row) > StatusRank(StatusExecuting) ==> Pointed(st.evidence))
    && (st.row.status == StatusFailed ==> !Readable(st.evidence))
  }

  /** A change that neither passes EXECUTING nor fails. */
  predicate Modest(value: Execution, next: Execution) { NoFurther(value, next) && next.status != StatusFailed }

  predicate NoFurther(value: Execution, next: Execution) {
    Progress(next) > StatusRank(StatusExecuting) ==> Progress(value) > StatusRank(StatusExecuting)
  }

  lemma MoreEvidence(evidence: seq<Result>, r: Result)
    ensures Pointed(evidence) ==> Pointed(Inserted(evidence, r))
    ensures r.adapterReference != "" ==> Pointed(Inserted(evidence, r))
    ensures !Readable(evidence) || !ValidResult(r) ==> !Readable(Inserted(evidence, r))
  {
    hide ValidResult;
    assert r in Inserted(evidence, r);
    if Pointed(evidence) {
      var e :| e in evidence && e.adapterReference != "";
      assert e in Inserted(evidence, r);
    }
    if !Readable(evidence) {
      var e :| e in evidence && !ValidResult(e);
      assert e in Inserted(evidence, r);
    }
  }

  lemma PersistGrounded(st: Store, claim: Claim, next: Option<Execution>, clock: Time)
    requires Grounded(st) && ClaimFits(st.row, Finished(claim))
    requires next.Some? ==> Modest(claim.execution, next.value)
    ensures Grounded(Persist(st, claim, next, clock))
  {
    hide ServiceRow, Lifecycle.Valid, Readable;
  }

  lemma PersistObservationGrounded(st: Store, claim: Claim, write: Option<Write>, clock: Time)
    requires Grounded(st) && ClaimFits(st.row, Finished(claim))
    requires write.Some? ==> Observes(claim.execution, write.value)
    requires write.Some? && write.value.next.status in {StatusFailed, StatusRecoveryRequired} ==>
               NoFurther(claim.execution, write.value.next)
    ensures Grounded(PersistObservation(st, claim, write, clock))
  {
    hide ServiceRow, Lifecycle.Valid, Readable, Advances;
    if write.Some? {
      MoreEvidence(st.evidence, write.value.observation.(errorCode := ""));
    }
  }

  lemma PersistEvidenceGrounded(st: Store, claim: Claim, write: Option<Write>, clock: Time)
    requires Grounded(st) && ClaimFits(st.row, Finished(claim))
    requires write.Some? ==> Modest(claim.execution, write.value.next)
    ensures Grounded(PersistEvidence(st, claim, write, clock))
  {
    hide ServiceRow, Lifecycle.Valid, Readable, ValidResult;
    if write.Some? {
      MoreEvidence(st.evidence, write.value.observation);
    }
  }

  lemma PlainIsModest(value: Execution, now: Time)
    requires ServiceRow(value) && value.status !in CALLING && PlainStep(value, now).Some?
    ensures Modest(value, PlainStep(value, now).value)
  {
  }

  lemma AnswerRank(value: Execution, answer: AdapterAnswer, now: Time)
    requires ServiceRow(value) && value.status == StatusExecuting && AnswerWrite(value, answer, now).Some?
    ensures var next := AnswerWrite(value, answer, now).value.next;
            next.status in {StatusFailed, StatusRecoveryRequired} ==> Progress(next) <= StatusRank(StatusExecuting)
  {
    hide NewResult, ValidResult, EnsureMatches;
  }

  lemma ConcludeGrounded(st: Store, pc: Pc, step: VerdictStep, clock: Time)
    requires Grounded(st) && ClaimFits(st.row, pc) && pc.VerifierSaid?
    requires pc.claim.execution.status in {StatusConfirming, StatusConfirmed}
    requires VerdictFits(pc.claim.execution, pc.verifierAnswer, step)
    ensures Grounded(Conclude(st, pc.claim, step, clock).store)
  {
    hide ServiceRow, Lifecycle.Valid, Readable, ValidResult, Grounded;
    match step
    case Nothing =>
    case UpdateRow(next) => PersistGrounded(st, pc.claim, Some(next), clock);
    case AppendPending(r) => AppendedGrounded(st, r);
    case Observe(write) => PersistObservationGrounded(st, pc.claim, Some(write), clock);
    case ConfirmFirst(next, _) => PersistGrounded(st, pc.claim, Some(next), clock);
    case Prove(write) => PersistEvidenceGrounded(st, pc.claim, Some(write), clock);
  }

  lemma AppendedGrounded(st: Store, r: Result)
    requires Grounded(st)
    ensures Grounded(Appended(st, r))
  {
    hide ValidResult, Readable;
    MoreEvidence(st.evidence, r);
  }

  lemma StepGrounded(st: Store, verdicts: seq<Verdict>, pc: Pc, a: Action)
    requires StoreFits(st, verdicts) && ProcessFits(st, verdicts, pc) && Grounded(st)
    ensures Grounded(Do(st, pc, a).store)
  {
    hide Grounded, Persist, PersistObservation, PersistEvidence, Conclude, PlainStep, Readable, RowProved, ServiceRow;
    match a
    case PersistStep(_, clock, now) =>
      if pc.Working? && pc.claim.execution.status !in CALLING {
        var next := PlainStep(pc.claim.execution, now);
        if next.Some? {
          PlainIsModest(pc.claim.execution, now);
        }
        PersistGrounded(st, pc.claim, next, clock);
      }
    case PersistAlreadyStarted(_, clock, now) => if pc.AlreadyStarted? { StartedGrounded(st, pc.claim, clock, now); }
    case PersistAnswer(_, clock, now) =>
      if pc.AdapterSaid? {
        AnswerGrounded(st, pc.claim, pc.adapterAnswer, clock, now);
      }
    case PersistVerdict(_, clock, now) =>
      if pc.VerifierSaid? {
        VerdictStepFits(pc.claim.execution, pc.reference, pc.verifierAnswer, now);
        ConcludeGrounded(st, pc, VerdictStepOf(pc.claim.execution, pc.reference, pc.verifierAnswer, now), clock);
      }
    case PersistProof(_, clock, now) => if pc.Proving? { ProofGrounded(st, pc.claim, pc.result, clock, now); }
    case Complete(_, clock, now) => if pc.EvidenceSeen? { CompleteGrounded(st, pc.claim, clock, now); }
    case _ => QuietGrounded(st, pc, a);
  }

  lemma StartedGrounded(st: Store, claim: Claim, clock: Time, now: Time)
    requires Grounded(st) && ClaimFits(st.row, Finished(claim)) && claim.execution.status == StatusExecuting
    ensures Grounded(Persist(st, claim, RequireRecovery(claim.execution, "SUBMISSION_ALREADY_STARTED", now), clock))
  {
    hide Persist, Grounded, Readable;
    PersistGrounded(st, claim, RequireRecovery(claim.execution, "SUBMISSION_ALREADY_STARTED", now), clock);
  }

  lemma CompleteGrounded(st: Store, claim: Claim, clock: Time, now: Time)
    requires Grounded(st) && ClaimFits(st.row, Finished(claim)) && claim.execution.status == StatusVerified
    ensures Grounded(Persist(st, claim, Transition(claim.execution, StatusCompleted, now), clock))
  {
    hide Persist, Grounded, Readable;
    PersistGrounded(st, claim, Transition(claim.execution, StatusCompleted, now), clock);
  }

  lemma AnswerGrounded(st: Store, claim: Claim, answer: AdapterAnswer, clock: Time, now: Time)
    requires Grounded(st) && ClaimFits(st.row, Finished(claim)) && claim.execution.status == StatusExecuting
    ensures Grounded(PersistObservation(st, claim, AnswerWrite(claim.execution, answer, now), clock))
  {
    hide PersistObservation, Grounded, AnswerWrite, Observes;
    var write := AnswerWrite(claim.execution, answer, now);
    if write.Some? {
      AnswerObserves(claim.execution, answer, now);
      AnswerRank(claim.execution, answer, now);
    }
    PersistObservationGrounded(st, claim, write, clock);
  }

  lemma ProofGrounded(st: Store, claim: Claim, result: VerificationResult, clock: Time, now: Time)
    requires Grounded(st) && ClaimFits(st.row, Finished(claim)) && claim.execution.status == StatusConfirmed
    ensures Grounded(PersistEvidence(st, claim, ProofWrite(claim.execution, result, now), clock))
  {
    hide PersistEvidence, Grounded, ProofWrite;
    var write := ProofWrite(claim.execution, result, now);
    if write.Some? {
      ProofProves(claim.execution, result, now);
    }
    PersistEvidenceGrounded(st, claim, write, clock);
  }

  lemma QuietGrounded(st: Store, pc: Pc, a: Action)
    requires Grounded(st)
    requires !a.PersistStep? && !a.PersistAlreadyStarted? && !a.PersistAnswer? && !a.PersistVerdict?
    requires !a.PersistProof? && !a.Complete?
    ensures Grounded(Do(st, pc, a).store)
  {
    hide Readable, HasVerified, LatestReference;
  }

  lemma {:induction false} RunGrounded(w: World, actions: seq<Action>)
    requires Inv(w) && Grounded(w.store)
    ensures Grounded(RuntimeProtocol.Run(w, actions).store)
    decreases |actions|
  {
    if actions != [] {
      var a := actions[0];
      NextFits(w, a);
      StepGrounded(w.store, w.verdicts, w.At(a.p), a);
      hide Do, Grounded;
      RunGrounded(Next(w, a), actions[1..]);
    }
  }

  // ---------------------------------------------------------------- exactly when completion is possible

  lemma FreshProcess(processes: map<ProcessId, Pc>) returns (p: ProcessId)
    ensures p !in processes
  {
    p := BeyondAll(processes.Keys);
  }

  lemma {:induction false} BeyondAll(ids: set<ProcessId>) returns (p: ProcessId)
    ensures forall q | q in ids :: q < p
    decreases |ids|
  {
    if ids == {} {
      p := 0;
    } else {
      var q :| q in ids;
      var r := BeyondAll(ids - {q});
      p := if q < r then r else q + 1;
      assert forall x | x in ids :: x == q || x in ids - {q};
    }
  }

  lemma ReadableCompletes(w: World)
    requires Inv(w) && Grounded(w.store) && Named(w.store.row.request) && Readable(w.store.evidence)
    requires !IsTerminal(w.store.row) && w.store.row.revision + 8 <= MAX_REVISION
    ensures CanComplete(w)
  {
    hide CanComplete, Readable, Pointed;
    var p := FreshProcess(w.processes);
    match w.store.row.status
    case StatusCreated => FromEarly(w, p, 8);
    case StatusAuthorized => FromEarly(w, p, 8);
    case StatusQueued => FromEarly(w, p, 8);
    case StatusExecuting => FromExecuting(w, p);
    case StatusSubmitted => FromSubmitted(w, p);
    case StatusConfirming => FromConfirming(w, p);
    case StatusConfirmed => FromConfirmed(w, p);
    case StatusVerified => FromVerified(w, p);
    case StatusRecoveryRequired => FromRecovery(w, p);
    case _ =>
  }

  /** From every reachable state of a non-terminal execution, with room in its revision
      counter, COMPLETED can still be reached if and only if the evidence is readable. */
  lemma CompletesIffReadable(w: World, actions: seq<Action>)
    requires Initial(w) && Named(w.store.row.request)
    requires var mid := RuntimeProtocol.Run(w, actions);
             !IsTerminal(mid.store.row) && mid.store.row.revision + 8 <= MAX_REVISION
    ensures CanComplete(RuntimeProtocol.Run(w, actions)) <==> Readable(RuntimeProtocol.Run(w, actions).store.evidence)
  {
    var mid := RuntimeProtocol.Run(w, actions);
    InitialFits(w);
    RunFits(w, actions);
    RunGrounded(w, actions);
    RunProgresses(w, actions);
    hide RuntimeProtocol.Run, Readable, Inv, Grounded;
    if Readable(mid.store.evidence) {
      ReadableCompletes(mid);
    } else {
      forall more ensures RuntimeProtocol.Run(mid, more).store.row.status != StatusCompleted {
        RecoveryObservationsBlockVerification(w, actions, more);
      }
    }
  }

  lemma ReachesOver(w: World, u: World, v: World)
    requires Reaches(w, u) && Reaches(u, v)
    ensures Reaches(w, v)
  {
    var a :| RuntimeProtocol.Run(w, a) == u;
    var b :| RuntimeProtocol.Run(u, b) == v;
    RunJoined(w, a, b);
  }

  lemma EarlyVisit(w: World, p: ProcessId, status: Status) returns (u: World)
    requires w.store.row.status in {StatusCreated, StatusAuthorized, StatusQueued} && w.At(p).Idle?
    requires Lifecycle.Valid(w.store.row) && w.store.row.revision < MAX_REVISION
    requires ValidTransition(w.store.row.status, status) && status != StatusCancelled
    ensures Reaches(w, u) && u.At(p).Idle? && Lifecycle.Valid(u.store.row)
    ensures u.store.row == MovedTo(w.store.row, status) && u.store.evidence == w.store.evidence
  {
    Moves(w.store.row, status);
    hide Lifecycle.Valid, Transition, Reaches;
    u := PlainVisit(w, p, MovedTo(w.store.row, status));
  }

  lemma UnknownOutcome(row: Execution)
    requires Lifecycle.Valid(row) && row.status == StatusExecuting && row.revision < MAX_REVISION && Named(row.request)
    ensures var write := AnswerWrite(row, NoAnswer, row.updatedAt);
            && write.Some? && write.value.next.status == StatusRecoveryRequired == write.value.observation.status
            && ValidResult(write.value.observation) && !ValidResult(write.value.observation.(errorCode := ""))
            && write.value.observation.executionVersion == write.value.next.revision == row.revision + 1
  {
    var reason := "SUBMISSION_OUTCOME_AMBIGUOUS";
    assert ValidReasonCode(reason);
    assert Trim("") == "" && Trim(reason) == reason;
  }

  /** From every created execution a run leads to unreadable evidence although the execution
      is not terminal: an adapter call whose outcome stayed unknown is enough. */
  lemma UnreadableIsReachable(w: World)
    requires Initial(w) && Named(w.store.row.request) && w.store.row.revision + 4 <= MAX_REVISION
    ensures exists actions ::
              var st := RuntimeProtocol.Run(w, actions).store;
              !Readable(st.evidence) && st.row.status == StatusRecoveryRequired && !IsTerminal(st.row)
  {
    hide Reaches, Readable, AnswerWrite, ValidResult;
    var w2 := EarlyVisit(w, 0, StatusAuthorized);
    var w3 := EarlyVisit(w2, 0, StatusQueued);
    var w4 := EarlyVisit(w3, 0, StatusExecuting);
    var row := w4.store.row;
    UnknownOutcome(row);
    var write := AnswerWrite(row, NoAnswer, row.updatedAt).value;
    var u := AdapterVisit(w4, 0, write, NoAnswer);
    MoreEvidence(w4.store.evidence, write.observation.(errorCode := ""));
    ReachesOver(w, w2, w3);
    ReachesOver(w, w3, w4);
    ReachesOver(w, w4, u);
    ReachesByRun(w, u);
  }

  lemma ReachesByRun(w: World, u: World)
    requires Reaches(w, u)
    ensures exists actions :: RuntimeProtocol.Run(w, actions) == u
  {
  }
}
