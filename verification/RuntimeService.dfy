/** The service and worker loop in the source's own form
    (internal/execution/runtime/service.go, internal/execution/runtime/worker.go): methods
    that call the store in sequence. Every call is recorded as a step of the protocol, with
    the steps of other processes in between, so each method is proved to be part of a run of
    the protocol and inherits what every run guarantees. */
module RuntimeService {
  import opened Text
  import opened Receipts
  import opened Lifecycle
  import opened ExecutionResults
  import opened RuntimeProtocol

  /** What the outside does during one visit: the answers of adapter and verifier, the
      database clock at the k-th call, what other processes do before it, and the call at
      which this process stops, if any. */
  datatype Environment = Environment(
    adapter: AdapterAnswer, verifier: VerifierAnswer,
    clock: nat -> Time, others: nat -> seq<Action>, stopsAt: Option<nat>)

  ghost predicate ByOthers(env: Environment, p: ProcessId) {
    forall k: nat, i: nat | i < |env.others(k)| :: env.others(k)[i].p != p
  }

  class ExecutionRuntime {
    var store: Store
    var processes: map<ProcessId, Pc>
    var executes: nat
    var verdicts: seq<Verdict>

    ghost var initial: World
    ghost var trace: seq<Action>

    ghost function WorldWith(rows: Store): World
      reads this
    {
      World(rows, processes, executes, verdicts)
    }

    /** The recorded steps, run from a created execution, lead to the world with these rows. */
    ghost predicate RecordedUpTo(rows: Store)
      reads this
    {
      Initial(initial) && RuntimeProtocol.Run(initial, trace) == WorldWith(rows)
    }

    ghost predicate Valid()
      reads this
    {
      RecordedUpTo(store)
    }

    function At(p: ProcessId): Pc
      reads this
    {
      if p in processes then processes[p] else Idle
    }

    /** The visit went all the way through the protocol, unless the process was stopped. */
    predicate Ended(p: ProcessId, env: Environment)
      reads this
    {
      At(p).Finished? || (At(p).Idle? && env.stopsAt.Some?)
    }

    /** The start of an execution: the service creates it from an accepted request, and the
        runtime work row follows it. */
    constructor (request: Request, nextRunAt: Time)
      requires New(request).Some?
      ensures Valid() && trace == []
      ensures store.row == New(request).value && executes == 0
    {
      var execution := New(request).value;
      store := Store(execution, nextRunAt, "", None, 0, false, []);
      processes := map[];
      executes := 0;
      verdicts := [];
      trace := [];
      initial := World(Store(execution, nextRunAt, "", None, 0, false, []), map[], 0, []);
    }

    /** Every recorded history has the guarantees of every run. */
    lemma Guarantees()
      requires Valid()
      ensures Inv(WorldWith(store)) && executes <= 1
    {
      InitialFits(initial);
      RunFits(initial, trace);
    }

    // -------------------------------------------------------------- recording

    /** Records a call of process p that found the rows `before` and left it at `pc`. */
    method Arrive(p: ProcessId, pc: Pc, ghost before: Store, ghost a: Action)
      requires RecordedUpTo(before) && a.p == p
      requires Do(before, At(p), a) == Quiet(store, pc)
      modifies this`processes, this`trace
      ensures Valid() && trace == old(trace) + [a]
      ensures processes == old(processes)[p := pc]
    {
      RunThen(initial, trace, a);
      assert WorldWith(before).At(p) == At(p);
      processes := processes[p := pc];
      trace := trace + [a];
      assert old(verdicts) + [] == verdicts;
    }

    /** The steps other processes take before the next call of process p. */
    method Interleave(p: ProcessId, steps: seq<Action>)
      requires Valid() && forall i | 0 <= i < |steps| :: steps[i].p != p
      modifies this
      ensures Valid() && old(trace) <= trace && initial == old(initial) && At(p) == old(At(p))
    {
      var i := 0;
      while i < |steps|
        invariant 0 <= i <= |steps|
        invariant Valid() && old(trace) <= trace && initial == old(initial) && At(p) == old(At(p))
      {
        var a := steps[i];
        var effect := Do(store, At(a.p), a);
        RunThen(initial, trace, a);
        assert WorldWith(store).At(a.p) == At(a.p);
        store := effect.store;
        processes := processes[a.p := effect.pc];
        executes := executes + effect.executes;
        verdicts := verdicts + effect.heard;
        trace := trace + [a];
        i := i + 1;
      }
    }

    // -------------------------------------------------------------- the store

    method MarkSubmissionStarted(claim: Claim, clock: Time) returns (marked: Claim, reported: bool)
      modifies this`store
      ensures reported == CanMark(old(store), claim, clock)
      ensures store == if reported then old(store).(started := true) else old(store)
      ensures marked == if reported then claim.(submissionStarted := true) else claim
    {
      if store.owner == claim.owner && store.token == claim.token && store.leaseExpiresAt.Some?
         && store.leaseExpiresAt.value > clock && !store.started {
        store := store.(started := true);
        return claim.(submissionStarted := true), true;
      }
      return claim, false;
    }

    method UpdateClaimedExecution(claim: Claim, next: Execution, expected: uint64, clock: Time) returns (ok: bool)
      modifies this`store
      ensures ok == Updated(old(store), claim, next, expected, clock).Some?
      ensures store == if ok then Updated(old(store), claim, next, expected, clock).value else old(store)
    {
      ok := Lifecycle.Valid(next) && CanWrite(store, claim, next, expected, clock);
      if ok {
        store := store.(row := next);
      }
    }

    method PersistClaimedObservation(claim: Claim, observation: Result, next: Execution, expected: uint64, clock: Time)
      modifies this`store
      ensures var written := ObservationWritten(old(store), claim, observation, next, expected, clock);
              store == if written.Some? then written.value else old(store)
    {
      var stored := observation.(errorCode := "");
      if ValidResult(observation) && observation.executionVersion == next.revision && observation.status == next.status
         && CanWrite(store, claim, next, expected, clock) && IsNew(store.evidence, stored) {
        store := store.(row := next, evidence := Inserted(store.evidence, stored));
      }
    }

    method PersistClaimedEvidence(claim: Claim, proof: Result, next: Execution, expected: uint64, clock: Time)
      modifies this`store
      ensures var written := EvidenceWritten(old(store), claim, proof, next, expected, clock);
              store == if written.Some? then written.value else old(store)
    {
      if ValidResult(proof) && next.status == StatusVerified && proof.status == StatusVerified
         && proof.executionVersion == next.revision
         && CanWrite(store, claim, next, expected, clock) && IsNew(store.evidence, proof) {
        store := store.(row := next, evidence := Inserted(store.evidence, proof));
      }
    }

    method AppendVerificationEvidence(r: Result)
      modifies this`store
      ensures store == Appended(old(store), r)
    {
      if ValidResult(r) && store.row.revision == r.executionVersion && store.row.status == r.status
         && IsNew(store.evidence, r) {
        store := store.(evidence := Inserted(store.evidence, r));
      }
    }

    // -------------------------------------------------------------- reading evidence

    /** None where the evidence cannot be read or names no reference. */
    method FindLatestReference() returns (reference: Option<string>)
      ensures reference == if Readable(store.evidence) && LatestReference(store.evidence) != ""
                           then Some(LatestReference(store.evidence)) else None
    {
      if !Readable(store.evidence) {
        return None;
      }
      var index := |store.evidence|;
      assert store.evidence[..index] == store.evidence;
      while index > 0
        invariant 0 <= index <= |store.evidence|
        invariant LatestReference(store.evidence) == LatestReference(store.evidence[..index])
      {
        index := index - 1;
        assert store.evidence[..index + 1][..index] == store.evidence[..index];
        if store.evidence[index].adapterReference != "" {
          return Some(store.evidence[index].adapterReference);
        }
      }
      return None;
    }

    method HasVerifiedEvidence(value: Execution) returns (found: bool)
      ensures found == (Readable(store.evidence) && HasVerified(store.evidence, value.revision))
    {
      if !Readable(store.evidence) {
        return false;
      }
      var index := 0;
      while index < |store.evidence|
        invariant 0 <= index <= |store.evidence|
        invariant forall i | 0 <= i < index ::
                    store.evidence[i].status != StatusVerified || store.evidence[i].executionVersion != value.revision
      {
        if store.evidence[index].status == StatusVerified && store.evidence[index].executionVersion == value.revision {
          return true;
        }
        index := index + 1;
      }
      return false;
    }

    // -------------------------------------------------------------- one visit

    /** Before the k-th call: the others take their steps, and the process may stop. */
    method Pause(p: ProcessId, env: Environment, k: nat) returns (stopped: bool)
      requires Valid() && ByOthers(env, p)
      modifies this
      ensures Valid() && old(trace) <= trace && initial == old(initial)
      ensures At(p) == if stopped then Idle else old(At(p))
      ensures stopped <==> env.stopsAt == Some(k)
    {
      Interleave(p, env.others(k));
      stopped := env.stopsAt == Some(k);
      if stopped {
        Arrive(p, Idle, store, Stop(p));
      }
    }

    method PersistRow(p: ProcessId, claim: Claim, next: Option<Execution>, clock: Time, ghost a: Action)
      requires Valid() && a.p == p
      requires Do(store, At(p), a) == Quiet(Persist(store, claim, next, clock), Finished(claim))
      modifies this
      ensures Valid() && trace == old(trace) + [a] && initial == old(initial) && At(p) == Finished(claim)
    {
      ghost var before := store;
      if next.Some? {
        var _ := UpdateClaimedExecution(claim, next.value, claim.execution.revision, clock);
      }
      Arrive(p, Finished(claim), before, a);
    }

    method PersistWrite(p: ProcessId, claim: Claim, write: Option<Write>, clock: Time, ghost a: Action)
      requires Valid() && a.p == p
      requires Do(store, At(p), a) == Quiet(PersistObservation(store, claim, write, clock), Finished(claim))
      modifies this
      ensures Valid() && trace == old(trace) + [a] && initial == old(initial) && At(p) == Finished(claim)
    {
      ghost var before := store;
      if write.Some? {
        PersistClaimedObservation(claim, write.value.observation, write.value.next, claim.execution.revision, clock);
      }
      Arrive(p, Finished(claim), before, a);
    }

    method PersistProofWrite(p: ProcessId, claim: Claim, write: Option<Write>, clock: Time, ghost a: Action)
      requires Valid() && a.p == p
      requires Do(store, At(p), a) == Quiet(PersistEvidence(store, claim, write, clock), Finished(claim))
      modifies this
      ensures Valid() && trace == old(trace) + [a] && initial == old(initial) && At(p) == Finished(claim)
    {
      ghost var before := store;
      if write.Some? {
        PersistClaimedEvidence(claim, write.value.observation, write.value.next, claim.execution.revision, clock);
      }
      Arrive(p, Finished(claim), before, a);
    }

    /** Execute, recorded as the step that counts it. */
    method Execute(p: ProcessId, answer: AdapterAnswer)
      requires Valid() && At(p).MustExecute?
      modifies this
      ensures Valid() && trace == old(trace) + [CallExecute(p, answer)] && initial == old(initial)
      ensures executes == old(executes) + 1
      ensures At(p) == AdapterSaid(old(At(p)).claim, answer)
    {
      RunThen(initial, trace, CallExecute(p, answer));
      assert WorldWith(store).At(p) == At(p);
      executes := executes + 1;
      processes := processes[p := AdapterSaid(At(p).claim, answer)];
      trace := trace + [CallExecute(p, answer)];
      assert old(verdicts) + [] == verdicts;
    }

    method Verify(p: ProcessId, answer: VerifierAnswer)
      requires Valid() && At(p).Verifying?
      modifies this
      ensures Valid() && trace == old(trace) + [CallVerify(p, answer)] && initial == old(initial)
      ensures At(p) == VerifierSaid(old(At(p)).claim, old(At(p)).reference, answer)
    {
      RunThen(initial, trace, CallVerify(p, answer));
      assert WorldWith(store).At(p) == At(p);
      verdicts := verdicts + [Verdict(At(p).reference, answer)];
      processes := processes[p := VerifierSaid(At(p).claim, At(p).reference, answer)];
      trace := trace + [CallVerify(p, answer)];
    }

    method Mark(p: ProcessId, claim: Claim, clock: Time) returns (marked: Claim, reported: bool)
      requires Valid() && At(p) == Working(claim)
      requires claim.execution.status == StatusExecuting && !claim.submissionStarted
      modifies this
      ensures Valid() && old(trace) <= trace && initial == old(initial)
      ensures At(p) == if reported then MustExecute(marked) else AlreadyStarted(claim)
    {
      ghost var before := store;
      marked, reported := MarkSubmissionStarted(claim, clock);
      Arrive(p, if reported then MustExecute(marked) else AlreadyStarted(claim), before, MarkSubmission(p, clock));
    }

    method RecordAlreadyStarted(p: ProcessId, claim: Claim, now: Time, clock: Time)
      requires Valid() && At(p) == AlreadyStarted(claim)
      modifies this
      ensures Valid() && old(trace) <= trace && initial == old(initial) && At(p).Finished?
    {
      var next := RequireRecovery(claim.execution, "SUBMISSION_ALREADY_STARTED", now);
      PersistRow(p, claim, next, clock, PersistAlreadyStarted(p, clock, now));
    }

    /** Sets the marker and, only if this call set it, executes. */
    method Submit(p: ProcessId, claim: Claim, now: Time, env: Environment) returns (answered: Option<Claim>)
      requires Valid() && ByOthers(env, p) && At(p) == Working(claim)
      requires claim.execution.status == StatusExecuting && !claim.submissionStarted
      modifies this
      ensures Valid() && old(trace) <= trace && initial == old(initial)
      ensures if answered.Some? then At(p) == AdapterSaid(answered.value, env.adapter) else Ended(p, env)
    {
      var marked, reported := Mark(p, claim, env.clock(0));
      var stopped := Pause(p, env, 1);
      if stopped {
        return None;
      }
      if !reported {
        RecordAlreadyStarted(p, claim, now, env.clock(1));
        return None;
      }
      Execute(p, env.adapter);
      return Some(marked);
    }

    method RecordAnswer(p: ProcessId, claim: Claim, now: Time, env: Environment)
      requires Valid() && ByOthers(env, p) && At(p) == AdapterSaid(claim, env.adapter)
      modifies this
      ensures Valid() && old(trace) <= trace && initial == old(initial)
      ensures Ended(p, env)
    {
      var stopped := Pause(p, env, 2);
      if !stopped {
        PersistWrite(p, claim, AnswerWrite(claim.execution, env.adapter, now), env.clock(2),
                     PersistAnswer(p, env.clock(2), now));
      }
    }

    /** submitOrReconcile: Execute only right after this process set the marker. */
    method SubmitOrReconcile(p: ProcessId, claim: Claim, now: Time, env: Environment)
      requires Valid() && ByOthers(env, p) && At(p) == Working(claim) && claim.execution.status == StatusExecuting
      modifies this
      ensures Valid() && old(trace) <= trace && initial == old(initial)
      ensures Ended(p, env)
    {
      if claim.submissionStarted {
        Arrive(p, AdapterSaid(claim, env.adapter), store, CallGetStatus(p, env.adapter));
        RecordAnswer(p, claim, now, env);
      } else {
        var answered := Submit(p, claim, now, env);
        if answered.Some? {
          RecordAnswer(p, answered.value, now, env);
        }
      }
    }

    /** CONFIRMING moves to CONFIRMED first; the evidence follows under the advanced claim. */
    method ConfirmThenProve(p: ProcessId, claim: Claim, next: Execution, result: VerificationResult, now: Time,
                            env: Environment, ghost a: Action)
      requires Valid() && ByOthers(env, p) && a.p == p
      requires Do(store, At(p), a) == Conclude(store, claim, ConfirmFirst(next, result), env.clock(2))
      modifies this
      ensures Valid() && old(trace) <= trace && initial == old(initial)
      ensures Ended(p, env)
    {
      hide ProofWrite, Lifecycle.Valid, CanWrite, RuntimeProtocol.Run, Initial;
      ghost var before := store;
      var ok := UpdateClaimedExecution(claim, next, claim.execution.revision, env.clock(2));
      if !ok {
        Arrive(p, Finished(claim), before, a);
        return;
      }
      var confirmed := claim.(execution := next);
      Arrive(p, Proving(confirmed, result), before, a);
      var stopped := Pause(p, env, 3);
      if !stopped {
        PersistProofWrite(p, confirmed, ProofWrite(next, result, now), env.clock(3),
                          PersistProof(p, env.clock(3), now));
      }
    }

    method ConcludeVerdict(p: ProcessId, claim: Claim, reference: string, now: Time, env: Environment)
      requires Valid() && ByOthers(env, p) && At(p) == VerifierSaid(claim, reference, env.verifier)
      modifies this
      ensures Valid() && old(trace) <= trace && initial == old(initial)
      ensures Ended(p, env)
    {
      var clock := env.clock(2);
      var step := VerdictStepOf(claim.execution, reference, env.verifier, now);
      ghost var before, a := store, PersistVerdict(p, clock, now);
      assert Do(store, At(p), a) == Conclude(store, claim, step, clock);
      match step {
        case Nothing => Arrive(p, Finished(claim), before, a);
        case UpdateRow(next) => PersistRow(p, claim, Some(next), clock, a);
        case AppendPending(r) =>
          AppendVerificationEvidence(r);
          Arrive(p, Finished(claim), before, a);
        case Observe(write) => PersistWrite(p, claim, Some(write), clock, a);
        case Prove(write) => PersistProofWrite(p, claim, Some(write), clock, a);
        case ConfirmFirst(next, result) => ConfirmThenProve(p, claim, next, result, now, env, a);
      }
    }

    method Reference(p: ProcessId, claim: Claim) returns (reference: Option<string>)
      requires Valid() && At(p) == Working(claim) && claim.execution.status in {StatusConfirming, StatusConfirmed}
      modifies this
      ensures Valid() && old(trace) <= trace && initial == old(initial)
      ensures At(p) == if reference.Some? then Verifying(claim, reference.value) else Finished(claim)
    {
      reference := FindLatestReference();
      Arrive(p, if reference.Some? then Verifying(claim, reference.value) else Finished(claim), store,
             ReadReference(p));
    }

    /** verify: evidence VERIFIED is written only for a verifier answer VERIFIED. */
    method VerifyOutcome(p: ProcessId, claim: Claim, now: Time, env: Environment)
      requires Valid() && ByOthers(env, p) && At(p) == Working(claim)
      requires claim.execution.status in {StatusConfirming, StatusConfirmed}
      modifies this
      ensures Valid() && old(trace) <= trace && initial == old(initial)
      ensures Ended(p, env)
    {
      var reference := Reference(p, claim);
      if reference.None? {
        return;
      }
      var stopped := Pause(p, env, 1);
      if stopped {
        return;
      }
      Verify(p, env.verifier);
      stopped := Pause(p, env, 2);
      if !stopped {
        ConcludeVerdict(p, claim, reference.value, now, env);
      }
    }

    method CompleteVerified(p: ProcessId, claim: Claim, now: Time, env: Environment)
      requires Valid() && ByOthers(env, p) && At(p) == Working(claim) && claim.execution.status == StatusVerified
      modifies this
      ensures Valid() && old(trace) <= trace && initial == old(initial)
      ensures Ended(p, env)
    {
      hide Transition, Lifecycle.Valid, HasVerified, RuntimeProtocol.Run, Initial;
      var verified := HasVerifiedEvidence(claim.execution);
      Arrive(p, if verified then EvidenceSeen(claim) else Finished(claim), store, CheckEvidence(p));
      if verified {
        var stopped := Pause(p, env, 1);
        if !stopped {
          PersistRow(p, claim, Transition(claim.execution, StatusCompleted, now), env.clock(1),
                     Complete(p, env.clock(1), now));
        }
      }
    }

    /** processClaim: one visit under a claim, whatever the outside does meanwhile. */
    method ProcessClaim(p: ProcessId, claim: Claim, now: Time, env: Environment)
      requires Valid() && ByOthers(env, p) && At(p) == Working(claim)
      modifies this
      ensures Valid() && old(trace) <= trace && initial == old(initial)
      ensures Ended(p, env)
      ensures executes <= 1 && Inv(WorldWith(store))
    {
      hide PlainStep, RuntimeProtocol.Run, Initial;
      var stopped := Pause(p, env, 0);
      if !stopped {
        match claim.execution.status {
          case StatusExecuting => SubmitOrReconcile(p, claim, now, env);
          case StatusConfirming => VerifyOutcome(p, claim, now, env);
          case StatusConfirmed => VerifyOutcome(p, claim, now, env);
          case StatusVerified => CompleteVerified(p, claim, now, env);
          case _ =>
            PersistRow(p, claim, PlainStep(claim.execution, now), env.clock(0), PersistStep(p, env.clock(0), now));
        }
      }
      Guarantees();
    }

    method LeaseWork(p: ProcessId, workerID: string, duration: Time, clock: Time) returns (taken: bool)
      requires Valid() && At(p).Idle?
      modifies this
      ensures Valid() && old(trace) <= trace && initial == old(initial)
      ensures if taken then At(p) == Leased(workerID, store.token, store.started) else At(p).Idle?
    {
      var leased := TakenLease(store, workerID, clock, duration);
      if leased.None? {
        return false;
      }
      ghost var before := store;
      store := leased.value;
      Arrive(p, Leased(workerID, store.token, store.started), before, TakeLease(p, workerID, clock, duration));
      return true;
    }

    /** The lease of the claim is still held at the clock of the final check. */
    predicate Held(claim: Claim, env: Environment)
      reads this
    {
      Holds(store, claim.owner, claim.token, env.clock(1))
    }

    /** Reads the row after the lease was taken, then checks that the lease is still held. */
    method LoadClaim(p: ProcessId, workerID: string, token: nat, startedThen: bool, env: Environment)
      returns (claim: Option<Claim>)
      requires Valid() && ByOthers(env, p) && At(p) == Leased(workerID, token, startedThen)
      modifies this
      ensures Valid() && old(trace) <= trace && initial == old(initial)
      ensures At(p) == if claim.Some? then Working(claim.value) else Idle
      ensures claim.Some? ==> claim.value.owner == workerID && Held(claim.value, env)
    {
      hide RuntimeProtocol.Run, Initial;
      var loaded := Claim(store.row, workerID, token, startedThen);
      Arrive(p, Loaded(loaded), store, LoadRow(p));
      var stopped := Pause(p, env, 1);
      if stopped {
        return None;
      }
      var held := Holds(store, workerID, token, env.clock(1));
      Arrive(p, if held then Working(loaded) else Idle, store, CheckClaim(p, env.clock(1)));
      return if held then Some(loaded) else None;
    }

    /** ClaimNextExecutionWork: take the lease, read the row, check the lease is still held. */
    method ClaimWork(p: ProcessId, workerID: string, duration: Time, env: Environment) returns (claim: Option<Claim>)
      requires Valid() && ByOthers(env, p) && At(p).Idle?
      modifies this
      ensures Valid() && old(trace) <= trace && initial == old(initial)
      ensures At(p) == if claim.Some? then Working(claim.value) else Idle
      ensures claim.Some? ==> claim.value.owner == workerID && Held(claim.value, env)
    {
      hide RuntimeProtocol.Run, Initial;
      var taken := LeaseWork(p, workerID, duration, env.clock(0));
      if !taken {
        return None;
      }
      var token, startedThen := store.token, store.started;
      var stopped := Pause(p, env, 0);
      if stopped {
        return None;
      }
      claim := LoadClaim(p, workerID, token, startedThen, env);
    }

    method ReleaseWork(p: ProcessId, nextRunAt: Time)
      requires Valid() && At(p).Finished?
      modifies this
      ensures Valid() && old(trace) <= trace && initial == old(initial) && At(p).Idle?
    {
      ghost var before := store;
      var claim := At(p).claim;
      store := Released(store, claim, nextRunAt);
      Arrive(p, Idle, before, Release(p, nextRunAt));
    }

    /** Worker.Run for a given number of rounds, the source's loop being endless. `fails` says
        in which rounds a call reports an error, which ends the loop, after the release if work
        was claimed; released work is due again after `retry`. */
    method WorkerRun(p: ProcessId, workerID: string, duration: Time, retry: Time, rounds: nat, now: nat -> Time,
                     fails: nat -> bool, claiming: nat -> Environment, processing: nat -> Environment)
      requires Valid() && At(p).Idle?
      requires forall k: nat :: ByOthers(claiming(k), p) && ByOthers(processing(k), p)
      modifies this
      ensures Valid() && old(trace) <= trace && At(p).Idle?
      ensures executes <= 1 && Inv(WorldWith(store))
    {
      var round := 0;
      while round < rounds
        invariant Valid() && old(trace) <= trace && initial == old(initial) && At(p).Idle?
      {
        var claim := ClaimWork(p, workerID, duration, claiming(round));
        if claim.Some? {
          ProcessClaim(p, claim.value, now(round), processing(round));
          if At(p).Finished? {
            ReleaseWork(p, now(round) + retry);
          }
        }
        if fails(round) {
          break;
        }
        round := round + 1;
      }
      Guarantees();
    }
  }
}
