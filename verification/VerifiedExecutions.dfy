/** The execution runtime with the chain verifier plugged in. Each process keeps its own
    observation tracker, which a stop empties; every verifier call of a run is logged with the
    tracker memory it found, the pass it made and the evidence stored at that moment. */
module VerifiedExecutions {
  import opened Text
  import opened Receipts
  import opened Observations
  import opened Lifecycle
  import opened ExecutionResults
  import opened RuntimeProtocol
  import ProviderReference
  import ChainVerifier

  type Memory = map<string, ReceiptObservation>

  datatype Reading = Reading(memory: Memory, pass: ChainVerifier.Pass, evidence: seq<Result>)

  /** `readings[i]` belongs to `world.verdicts[i]`. */
  datatype Backed = Backed(world: World, memories: map<ProcessId, Memory>, readings: seq<Reading>)
  {
    function MemoryOf(p: ProcessId): Memory { if p in memories then memories[p] else map[] }
  }

  /** A step of the protocol, or a verifier call in which resolver and chain answer `pass`. */
  datatype Move = Step(action: Action) | Verifies(p: ProcessId, pass: ChainVerifier.Pass)

  /** The verifier's answer is what the chain verifier computes from the process's memory. */
  function Moved(config: ChainVerifier.Config, b: Backed, m: Move): Backed {
    match m
    case Step(a) =>
      if a.CallVerify? then b
      else b.(world := Next(b.world, a), memories := if a.Stop? then b.memories[a.p := map[]] else b.memories)
    case Verifies(p, pass) =>
      if !b.world.At(p).Verifying? then b else
        var v := ChainVerifier.Verify(config, b.MemoryOf(p), b.world.At(p).reference, pass);
        Backed(Next(b.world, CallVerify(p, v.answer)), b.memories[p := v.memory],
               b.readings + [Reading(b.MemoryOf(p), pass, b.world.store.evidence)])
  }

  function BackedRun(config: ChainVerifier.Config, b: Backed, moves: seq<Move>): Backed
    decreases |moves|
  {
    if moves == [] then b else BackedRun(config, Moved(config, b, moves[0]), moves[1..])
  }

  // ---------------------------------------------------------------- what the log says

  predicate Known(evidence: seq<Result>, reference: string) {
    exists e | e in evidence :: e.adapterReference == reference
  }

  /** Verdict i is the answer of the logged pass over the logged memory, about a reference
      that an evidence row already carried. */
  predicate Logged(config: ChainVerifier.Config, v: Verdict, r: Reading) {
    && ChainVerifier.Verify(config, r.memory, v.reference, r.pass).answer == v.answer
    && Known(r.evidence, v.reference)
  }

  ghost predicate LogFits(config: ChainVerifier.Config, b: Backed) {
    && |b.readings| == |b.world.verdicts|
    && (forall i | 0 <= i < |b.readings| :: Logged(config, b.world.verdicts[i], b.readings[i]))
    && (forall i, e | 0 <= i < |b.readings| && e in b.readings[i].evidence :: e in b.world.store.evidence)
    && (forall p: ProcessId | b.world.At(p).Verifying? :: Known(b.world.store.evidence, b.world.At(p).reference))
  }

  /** What one step does to verdicts and to the reference being asked about. */
  lemma StepLogs(st: Store, verdicts: seq<Verdict>, pc: Pc, a: Action)
    requires StoreFits(st, verdicts) && ProcessFits(st, verdicts, pc)
    requires pc.Verifying? ==> Known(st.evidence, pc.reference)
    ensures var effect := Do(st, pc, a);
            && (forall e | e in st.evidence :: e in effect.store.evidence)
            && (effect.pc.Verifying? ==> Known(effect.store.evidence, effect.pc.reference))
            && effect.heard == (if a.CallVerify? && pc.Verifying? then [Verdict(pc.reference, a.verifier)] else [])
  {
    StepFits(st, verdicts, pc, a);
    StepAsks(st, pc, a);
    hide Do, StoreFits, ProcessFits;
  }

  lemma StepAsks(st: Store, pc: Pc, a: Action)
    ensures var effect := Do(st, pc, a);
            && (effect.pc.Verifying? ==>
                  effect.store == st && (effect.pc == pc || Known(st.evidence, effect.pc.reference)))
            && effect.heard == (if a.CallVerify? && pc.Verifying? then [Verdict(pc.reference, a.verifier)] else [])
  {
    hide PlainStep, AnswerWrite, VerdictStepOf, ProofWrite, Transition, RequireRecovery, Lifecycle.Valid, ValidResult,
         IsNew, Inserted, Readable, HasVerified;
  }

  lemma KnownStays(evidence: seq<Result>, more: seq<Result>, reference: string)
    requires Known(evidence, reference) && forall e | e in evidence :: e in more
    ensures Known(more, reference)
  {
    var e :| e in evidence && e.adapterReference == reference;
    assert e in more;
  }

  lemma StepKeepsLog(config: ChainVerifier.Config, b: Backed, a: Action)
    requires Inv(b.world) && LogFits(config, b) && !a.CallVerify?
    ensures LogFits(config, Moved(config, b, Step(a)))
  {
    var w := b.world;
    var b' := Moved(config, b, Step(a));
    StepLogs(w.store, w.verdicts, w.At(a.p), a);
    hide Do, Known, Logged, ProcessFits, StoreFits;
    assert b'.world.verdicts == w.verdicts;
    forall p: ProcessId | b'.world.At(p).Verifying?
      ensures Known(b'.world.store.evidence, b'.world.At(p).reference)
    {
      if p != a.p {
        assert b'.world.At(p) == w.At(p);
        KnownStays(w.store.evidence, b'.world.store.evidence, w.At(p).reference);
      }
    }
  }

  lemma VerifyKeepsLog(config: ChainVerifier.Config, b: Backed, p: ProcessId, pass: ChainVerifier.Pass)
    requires Inv(b.world) && LogFits(config, b) && b.world.At(p).Verifying?
    ensures LogFits(config, Moved(config, b, Verifies(p, pass)))
  {
    hide ChainVerifier.Verify, Known, ProcessFits, StoreFits;
    var b' := Moved(config, b, Verifies(p, pass));
    var n := |b.readings|;
    assert b'.world.store == b.world.store;
    assert Logged(config, b'.world.verdicts[n], b'.readings[n]);
    forall i | 0 <= i < n ensures Logged(config, b'.world.verdicts[i], b'.readings[i]) {
      assert Logged(config, b.world.verdicts[i], b.readings[i]);
    }
    forall q: ProcessId | b'.world.At(q).Verifying?
      ensures Known(b'.world.store.evidence, b'.world.At(q).reference)
    {
      assert q != p && b'.world.At(q) == b.world.At(q);
    }
  }

  lemma {:induction false} RunKeepsLog(config: ChainVerifier.Config, b: Backed, moves: seq<Move>)
    requires Inv(b.world) && LogFits(config, b)
    ensures Inv(BackedRun(config, b, moves).world) && LogFits(config, BackedRun(config, b, moves))
    decreases |moves|
  {
    if moves != [] {
      var m := moves[0];
      match m {
        case Step(a) =>
          NextFits(b.world, a);
          if !a.CallVerify? {
            StepKeepsLog(config, b, a);
          }
        case Verifies(p, pass) =>
          if b.world.At(p).Verifying? {
            var v := ChainVerifier.Verify(config, b.MemoryOf(p), b.world.At(p).reference, pass);
            NextFits(b.world, CallVerify(p, v.answer));
            VerifyKeepsLog(config, b, p, pass);
          }
      }
      hide LogFits, Inv, ChainVerifier.Verify, Next;
      RunKeepsLog(config, Moved(config, b, m), moves[1..]);
    }
  }

  // ---------------------------------------------------------------- every run

  /** The i-th verifier call of the run justifies the evidence row: its own receipt is a
      SUCCESS at the required depth, raised no inconsistency signal, belongs to the reference
      it was asked about, which an earlier evidence row carried, and is the receipt of the
      transaction the row names. */
  predicate JustifiedBy(config: ChainVerifier.Config, b: Backed, i: nat, e: Result)
    requires i < |b.readings| && i < |b.world.verdicts|
  {
    var v, r := b.world.verdicts[i], b.readings[i];
    var evaluation := ChainVerifier.Verify(config, r.memory, v.reference, r.pass).evaluation;
    var asked, named := ProviderReference.Parse(v.reference), ProviderReference.Parse(e.adapterReference);
    && v.answer.Answered? && v.answer.result.outcome == VerifiedOutcome
    && v.answer.result.reference == e.adapterReference
    && r.pass.receipt.Some? && evaluation.Some? && evaluation.value.signal == Consistent
    && named.Some? && ChainVerifier.Justifies(config, named.value, r.pass.receipt.value)
    && asked.Some? && ChainVerifier.Concerns(asked.value, r.pass.receipt.value)
    && Known(r.evidence, v.reference)
  }

  lemma VerdictJustifies(config: ChainVerifier.Config, b: Backed, i: nat, e: Result)
    requires i < |b.readings| && i < |b.world.verdicts| && Logged(config, b.world.verdicts[i], b.readings[i])
    requires var a := b.world.verdicts[i].answer;
             a.Answered? && a.result.outcome == VerifiedOutcome && Trim(a.result.reference) == e.adapterReference
    ensures JustifiedBy(config, b, i, e)
  {
    hide ChainVerifier.Verify, ProviderReference.Parse, ChainVerifier.Justifies, ChainVerifier.Concerns, Known;
    var v, r := b.world.verdicts[i], b.readings[i];
    ChainVerifier.VerifiedMeans(config, r.memory, v.reference, r.pass);
  }

  /** In every run of any number of processes, whatever adapter, resolver and chain answer,
      each VERIFIED evidence row is justified by a verifier call of that very run; so a
      VERIFIED or COMPLETED execution has such a row at its own revision. */
  lemma VerifiedMeansSettled(config: ChainVerifier.Config, w: World, moves: seq<Move>)
    requires Initial(w)
    ensures var last := BackedRun(config, Backed(w, map[], []), moves);
            && |last.readings| == |last.world.verdicts|
            && (forall i, e | 0 <= i < |last.readings| && e in last.readings[i].evidence ::
                  e in last.world.store.evidence)
            && (forall e | e in last.world.store.evidence && e.status == StatusVerified ::
                  exists i | 0 <= i < |last.readings| :: JustifiedBy(config, last, i, e))
            && (last.world.store.row.status == StatusVerified ==>
                  HasVerified(last.world.store.evidence, last.world.store.row.revision))
            && (last.world.store.row.status == StatusCompleted ==>
                  HasVerified(last.world.store.evidence, last.world.store.row.revision - 1))
  {
    InitialFits(w);
    var first := Backed(w, map[], []);
    assert forall p: ProcessId :: w.At(p).Idle?;
    RunKeepsLog(config, first, moves);
    var last := BackedRun(config, first, moves);
    hide BackedRun, JustifiedBy, Logged;
    forall e | e in last.world.store.evidence && e.status == StatusVerified
      ensures exists i | 0 <= i < |last.readings| :: JustifiedBy(config, last, i, e)
    {
      assert VerifiedBy(last.world.verdicts, e.adapterReference);
      var v :| v in last.world.verdicts && v.answer.Answered? && v.answer.result.outcome == VerifiedOutcome
               && Trim(v.answer.result.reference) == e.adapterReference;
      var i :| 0 <= i < |last.world.verdicts| && last.world.verdicts[i] == v;
      assert Logged(config, last.world.verdicts[i], last.readings[i]);
      VerdictJustifies(config, last, i, e);
    }
  }

  /** Such a run is a run of the protocol, so all its other guarantees hold too. */
  lemma {:induction false} BackedIsRun(config: ChainVerifier.Config, b: Backed, moves: seq<Move>)
    ensures exists actions :: BackedRun(config, b, moves).world == RuntimeProtocol.Run(b.world, actions)
    decreases |moves|
  {
    if moves == [] {
      assert b.world == RuntimeProtocol.Run(b.world, []);
    } else {
      var b' := Moved(config, b, moves[0]);
      BackedIsRun(config, b', moves[1..]);
      var actions :| BackedRun(config, b', moves[1..]).world == RuntimeProtocol.Run(b'.world, actions);
      if b' != b {
        var a := match moves[0]
          case Step(action) => action
          case Verifies(p, pass) =>
            CallVerify(p, ChainVerifier.Verify(config, b.MemoryOf(p), b.world.At(p).reference, pass).answer);
        hide ChainVerifier.Verify, Do;
        assert b'.world == Next(b.world, a);
        assert ([a] + actions)[1..] == actions;
        assert RuntimeProtocol.Run(b.world, [a] + actions) == RuntimeProtocol.Run(b'.world, actions);
      }
    }
  }
}
