/** On-chain verification (internal/providers/verifier.go, internal/providers/classification.go):
    a parsed reference, one receipt and the observation baseline give the verifier's answer. */
module ChainVerifier {
  import opened Text
  import opened Receipts
  import opened Observations
  import opened ProviderReference
  import opened ExecutionResults

  /** `digest` stands for LogFingerprint, a hash of the normalized logs. */
  datatype Config = Config(minConfirmations: uint64, digest: seq<ReceiptLog> -> string)

  /** What the outside answers during one pass: the resolver, the chain client, the clock. */
  datatype Pass = Pass(resolved: Option<Reference>, receipt: Option<Receipt>, now: Time)

  // ---------------------------------------------------------------- outcome classification

  datatype Classification = PreSubmissionValidationFailure | UserAuthorizationRequired | TransientProviderError
    | PermanentProviderRejection | AmbiguousSubmission | SubmittedPending | ConfirmedOnchainFailed | VerifiedSuccess

  datatype Outcome = Outcome(
    kind: Classification, reasonCode: string, reference: Reference, hasReference: bool, observedAt: Time)

  predicate ValidOutcome(o: Outcome) {
    && o.observedAt != 0
    && (if o.kind == SubmittedPending || o.kind == VerifiedSuccess then o.reasonCode == "" && o.hasReference
        else ValidReasonCode(o.reasonCode))
    && (o.hasReference ==> ProviderReference.Valid(o.reference))
  }

  function VerificationOf(o: Outcome): VerifierAnswer {
    var encoded := if o.hasReference then Encode(o.reference) else Some("");
    if !ValidOutcome(o) || encoded.None? then Unclear
    else
      match o.kind
      case VerifiedSuccess => Answered(VerificationResult(VerifiedOutcome, encoded.value, "", o.observedAt))
      case ConfirmedOnchainFailed => Answered(VerificationResult(FailedOutcome, "", o.reasonCode, o.observedAt))
      case TransientProviderError => Unavailable(o.reasonCode)
      case _ =>
        if encoded.value == "" then Unavailable(o.reasonCode)
        else Answered(VerificationResult(Pending, encoded.value, "", o.observedAt))
  }

  function PendingAnswer(reference: Reference, now: Time): VerifierAnswer {
    var encoded := Encode(reference);
    if encoded.None? then Unclear else Answered(VerificationResult(Pending, encoded.value, "", now))
  }

  // ---------------------------------------------------------------- one pass

  datatype Resolution = Resolved(reference: Reference) | ResolverDown | ResolverRejected

  function ResolveHash(reference: Reference, resolved: Option<Reference>): Resolution {
    if reference.transactionHash != "" then Resolved(reference)
    else if resolved.None? then ResolverDown
    else if resolved.value.provider != reference.provider || resolved.value.chainID != reference.chainID then
      ResolverRejected
    else if reference.providerTransactionID != ""
            && resolved.value.providerTransactionID != reference.providerTransactionID then ResolverRejected
    else if !ProviderReference.Valid(resolved.value) then ResolverRejected
    else Resolved(resolved.value)
  }

  predicate ReceiptMatches(reference: Reference, receipt: Receipt) {
    receipt.status == Unknown
    || (receipt.chainID == reference.chainID && EqualFold(receipt.transactionHash, reference.transactionHash))
  }

  function CurrentObservation(config: Config, reference: Reference, receipt: Receipt): ReceiptObservation {
    FromReceipt(receipt, IsPresent(receipt), config.digest).(
      chainID := reference.chainID, transactionHash := reference.transactionHash)
  }

  /** The answer to a receipt, given the comparison with the baseline. */
  function Judge(config: Config, reference: Reference, receipt: Receipt, signal: Signal, now: Time): VerifierAnswer {
    if signal != Consistent || receipt.status == ReorgInconsistent then PendingAnswer(reference, now)
    else
      match receipt.status
      case Success =>
        if receipt.confirmations < config.minConfirmations then PendingAnswer(reference, now)
        else VerificationOf(Outcome(VerifiedSuccess, "", reference, true, now))
      case Reverted => VerificationOf(Outcome(ConfirmedOnchainFailed, "ONCHAIN_EXECUTION_REVERTED", reference, true,
                                              now))
      case _ => PendingAnswer(reference, now)
  }

  datatype Verification = Verification(
    answer: VerifierAnswer, evaluation: Option<Evaluation>, memory: map<string, ReceiptObservation>)

  function Unobserved(answer: VerifierAnswer, memory: map<string, ReceiptObservation>): Verification {
    Verification(answer, None, memory)
  }

  function Verify(
    config: Config, memory: map<string, ReceiptObservation>, encoded: string, pass: Pass
  ): Verification {
    var parsed := Parse(encoded);
    if parsed.None? then Unobserved(Unclear, memory) else
      match ResolveHash(parsed.value, pass.resolved)
      case ResolverDown => Unobserved(Unavailable("PROVIDER_RECONCILIATION_UNAVAILABLE"), memory)
      case ResolverRejected => Unobserved(Unclear, memory)
      case Resolved(reference) =>
        if reference.transactionHash == "" then Unobserved(PendingAnswer(reference, pass.now), memory)
        else if pass.receipt.None? then Unobserved(Unavailable("CHAIN_VERIFICATION_UNAVAILABLE"), memory)
        else Observe(config, memory, reference, pass.receipt.value, pass.now)
  }

  function Observe(
    config: Config, memory: map<string, ReceiptObservation>, reference: Reference, receipt: Receipt, now: Time
  ): Verification {
    if !ReceiptMatches(reference, receipt) then Unobserved(Unclear, memory) else
      var evaluation := Evaluated(memory, ReceiptObservationOf(reference),
                                  CurrentObservation(config, reference, receipt));
      var updated := WithReceiptObservation(reference, evaluation.merged);
      Verification(Judge(config, updated, receipt, evaluation.signal, now), Some(evaluation), evaluation.memory)
  }

  class Verifier {
    const config: Config
    const observations: ObservationTracker

    constructor (config: Config)
      requires config.minConfirmations >= 1
      ensures this.config == config && fresh(observations) && observations.byTX == map[]
    {
      this.config := config;
      observations := new ObservationTracker();
    }

    /** VerifyObservation: one receipt read, one tracker update. */
    method VerifyObservation(encoded: string, pass: Pass) returns (answer: VerifierAnswer)
      modifies observations
      ensures var v := Verify(config, old(observations.byTX), encoded, pass);
              answer == v.answer && observations.byTX == v.memory
    {
      var parsed := ParseReference(encoded);
      if parsed.None? {
        return Unclear;
      }
      var reference := parsed.value;
      match ResolveHash(reference, pass.resolved) {
        case ResolverDown => return Unavailable("PROVIDER_RECONCILIATION_UNAVAILABLE");
        case ResolverRejected => return Unclear;
        case Resolved(resolved) => reference := resolved;
      }
      if reference.transactionHash == "" {
        return PendingAnswer(reference, pass.now);
      }
      if pass.receipt.None? {
        return Unavailable("CHAIN_VERIFICATION_UNAVAILABLE");
      }
      var receipt := pass.receipt.value;
      if !ReceiptMatches(reference, receipt) {
        return Unclear;
      }
      var current := CurrentObservation(config, reference, receipt);
      var signal, merged := observations.Evaluate(ReceiptObservationOf(reference), current);
      reference := WithReceiptObservation(reference, merged);
      return Judge(config, reference, receipt, signal, pass.now);
    }
  }

  // ---------------------------------------------------------------- what VERIFIED and FAILED mean

  /** The receipt that justifies a verified reference: SUCCESS, on that chain, for that
      transaction, deep enough. */
  predicate Justifies(config: Config, reference: Reference, receipt: Receipt) {
    && receipt.status == Success
    && receipt.chainID == reference.chainID
    && EqualFold(receipt.transactionHash, reference.transactionHash)
    && receipt.confirmations >= config.minConfirmations
    && reference.obsPresent && reference.obsConfirmations == receipt.confirmations
  }

  /** The receipt belongs to the chain of the reference asked about and, once that names a
      transaction, to that transaction. */
  predicate Concerns(asked: Reference, receipt: Receipt) {
    && receipt.chainID == asked.chainID
    && (asked.transactionHash != "" ==> EqualFold(receipt.transactionHash, asked.transactionHash))
  }

  lemma UpdatedReference(reference: Reference, o: ReceiptObservation)
    requires reference.transactionHash != ""
    ensures var updated := WithReceiptObservation(reference, o);
            && Normalised(updated) == updated
            && updated.chainID == reference.chainID && updated.transactionHash == reference.transactionHash
            && updated.provider == reference.provider
            && updated.obsPresent == o.present && updated.obsConfirmations == o.confirmations
            && updated.obsBlockNumber == o.blockNumber
            && updated.obsBlockHash == Normal(o.blockHash) && updated.obsLogFingerprint == Normal(o.logFingerprint)
            && updated.obsKnown == (o.HasInclusion() || o.logFingerprint != "")
  {
    NormalIdempotent(o.blockHash);
    NormalIdempotent(o.logFingerprint);
    assert Normal("") == "";
  }

  /** Neither pending nor an error. */
  predicate Concludes(a: VerifierAnswer) { a.Answered? && a.result.outcome != Pending }

  lemma ConcludesByObserving(config: Config, memory: map<string, ReceiptObservation>, encoded: string, pass: Pass)
    requires Concludes(Verify(config, memory, encoded, pass).answer)
    ensures pass.receipt.Some? && Parse(encoded).Some? && ResolveHash(Parse(encoded).value, pass.resolved).Resolved?
    ensures ResolveHash(Parse(encoded).value, pass.resolved).reference.transactionHash != ""
    ensures Verify(config, memory, encoded, pass)
         == Observe(config, memory, ResolveHash(Parse(encoded).value, pass.resolved).reference, pass.receipt.value,
                    pass.now)
  {
  }

  lemma JudgesVerified(config: Config, reference: Reference, receipt: Receipt, signal: Signal, now: Time)
    requires var a := Judge(config, reference, receipt, signal, now); a.Answered? && a.result.outcome == VerifiedOutcome
    ensures signal == Consistent && receipt.status == Success && receipt.confirmations >= config.minConfirmations
    ensures Encode(reference) == Some(Judge(config, reference, receipt, signal, now).result.reference)
  {
  }

  lemma JudgesFailed(config: Config, reference: Reference, receipt: Receipt, signal: Signal, now: Time)
    requires var a := Judge(config, reference, receipt, signal, now); a.Answered? && a.result.outcome == FailedOutcome
    ensures signal == Consistent && receipt.status == Reverted
  {
  }

  lemma ObservesVerified(
    config: Config, memory: map<string, ReceiptObservation>, reference: Reference, receipt: Receipt, now: Time)
    requires reference.transactionHash != ""
    requires var a := Observe(config, memory, reference, receipt,
                              now).answer; a.Answered? && a.result.outcome == VerifiedOutcome
    ensures var v := Observe(config, memory, reference, receipt, now);
            && v.evaluation.Some? && v.evaluation.value.signal == Consistent
            && var updated := WithReceiptObservation(reference, v.evaluation.value.merged);
            && Normalised(updated) == updated
            && Encode(updated) == Some(v.answer.result.reference)
            && Justifies(config, updated, receipt)
  {
    var evaluation := Evaluated(memory, ReceiptObservationOf(reference),
                                CurrentObservation(config, reference, receipt));
    var updated := WithReceiptObservation(reference, evaluation.merged);
    UpdatedReference(reference, evaluation.merged);
    JudgesVerified(config, updated, receipt, evaluation.signal, now);
  }

  /** VERIFIED is only ever answered for a SUCCESS receipt at the required depth, consistent
      with the baseline, that belongs to the reference asked about; and the answered reference
      names that very transaction. */
  lemma VerifiedMeans(config: Config, memory: map<string, ReceiptObservation>, encoded: string, pass: Pass)
    requires var a := Verify(config, memory, encoded, pass).answer; a.Answered? && a.result.outcome == VerifiedOutcome
    ensures var v := Verify(config, memory, encoded, pass);
            && pass.receipt.Some? && v.evaluation.Some? && v.evaluation.value.signal == Consistent
            && Parse(v.answer.result.reference).Some?
            && Justifies(config, Parse(v.answer.result.reference).value, pass.receipt.value)
            && Trim(v.answer.result.reference) == v.answer.result.reference
    ensures Parse(encoded).Some? && Concerns(Parse(encoded).value, pass.receipt.value)
  {
    ConcludesByObserving(config, memory, encoded, pass);
    var reference := ResolveHash(Parse(encoded).value, pass.resolved).reference;
    ObservesVerified(config, memory, reference, pass.receipt.value, pass.now);
    var v := Observe(config, memory, reference, pass.receipt.value, pass.now);
    var updated := WithReceiptObservation(reference, v.evaluation.value.merged);
    RoundTrip(updated);
    EncodedIsTrimmed(updated);
  }

  /** FAILED is only ever answered for a REVERTED receipt of that transaction. */
  lemma FailedMeans(config: Config, memory: map<string, ReceiptObservation>, encoded: string, pass: Pass)
    requires var a := Verify(config, memory, encoded, pass).answer; a.Answered? && a.result.outcome == FailedOutcome
    ensures pass.receipt.Some? && pass.receipt.value.status == Reverted
    ensures Verify(config, memory, encoded, pass).evaluation.Some?
    ensures Verify(config, memory, encoded, pass).evaluation.value.signal == Consistent
    ensures Parse(encoded).Some? && Concerns(Parse(encoded).value, pass.receipt.value)
  {
    ConcludesByObserving(config, memory, encoded, pass);
    var reference := ResolveHash(Parse(encoded).value, pass.resolved).reference;
    var receipt := pass.receipt.value;
    var evaluation := Evaluated(memory, ReceiptObservationOf(reference),
                                CurrentObservation(config, reference, receipt));
    JudgesFailed(config, WithReceiptObservation(reference, evaluation.merged), receipt, evaluation.signal, pass.now);
  }

  // ---------------------------------------------------------------- restarts

  /** The part of an observation that comparing and merging read. */
  datatype Core = Core(
    present: bool, known: bool, blockHash: string, blockNumber: uint64, confirmations: uint64, logFingerprint: string)

  function CoreOf(o: ReceiptObservation): Core {
    Core(o.present, o.known, o.blockHash, o.blockNumber, o.confirmations, o.logFingerprint)
  }

  /** Process memory, if it knows the transaction, holds what the reference would seed. */
  predicate InStep(memory: map<string, ReceiptObservation>, reference: Reference) {
    var key := Key(reference.chainID, reference.transactionHash);
    key in memory ==> CoreOf(memory[key]) == CoreOf(ReceiptObservationOf(reference))
  }

  /** Merging reads the prior's core, or only that it has no inclusion. */
  lemma MergeOfCores(a: ReceiptObservation, b: ReceiptObservation, current: ReceiptObservation)
    requires CoreOf(a) == CoreOf(b) || (!a.HasInclusion() && !b.HasInclusion())
    ensures Merge(a, current) == Merge(b, current) && Compare(a, current) == Compare(b, current)
  {
    hide Normal;
  }

  /** Whatever memory holds, a pass in step with the durable reference computes the same. */
  lemma EvaluatesAlike(
    memory: map<string, ReceiptObservation>, fewer: map<string, ReceiptObservation>, reference: Reference,
    current: ReceiptObservation)
    requires InStep(memory, reference) && InStep(fewer, reference)
    requires current.chainID == reference.chainID != "" && current.transactionHash == reference.transactionHash != ""
    ensures var a := Evaluated(memory, ReceiptObservationOf(reference), current);
            var b := Evaluated(fewer, ReceiptObservationOf(reference), current);
            a.signal == b.signal && a.merged == b.merged
  {
    var key := Key(reference.chainID, reference.transactionHash);
    var durable := ReceiptObservationOf(reference);
    if key in memory { MergeOfCores(memory[key], durable, current); }
    if key in fewer { MergeOfCores(fewer[key], durable, current); }
  }

  lemma CoreSurvives(reference: Reference, merged: ReceiptObservation)
    requires reference.transactionHash != ""
    requires merged.blockHash == Normal(merged.blockHash) && merged.logFingerprint == Normal(merged.logFingerprint)
    requires merged.present ==> merged.known
    requires !merged.known ==> merged.blockHash == "" && merged.blockNumber == 0 && merged.logFingerprint == ""
    requires Encode(WithReceiptObservation(reference, merged)).Some?
    ensures CoreOf(ReceiptObservationOf(WithReceiptObservation(reference, merged))) == CoreOf(merged)
  {
    UpdatedReference(reference, merged);
    NormalIdempotent(merged.blockHash);
  }

  /** Observations as merged: normal, and blank while nothing is known. */
  predicate WellMerged(o: ReceiptObservation) {
    && o.blockHash == Normal(o.blockHash) && o.logFingerprint == Normal(o.logFingerprint)
    && (o.present ==> o.known)
    && (!o.known ==> o.blockHash == "" && o.blockNumber == 0 && o.logFingerprint == "")
  }

  lemma MergeSettles(prior: ReceiptObservation, current: ReceiptObservation)
    requires WellMerged(prior) && IsPass(current)
    ensures WellMerged(Merge(prior, current))
  {
    NormalIdempotent(current.blockHash);
    NormalIdempotent(current.logFingerprint);
    assert Normal("") == "";
  }

  lemma DurableWellMerged(reference: Reference)
    ensures WellMerged(ReceiptObservationOf(reference))
  {
    NormalIdempotent(reference.obsBlockHash);
    NormalIdempotent(reference.obsLogFingerprint);
    assert Normal("") == "";
  }

  /** Memory against the durable string: nothing observed yet, or in step. */
  predicate Follows(memory: map<string, ReceiptObservation>, encoded: string) {
    var parsed := Parse(encoded);
    parsed.Some? ==> (if parsed.value.transactionHash == "" then memory == map[] else InStep(memory, parsed.value))
  }

  lemma PriorWellMerged(memory: map<string, ReceiptObservation>, reference: Reference)
    requires InStep(memory, reference)
    ensures var key := Key(reference.chainID, reference.transactionHash);
            WellMerged(if key in memory then memory[key] else ReceiptObservationOf(reference))
  {
    DurableWellMerged(reference);
  }

  lemma CurrentIsPass(config: Config, reference: Reference, receipt: Receipt)
    ensures IsPass(CurrentObservation(config, reference, receipt))
  {
    FromReceiptIsPass(receipt, config.digest);
  }

  lemma MergedStaysInStep(memory: map<string, ReceiptObservation>, reference: Reference, current: ReceiptObservation)
    requires InStep(memory, reference) && IsPass(current)
    requires current.chainID == reference.chainID != "" && current.transactionHash == reference.transactionHash != ""
    requires Normal(reference.transactionHash) != ""
    ensures var e := Evaluated(memory, ReceiptObservationOf(reference), current);
            var updated := WithReceiptObservation(reference, e.merged);
            Encode(updated).Some? ==> InStep(e.memory, updated) && updated.transactionHash != ""
  {
    var e := Evaluated(memory, ReceiptObservationOf(reference), current);
    var key := Key(reference.chainID, reference.transactionHash);
    var prior := if key in memory then memory[key] else ReceiptObservationOf(reference);
    PriorWellMerged(memory, reference);
    MergeSettles(prior, current);
    NormalIdempotent(reference.transactionHash);
    UpdatedReference(reference, e.merged);
    if Encode(WithReceiptObservation(reference, e.merged)).Some? {
      CoreSurvives(reference, e.merged);
    }
  }

  lemma HashIsNormal(hash: string)
    requires ValidTransactionHash(hash)
    ensures Normal(hash) == hash != ""
  {
    HashIsPlain(hash);
    assert !IsSpace(hash[0]) && !IsSpace(hash[|hash| - 1]);
  }

  /** The durable reference the next pass starts from: none after a conclusive failure, nor
      when this pass's observation did not fit in an encoded reference. */
  function NextReference(encoded: string, answer: VerifierAnswer, observed: bool): Option<string> {
    match answer
    case Answered(result) => if result.outcome == FailedOutcome then None else Some(result.reference)
    case Unavailable(_) => Some(encoded)
    case Unclear => if observed then None else Some(encoded)
  }

  lemma PendingReference(reference: Reference, now: Time, encoded: string)
    ensures NextReference(encoded, PendingAnswer(reference, now), true) == Encode(reference)
  {
  }

  lemma VerifiedReference(reference: Reference, now: Time, encoded: string)
    ensures var next := NextReference(encoded, VerificationOf(Outcome(VerifiedSuccess, "", reference, true, now)),
                                      true);
            next.Some? ==> next == Encode(reference)
  {
  }

  lemma RevertedReference(reference: Reference, now: Time, encoded: string)
    ensures NextReference(encoded, VerificationOf(
              Outcome(ConfirmedOnchainFailed, "ONCHAIN_EXECUTION_REVERTED", reference, true, now)), true).None?
  {
  }

  lemma JudgedReference(
    config: Config, reference: Reference, receipt: Receipt, signal: Signal, now: Time, encoded: string)
    requires NextReference(encoded, Judge(config, reference, receipt, signal, now), true).Some?
    ensures NextReference(encoded, Judge(config, reference, receipt, signal, now), true) == Encode(reference)
  {
    PendingReference(reference, now, encoded);
    VerifiedReference(reference, now, encoded);
    RevertedReference(reference, now, encoded);
  }

  /** Two processes in step with the same reference see the same pass, and stay in step. */
  lemma ObserveAlike(
    config: Config, memory: map<string, ReceiptObservation>, fewer: map<string, ReceiptObservation>,
    reference: Reference, receipt: Receipt, now: Time, encoded: string)
    requires ProviderReference.Valid(reference) && reference.transactionHash != ""
    requires InStep(memory, reference) && InStep(fewer, reference)
    ensures var a := Observe(config, memory, reference, receipt, now);
            var b := Observe(config, fewer, reference, receipt, now);
            && SameReport(a, b)
            && var next := NextReference(encoded, a.answer, true);
            && (ReceiptMatches(reference, receipt) && next.Some? ==>
                  Follows(a.memory, next.value) && Follows(b.memory, next.value))
  {
    var current := CurrentObservation(config, reference, receipt);
    EvaluatesAlike(memory, fewer, reference, current);
    if ReceiptMatches(reference, receipt) {
      var e := Evaluated(memory, ReceiptObservationOf(reference), current);
      var updated := WithReceiptObservation(reference, e.merged);
      var answer := Judge(config, updated, receipt, e.signal, now);
      if NextReference(encoded, answer, true).Some? {
        JudgedReference(config, updated, receipt, e.signal, now, encoded);
        RoundTrip(updated);
        UpdatedReference(reference, e.merged);
        HashIsNormal(reference.transactionHash);
        CurrentIsPass(config, reference, receipt);
        MergedStaysInStep(memory, reference, current);
        MergedStaysInStep(fewer, reference, current);
      }
    }
  }

  /** The same answer, signal and merged observation; memories may differ. */
  predicate SameReport(a: Verification, b: Verification) {
    && a.answer == b.answer
    && (a.evaluation.Some? <==> b.evaluation.Some?)
    && (a.evaluation.Some? ==> a.evaluation.value.signal == b.evaluation.value.signal)
    && (a.evaluation.Some? ==> a.evaluation.value.merged == b.evaluation.value.merged)
  }

  lemma VerifyAlike(
    config: Config, memory: map<string, ReceiptObservation>, fewer: map<string, ReceiptObservation>,
    encoded: string, pass: Pass)
    requires Follows(memory, encoded) && Follows(fewer, encoded)
    ensures var a := Verify(config, memory, encoded, pass);
            var b := Verify(config, fewer, encoded, pass);
            && SameReport(a, b)
            && var next := NextReference(encoded, a.answer, a.evaluation.Some?);
            && (next.Some? ==> Follows(a.memory, next.value) && Follows(b.memory, next.value))
  {
    var parsed := Parse(encoded);
    if parsed.Some? {
      var resolution := ResolveHash(parsed.value, pass.resolved);
      if resolution.Resolved? {
        var reference := resolution.reference;
        if reference.transactionHash == "" {
          PendingFollows(memory, fewer, reference, pass.now);
        } else if pass.receipt.Some? {
          ObserveAlike(config, memory, fewer, reference, pass.receipt.value, pass.now, encoded);
        }
      }
    }
  }

  lemma PendingFollows(
    memory: map<string, ReceiptObservation>, fewer: map<string, ReceiptObservation>, reference: Reference, now: Time)
    requires reference.transactionHash == "" && memory == fewer == map[]
    ensures Encode(reference).Some? ==>
              Follows(memory, Encode(reference).value) && Follows(fewer, Encode(reference).value)
  {
    if Encode(reference).Some? {
      RoundTrip(reference);
    }
  }

  // ---------------------------------------------------------------- whole runs

  /** A pass, preceded by a restart of the process or not. */
  datatype Turn = Turn(restart: bool, pass: Pass)

  datatype Report = Report(answer: VerifierAnswer, signal: Option<Signal>, merged: Option<ReceiptObservation>)

  function ReportOf(v: Verification): Report {
    if v.evaluation.None? then Report(v.answer, None, None)
    else Report(v.answer, Some(v.evaluation.value.signal), Some(v.evaluation.value.merged))
  }

  /** Reconciliation passes: each starts from the reference the previous one persisted; a
      restart forgets the tracker's memory. */
  function Reports(
    config: Config, memory: map<string, ReceiptObservation>, encoded: string, turns: seq<Turn>
  ): seq<Report>
    decreases |turns|
  {
    if turns == [] then [] else
      var v := Verify(config, if turns[0].restart then map[] else memory, encoded, turns[0].pass);
      var next := NextReference(encoded, v.answer, v.evaluation.Some?);
      [ReportOf(v)] + (if next.None? then [] else Reports(config, v.memory, next.value, turns[1..]))
  }

  function WithoutRestarts(turns: seq<Turn>): (r: seq<Turn>)
    ensures |r| == |turns|
    ensures forall i | 0 <= i < |r| :: r[i] == Turn(false, turns[i].pass)
  {
    if turns == [] then [] else [Turn(false, turns[0].pass)] + WithoutRestarts(turns[1..])
  }

  lemma {:induction false} RestartsDoNotMatter(
    config: Config, memory: map<string, ReceiptObservation>, fewer: map<string, ReceiptObservation>,
    encoded: string, turns: seq<Turn>)
    requires Follows(memory, encoded) && Follows(fewer, encoded)
    ensures Reports(config, memory, encoded, WithoutRestarts(turns)) == Reports(config, fewer, encoded, turns)
    decreases |turns|
  {
    if turns != [] {
      var kept := if turns[0].restart then map[] else fewer;
      var pass := turns[0].pass;
      VerifyAlike(config, memory, kept, encoded, pass);
      var a := Verify(config, memory, encoded, pass);
      var b := Verify(config, kept, encoded, pass);
      var next := NextReference(encoded, a.answer, a.evaluation.Some?);
      if next.Some? {
        RestartsDoNotMatter(config, a.memory, b.memory, next.value, turns[1..]);
      }
      assert WithoutRestarts(turns)[1..] == WithoutRestarts(turns[1..]);
    }
  }

  /** Restart equivalence: from a fresh process and any durable reference, every choice of
      restart points gives the same signals, merged observations and answers on every pass. */
  lemma RestartEquivalence(config: Config, encoded: string, turns: seq<Turn>)
    ensures Reports(config, map[], encoded, turns) == Reports(config, map[], encoded, WithoutRestarts(turns))
  {
    RestartsDoNotMatter(config, map[], map[], encoded, turns);
  }

  // ---------------------------------------------------------------- agreement with earlier passes

  datatype Watch = Watch(memory: map<string, ReceiptObservation>, reference: Reference)

  /** One process observing `receipts` in turn for one transaction. */
  function Watched(config: Config, reference: Reference, receipts: seq<Receipt>): Watch {
    if receipts == [] then Watch(map[], reference) else
      var w := Watched(config, reference, receipts[..|receipts| - 1]);
      var current := CurrentObservation(config, w.reference, receipts[|receipts| - 1]);
      var e := Evaluated(w.memory, ReceiptObservationOf(w.reference), current);
      Watch(e.memory, WithReceiptObservation(w.reference, e.merged))
  }

  function Passes(config: Config, reference: Reference, receipts: seq<Receipt>): (passes: seq<ReceiptObservation>)
    ensures |passes| == |receipts|
    ensures forall i | 0 <= i < |passes| :: passes[i] == CurrentObservation(config, reference, receipts[i])
  {
    seq(|receipts|, i requires 0 <= i < |receipts| => CurrentObservation(config, reference, receipts[i]))
  }

  lemma {:induction false} WatchedHoldsBaseline(config: Config, reference: Reference, receipts: seq<Receipt>)
    requires reference.chainID != "" && ValidTransactionHash(reference.transactionHash)
    requires !HasObservationMetadata(reference)
    ensures var w := Watched(config, reference, receipts);
            var key := Key(reference.chainID, reference.transactionHash);
            && w.reference.chainID == reference.chainID && w.reference.transactionHash == reference.transactionHash
            && (if receipts == [] then w == Watch(map[], reference)
                else key in w.memory && CoreOf(w.memory[key]) == CoreOf(Baseline(Passes(config, reference, receipts))))
    decreases |receipts|
  {
    if receipts != [] {
      var before := receipts[..|receipts| - 1];
      var passes := Passes(config, reference, receipts);
      assert passes[..|passes| - 1] == Passes(config, reference, before);
      WatchedHoldsBaseline(config, reference, before);
      HashIsNormal(reference.transactionHash);
      var w := Watched(config, reference, before);
      var current := passes[|passes| - 1];
      var key := Key(reference.chainID, reference.transactionHash);
      var prior := if key in w.memory then w.memory[key] else ReceiptObservationOf(w.reference);
      var e := Evaluated(w.memory, ReceiptObservationOf(w.reference), current);
      UpdatedReference(w.reference, e.merged);
      MergeOfCores(prior, Baseline(Passes(config, reference, before)), current);
    }
  }

  /** A VERIFIED pass agrees with the last earlier present pass on the inclusion identity,
      and with an immediately preceding present pass on depth and logs. */
  lemma VerifiedAgreesWithRun(
    config: Config, reference: Reference, receipts: seq<Receipt>, receipt: Receipt, now: Time, j: nat)
    requires reference.chainID != "" && ValidTransactionHash(reference.transactionHash)
    requires !HasObservationMetadata(reference)
    requires IsLastPresent(Passes(config, reference, receipts), j)
    requires var w := Watched(config, reference, receipts);
             var a := Observe(config, w.memory, w.reference, receipt, now).answer;
             a.Answered? && a.result.outcome == VerifiedOutcome
    ensures Agrees(Passes(config, reference, receipts), j, CurrentObservation(config, reference, receipt))
  {
    var w := Watched(config, reference, receipts);
    var passes := Passes(config, reference, receipts);
    WatchedHoldsBaseline(config, reference, receipts);
    ObservesVerified(config, w.memory, w.reference, receipt, now);
    var current := CurrentObservation(config, reference, receipt);
    forall i | 0 <= i < |passes| ensures IsPass(passes[i]) {
      CurrentIsPass(config, reference, receipts[i]);
    }
    MergeOfCores(w.memory[Key(reference.chainID, reference.transactionHash)], Baseline(passes), current);
    SignalCharacterised(passes, j, current);
  }
}
