/** Exactly when the chain verifier gives each of its answers (internal/providers/verifier.go),
    stated over the reference asked about, the resolver's and the chain's replies and the
    prior observation, in no particular order of checks. */
module ChainAnswers {
  import opened Text
  import opened Receipts
  import opened Observations
  import opened ProviderReference
  import opened ExecutionResults
  import opened ChainVerifier

  // ---------------------------------------------------------------- the transaction asked about

  /** `reference` is the asked one, or what the resolver may put in its place while no
      transaction hash is known. */
  predicate StandsFor(asked: Reference, resolved: Option<Reference>, reference: Reference) {
    if asked.transactionHash != "" then reference == asked else
      && resolved == Some(reference)
      && reference.provider == asked.provider && reference.chainID == asked.chainID
      && (asked.providerTransactionID == "" || reference.providerTransactionID == asked.providerTransactionID)
      && ProviderReference.Valid(reference)
  }

  lemma ResolvesIff(asked: Reference, resolved: Option<Reference>, reference: Reference)
    ensures ResolveHash(asked, resolved) == Resolved(reference) <==> StandsFor(asked, resolved, reference)
    ensures ResolveHash(asked, resolved).ResolverDown? <==> asked.transactionHash == "" && resolved.None?
  {
    hide ProviderReference.Valid;
  }

  /** The chain's reply is about the transaction, or says that it is not there yet. */
  predicate Belongs(reference: Reference, receipt: Receipt) {
    receipt.status != Unknown ==>
      receipt.chainID == reference.chainID && Lower(receipt.transactionHash) == Lower(reference.transactionHash)
  }

  // ---------------------------------------------------------------- agreement with the past

  function Prior(memory: map<string, ReceiptObservation>, reference: Reference): ReceiptObservation {
    var key := reference.chainID + "|" + Normal(reference.transactionHash);
    if key in memory then memory[key] else ReceiptObservationOf(reference)
  }

  predicate Included(receipt: Receipt) {
    receipt.status in {Success, Reverted} || receipt.blockHash != "" || receipt.blockNumber != 0
  }

  function Fingerprint(config: Config, receipt: Receipt): string {
    if receipt.logs == [] then "" else config.digest(receipt.logs)
  }

  /** The receipt contradicts nothing already observed: a receipt seen once does not vanish,
      its block and its logs stay the same, and it never loses confirmations. */
  predicate Agrees(config: Config, prior: ReceiptObservation, receipt: Receipt) {
    var hash := Normal(receipt.blockHash);
    if !Included(receipt) then !prior.present else
      && (prior.blockHash == "" || hash == "" || Lower(prior.blockHash) == Lower(hash))
      && (prior.blockNumber == 0 || receipt.blockNumber == 0 || prior.blockNumber == receipt.blockNumber)
      && (prior.present ==>
            && receipt.confirmations >= prior.confirmations
            && (prior.logFingerprint == "" || prior.logFingerprint == Fingerprint(config, receipt)))
  }

  lemma ConsistentIff(config: Config, prior: ReceiptObservation, reference: Reference, receipt: Receipt)
    ensures Compare(prior, CurrentObservation(config, reference, receipt)) == Consistent
       <==> Agrees(config, prior, receipt)
  {
    hide Normal, Lower;
  }

  /** The reference with what this pass observed written into it. */
  function Recorded(config: Config, prior: ReceiptObservation, reference: Reference, receipt: Receipt): Reference {
    if Included(receipt) then
      reference.(obsPresent := true, obsKnown := true, obsBlockHash := Normal(receipt.blockHash),
                 obsBlockNumber := receipt.blockNumber, obsConfirmations := receipt.confirmations,
                 obsLogFingerprint := Normal(Fingerprint(config, receipt)))
    else if prior.HasInclusion() then
      reference.(obsPresent := false, obsKnown := true, obsBlockHash := Normal(prior.blockHash),
                 obsBlockNumber := prior.blockNumber, obsConfirmations := 0,
                 obsLogFingerprint := Normal(prior.logFingerprint))
    else
      reference.(obsPresent := false, obsKnown := false, obsBlockHash := "", obsBlockNumber := 0,
                 obsConfirmations := receipt.confirmations, obsLogFingerprint := "")
  }

  lemma WritesObserved(reference: Reference, o: ReceiptObservation)
    requires reference.transactionHash != ""
    ensures WithReceiptObservation(reference, o)
         == reference.(obsPresent := o.present, obsKnown := o.HasInclusion() || o.logFingerprint != "",
                       obsBlockHash := Normal(o.blockHash), obsBlockNumber := o.blockNumber,
                       obsConfirmations := o.confirmations, obsLogFingerprint := Normal(o.logFingerprint))
  {
    NormalIdempotent(o.blockHash);
    NormalIdempotent(o.logFingerprint);
    assert Normal("") == "";
    hide Normal;
  }

  lemma RecordsMerge(config: Config, prior: ReceiptObservation, reference: Reference, receipt: Receipt)
    requires reference.transactionHash != ""
    ensures WithReceiptObservation(reference, Merge(prior, CurrentObservation(config, reference, receipt)))
         == Recorded(config, prior, reference, receipt)
  {
    var current := CurrentObservation(config, reference, receipt);
    WritesObserved(reference, Merge(prior, current));
    hide WithReceiptObservation;
    assert Normal("") == "";
    NormalIdempotent(receipt.blockHash);
    NormalIdempotent(Normal(receipt.blockHash));
    NormalIdempotent(Fingerprint(config, receipt));
    hide Normal;
  }

  // ---------------------------------------------------------------- the judgement

  predicate Ended(config: Config, receipt: Receipt) {
    receipt.status == Reverted || (receipt.status == Success && receipt.confirmations >= config.minConfirmations)
  }

  /** With a reference that encodes, the judgement is one of exactly three answers. */
  lemma JudgesIff(config: Config, reference: Reference, receipt: Receipt, signal: Signal, now: Time)
    requires Encode(reference).Some? && Normalised(reference) == reference
    ensures Judge(config, reference, receipt, signal, now)
         == var text := Encode(reference).value;
            if && signal == Consistent && receipt.status == Success
               && receipt.confirmations >= config.minConfirmations then
              if now == 0 then Unclear else Answered(VerificationResult(VerifiedOutcome, text, "", now))
            else if signal == Consistent && receipt.status == Reverted then
              if now == 0 then Unclear
              else Answered(VerificationResult(FailedOutcome, "", "ONCHAIN_EXECUTION_REVERTED", now))
            else Answered(VerificationResult(Pending, text, "", now))
  {
    RevertedIsAReason();
    hide ValidReasonCode;
  }

  lemma RevertedIsAReason()
    ensures ValidReasonCode("ONCHAIN_EXECUTION_REVERTED")
  {
  }

  lemma JudgesUnencodable(config: Config, reference: Reference, receipt: Receipt, signal: Signal, now: Time)
    requires Encode(reference).None?
    ensures Judge(config, reference, receipt, signal, now) == Unclear
  {
    hide ValidReasonCode, Encode;
  }

  // ---------------------------------------------------------------- one pass

  /** This pass reads a receipt of the transaction `reference` stands for. */
  predicate Reads(encoded: string, pass: Pass, reference: Reference) {
    && Parse(encoded).Some? && StandsFor(Parse(encoded).value, pass.resolved, reference)
    && reference.transactionHash != "" && pass.receipt.Some? && Belongs(reference, pass.receipt.value)
  }

  lemma ParsedIsValid(encoded: string)
    requires Parse(encoded).Some?
    ensures ProviderReference.Valid(Parse(encoded).value)
  {
    hide Fill, Split, ProviderReference.Valid, Normalised;
  }

  lemma ObservesWhatItReads(
    config: Config, memory: map<string, ReceiptObservation>, encoded: string, pass: Pass, reference: Reference)
    requires Reads(encoded, pass, reference)
    ensures var v := Verify(config, memory, encoded, pass);
            var prior := Prior(memory, reference);
            var updated := Recorded(config, prior, reference, pass.receipt.value);
            && v.evaluation.Some?
            && (v.evaluation.value.signal == Consistent <==> Agrees(config, prior, pass.receipt.value))
            && v.answer == Judge(config, updated, pass.receipt.value, v.evaluation.value.signal, pass.now)
            && Normalised(updated) == updated
  {
    var asked := Parse(encoded).value;
    ParsedIsValid(encoded);
    ResolvesIff(asked, pass.resolved, reference);
    assert reference.chainID != "" by { hide ValidProviderIdentifier, ValidTransactionHash, ValidLogFingerprint; }
    var prior, receipt := Prior(memory, reference), pass.receipt.value;
    ConsistentIff(config, prior, reference, receipt);
    RecordsMerge(config, prior, reference, receipt);
    UpdatedReference(reference, Merge(prior, CurrentObservation(config, reference, receipt)));
    hide Parse, ProviderReference.Valid, Normal, Lower, Judge, Merge, Compare, WithReceiptObservation, Normalised,
         Recorded, Agrees, ReceiptObservationOf;
  }

  lemma ConcludesByReading(config: Config, memory: map<string, ReceiptObservation>, encoded: string, pass: Pass)
    returns (reference: Reference)
    requires Concludes(Verify(config, memory, encoded, pass).answer)
    ensures Reads(encoded, pass, reference)
  {
    ConcludesByObserving(config, memory, encoded, pass);
    reference := ResolveHash(Parse(encoded).value, pass.resolved).reference;
    ResolvesIff(Parse(encoded).value, pass.resolved, reference);
    hide Parse, Judge, ResolveHash;
  }

  /** What a conclusive receipt of the reference has to satisfy, whichever way it ended. */
  predicate Conclusive(
    config: Config, memory: map<string, ReceiptObservation>, encoded: string, pass: Pass, reference: Reference)
  {
    && Reads(encoded, pass, reference) && pass.now != 0
    && var prior := Prior(memory, reference);
       && Agrees(config, prior, pass.receipt.value)
       && Encode(Recorded(config, prior, reference, pass.receipt.value)).Some?
  }

  predicate IsVerified(a: VerifierAnswer) { a.Answered? && a.result.outcome == VerifiedOutcome }

  predicate IsFailed(a: VerifierAnswer) { a.Answered? && a.result.outcome == FailedOutcome }

  /** For the transaction read, the three-way answer. */
  lemma ReadAnswers(
    config: Config, memory: map<string, ReceiptObservation>, encoded: string, pass: Pass, reference: Reference)
    requires Reads(encoded, pass, reference)
    ensures var a := Verify(config, memory, encoded, pass).answer;
            var receipt := pass.receipt.value;
            var prior := Prior(memory, reference);
            var text := Encode(Recorded(config, prior, reference, receipt));
            && (text.None? ==> a == Unclear)
            && (IsVerified(a) <==>
                  Conclusive(config, memory, encoded, pass, reference)
                  && receipt.status == Success && receipt.confirmations >= config.minConfirmations)
            && (IsFailed(a) <==>
                  Conclusive(config, memory, encoded, pass, reference) && receipt.status == Reverted)
            && (a.Answered? && a.result.outcome == Pending <==>
                  text.Some? && !(Agrees(config, prior, receipt) && Ended(config, receipt)))
            && (IsVerified(a) ==> a.result == VerificationResult(VerifiedOutcome, text.value, "", pass.now))
            && (IsFailed(a) ==>
                  a.result == VerificationResult(FailedOutcome, "", "ONCHAIN_EXECUTION_REVERTED", pass.now))
            && (a.Answered? && a.result.outcome == Pending ==>
                  a.result == VerificationResult(Pending, text.value, "", pass.now))
  {
    ObservesWhatItReads(config, memory, encoded, pass, reference);
    var updated := Recorded(config, Prior(memory, reference), reference, pass.receipt.value);
    var signal := Verify(config, memory, encoded, pass).evaluation.value.signal;
    if Encode(updated).Some? {
      JudgesIff(config, updated, pass.receipt.value, signal, pass.now);
    } else {
      JudgesUnencodable(config, updated, pass.receipt.value, signal, pass.now);
    }
    hide Verify, Encode, Recorded, Prior, Judge, Reads, Agrees, Normalised;
  }

  /** VERIFIED is answered exactly when the transaction asked about has a SUCCESS receipt at
      the required depth that agrees with everything observed before. */
  lemma VerifiedIff(config: Config, memory: map<string, ReceiptObservation>, encoded: string, pass: Pass)
    ensures IsVerified(Verify(config, memory, encoded, pass).answer) <==>
              exists reference ::
                && Conclusive(config, memory, encoded, pass, reference)
                && pass.receipt.value.status == Success
                && pass.receipt.value.confirmations >= config.minConfirmations
  {
    hide Verify, Encode, Recorded, Prior, Judge, Agrees;
    if IsVerified(Verify(config, memory, encoded, pass).answer) {
      var reference := ConcludesByReading(config, memory, encoded, pass);
      ReadAnswers(config, memory, encoded, pass, reference);
    }
    forall reference | Conclusive(config, memory, encoded, pass, reference)
      ensures pass.receipt.value.status == Success && pass.receipt.value.confirmations >= config.minConfirmations ==>
                IsVerified(Verify(config, memory, encoded, pass).answer)
    {
      ReadAnswers(config, memory, encoded, pass, reference);
    }
  }

  /** FAILED is answered exactly when that transaction has a REVERTED receipt that agrees
      with everything observed before. */
  lemma FailedIff(config: Config, memory: map<string, ReceiptObservation>, encoded: string, pass: Pass)
    ensures IsFailed(Verify(config, memory, encoded, pass).answer) <==>
              exists reference ::
                Conclusive(config, memory, encoded, pass, reference) && pass.receipt.value.status == Reverted
  {
    hide Verify, Encode, Recorded, Prior, Judge, Agrees;
    if IsFailed(Verify(config, memory, encoded, pass).answer) {
      var reference := ConcludesByReading(config, memory, encoded, pass);
      ReadAnswers(config, memory, encoded, pass, reference);
    }
    forall reference | Conclusive(config, memory, encoded, pass, reference)
      ensures pass.receipt.value.status == Reverted ==> IsFailed(Verify(config, memory, encoded, pass).answer)
    {
      ReadAnswers(config, memory, encoded, pass, reference);
    }
  }

  /** PENDING is answered, with that text, exactly when the reference still names no
      transaction or the receipt read settles nothing. */
  predicate StillOpen(
    config: Config, memory: map<string, ReceiptObservation>, encoded: string, pass: Pass, reference: Reference,
    text: string)
  {
    && Parse(encoded).Some? && StandsFor(Parse(encoded).value, pass.resolved, reference)
    && (if reference.transactionHash == "" then Encode(reference) == Some(text) else
          && pass.receipt.Some? && Belongs(reference, pass.receipt.value)
          && var prior := Prior(memory, reference);
             && Encode(Recorded(config, prior, reference, pass.receipt.value)) == Some(text)
             && !(Agrees(config, prior, pass.receipt.value) && Ended(config, pass.receipt.value)))
  }

  lemma OpenAnswers(
    config: Config, memory: map<string, ReceiptObservation>, encoded: string, pass: Pass, reference: Reference,
    text: string)
    requires StillOpen(config, memory, encoded, pass, reference, text)
    ensures Verify(config, memory, encoded, pass).answer
         == Answered(VerificationResult(Pending, text, "", pass.now))
  {
    ResolvesIff(Parse(encoded).value, pass.resolved, reference);
    hide Encode, Recorded, Prior, Judge, Agrees, ResolveHash, StandsFor, Parse, Evaluated;
    if reference.transactionHash != "" {
      assert Reads(encoded, pass, reference);
      ReadAnswers(config, memory, encoded, pass, reference);
    }
  }

  lemma PendingIff(config: Config, memory: map<string, ReceiptObservation>, encoded: string, pass: Pass, text: string)
    ensures (Verify(config, memory, encoded, pass).answer == Answered(VerificationResult(Pending, text, "", pass.now)))
       <==> exists reference :: StillOpen(config, memory, encoded, pass, reference, text)
  {
    var a := Verify(config, memory, encoded, pass).answer;
    hide Encode, Recorded, Prior, Judge, Agrees, ResolveHash, Parse, Evaluated;
    if a == Answered(VerificationResult(Pending, text, "", pass.now)) {
      var reference := ResolveHash(Parse(encoded).value, pass.resolved).reference;
      ResolvesIff(Parse(encoded).value, pass.resolved, reference);
      if reference.transactionHash != "" {
        assert Reads(encoded, pass, reference);
        ReadAnswers(config, memory, encoded, pass, reference);
      }
      assert StillOpen(config, memory, encoded, pass, reference, text);
    }
    forall reference | StillOpen(config, memory, encoded, pass, reference, text)
      ensures a == Answered(VerificationResult(Pending, text, "", pass.now))
    {
      OpenAnswers(config, memory, encoded, pass, reference, text);
    }
  }

  lemma JudgesAvailable(config: Config, reference: Reference, receipt: Receipt, signal: Signal, now: Time)
    ensures !Judge(config, reference, receipt, signal, now).Unavailable?
  {
    hide ValidReasonCode, Encode;
  }

  lemma ObservesAvailable(
    config: Config, memory: map<string, ReceiptObservation>, reference: Reference, receipt: Receipt, now: Time)
    ensures !Observe(config, memory, reference, receipt, now).answer.Unavailable?
  {
    var evaluation := Evaluated(memory, ReceiptObservationOf(reference),
                                CurrentObservation(config, reference, receipt));
    JudgesAvailable(config, WithReceiptObservation(reference, evaluation.merged), receipt, evaluation.signal, now);
    hide Evaluated, WithReceiptObservation, CurrentObservation, ReceiptObservationOf, ReceiptMatches, Judge;
  }

  /** The two outages, and nothing else, are reported as unavailable. */
  lemma UnavailableIff(config: Config, memory: map<string, ReceiptObservation>, encoded: string, pass: Pass)
    ensures var a := Verify(config, memory, encoded, pass).answer;
            && (a == Unavailable("PROVIDER_RECONCILIATION_UNAVAILABLE") <==>
                  Parse(encoded).Some? && Parse(encoded).value.transactionHash == "" && pass.resolved.None?)
            && (a == Unavailable("CHAIN_VERIFICATION_UNAVAILABLE") <==>
                  && Parse(encoded).Some? && pass.receipt.None?
                  && exists reference | StandsFor(Parse(encoded).value, pass.resolved, reference) ::
                       reference.transactionHash != "")
            && (a.Unavailable? ==> a.reasonCode in {"PROVIDER_RECONCILIATION_UNAVAILABLE",
                                                    "CHAIN_VERIFICATION_UNAVAILABLE"})
  {
    hide Encode, Parse, Observe, ResolveHash, StandsFor;
    if Parse(encoded).Some? {
      var asked := Parse(encoded).value;
      var r := ResolveHash(asked, pass.resolved);
      forall reference ensures r == Resolved(reference) <==> StandsFor(asked, pass.resolved, reference) {
        ResolvesIff(asked, pass.resolved, reference);
      }
      ResolvesIff(asked, pass.resolved, EMPTY);
      if r.Resolved? {
        assert StandsFor(asked, pass.resolved, r.reference);
        if pass.receipt.Some? {
          ObservesAvailable(config, memory, r.reference, pass.receipt.value, pass.now);
        }
      }
      assert "PROVIDER_RECONCILIATION_UNAVAILABLE"[0] != "CHAIN_VERIFICATION_UNAVAILABLE"[0];
    }
  }
}
