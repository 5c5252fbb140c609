/** Adapter and verifier results (internal/execution/result.go,
    internal/execution/runtime/boundaries.go). */
module ExecutionResults {
  import opened Text
  import opened Receipts
  import opened Lifecycle

  const MAX_TEXT_LENGTH := 256
  const MAX_ADAPTER_REFERENCE_LENGTH := 512

  datatype Result = Result(
    executionID: string, executionVersion: uint64, status: Status,
    adapterReference: string, errorCode: string, observedAt: Time)

  predicate ValidResult(r: Result) {
    && IsBoundedText(r.executionID, MAX_TEXT_LENGTH)
    && r.executionVersion != 0 && r.observedAt != 0
    && (match r.status
        case StatusSubmitted | StatusConfirming | StatusConfirmed | StatusVerified | StatusCompleted =>
          r.adapterReference != "" && r.errorCode == ""
        case StatusFailed | StatusRecoveryRequired => r.errorCode != ""
        case _ => false)
    && (r.adapterReference != "" ==> IsBoundedText(r.adapterReference, MAX_ADAPTER_REFERENCE_LENGTH))
    && (r.errorCode != "" ==> ValidReasonCode(r.errorCode))
  }

  function NewResult(
    executionID: string, executionVersion: uint64, status: Status,
    adapterReference: string, errorCode: string, observedAt: Time
  ): Option<Result> {
    var r := Result(Trim(executionID), executionVersion, status, Trim(adapterReference), Trim(errorCode), observedAt);
    if ValidResult(r) then Some(r) else None
  }

  predicate EnsureMatches(r: Result, request: Request) {
    ValidResult(r) && request.valid && r.executionID == request.executionID && r.executionVersion == request.version
  }

  datatype VerificationOutcome = Pending | VerifiedOutcome | FailedOutcome

  datatype VerificationResult = VerificationResult(
    outcome: VerificationOutcome, reference: string, reasonCode: string, observedAt: Time)

  predicate ValidVerification(r: VerificationResult) {
    && r.observedAt != 0
    && (if r.outcome == FailedOutcome then r.reasonCode != "" else r.reference != "" && r.reasonCode == "")
  }

  /** What a verifier call returns: a result, a VerificationError, or any other error. */
  datatype VerifierAnswer = Answered(result: VerificationResult) | Unavailable(reasonCode: string) | Unclear

  /** What an adapter call returns: a result, a classified AdapterError, or any other error. */
  datatype AdapterAnswer = Observed(result: Result) | Rejected(permanent: bool, reasonCode: string) | NoAnswer
}
