/** Approval lifecycle (internal/approvals/approval.go, internal/approvals/lifecycle.go). */
module Approvals {
  import opened Text
  import opened Receipts

  datatype Status = Pending | Approved | Ready | Rejected | Expired | Consumed

  datatype Decision = Undecided | ApprovedDecision | RejectedDecision

  /** What an approval is bound to; derived from the frozen intent and never changed. */
  datatype Binding = Binding(
    approvalID: string, version: uint64, approvalRequestID: string,
    intentID: string, intentVersion: uint64, intentDigest: string, owner: Owner)

  datatype Owner = Owner(
    userID: string, walletBindingID: string, walletBindingVersion: uint64, walletID: string,
    walletAddress: string, chainID: string)

  datatype Approval = Approval(
    binding: Binding, status: Status, decision: Decision, createdAt: Time, expiresAt: Time,
    decidedAt: Time, consumedAt: Time, operationKey: string, operationVersion: uint64, revision: nat)

  datatype Operation = Operation(
    intentID: string, intentVersion: uint64, intentDigest: string, key: string, version: uint64)

  predicate ValidText(s: string) { IsBoundedText(s, 256) }

  predicate ValidBinding(b: Binding) {
    && ValidText(b.approvalID) && ValidText(b.approvalRequestID) && ValidText(b.intentID) && ValidText(b.intentDigest)
    && ValidText(b.owner.userID) && ValidText(b.owner.walletBindingID) && ValidText(b.owner.walletID)
    && ValidText(b.owner.walletAddress) && ValidText(b.owner.chainID)
    && b.version != 0 && b.intentVersion != 0 && b.owner.walletBindingVersion != 0
  }

  predicate Unused(a: Approval) { a.consumedAt == 0 && a.operationKey == "" && a.operationVersion == 0 }

  predicate ValidApproval(a: Approval) {
    && ValidBinding(a.binding) && a.revision != 0
    && a.createdAt != 0 && a.expiresAt != 0 && a.createdAt < a.expiresAt
    && (match a.status
        case Pending => a.decision == Undecided && a.decidedAt == 0 && Unused(a)
        case Approved | Ready => a.decision == ApprovedDecision && a.decidedAt != 0 && Unused(a)
        case Rejected => a.decision == RejectedDecision && a.decidedAt != 0 && Unused(a)
        case Expired => Unused(a)
        case Consumed =>
          && a.decision == ApprovedDecision && a.decidedAt != 0 && a.consumedAt != 0
          && a.operationKey != "" && a.operationVersion != 0)
  }

  predicate InWindow(a: Approval, at: Time) { at != 0 && a.createdAt <= at < a.expiresAt }

  function Checked(a: Approval): Option<Approval> { if ValidApproval(a) then Some(a) else None }

  function Decide(a: Approval, status: Status, decision: Decision, at: Time): Option<Approval> {
    if !ValidApproval(a) then None
    else if a.status == status then Some(a)
    else if a.status != Pending || !InWindow(a, at) then None
    else Checked(a.(status := status, decision := decision, decidedAt := at, revision := a.revision + 1))
  }

  function Approve(a: Approval, at: Time): Option<Approval> { Decide(a, Approved, ApprovedDecision, at) }

  function Reject(a: Approval, at: Time): Option<Approval> { Decide(a, Rejected, RejectedDecision, at) }

  function MakeReady(a: Approval, at: Time): Option<Approval> {
    if !ValidApproval(a) then None
    else if a.status == Ready then Some(a)
    else if a.status != Approved || at == 0 || at >= a.expiresAt then None
    else Checked(a.(status := Ready, revision := a.revision + 1))
  }

  function Expire(a: Approval, at: Time): Option<Approval> {
    if !ValidApproval(a) then None
    else if a.status == Expired then Some(a)
    else if (a.status != Pending && a.status != Approved && a.status != Ready) || at == 0 || at < a.expiresAt then None
    else Checked(a.(status := Expired, revision := a.revision + 1))
  }

  function Consume(a: Approval, at: Time, op: Operation): Option<Approval> {
    if !ValidApproval(a) then None
    else if a.status == Consumed then
      if a.operationKey == op.key && a.operationVersion == op.version then Some(a) else None
    else if (a.status != Approved && a.status != Ready) || !InWindow(a, at) then None
    else if a.binding.intentID != op.intentID || a.binding.intentVersion != op.intentVersion
            || a.binding.intentDigest != op.intentDigest || op.key == "" then None
    else Checked(a.(status := Consumed, consumedAt := at, operationKey := op.key, operationVersion := op.version,
                    revision := a.revision + 1))
  }

  datatype Event = ToApprove(at: Time) | ToReject(at: Time) | ToReady(at: Time) | ToExpire(at: Time)
    | ToConsume(at: Time, op: Operation)

  function Apply(a: Approval, e: Event): Option<Approval> {
    match e
    case ToApprove(at) => Approve(a, at)
    case ToReject(at) => Reject(a, at)
    case ToReady(at) => MakeReady(a, at)
    case ToExpire(at) => Expire(a, at)
    case ToConsume(at, op) => Consume(a, at, op)
  }

  predicate Terminal(s: Status) { s == Rejected || s == Expired || s == Consumed }

  /** The only way an approval moves on: one revision further, with the same binding and
      window, any decision kept, and consumption only of an approved one inside its window. */
  predicate Advances(a: Approval, next: Approval) {
    && ValidApproval(a) && ValidApproval(next) && !Terminal(a.status)
    && next.revision == a.revision + 1
    && next.binding == a.binding && next.createdAt == a.createdAt && next.expiresAt == a.expiresAt
    && (a.decision != Undecided ==> next.decision == a.decision && next.decidedAt == a.decidedAt)
    && (next.status == Consumed ==>
          (a.status == Approved || a.status == Ready) && a.createdAt <= next.consumedAt < a.expiresAt)
    && (a.decision == Undecided && next.decision != Undecided ==> a.createdAt <= next.decidedAt < a.expiresAt)
  }

  lemma ApplyAdvances(a: Approval, e: Event)
    requires Apply(a, e).Some? && Apply(a, e).value != a
    ensures Advances(a, Apply(a, e).value)
  {
    hide ValidBinding;
  }

  /** The state each event aims for. */
  function Target(e: Event): Status {
    match e
    case ToApprove(_) => Approved
    case ToReject(_) => Rejected
    case ToReady(_) => Ready
    case ToExpire(_) => Expired
    case ToConsume(_, _) => Consumed
  }

  /** When an event moves a valid approval on: decisions, hand-over and consumption before it
      expires, expiry only once `expiresAt` is reached. */
  predicate Permits(a: Approval, e: Event) {
    && e.at != 0
    && (match e
        case ToApprove(at) => a.status == Pending && a.createdAt <= at < a.expiresAt
        case ToReject(at) => a.status == Pending && a.createdAt <= at < a.expiresAt
        case ToReady(at) => a.status == Approved && at < a.expiresAt
        case ToExpire(at) => a.status in {Pending, Approved, Ready} && a.expiresAt <= at
        case ToConsume(at, op) =>
          && a.status in {Approved, Ready} && a.createdAt <= at < a.expiresAt
          && op.intentID == a.binding.intentID && op.intentVersion == a.binding.intentVersion
          && op.intentDigest == a.binding.intentDigest && op.key != "" && op.version != 0)
  }

  /** An event repeated: the approval is already there, for a consumption by the same
      operation. */
  predicate Repeats(a: Approval, e: Event) {
    && a.status == Target(e)
    && (e.ToConsume? ==> a.operationKey == e.op.key && a.operationVersion == e.op.version)
  }

  /** Exactly the permitted events move an approval, to their target and nothing else;
      exactly the repeated ones leave it as it is; all others are refused. */
  lemma AppliesIff(a: Approval, e: Event)
    requires ValidApproval(a)
    ensures Apply(a, e) == Some(a) <==> Repeats(a, e)
    ensures Apply(a, e).Some? && Apply(a, e) != Some(a) <==> Permits(a, e)
    ensures Permits(a, e) ==>
              var next := Apply(a, e).value;
              && next.status == Target(e) && next.revision == a.revision + 1
              && next.decision == (if e.ToApprove? then ApprovedDecision else if e.ToReject? then RejectedDecision
                                   else a.decision)
              && next.decidedAt == (if e.ToApprove? || e.ToReject? then e.at else a.decidedAt)
              && next.consumedAt == (if e.ToConsume? then e.at else 0)
              && (e.ToConsume? ==> next.operationKey == e.op.key && next.operationVersion == e.op.version)
              && next.binding == a.binding && next.createdAt == a.createdAt && next.expiresAt == a.expiresAt
  {
    hide ValidBinding;
  }
}
