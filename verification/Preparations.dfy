/** Exactly when a service's preparation or update takes effect in a reachable world of one
    approval (internal/services/execution.go, internal/services/approval.go). */
module Preparations {
  import opened Text
  import opened Receipts
  import opened Approvals
  import opened ExecutionRequests
  import opened Authority

  /** SHA-256 in lower-case hexadecimal. */
  ghost predicate Hexadecimal(h: Hashing) { forall s :: |h.sha(s)| == 64 && AllLowerHex(h.sha(s)) }

  // ---------------------------------------------------------------- replays

  /** The preparation asks again for what the consumed approval authorized. */
  predicate AsksAgain(h: Hashing, row: Approval, made: Request, p: Preparation) {
    && h.operation(p.intent).Some?
    && h.operation(p.intent).value.key == row.operationKey
    && h.operation(p.intent).value.version == row.operationVersion
    && p.intent.id == made.intentID && p.intent.version == made.intentVersion && p.intent.digest == made.intentDigest
    && p.intent.owner == row.binding.owner
    && p.policyID == made.policyID && p.policyVersion == made.policyVersion
    && p.intent.policyReference == made.policyID + ":" + NatToString(made.policyVersion)
  }

  lemma ReplayIff(h: Hashing, w: World, p: Preparation)
    requires Inv(w) && p.read in w.seen && p.read.status == Consumed
    ensures |w.created| == 1
    ensures PrepareExecution(h, w, p)
         == Prepared(w, if AsksAgain(h, w.row, w.created[0], p) then Some(w.created[0]) else None)
  {
    hide ValidBinding, NatToString, NewRequest;
    assert Earlier(p.read, w.row);
    var op := h.operation(p.intent);
    if op.Some? {
      var key := Op(op.value.key, op.value.version);
      if key in w.requests && ReplayMatches(p, op.value, w.requests[key]) {
        assert w.requests[key].approvalID == w.row.binding.approvalID;
      }
    }
  }

  /** In every run: a preparation that reads the approval as consumed changes nothing, and
      answers the one request created exactly when it asks for that again. */
  lemma ReplaysIff(h: Hashing, w: World, actions: seq<Action>, p: Preparation)
    requires Initial(w)
    requires p.read in Run(h, w, actions).seen && p.read.status == Consumed
    ensures var now := Run(h, w, actions);
            && |now.created| == 1
            && PrepareExecution(h, now, p)
               == Prepared(now, if AsksAgain(h, now.row, now.created[0], p) then Some(now.created[0]) else None)
  {
    hide *;
    InitialKeeps(w);
    RunKeeps(h, w, actions);
    ReplayIff(h, Run(h, w, actions), p);
  }

  // ---------------------------------------------------------------- the first preparation

  /** The reading, the intent and the stored evaluation authorize an execution. */
  predicate Warranted(h: Hashing, p: Preparation) {
    var a, i, e := p.read, p.intent, p.evaluation;
    && h.operation(i).Some?
    && var op := h.operation(i).value;
    && op.intentID == i.id && op.intentVersion == i.version && op.intentDigest == i.digest
    && ValidText(op.key) && op.version != 0
    && i.valid && i.status in {ApprovedIntent, ReadyForExecution}
    && a.binding.intentID == i.id && a.binding.intentVersion == i.version && a.binding.intentDigest == i.digest
    && a.binding.owner == i.owner
    && e.decision == Allow && e.stage == BeforeExecution && e.findings == 0
    && e.intentID == i.id && e.intentVersion == i.version && e.intentDigest == i.digest
    && ValidText(e.policyID) && e.policyVersion != 0
    && i.policyReference == e.policyID + ":" + NatToString(e.policyVersion)
    && e.evaluatedAt != 0 && p.consumeAt != 0 && p.requestAt != 0
    && e.evaluatedAt <= p.consumeAt <= p.requestAt
    && a.createdAt <= p.consumeAt < a.expiresAt
    && p.requestAt < i.expiresAt && p.requestAt < i.deadline
  }

  function OperationOf(h: Hashing, p: Preparation): Op
    requires h.operation(p.intent).Some?
  {
    Op(h.operation(p.intent).value.key, h.operation(p.intent).value.version)
  }

  lemma {:induction false} AsciiLength(s: string)
    requires forall k | 0 <= k < |s| :: s[k] <= '~'
    ensures ByteLength(s) == |s|
  {
    if s != "" {
      AsciiLength(s[1..]);
    }
  }

  lemma AsciiText(s: string)
    requires 0 < |s| <= 256 && forall k | 0 <= k < |s| :: '!' <= s[k] <= '~'
    ensures ValidText(s)
  {
    AsciiLength(s);
    hide ByteLength;
  }

  lemma HashedText(prefix: string, hash: string)
    requires prefix in {"", "exec_", "exreq_"} && |hash| == 64 && AllLowerHex(hash)
    ensures ValidText(prefix + hash)
  {
    AsciiText(prefix + hash);
  }

  /** The approval as consumed by this preparation. */
  function ConsumedBy(h: Hashing, p: Preparation): Approval
    requires h.operation(p.intent).Some?
  {
    p.read.(status := Consumed, consumedAt := p.consumeAt, operationKey := h.operation(p.intent).value.key,
            operationVersion := h.operation(p.intent).value.version, revision := p.read.revision + 1)
  }

  lemma ConsumesIff(h: Hashing, p: Preparation)
    requires ValidApproval(p.read) && p.read.status == Ready && h.operation(p.intent).Some?
    ensures var op := h.operation(p.intent).value;
            && (Consume(p.read, p.consumeAt, op).Some? <==> Permits(p.read, ToConsume(p.consumeAt, op)))
            && (Permits(p.read, ToConsume(p.consumeAt, op)) ==>
                  Consume(p.read, p.consumeAt, op) == Some(ConsumedBy(h, p)) && ValidApproval(ConsumedBy(h, p)))
  {
    hide ValidBinding;
  }

  lemma BoundIsValid(h: Hashing, p: Preparation)
    requires Hexadecimal(h) && ValidApproval(p.read) && Warranted(h, p)
    ensures ValidRequest(h, Bound(h, p.intent, ConsumedBy(h, p), p.evaluation, h.operation(p.intent).value))
  {
    var op := h.operation(p.intent).value;
    var r := Bound(h, p.intent, ConsumedBy(h, p), p.evaluation, op);
    HashedText("", r.requestKey);
    HashedText("exreq_", r.requestKey);
    HashedText("exec_", h.sha(EXECUTION_DOMAIN + Framed([op.key, NatToString(op.version)])));
    HashedText("", r.policyEvaluationKey);
    assert "" + r.requestKey == r.requestKey && "" + r.policyEvaluationKey == r.policyEvaluationKey;
    assert EvaluationOf(r) == p.evaluation;
    hide Framed, NatToString, ByteLength, Trim;
  }

  lemma WarrantedRequests(h: Hashing, p: Preparation)
    requires Hexadecimal(h) && ValidApproval(p.read) && p.read.status == Ready && Warranted(h, p)
    ensures var op := h.operation(p.intent).value;
            && Consume(p.read, p.consumeAt, op) == Some(ConsumedBy(h, p))
            && NewRequest(h, p.intent, ConsumedBy(h, p), p.evaluation, p.requestAt)
               == Some(Bound(h, p.intent, ConsumedBy(h, p), p.evaluation, op))
  {
    hide ValidApproval, Hexadecimal, NatToString, Bound, ValidRequest, IsBoundedText, Consume;
    ApprovedReading(p.read);
    ConsumesIff(h, p);
    OperationText(h.operation(p.intent).value.key);
    OperationText(p.evaluation.policyID);
    BoundIsValid(h, p);
  }

  lemma ApprovedReading(a: Approval)
    requires ValidApproval(a) && a.status == Ready
    ensures a.decision == ApprovedDecision
  {
    hide ValidBinding;
  }

  lemma OperationText(key: string)
    requires ValidText(key)
    ensures key != ""
  {
  }

  lemma RequestsAreWarranted(h: Hashing, p: Preparation)
    requires ValidApproval(p.read) && p.read.status == Ready && h.operation(p.intent).Some?
    requires var consumed := Consume(p.read, p.consumeAt, h.operation(p.intent).value);
             consumed.Some? && NewRequest(h, p.intent, consumed.value, p.evaluation, p.requestAt).Some?
    ensures Warranted(h, p)
  {
    hide ValidApproval, NatToString, EvaluationKeyOf, RequestKeyOf, ExecutionIDOf, IsBoundedText, Consume;
    ConsumesIff(h, p);
  }

  /** A request is made of the consumed approval exactly when the preparation is warranted. */
  lemma RequestsIff(h: Hashing, p: Preparation)
    requires Hexadecimal(h) && ValidApproval(p.read) && p.read.status == Ready && h.operation(p.intent).Some?
    ensures var consumed := Consume(p.read, p.consumeAt, h.operation(p.intent).value);
            (consumed.Some? && NewRequest(h, p.intent, consumed.value, p.evaluation, p.requestAt).Some?) <==>
            Warranted(h, p)
  {
    hide *;
    if Warranted(h, p) {
      WarrantedRequests(h, p);
    } else {
      var consumed := Consume(p.read, p.consumeAt, h.operation(p.intent).value);
      if consumed.Some? && NewRequest(h, p.intent, consumed.value, p.evaluation, p.requestAt).Some? {
        RequestsAreWarranted(h, p);
      }
    }
  }

  /** What the first preparation leaves behind. */
  predicate Prepares(h: Hashing, w: World, p: Preparation, w': World, r: Request)
    requires h.operation(p.intent).Some?
  {
    && w'.row == ConsumedBy(h, p) && w'.created == [r] && w'.requests == w.requests[OperationOf(h, p) := r]
    && r.operationKey == OperationOf(h, p).key && r.operationVersion == OperationOf(h, p).version
    && r.intentID == p.intent.id && r.intentVersion == p.intent.version && r.intentDigest == p.intent.digest
    && r.approvalID == p.read.binding.approvalID && r.approvalVersion == p.read.binding.version
    && r.policyID == p.evaluation.policyID && r.policyVersion == p.evaluation.policyVersion
    && r.policyEvaluatedAt == p.evaluation.evaluatedAt && r.createdAt == p.consumeAt
  }

  lemma UnwarrantedIsRefused(h: Hashing, w: World, p: Preparation)
    requires Hexadecimal(h) && p.read.status == Ready && !(ValidApproval(p.read) && Warranted(h, p))
    ensures PrepareExecution(h, w, p) == Prepared(w, None)
  {
    hide Hexadecimal, NewRequest, Warranted, ValidBinding;
    if h.operation(p.intent).Some? && ValidApproval(p.read) {
      RequestsIff(h, p);
      hide Consume;
    }
  }

  lemma WarrantedIsTried(h: Hashing, w: World, p: Preparation)
    requires Hexadecimal(h) && p.read.status == Ready && ValidApproval(p.read) && Warranted(h, p)
    ensures PrepareExecution(h, w, p)
         == Atomically(w, p.read, ConsumedBy(h, p),
                       Bound(h, p.intent, ConsumedBy(h, p), p.evaluation, h.operation(p.intent).value))
  {
    hide Hexadecimal, ValidApproval, NewRequest, Bound, Consume, Atomically;
    WarrantedRequests(h, p);
  }

  lemma FirstIff(h: Hashing, w: World, p: Preparation)
    requires Hexadecimal(h) && Inv(w) && w.created == [] && p.read in w.seen && p.read.status == Ready
    ensures PrepareExecution(h, w, p).request.Some? <==>
              Warranted(h, p) && p.read == w.row && OperationOf(h, p) !in w.requests
    ensures var r := PrepareExecution(h, w, p);
            if r.request.Some? then Prepares(h, w, p, r.world, r.request.value) else r.world == w
  {
    assert Earlier(p.read, w.row);
    assert ValidApproval(w.row);
    hide Hexadecimal, PrepareExecution, ValidApproval, NatToString, EvaluationKeyOf, RequestKeyOf, ExecutionIDOf,
         IsBoundedText, Earlier;
    if ValidApproval(p.read) && Warranted(h, p) {
      WarrantedIsTried(h, w, p);
    } else {
      UnwarrantedIsRefused(h, w, p);
    }
  }

  /** In every run, the first preparation of an approval not consumed yet: it succeeds exactly
      when it is warranted, reads the row as it stands, and its operation has no request; it
      then consumes the approval and creates the one request, which names that authority. */
  lemma FirstPreparationIff(h: Hashing, w: World, actions: seq<Action>, p: Preparation)
    requires Hexadecimal(h) && Initial(w)
    requires var now := Run(h, w, actions); now.created == [] && p.read in now.seen && p.read.status == Ready
    ensures var now := Run(h, w, actions);
            var r := PrepareExecution(h, now, p);
            && (r.request.Some? <==> Warranted(h, p) && p.read == now.row && OperationOf(h, p) !in now.requests)
            && (if r.request.Some? then Prepares(h, now, p, r.world, r.request.value) else r.world == now)
  {
    hide *;
    InitialKeeps(w);
    RunKeeps(h, w, actions);
    FirstIff(h, Run(h, w, actions), p);
  }

  /** A preparation that loses the race, having read the approval before it was consumed:
      it is answered with the request created exactly when it would have created that very
      one. */
  lemma LostRaceIff(h: Hashing, w: World, p: Preparation)
    requires Hexadecimal(h) && Inv(w) && w.created != [] && p.read in w.seen && p.read.status == Ready
    ensures PrepareExecution(h, w, p).world == w
    ensures PrepareExecution(h, w, p).request.Some? <==>
              && ValidApproval(p.read) && Warranted(h, p)
              && w.created == [Bound(h, p.intent, ConsumedBy(h, p), p.evaluation, h.operation(p.intent).value)]
  {
    assert Earlier(p.read, w.row);
    hide Hexadecimal, PrepareExecution, ValidApproval, NatToString, EvaluationKeyOf, RequestKeyOf, ExecutionIDOf,
         IsBoundedText;
    if ValidApproval(p.read) && Warranted(h, p) {
      WarrantedIsTried(h, w, p);
    } else {
      UnwarrantedIsRefused(h, w, p);
    }
  }

  // ---------------------------------------------------------------- updates

  /** An update takes effect exactly when it reads the row as it stands and the event moves
      it; the row then is at the event's target, one revision on. */
  lemma UpdateIff(h: Hashing, w: World, read: Approval, event: Event)
    requires Inv(w) && read in w.seen && !event.ToConsume?
    ensures Next(h, w, Update(read, event)) != w <==> read == w.row && Permits(read, event)
    ensures read == w.row && Permits(read, event) ==>
              var row := Next(h, w, Update(read, event)).row;
              row.status == Target(event) && row.revision == w.row.revision + 1
  {
    assert Earlier(read, w.row);
    assert ValidApproval(w.row);
    hide ValidBinding, Permits;
    if read.revision == w.row.revision {
      AppliesIff(read, event);
    }
    hide Apply, ValidApproval;
  }
}
