/** One approval under concurrent services (internal/services/execution.go,
    internal/services/approval.go) with the revision-checked writes of the PostgreSQL store
    (internal/storage/postgres/atomic_repository.go, db/queries/foundation.sql). */
module Authority {
  import opened Text
  import opened Receipts
  import opened Approvals
  import opened ExecutionRequests

  datatype Op = Op(key: string, version: uint64)

  /** `seen`: every value the row has had, any of which a service may still hold in hand;
      `requests`: execution requests by operation, unique there; `created`: those made by
      consuming this approval. */
  datatype World = World(row: Approval, seen: set<Approval>, requests: map<Op, Request>, created: seq<Request>)

  /** Arguments of PrepareExecution: the approval as read, the intent, the stored evaluation,
      and the clock at consumption and at request creation. */
  datatype Preparation = Preparation(
    read: Approval, intent: Intent, policyID: string, policyVersion: uint64, evaluation: PolicyResult,
    consumeAt: Time, requestAt: Time)

  datatype Action
    = Update(read: Approval, event: Event)
    | Prepare(preparation: Preparation)
    | Foreign(op: Op, request: Request)

  /** UpdateApproval: the row still has the revision that was read. */
  predicate CanWrite(w: World, read: Approval, next: Approval) {
    w.row.revision == read.revision && next.revision == read.revision + 1
  }

  function Written(w: World, next: Approval): World { w.(row := next, seen := w.seen + {next}) }

  predicate ReplayMatches(p: Preparation, op: Operation, r: Request) {
    && p.read.binding.intentID == p.intent.id && p.read.binding.intentVersion == p.intent.version
    && p.read.binding.intentDigest == p.intent.digest && p.read.binding.owner == p.intent.owner
    && r.operationKey == op.key && r.operationVersion == op.version
    && r.intentID == p.intent.id && r.intentVersion == p.intent.version && r.intentDigest == p.intent.digest
    && r.approvalID == p.read.binding.approvalID && r.approvalVersion == p.read.binding.version
    && r.policyID == p.policyID && r.policyVersion == p.policyVersion
    && p.intent.policyReference == r.policyID + ":" + NatToString(r.policyVersion)
  }

  /** replayConsumedExecution. */
  function Replayed(w: World, p: Preparation, op: Operation): Option<Request> {
    var key := Op(op.key, op.version);
    if key in w.requests && ReplayMatches(p, op, w.requests[key]) then Some(w.requests[key]) else None
  }

  datatype Prepared = Prepared(world: World, request: Option<Request>)

  /** ConsumeApprovalAndCreateExecution: both rows or neither; a lost race is answered with
      the existing request if it is the very same. */
  function Atomically(w: World, read: Approval, consumed: Approval, request: Request): Prepared {
    var key := Op(request.operationKey, request.operationVersion);
    if consumed.revision != read.revision + 1 then Prepared(w, None)
    else if CanWrite(w, read, consumed) && key !in w.requests then
      Prepared(Written(w, consumed).(requests := w.requests[key := request], created := w.created + [request]),
               Some(request))
    else if key in w.requests && w.requests[key] == request then Prepared(w, Some(request))
    else Prepared(w, None)
  }

  function PrepareExecution(h: Hashing, w: World, p: Preparation): Prepared {
    var op := h.operation(p.intent);
    if (p.read.status != Ready && p.read.status != Consumed) || op.None? then Prepared(w, None)
    else if p.read.status == Consumed then
      if Consume(p.read, p.read.consumedAt, op.value).None? then Prepared(w, None)
      else Prepared(w, Replayed(w, p, op.value))
    else
      var consumed := Consume(p.read, p.consumeAt, op.value);
      if consumed.None? then Prepared(w, None) else
        var request := NewRequest(h, p.intent, consumed.value, p.evaluation, p.requestAt);
        if request.None? then Prepared(w, None) else Atomically(w, p.read, consumed.value, request.value)
  }

  function Next(h: Hashing, w: World, a: Action): World {
    match a
    case Update(read, event) =>
      var next := Apply(read, event);
      if read in w.seen && !event.ToConsume? && next.Some? && CanWrite(w, read,
                                                                       next.value) then Written(w, next.value) else w
    case Prepare(p) => if p.read in w.seen then PrepareExecution(h, w, p).world else w
    case Foreign(op, request) =>
      if op !in w.requests && request.approvalID != w.row.binding.approvalID
      then w.(requests := w.requests[op := request]) else w
  }

  function Run(h: Hashing, w: World, actions: seq<Action>): World
    decreases |actions|
  {
    if actions == [] then w else Run(h, Next(h, w, actions[0]), actions[1..])
  }

  class AuthorityStore {
    const h: Hashing
    var world: World

    constructor (h: Hashing, world: World)
      ensures this.h == h && this.world == world
    {
      this.h := h;
      this.world := world;
    }

    /** One decision or hand-over by a service that holds `read`. */
    method UpdateApproval(read: Approval, event: Event) returns (ok: bool)
      requires !event.ToConsume?
      modifies this
      ensures world == Next(h, old(world), Update(read, event))
      ensures ok ==> world.row.revision == old(world.row.revision) + 1
      ensures !ok ==> world == old(world)
    {
      var next := Apply(read, event);
      if read !in world.seen || next.None? || !CanWrite(world, read, next.value) {
        return false;
      }
      world := Written(world, next.value);
      return true;
    }

    method PrepareExecutionWith(p: Preparation) returns (request: Option<Request>)
      requires p.read in world.seen
      modifies this
      ensures world == Next(h, old(world), Prepare(p))
      ensures request == PrepareExecution(h, old(world), p).request
    {
      if p.read.status != Ready && p.read.status != Consumed {
        return None;
      }
      var operation := h.operation(p.intent);
      if operation.None? {
        return None;
      }
      if p.read.status == Consumed {
        if Consume(p.read, p.read.consumedAt, operation.value).None? {
          return None;
        }
        return Replayed(world, p, operation.value);
      }
      var consumed := Consume(p.read, p.consumeAt, operation.value);
      if consumed.None? {
        return None;
      }
      var value := NewRequest(h, p.intent, consumed.value, p.evaluation, p.requestAt);
      if value.None? {
        return None;
      }
      var key := Op(value.value.operationKey, value.value.operationVersion);
      if consumed.value.revision != p.read.revision + 1 {
        return None;
      }
      if CanWrite(world, p.read, consumed.value) && key !in world.requests {
        world := Written(world, consumed.value).(
          requests := world.requests[key := value.value], created := world.created + [value.value]);
        return value;
      }
      if key in world.requests && world.requests[key] == value.value {
        return value;
      }
      return None;
    }
  }

  // ---------------------------------------------------------------- what every step keeps

  /** Any value the row has had, against the row: same binding, no later revision, its
      decision kept, and terminal values final. */
  predicate Earlier(a: Approval, row: Approval) {
    && a.binding == row.binding && a.revision <= row.revision
    && (a.revision == row.revision ==> a == row)
    && (a.decision != Undecided ==> row.decision == a.decision && row.decidedAt == a.decidedAt)
    && (Terminal(a.status) ==> a == row)
  }

  /** The request made when the row was consumed. */
  predicate MadeBy(r: Request, row: Approval) {
    && row.status == Consumed && row.decision == ApprovedDecision
    && row.createdAt <= row.consumedAt < row.expiresAt
    && r.approvalID == row.binding.approvalID && r.approvalVersion == row.binding.version
    && r.intentDigest == row.binding.intentDigest && r.intentID == row.binding.intentID
    && r.intentVersion == row.binding.intentVersion
    && r.operationKey == row.operationKey && r.operationVersion == row.operationVersion
    && r.policyEvaluatedAt <= r.createdAt == row.consumedAt
  }

  ghost predicate Inv(w: World) {
    && ValidApproval(w.row) && w.row in w.seen && (forall a | a in w.seen :: Earlier(a, w.row))
    && |w.created| <= 1
    && (w.row.status == Consumed <==> |w.created| == 1)
    && (|w.created| == 1 ==>
          && MadeBy(w.created[0], w.row)
          && Op(w.row.operationKey, w.row.operationVersion) in w.requests
          && w.requests[Op(w.row.operationKey, w.row.operationVersion)] == w.created[0])
    && (forall op | op in w.requests && w.requests[op].approvalID == w.row.binding.approvalID ::
          |w.created| == 1 && w.requests[op] == w.created[0])
  }

  lemma WrittenKeepsSeen(w: World, next: Approval)
    requires (forall a | a in w.seen :: Earlier(a, w.row)) && w.row in w.seen && Advances(w.row, next)
    ensures forall a | a in Written(w, next).seen :: Earlier(a, next)
  {
    hide ValidApproval;
    forall a | a in Written(w, next).seen ensures Earlier(a, next) {
      if a != next {
        assert Earlier(a, w.row);
      }
    }
  }

  lemma UpdateKeeps(h: Hashing, w: World, read: Approval, event: Event)
    requires Inv(w)
    ensures Inv(Next(h, w, Update(read, event)))
  {
    var w' := Next(h, w, Update(read, event));
    if w' != w {
      var next := Apply(read, event).value;
      assert Earlier(read, w.row);
      ApplyAdvances(read, event);
      NotConsumed(read, event);
      WrittenKeepsSeen(w, next);
      hide Apply, ValidApproval;
    }
  }

  lemma NotConsumed(a: Approval, e: Event)
    requires !e.ToConsume? && Apply(a, e).Some? && Apply(a, e).value != a
    ensures Apply(a, e).value.status != Consumed
  {
    hide ValidApproval;
  }

  lemma AtomicallyKeeps(w: World, read: Approval, consumed: Approval, request: Request)
    requires Inv(w) && read in w.seen && Advances(read, consumed) && MadeBy(request, consumed)
    ensures Inv(Atomically(w, read, consumed, request).world)
    ensures var r := Atomically(w, read, consumed, request);
            r.request.Some? ==> r.request.value in r.world.created
  {
    hide ValidApproval;
    assert Earlier(read, w.row);
    var key := Op(request.operationKey, request.operationVersion);
    if CanWrite(w, read, consumed) && key !in w.requests {
      WrittenKeepsSeen(w, consumed);
      assert w.created == [];
      assert w.created + [request] == [request];
    }
  }

  lemma ConsumeAdvances(h: Hashing, p: Preparation, op: Operation)
    requires p.read.status == Ready && Consume(p.read, p.consumeAt, op).Some?
    requires NewRequest(h, p.intent, Consume(p.read, p.consumeAt, op).value, p.evaluation, p.requestAt).Some?
    ensures var consumed := Consume(p.read, p.consumeAt, op).value;
            && Advances(p.read, consumed)
            && MadeBy(NewRequest(h, p.intent, consumed, p.evaluation, p.requestAt).value, consumed)
  {
    hide ValidApproval, NewRequest, ValidRequest;
    ApplyAdvances(p.read, ToConsume(p.consumeAt, op));
    RequestBinds(h, p.intent, Consume(p.read, p.consumeAt, op).value, p.evaluation, p.requestAt);
  }

  /** Whatever PrepareExecution answers is the one request created for the approval. */
  lemma PrepareKeeps(h: Hashing, w: World, p: Preparation)
    requires Inv(w) && p.read in w.seen
    ensures Inv(PrepareExecution(h, w, p).world)
    ensures var r := PrepareExecution(h, w, p); r.request.Some? ==> r.request.value in r.world.created
  {
    hide ValidApproval, NewRequest, Consume, MadeBy;
    var op := h.operation(p.intent);
    assert Earlier(p.read, w.row);
    if p.read.status == Ready && op.Some? {
      var consumed := Consume(p.read, p.consumeAt, op.value);
      if consumed.Some? {
        var request := NewRequest(h, p.intent, consumed.value, p.evaluation, p.requestAt);
        if request.Some? {
          ConsumeAdvances(h, p, op.value);
          AtomicallyKeeps(w, p.read, consumed.value, request.value);
        }
      }
    }
    hide Atomically;
  }

  lemma StepKeeps(h: Hashing, w: World, a: Action)
    requires Inv(w)
    ensures Inv(Next(h, w, a))
  {
    match a
    case Update(read, event) => UpdateKeeps(h, w, read, event);
    case Prepare(p) =>
      if p.read in w.seen {
        PrepareKeeps(h, w, p);
      }
    case Foreign(op, request) =>
      hide ValidApproval;
  }

  lemma {:induction false} RunKeeps(h: Hashing, w: World, actions: seq<Action>)
    requires Inv(w)
    ensures Inv(Run(h, w, actions)) && w.seen <= Run(h, w, actions).seen
    ensures w.created <= Run(h, w, actions).created
    decreases |actions|
  {
    if actions != [] {
      StepKeeps(h, w, actions[0]);
      StepGrows(h, w, actions[0]);
      RunKeeps(h, Next(h, w, actions[0]), actions[1..]);
    }
  }

  lemma StepGrows(h: Hashing, w: World, a: Action)
    ensures w.seen <= Next(h, w, a).seen && w.created <= Next(h, w, a).created
  {
    hide Apply, Consume, NewRequest;
  }

  // ---------------------------------------------------------------- theorems

  /** A fresh approval, whose identifier no request names yet. */
  predicate Initial(w: World) {
    && ValidApproval(w.row) && w.row.status == Pending && w.seen == {w.row} && w.created == []
    && forall op | op in w.requests :: w.requests[op].approvalID != w.row.binding.approvalID
  }

  lemma InitialKeeps(w: World)
    requires Initial(w)
    ensures Inv(w)
  {
    hide ValidBinding;
  }

  /** At most one decision: once made, it and its time never change, in any interleaving. */
  lemma DecidedOnce(h: Hashing, w: World, actions: seq<Action>, more: seq<Action>)
    requires Initial(w) && Run(h, w, actions).row.decision != Undecided
    ensures var then_, later := Run(h, w, actions).row, Run(h, Run(h, w, actions), more).row;
            later.decision == then_.decision && later.decidedAt == then_.decidedAt
  {
    hide Run, ValidApproval;
    InitialKeeps(w);
    RunKeeps(h, w, actions);
    RunKeeps(h, Run(h, w, actions), more);
    assert Earlier(Run(h, w, actions).row, Run(h, Run(h, w, actions), more).row);
  }

  /** At most one execution request is ever created for the approval: exactly when it is
      consumed, inside its validity window, bound to its intent digest, its operation and an
      evaluation no later than the consumption. */
  lemma ConsumedOnce(h: Hashing, w: World, actions: seq<Action>)
    requires Initial(w)
    ensures var last := Run(h, w, actions);
            && |last.created| <= 1
            && (last.row.status == Consumed <==> |last.created| == 1)
            && forall r | r in last.created :: MadeBy(r, last.row)
  {
    hide Run, ValidApproval, MadeBy, Earlier;
    InitialKeeps(w);
    RunKeeps(h, w, actions);
  }

  /** Every successful preparation, first or replayed, by whichever service and however
      stale its reading, answers the same request. */
  lemma PreparationsAgree(h: Hashing, w: World, actions: seq<Action>, p: Preparation, more: seq<Action>, q: Preparation)
    requires Initial(w)
    requires p.read in Run(h, w, actions).seen && PrepareExecution(h, Run(h, w, actions), p).request.Some?
    requires var later := Run(h, PrepareExecution(h, Run(h, w, actions), p).world, more);
             q.read in later.seen && PrepareExecution(h, later, q).request.Some?
    ensures var later := Run(h, PrepareExecution(h, Run(h, w, actions), p).world, more);
            PrepareExecution(h, later, q).request == PrepareExecution(h, Run(h, w, actions), p).request
  {
    hide PrepareExecution, Run, ValidApproval, MadeBy, Earlier;
    InitialKeeps(w);
    var before := Run(h, w, actions);
    RunKeeps(h, w, actions);
    PrepareKeeps(h, before, p);
    var after := PrepareExecution(h, before, p).world;
    RunKeeps(h, after, more);
    var later := Run(h, after, more);
    PrepareKeeps(h, later, q);
    var last := PrepareExecution(h, later, q).world;
    StepCreated(h, later, q);
    assert after.created <= later.created <= last.created && |last.created| <= 1;
  }

  lemma StepCreated(h: Hashing, w: World, q: Preparation)
    ensures w.created <= PrepareExecution(h, w, q).world.created
  {
    hide Consume, NewRequest;
  }
}
