/** Occurrence claims and dispatch fencing (internal/autonomy/runtime.go). */
module Occurrences {
  import opened Text
  import opened Receipts

  datatype OccurrenceStatus = Due | Claimed | Blocked | ApprovalRequired | Dispatched | ReconciliationOnly
    | Completed | Skipped

  datatype Occurrence = Occurrence(
    id: string, key: string, scheduleID: string, scheduleVersion: uint64, scheduleDigest: string,
    grantID: string, grantVersion: uint64, scheduledAt: Time, status: OccurrenceStatus,
    leaseOwner: string, leaseUntil: Time, fence: nat)

  type Store = map<string, Occurrence>

  /** `idOf` stands for the hash that names an occurrence after its key. */
  predicate ValidOccurrence(idOf: string -> string, o: Occurrence) {
    && o.id != "" && o.key != "" && o.scheduleID != "" && o.scheduleVersion != 0 && o.scheduleDigest != ""
    && o.grantID != "" && o.grantVersion != 0 && o.scheduledAt != 0 && o.fence != 0
    && o.id == idOf(o.key)
  }

  predicate Claimable(o: Occurrence, at: Time) {
    && (o.status == Due || o.status == Claimed) && o.scheduledAt <= at
    && !(o.leaseOwner != "" && o.leaseUntil > at)
  }

  function Taken(o: Occurrence, worker: string, at: Time, lease: Time): Occurrence {
    o.(status := Claimed, leaseOwner := worker, leaseUntil := at + lease, fence := o.fence + 1)
  }

  predicate HoldsFence(o: Occurrence, worker: string, fence: nat, at: Time) {
    o.status == Claimed && o.leaseOwner == worker && o.fence == fence && o.leaseUntil > at
  }

  // ---------------------------------------------------------------- the dispatch gate

  datatype EmergencyStop = EmergencyStop(active: bool, scope: string, changedAt: Time, actor: string, reason: string)

  predicate ValidStop(e: EmergencyStop) {
    e.scope == "TENANT" && e.actor != "" && |e.actor| <= 256 && e.changedAt != 0 && e.reason != "" && |e.reason| <= 256
  }

  /** Never set, or set with all its fields. */
  predicate StopReadable(stop: EmergencyStop) {
    stop == EmergencyStop(false, "", 0, "", "") || ValidStop(stop)
  }

  datatype Guard = Guard(
    occurrenceID: string, scheduleID: string, scheduleVersion: uint64, grantID: string, grantVersion: uint64,
    userID: string, agentID: string, delegationID: string, delegationVersion: uint64, leaseOwner: string, fence: nat)

  datatype Schedule = Schedule(
    id: string, version: uint64, active: bool, userID: string, agentID: string, walletBindingID: string,
    grantID: string, grantVersion: uint64, delegationID: string, delegationVersion: uint64)

  /** `active` and `valid` are what Grant.Active and Delegation.Validate answer at the time. */
  datatype GrantView = GrantView(
    id: string, version: uint64, userID: string, walletBindingID: string, scheduleID: string, active: bool)

  datatype Delegation = Delegation(id: string, version: uint64, userID: string, agentID: string, valid: bool)

  datatype Reason = Eligible | RuntimeDisabled | SchedulePaused | GrantDenied | DelegationDenied | EmergencyStopped

  /** Why the gate refuses before it asks for the fence. */
  function Refusal(
    enabled: bool, stop: EmergencyStop, g: Guard, s: Schedule, grant: GrantView, user: string, agent: string,
    d: Delegation
  ): Option<Reason> {
    if stop.active then Some(EmergencyStopped)
    else if !enabled then Some(RuntimeDisabled)
    else if !s.active then Some(SchedulePaused)
    else if s.grantID != grant.id || s.grantVersion != grant.version
            || g.grantID != grant.id || g.grantVersion != grant.version
            || g.scheduleID != s.id || g.scheduleVersion != s.version then Some(GrantDenied)
    else if !grant.active || grant.userID != user || grant.walletBindingID != s.walletBindingID
            || (grant.scheduleID != "" && grant.scheduleID != s.id) then Some(GrantDenied)
    else if d.userID != user || d.agentID != agent || s.userID != user || s.agentID != agent
            || g.userID != user || g.agentID != agent || g.delegationID != d.id || g.delegationVersion != d.version
            || s.delegationID != d.id || s.delegationVersion != d.version then Some(DelegationDenied)
    else if !d.valid then Some(DelegationDenied)
    else if g.occurrenceID == "" || g.leaseOwner == "" then Some(GrantDenied)
    else None
  }

  /** Schedule, guard and grant name one grant and one schedule, of one user and wallet, and
      the grant is active. */
  predicate GrantHolds(g: Guard, s: Schedule, grant: GrantView, user: string) {
    && grant.active
    && (grant.id, grant.version) == (s.grantID, s.grantVersion) == (g.grantID, g.grantVersion)
    && (s.id, s.version) == (g.scheduleID, g.scheduleVersion) && grant.scheduleID in {"", s.id}
    && grant.userID == user && grant.walletBindingID == s.walletBindingID
  }

  /** Delegation, schedule and guard name one user, one agent and one delegation, which is
      valid. */
  predicate DelegationHolds(g: Guard, s: Schedule, user: string, agent: string, d: Delegation) {
    && d.valid
    && user == d.userID == s.userID == g.userID && agent == d.agentID == s.agentID == g.agentID
    && (d.id, d.version) == (s.delegationID, s.delegationVersion) == (g.delegationID, g.delegationVersion)
  }

  predicate Named(g: Guard) { g.occurrenceID != "" && g.leaseOwner != "" }

  /** Nothing but the fence is left to check. */
  predicate Cleared(
    enabled: bool, stop: EmergencyStop, g: Guard, s: Schedule, grant: GrantView, user: string, agent: string,
    d: Delegation)
  {
    && enabled && !stop.active && s.active && Named(g)
    && GrantHolds(g, s, grant, user) && DelegationHolds(g, s, user, agent, d)
  }

  /** Each refusal with exactly its cause. */
  predicate Denies(
    reason: Reason, enabled: bool, stop: EmergencyStop, g: Guard, s: Schedule, grant: GrantView, user: string,
    agent: string, d: Delegation)
  {
    match reason
    case EmergencyStopped => stop.active
    case RuntimeDisabled => !stop.active && !enabled
    case SchedulePaused => !stop.active && enabled && !s.active
    case GrantDenied =>
      && !stop.active && enabled && s.active
      && (GrantHolds(g, s, grant, user) ==> DelegationHolds(g, s, user, agent, d) && !Named(g))
    case DelegationDenied =>
      !stop.active && enabled && s.active && GrantHolds(g, s, grant, user) && !DelegationHolds(g, s, user, agent, d)
    case Eligible => false
  }

  lemma RefusalIff(
    enabled: bool, stop: EmergencyStop, g: Guard, s: Schedule, grant: GrantView, user: string, agent: string,
    d: Delegation)
    ensures var refusal := Refusal(enabled, stop, g, s, grant, user, agent, d);
            && (refusal.None? <==> Cleared(enabled, stop, g, s, grant, user, agent, d))
            && forall reason :: refusal == Some(reason) <==> Denies(reason, enabled, stop, g, s, grant, user, agent, d)
  {
  }

  class MemoryStore {
    const idOf: string -> string
    var occurrences: Store

    constructor (idOf: string -> string)
      ensures this.idOf == idOf && occurrences == map[]
    {
      this.idOf := idOf;
      occurrences := map[];
    }

    method SaveOccurrence(o: Occurrence) returns (ok: bool)
      modifies this
      ensures occurrences == Saved(idOf, old(occurrences), o)
      ensures ok <==> ValidOccurrence(idOf, o) && (o.key in old(occurrences) ==> SameIdentity(old(occurrences)[o.key],
                                                                                              o))
    {
      if !ValidOccurrence(idOf, o) {
        return false;
      }
      if o.key in occurrences {
        return SameIdentity(occurrences[o.key], o);
      }
      occurrences := occurrences[o.key := o];
      return true;
    }

    /** ClaimDue takes the first claimable occurrence in whatever order the map is ranged over. */
    method ClaimDue(at: Time, worker: string, lease: Time) returns (claimed: Option<Occurrence>)
      modifies this
      ensures claimed.None? ==> occurrences == old(occurrences)
      ensures claimed.None? ==> forall k | k in occurrences :: !Claimable(occurrences[k], at)
      ensures claimed.Some? ==>
                exists k | k in old(occurrences) ::
                  && Claimable(old(occurrences)[k], at)
                  && claimed.value == Taken(old(occurrences)[k], worker, at, lease)
                  && occurrences == AfterClaim(old(occurrences), k, at, worker, lease)
    {
      var keys := occurrences.Keys;
      while keys != {}
        invariant keys <= occurrences.Keys && occurrences == old(occurrences)
        invariant forall k | k in occurrences && k !in keys :: !Claimable(occurrences[k], at)
        decreases |keys|
      {
        var k :| k in keys;
        keys := keys - {k};
        if Claimable(occurrences[k], at) {
          var o := Taken(occurrences[k], worker, at, lease);
          occurrences := occurrences[k := o];
          return Some(o);
        }
      }
      return None;
    }

    /** CheckDispatchFence looks at the first occurrence with the identifier in whatever order
        the map is ranged over; with unique identifiers that is the only one. */
    method CheckDispatchFence(id: string, worker: string, fence: nat, at: Time)
      returns (found: Option<Occurrence>, valid: bool)
      ensures found.Some? ==> exists k | k in occurrences :: occurrences[k] == found.value && found.value.id == id
      ensures found.None? <==> forall k | k in occurrences :: occurrences[k].id != id
      ensures valid <==> found.Some? && HoldsFence(found.value, worker, fence, at)
      ensures valid ==> Passes(occurrences, id, worker, fence, at)
      ensures UniqueIDs(occurrences) ==> (valid <==> Passes(occurrences, id, worker, fence, at))
    {
      var keys := occurrences.Keys;
      while keys != {}
        invariant keys <= occurrences.Keys
        invariant forall k | k in occurrences && k !in keys :: occurrences[k].id != id
        decreases |keys|
      {
        var k :| k in keys;
        keys := keys - {k};
        var o := occurrences[k];
        if o.id == id {
          return Some(o), HoldsFence(o, worker, fence, at);
        }
      }
      return None, false;
    }

    /** BeforeDispatch: an error, or the reason; ELIGIBLE only for the pair that holds the fence. */
    method BeforeDispatch(
      enabled: bool, stop: EmergencyStop, g: Guard, s: Schedule, grant: GrantView, user: string, agent: string,
      d: Delegation, now: Time
    ) returns (reason: Option<Reason>)
      ensures reason == Some(Eligible) ==>
                && StopReadable(stop) && Cleared(enabled, stop, g, s, grant, user, agent, d)
                && Admits(occurrences, g, s, grant, now)
      ensures (&& UniqueIDs(occurrences) && StopReadable(stop) && Admits(occurrences, g, s, grant, now)
               && Cleared(enabled, stop, g, s, grant, user, agent, d)) ==> reason == Some(Eligible)
      ensures reason == Some(Eligible) ==> Passes(occurrences, g.occurrenceID, g.leaseOwner, g.fence, now)
      ensures !StopReadable(stop) ==> reason == None
      ensures forall why | StopReadable(stop) && Denies(why, enabled, stop, g, s, grant, user, agent, d) ::
                reason == Some(why)
      ensures (&& StopReadable(stop) && Cleared(enabled, stop, g, s, grant, user, agent, d)
               && exists k | k in occurrences :: occurrences[k].id == g.occurrenceID) ==>
                reason == Some(Eligible) || reason == Some(GrantDenied)
    {
      if !StopReadable(stop) {
        return None;
      }
      var refusal := Refusal(enabled, stop, g, s, grant, user, agent, d);
      RefusalIff(enabled, stop, g, s, grant, user, agent, d);
      hide Refusal, Cleared, Denies;
      if refusal.Some? {
        return refusal;
      }
      var found, valid := CheckDispatchFence(g.occurrenceID, g.leaseOwner, g.fence, now);
      if found.None? {
        return None;
      }
      if !valid {
        return Some(GrantDenied);
      }
      var o := found.value;
      if o.grantID != grant.id || o.grantVersion != grant.version
         || o.scheduleID != s.id || o.scheduleVersion != s.version {
        return Some(GrantDenied);
      }
      return Some(Eligible);
    }
  }

  // ---------------------------------------------------------------- runs

  function Saved(idOf: string -> string, store: Store, o: Occurrence): Store {
    if ValidOccurrence(idOf, o) && o.key !in store then store[o.key := o] else store
  }

  function AfterClaim(store: Store, key: string, at: Time, worker: string, lease: Time): Store {
    if key in store && Claimable(store[key], at) then store[key := Taken(store[key], worker, at, lease)] else store
  }

  predicate UniqueIDs(store: Store) {
    forall a, b | a in store && b in store && store[a].id == store[b].id :: a == b
  }

  /** Some occurrence with that identifier is held by the pair. */
  predicate Passes(store: Store, id: string, worker: string, fence: nat, at: Time) {
    exists k | k in store :: store[k].id == id && HoldsFence(store[k], worker, fence, at)
  }

  /** That occurrence also belongs to the schedule and the grant. */
  predicate Admits(store: Store, g: Guard, s: Schedule, grant: GrantView, at: Time) {
    exists k | k in store ::
      && store[k].id == g.occurrenceID && HoldsFence(store[k], g.leaseOwner, g.fence, at)
      && store[k].grantID == grant.id && store[k].grantVersion == grant.version
      && store[k].scheduleID == s.id && store[k].scheduleVersion == s.version
  }

  predicate SameIdentity(existing: Occurrence, o: Occurrence) {
    && existing.id == o.id && existing.scheduleDigest == o.scheduleDigest
    && existing.grantID == o.grantID && existing.grantVersion == o.grantVersion
  }

  /** Saves, claims by configured schedulers, and dispatch checks, each at its instant. */
  datatype Action
    = Save(at: Time, occurrence: Occurrence)
    | Claim(at: Time, key: string, worker: string, lease: Time)
    | Check(at: Time)

  datatype World = World(store: Store, clock: Time)

  function Next(idOf: string -> string, w: World, a: Action): World {
    match a
    case Save(at, o) => World(Saved(idOf, w.store, o), at)
    case Claim(at, key, worker, lease) => World(AfterClaim(w.store, key, at, worker, lease), at)
    case Check(at) => w.(clock := at)
  }

  /** The clock never runs backwards, workers have names and leases are positive. */
  predicate Proper(w: World, a: Action) {
    a.at >= w.clock && (a.Claim? ==> a.worker != "" && a.lease > 0)
  }

  predicate ProperRun(idOf: string -> string, w: World, actions: seq<Action>)
    decreases |actions|
  {
    actions == [] || (Proper(w, actions[0]) && ProperRun(idOf, Next(idOf, w, actions[0]), actions[1..]))
  }

  function Run(idOf: string -> string, w: World, actions: seq<Action>): World
    decreases |actions|
  {
    if actions == [] then w else Run(idOf, Next(idOf, w, actions[0]), actions[1..])
  }

  ghost predicate WellKept(idOf: string -> string, store: Store) {
    forall k | k in store :: store[k].key == k && store[k].id == idOf(k)
  }

  lemma WellKeptIsUnique(idOf: string -> string, store: Store)
    requires Injective(idOf) && WellKept(idOf, store)
    ensures UniqueIDs(store)
  {
  }

  lemma {:induction false} RunStaysWellKept(idOf: string -> string, w: World, actions: seq<Action>)
    requires WellKept(idOf, w.store)
    ensures WellKept(idOf, Run(idOf, w, actions).store)
    decreases |actions|
  {
    if actions != [] {
      RunStaysWellKept(idOf, Next(idOf, w, actions[0]), actions[1..]);
    }
  }

  /** How an occurrence may have changed by `clock`: not at all, or claimed again under a
      higher fence, after its lease had ended. */
  predicate Succeeds(before: Occurrence, after: Occurrence, clock: Time) {
    && after.id == before.id
    && (after == before
        || (&& after.fence > before.fence && after.status == Claimed && after.leaseOwner != ""
            && (before.leaseOwner != "" ==> before.leaseUntil <= clock && before.leaseUntil <= after.leaseUntil)))
  }

  lemma StepSucceeds(idOf: string -> string, w: World, a: Action, k: string)
    requires Proper(w, a) && k in w.store
    ensures k in Next(idOf, w, a).store && Next(idOf, w, a).clock >= w.clock
    ensures Succeeds(w.store[k], Next(idOf, w, a).store[k], Next(idOf, w, a).clock)
  {
  }

  lemma {:induction false} RunSucceeds(idOf: string -> string, w: World, actions: seq<Action>, k: string)
    requires ProperRun(idOf, w, actions) && k in w.store
    ensures var last := Run(idOf, w, actions);
            k in last.store && last.clock >= w.clock && Succeeds(w.store[k], last.store[k], last.clock)
    decreases |actions|
  {
    if actions != [] {
      StepSucceeds(idOf, w, actions[0], k);
      RunSucceeds(idOf, Next(idOf, w, actions[0]), actions[1..], k);
    }
  }

  /** Fencing: if one pair passes the gate at an instant, a pair that passes there later in
      the run is the same pair, or has a higher fence and passes only after the first lease
      has ended. So no instant admits two pairs. */
  lemma OnePairPerInstant(
    idOf: string -> string, w: World, actions: seq<Action>, id: string,
    worker: string, fence: nat, at: Time, worker': string, fence': nat, at': Time)
    requires Injective(idOf) && WellKept(idOf, w.store)
    requires Passes(w.store, id, worker, fence, at) && worker != "" && at == w.clock
    requires ProperRun(idOf, w, actions)
    requires var last := Run(idOf, w, actions); at' >= last.clock && Passes(last.store, id, worker', fence', at')
    ensures (worker', fence') == (worker, fence) || (fence' > fence && at' > at)
  {
    var last := Run(idOf, w, actions);
    var k :| k in w.store && w.store[k].id == id && HoldsFence(w.store[k], worker, fence, at);
    var k' :| k' in last.store && last.store[k'].id == id && HoldsFence(last.store[k'], worker', fence', at');
    RunSucceeds(idOf, w, actions, k);
    RunStaysWellKept(idOf, w, actions);
    WellKeptIsUnique(idOf, last.store);
    assert k' == k;
  }

  /** A superseded pair never passes again: once the fence is higher, no later state of the
      run admits the old one. */
  lemma SupersededNeverPasses(
    idOf: string -> string, w: World, actions: seq<Action>, k: string, worker: string, fence: nat, at: Time)
    requires Injective(idOf) && WellKept(idOf, w.store) && ProperRun(idOf, w, actions)
    requires k in w.store && fence < w.store[k].fence
    ensures !Passes(Run(idOf, w, actions).store, w.store[k].id, worker, fence, at)
  {
    RunSucceeds(idOf, w, actions, k);
    RunStaysWellKept(idOf, w, actions);
    WellKeptIsUnique(idOf, Run(idOf, w, actions).store);
  }

  /** Leases on one occurrence never overlap, and each claim raises the fence by one. */
  lemma LeasesDoNotOverlap(
    idOf: string -> string, w: World, actions: seq<Action>, k: string, at: Time, worker: string, lease: Time)
    requires ProperRun(idOf, w, actions) && k in w.store && w.store[k].leaseOwner != ""
    requires k in Run(idOf, w, actions).store && Claimable(Run(idOf, w, actions).store[k], at)
    ensures var last := Run(idOf, w, actions).store;
            var claimed := AfterClaim(last, k, at, worker, lease)[k];
            && w.store[k].leaseUntil <= at
            && claimed.fence == last[k].fence + 1 > w.store[k].fence
            && claimed.leaseUntil == at + lease
  {
    RunSucceeds(idOf, w, actions, k);
  }

  /** The pair a claim hands out passes from then on exactly until its lease ends, as long as
      nobody claims again. */
  lemma ClaimedPairPasses(
    idOf: string -> string, store: Store, k: string, at: Time, worker: string, lease: Time, later: Time)
    requires Injective(idOf) && WellKept(idOf, store) && k in store && Claimable(store[k], at)
    ensures Passes(AfterClaim(store, k, at, worker, lease), store[k].id, worker, store[k].fence + 1, later) <==>
              later < at + lease
  {
    var next := AfterClaim(store, k, at, worker, lease);
    assert WellKept(idOf, next);
    WellKeptIsUnique(idOf, next);
    if later < at + lease {
      assert next[k].id == store[k].id && HoldsFence(next[k], worker, store[k].fence + 1, later);
    }
  }
}
