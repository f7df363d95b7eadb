/**
 * What one call of the scheduler does from end to end: its schedule of interference, how it
 * extends the run, and its whole effect on the tables when nothing runs in between.
 */
module WholeCalls {
  import opened Wrappers
  import opened EnvironmentProtocol
  import opened EnvironmentSafety
  import opened Sets

  /** What one pass of the host loop meets: the agent's answer and the database's. */
  datatype Outcome = Unreachable | Boots | BootsThenAssignErrors | BootsThenAccountingErrors

  datatype Result = AssignedTo(host: HostId, vm: VmId) | GaveUp

  // ----- interference

  /** The other calls' events at the k-th await; past its end nothing interferes. */
  type Schedule = seq<seq<Event>>

  function Turn(sched: Schedule, k: nat): seq<Event> {
    if k < |sched| then sched[k] else []
  }

  predicate Scheduled(e: Event, sched: Schedule) {
    exists k :: 0 <= k < |sched| && e in sched[k]
  }

  /** What the other calls' events lead to: each that can happen when its turn comes, and is not this call's, happens. */
  function Others(s: State, es: seq<Event>, me: CallId): State
    decreases |es|
  {
    if es == [] then s
    else Others(if Enabled(s, es[0]) && !Steps(es[0], me) then Apply(s, es[0]) else s, es[1..], me)
  }

  /** The run goes on from where it was, by statements of this call and events of the schedule. */
  ghost predicate Continues(was: seq<Event>, now: seq<Event>, me: CallId, sched: Schedule) {
    && was <= now
    && forall i :: |was| <= i < |now| ==> Steps(now[i], me) || Scheduled(now[i], sched)
  }

  lemma ContinuesBy(a: seq<Event>, b: seq<Event>, e: Event, me: CallId, sched: Schedule)
    requires Continues(a, b, me, sched) && (Steps(e, me) || Scheduled(e, sched))
    ensures Continues(a, b + [e], me, sched)
  {
  }

  lemma ContinuesOn(a: seq<Event>, b: seq<Event>, c: seq<Event>, me: CallId, sched: Schedule)
    requires Continues(a, b, me, sched) && Continues(b, c, me, sched)
    ensures Continues(a, c, me, sched)
  {
    forall i | |a| <= i < |c| ensures Steps(c[i], me) || Scheduled(c[i], sched) {
      if i < |b| {
        assert c[i] == b[i];
      }
    }
  }

  // ----- tryAssign

  /** The VM boots and its call reaches the guarded UPDATE without an error. */
  predicate Commits(o: Outcome) {
    o.Boots? || o.BootsThenAccountingErrors?
  }

  /** The first host from the k-th on that commits, or the number of hosts. */
  function NextCommit(outcomes: seq<Outcome>, k: nat): (i: nat)
    requires k <= |outcomes|
    ensures k <= i <= |outcomes|
    ensures i < |outcomes| ==> Commits(outcomes[i])
    ensures forall j :: k <= j < i ==> !Commits(outcomes[j])
    decreases |outcomes| - k
  {
    if k == |outcomes| || Commits(outcomes[k]) then k else NextCommit(outcomes, k + 1)
  }

  predicate SameTables(s: State, t: State) {
    t.requests == s.requests && t.used == s.used && t.starts == s.starts && t.failures == s.failures
  }

  /** The row is assigned to a fresh VM of the size on the host. */
  predicate RowAssigned(s: State, t: State, req: RequestId, row: Request, host: HostId, size: Size) {
    && req in t.requests && t.requests[req].placement.Some?
    && t.requests[req].placement.value.host == host && t.requests[req].placement.value.size == size
    && t.requests[req].placement.value.vm !in s.created
    && t.requests == s.requests[req := row.(status := Assigned, placement := t.requests[req].placement)]
  }

  /** One pass of the host loop. */
  ghost predicate HostAlone(s: State, t: State, req: RequestId, host: HostId, size: Size, outcome: Outcome,
                            done: bool, result: Option<Result>)
    requires req in s.requests
  {
    && s.created <= t.created
    && if !Commits(outcome) then
         !done && result == None && SameTables(s, t)
       else if s.requests[req].status != Assigning then
         done && result == None && SameTables(s, t)
       else
         && RowAssigned(s, t, req, s.requests[req], host, size) && t.failures == s.failures
         && if outcome.Boots? then
              && done && result == Some(AssignedTo(host, t.requests[req].placement.value.vm))
              && t.used == AddUsed(s.used, host, size) && t.starts == s.starts + multiset{req}
            else
              !done && result == None && t.used == s.used && t.starts == s.starts
  }

  /** What becomes of a booted VM. */
  ghost predicate Settled(s: State, t: State, req: RequestId, host: HostId, vm: VmId, size: Size, outcome: Outcome,
                          done: bool, result: Option<Result>)
    requires req in s.requests
  {
    && t.failures == s.failures
    && if !Commits(outcome) then
         !done && result == None && SameTables(s, t)
       else if s.requests[req].status != Assigning then
         done && result == None && SameTables(s, t)
       else
         && t.requests == s.requests[req := s.requests[req].(status := Assigned, placement := Some(Placement(host, vm, size)))]
         && if outcome.Boots? then
              && done && result == Some(AssignedTo(host, vm))
              && t.used == AddUsed(s.used, host, size) && t.starts == s.starts + multiset{req}
            else
              !done && result == None && t.used == s.used && t.starts == s.starts
  }

  lemma SettledAlone(s: State, booted: State, t: State, req: RequestId, host: HostId, vm: VmId, size: Size,
                     outcome: Outcome, done: bool, result: Option<Result>)
    requires req in s.requests && SameTables(s, booted) && vm !in s.created && s.created <= booted.created <= t.created
    requires !outcome.Unreachable? && Settled(booted, t, req, host, vm, size, outcome, done, result)
    ensures HostAlone(s, t, req, host, size, outcome, done, result)
  {
  }

  /** The host loop up to the i-th host, with its call still in it: nothing, or one assignment left unaccounted. */
  ghost predicate LoopAt(s: State, t: State, req: RequestId, size: Size, candidates: seq<HostId>,
                         outcomes: seq<Outcome>, i: nat)
    requires req in s.requests && i <= |outcomes| == |candidates|
  {
    && s.created <= t.created
    && var c := NextCommit(outcomes, 0);
       if i <= c then SameTables(s, t)
       else
         && outcomes[c].BootsThenAccountingErrors? && i <= NextCommit(outcomes, c + 1)
         && RowAssigned(s, t, req, s.requests[req], candidates[c], size)
         && t.used == s.used && t.starts == s.starts && t.failures == s.failures
  }

  /** The whole host loop. */
  ghost predicate LoopAlone(s: State, t: State, req: RequestId, size: Size, candidates: seq<HostId>,
                            outcomes: seq<Outcome>, done: bool, result: Option<Result>)
    requires req in s.requests && |outcomes| == |candidates|
  {
    var c := NextCommit(outcomes, 0);
    if c < |outcomes| && outcomes[c].Boots? then
      && done && RowAssigned(s, t, req, s.requests[req], candidates[c], size)
      && result == Some(AssignedTo(candidates[c], t.requests[req].placement.value.vm))
      && t.used == AddUsed(s.used, candidates[c], size) && t.starts == s.starts + multiset{req}
      && t.failures == s.failures
    else
      && result == None && (done <==> c < |outcomes| && NextCommit(outcomes, c + 1) < |outcomes|)
      && LoopAt(s, t, req, size, candidates, outcomes,
                if c < |outcomes| then NextCommit(outcomes, c + 1) else |outcomes|)
  }

  /** The attempt counted when no call returned from the loop. */
  ghost predicate ConcludesAlone(s: State, t: State, req: RequestId, result: Option<Result>)
    requires req in s.requests
  {
    var row := s.requests[req].(attempts := s.requests[req].attempts + 1);
    var last := row.attempts >= MAX_ASSIGN_ATTEMPTS;
    && t.used == s.used && t.starts == s.starts
    && result == (if last then Some(GaveUp) else None)
    && t.failures == (if last then s.failures + multiset{req} else s.failures)
    && t.requests == s.requests[req := if row.status != Assigning then row
                                       else row.(status := if last then Failed else Queued)]
  }

  /** What tryAssign does to the tables when no other call runs meanwhile. */
  ghost predicate AssignsAlone(s: State, t: State, req: RequestId, plan: Plan, candidates: seq<HostId>,
                               outcomes: seq<Outcome>, now: int, result: Option<Result>)
    requires req in s.requests && |outcomes| == |candidates|
  {
    var row := s.requests[req];
    if Granted(s, req, plan) then
      PlacesAlone(s, t, req, row.(status := Assigning, claimedAt := Some(now)), plan, candidates, outcomes, result)
    else
      && result == None && t.used == s.used && t.starts == s.starts
      && t.requests == if Used(s, row.team) >= plan.parallelEnvs
                       then s.requests[req := Refused(row, plan)] else s.requests
  }

  /** A refusal stamps the row, unless the cap is zero. */
  function Refused(row: Request, plan: Plan): Request {
    row.(blocked := row.blocked || plan.parallelEnvs > 0)
  }

  predicate Granted(s: State, req: RequestId, plan: Plan)
    requires req in s.requests
  {
    Used(s, s.requests[req].team) < plan.parallelEnvs && s.requests[req].status == Queued
  }

  /**
   * The part after the claim; `row` is the claimed row. The first host that commits gets the
   * row. If its accounting transaction rolls back, the row stays assigned and uncharged: a later
   * VM finds it taken and is deleted, and without a later VM the attempt is counted.
   */
  ghost predicate PlacesAlone(s: State, t: State, req: RequestId, row: Request, plan: Plan, candidates: seq<HostId>,
                              outcomes: seq<Outcome>, result: Option<Result>)
    requires |outcomes| == |candidates|
  {
    var c := NextCommit(outcomes, 0);
    if candidates == [] then
      && result == None && t.used == s.used && t.starts == s.starts
      && t.requests == s.requests[req := row.(status := Queued, claimedAt := None)]
    else if c == |outcomes| then
      AttemptCounted(s, t, req, row.(status := if row.attempts + 1 >= MAX_ASSIGN_ATTEMPTS then Failed else Queued), result)
    else if outcomes[c].Boots? then
      && RowAssigned(s, t, req, row, candidates[c], plan.size)
      && result == Some(AssignedTo(candidates[c], t.requests[req].placement.value.vm))
      && t.used == AddUsed(s.used, candidates[c], plan.size)
      && t.starts == s.starts + multiset{req}
    else if NextCommit(outcomes, c + 1) < |outcomes| then
      && RowAssigned(s, t, req, row, candidates[c], plan.size)
      && result == None && t.used == s.used && t.starts == s.starts
    else
      exists p: Placement ::
        && p.host == candidates[c] && p.size == plan.size && p.vm !in s.created
        && AttemptCounted(s, t, req, row.(status := Assigned, placement := Some(p)), result)
  }

  /** The row with one attempt more, and a failure event when it was the last. */
  ghost predicate AttemptCounted(s: State, t: State, req: RequestId, row: Request, result: Option<Result>) {
    var last := row.attempts + 1 >= MAX_ASSIGN_ATTEMPTS;
    && t.used == s.used && t.starts == s.starts
    && result == (if last then Some(GaveUp) else None)
    && t.failures == (if last then s.failures + multiset{req} else s.failures)
    && t.requests == s.requests[req := row.(attempts := row.attempts + 1)]
  }

  /** The loop, and then the conclusion, from the claimed state. */
  lemma LoopThenConclude(s: State, mid: State, t: State, req: RequestId, plan: Plan, candidates: seq<HostId>,
                         outcomes: seq<Outcome>, result: Option<Result>)
    requires req in s.requests && |outcomes| == |candidates| && candidates != [] && s.requests[req].status == Assigning
    requires LoopAlone(s, mid, req, plan.size, candidates, outcomes, false, None)
    requires req in mid.requests && ConcludesAlone(mid, t, req, result)
    ensures PlacesAlone(s, t, req, s.requests[req], plan, candidates, outcomes, result)
  {
    var c := NextCommit(outcomes, 0);
    if c < |outcomes| {
      var p := mid.requests[req].placement.value;
      assert AttemptCounted(s, t, req, s.requests[req].(status := Assigned, placement := Some(p)), result);
    }
  }

  lemma LoopReturned(s: State, t: State, req: RequestId, plan: Plan, candidates: seq<HostId>,
                     outcomes: seq<Outcome>, result: Option<Result>)
    requires req in s.requests && |outcomes| == |candidates| && candidates != [] && s.requests[req].status == Assigning
    requires LoopAlone(s, t, req, plan.size, candidates, outcomes, true, result)
    ensures PlacesAlone(s, t, req, s.requests[req], plan, candidates, outcomes, result)
  {
  }

  /** One more host of the loop. */
  lemma LoopStep(s: State, mid: State, t: State, req: RequestId, size: Size, candidates: seq<HostId>,
                 outcomes: seq<Outcome>, i: nat, done: bool, result: Option<Result>)
    requires req in s.requests && i < |outcomes| == |candidates| && s.requests[req].status == Assigning
    requires LoopAt(s, mid, req, size, candidates, outcomes, i) && req in mid.requests
    requires HostAlone(mid, t, req, candidates[i], size, outcomes[i], done, result)
    ensures done ==> LoopAlone(s, t, req, size, candidates, outcomes, done, result)
    ensures !done ==> LoopAt(s, t, req, size, candidates, outcomes, i + 1) && result == None
  {
    var c := NextCommit(outcomes, 0);
    if i > c && Commits(outcomes[i]) {
      assert NextCommit(outcomes, c + 1) == i;
    }
    if i == c {
      assert t.requests[req].placement.Some?;
    }
  }

  lemma LoopEnds(s: State, t: State, req: RequestId, size: Size, candidates: seq<HostId>, outcomes: seq<Outcome>)
    requires req in s.requests && |outcomes| == |candidates|
    requires LoopAt(s, t, req, size, candidates, outcomes, |outcomes|)
    ensures LoopAlone(s, t, req, size, candidates, outcomes, false, None)
  {
  }

  // ----- releaseEnvironment

  /** What releaseEnvironment does to the tables when no other call runs meanwhile. */
  ghost predicate ReleasesAlone(s: State, t: State, req: RequestId, team: TeamId, hasClient: bool, ok: bool) {
    && t.starts == s.starts
    && if req !in s.requests || s.requests[req].team != team
          || s.requests[req].status == Failed || s.requests[req].status == Released then
         !ok && t.requests == s.requests && t.used == s.used && t.deleted == s.deleted
       else
         && ok
         && t.requests == s.requests[req := s.requests[req].(status := Released)]
         && if s.requests[req].status == Assigned && s.requests[req].placement.Some? then
              var p := s.requests[req].placement.value;
              && t.used == SubUsed(s.used, p.host, p.size)
              && t.deleted == if hasClient then s.deleted + {p.vm} else s.deleted
            else
              t.used == s.used && t.deleted == s.deleted
  }

  /** Placing from the claimed state is placing from the state before the claim. */
  lemma PlacedFromClaim(s: State, claimed: State, t: State, req: RequestId, row: Request, plan: Plan,
                        candidates: seq<HostId>, outcomes: seq<Outcome>, result: Option<Result>)
    requires |outcomes| == |candidates| && req in s.requests
    requires claimed.requests == s.requests[req := row] && claimed.used == s.used && claimed.created == s.created
    requires claimed.starts == s.starts && claimed.failures == s.failures
    requires PlacesAlone(claimed, t, req, row, plan, candidates, outcomes, result)
    ensures PlacesAlone(s, t, req, row, plan, candidates, outcomes, result)
  {
    var c := NextCommit(outcomes, 0);
    if candidates != [] && c < |outcomes| && !outcomes[c].Boots? && NextCommit(outcomes, c + 1) == |outcomes| {
      var p: Placement :|
        && p.host == candidates[c] && p.size == plan.size && p.vm !in claimed.created
        && AttemptCounted(claimed, t, req, row.(status := Assigned, placement := Some(p)), result);
      assert AttemptCounted(s, t, req, row.(status := Assigned, placement := Some(p)), result);
    }
  }

  // ----- the queue worker

  const QUEUE_BATCH: nat := 20

  predicate QueuedRow(rows: map<RequestId, Request>, req: RequestId) {
    req in rows && rows[req].status == Queued
  }

  /** An answer of the worker's query: queued rows, oldest first, at most 20, none left out for a later one. */
  predicate IsOldestQueued(rows: map<RequestId, Request>, requestedAt: RequestId -> int, batch: seq<RequestId>) {
    && |batch| <= QUEUE_BATCH
    && (forall i :: 0 <= i < |batch| ==> QueuedRow(rows, batch[i]))
    && (forall i, j :: 0 <= i < j < |batch| ==> batch[i] != batch[j] && requestedAt(batch[i]) <= requestedAt(batch[j]))
    && (forall req <- rows :: QueuedRow(rows, req) && req !in batch ==>
          |batch| == QUEUE_BATCH && requestedAt(batch[QUEUE_BATCH - 1]) <= requestedAt(req))
  }

  method OldestOf(ids: set<RequestId>, requestedAt: RequestId -> int) returns (first: RequestId)
    requires ids != {}
    ensures first in ids && forall id <- ids :: requestedAt(first) <= requestedAt(id)
  {
    first :| first in ids;
    var rest := ids - {first};
    while rest != {}
      invariant first in ids && rest <= ids
      invariant forall id <- ids :: id in rest || requestedAt(first) <= requestedAt(id)
    {
      var id :| id in rest;
      if requestedAt(id) < requestedAt(first) {
        first := id;
      }
      rest := rest - {id};
    }
  }

  /** The rows picked so far, and those left to pick from. */
  ghost predicate Picking(rows: map<RequestId, Request>, requestedAt: RequestId -> int, batch: seq<RequestId>,
                          left: set<RequestId>) {
    && (forall i :: 0 <= i < |batch| ==> QueuedRow(rows, batch[i]) && batch[i] !in left)
    && (forall i, j :: 0 <= i < j < |batch| ==> batch[i] != batch[j] && requestedAt(batch[i]) <= requestedAt(batch[j]))
    && (forall req <- rows :: QueuedRow(rows, req) ==> req in batch || req in left)
    && (forall i, req :: 0 <= i < |batch| && req in left ==> requestedAt(batch[i]) <= requestedAt(req))
    && (forall req <- left :: QueuedRow(rows, req))
  }

  lemma PickOne(rows: map<RequestId, Request>, requestedAt: RequestId -> int, batch: seq<RequestId>, left: set<RequestId>,
                next: RequestId)
    requires Picking(rows, requestedAt, batch, left) && next in left
    requires forall req <- left :: requestedAt(next) <= requestedAt(req)
    ensures Picking(rows, requestedAt, batch + [next], left - {next})
  {
  }

  /** `WHERE status = 'queued' ORDER BY requested_at ASC LIMIT 20` */
  method SelectQueued(rows: map<RequestId, Request>, requestedAt: RequestId -> int) returns (batch: seq<RequestId>)
    ensures IsOldestQueued(rows, requestedAt, batch)
  {
    batch := [];
    var left := set req | req in rows && QueuedRow(rows, req);
    while |batch| < QUEUE_BATCH && left != {}
      invariant |batch| <= QUEUE_BATCH && Picking(rows, requestedAt, batch, left)
      decreases QUEUE_BATCH - |batch|
    {
      var next := OldestOf(left, requestedAt);
      PickOne(rows, requestedAt, batch, left, next);
      batch, left := batch + [next], left - {next};
    }
  }

  /** A queued row with fewer than 20 others ahead of it is in the batch. */
  lemma EarlyRowsAreTried(rows: map<RequestId, Request>, requestedAt: RequestId -> int, batch: seq<RequestId>, req: RequestId)
    requires IsOldestQueued(rows, requestedAt, batch) && req in rows && rows[req].status == Queued
    requires |set other | other in rows && rows[other].status == Queued && other != req
                          && requestedAt(other) <= requestedAt(req)| < 20
    ensures req in batch
  {
    if req !in batch {
      forall i | 0 <= i < |batch| ensures requestedAt(batch[i]) <= requestedAt(req) {
        assert requestedAt(batch[i]) <= requestedAt(batch[QUEUE_BATCH - 1]);
      }
      ElementsSize(batch);
      SubsetSize(Elements(batch), set other | other in rows && rows[other].status == Queued && other != req
                                              && requestedAt(other) <= requestedAt(req));
    }
  }

  /** And the batch holds queued rows only, each requested no later than any it leaves out. */
  lemma BatchIsOldest(rows: map<RequestId, Request>, requestedAt: RequestId -> int, batch: seq<RequestId>,
                      req: RequestId, other: RequestId)
    requires IsOldestQueued(rows, requestedAt, batch) && req in batch
    ensures |batch| <= 20 && req in rows && rows[req].status == Queued
    ensures other in rows && rows[other].status == Queued && other !in batch ==> requestedAt(req) <= requestedAt(other)
  {
    var i :| 0 <= i < |batch| && batch[i] == req;
    assert QueuedRow(rows, batch[i]);
    if QueuedRow(rows, other) && other !in batch {
      assert requestedAt(req) <= requestedAt(batch[QUEUE_BATCH - 1]);
    }
  }

  /** What one row of the worker's batch is tried with. */
  datatype Job = Job(plan: Plan, candidates: seq<HostId>, outcomes: seq<Outcome>, sched: Schedule)

  /** The run goes on by one tryAssign of the row, from its first event. */
  ghost predicate Tries(was: seq<Event>, now: seq<Event>, me: CallId, req: RequestId, job: Job) {
    Continues(was, now, me, job.sched) && was + [BeginAssign(me, req, job.plan)] <= now
  }

  /** Every host tried has an outcome. */
  ghost predicate JobsFit(jobs: RequestId -> Job) {
    forall req :: |jobs(req).outcomes| == |jobs(req).candidates|
  }

  /** The run goes on by the sweep, and then by events of the others. */
  ghost predicate SweptBy(was: seq<Event>, now: seq<Event>, cutoff: int, others: seq<Event>) {
    && was + [Reclaim(cutoff)] <= now
    && forall i :: |was| < i < |now| ==> now[i] in others
  }

  /** The whole effect of one undisturbed tryAssign of the tick. */
  ghost predicate TriedAlone(s: State, t: State, req: RequestId, job: Job, now: int, result: Option<Result>) {
    && req in s.requests && |job.outcomes| == |job.candidates|
    && AssignsAlone(s, t, req, job.plan, job.candidates, job.outcomes, now, result)
  }
}
