/**
 * The environment scheduler as a transition system.
 *
 * One event is one SQL statement, one transaction or one agent call of
 * src/scheduler/allocator.ts. Everything between two events of a call is local to that
 * call, so any interleaving of concurrent tryAssign and releaseEnvironment calls, of the
 * queue worker and of the stale-claim sweep is a sequence of events.
 */
module EnvironmentProtocol {
  import opened Wrappers

  type RequestId = nat
  type TeamId = nat
  type HostId = nat
  type VmId = nat
  type CallId = nat

  const MAX_ASSIGN_ATTEMPTS: nat := 5

  /** A vCPU and memory amount, added to and taken from a host's reservations. */
  datatype Size = Size(cpu: nat, ram: nat) {
    function Plus(other: Size): Size {
      Size(cpu + other.cpu, ram + other.ram)
    }

    /** GREATEST(0, a - b), column by column. */
    function ClampedMinus(other: Size): Size {
      Size(if cpu <= other.cpu then 0 else cpu - other.cpu, if ram <= other.ram then 0 else ram - other.ram)
    }
  }

  const NOTHING := Size(0, 0)

  datatype Status = Queued | Assigning | Assigned | Failed | Released

  /** host_id, vm_id, vcpu and ram_mb, which one UPDATE writes together. */
  datatype Placement = Placement(host: HostId, vm: VmId, size: Size)

  /** A row of environment_requests. */
  datatype Request = Request(
    team: TeamId,
    status: Status,
    claimedAt: Option<int>,
    placement: Option<Placement>,
    attempts: nat,
    blocked: bool)  // capacity_blocked_at is set

  datatype Plan = Plan(parallelEnvs: nat, size: Size)

  /** Where an in-flight tryAssign stands: the constructor names the statement it runs next. */
  datatype AssignPc =
    | Reserving
    | Notifying
    | PickingHosts
    | Trying(hosts: seq<HostId>)
    | Booted(host: HostId, vm: VmId, rest: seq<HostId>)
    | Orphaned(host: HostId, vm: VmId)
    | Won(host: HostId, vm: VmId, rest: seq<HostId>)
    | GivingUp
    | Reporting
    | Requeueing(clearClaim: bool)

  /** Where an in-flight releaseEnvironment stands. */
  datatype ReleasePc =
    | Dequeueing
    | Looking
    | Deleting(target: Placement)
    | Committing(target: Placement)

  datatype Call =
    | Assign(req: RequestId, team: TeamId, plan: Plan, pc: AssignPc)
    | Release(req: RequestId, team: TeamId, rpc: ReleasePc)

  datatype State = State(
    requests: map<RequestId, Request>,
    used: map<HostId, Size>,          // cpu_used and ram_used_mb of every host row
    calls: map<CallId, Call>,
    crashed: set<CallId>,             // calls whose process died; they never step again
    created: set<VmId>,               // returned by createVm
    deleted: set<VmId>,               // handed to deleteVm
    lost: set<VmId>,                  // dropped by a failed assign UPDATE or an unreachable host row
    starts: multiset<RequestId>,      // usage_events of type 'start'
    failures: multiset<RequestId>,    // usage_events of type 'start_failed'
    notices: multiset<RequestId>)     // environment.queued_at_limit webhooks

  function Init(hosts: set<HostId>): State {
    State(map[], map h | h in hosts :: NOTHING, map[], {}, {}, {}, {}, multiset{}, multiset{}, multiset{})
  }

  datatype Event =
    | Insert(req: RequestId, team: TeamId)
    | BeginAssign(call: CallId, req: RequestId, plan: Plan)
    | BeginRelease(call: CallId, req: RequestId, team: TeamId)
    | Reserve(call: CallId, now: int)
    | Notify(call: CallId)
    | PickHosts(call: CallId, hosts: seq<HostId>)
    | SkipHost(call: CallId)            // no agent endpoint or token, or createVm threw
    | Boot(call: CallId, vm: VmId)
    | CommitAssign(call: CallId)
    | CommitAssignFails(call: CallId)   // the database refuses the guarded UPDATE
    | DeleteOrphan(call: CallId)
    | Account(call: CallId)
    | AccountFails(call: CallId)        // the accounting transaction rolls back
    | CountAttempt(call: CallId)
    | MarkFailed(call: CallId)
    | ReportFailure(call: CallId)
    | Requeue(call: CallId)
    | Dequeue(call: CallId)
    | Look(call: CallId)
    | DeleteVm(call: CallId)
    | NoClient(call: CallId)            // the host row is gone or has no agent credentials
    | CommitRelease(call: CallId)
    | Reclaim(cutoff: int)
    | Crash(call: CallId)

  predicate Active(row: Request) {
    row.status == Assigning || row.status == Assigned
  }

  /** The rows the parallelism count of reserveSlot selects. */
  function ActiveRows(requests: map<RequestId, Request>, team: TeamId): set<RequestId> {
    set r | r in requests && requests[r].team == team && Active(requests[r])
  }

  function Used(s: State, team: TeamId): nat {
    |ActiveRows(s.requests, team)|
  }

  /** The count of reserveSlot is over the rows that are assigning or assigned. */
  lemma UsedIsRunning(s: State, team: TeamId)
    ensures Used(s, team) == |set r | r in s.requests && s.requests[r].team == team
                                      && (s.requests[r].status == Assigning || s.requests[r].status == Assigned)|
  {
    assert ActiveRows(s.requests, team) == set r | r in s.requests && s.requests[r].team == team
                                                   && (s.requests[r].status == Assigning || s.requests[r].status == Assigned);
  }

  // ----- which events can happen

  predicate At(s: State, c: CallId, pc: AssignPc) {
    c in s.calls && c !in s.crashed && s.calls[c].Assign? && s.calls[c].pc == pc
  }

  predicate AssignLive(s: State, c: CallId) {
    c in s.calls && c !in s.crashed && s.calls[c].Assign?
  }

  predicate ReleaseLive(s: State, c: CallId) {
    c in s.calls && c !in s.crashed && s.calls[c].Release?
  }

  predicate Enabled(s: State, e: Event) {
    match e
    case Insert(req, _) => req !in s.requests
    case BeginAssign(c, req, _) => c !in s.calls && req in s.requests
    case BeginRelease(c, _, _) => c !in s.calls
    case Reserve(c, _) => AssignLive(s, c) && s.calls[c].pc.Reserving? && s.calls[c].req in s.requests
    case Notify(c) => AssignLive(s, c) && s.calls[c].pc.Notifying?
    case PickHosts(c, _) => AssignLive(s, c) && s.calls[c].pc.PickingHosts?
    case SkipHost(c) => AssignLive(s, c) && s.calls[c].pc.Trying? && s.calls[c].pc.hosts != []
    case Boot(c, vm) => AssignLive(s, c) && s.calls[c].pc.Trying? && s.calls[c].pc.hosts != [] && vm !in s.created
    case CommitAssign(c) => AssignLive(s, c) && s.calls[c].pc.Booted? && s.calls[c].req in s.requests
    case CommitAssignFails(c) => AssignLive(s, c) && s.calls[c].pc.Booted?
    case DeleteOrphan(c) => AssignLive(s, c) && s.calls[c].pc.Orphaned?
    case Account(c) => AssignLive(s, c) && s.calls[c].pc.Won?
    case AccountFails(c) => AssignLive(s, c) && s.calls[c].pc.Won?
    case CountAttempt(c) => AssignLive(s, c) && s.calls[c].pc == Trying([]) && s.calls[c].req in s.requests
    case MarkFailed(c) => AssignLive(s, c) && s.calls[c].pc.GivingUp? && s.calls[c].req in s.requests
    case ReportFailure(c) => AssignLive(s, c) && s.calls[c].pc.Reporting?
    case Requeue(c) => AssignLive(s, c) && s.calls[c].pc.Requeueing? && s.calls[c].req in s.requests
    case Dequeue(c) => ReleaseLive(s, c) && s.calls[c].rpc.Dequeueing?
    case Look(c) => ReleaseLive(s, c) && s.calls[c].rpc.Looking?
    case DeleteVm(c) => ReleaseLive(s, c) && s.calls[c].rpc.Deleting?
    case NoClient(c) => ReleaseLive(s, c) && s.calls[c].rpc.Deleting?
    case CommitRelease(c) => ReleaseLive(s, c) && s.calls[c].rpc.Committing? && s.calls[c].req in s.requests
    case Reclaim(_) => true
    case Crash(c) => c in s.calls && c !in s.crashed
  }

  // ----- what an event does

  function Goto(s: State, c: CallId, pc: AssignPc): State
    requires AssignLive(s, c)
  {
    s.(calls := s.calls[c := s.calls[c].(pc := pc)])
  }

  function GotoRelease(s: State, c: CallId, rpc: ReleasePc): State
    requires ReleaseLive(s, c)
  {
    s.(calls := s.calls[c := s.calls[c].(rpc := rpc)])
  }

  /** The call returns. */
  function Return(s: State, c: CallId): State {
    s.(calls := s.calls - {c})
  }

  function PutRow(s: State, r: RequestId, row: Request): State {
    s.(requests := s.requests[r := row])
  }

  /** The advisory-locked transaction: count, then stamp, refuse or claim. */
  function ApplyReserve(s: State, c: CallId, now: int): State
    requires Enabled(s, Reserve(c, now))
  {
    var call := s.calls[c];
    var row := s.requests[call.req];
    if Used(s, call.team) >= call.plan.parallelEnvs then
      if call.plan.parallelEnvs > 0 && !row.blocked then
        PutRow(Goto(s, c, Notifying), call.req, row.(blocked := true))
      else
        Return(s, c)
    else if row.status == Queued then
      PutRow(Goto(s, c, PickingHosts), call.req, row.(status := Assigning, claimedAt := Some(now)))
    else
      Return(s, c)
  }

  /** UPDATE ... SET status = 'assigned' ... WHERE status = 'assigning'. */
  function ApplyCommitAssign(s: State, c: CallId): State
    requires Enabled(s, CommitAssign(c))
  {
    var call := s.calls[c];
    var row := s.requests[call.req];
    var pc := call.pc;
    if row.status == Assigning then
      PutRow(Goto(s, c, Won(pc.host, pc.vm, pc.rest)), call.req,
             row.(status := Assigned, placement := Some(Placement(pc.host, pc.vm, call.plan.size))))
    else
      Goto(s, c, Orphaned(pc.host, pc.vm))
  }

  function AddUsed(used: map<HostId, Size>, host: HostId, size: Size): map<HostId, Size> {
    if host in used then used[host := used[host].Plus(size)] else used
  }

  function SubUsed(used: map<HostId, Size>, host: HostId, size: Size): map<HostId, Size> {
    if host in used then used[host := used[host].ClampedMinus(size)] else used
  }

  function ApplyCountAttempt(s: State, c: CallId): State
    requires Enabled(s, CountAttempt(c))
  {
    var r := s.calls[c].req;
    var row := s.requests[r].(attempts := s.requests[r].attempts + 1);
    PutRow(Goto(s, c, if row.attempts >= MAX_ASSIGN_ATTEMPTS then GivingUp else Requeueing(false)), r, row)
  }

  function ApplyRequeue(s: State, c: CallId): State
    requires Enabled(s, Requeue(c))
  {
    var r := s.calls[c].req;
    var row := s.requests[r];
    if row.status == Assigning then
      PutRow(Return(s, c), r,
             row.(status := Queued, claimedAt := if s.calls[c].pc.clearClaim then None else row.claimedAt))
    else
      Return(s, c)
  }

  /** The guarded release of a row that has no VM yet; otherwise fall through to the assigned path. */
  function ApplyDequeue(s: State, c: CallId): State
    requires Enabled(s, Dequeue(c))
  {
    var call := s.calls[c];
    if call.req in s.requests && s.requests[call.req].team == call.team
       && (s.requests[call.req].status == Queued || s.requests[call.req].status == Assigning) then
      PutRow(Return(s, c), call.req, s.requests[call.req].(status := Released))
    else
      GotoRelease(s, c, Looking)
  }

  function ApplyLook(s: State, c: CallId): State
    requires Enabled(s, Look(c))
  {
    var call := s.calls[c];
    if call.req in s.requests && s.requests[call.req].team == call.team
       && s.requests[call.req].status == Assigned && s.requests[call.req].placement.Some? then
      GotoRelease(s, c, Deleting(s.requests[call.req].placement.value))
    else
      Return(s, c)
  }

  /** The release transaction. Its UPDATE carries no status guard. */
  function ApplyCommitRelease(s: State, c: CallId): State
    requires Enabled(s, CommitRelease(c))
  {
    var call := s.calls[c];
    var p := call.rpc.target;
    PutRow(Return(s, c), call.req, s.requests[call.req].(status := Released))
    .(used := SubUsed(s.used, p.host, p.size))
  }

  /** A claim the sweep takes back: assigning, with a claim time older than the cutoff. */
  predicate Stale(row: Request, cutoff: int) {
    row.status == Assigning && row.claimedAt.Some? && row.claimedAt.value < cutoff
  }

  function ReclaimRow(row: Request, cutoff: int): Request {
    if Stale(row, cutoff) then row.(status := Queued, claimedAt := None) else row
  }

  function ReclaimRows(requests: map<RequestId, Request>, cutoff: int): map<RequestId, Request> {
    map r | r in requests :: ReclaimRow(requests[r], cutoff)
  }

  function Apply(s: State, e: Event): State
    requires Enabled(s, e)
  {
    match e
    case Insert(req, team) => PutRow(s, req, Request(team, Queued, None, None, 0, false))
    case BeginAssign(c, req, plan) =>
      s.(calls := s.calls[c := Assign(req, s.requests[req].team, plan, Reserving)])
    case BeginRelease(c, req, team) => s.(calls := s.calls[c := Release(req, team, Dequeueing)])
    case Reserve(c, now) => ApplyReserve(s, c, now)
    case Notify(c) => Return(s, c).(notices := s.notices + multiset{s.calls[c].req})
    case PickHosts(c, hosts) => Goto(s, c, if hosts == [] then Requeueing(true) else Trying(hosts))
    case SkipHost(c) => Goto(s, c, Trying(s.calls[c].pc.hosts[1..]))
    case Boot(c, vm) =>
      Goto(s, c, Booted(s.calls[c].pc.hosts[0], vm, s.calls[c].pc.hosts[1..])).(created := s.created + {vm})
    case CommitAssign(c) => ApplyCommitAssign(s, c)
    case CommitAssignFails(c) =>
      Goto(s, c, Trying(s.calls[c].pc.rest)).(lost := s.lost + {s.calls[c].pc.vm})
    case DeleteOrphan(c) => Return(s, c).(deleted := s.deleted + {s.calls[c].pc.vm})
    case Account(c) =>
      Return(s, c).(starts := s.starts + multiset{s.calls[c].req},
                    used := AddUsed(s.used, s.calls[c].pc.host, s.calls[c].plan.size))
    case AccountFails(c) => Goto(s, c, Trying(s.calls[c].pc.rest))
    case CountAttempt(c) => ApplyCountAttempt(s, c)
    case MarkFailed(c) =>
      var r := s.calls[c].req;
      var row := s.requests[r];
      PutRow(Goto(s, c, Reporting), r, if row.status == Assigning then row.(status := Failed) else row)
    case ReportFailure(c) => Return(s, c).(failures := s.failures + multiset{s.calls[c].req})
    case Requeue(c) => ApplyRequeue(s, c)
    case Dequeue(c) => ApplyDequeue(s, c)
    case Look(c) => ApplyLook(s, c)
    case DeleteVm(c) =>
      GotoRelease(s, c, Committing(s.calls[c].rpc.target)).(deleted := s.deleted + {s.calls[c].rpc.target.vm})
    case NoClient(c) =>
      GotoRelease(s, c, Committing(s.calls[c].rpc.target)).(lost := s.lost + {s.calls[c].rpc.target.vm})
    case CommitRelease(c) => ApplyCommitRelease(s, c)
    case Reclaim(cutoff) => s.(requests := ReclaimRows(s.requests, cutoff))
    case Crash(c) => s.(crashed := s.crashed + {c})
  }

  /** The state a sequence of events leads to, or None when one of them cannot happen. */
  function Run(s: State, es: seq<Event>): Option<State>
    decreases |es|
  {
    if es == [] then Some(s)
    else if !Enabled(s, es[0]) then None
    else Run(Apply(s, es[0]), es[1..])
  }

  ghost predicate Reachable(s: State) {
    exists hosts: set<HostId>, es: seq<Event> :: Run(Init(hosts), es) == Some(s)
  }

  lemma {:induction false} RunAppend(s: State, es: seq<Event>, fs: seq<Event>)
    requires Run(s, es).Some?
    ensures Run(s, es + fs) == Run(Run(s, es).value, fs)
    decreases |es|
  {
    if es == [] {
      assert es + fs == fs;
    } else {
      assert (es + fs)[0] == es[0] && (es + fs)[1..] == es[1..] + fs;
      RunAppend(Apply(s, es[0]), es[1..], fs);
    }
  }
}
