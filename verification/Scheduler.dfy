/**
 * The scheduler's calls as they are written: statements over mutable tables, with other
 * calls running at every await. Each method is proved to be a run of EnvironmentProtocol,
 * so the theorems about runs hold of it under any interference.
 */
module Scheduler {
  import opened Wrappers
  import opened EnvironmentProtocol
  import opened EnvironmentSafety
  import opened WholeCalls

  lemma OthersLeaveMe(s: State, e: Event, me: CallId)
    requires Enabled(s, e) && !Steps(e, me) && me in s.calls && me !in s.crashed
    ensures var t := Apply(s, e); me in t.calls && t.calls[me] == s.calls[me] && me !in t.crashed
  {
    BystanderStays(s, e, me);
  }

  lemma RowsRemain(s: State, e: Event)
    requires Enabled(s, e)
    ensures s.requests.Keys <= Apply(s, e).requests.Keys
  {
    forall r <- s.requests ensures r in Apply(s, e).requests {
      RowStays(s, e, r);
    }
  }

  class Allocator {
    var requests: map<RequestId, Request>
    var used: map<HostId, Size>
    var calls: map<CallId, Call>
    var crashed: set<CallId>
    var created: set<VmId>
    var deleted: set<VmId>
    var lost: set<VmId>
    var starts: multiset<RequestId>
    var failures: multiset<RequestId>
    var notices: multiset<RequestId>
    ghost const hosts: set<HostId>
    ghost var trace: seq<Event>

    function Now(): State
      reads this
    {
      State(requests, used, calls, crashed, created, deleted, lost, starts, failures, notices)
    }

    /** The tables are what the events recorded so far lead to. */
    ghost predicate Valid()
      reads this
    {
      Run(Init(hosts), trace) == Some(Now())
    }

    lemma ValidInv()
      requires Valid()
      ensures Reachable(Now()) && Inv(Now())
    {
      assert Run(Init(hosts), trace) == Some(Now());
      ReachableInv(Now());
    }

    /** This call stands at `pc`. */
    ghost predicate Mine(me: CallId, req: RequestId, plan: Plan, pc: AssignPc)
      reads this
    {
      && me in calls && me !in crashed && req in requests
      && calls[me].Assign? && calls[me].pc == pc && calls[me].req == req && calls[me].plan == plan
    }

    constructor (hostIds: set<HostId>)
      ensures Valid() && Now() == Init(hostIds) && trace == []
    {
      requests, used, calls := map[], map h | h in hostIds :: NOTHING, map[];
      crashed, created, deleted, lost := {}, {}, {}, {};
      starts, failures, notices := multiset{}, multiset{}, multiset{};
      hosts := hostIds;
      trace := [];
    }

    /** Notes the event a method has just carried out. */
    ghost method Note(before: State, e: Event)
      requires Run(Init(hosts), trace) == Some(before) && Enabled(before, e) && Now() == Apply(before, e)
      modifies this`trace
      ensures Valid() && trace == old(trace) + [e]
    {
      RunAppend(Init(hosts), trace, [e]);
      assert [e][1..] == [];
      assert Run(Apply(before, e), []) == Some(Now());
      trace := trace + [e];
    }

    /** One event of some other call. */
    method Perform(e: Event)
      requires Valid() && Enabled(Now(), e)
      modifies this
      ensures Valid() && Now() == Apply(old(Now()), e) && trace == old(trace) + [e]
    {
      ghost var before := Now();
      Load(Apply(Now(), e));
      Note(before, e);
    }

    method Load(t: State)
      modifies this
      ensures Now() == t && trace == old(trace)
    {
      requests, used, calls, crashed := t.requests, t.used, t.calls, t.crashed;
      created, deleted, lost := t.created, t.deleted, t.lost;
      starts, failures, notices := t.starts, t.failures, t.notices;
    }

    /** The k-th await: other calls run, this one stays where it is. */
    method Await(me: CallId, sched: Schedule, k: nat)
      requires Valid() && me in calls && me !in crashed
      modifies this
      ensures Valid() && me in calls && calls[me] == old(calls[me]) && me !in crashed
      ensures old(requests.Keys) <= requests.Keys
      ensures Continues(old(trace), trace, me, sched)
      ensures Now() == Others(old(Now()), if k < |sched| then sched[k] else [], me)
      ensures sched == [] ==> unchanged(this)
    {
      var others := Turn(sched, k);
      for i := 0 to |others|
        invariant Valid() && me in calls && calls[me] == old(calls[me]) && me !in crashed
        invariant old(requests.Keys) <= requests.Keys
        invariant Continues(old(trace), trace, me, sched)
        invariant Others(old(Now()), others, me) == Others(Now(), others[i..], me)
        invariant i == 0 ==> unchanged(this)
      {
        assert others[i..][1..] == others[i + 1..];
        if Enabled(Now(), others[i]) && !Steps(others[i], me) {
          OthersLeaveMe(Now(), others[i], me);
          RowsRemain(Now(), others[i]);
          assert Scheduled(others[i], sched);
          ContinuesBy(old(trace), trace, others[i], me, sched);
          Perform(others[i]);
        }
      }
    }

    // ----- the statements of tryAssign
    // Each one says which event it is (through the trace) and what it writes; `modifies` says what it does not.

    /** Whether this call is alive at `pc`. */
    predicate AtPc(me: CallId, pc: AssignPc)
      reads this
    {
      me in calls && me !in crashed && calls[me].Assign? && calls[me].pc == pc
    }

    method Begin(me: CallId, req: RequestId, plan: Plan)
      requires Valid() && req in requests && me !in calls
      modifies this`calls, this`trace
      ensures Valid() && trace == old(trace) + [BeginAssign(me, req, plan)]
      ensures calls == old(calls)[me := Assign(req, requests[req].team, plan, Reserving)]
    {
      ghost var before := Now();
      calls := calls[me := Assign(req, requests[req].team, plan, Reserving)];
      Note(before, BeginAssign(me, req, plan));
    }

    /** The advisory-locked transaction: count, then stamp, refuse or claim. */
    method ReserveSlot(me: CallId, now: int) returns (granted: bool, firstRefusal: bool)
      requires Valid() && AtPc(me, Reserving) && calls[me].req in requests
      modifies this`calls, this`requests, this`trace
      ensures Valid() && trace == old(trace) + [Reserve(me, now)]
      ensures var call, rows := old(calls[me]), old(requests);
              var running := |set r | r in rows && rows[r].team == call.team
                                      && (rows[r].status == Assigning || rows[r].status == Assigned)|;
              && (granted <==> running < call.plan.parallelEnvs && rows[call.req].status == Queued)
              && (firstRefusal <==> running >= call.plan.parallelEnvs > 0 && !rows[call.req].blocked)
      ensures requests == (if granted then
                old(requests)[old(calls[me]).req := old(requests[calls[me].req]).(status := Assigning, claimedAt := Some(now))]
              else if firstRefusal then
                old(requests)[old(calls[me]).req := old(requests[calls[me].req]).(blocked := true)]
              else old(requests))
      ensures calls == (if granted then old(calls)[me := old(calls[me]).(pc := PickingHosts)]
                        else if firstRefusal then old(calls)[me := old(calls[me]).(pc := Notifying)]
                        else old(calls) - {me})
    {
      ghost var before := Now();
      var call := calls[me];
      var row := requests[call.req];
      var count := |ActiveRows(requests, call.team)|;
      UsedIsRunning(before, call.team);
      granted, firstRefusal := false, false;
      if count >= call.plan.parallelEnvs {
        if call.plan.parallelEnvs > 0 && !row.blocked {
          requests := requests[call.req := row.(blocked := true)];
          firstRefusal := true;
        }
      } else if row.status == Queued {
        requests := requests[call.req := row.(status := Assigning, claimedAt := Some(now))];
        granted := true;
      }
      if granted {
        calls := calls[me := call.(pc := PickingHosts)];
      } else if firstRefusal {
        calls := calls[me := call.(pc := Notifying)];
      } else {
        calls := calls - {me};
      }
      Note(before, Reserve(me, now));
    }

    method EmitLimitNotice(me: CallId)
      requires Valid() && AtPc(me, Notifying)
      modifies this`calls, this`notices, this`trace
      ensures Valid() && trace == old(trace) + [Notify(me)]
      ensures calls == old(calls) - {me} && notices == old(notices) + multiset{old(calls[me]).req}
    {
      ghost var before := Now();
      notices := notices + multiset{calls[me].req};
      calls := calls - {me};
      Note(before, Notify(me));
    }

    method PickCandidates(me: CallId, candidates: seq<HostId>)
      requires Valid() && AtPc(me, PickingHosts)
      modifies this`calls, this`trace
      ensures Valid() && trace == old(trace) + [PickHosts(me, candidates)]
      ensures calls == old(calls)[me := old(calls[me]).(pc := if candidates == [] then Requeueing(true) else Trying(candidates))]
    {
      ghost var before := Now();
      calls := calls[me := calls[me].(pc := if candidates == [] then Requeueing(true) else Trying(candidates))];
      Note(before, PickHosts(me, candidates));
    }

    method Skip(me: CallId, hosts: seq<HostId>)
      requires Valid() && AtPc(me, Trying(hosts)) && hosts != []
      modifies this`calls, this`trace
      ensures Valid() && trace == old(trace) + [SkipHost(me)]
      ensures calls == old(calls)[me := old(calls[me]).(pc := Trying(hosts[1..]))]
    {
      ghost var before := Now();
      calls := calls[me := calls[me].(pc := Trying(hosts[1..]))];
      Note(before, SkipHost(me));
    }

    /** An id no agent has returned before. */
    method FreshVm() returns (vm: VmId)
      ensures vm !in created
    {
      vm := 0;
      var rest := created;
      while rest != {}
        invariant rest <= created
        invariant forall y :: y in created && y !in rest ==> y < vm
      {
        var x :| x in rest;
        vm := if vm <= x then x + 1 else vm;
        rest := rest - {x};
      }
    }

    /** createVm on the host at the head of the list. */
    method CreateVm(me: CallId, hosts: seq<HostId>) returns (vm: VmId)
      requires Valid() && AtPc(me, Trying(hosts)) && hosts != []
      modifies this`calls, this`created, this`trace
      ensures vm !in old(created) && created == old(created) + {vm}
      ensures Valid() && trace == old(trace) + [Boot(me, vm)]
      ensures calls == old(calls)[me := old(calls[me]).(pc := Booted(hosts[0], vm, hosts[1..]))]
    {
      ghost var before := Now();
      vm := FreshVm();
      created := created + {vm};
      calls := calls[me := calls[me].(pc := Booted(hosts[0], vm, hosts[1..]))];
      Note(before, Boot(me, vm));
    }

    /** The guarded UPDATE that records the VM; `won` is whether it matched the row. */
    method CommitAssignment(me: CallId, host: HostId, vm: VmId, rest: seq<HostId>) returns (won: bool)
      requires Valid() && AtPc(me, Booted(host, vm, rest)) && calls[me].req in requests
      modifies this`calls, this`requests, this`trace
      ensures Valid() && trace == old(trace) + [CommitAssign(me)]
      ensures won <==> old(requests[calls[me].req]).status == Assigning
      ensures requests == (if won then
                old(requests)[old(calls[me]).req := old(requests[calls[me].req]).(
                  status := Assigned, placement := Some(Placement(host, vm, old(calls[me]).plan.size)))]
              else old(requests))
      ensures calls == old(calls)[me := old(calls[me]).(pc := if won then Won(host, vm, rest) else Orphaned(host, vm))]
    {
      ghost var before := Now();
      var call := calls[me];
      var row := requests[call.req];
      won := row.status == Assigning;
      if won {
        requests := requests[call.req := row.(status := Assigned, placement := Some(Placement(host, vm, call.plan.size)))];
      }
      calls := calls[me := call.(pc := if won then AssignPc.Won(host, vm, rest) else Orphaned(host, vm))];
      Note(before, CommitAssign(me));
    }

    /** The UPDATE throws: the loop moves on and nothing remembers the VM. */
    method AssignErrors(me: CallId, host: HostId, vm: VmId, rest: seq<HostId>)
      requires Valid() && AtPc(me, Booted(host, vm, rest))
      modifies this`calls, this`lost, this`trace
      ensures Valid() && trace == old(trace) + [CommitAssignFails(me)]
      ensures calls == old(calls)[me := old(calls[me]).(pc := Trying(rest))] && lost == old(lost) + {vm}
    {
      ghost var before := Now();
      lost := lost + {vm};
      calls := calls[me := calls[me].(pc := Trying(rest))];
      Note(before, CommitAssignFails(me));
    }

    method DeleteOrphanedVm(me: CallId, host: HostId, vm: VmId)
      requires Valid() && AtPc(me, Orphaned(host, vm))
      modifies this`calls, this`deleted, this`trace
      ensures Valid() && trace == old(trace) + [DeleteOrphan(me)]
      ensures calls == old(calls) - {me} && deleted == old(deleted) + {vm}
    {
      ghost var before := Now();
      deleted := deleted + {vm};
      calls := calls - {me};
      Note(before, DeleteOrphan(me));
    }

    /** The accounting transaction: a 'start' event and the host's reservations, together. */
    method AccountStart(me: CallId, host: HostId, vm: VmId, rest: seq<HostId>)
      requires Valid() && AtPc(me, AssignPc.Won(host, vm, rest))
      modifies this`calls, this`starts, this`used, this`trace
      ensures Valid() && trace == old(trace) + [Account(me)]
      ensures calls == old(calls) - {me} && starts == old(starts) + multiset{old(calls[me]).req}
      ensures used == AddUsed(old(used), host, old(calls[me]).plan.size)
    {
      ghost var before := Now();
      var call := calls[me];
      starts := starts + multiset{call.req};
      if host in used {
        used := used[host := used[host].Plus(call.plan.size)];
      }
      calls := calls - {me};
      Note(before, Account(me));
    }

    /** The accounting transaction rolls back: the loop moves on to the next host. */
    method AccountingErrors(me: CallId, host: HostId, vm: VmId, rest: seq<HostId>)
      requires Valid() && AtPc(me, AssignPc.Won(host, vm, rest))
      modifies this`calls, this`trace
      ensures Valid() && trace == old(trace) + [AccountFails(me)]
      ensures calls == old(calls)[me := old(calls[me]).(pc := Trying(rest))]
    {
      ghost var before := Now();
      calls := calls[me := calls[me].(pc := Trying(rest))];
      Note(before, AccountFails(me));
    }

    method BumpAttempts(me: CallId) returns (attempts: nat)
      requires Valid() && AtPc(me, Trying([])) && calls[me].req in requests
      modifies this`calls, this`requests, this`trace
      ensures Valid() && trace == old(trace) + [CountAttempt(me)]
      ensures attempts == old(requests[calls[me].req]).attempts + 1
      ensures requests == old(requests)[old(calls[me]).req := old(requests[calls[me].req]).(attempts := attempts)]
      ensures calls == old(calls)[me := old(calls[me]).(pc := if attempts >= MAX_ASSIGN_ATTEMPTS then GivingUp else Requeueing(false))]
    {
      ghost var before := Now();
      var r := calls[me].req;
      attempts := requests[r].attempts + 1;
      requests := requests[r := requests[r].(attempts := attempts)];
      calls := calls[me := calls[me].(pc := if attempts >= MAX_ASSIGN_ATTEMPTS then GivingUp else Requeueing(false))];
      Note(before, CountAttempt(me));
    }

    /** The guarded UPDATE of the last attempt: the row becomes 'failed' only if it is still claimed. */
    method MarkRowFailed(me: CallId)
      requires Valid() && AtPc(me, GivingUp) && calls[me].req in requests
      modifies this`calls, this`requests, this`trace
      ensures Valid() && trace == old(trace) + [MarkFailed(me)]
      ensures requests == (if old(requests[calls[me].req]).status == Assigning then
                old(requests)[old(calls[me]).req := old(requests[calls[me].req]).(status := Failed)] else old(requests))
      ensures calls == old(calls)[me := old(calls[me]).(pc := Reporting)]
    {
      ghost var before := Now();
      var r := calls[me].req;
      if requests[r].status == Assigning {
        requests := requests[r := requests[r].(status := Failed)];
      }
      calls := calls[me := calls[me].(pc := Reporting)];
      assert requests == Apply(before, MarkFailed(me)).requests;
      Note(before, MarkFailed(me));
    }

    method RecordFailure(me: CallId)
      requires Valid() && AtPc(me, Reporting)
      modifies this`calls, this`failures, this`trace
      ensures Valid() && trace == old(trace) + [ReportFailure(me)]
      ensures calls == old(calls) - {me} && failures == old(failures) + multiset{old(calls[me]).req}
    {
      ghost var before := Now();
      failures := failures + multiset{calls[me].req};
      calls := calls - {me};
      Note(before, ReportFailure(me));
    }

    /** Gives the claim back, if the row is still claimed. */
    method GiveBack(me: CallId, clearClaim: bool)
      requires Valid() && AtPc(me, Requeueing(clearClaim)) && calls[me].req in requests
      modifies this`calls, this`requests, this`trace
      ensures Valid() && trace == old(trace) + [Requeue(me)]
      ensures calls == old(calls) - {me}
      ensures var row := old(requests[calls[me].req]);
              requests == (if row.status == Assigning then
                old(requests)[old(calls[me]).req := row.(status := Queued, claimedAt := if clearClaim then None else row.claimedAt)]
              else old(requests))
    {
      ghost var before := Now();
      var r := calls[me].req;
      if requests[r].status == Assigning {
        requests := requests[r := requests[r].(status := Queued,
                                               claimedAt := if clearClaim then None else requests[r].claimedAt)];
      }
      calls := calls - {me};
      Note(before, Requeue(me));
    }

    // ----- tryAssign

    /** Reserves the slot, and sends the limit notice on a first refusal. */
    method Claim(me: CallId, req: RequestId, plan: Plan, now: int, sched: Schedule) returns (granted: bool)
      requires Valid() && Mine(me, req, plan, Reserving)
      modifies this
      ensures Valid() && old(requests.Keys) <= requests.Keys && Continues(old(trace), trace, me, sched)
      ensures granted ==> Mine(me, req, plan, PickingHosts)
      ensures granted ==> old(requests[req]).status == Queued && Used(old(Now()), old(calls[me].team)) < plan.parallelEnvs
      ensures granted ==> requests == old(requests)[req := old(requests[req]).(status := Assigning, claimedAt := Some(now))]
      ensures granted ==> used == old(used) && created == old(created) && starts == old(starts) && failures == old(failures)
      ensures !granted ==> me !in calls
      ensures !granted && sched == [] ==>
                && used == old(used) && starts == old(starts)
                && if Used(old(Now()), old(calls[me].team)) >= plan.parallelEnvs then
                     requests == old(requests)[req := Refused(old(requests[req]), plan)]
                   else old(requests[req]).status != Queued && requests == old(requests)
    {
      UsedIsRunning(Now(), calls[me].team);
      ghost var was := trace;
      var refused;
      granted, refused := ReserveSlot(me, now);
      ContinuesBy(was, was, Reserve(me, now), me, sched);
      if refused {
        ghost var mid := trace;
        Await(me, sched, 1);
        ContinuesOn(was, mid, trace, me, sched);
        ContinuesBy(was, trace, Notify(me), me, sched);
        EmitLimitNotice(me);
      }
    }

    /** While a call has won its row, whatever else runs, the row names its VM. */
    lemma WonIsRecorded(me: CallId, host: HostId, vm: VmId, rest: seq<HostId>)
      requires Valid() && AtPc(me, AssignPc.Won(host, vm, rest))
      ensures calls[me].req in requests
      ensures requests[calls[me].req].placement == Some(Placement(host, vm, calls[me].plan.size))
    {
      ValidInv();
      assert WonBy(Now(), me, calls[me].req);
    }

    lemma CallsAreLive()
      requires Valid()
      ensures crashed <= calls.Keys
    {
      ValidInv();
    }

    /** Records a booted VM, or deletes it when the row has moved on. */
    method SettleVm(me: CallId, req: RequestId, plan: Plan, host: HostId, vm: VmId, rest: seq<HostId>,
                    outcome: Outcome, sched: Schedule, k: nat)
      returns (done: bool, result: Option<Result>)
      requires Valid() && Mine(me, req, plan, Booted(host, vm, rest)) && !outcome.Unreachable?
      modifies this
      ensures Valid() && old(requests.Keys) <= requests.Keys && Continues(old(trace), trace, me, sched)
      ensures !done ==> Mine(me, req, plan, Trying(rest))
      ensures done ==> me !in calls
      ensures result.Some? ==>
                && done && result == Some(AssignedTo(host, vm)) && req in starts
                && requests[req].placement == Some(Placement(host, vm, plan.size))
      ensures sched == [] ==> created == old(created) && Settled(old(Now()), Now(), req, host, vm, plan.size, outcome, done, result)
    {
      ghost var was := trace;
      if outcome == BootsThenAssignErrors {
        AssignErrors(me, host, vm, rest);
        ContinuesBy(was, was, CommitAssignFails(me), me, sched);
        return false, None;
      }
      done, result := CommitVm(me, req, plan, host, vm, rest, outcome, sched, k);
    }

    /** The guarded UPDATE, and what follows either answer. */
    method CommitVm(me: CallId, req: RequestId, plan: Plan, host: HostId, vm: VmId, rest: seq<HostId>,
                    outcome: Outcome, sched: Schedule, k: nat)
      returns (done: bool, result: Option<Result>)
      requires Valid() && Mine(me, req, plan, Booted(host, vm, rest)) && Commits(outcome)
      modifies this
      ensures Valid() && old(requests.Keys) <= requests.Keys && Continues(old(trace), trace, me, sched)
      ensures !done ==> Mine(me, req, plan, Trying(rest))
      ensures done ==> me !in calls
      ensures result.Some? ==>
                && done && result == Some(AssignedTo(host, vm)) && req in starts
                && requests[req].placement == Some(Placement(host, vm, plan.size))
      ensures sched == [] ==> created == old(created) && Settled(old(Now()), Now(), req, host, vm, plan.size, outcome, done, result)
    {
      ghost var was := trace;
      var won := CommitAssignment(me, host, vm, rest);
      ContinuesBy(was, was, CommitAssign(me), me, sched);
      ghost var mid := trace;
      if won {
        done, result := KeepVm(me, req, plan, host, vm, rest, outcome, sched, k);
      } else {
        DropVm(me, host, vm, sched, k);
        done, result := true, None;
      }
      ContinuesOn(was, mid, trace, me, sched);
    }

    /** Nobody asks for the VM any more. */
    method DropVm(me: CallId, host: HostId, vm: VmId, sched: Schedule, k: nat)
      requires Valid() && AtPc(me, Orphaned(host, vm))
      modifies this
      ensures Valid() && me !in calls && old(requests.Keys) <= requests.Keys && Continues(old(trace), trace, me, sched)
      ensures sched == [] ==> created == old(created) && SameTables(old(Now()), Now())
    {
      ghost var was := trace;
      Await(me, sched, k);
      ContinuesBy(was, trace, DeleteOrphan(me), me, sched);
      DeleteOrphanedVm(me, host, vm);
    }

    method KeepVm(me: CallId, req: RequestId, plan: Plan, host: HostId, vm: VmId, rest: seq<HostId>,
                  outcome: Outcome, sched: Schedule, k: nat)
      returns (done: bool, result: Option<Result>)
      requires Valid() && Mine(me, req, plan, AssignPc.Won(host, vm, rest))
      modifies this
      ensures Valid() && old(requests.Keys) <= requests.Keys && Continues(old(trace), trace, me, sched)
      ensures done <==> outcome != BootsThenAccountingErrors
      ensures !done ==> Mine(me, req, plan, Trying(rest)) && result == None
      ensures done ==>
                && me !in calls && result == Some(AssignedTo(host, vm)) && req in starts
                && requests[req].placement == Some(Placement(host, vm, plan.size))
      ensures sched == [] ==>
                && created == old(created) && requests == old(requests) && failures == old(failures)
                && used == (if done then AddUsed(old(used), host, plan.size) else old(used))
                && starts == (if done then old(starts) + multiset{req} else old(starts))
    {
      ghost var was := trace;
      Await(me, sched, k);
      ghost var mid := trace;
      done, result := SettleAccount(me, req, plan, host, vm, rest, outcome, sched);
      ContinuesOn(was, mid, trace, me, sched);
    }

    /** The accounting transaction of an assignment that went through. */
    method SettleAccount(me: CallId, req: RequestId, plan: Plan, host: HostId, vm: VmId, rest: seq<HostId>,
                         outcome: Outcome, ghost sched: Schedule)
      returns (done: bool, result: Option<Result>)
      requires Valid() && Mine(me, req, plan, AssignPc.Won(host, vm, rest))
      modifies this`calls, this`starts, this`used, this`trace
      ensures Valid() && Continues(old(trace), trace, me, sched)
      ensures done <==> outcome != BootsThenAccountingErrors
      ensures !done ==> Mine(me, req, plan, Trying(rest)) && result == None && used == old(used) && starts == old(starts)
      ensures done ==>
                && me !in calls && result == Some(AssignedTo(host, vm))
                && requests[req].placement == Some(Placement(host, vm, plan.size))
                && used == AddUsed(old(used), host, plan.size)
                && starts == old(starts) + multiset{req}
    {
      if outcome == BootsThenAccountingErrors {
        ContinuesBy(trace, trace, AccountFails(me), me, sched);
        AccountingErrors(me, host, vm, rest);
        return false, None;
      }
      WonIsRecorded(me, host, vm, rest);
      ContinuesBy(trace, trace, Account(me), me, sched);
      AccountStart(me, host, vm, rest);
      return true, Some(AssignedTo(host, vm));
    }

    /** createVm on the first host, and the await after it. */
    method BootOn(me: CallId, req: RequestId, plan: Plan, hosts: seq<HostId>, sched: Schedule, k: nat) returns (vm: VmId)
      requires hosts != [] && Valid() && Mine(me, req, plan, Trying(hosts))
      modifies this
      ensures Valid() && old(requests.Keys) <= requests.Keys && Continues(old(trace), trace, me, sched)
      ensures Mine(me, req, plan, Booted(hosts[0], vm, hosts[1..])) && vm !in old(created)
      ensures sched == [] ==> SameTables(old(Now()), Now()) && created == old(created) + {vm}
    {
      ghost var was := trace;
      vm := CreateVm(me, hosts);
      ContinuesBy(was, was, Boot(me, vm), me, sched);
      ghost var mid := trace;
      Await(me, sched, k);
      ContinuesOn(was, mid, trace, me, sched);
    }

    /** One pass of the host loop. `done` is whether the call returned from inside it. */
    method TryHost(me: CallId, req: RequestId, plan: Plan, hosts: seq<HostId>, outcome: Outcome, sched: Schedule, k: nat)
      returns (done: bool, result: Option<Result>)
      requires hosts != [] && Valid() && Mine(me, req, plan, Trying(hosts))
      modifies this
      ensures Valid() && old(requests.Keys) <= requests.Keys && Continues(old(trace), trace, me, sched)
      ensures !done ==> Mine(me, req, plan, Trying(hosts[1..]))
      ensures done ==> me !in calls
      ensures result.Some? ==>
                && done && result.value.AssignedTo? && result.value.host == hosts[0] && req in starts
                && requests[req].placement == Some(Placement(hosts[0], result.value.vm, plan.size))
      ensures sched == [] ==> HostAlone(old(Now()), Now(), req, hosts[0], plan.size, outcome, done, result)
    {
      ghost var s, was := Now(), trace;
      Await(me, sched, k);
      if outcome == Unreachable {
        ContinuesBy(was, trace, SkipHost(me), me, sched);
        Skip(me, hosts);
        return false, None;
      }
      ghost var mid := trace;
      var vm := BootOn(me, req, plan, hosts, sched, k + 1);
      ContinuesOn(was, mid, trace, me, sched);
      ghost var booted := Now();
      mid := trace;
      done, result := SettleVm(me, req, plan, hosts[0], vm, hosts[1..], outcome, sched, k + 2);
      ContinuesOn(was, mid, trace, me, sched);
      if sched == [] {
        SettledAlone(s, booted, Now(), req, hosts[0], vm, plan.size, outcome, done, result);
      }
    }

    /** The host loop. */
    method TryHosts(me: CallId, req: RequestId, plan: Plan, candidates: seq<HostId>, outcomes: seq<Outcome>,
                    sched: Schedule) returns (done: bool, result: Option<Result>)
      requires Valid() && Mine(me, req, plan, Trying(candidates)) && |outcomes| == |candidates|
      modifies this
      ensures Valid() && old(requests.Keys) <= requests.Keys && Continues(old(trace), trace, me, sched)
      ensures !done ==> Mine(me, req, plan, Trying([])) && result == None
      ensures done ==> me !in calls
      ensures result.Some? ==>
                && done && result.value.AssignedTo? && result.value.host in candidates && req in starts
                && requests[req].placement == Some(Placement(result.value.host, result.value.vm, plan.size))
      ensures sched == [] && old(requests[req]).status == Assigning ==>
                LoopAlone(old(Now()), Now(), req, plan.size, candidates, outcomes, done, result)
    {
      ghost var s, was := Now(), trace;
      result := None;
      var i := 0;
      while i < |candidates|
        invariant 0 <= i <= |candidates|
        invariant Valid() && Mine(me, req, plan, Trying(candidates[i..])) && result == None
        invariant old(requests.Keys) <= requests.Keys && Continues(was, trace, me, sched)
        invariant sched == [] && s.requests[req].status == Assigning ==>
                    LoopAt(s, Now(), req, plan.size, candidates, outcomes, i)
      {
        assert candidates[i..][1..] == candidates[i + 1..] && candidates[i..][0] == candidates[i];
        ghost var before, mid := Now(), trace;
        done, result := TryHost(me, req, plan, candidates[i..], outcomes[i], sched, 2 + 3 * i);
        ContinuesOn(was, mid, trace, me, sched);
        if sched == [] && s.requests[req].status == Assigning {
          LoopStep(s, before, Now(), req, plan.size, candidates, outcomes, i, done, result);
        }
        if done {
          return;
        }
        i := i + 1;
      }
      if sched == [] && s.requests[req].status == Assigning {
        LoopEnds(s, Now(), req, plan.size, candidates, outcomes);
      }
      return false, None;
    }

    /** The last attempt: the guarded UPDATE, then the failure event. */
    method FailRequest(me: CallId, req: RequestId, plan: Plan, sched: Schedule, k: nat)
      requires Valid() && Mine(me, req, plan, GivingUp)
      modifies this
      ensures Valid() && me !in calls && old(requests.Keys) <= requests.Keys && req in failures
      ensures Continues(old(trace), trace, me, sched)
      ensures sched == [] ==>
                && used == old(used) && starts == old(starts) && failures == old(failures) + multiset{req}
                && requests == old(requests)[req := if old(requests[req]).status == Assigning
                                                    then old(requests[req]).(status := Failed) else old(requests[req])]
    {
      ghost var was := trace;
      MarkRowFailed(me);
      ContinuesBy(was, was, MarkFailed(me), me, sched);
      ghost var mid := trace;
      Await(me, sched, k);
      ContinuesOn(was, mid, trace, me, sched);
      ContinuesBy(was, trace, ReportFailure(me), me, sched);
      RecordFailure(me);
    }

    /** The attempt is counted, and the await after it. */
    method CountTry(me: CallId, req: RequestId, plan: Plan, sched: Schedule, k: nat) returns (attempts: nat)
      requires Valid() && Mine(me, req, plan, Trying([]))
      modifies this
      ensures Valid() && old(requests.Keys) <= requests.Keys && Continues(old(trace), trace, me, sched)
      ensures attempts == old(requests[req]).attempts + 1
      ensures Mine(me, req, plan, if attempts >= MAX_ASSIGN_ATTEMPTS then GivingUp else Requeueing(false))
      ensures sched == [] ==>
        && used == old(used) && starts == old(starts) && failures == old(failures)
        && requests == old(requests)[req := old(requests[req]).(attempts := attempts)]
    {
      ghost var was := trace;
      attempts := BumpAttempts(me);
      ContinuesBy(was, was, CountAttempt(me), me, sched);
      ghost var mid := trace;
      Await(me, sched, k);
      ContinuesOn(was, mid, trace, me, sched);
    }

    /** No host gave a VM: count the attempt, then fail the request or give it back. */
    method Conclude(me: CallId, req: RequestId, plan: Plan, sched: Schedule, k: nat)
      returns (result: Option<Result>)
      requires Valid() && Mine(me, req, plan, Trying([]))
      modifies this
      ensures Valid() && me !in calls && old(requests.Keys) <= requests.Keys && Continues(old(trace), trace, me, sched)
      ensures result.Some? ==> result == Some(GaveUp) && req in failures
      ensures result.Some? <==> old(requests[req]).attempts + 1 >= MAX_ASSIGN_ATTEMPTS
      ensures sched == [] ==> ConcludesAlone(old(Now()), Now(), req, result)
    {
      ghost var was := trace;
      var attempts := CountTry(me, req, plan, sched, k);
      if attempts >= MAX_ASSIGN_ATTEMPTS {
        ghost var mid := trace;
        FailRequest(me, req, plan, sched, k + 1);
        ContinuesOn(was, mid, trace, me, sched);
        return Some(GaveUp);
      }
      ContinuesBy(was, trace, Requeue(me), me, sched);
      GiveBack(me, false);
      return None;
    }

    /** Everything after the claim. */
    method PlaceClaimed(me: CallId, req: RequestId, plan: Plan, candidates: seq<HostId>, outcomes: seq<Outcome>,
                        sched: Schedule) returns (result: Option<Result>)
      requires Valid() && Mine(me, req, plan, PickingHosts) && |outcomes| == |candidates|
      modifies this
      ensures Valid() && me !in calls && old(requests.Keys) <= requests.Keys && Continues(old(trace), trace, me, sched)
      ensures result.Some? && result.value.AssignedTo? ==>
                && result.value.host in candidates
                && req in starts
                && requests[req].placement == Some(Placement(result.value.host, result.value.vm, plan.size))
      ensures result == Some(GaveUp) ==> req in failures
      ensures sched == [] && old(requests[req]).status == Assigning ==>
                PlacesAlone(old(Now()), Now(), req, old(requests[req]), plan, candidates, outcomes, result)
    {
      ghost var was := trace;
      PickCandidates(me, candidates);
      ContinuesBy(was, was, PickHosts(me, candidates), me, sched);
      ghost var mid := trace;
      if candidates == [] {
        Await(me, sched, 2);
        ContinuesOn(was, mid, trace, me, sched);
        ContinuesBy(was, trace, Requeue(me), me, sched);
        GiveBack(me, true);
        return None;
      }
      result := TryAll(me, req, plan, candidates, outcomes, sched);
      ContinuesOn(was, mid, trace, me, sched);
    }

    /** The loop over a non-empty list of hosts and what follows it. */
    method TryAll(me: CallId, req: RequestId, plan: Plan, candidates: seq<HostId>, outcomes: seq<Outcome>,
                  sched: Schedule) returns (result: Option<Result>)
      requires Valid() && Mine(me, req, plan, Trying(candidates)) && |outcomes| == |candidates| && candidates != []
      modifies this
      ensures Valid() && me !in calls && old(requests.Keys) <= requests.Keys && Continues(old(trace), trace, me, sched)
      ensures result.Some? && result.value.AssignedTo? ==>
                && result.value.host in candidates
                && req in starts
                && requests[req].placement == Some(Placement(result.value.host, result.value.vm, plan.size))
      ensures result == Some(GaveUp) ==> req in failures
      ensures sched == [] && old(requests[req]).status == Assigning ==>
                PlacesAlone(old(Now()), Now(), req, old(requests[req]), plan, candidates, outcomes, result)
    {
      ghost var s, was := Now(), trace;
      var done;
      done, result := TryHosts(me, req, plan, candidates, outcomes, sched);
      if done {
        if sched == [] && s.requests[req].status == Assigning {
          LoopReturned(s, Now(), req, plan, candidates, outcomes, result);
        }
        return;
      }
      ghost var looped, mid := Now(), trace;
      result := Conclude(me, req, plan, sched, 2 + 3 * |candidates|);
      ContinuesOn(was, mid, trace, me, sched);
      if sched == [] && s.requests[req].status == Assigning {
        LoopThenConclude(s, looped, Now(), req, plan, candidates, outcomes, result);
      }
    }

    /** A call starts and tries to claim its slot. */
    method BeginAndClaim(me: CallId, req: RequestId, plan: Plan, now: int, sched: Schedule) returns (granted: bool)
      requires Valid() && req in requests && me !in calls
      modifies this
      ensures Valid() && old(requests.Keys) <= requests.Keys && Continues(old(trace), trace, me, sched)
      ensures old(trace) + [BeginAssign(me, req, plan)] <= trace
      ensures granted ==> Mine(me, req, plan, PickingHosts)
      ensures !granted ==> me !in calls
      ensures sched == [] ==>
                && used == old(used) && starts == old(starts)
                && (granted <==> Granted(old(Now()), req, plan))
      ensures sched == [] && granted ==>
                && created == old(created) && failures == old(failures)
                && requests == old(requests)[req := old(requests[req]).(status := Assigning, claimedAt := Some(now))]
      ensures sched == [] && !granted ==>
                requests == if Used(old(Now()), old(requests[req]).team) >= plan.parallelEnvs
                then old(requests)[req := Refused(old(requests[req]), plan)] else old(requests)
    {
      CallsAreLive();
      ghost var was := trace;
      Begin(me, req, plan);
      ContinuesBy(was, was, BeginAssign(me, req, plan), me, sched);
      ghost var mid := trace;
      Await(me, sched, 0);
      ContinuesOn(was, mid, trace, me, sched);
      mid := trace;
      granted := Claim(me, req, plan, now, sched);
      ContinuesOn(was, mid, trace, me, sched);
    }

    /**
     * Places request `req`: claims a slot, tries the candidate hosts in order, and counts the
     * attempt when none of them gave a VM. `outcomes` says what each host and the database
     * would answer.
     */
    method TryAssign(me: CallId, req: RequestId, plan: Plan, candidates: seq<HostId>, outcomes: seq<Outcome>,
                     now: int, sched: Schedule) returns (result: Option<Result>)
      requires Valid() && req in requests && me !in calls && |outcomes| == |candidates|
      modifies this
      ensures Valid() && me !in calls && old(requests.Keys) <= requests.Keys
      ensures Continues(old(trace), trace, me, sched) && old(trace) + [BeginAssign(me, req, plan)] <= trace
      ensures result.Some? && result.value.AssignedTo? ==>
                && result.value.host in candidates
                && req in starts
                && requests[req].placement == Some(Placement(result.value.host, result.value.vm, plan.size))
      ensures result == Some(GaveUp) ==> req in failures
      ensures sched == [] ==> AssignsAlone(old(Now()), Now(), req, plan, candidates, outcomes, now, result)
    {
      ghost var s, was := Now(), trace;
      var granted := BeginAndClaim(me, req, plan, now, sched);
      if !granted {
        return None;
      }
      ghost var mid := trace;
      Await(me, sched, 1);
      ContinuesOn(was, mid, trace, me, sched);
      ghost var claimed := Now();
      mid := trace;
      result := PlaceClaimed(me, req, plan, candidates, outcomes, sched);
      ContinuesOn(was, mid, trace, me, sched);
      if sched == [] {
        PlacedFromClaim(s, claimed, Now(), req, claimed.requests[req], plan, candidates, outcomes, result);
      }
    }

    // ----- requestEnvironment

    method InsertRequest(req: RequestId, team: TeamId)
      requires Valid() && req !in requests
      modifies this`requests, this`trace
      ensures Valid() && trace == old(trace) + [Insert(req, team)]
      ensures requests == old(requests)[req := Request(team, Queued, None, None, 0, false)]
    {
      ghost var before := Now();
      requests := requests[req := Request(team, Queued, None, None, 0, false)];
      Note(before, Insert(req, team));
    }

    /** An await outside any tryAssign or release. */
    method AwaitOthers(others: seq<Event>)
      requires Valid()
      modifies this
      ensures Valid() && old(requests.Keys) <= requests.Keys && old(trace) <= trace
      ensures forall i :: |old(trace)| <= i < |trace| ==> trace[i] in others
      ensures others == [] ==> unchanged(this)
    {
      for i := 0 to |others|
        invariant Valid() && old(requests.Keys) <= requests.Keys && old(trace) <= trace
        invariant forall i :: |old(trace)| <= i < |trace| ==> trace[i] in others
        invariant i == 0 ==> unchanged(this)
      {
        if Enabled(Now(), others[i]) {
          RowsRemain(Now(), others[i]);
          Perform(others[i]);
        }
      }
    }

    /**
     * Inserts a queued row, then tries to assign it. `placing` and `before` are the state and the
     * run at which that try starts; the row exists from the insert on, whatever becomes of the try.
     */
    method RequestEnvironment(req: RequestId, team: TeamId, planning: seq<Event>, job: Job, now: int)
      returns (result: Option<Result>, ghost placing: State, ghost me: CallId, ghost before: seq<Event>)
      requires Valid() && req !in requests && |job.outcomes| == |job.candidates|
      modifies this
      ensures Valid() && req in requests && old(requests.Keys) <= requests.Keys
      ensures old(trace) + [Insert(req, team)] <= before && Tries(before, trace, me, req, job)
      ensures forall i :: |old(trace)| < i < |before| ==> before[i] in planning
      ensures result.Some? && result.value.AssignedTo? ==>
                req in starts && requests[req].placement ==
                  Some(Placement(result.value.host, result.value.vm, job.plan.size))
      ensures planning == [] ==>
                placing == old(Now()).(requests := old(requests)[req := Request(team, Queued, None, None, 0, false)])
      ensures job.sched == [] ==> TriedAlone(placing, Now(), req, job, now, result)
    {
      InsertRequest(req, team);
      AwaitOthers(planning);
      placing, before := Now(), trace;
      var call := FreshCall();
      me := call;
      result := TryAssign(call, req, job.plan, job.candidates, job.outcomes, now, job.sched);
    }

    // ----- releaseEnvironment

    method BeginToRelease(me: CallId, req: RequestId, team: TeamId)
      requires Valid() && me !in calls
      modifies this`calls, this`trace
      ensures Valid() && trace == old(trace) + [BeginRelease(me, req, team)]
      ensures calls == old(calls)[me := Release(req, team, Dequeueing)]
    {
      ghost var before := Now();
      calls := calls[me := Release(req, team, Dequeueing)];
      Note(before, BeginRelease(me, req, team));
    }

    predicate AtRelease(me: CallId, req: RequestId, team: TeamId, rpc: ReleasePc)
      reads this
    {
      me in calls && me !in crashed && calls[me] == Release(req, team, rpc)
    }

    /** The guarded UPDATE for a row that has no VM. */
    method DequeueRow(me: CallId, req: RequestId, team: TeamId) returns (released: bool)
      requires Valid() && AtRelease(me, req, team, Dequeueing)
      modifies this`calls, this`requests, this`trace
      ensures Valid() && trace == old(trace) + [Dequeue(me)]
      ensures released <==> req in old(requests) && old(requests[req]).team == team
                            && (old(requests[req]).status == Queued || old(requests[req]).status == Assigning)
      ensures requests == (if released then old(requests)[req := old(requests[req]).(status := Released)] else old(requests))
      ensures calls == (if released then old(calls) - {me} else old(calls)[me := Release(req, team, Looking)])
    {
      ghost var before := Now();
      released := req in requests && requests[req].team == team
                  && (requests[req].status == Queued || requests[req].status == Assigning);
      if released {
        requests := requests[req := requests[req].(status := Released)];
        calls := calls - {me};
      } else {
        calls := calls[me := Release(req, team, Looking)];
      }
      Note(before, Dequeue(me));
    }

    /** The SELECT of an assigned row. */
    method LookUp(me: CallId, req: RequestId, team: TeamId) returns (target: Option<Placement>)
      requires Valid() && AtRelease(me, req, team, Looking)
      modifies this`calls, this`trace
      ensures Valid() && trace == old(trace) + [Look(me)]
      ensures target == if req in requests && requests[req].team == team && requests[req].status == Assigned
                        then requests[req].placement else None
      ensures calls == if target.Some? then old(calls)[me := Release(req, team, Deleting(target.value))] else old(calls) - {me}
    {
      ghost var before := Now();
      target := if req in requests && requests[req].team == team && requests[req].status == Assigned
                then requests[req].placement else None;
      if target.Some? {
        calls := calls[me := Release(req, team, Deleting(target.value))];
      } else {
        calls := calls - {me};
      }
      Note(before, Look(me));
    }

    /** deleteVm, when the host still has an agent to ask. */
    method TearDown(me: CallId, req: RequestId, team: TeamId, target: Placement, hasClient: bool)
      requires Valid() && AtRelease(me, req, team, Deleting(target))
      modifies this`calls, this`deleted, this`lost, this`trace
      ensures Valid() && trace == old(trace) + [if hasClient then DeleteVm(me) else NoClient(me)]
      ensures calls == old(calls)[me := Release(req, team, Committing(target))]
      ensures deleted == (if hasClient then old(deleted) + {target.vm} else old(deleted))
      ensures lost == (if hasClient then old(lost) else old(lost) + {target.vm})
    {
      ghost var before := Now();
      calls := calls[me := Release(req, team, Committing(target))];
      if hasClient {
        deleted := deleted + {target.vm};
      } else {
        lost := lost + {target.vm};
      }
      Note(before, if hasClient then DeleteVm(me) else NoClient(me));
    }

    /** The release transaction, with no guard on the status. */
    method CommitTheRelease(me: CallId, req: RequestId, team: TeamId, target: Placement)
      requires Valid() && AtRelease(me, req, team, Committing(target)) && req in requests
      modifies this`calls, this`requests, this`used, this`trace
      ensures Valid() && trace == old(trace) + [CommitRelease(me)]
      ensures requests == old(requests)[req := old(requests[req]).(status := Released)]
      ensures used == SubUsed(old(used), target.host, target.size) && calls == old(calls) - {me}
    {
      ghost var before := Now();
      requests := requests[req := requests[req].(status := Released)];
      if target.host in used {
        used := used[target.host := used[target.host].ClampedMinus(target.size)];
      }
      calls := calls - {me};
      Note(before, CommitRelease(me));
    }

    lemma AssignedRowsHavePlacements()
      requires Valid()
      ensures forall r :: r in requests ==>
                (requests[r].placement.Some? ==> requests[r].status == Assigned || requests[r].status == Released)
                && (requests[r].status == Assigned ==> requests[r].placement.Some?)
    {
      ValidInv();
      forall r | r in requests
        ensures (requests[r].placement.Some? ==> requests[r].status == Assigned || requests[r].status == Released)
                && (requests[r].status == Assigned ==> requests[r].placement.Some?)
      {
        assert RowShape(Now().requests[r]);
      }
    }

    /** The path for a row that has a VM. */
    method ReleaseAssigned(me: CallId, req: RequestId, team: TeamId, hasClient: bool, sched: Schedule)
      returns (ok: bool)
      requires Valid() && AtRelease(me, req, team, Looking)
      modifies this
      ensures Valid() && me !in calls && old(requests.Keys) <= requests.Keys && Continues(old(trace), trace, me, sched)
      ensures ok ==> req in requests && requests[req].status == Released
      ensures sched == [] ==>
                && starts == old(starts)
                && (ok <==> req in old(requests) && old(requests[req]).team == team
                            && old(requests[req]).status == Assigned && old(requests[req]).placement.Some?)
                && (!ok ==> requests == old(requests) && used == old(used) && deleted == old(deleted))
                && (ok ==>
                      var p := old(requests[req]).placement.value;
                      && requests == old(requests)[req := old(requests[req]).(status := Released)]
                      && used == SubUsed(old(used), p.host, p.size)
                      && deleted == if hasClient then old(deleted) + {p.vm} else old(deleted))
    {
      ghost var was := trace;
      Await(me, sched, 1);
      ContinuesBy(was, trace, Look(me), me, sched);
      var target := LookUp(me, req, team);
      if target == None {
        return false;
      }
      ghost var mid := trace;
      TearDownAndCommit(me, req, team, target.value, hasClient, sched);
      ContinuesOn(was, mid, trace, me, sched);
      return true;
    }

    method TearDownAndCommit(me: CallId, req: RequestId, team: TeamId, target: Placement, hasClient: bool, sched: Schedule)
      requires Valid() && AtRelease(me, req, team, Deleting(target)) && req in requests
      modifies this
      ensures Valid() && me !in calls && old(requests.Keys) <= requests.Keys && Continues(old(trace), trace, me, sched)
      ensures req in requests && requests[req].status == Released
      ensures sched == [] ==>
                && starts == old(starts) && requests == old(requests)[req := old(requests[req]).(status := Released)]
                && used == SubUsed(old(used), target.host, target.size)
                && deleted == if hasClient then old(deleted) + {target.vm} else old(deleted)
    {
      ghost var was := trace;
      Await(me, sched, 2);
      ContinuesBy(was, trace, if hasClient then DeleteVm(me) else NoClient(me), me, sched);
      TearDown(me, req, team, target, hasClient);
      ghost var mid := trace;
      CommitAfterAwait(me, req, team, target, sched);
      ContinuesOn(was, mid, trace, me, sched);
    }

    method CommitAfterAwait(me: CallId, req: RequestId, team: TeamId, target: Placement, sched: Schedule)
      requires Valid() && AtRelease(me, req, team, Committing(target)) && req in requests
      modifies this
      ensures Valid() && me !in calls && old(requests.Keys) <= requests.Keys && Continues(old(trace), trace, me, sched)
      ensures req in requests && requests[req].status == Released
      ensures sched == [] ==>
                && starts == old(starts) && deleted == old(deleted)
                && requests == old(requests)[req := old(requests[req]).(status := Released)]
                && used == SubUsed(old(used), target.host, target.size)
    {
      ghost var was := trace;
      Await(me, sched, 3);
      ContinuesBy(was, trace, CommitRelease(me), me, sched);
      CommitTheRelease(me, req, team, target);
    }

    /** What releaseEnvironment does; `ok` is whether it found something to release. */
    method ReleaseEnvironment(me: CallId, req: RequestId, team: TeamId, hasClient: bool, sched: Schedule)
      returns (ok: bool)
      requires Valid() && me !in calls
      modifies this
      ensures Valid() && me !in calls && old(requests.Keys) <= requests.Keys
      ensures Continues(old(trace), trace, me, sched) && old(trace) + [BeginRelease(me, req, team)] <= trace
      ensures ok ==> req in requests && requests[req].status == Released
      ensures sched == [] ==> ReleasesAlone(old(Now()), Now(), req, team, hasClient, ok)
    {
      CallsAreLive();
      AssignedRowsHavePlacements();
      ghost var was := trace;
      BeginToRelease(me, req, team);
      ContinuesBy(was, was, BeginRelease(me, req, team), me, sched);
      ghost var mid := trace;
      Await(me, sched, 0);
      ContinuesOn(was, mid, trace, me, sched);
      mid := trace;
      ok := ReleaseFrom(me, req, team, hasClient, sched);
      ContinuesOn(was, mid, trace, me, sched);
    }

    method ReleaseFrom(me: CallId, req: RequestId, team: TeamId, hasClient: bool, sched: Schedule)
      returns (ok: bool)
      requires Valid() && AtRelease(me, req, team, Dequeueing)
      modifies this
      ensures Valid() && me !in calls && old(requests.Keys) <= requests.Keys && Continues(old(trace), trace, me, sched)
      ensures ok ==> req in requests && requests[req].status == Released
      ensures sched == [] ==> ReleasesAlone(old(Now()), Now(), req, team, hasClient, ok)
    {
      AssignedRowsHavePlacements();
      ghost var was := trace;
      ok := DequeueRow(me, req, team);
      ContinuesBy(was, was, Dequeue(me), me, sched);
      if !ok {
        ghost var mid := trace;
        ok := ReleaseAssigned(me, req, team, hasClient, sched);
        ContinuesOn(was, mid, trace, me, sched);
      }
    }

    // ----- the stale-claim sweep and the queue worker

    method ReclaimStaleAssignments(cutoff: int)
      requires Valid()
      modifies this`requests, this`trace
      ensures Valid() && trace == old(trace) + [Reclaim(cutoff)]
      ensures requests == ReclaimRows(old(requests), cutoff)
    {
      ghost var before := Now();
      requests := map r | r in requests :: ReclaimRow(requests[r], cutoff);
      Note(before, Reclaim(cutoff));
    }

    /** The calls of one tick, one after the other. */
    method TryBatch(batch: seq<RequestId>, jobs: RequestId -> Job, now: int)
      returns (results: seq<Option<Result>>, ghost states: seq<State>, ghost runs: seq<seq<Event>>, ghost callers: seq<CallId>)
      requires Valid() && JobsFit(jobs)
      requires forall i :: 0 <= i < |batch| ==> batch[i] in requests
      modifies this
      ensures Valid() && old(requests.Keys) <= requests.Keys
      ensures |results| == |callers| == |batch| && |states| == |runs| == |batch| + 1
      ensures states[0] == old(Now()) && states[|batch|] == Now()
      ensures runs[0] == old(trace) && runs[|batch|] == trace
      ensures forall i :: 0 <= i < |batch| ==> Tries(runs[i], runs[i + 1], callers[i], batch[i], jobs(batch[i]))
      ensures forall i :: 0 <= i < |batch| && jobs(batch[i]).sched == [] ==>
                TriedAlone(states[i], states[i + 1], batch[i], jobs(batch[i]), now, results[i])
    {
      results, states, runs, callers := [], [Now()], [trace], [];
      for i := 0 to |batch|
        invariant Valid() && old(requests.Keys) <= requests.Keys
        invariant |results| == |callers| == i && |states| == |runs| == i + 1
        invariant states[i] == Now() && runs[i] == trace
        invariant states[0] == old(Now()) && runs[0] == old(trace)
        invariant forall k :: 0 <= k < i ==> Tries(runs[k], runs[k + 1], callers[k], batch[k], jobs(batch[k]))
        invariant forall k :: 0 <= k < i && jobs(batch[k]).sched == [] ==>
                    TriedAlone(states[k], states[k + 1], batch[k], jobs(batch[k]), now, results[k])
      {
        var me := FreshCall();
        var job := jobs(batch[i]);
        var result := TryAssign(me, batch[i], job.plan, job.candidates, job.outcomes, now, job.sched);
        results, states, runs, callers := results + [result], states + [Now()], runs + [trace], callers + [me];
      }
    }

    /**
     * One tick of the queue worker: sweep, select, then try each of the oldest queued rows in
     * turn, each call with its own plan, hosts and schedule; `others` run between the sweep and
     * the query. `states` and `runs` are what the tables and the run were before each of the
     * calls `callers`, and after the last; when nothing interferes, the tick is those calls one
     * after the other.
     */
    method ProcessQueue(cutoff: int, others: seq<Event>, requestedAt: RequestId -> int, jobs: RequestId -> Job, now: int)
      returns (batch: seq<RequestId>, results: seq<Option<Result>>, ghost states: seq<State>, ghost runs: seq<seq<Event>>,
               ghost callers: seq<CallId>)
      requires Valid() && JobsFit(jobs)
      modifies this
      ensures Valid() && old(requests.Keys) <= requests.Keys
      ensures |results| == |callers| == |batch| && |states| == |runs| == |batch| + 1
      ensures SweptBy(old(trace), runs[0], cutoff, others)
      ensures others == [] ==> states[0].requests == ReclaimRows(old(requests), cutoff)
      ensures Run(Init(hosts), runs[0]) == Some(states[0])
      ensures IsOldestQueued(states[0].requests, requestedAt, batch)
      ensures states[|batch|] == Now() && runs[|batch|] == trace
      ensures forall i :: 0 <= i < |batch| ==> Tries(runs[i], runs[i + 1], callers[i], batch[i], jobs(batch[i]))
      ensures forall i :: 0 <= i < |batch| && jobs(batch[i]).sched == [] ==>
                TriedAlone(states[i], states[i + 1], batch[i], jobs(batch[i]), now, results[i])
    {
      ReclaimStaleAssignments(cutoff);
      AwaitOthers(others);
      batch := SelectQueued(requests, requestedAt);
      results, states, runs, callers := TryBatch(batch, jobs, now);
    }

    method FreshCall() returns (c: CallId)
      ensures c !in calls
    {
      c := 0;
      var rest := calls.Keys;
      while rest != {}
        invariant rest <= calls.Keys
        invariant forall y :: y in calls && y !in rest ==> y < c
      {
        var x :| x in rest;
        c := if c <= x then x + 1 else c;
        rest := rest - {x};
      }
    }
  }
}
