/** Concrete runs of the scheduler: the states in which a property is about to fail are reached. */
module EnvironmentRuns {
  import opened Wrappers
  import opened EnvironmentProtocol
  import opened EnvironmentSafety
  import opened EnvironmentTheorems
  import opened HostLedger
  import opened HostConservation

  ghost predicate ReachableFrom(hosts: set<HostId>, s: State) {
    exists es: seq<Event> :: Run(Init(hosts), es) == Some(s)
  }

  lemma Extend(s: State, e: Event, t: State, hosts: set<HostId>)
    requires ReachableFrom(hosts, s) && Enabled(s, e) && t == Apply(s, e)
    ensures ReachableFrom(hosts, t) && Reachable(t)
  {
    var es :| Run(Init(hosts), es) == Some(s);
    RunAppend(Init(hosts), es, [e]);
    assert [e][1..] == [];
    assert Run(t, []) == Some(t);
    assert Run(Init(hosts), es + [e]) == Some(t);
  }

  /** One host, one request of one team, and the given calls. */
  function Single(host: HostId, row: Request, calls: map<CallId, Call>): State {
    Init({host}).(requests := map[0 := row], calls := calls)
  }

  function Waiting(attempts: nat, claimedAt: Option<int>): Request {
    Request(0, Queued, claimedAt, None, attempts, false)
  }

  function Claiming(attempts: nat, now: int): Request {
    Request(0, Assigning, Some(now), None, attempts, false)
  }

  function Trial(size: Size, pc: AssignPc): map<CallId, Call> {
    map[0 := Assign(0, 0, Plan(1, size), pc)]
  }

  lemma Requested(host: HostId)
    ensures ReachableFrom({host}, Single(host, Waiting(0, None), map[]))
  {
    var s := Init({host});
    assert Run(s, []) == Some(s);
    Extend(s, Insert(0, 0), Single(host, Waiting(0, None), map[]), {host});
  }

  /** A call claims the row and picks its one candidate. */
  lemma Claims(host: HostId, attempts: nat, claimedAt: Option<int>, size: Size, now: int)
    requires ReachableFrom({host}, Single(host, Waiting(attempts, claimedAt), map[]))
    ensures ReachableFrom({host}, Single(host, Claiming(attempts, now), Trial(size, Trying([host]))))
  {
    var row := Waiting(attempts, claimedAt);
    var begun := Single(host, row, Trial(size, Reserving));
    Extend(Single(host, row, map[]), BeginAssign(0, 0, Plan(1, size)), begun, {host});
    assert ActiveRows(begun.requests, 0) == {};
    var claimed := Single(host, Claiming(attempts, now), Trial(size, PickingHosts));
    assert ApplyReserve(begun, 0, now).requests == claimed.requests;
    assert ApplyReserve(begun, 0, now).calls == claimed.calls;
    Extend(begun, Reserve(0, now), claimed, {host});
    Picks(host, attempts, size, now);
  }

  lemma Picks(host: HostId, attempts: nat, size: Size, now: int)
    requires ReachableFrom({host}, Single(host, Claiming(attempts, now), Trial(size, PickingHosts)))
    ensures ReachableFrom({host}, Single(host, Claiming(attempts, now), Trial(size, Trying([host]))))
  {
    var claimed := Single(host, Claiming(attempts, now), Trial(size, PickingHosts));
    Extend(claimed, PickHosts(0, [host]), Single(host, Claiming(attempts, now), Trial(size, Trying([host]))), {host});
  }

  function Booting(host: HostId, size: Size, now: int, vm: VmId): State {
    Single(host, Claiming(0, now), Trial(size, Booted(host, vm, []))).(created := {vm})
  }

  lemma Boots(host: HostId, size: Size, now: int, vm: VmId)
    ensures ReachableFrom({host}, Booting(host, size, now, vm)) && Reachable(Booting(host, size, now, vm))
  {
    Requested(host);
    Claims(host, 0, None, size, now);
    var trying := Single(host, Claiming(0, now), Trial(size, Trying([host])));
    assert [host][1..] == [];
    Extend(trying, Boot(0, vm), Booting(host, size, now, vm), {host});
  }

  /** The state of AssignErrorOrphansVm is reached by the very first request. */
  lemma AssignErrorCanHappen(host: HostId, now: int) returns (s: State)
    ensures Reachable(s) && Enabled(s, CommitAssignFails(0))
  {
    s := Booting(host, NOTHING, now, 7);
    Boots(host, NOTHING, now, 7);
  }

  /** A process that dies right after createVm leaves a running VM that is nobody's. */
  lemma CrashOrphansVm(host: HostId, size: Size, now: int, vm: VmId)
    ensures var t := Apply(Booting(host, size, now, vm), Crash(0));
            Reachable(t) && vm in t.created && Stranded(t, vm) && Orphan(t, vm)
  {
    Boots(host, size, now, vm);
    var s := Booting(host, size, now, vm);
    var t := Apply(s, Crash(0));
    Extend(s, Crash(0), t, {host});
    assert StrandedBy(t, 0, vm);
    VmLedger(t, vm);
  }

  function Taken(host: HostId, size: Size, now: int, vm: VmId, attempts: nat): Request {
    Request(0, Assigned, Some(now), Some(Placement(host, vm, size)), attempts, false)
  }

  function Won1(host: HostId, size: Size, now: int, vm: VmId): State {
    Single(host, Taken(host, size, now, vm, 0), Trial(size, AssignPc.Won(host, vm, []))).(created := {vm})
  }

  lemma Wins(host: HostId, size: Size, now: int, vm: VmId)
    ensures ReachableFrom({host}, Won1(host, size, now, vm))
  {
    Boots(host, size, now, vm);
    Extend(Booting(host, size, now, vm), CommitAssign(0), Won1(host, size, now, vm), {host});
  }

  // ----- an accounting transaction that rolls back

  /** What a whole, undisturbed try leaves when its accounting transaction rolls back. */
  function Uncharged(host: HostId, size: Size, now: int, vm: VmId): State {
    Single(host, Taken(host, size, now, vm, 1), map[]).(created := {vm})
  }

  lemma RollbackReached(host: HostId, size: Size, now: int, vm: VmId)
    ensures ReachableFrom({host}, Uncharged(host, size, now, vm)) && Reachable(Uncharged(host, size, now, vm))
  {
    Wins(host, size, now, vm);
    var row := Taken(host, size, now, vm, 0);
    var looped := Single(host, row, Trial(size, Trying([]))).(created := {vm});
    Extend(Won1(host, size, now, vm), AccountFails(0), looped, {host});
    CountedOnce(host, size, now, vm, looped);
  }

  lemma CountedOnce(host: HostId, size: Size, now: int, vm: VmId, looped: State)
    requires looped == Single(host, Taken(host, size, now, vm, 0), Trial(size, Trying([]))).(created := {vm})
    requires ReachableFrom({host}, looped)
    ensures ReachableFrom({host}, Uncharged(host, size, now, vm)) && Reachable(Uncharged(host, size, now, vm))
  {
    var counted := Single(host, Taken(host, size, now, vm, 1), Trial(size, Requeueing(false))).(created := {vm});
    Extend(looped, CountAttempt(0), counted, {host});
    assert counted.calls - {0} == map[];
    Extend(counted, Requeue(0), Uncharged(host, size, now, vm), {host});
  }

  /**
   * One request, one host, one call run to its end without a crash: the row is assigned and its
   * host is not charged.
   */
  lemma RollbackDrifts(host: HostId, size: Size, now: int, vm: VmId)
    requires size != NOTHING
    ensures var s := Uncharged(host, size, now, vm);
            Reachable(s) && s.calls == map[] && s.crashed == {} && s.requests[0].status == Assigned && !Conserved(s)
  {
    RollbackReached(host, size, now, vm);
    var s := Uncharged(host, size, now, vm);
    assert RowsOn(s, host) == {0};
    SumTake(s.requests, {0}, 0);
  }

  // ----- an accounting overtaken by a release

  /** The row was released, its host given nothing back, and the accounting is still to come. */
  function Overtaken(host: HostId, size: Size, now: int, vm: VmId): State {
    Single(host, Taken(host, size, now, vm, 0).(status := Released), Trial(size, AssignPc.Won(host, vm, [])))
    .(created := {vm}, deleted := {vm})
  }

  lemma ReleaseOvertakes(host: HostId, size: Size, now: int, vm: VmId)
    ensures ReachableFrom({host}, Overtaken(host, size, now, vm)) && Reachable(Overtaken(host, size, now, vm))
  {
    var s := Won1(host, size, now, vm);
    Wins(host, size, now, vm);
    ReleaseLooks(s, host);
    ReleaseFinds(s, host, Placement(host, vm, size));
    ReleaseTearsDown(s, host, Placement(host, vm, size));
    ReleaseCommits(host, size, now, vm);
  }

  lemma ReleaseCommits(host: HostId, size: Size, now: int, vm: VmId)
    requires var s := Won1(host, size, now, vm);
             ReachableFrom({host}, s.(calls := s.calls[1 := Release(0, 0, Committing(Placement(host, vm, size)))], deleted := {vm}))
    ensures ReachableFrom({host}, Overtaken(host, size, now, vm)) && Reachable(Overtaken(host, size, now, vm))
  {
    var s := Won1(host, size, now, vm);
    var committing := s.(calls := s.calls[1 := Release(0, 0, Committing(Placement(host, vm, size)))], deleted := {vm});
    assert committing.calls - {1} == s.calls;
    assert SubUsed(committing.used, host, size) == committing.used;
    Extend(committing, CommitRelease(1), Overtaken(host, size, now, vm), {host});
  }

  lemma ReleaseLooks(s: State, host: HostId)
    requires ReachableFrom({host}, s) && 1 !in s.calls && 1 !in s.crashed
    requires 0 in s.requests && s.requests[0].status == Assigned
    ensures ReachableFrom({host}, s.(calls := s.calls[1 := Release(0, 0, Looking)]))
  {
    var begun := s.(calls := s.calls[1 := Release(0, 0, Dequeueing)]);
    Extend(s, BeginRelease(1, 0, 0), begun, {host});
    var looking := s.(calls := s.calls[1 := Release(0, 0, Looking)]);
    assert begun.calls[1 := Release(0, 0, Looking)] == looking.calls;
    Extend(begun, Dequeue(1), looking, {host});
  }

  lemma ReleaseFinds(s: State, host: HostId, target: Placement)
    requires 1 !in s.crashed && ReachableFrom({host}, s.(calls := s.calls[1 := Release(0, 0, Looking)]))
    requires 0 in s.requests && s.requests[0].status == Assigned && s.requests[0].team == 0
    requires s.requests[0].placement == Some(target)
    ensures ReachableFrom({host}, s.(calls := s.calls[1 := Release(0, 0, Deleting(target))]))
  {
    var looking := s.(calls := s.calls[1 := Release(0, 0, Looking)]);
    var deleting := s.(calls := s.calls[1 := Release(0, 0, Deleting(target))]);
    assert looking.calls[1 := Release(0, 0, Deleting(target))] == deleting.calls;
    Extend(looking, Look(1), deleting, {host});
  }

  lemma ReleaseTearsDown(s: State, host: HostId, target: Placement)
    requires 1 !in s.crashed && s.deleted == {} && ReachableFrom({host}, s.(calls := s.calls[1 := Release(0, 0, Deleting(target))]))
    ensures ReachableFrom({host}, s.(calls := s.calls[1 := Release(0, 0, Committing(target))], deleted := {target.vm}))
  {
    var deleting := s.(calls := s.calls[1 := Release(0, 0, Deleting(target))]);
    var committing := s.(calls := s.calls[1 := Release(0, 0, Committing(target))], deleted := {target.vm});
    assert deleting.calls[1 := Release(0, 0, Committing(target))] == committing.calls;
    assert deleting.deleted + {target.vm} == {target.vm};
    Extend(deleting, DeleteVm(1), committing, {host});
  }

  /** A release that dies between its deleteVm and its transaction leaves an assigned row without a VM and no live call. */
  lemma HalfReleaseCanHappen(host: HostId, size: Size, now: int, vm: VmId) returns (t: State)
    ensures Reachable(t) && RecordsLive(t, 0, vm) && vm in t.deleted && !TornLive(t, 0)
  {
    var s := Won1(host, size, now, vm);
    Wins(host, size, now, vm);
    ReleaseLooks(s, host);
    ReleaseFinds(s, host, Placement(host, vm, size));
    ReleaseTearsDown(s, host, Placement(host, vm, size));
    t := ReleaseDies(s, host, Placement(host, vm, size));
  }

  lemma ReleaseDies(s: State, host: HostId, target: Placement) returns (t: State)
    requires ReachableFrom({host}, s.(calls := s.calls[1 := Release(0, 0, Committing(target))], deleted := {target.vm}))
    requires 1 !in s.crashed && RecordsLive(s, 0, target.vm) && (forall c :: c in s.calls ==> s.calls[c].Assign?)
    ensures Reachable(t) && RecordsLive(t, 0, target.vm) && target.vm in t.deleted && !TornLive(t, 0)
  {
    var u := s.(calls := s.calls[1 := Release(0, 0, Committing(target))], deleted := {target.vm});
    t := u.(crashed := u.crashed + {1});
    Extend(u, Crash(1), t, {host});
  }

  /** Balanced books, and a step that unbalances them: an accounting that a release overtook. */
  lemma BooksCanDrift(host: HostId, size: Size, now: int, vm: VmId)
    requires size != NOTHING
    ensures var s := Overtaken(host, size, now, vm);
            && Reachable(s) && Balanced(s) && Enabled(s, Account(0)) && !KeepsBooks(s, Account(0))
            && !Balanced(Apply(s, Account(0)))
  {
    ReleaseOvertakes(host, size, now, vm);
    var s := Overtaken(host, size, now, vm);
    forall h | h in s.used ensures s.used[h] == Owed(s, h) {
      assert AccountedOn(s, h) == {};
    }
    BalancedIff(s, Account(0));
  }

  // ----- the release of a row that was never accounted

  /** Two requests of two teams; the first is accounted on the host, and the calls are the second's. */
  function Both(host: HostId, size: Size, now: int, vm: VmId, row: Request, calls: map<CallId, Call>): State {
    Init({host}).(requests := map[0 := Taken(host, size, now, vm, 0), 1 := row], calls := calls,
                  used := map[host := size], created := {vm}, starts := multiset{0})
  }

  function Second(status: Status, claimedAt: Option<int>, placement: Option<Placement>): Request {
    Request(1, status, claimedAt, placement, 0, false)
  }

  function SecondTrial(size: Size, pc: AssignPc): map<CallId, Call> {
    map[1 := Assign(1, 1, Plan(1, size), pc)]
  }

  function FirstAccounted(host: HostId, size: Size, now: int, vm: VmId): State {
    Single(host, Taken(host, size, now, vm, 0), map[]).(used := map[host := size], created := {vm}, starts := multiset{0})
  }

  lemma FirstIsAccounted(host: HostId, size: Size, now: int, vm: VmId)
    ensures ReachableFrom({host}, FirstAccounted(host, size, now, vm))
  {
    Wins(host, size, now, vm);
    assert Won1(host, size, now, vm).calls - {0} == map[];
    Extend(Won1(host, size, now, vm), Account(0), FirstAccounted(host, size, now, vm), {host});
  }

  lemma SecondAsks(host: HostId, size: Size, now: int, vm: VmId)
    ensures ReachableFrom({host}, Both(host, size, now, vm, Second(Queued, None, None), map[]))
  {
    var accounted := FirstAccounted(host, size, now, vm);
    FirstIsAccounted(host, size, now, vm);
    Extend(accounted, Insert(1, 1), Both(host, size, now, vm, Second(Queued, None, None), map[]), {host});
  }

  lemma SecondStarts(host: HostId, size: Size, now: int, vm: VmId)
    ensures ReachableFrom({host}, Both(host, size, now, vm, Second(Queued, None, None), SecondTrial(size, Reserving)))
  {
    SecondAsks(host, size, now, vm);
    var row := Second(Queued, None, None);
    Extend(Both(host, size, now, vm, row, map[]), BeginAssign(1, 1, Plan(1, size)),
           Both(host, size, now, vm, row, SecondTrial(size, Reserving)), {host});
  }

  lemma SecondClaims(host: HostId, size: Size, now: int, vm: VmId)
    ensures ReachableFrom({host}, Both(host, size, now, vm, Second(Assigning, Some(now), None), SecondTrial(size, PickingHosts)))
  {
    SecondStarts(host, size, now, vm);
    var begun := Both(host, size, now, vm, Second(Queued, None, None), SecondTrial(size, Reserving));
    assert ActiveRows(begun.requests, 1) == {};
    Extend(begun, Reserve(1, now),
           Both(host, size, now, vm, Second(Assigning, Some(now), None), SecondTrial(size, PickingHosts)), {host});
  }

  lemma SecondPicks(host: HostId, size: Size, now: int, vm: VmId)
    ensures ReachableFrom({host},
              Both(host, size, now, vm, Second(Assigning, Some(now), None), SecondTrial(size, Trying([host]))))
  {
    SecondClaims(host, size, now, vm);
    var row := Second(Assigning, Some(now), None);
    Extend(Both(host, size, now, vm, row, SecondTrial(size, PickingHosts)), PickHosts(1, [host]),
           Both(host, size, now, vm, row, SecondTrial(size, Trying([host]))), {host});
  }

  lemma SecondBoots(host: HostId, size: Size, now: int, vm: VmId, vm2: VmId)
    requires vm2 != vm
    ensures ReachableFrom({host},
              Both(host, size, now, vm, Second(Assigning, Some(now), None), SecondTrial(size, Booted(host, vm2, [])))
              .(created := {vm, vm2}))
  {
    SecondPicks(host, size, now, vm);
    var row := Second(Assigning, Some(now), None);
    assert [host][1..] == [];
    Extend(Both(host, size, now, vm, row, SecondTrial(size, Trying([host]))), Boot(1, vm2),
           Both(host, size, now, vm, row, SecondTrial(size, Booted(host, vm2, []))).(created := {vm, vm2}), {host});
  }

  /** The second row is assigned, and its call has died before its accounting. */
  function Unaccounted(host: HostId, size: Size, now: int, vm: VmId, vm2: VmId, calls: map<CallId, Call>): State {
    Both(host, size, now, vm, Second(Assigned, Some(now), Some(Placement(host, vm2, size))),
         SecondTrial(size, AssignPc.Won(host, vm2, [])) + calls)
    .(created := {vm, vm2}, crashed := {1})
  }

  lemma SecondDies(host: HostId, size: Size, now: int, vm: VmId, vm2: VmId)
    requires vm2 != vm
    ensures ReachableFrom({host}, Unaccounted(host, size, now, vm, vm2, map[]))
  {
    SecondBoots(host, size, now, vm, vm2);
    var booted := Both(host, size, now, vm, Second(Assigning, Some(now), None), SecondTrial(size, Booted(host, vm2, [])))
                  .(created := {vm, vm2});
    var won := Unaccounted(host, size, now, vm, vm2, map[]).(crashed := {});
    Extend(booted, CommitAssign(1), won, {host});
    Extend(won, Crash(1), Unaccounted(host, size, now, vm, vm2, map[]), {host});
  }

  function SecondRelease(rpc: ReleasePc): map<CallId, Call> {
    map[2 := Release(1, 1, rpc)]
  }

  lemma SecondBegins(host: HostId, size: Size, now: int, vm: VmId, vm2: VmId)
    requires vm2 != vm
    ensures ReachableFrom({host}, Unaccounted(host, size, now, vm, vm2, SecondRelease(Dequeueing)))
  {
    SecondDies(host, size, now, vm, vm2);
    Extend(Unaccounted(host, size, now, vm, vm2, map[]), BeginRelease(2, 1, 1),
           Unaccounted(host, size, now, vm, vm2, SecondRelease(Dequeueing)), {host});
  }

  lemma SecondLooks(host: HostId, size: Size, now: int, vm: VmId, vm2: VmId)
    requires vm2 != vm
    ensures ReachableFrom({host}, Unaccounted(host, size, now, vm, vm2, SecondRelease(Looking)))
  {
    SecondBegins(host, size, now, vm, vm2);
    Extend(Unaccounted(host, size, now, vm, vm2, SecondRelease(Dequeueing)), Dequeue(2),
           Unaccounted(host, size, now, vm, vm2, SecondRelease(Looking)), {host});
  }

  lemma SecondFinds(host: HostId, size: Size, now: int, vm: VmId, vm2: VmId)
    requires vm2 != vm
    ensures ReachableFrom({host}, Unaccounted(host, size, now, vm, vm2, SecondRelease(Deleting(Placement(host, vm2, size)))))
  {
    SecondLooks(host, size, now, vm, vm2);
    Extend(Unaccounted(host, size, now, vm, vm2, SecondRelease(Looking)), Look(2),
           Unaccounted(host, size, now, vm, vm2, SecondRelease(Deleting(Placement(host, vm2, size)))), {host});
  }

  /** The release of the second row is about to take its size off the host. */
  function TakingOff(host: HostId, size: Size, now: int, vm: VmId, vm2: VmId): State {
    Unaccounted(host, size, now, vm, vm2, SecondRelease(Committing(Placement(host, vm2, size)))).(deleted := {vm2})
  }

  lemma SecondCommits(host: HostId, size: Size, now: int, vm: VmId, vm2: VmId)
    requires vm2 != vm
    ensures Reachable(TakingOff(host, size, now, vm, vm2))
  {
    SecondFinds(host, size, now, vm, vm2);
    Extend(Unaccounted(host, size, now, vm, vm2, SecondRelease(Deleting(Placement(host, vm2, size)))), DeleteVm(2),
           TakingOff(host, size, now, vm, vm2), {host});
  }

  /**
   * Balanced books, and the only release of an assigned row takes another row's reservation:
   * the row's call died between its assignment and its accounting.
   */
  lemma UnaccountedReleaseDrifts(host: HostId, size: Size, now: int, vm: VmId, vm2: VmId)
    requires size != NOTHING && vm2 != vm
    ensures var s := TakingOff(host, size, now, vm, vm2);
            && Reachable(s) && Balanced(s) && Enabled(s, CommitRelease(2)) && ReleasesUnaccounted(s, CommitRelease(2))
            && !Balanced(Apply(s, CommitRelease(2)))
            && Apply(s, CommitRelease(2)).used[host] == NOTHING && Accounted(Apply(s, CommitRelease(2)), 0)
  {
    var s := TakingOff(host, size, now, vm, vm2);
    SecondCommits(host, size, now, vm, vm2);
    OneIsOwed(host, size, now, vm, vm2);
    BalancedIff(s, CommitRelease(2));
  }

  lemma OneIsOwed(host: HostId, size: Size, now: int, vm: VmId, vm2: VmId)
    ensures Balanced(TakingOff(host, size, now, vm, vm2))
  {
    var s := TakingOff(host, size, now, vm, vm2);
    forall h | h in s.used ensures s.used[h] == Owed(s, h) {
      assert AccountedOn(s, h) == {0};
      SumTake(s.requests, {0}, 0);
    }
  }

  // ----- a failure reported for a request that did not fail

  /** A round in which the one host cannot be reached. */
  lemma RoundFails(host: HostId, attempts: nat, claimedAt: Option<int>, now: int)
    requires ReachableFrom({host}, Single(host, Waiting(attempts, claimedAt), map[]))
    ensures attempts + 1 < MAX_ASSIGN_ATTEMPTS ==>
              ReachableFrom({host}, Single(host, Waiting(attempts + 1, Some(now)), map[]))
    ensures attempts + 1 >= MAX_ASSIGN_ATTEMPTS ==>
              ReachableFrom({host}, Single(host, Claiming(attempts + 1, now), Trial(NOTHING, GivingUp)))
  {
    Claims(host, attempts, claimedAt, NOTHING, now);
    var row := Claiming(attempts, now);
    assert [host][1..] == [];
    var skipped := Single(host, row, Trial(NOTHING, Trying([])));
    Extend(Single(host, row, Trial(NOTHING, Trying([host]))), SkipHost(0), skipped, {host});
    RoundCounts(host, attempts, now);
  }

  lemma RoundCounts(host: HostId, attempts: nat, now: int)
    requires ReachableFrom({host}, Single(host, Claiming(attempts, now), Trial(NOTHING, Trying([]))))
    ensures attempts + 1 < MAX_ASSIGN_ATTEMPTS ==>
              ReachableFrom({host}, Single(host, Waiting(attempts + 1, Some(now)), map[]))
    ensures attempts + 1 >= MAX_ASSIGN_ATTEMPTS ==>
              ReachableFrom({host}, Single(host, Claiming(attempts + 1, now), Trial(NOTHING, GivingUp)))
  {
    var skipped := Single(host, Claiming(attempts, now), Trial(NOTHING, Trying([])));
    var row := Claiming(attempts + 1, now);
    if attempts + 1 >= MAX_ASSIGN_ATTEMPTS {
      Extend(skipped, CountAttempt(0), Single(host, row, Trial(NOTHING, GivingUp)), {host});
    } else {
      Recounts(host, attempts, now);
      GivesBack(host, attempts + 1, now);
    }
  }

  lemma Recounts(host: HostId, attempts: nat, now: int)
    requires attempts + 1 < MAX_ASSIGN_ATTEMPTS
    requires ReachableFrom({host}, Single(host, Claiming(attempts, now), Trial(NOTHING, Trying([]))))
    ensures ReachableFrom({host}, Single(host, Claiming(attempts + 1, now), Trial(NOTHING, Requeueing(false))))
  {
    Extend(Single(host, Claiming(attempts, now), Trial(NOTHING, Trying([]))), CountAttempt(0),
           Single(host, Claiming(attempts + 1, now), Trial(NOTHING, Requeueing(false))), {host});
  }

  lemma GivesBack(host: HostId, attempts: nat, now: int)
    requires ReachableFrom({host}, Single(host, Claiming(attempts, now), Trial(NOTHING, Requeueing(false))))
    ensures ReachableFrom({host}, Single(host, Waiting(attempts, Some(now)), map[]))
  {
    var counted := Single(host, Claiming(attempts, now), Trial(NOTHING, Requeueing(false)));
    assert counted.calls - {0} == map[];
    Extend(counted, Requeue(0), Single(host, Waiting(attempts, Some(now)), map[]), {host});
  }

  lemma {:induction false} RoundsFail(host: HostId, attempts: nat, now: int) returns (claimedAt: Option<int>)
    requires attempts < MAX_ASSIGN_ATTEMPTS
    ensures ReachableFrom({host}, Single(host, Waiting(attempts, claimedAt), map[]))
  {
    if attempts == 0 {
      claimedAt := None;
      Requested(host);
    } else {
      var before := RoundsFail(host, attempts - 1, now);
      RoundFails(host, attempts - 1, before, now);
      claimedAt := Some(now);
    }
  }

  /** The fifth attempt has failed, and the request is released before its guarded UPDATE. */
  function GivenUpAndReleased(host: HostId, now: int): State {
    Single(host, Claiming(5, now).(status := Released), Trial(NOTHING, GivingUp))
  }

  /** Failures recorded exactly, and a step that unbalances them: the failing side of FailuresExactIff is reached. */
  lemma StartFailedCanMiscount(host: HostId, now: int)
    ensures var s := GivenUpAndReleased(host, now);
            && Reachable(s) && FailuresExact(s) && Enabled(s, MarkFailed(0))
            && !FailuresExact(Apply(s, MarkFailed(0)))
            && Enabled(Apply(s, MarkFailed(0)), ReportFailure(0))
            && 0 in Apply(Apply(s, MarkFailed(0)), ReportFailure(0)).failures
            && Apply(Apply(s, MarkFailed(0)), ReportFailure(0)).requests[0].status == Released
  {
    ReleasedInTime(host, now);
    var s := GivenUpAndReleased(host, now);
    assert FailuresExact(s);
    ReachableInv(s);
    FailuresExactIff(s, MarkFailed(0));
    FailureRecorded(s);
  }

  lemma FailureRecorded(s: State)
    requires Enabled(s, MarkFailed(0)) && s.calls[0].req == 0 && s.requests[0].status == Released
    ensures Enabled(Apply(s, MarkFailed(0)), ReportFailure(0))
    ensures 0 in Apply(Apply(s, MarkFailed(0)), ReportFailure(0)).failures
    ensures 0 in Apply(Apply(s, MarkFailed(0)), ReportFailure(0)).requests
    ensures Apply(Apply(s, MarkFailed(0)), ReportFailure(0)).requests[0].status == Released
  {
  }

  /** The UPDATE to 'failed' has hit the row, and its event is still to come. */
  function FailedUnrecorded(host: HostId, now: int): State {
    Single(host, Claiming(5, now).(status := Failed), Trial(NOTHING, Reporting))
  }

  lemma FailsUnrecorded(host: HostId, now: int)
    ensures Reachable(FailedUnrecorded(host, now))
  {
    var claimedAt := RoundsFail(host, 4, now);
    RoundFails(host, 4, claimedAt, now);
    UpdateHits(host, now);
  }

  lemma UpdateHits(host: HostId, now: int)
    requires ReachableFrom({host}, Single(host, Claiming(5, now), Trial(NOTHING, GivingUp)))
    ensures Reachable(FailedUnrecorded(host, now))
  {
    Extend(Single(host, Claiming(5, now), Trial(NOTHING, GivingUp)), MarkFailed(0), FailedUnrecorded(host, now), {host});
  }

  lemma AboutToRecord(host: HostId, now: int)
    ensures FailuresExact(FailedUnrecorded(host, now)) && ReportingBy(FailedUnrecorded(host, now), 0, 0)
  {
    var s := FailedUnrecorded(host, now);
    assert ReportingBy(s, 0, 0);
  }

  /**
   * A process that dies between the UPDATE to 'failed' and its INSERT: until then failures are
   * exact, and from then on the failed request has no event, whatever runs afterwards.
   */
  lemma StartFailedCanBeLost(host: HostId, now: int, es: seq<Event>)
    ensures var s := FailedUnrecorded(host, now);
            && Reachable(s) && FailuresExact(s) && Enabled(s, Crash(0)) && !FailuresExact(Apply(s, Crash(0)))
            && var t := Run(Apply(s, Crash(0)), es);
               t.Some? ==> HasFailed(t.value, 0) && 0 !in t.value.failures
  {
    var s := FailedUnrecorded(host, now);
    FailsUnrecorded(host, now);
    AboutToRecord(host, now);
    ReachableInv(s);
    DeathLosesEvent(s, 0, 0);
    NeverRecorded(s, es);
  }

  lemma NeverRecorded(s: State, es: seq<Event>)
    requires Inv(s) && Enabled(s, Crash(0)) && s.calls.Keys == {0} && HasFailed(s, 0) && 0 !in s.failures
    ensures var t := Run(Apply(s, Crash(0)), es);
            t.Some? ==> HasFailed(t.value, 0) && 0 !in t.value.failures
  {
    if Run(Apply(s, Crash(0)), es).Some? {
      InvKept(s, Crash(0));
      LostEventStaysLost(Apply(s, Crash(0)), es, 0);
    }
  }

  lemma ReleasedInTime(host: HostId, now: int)
    ensures Reachable(GivenUpAndReleased(host, now))
  {
    var claimedAt := RoundsFail(host, 4, now);
    RoundFails(host, 4, claimedAt, now);
    ReleasedWhileClaimed(host, now);
  }

  lemma ReleasedWhileClaimed(host: HostId, now: int)
    requires ReachableFrom({host}, Single(host, Claiming(5, now), Trial(NOTHING, GivingUp)))
    ensures Reachable(GivenUpAndReleased(host, now))
  {
    var g := Single(host, Claiming(5, now), Trial(NOTHING, GivingUp));
    var g1 := g.(calls := g.calls[1 := Release(0, 0, Dequeueing)]);
    Extend(g, BeginRelease(1, 0, 0), g1, {host});
    assert g1.calls - {1} == g.calls;
    Extend(g1, Dequeue(1), GivenUpAndReleased(host, now), {host});
  }
}
