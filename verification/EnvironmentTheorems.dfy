/**
 * The promises of the scheduler, over every interleaving: the parallelism cap, the fate of
 * every VM, the request lifecycle, recovery after crashes, and when 'start_failed' is exact.
 */
module EnvironmentTheorems {
  import opened Wrappers
  import opened EnvironmentProtocol
  import opened EnvironmentSafety
  import opened Sets

  // ----- the parallelism cap

  /** A row becomes active only by a claim, within the cap of the call that claims it. */
  lemma ActiveOnlyByClaim(s: State, e: Event, r: RequestId)
    requires Shape(s) && Enabled(s, e) && r in Apply(s, e).requests && Active(Apply(s, e).requests[r])
    ensures r in s.requests && Apply(s, e).requests[r].team == s.requests[r].team
    ensures Active(s.requests[r]) || Claimed(s, e, r)
  {
    RowStep(s, e, r);
    if !Writes(s, e, r) {
      UnwrittenStays(s, e, r);
    }
  }

  predicate Claimed(s: State, e: Event, r: RequestId) {
    && e.Reserve? && e.call in s.calls && s.calls[e.call].Assign? && s.calls[e.call].req == r
    && r in s.requests && s.requests[r].status == Queued
    && Used(s, s.calls[e.call].team) < s.calls[e.call].plan.parallelEnvs
  }

  lemma ActivatedOnlyByClaim(s: State, e: Event, team: TeamId)
    requires Shape(s) && Enabled(s, e)
    ensures var before, after := ActiveRows(s.requests, team), ActiveRows(Apply(s, e).requests, team);
            || after <= before
            || (e.Reserve? && s.calls[e.call].team == team && after <= before + {s.calls[e.call].req}
                && Used(s, team) < s.calls[e.call].plan.parallelEnvs)
  {
    var before, after := ActiveRows(s.requests, team), ActiveRows(Apply(s, e).requests, team);
    forall r <- after ensures r in before || (Claimed(s, e, r) && s.requests[r].team == team) {
      ActiveOnlyByClaim(s, e, r);
    }
    if r :| r in after && r !in before {
      assert s.requests[r].team == s.calls[e.call].team;
    }
  }

  /** Whatever cap each call was given, a step that raises a team's count leaves it within that cap. */
  lemma CountRisesOnlyWithinCap(s: State, e: Event, team: TeamId)
    requires Shape(s) && Enabled(s, e)
    requires |set r | r in Apply(s, e).requests && Apply(s, e).requests[r].team == team
                      && (Apply(s, e).requests[r].status == Assigning || Apply(s, e).requests[r].status == Assigned)|
           > |set r | r in s.requests && s.requests[r].team == team
                      && (s.requests[r].status == Assigning || s.requests[r].status == Assigned)|
    ensures e.Reserve? && s.calls[e.call].team == team
    ensures |set r | r in Apply(s, e).requests && Apply(s, e).requests[r].team == team
                     && (Apply(s, e).requests[r].status == Assigning || Apply(s, e).requests[r].status == Assigned)|
         == |set r | r in s.requests && s.requests[r].team == team
                     && (s.requests[r].status == Assigning || s.requests[r].status == Assigned)| + 1
         <= s.calls[e.call].plan.parallelEnvs
  {
    UsedIsRunning(s, team);
    UsedIsRunning(Apply(s, e), team);
    UsedRisesOnlyWithinCap(s, e, team);
  }

  /** The locked transaction claims a queued row exactly when the team runs fewer than its cap, and otherwise claims nothing. */
  lemma ReserveClaimsIff(s: State, c: CallId, now: int)
    requires Enabled(s, Reserve(c, now))
    ensures var call, t := s.calls[c], Apply(s, Reserve(c, now));
            var running := |set r | r in s.requests && s.requests[r].team == call.team
                                    && (s.requests[r].status == Assigning || s.requests[r].status == Assigned)|;
            var row := s.requests[call.req];
            && (t.requests == s.requests[call.req := row.(status := Assigning, claimedAt := Some(now))]
                && c in t.calls && t.calls[c] == call.(pc := PickingHosts)
                <==> running < call.plan.parallelEnvs && row.status == Queued)
            && (t.requests == s.requests[call.req := row.(blocked := true)]
                && c in t.calls && t.calls[c] == call.(pc := Notifying)
                <==> running >= call.plan.parallelEnvs > 0 && !row.blocked)
            && (t.requests == s.requests && c !in t.calls
                <==> || (running < call.plan.parallelEnvs && row.status != Queued)
                     || (running >= call.plan.parallelEnvs && (call.plan.parallelEnvs == 0 || row.blocked)))
  {
    UsedIsRunning(s, s.calls[c].team);
  }

  lemma UsedRisesOnlyWithinCap(s: State, e: Event, team: TeamId)
    requires Shape(s) && Enabled(s, e) && Used(Apply(s, e), team) > Used(s, team)
    ensures e.Reserve? && s.calls[e.call].team == team
    ensures Used(Apply(s, e), team) == Used(s, team) + 1 <= s.calls[e.call].plan.parallelEnvs
  {
    ActivatedOnlyByClaim(s, e, team);
    var before, after := ActiveRows(s.requests, team), ActiveRows(Apply(s, e).requests, team);
    if after <= before {
      SubsetSize(after, before);
    } else {
      SubsetSize(after, before + {s.calls[e.call].req});
    }
  }

  /** No call in flight was given more than the team's cap. */
  ghost predicate CallsWithin(s: State, cap: TeamId -> nat) {
    forall c :: c in s.calls && s.calls[c].Assign? ==> s.calls[c].plan.parallelEnvs <= cap(s.calls[c].team)
  }

  /** No call begun along the run is given more than the team's cap. */
  ghost predicate PlansWithin(s: State, es: seq<Event>, cap: TeamId -> nat)
    requires Run(s, es).Some?
    decreases |es|
  {
    es == [] ||
    (&& (es[0].BeginAssign? ==> es[0].plan.parallelEnvs <= cap(s.requests[es[0].req].team))
     && PlansWithin(Apply(s, es[0]), es[1..], cap))
  }

  lemma CallsWithinKept(s: State, e: Event, cap: TeamId -> nat)
    requires CallsWithin(s, cap) && Enabled(s, e)
    requires e.BeginAssign? ==> e.plan.parallelEnvs <= cap(s.requests[e.req].team)
    ensures CallsWithin(Apply(s, e), cap)
  {
    var t := Apply(s, e);
    forall c | c in t.calls && t.calls[c].Assign? ensures t.calls[c].plan.parallelEnvs <= cap(t.calls[c].team) {
      if !Steps(e, c) {
        BystanderStays(s, e, c);
      }
    }
  }

  lemma {:induction false} CapAlong(s: State, es: seq<Event>, cap: TeamId -> nat)
    requires Inv(s) && CallsWithin(s, cap) && Run(s, es).Some? && PlansWithin(s, es, cap)
    requires forall team: TeamId :: Used(s, team) <= cap(team)
    ensures forall team: TeamId :: Used(Run(s, es).value, team) <= cap(team)
    decreases |es|
  {
    if es != [] {
      var e, t := es[0], Apply(s, es[0]);
      InvKept(s, e);
      CallsWithinKept(s, e, cap);
      forall team: TeamId ensures Used(t, team) <= cap(team) {
        if Used(t, team) > Used(s, team) {
          UsedRisesOnlyWithinCap(s, e, team);
        }
      }
      CapAlong(t, es[1..], cap);
    }
  }

  /** In every interleaving from the empty system, a team never has more active environments than its cap. */
  lemma CapNeverExceeded(hosts: set<HostId>, es: seq<Event>, cap: TeamId -> nat, team: TeamId)
    requires Run(Init(hosts), es).Some? && PlansWithin(Init(hosts), es, cap)
    ensures var s := Run(Init(hosts), es).value;
            |set r | r in s.requests && s.requests[r].team == team
                     && (s.requests[r].status == Assigning || s.requests[r].status == Assigned)| <= cap(team)
  {
    UsedIsRunning(Run(Init(hosts), es).value, team);
    InvInit(hosts);
    CapAlong(Init(hosts), es, cap);
  }

  // ----- the fate of every VM

  /** A live call has it in hand. */
  ghost predicate Held(s: State, vm: VmId) {
    exists c :: c !in s.crashed && Holds(s, c, vm)
  }

  /** The call that had it in hand has died. */
  ghost predicate Stranded(s: State, vm: VmId) {
    exists c :: StrandedBy(s, c, vm)
  }

  ghost predicate StrandedBy(s: State, c: CallId, vm: VmId) {
    c in s.crashed && Holds(s, c, vm)
  }

  /** On record as a running environment: on an assigned row, and not handed to deleteVm. */
  ghost predicate Running(s: State, vm: VmId) {
    !Gone(s, vm) && exists r :: RecordsLive(s, r, vm)
  }

  ghost predicate ExactlyOne(a: bool, b: bool, c: bool, d: bool) {
    (a || b || c || d) && !(a && b) && !(a && c) && !(a && d) && !(b && c) && !(b && d) && !(c && d)
  }

  /**
   * Every VM is exactly one of held, stranded, running or gone; it has one holder and one row at
   * most; and an assigned row whose VM is gone has a release that is between its deleteVm and
   * its transaction, or died there.
   */
  lemma VmLedger(s: State, vm: VmId)
    requires Reachable(s) && vm in s.created
    ensures ExactlyOne(Held(s, vm), Stranded(s, vm), Running(s, vm), Gone(s, vm))
    ensures forall c, d :: Holds(s, c, vm) && Holds(s, d, vm) ==> c == d
    ensures forall r, q :: Records(s, r, vm) && Records(s, q, vm) ==> r == q
    ensures forall r :: RecordsLive(s, r, vm) && Gone(s, vm) ==> exists c :: Tearing(s, c, r)
  {
    ReachableInv(s);
    if c :| Holds(s, c, vm) {
      assert c in s.crashed ==> StrandedBy(s, c, vm);
      forall r ensures !RecordsLive(s, r, vm) {
        assert !Records(s, r, vm);
      }
    }
  }

  /** The two ways a VM is dropped: its assign UPDATE errors, or its host can no longer be reached. */
  predicate Drops(e: Event) {
    e.CommitAssignFails? || e.NoClient?
  }

  lemma {:induction false} NothingDropped(s: State, es: seq<Event>)
    requires Run(s, es).Some? && s.lost == {} && s.crashed == {}
    requires forall e :: e in es ==> !Drops(e) && !e.Crash?
    ensures Run(s, es).value.lost == {} && Run(s, es).value.crashed == {}
    decreases |es|
  {
    if es != [] {
      var t := Apply(s, es[0]);
      assert es[0] in es;
      assert t.lost == {} && t.crashed == {};
      forall e | e in es[1..] ensures !Drops(e) && !e.Crash? {
        assert e in es;
      }
      NothingDropped(t, es[1..]);
    }
  }

  /** Without crashes, database errors and lost hosts: held by a live call, running, or handed to deleteVm. */
  lemma NoVmIsOrphaned(hosts: set<HostId>, es: seq<Event>, vm: VmId)
    requires Run(Init(hosts), es).Some?
    requires forall e :: e in es ==> !Drops(e) && !e.Crash?
    requires vm in Run(Init(hosts), es).value.created
    ensures var s := Run(Init(hosts), es).value;
            && !Stranded(s, vm) && vm !in s.lost
            && ExactlyOne(Held(s, vm), false, Running(s, vm), vm in s.deleted)
            && (forall r :: RecordsLive(s, r, vm) && vm in s.deleted ==> exists c :: c !in s.crashed && Tearing(s, c, r))
  {
    var s := Run(Init(hosts), es).value;
    NothingDropped(Init(hosts), es);
    assert Reachable(s) by {
      assert Run(Init(hosts), es) == Some(s);
    }
    VmLedger(s, vm);
  }

  // ----- dead calls

  /** A dead call stays as it was, and a call dies only by its own crash. */
  lemma CrashedStays(s: State, e: Event, c: CallId)
    requires CallsShape(s) && Enabled(s, e)
    ensures c in s.crashed ==> c in Apply(s, e).crashed && c in Apply(s, e).calls && Apply(s, e).calls[c] == s.calls[c]
    ensures c in Apply(s, e).crashed && c !in s.crashed ==> e == Crash(c) && Apply(s, e).calls == s.calls
  {
    CrashedDelta(s, e);
    if c in s.crashed {
      BystanderStays(s, e, c);
    }
  }

  lemma CrashedDelta(s: State, e: Event)
    requires Enabled(s, e)
    ensures Apply(s, e).crashed == if e.Crash? then s.crashed + {e.call} else s.crashed
    ensures e.Crash? ==> Apply(s, e).calls == s.calls
  {
    if !e.Crash? {
      NobodyDies(s, e);
    }
  }

  lemma NobodyDies(s: State, e: Event)
    requires Enabled(s, e) && !e.Crash?
    ensures Apply(s, e).crashed == s.crashed
  {
  }

  lemma StrandedDelta(s: State, e: Event, vm: VmId)
    requires CallsShape(s) && Enabled(s, e)
    ensures Stranded(Apply(s, e), vm) <==> Stranded(s, vm) || (e.Crash? && Holds(s, e.call, vm))
  {
    forall c ensures StrandedBy(Apply(s, e), c, vm) <==> StrandedBy(s, c, vm) || (e == Crash(c) && Holds(s, c, vm)) {
      CrashedStays(s, e, c);
    }
    if e.Crash? && Holds(s, e.call, vm) {
      assert StrandedBy(Apply(s, e), e.call, vm);
    }
  }

  /** The step forgets the VM: its assign UPDATE errors, its host is gone at its teardown, or the call that holds it dies. */
  ghost predicate Forgets(s: State, e: Event, vm: VmId)
    requires Enabled(s, e)
  {
    || (e.CommitAssignFails? && s.calls[e.call].pc.vm == vm)
    || (e.NoClient? && s.calls[e.call].rpc.target.vm == vm)
    || (e.Crash? && Holds(s, e.call, vm))
  }

  /** The step hands the VM to deleteVm. */
  predicate Deletes(s: State, e: Event, vm: VmId)
    requires Enabled(s, e)
  {
    || (e.DeleteOrphan? && s.calls[e.call].pc.vm == vm)
    || (e.DeleteVm? && s.calls[e.call].rpc.target.vm == vm)
  }

  ghost predicate ForgottenAlong(s: State, es: seq<Event>, vm: VmId)
    requires Run(s, es).Some?
    decreases |es|
  {
    es != [] && (Forgets(s, es[0], vm) || ForgottenAlong(Apply(s, es[0]), es[1..], vm))
  }

  ghost predicate DeletedAlong(s: State, es: seq<Event>, vm: VmId)
    requires Run(s, es).Some?
    decreases |es|
  {
    es != [] && (Deletes(s, es[0], vm) || DeletedAlong(Apply(s, es[0]), es[1..], vm))
  }

  lemma GoneBy(s: State, e: Event, vm: VmId)
    requires CallsShape(s) && Enabled(s, e)
    ensures vm in Apply(s, e).lost || Stranded(Apply(s, e), vm) <==> vm in s.lost || Stranded(s, vm) || Forgets(s, e, vm)
    ensures vm in Apply(s, e).deleted <==> vm in s.deleted || Deletes(s, e, vm)
  {
    StrandedDelta(s, e, vm);
    DroppedBy(s, e, vm);
  }

  lemma DroppedBy(s: State, e: Event, vm: VmId)
    requires Enabled(s, e)
    ensures vm in Apply(s, e).lost <==> vm in s.lost || (Forgets(s, e, vm) && !e.Crash?)
    ensures vm in Apply(s, e).deleted <==> vm in s.deleted || Deletes(s, e, vm)
  {
    if e.DeleteOrphan? || e.DeleteVm? || e.CommitAssignFails? || e.NoClient? {
    } else {
      NothingGoes(s, e);
    }
  }

  lemma NothingGoes(s: State, e: Event)
    requires Enabled(s, e) && !e.DeleteOrphan? && !e.DeleteVm? && !e.CommitAssignFails? && !e.NoClient?
    ensures Apply(s, e).lost == s.lost && Apply(s, e).deleted == s.deleted
  {
    if ByRelease(e) {
      NothingGoesByRelease(s, e);
    } else {
      NothingGoesByAssign(s, e);
    }
  }

  lemma NothingGoesByRelease(s: State, e: Event)
    requires Enabled(s, e) && ByRelease(e) && !e.DeleteVm? && !e.NoClient?
    ensures Apply(s, e).lost == s.lost && Apply(s, e).deleted == s.deleted
  {
  }

  lemma NothingGoesByAssign(s: State, e: Event)
    requires Enabled(s, e) && !ByRelease(e) && !e.DeleteOrphan? && !e.CommitAssignFails?
    ensures Apply(s, e).lost == s.lost && Apply(s, e).deleted == s.deleted
  {
    if e.Reserve? || e.CommitAssign? || e.CountAttempt? || e.Requeue? {
      NothingGoesByWriter(s, e);
    }
  }

  lemma NothingGoesByWriter(s: State, e: Event)
    requires Enabled(s, e) && (e.Reserve? || e.CommitAssign? || e.CountAttempt? || e.Requeue?)
    ensures Apply(s, e).lost == s.lost && Apply(s, e).deleted == s.deleted
  {
  }

  lemma {:induction false} GoneAlong(s: State, es: seq<Event>, vm: VmId)
    requires Inv(s) && Run(s, es).Some?
    ensures var t := Run(s, es).value;
            && (vm in t.lost || Stranded(t, vm) <==> vm in s.lost || Stranded(s, vm) || ForgottenAlong(s, es, vm))
            && (vm in t.deleted <==> vm in s.deleted || DeletedAlong(s, es, vm))
    decreases |es|
  {
    if es != [] {
      InvKept(s, es[0]);
      GoneBy(s, es[0], vm);
      GoneAlong(Apply(s, es[0]), es[1..], vm);
    }
  }

  /** Nobody's: no live call has it in hand, no assigned row has it running, and it was never handed to deleteVm. */
  ghost predicate Orphan(s: State, vm: VmId) {
    !Held(s, vm) && !Running(s, vm) && vm !in s.deleted
  }

  /** After any run, a created VM is nobody's if and only if some step of the run forgot it and none deleted it. */
  lemma OrphansAreTheForgotten(hosts: set<HostId>, es: seq<Event>, vm: VmId)
    requires Run(Init(hosts), es).Some? && vm in Run(Init(hosts), es).value.created
    ensures Orphan(Run(Init(hosts), es).value, vm) <==>
            ForgottenAlong(Init(hosts), es, vm) && !DeletedAlong(Init(hosts), es, vm)
  {
    var s := Run(Init(hosts), es).value;
    assert Reachable(s) by {
      assert Run(Init(hosts), es) == Some(s);
    }
    VmLedger(s, vm);
    InvInit(hosts);
    GoneAlong(Init(hosts), es, vm);
  }

  /** A database error on the assign UPDATE does orphan a running VM: the call forgets it and moves on. */
  lemma AssignErrorOrphansVm(s: State, c: CallId)
    requires Reachable(s) && Enabled(s, CommitAssignFails(c))
    ensures var t, vm := Apply(s, CommitAssignFails(c)), s.calls[c].pc.vm;
            vm in t.created && Orphan(t, vm)
  {
    var t, vm := Apply(s, CommitAssignFails(c)), s.calls[c].pc.vm;
    ReachableInv(s);
    InvKept(s, CommitAssignFails(c));
    assert Holds(s, c, vm);
    if d :| Holds(t, d, vm) {
      HoldsDelta(s, CommitAssignFails(c), d, vm);
    }
  }

  // ----- rows whose VM is gone

  /** A live release is tearing the row's VM down. */
  ghost predicate TornLive(s: State, r: RequestId) {
    exists c :: c !in s.crashed && Tearing(s, c, r)
  }

  ghost predicate TearingDied(s: State, r: RequestId) {
    exists c :: DiedTearing(s, c, r)
  }

  ghost predicate DiedTearing(s: State, c: CallId, r: RequestId) {
    c in s.crashed && Tearing(s, c, r)
  }

  /** Somewhere along the run a release of the row died between its deleteVm and its transaction. */
  ghost predicate DiesTearingAlong(s: State, es: seq<Event>, r: RequestId)
    requires Run(s, es).Some?
    decreases |es|
  {
    es != [] && ((es[0].Crash? && Tearing(s, es[0].call, r)) || DiesTearingAlong(Apply(s, es[0]), es[1..], r))
  }

  lemma TearingDiedDelta(s: State, e: Event, r: RequestId)
    requires CallsShape(s) && Enabled(s, e)
    ensures TearingDied(Apply(s, e), r) <==> TearingDied(s, r) || (e.Crash? && Tearing(s, e.call, r))
  {
    forall c ensures DiedTearing(Apply(s, e), c, r) <==> DiedTearing(s, c, r) || (e == Crash(c) && Tearing(s, c, r)) {
      CrashedStays(s, e, c);
    }
    if e.Crash? && Tearing(s, e.call, r) {
      assert DiedTearing(Apply(s, e), e.call, r);
    }
  }

  lemma {:induction false} TearingDiedAlong(s: State, es: seq<Event>, r: RequestId)
    requires Inv(s) && Run(s, es).Some?
    ensures TearingDied(Run(s, es).value, r) <==> TearingDied(s, r) || DiesTearingAlong(s, es, r)
    decreases |es|
  {
    if es != [] {
      InvKept(s, es[0]);
      TearingDiedDelta(s, es[0], r);
      TearingDiedAlong(Apply(s, es[0]), es[1..], r);
    }
  }

  /**
   * An assigned row that no live release is tearing down has a VM that is gone if and only if
   * some release of it died between its deleteVm and its transaction.
   */
  lemma HalfReleasedIff(hosts: set<HostId>, es: seq<Event>, r: RequestId, vm: VmId)
    requires Run(Init(hosts), es).Some?
    requires RecordsLive(Run(Init(hosts), es).value, r, vm) && !TornLive(Run(Init(hosts), es).value, r)
    ensures Gone(Run(Init(hosts), es).value, vm) <==> DiesTearingAlong(Init(hosts), es, r)
  {
    var s := Run(Init(hosts), es).value;
    InvInit(hosts);
    InvAlong(Init(hosts), es);
    TearingDiedAlong(Init(hosts), es, r);
    if Gone(s, vm) {
      var c :| Tearing(s, c, r);
      assert DiedTearing(s, c, r);
    }
    if c :| DiedTearing(s, c, r) {
      assert Targeted(s.calls[c]);
    }
  }

  // ----- the request lifecycle

  /** Failed and released rows never change status; an assigned one only ever becomes released. */
  lemma {:induction false} TerminalRowsStay(s: State, es: seq<Event>, r: RequestId)
    requires Inv(s) && Run(s, es).Some? && r in s.requests
    ensures var t := Run(s, es).value;
            && r in t.requests
            && (s.requests[r].status == Failed || s.requests[r].status == Released ==>
                  t.requests[r].status == s.requests[r].status)
            && (s.requests[r].status == Assigned ==>
                  t.requests[r].status == Assigned || t.requests[r].status == Released)
            && (s.requests[r].placement.Some? ==> t.requests[r].placement == s.requests[r].placement)
    decreases |es|
  {
    if es != [] {
      StatusEdges(s, es[0]);
      InvKept(s, es[0]);
      TerminalRowsStay(Apply(s, es[0]), es[1..], r);
    }
  }

  /** One 'start' event per request at most, and only for a request that got a VM. */
  lemma OneStartPerRequest(s: State, r: RequestId)
    requires Reachable(s)
    ensures s.starts[r] <= 1
    ensures r in s.starts ==> r in s.requests && s.requests[r].placement.Some?
                              && (s.requests[r].status == Assigned || s.requests[r].status == Released)
  {
    ReachableInv(s);
    if r in s.starts {
      assert RowShape(s.requests[r]);
    }
  }

  /** One queued_at_limit webhook per request at most, and never on a cap of zero. */
  lemma OneLimitNoticePerRequest(s: State, c: CallId)
    requires Reachable(s) && Enabled(s, Notify(c))
    ensures s.calls[c].plan.parallelEnvs > 0
    ensures s.calls[c].req !in s.notices
    ensures Apply(s, Notify(c)).notices[s.calls[c].req] == 1
  {
    ReachableInv(s);
    assert NotifyingBy(s, c, s.calls[c].req);
  }

  /** The sweep takes back every claim older than its cutoff, and touches nothing else. */
  lemma ReclaimIsExact(s: State, cutoff: int, r: RequestId)
    requires Reachable(s) && r in s.requests
    ensures var t := Apply(s, Reclaim(cutoff));
            && r in t.requests
            && (t.requests[r] != s.requests[r] <==>
                  s.requests[r].status == Assigning && s.requests[r].claimedAt.Some? && s.requests[r].claimedAt.value < cutoff)
            && (s.requests[r].status == Assigning ==> s.requests[r].claimedAt.Some?)
            && (t.requests[r] != s.requests[r] ==> t.requests[r] == s.requests[r].(status := Queued, claimedAt := None))
  {
    ReachableInv(s);
    assert RowShape(s.requests[r]);
  }

  /** However many processes died, one sweep past the newest claim leaves no request stuck in 'assigning'. */
  lemma NoRequestStuck(s: State, cutoff: int)
    requires Reachable(s)
    requires forall r :: r in s.requests && s.requests[r].claimedAt.Some? ==> s.requests[r].claimedAt.value < cutoff
    ensures forall r :: r in s.requests ==> Apply(s, Reclaim(cutoff)).requests[r].status != Assigning
  {
    ReachableInv(s);
    forall r | r in s.requests ensures Apply(s, Reclaim(cutoff)).requests[r].status != Assigning {
      assert RowShape(s.requests[r]);
    }
  }

  /** A round without a VM is given up exactly at the fifth counted attempt, and is otherwise to be queued again. */
  lemma GivesUpAtFive(s: State, c: CallId)
    requires Enabled(s, CountAttempt(c))
    ensures var t, r := Apply(s, CountAttempt(c)), s.calls[c].req;
            && r in t.requests && t.requests[r] == s.requests[r].(attempts := s.requests[r].attempts + 1)
            && c in t.calls && t.calls[c].Assign?
            && t.calls[c].pc == if s.requests[r].attempts + 1 >= 5 then GivingUp else Requeueing(false)
  {
  }

  // ----- when 'start_failed' is recorded exactly once per failed request

  ghost predicate ReportingBy(s: State, c: CallId, r: RequestId) {
    c in s.calls && c !in s.crashed && s.calls[c].Assign? && s.calls[c].pc.Reporting? && s.calls[c].req == r
  }

  predicate HasFailed(s: State, r: RequestId) {
    r in s.requests && s.requests[r].status == Failed
  }

  /** Each failed request has one failure event, recorded or about to be by a live call; no other request has any. */
  ghost predicate FailuresExact(s: State) {
    && (forall c, r :: ReportingBy(s, c, r) ==> HasFailed(s, r) && r !in s.failures)
    && (forall c, d, r :: ReportingBy(s, c, r) && ReportingBy(s, d, r) ==> c == d)
    && (forall r :: s.failures[r] <= 1)
    && (forall r :: r in s.failures ==> HasFailed(s, r))
    && (forall r :: HasFailed(s, r) ==> r in s.failures || exists c :: ReportingBy(s, c, r))
  }

  lemma FailureDelta(s: State, e: Event)
    requires Shape(s) && Enabled(s, e)
    ensures Apply(s, e).failures == if e.ReportFailure? then s.failures + multiset{s.calls[e.call].req} else s.failures
    ensures forall r :: HasFailed(s, r) ==> HasFailed(Apply(s, e), r)
    ensures forall r :: HasFailed(Apply(s, e), r) ==>
              HasFailed(s, r) || (e.MarkFailed? && s.calls[e.call].req == r && s.requests[r].status == Assigning)
  {
    forall r
      ensures HasFailed(s, r) ==> HasFailed(Apply(s, e), r)
      ensures HasFailed(Apply(s, e), r) ==>
                HasFailed(s, r) || (e.MarkFailed? && s.calls[e.call].req == r && s.requests[r].status == Assigning)
    {
      FailedDelta(s, e, r);
    }
  }

  lemma FailedDelta(s: State, e: Event, r: RequestId)
    requires Shape(s) && Enabled(s, e)
    ensures HasFailed(s, r) ==> HasFailed(Apply(s, e), r)
    ensures HasFailed(Apply(s, e), r) ==>
              HasFailed(s, r) || (e.MarkFailed? && s.calls[e.call].req == r && s.requests[r].status == Assigning)
  {
    if r in s.requests {
      assert RowShape(s.requests[r]);
    }
    if !Writes(s, e, r) {
      UnwrittenStays(s, e, r);
    }
  }

  /**
   * The step reports truly: it is not a guarded UPDATE to 'failed' that finds the row already
   * released, reclaimed or failed by another call, nor the death of a call about to record.
   */
  predicate ReportsTruly(s: State, e: Event)
    requires Enabled(s, e)
  {
    && (e.MarkFailed? ==> s.requests[s.calls[e.call].req].status == Assigning)
    && (e.Crash? ==> !(s.calls[e.call].Assign? && s.calls[e.call].pc.Reporting?))
  }

  lemma ReportingDelta(s: State, e: Event, c: CallId, r: RequestId)
    requires CallsShape(s) && Enabled(s, e)
    ensures ReportingBy(Apply(s, e), c, r) <==>
            || (ReportingBy(s, c, r) && e != ReportFailure(c) && e != Crash(c))
            || (e == MarkFailed(c) && s.calls[c].req == r)
  {
    if Steps(e, c) {
      ReporterSteps(s, e, c, r);
    } else {
      BystanderStays(s, e, c);
      CrashedDelta(s, e);
    }
  }

  lemma ReporterSteps(s: State, e: Event, c: CallId, r: RequestId)
    requires CallsShape(s) && Enabled(s, e) && Steps(e, c)
    ensures ReportingBy(Apply(s, e), c, r) <==> e == MarkFailed(c) && s.calls[c].req == r
    ensures ReportingBy(s, c, r) ==> e == ReportFailure(c) || e == Crash(c)
  {
    if e.Crash? {
      CrashedDelta(s, e);
    } else if !e.MarkFailed? {
      NotAboutToReport(s, e, c, r);
    }
  }

  lemma NotAboutToReport(s: State, e: Event, c: CallId, r: RequestId)
    requires Enabled(s, e) && Steps(e, c) && !e.Crash? && !e.MarkFailed?
    ensures !ReportingBy(Apply(s, e), c, r)
    ensures ReportingBy(s, c, r) ==> e == ReportFailure(c)
  {
  }

  lemma FailureGuarded(s: State, e: Event, c: CallId, r: RequestId)
    requires Shape(s) && Enabled(s, e) && FailuresExact(s)
    requires ReportsTruly(s, e)
    requires ReportingBy(Apply(s, e), c, r)
    ensures HasFailed(Apply(s, e), r) && r !in Apply(s, e).failures
    ensures forall d :: ReportingBy(Apply(s, e), d, r) ==> d == c
  {
    FailureDelta(s, e);
    if e.ReportFailure? {
      assert ReportingBy(s, e.call, s.calls[e.call].req);
    }
    ReportingDelta(s, e, c, r);
    forall d | ReportingBy(Apply(s, e), d, r) ensures d == c {
      ReportingDelta(s, e, d, r);
    }
  }

  lemma FailureStaysRecorded(s: State, e: Event, r: RequestId)
    requires Shape(s) && Enabled(s, e) && FailuresExact(s) && ReportsTruly(s, e) && HasFailed(Apply(s, e), r)
    ensures r in Apply(s, e).failures || exists c :: ReportingBy(Apply(s, e), c, r)
  {
    FailureDelta(s, e);
    if HasFailed(s, r) {
      if r !in s.failures {
        var c :| ReportingBy(s, c, r);
        ReportingDelta(s, e, c, r);
      }
    } else {
      ReportingDelta(s, e, e.call, r);
    }
  }

  lemma FailuresExactKept(s: State, e: Event)
    requires Shape(s) && Enabled(s, e) && FailuresExact(s)
    requires ReportsTruly(s, e)
    ensures FailuresExact(Apply(s, e))
  {
    var t := Apply(s, e);
    FailureDelta(s, e);
    if e.ReportFailure? {
      assert ReportingBy(s, e.call, s.calls[e.call].req);
    }
    forall c, r | ReportingBy(t, c, r)
      ensures HasFailed(t, r) && r !in t.failures && forall d :: ReportingBy(t, d, r) ==> d == c
    {
      FailureGuarded(s, e, c, r);
    }
    forall r | HasFailed(t, r) ensures r in t.failures || exists c :: ReportingBy(t, c, r) {
      FailureStaysRecorded(s, e, r);
    }
  }

  lemma MissedUpdateMiscounts(s: State, c: CallId)
    requires Shape(s) && FailuresExact(s) && Enabled(s, MarkFailed(c))
    requires s.requests[s.calls[c].req].status != Assigning
    ensures !FailuresExact(Apply(s, MarkFailed(c)))
  {
    var t, r := Apply(s, MarkFailed(c)), s.calls[c].req;
    ReportingDelta(s, MarkFailed(c), c, r);
    assert ReportingBy(t, c, r);
    if HasFailed(t, r) && r !in t.failures {
      FailureDelta(s, MarkFailed(c));
      var d :| ReportingBy(s, d, r);
      ReportingDelta(s, MarkFailed(c), d, r);
    }
  }

  lemma DeathLosesEvent(s: State, c: CallId, r: RequestId)
    requires Shape(s) && FailuresExact(s) && Enabled(s, Crash(c)) && ReportingBy(s, c, r)
    ensures !FailuresExact(Apply(s, Crash(c)))
  {
    var t := Apply(s, Crash(c));
    assert HasFailed(t, r) && r !in t.failures;
    forall d ensures !ReportingBy(t, d, r) {
      ReportingDelta(s, Crash(c), d, r);
    }
  }

  /**
   * Failure events stay exact at a step if and only if it reports truly: the UPDATE to 'failed'
   * hits its row, and no call dies between that UPDATE and its INSERT.
   */
  lemma FailuresExactIff(s: State, e: Event)
    requires Inv(s) && Enabled(s, e) && FailuresExact(s)
    ensures FailuresExact(Apply(s, e)) <==> ReportsTruly(s, e)
  {
    if ReportsTruly(s, e) {
      FailuresExactKept(s, e);
    } else if e.MarkFailed? {
      MissedUpdateMiscounts(s, e.call);
    } else {
      DeathLosesEvent(s, e.call, s.calls[e.call].req);
    }
  }

  /** Every step of the run reports truly. */
  ghost predicate ReportsTrulyAlong(s: State, es: seq<Event>)
    requires Run(s, es).Some?
    decreases |es|
  {
    es == [] || (ReportsTruly(s, es[0]) && ReportsTrulyAlong(Apply(s, es[0]), es[1..]))
  }

  /** Failure events are exact in every state of the run. */
  ghost predicate FailuresExactAlong(s: State, es: seq<Event>)
    requires Run(s, es).Some?
    decreases |es|
  {
    FailuresExact(s) && (es != [] ==> FailuresExactAlong(Apply(s, es[0]), es[1..]))
  }

  lemma {:induction false} ExactAlongIff(s: State, es: seq<Event>)
    requires Inv(s) && FailuresExact(s) && Run(s, es).Some?
    ensures FailuresExactAlong(s, es) <==> ReportsTrulyAlong(s, es)
    ensures FailuresExactAlong(s, es) ==> FailuresExact(Run(s, es).value)
    decreases |es|
  {
    if es != [] {
      InvKept(s, es[0]);
      FailuresExactIff(s, es[0]);
      if ReportsTruly(s, es[0]) {
        ExactAlongIff(Apply(s, es[0]), es[1..]);
      } else {
        NotExactAlong(Apply(s, es[0]), es[1..]);
      }
    }
  }

  lemma NotExactAlong(s: State, es: seq<Event>)
    requires Run(s, es).Some? && !FailuresExact(s)
    ensures !FailuresExactAlong(s, es)
  {
  }

  /** Failure events stay exact all along an interleaving if and only if every step of it reports truly. */
  lemma FailuresStayExact(hosts: set<HostId>, es: seq<Event>)
    requires Run(Init(hosts), es).Some?
    ensures FailuresExactAlong(Init(hosts), es) <==> ReportsTrulyAlong(Init(hosts), es)
    ensures ReportsTrulyAlong(Init(hosts), es) ==> FailuresExact(Run(Init(hosts), es).value)
  {
    InvInit(hosts);
    ExactAlongIff(Init(hosts), es);
  }

  /** When no live call is left, exact means one event for each failed request and none for any other. */
  lemma SettledFailures(s: State, r: RequestId)
    requires FailuresExact(s) && s.calls.Keys <= s.crashed
    ensures s.failures[r] == if HasFailed(s, r) then 1 else 0
  {
    forall c ensures !ReportingBy(s, c, r) {
    }
  }

  // ----- a lost event is lost for ever

  /** No live call can still record a failure of the row: at most it is about to see that the row is not queued. */
  ghost predicate NobodyReports(s: State, r: RequestId) {
    forall c :: AssignLive(s, c) && s.calls[c].req == r ==> s.calls[c].pc.Reserving? || s.calls[c].pc.Notifying?
  }

  lemma NobodyReportsKept(s: State, e: Event, r: RequestId)
    requires Inv(s) && Enabled(s, e) && HasFailed(s, r) && NobodyReports(s, r) && r !in s.failures
    ensures HasFailed(Apply(s, e), r) && NobodyReports(Apply(s, e), r) && r !in Apply(s, e).failures
  {
    var t := Apply(s, e);
    FailureDelta(s, e);
    forall c | AssignLive(t, c) && t.calls[c].req == r ensures t.calls[c].pc.Reserving? || t.calls[c].pc.Notifying? {
      TurnedAway(s, e, c, r);
    }
  }

  lemma TurnedAway(s: State, e: Event, c: CallId, r: RequestId)
    requires Enabled(s, e) && HasFailed(s, r) && AssignLive(Apply(s, e), c) && Apply(s, e).calls[c].req == r
    requires AssignLive(s, c) && s.calls[c].req == r ==> s.calls[c].pc.Reserving? || s.calls[c].pc.Notifying?
    ensures Apply(s, e).calls[c].pc.Reserving? || Apply(s, e).calls[c].pc.Notifying?
  {
    CrashedDelta(s, e);
    if !Steps(e, c) {
      BystanderStays(s, e, c);
    }
  }

  /** The event of a failed request whose recorder died is never recorded, whatever runs afterwards. */
  lemma {:induction false} LostEventStaysLost(s: State, es: seq<Event>, r: RequestId)
    requires Inv(s) && Run(s, es).Some? && HasFailed(s, r) && NobodyReports(s, r) && r !in s.failures
    ensures HasFailed(Run(s, es).value, r) && r !in Run(s, es).value.failures
    decreases |es|
  {
    if es != [] {
      NobodyReportsKept(s, es[0], r);
      InvKept(s, es[0]);
      LostEventStaysLost(Apply(s, es[0]), es[1..], r);
    }
  }
}
