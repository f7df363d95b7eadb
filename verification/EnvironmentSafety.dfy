/**
 * What every event of the scheduler keeps, and what therefore holds in every reachable
 * state, whatever the interleaving and wherever a process dies.
 */
module EnvironmentSafety {
  import opened Wrappers
  import opened EnvironmentProtocol

  // ----- what an event leaves alone

  /** The event is a statement of the call. */
  predicate Steps(e: Event, c: CallId) {
    match e
    case Insert(_, _) => false
    case Reclaim(_) => false
    case _ => e.call == c
  }

  lemma BystanderStays(s: State, e: Event, c: CallId)
    requires Enabled(s, e) && !Steps(e, c)
    ensures c in Apply(s, e).calls <==> c in s.calls
    ensures c in s.calls ==> Apply(s, e).calls[c] == s.calls[c]
  {
    if ByRelease(e) {
      BystanderOfRelease(s, e, c);
    } else {
      BystanderOfAssign(s, e, c);
    }
  }

  predicate ByRelease(e: Event) {
    e.BeginRelease? || e.Dequeue? || e.Look? || e.DeleteVm? || e.NoClient? || e.CommitRelease?
  }

  lemma BystanderOfRelease(s: State, e: Event, c: CallId)
    requires Enabled(s, e) && ByRelease(e) && !Steps(e, c)
    ensures c in Apply(s, e).calls <==> c in s.calls
    ensures c in s.calls ==> Apply(s, e).calls[c] == s.calls[c]
  {
  }

  lemma BystanderOfAssign(s: State, e: Event, c: CallId)
    requires Enabled(s, e) && !ByRelease(e) && !Steps(e, c)
    ensures c in Apply(s, e).calls <==> c in s.calls
    ensures c in s.calls ==> Apply(s, e).calls[c] == s.calls[c]
  {
  }

  /** The event may write the row. */
  predicate Writes(s: State, e: Event, r: RequestId) {
    match e
    case Insert(req, _) => req == r
    case Reclaim(_) => true
    case _ =>
      && (e.Reserve? || e.CommitAssign? || e.CountAttempt? || e.MarkFailed? || e.Requeue? || e.Dequeue? || e.CommitRelease?)
      && e.call in s.calls && s.calls[e.call].req == r
  }

  lemma UnwrittenStays(s: State, e: Event, r: RequestId)
    requires Enabled(s, e) && !Writes(s, e, r)
    ensures r in Apply(s, e).requests <==> r in s.requests
    ensures r in s.requests ==> Apply(s, e).requests[r] == s.requests[r]
  {
    if ByRelease(e) {
      UnwrittenByRelease(s, e, r);
    } else {
      UnwrittenByAssign(s, e, r);
    }
  }

  lemma UnwrittenByRelease(s: State, e: Event, r: RequestId)
    requires Enabled(s, e) && ByRelease(e) && !Writes(s, e, r)
    ensures r in Apply(s, e).requests <==> r in s.requests
    ensures r in s.requests ==> Apply(s, e).requests[r] == s.requests[r]
  {
  }

  lemma UnwrittenByAssign(s: State, e: Event, r: RequestId)
    requires Enabled(s, e) && !ByRelease(e) && !Writes(s, e, r)
    ensures r in Apply(s, e).requests <==> r in s.requests
    ensures r in s.requests ==> Apply(s, e).requests[r] == s.requests[r]
  {
    if e.Insert? || e.Reserve? || e.CommitAssign? || e.CountAttempt? || e.MarkFailed? || e.Requeue? {
      UnwrittenByWriter(s, e, r);
    } else {
      ReadersWriteNothing(s, e);
    }
  }

  lemma UnwrittenByWriter(s: State, e: Event, r: RequestId)
    requires e.Insert? || e.Reserve? || e.CommitAssign? || e.CountAttempt? || e.MarkFailed? || e.Requeue?
    requires Enabled(s, e) && !Writes(s, e, r)
    ensures r in Apply(s, e).requests <==> r in s.requests
    ensures r in s.requests ==> Apply(s, e).requests[r] == s.requests[r]
  {
  }

  lemma ReadersWriteNothing(s: State, e: Event)
    requires !e.Insert? && !e.Reserve? && !e.CommitAssign? && !e.CountAttempt? && !e.MarkFailed? && !e.Requeue?
    requires Enabled(s, e) && !ByRelease(e) && !e.Reclaim?
    ensures Apply(s, e).requests == s.requests
  {
  }

  // ----- rows and calls fit together

  ghost predicate Shape(s: State) {
    CallsShape(s) && RowsShape(s) && TargetsShape(s)
  }

  ghost predicate CallsShape(s: State) {
    && s.crashed <= s.calls.Keys
    && (forall c :: c in s.calls && s.calls[c].Assign? ==>
          s.calls[c].req in s.requests && s.requests[s.calls[c].req].team == s.calls[c].team)
  }

  ghost predicate RowsShape(s: State) {
    forall r :: r in s.requests ==> RowShape(s.requests[r])
  }

  /** A claim always has a time, so the stale-claim sweep can find it; a VM is on record from assignment on. */
  predicate RowShape(row: Request) {
    && (row.status == Assigning ==> row.claimedAt.Some?)
    && (row.status == Assigned ==> row.placement.Some?)
    && (row.placement.Some? ==> row.status == Assigned || row.status == Released)
  }

  /** The placement a release read before its deleteVm is the one still on the row. */
  ghost predicate TargetsShape(s: State) {
    forall c :: c in s.calls && Targeted(s.calls[c]) ==>
      s.calls[c].req in s.requests && s.requests[s.calls[c].req].placement == Some(s.calls[c].rpc.target)
  }

  predicate Targeted(call: Call) {
    call.Release? && (call.rpc.Deleting? || call.rpc.Committing?)
  }

  lemma CallsShapeKept(s: State, e: Event)
    requires CallsShape(s) && Enabled(s, e)
    ensures CallsShape(Apply(s, e))
  {
    var t := Apply(s, e);
    forall c | c in t.calls && t.calls[c].Assign?
      ensures t.calls[c].req in t.requests && t.requests[t.calls[c].req].team == t.calls[c].team
    {
      if c in s.calls && s.calls[c].Assign? {
        RowStays(s, e, s.calls[c].req);
      }
      if !Steps(e, c) {
        BystanderStays(s, e, c);
      }
    }
  }

  lemma RowStays(s: State, e: Event, r: RequestId)
    requires Enabled(s, e) && r in s.requests
    ensures r in Apply(s, e).requests && Apply(s, e).requests[r].team == s.requests[r].team
  {
    if !Writes(s, e, r) {
      UnwrittenStays(s, e, r);
    }
  }

  lemma RowsShapeKept(s: State, e: Event)
    requires Shape(s) && Enabled(s, e)
    ensures RowsShape(Apply(s, e))
  {
    var t := Apply(s, e);
    forall r | r in t.requests ensures RowShape(t.requests[r]) {
      if r in s.requests {
        assert RowShape(s.requests[r]);
      }
      if !Writes(s, e, r) {
        UnwrittenStays(s, e, r);
      }
    }
  }

  /** A recorded placement is never overwritten: only an assigning row gets one, and it has none yet. */
  lemma PlacementsStay(s: State, e: Event, r: RequestId)
    requires RowsShape(s) && Enabled(s, e) && r in s.requests && s.requests[r].placement.Some?
    ensures r in Apply(s, e).requests && Apply(s, e).requests[r].placement == s.requests[r].placement
  {
    assert RowShape(s.requests[r]);
    if !Writes(s, e, r) {
      UnwrittenStays(s, e, r);
    }
  }

  lemma TargetsShapeKept(s: State, e: Event)
    requires Shape(s) && Enabled(s, e)
    ensures TargetsShape(Apply(s, e))
  {
    var t := Apply(s, e);
    forall c | c in t.calls && Targeted(t.calls[c])
      ensures t.calls[c].req in t.requests && t.requests[t.calls[c].req].placement == Some(t.calls[c].rpc.target)
    {
      if !Steps(e, c) {
        BystanderStays(s, e, c);
      }
      if c in s.calls && Targeted(s.calls[c]) {
        PlacementsStay(s, e, s.calls[c].req);
      }
    }
  }

  // ----- the status graph

  predicate Edge(a: Status, b: Status) {
    || a == b
    || (a == Queued && (b == Assigning || b == Released))
    || (a == Assigning && (b == Assigned || b == Queued || b == Failed || b == Released))
    || (a == Assigned && b == Released)
  }

  /** A row only moves forward: along an edge, with its team, its placement and its refusal stamp kept. */
  predicate RowFollows(a: Request, b: Request) {
    && b.team == a.team
    && Edge(a.status, b.status)
    && a.attempts <= b.attempts
    && (a.placement.Some? ==> b.placement == a.placement)
    && (a.blocked ==> b.blocked)
  }

  ghost predicate RowsFollow(s: State, t: State) {
    forall r :: r in s.requests ==> r in t.requests && RowFollows(s.requests[r], t.requests[r])
  }

  lemma RowStep(s: State, e: Event, r: RequestId)
    requires Shape(s) && Enabled(s, e)
    ensures r in s.requests ==> r in Apply(s, e).requests && RowFollows(s.requests[r], Apply(s, e).requests[r])
    ensures r in Apply(s, e).requests && r !in s.requests ==> Apply(s, e).requests[r].status == Queued
  {
    if r in s.requests {
      assert RowShape(s.requests[r]);
    }
    if !Writes(s, e, r) {
      UnwrittenStays(s, e, r);
    }
  }

  lemma StatusEdges(s: State, e: Event)
    requires Shape(s) && Enabled(s, e)
    ensures RowsFollow(s, Apply(s, e))
    ensures forall r :: r in Apply(s, e).requests && r !in s.requests ==> Apply(s, e).requests[r].status == Queued
  {
    forall r
      ensures r in s.requests ==> r in Apply(s, e).requests && RowFollows(s.requests[r], Apply(s, e).requests[r])
      ensures r in Apply(s, e).requests && r !in s.requests ==> Apply(s, e).requests[r].status == Queued
    {
      RowStep(s, e, r);
    }
  }

  // ----- the VM ledger

  function HeldVm(call: Call): Option<VmId> {
    if call.Assign? && (call.pc.Booted? || call.pc.Orphaned?) then Some(call.pc.vm) else None
  }

  ghost predicate Holds(s: State, c: CallId, vm: VmId) {
    c in s.calls && HeldVm(s.calls[c]) == Some(vm)
  }

  ghost predicate Records(s: State, r: RequestId, vm: VmId) {
    r in s.requests && s.requests[r].placement.Some? && s.requests[r].placement.value.vm == vm
  }

  ghost predicate RecordsLive(s: State, r: RequestId, vm: VmId) {
    Records(s, r, vm) && s.requests[r].status == Assigned
  }

  /** A release of row r is between its deleteVm and its transaction, or died there. */
  ghost predicate Tearing(s: State, c: CallId, r: RequestId) {
    c in s.calls && s.calls[c].Release? && s.calls[c].req == r && s.calls[c].rpc.Committing?
  }

  predicate Gone(s: State, vm: VmId) {
    vm in s.deleted || vm in s.lost
  }

  ghost predicate HeldApart(s: State) {
    && (forall c, vm :: Holds(s, c, vm) ==> vm in s.created && !Gone(s, vm))
    && (forall c, d, vm :: Holds(s, c, vm) && Holds(s, d, vm) ==> c == d)
    && (forall c, r, vm :: Holds(s, c, vm) ==> !Records(s, r, vm))
  }

  ghost predicate RecordsApart(s: State) {
    && (forall r, vm :: Records(s, r, vm) ==> vm in s.created)
    && (forall r, q, vm :: Records(s, r, vm) && Records(s, q, vm) ==> r == q)
  }

  ghost predicate NoneForgotten(s: State) {
    && s.deleted <= s.created
    && s.lost <= s.created
    && (forall vm :: vm in s.created ==>
          Gone(s, vm) || (exists c :: Holds(s, c, vm)) || (exists r :: RecordsLive(s, r, vm)))
  }

  ghost predicate TornOnlyByRelease(s: State) {
    && (forall c :: c in s.calls && s.calls[c].Release? && s.calls[c].rpc.Committing? ==>
          Gone(s, s.calls[c].rpc.target.vm))
    && (forall r, vm :: RecordsLive(s, r, vm) && Gone(s, vm) ==> exists c :: Tearing(s, c, r))
  }

  ghost predicate Ledger(s: State) {
    HeldApart(s) && RecordsApart(s) && NoneForgotten(s) && TornOnlyByRelease(s)
  }

  /** A call holds a VM only since its own createVm returned it. */
  lemma HoldsDelta(s: State, e: Event, c: CallId, vm: VmId)
    requires Enabled(s, e) && Holds(Apply(s, e), c, vm)
    ensures Holds(s, c, vm) || e == Boot(c, vm)
  {
    if !Steps(e, c) {
      BystanderStays(s, e, c);
    }
  }

  /** A row records a VM only since the guarded UPDATE of the call that held it. */
  lemma RecordsDelta(s: State, e: Event, r: RequestId, vm: VmId)
    requires Shape(s) && Enabled(s, e) && Records(Apply(s, e), r, vm)
    ensures || Records(s, r, vm)
            || (e.CommitAssign? && s.calls[e.call].req == r && Holds(s, e.call, vm)
                && s.requests[r].status == Assigning && !Holds(Apply(s, e), e.call, vm))
  {
    if !Writes(s, e, r) {
      UnwrittenStays(s, e, r);
    }
  }

  lemma GoneDelta(s: State, e: Event, vm: VmId)
    requires Enabled(s, e) && Gone(Apply(s, e), vm)
    ensures || Gone(s, vm)
            || ((e.CommitAssignFails? || e.DeleteOrphan?) && Holds(s, e.call, vm) && !Holds(Apply(s, e), e.call, vm))
            || ((e.DeleteVm? || e.NoClient?) && s.calls[e.call].rpc.target.vm == vm
                && Tearing(Apply(s, e), e.call, s.calls[e.call].req))
  {
  }

  /** The VM a release tears down is the one on its row. */
  lemma TornWasRecorded(s: State, e: Event)
    requires TargetsShape(s) && Enabled(s, e) && (e.DeleteVm? || e.NoClient?)
    ensures Records(s, s.calls[e.call].req, s.calls[e.call].rpc.target.vm)
  {
    assert Targeted(s.calls[e.call]);
  }

  lemma HeldNotGone(s: State, e: Event, c: CallId, vm: VmId)
    requires Shape(s) && HeldApart(s) && RecordsApart(s) && s.deleted <= s.created && s.lost <= s.created && Enabled(s, e)
    requires Holds(Apply(s, e), c, vm)
    ensures vm in Apply(s, e).created && !Gone(Apply(s, e), vm)
  {
    HeldWasCreated(s, e, c, vm);
    if Gone(Apply(s, e), vm) {
      HoldsDelta(s, e, c, vm);
      GoneDelta(s, e, vm);
      if e.DeleteVm? || e.NoClient? {
        TornWasRecorded(s, e);
      }
    }
  }

  lemma HeldWasCreated(s: State, e: Event, c: CallId, vm: VmId)
    requires HeldApart(s) && Enabled(s, e) && Holds(Apply(s, e), c, vm)
    ensures vm in Apply(s, e).created
  {
    HoldsDelta(s, e, c, vm);
    CreatedGrows(s, e);
  }

  lemma CreatedGrows(s: State, e: Event)
    requires Enabled(s, e)
    ensures s.created <= Apply(s, e).created
    ensures e.Boot? ==> e.vm in Apply(s, e).created
  {
  }

  lemma HeldApartKept(s: State, e: Event)
    requires Shape(s) && HeldApart(s) && RecordsApart(s) && s.deleted <= s.created && s.lost <= s.created && Enabled(s, e)
    ensures HeldApart(Apply(s, e))
  {
    var t := Apply(s, e);
    forall c, vm | Holds(t, c, vm) ensures vm in t.created && !Gone(t, vm) {
      HeldNotGone(s, e, c, vm);
    }
    forall c, d, vm | Holds(t, c, vm) && Holds(t, d, vm) ensures c == d {
      HoldsDelta(s, e, c, vm);
      HoldsDelta(s, e, d, vm);
    }
    forall c, r, vm | Holds(t, c, vm) ensures !Records(t, r, vm) {
      HoldsDelta(s, e, c, vm);
      if Records(t, r, vm) {
        RecordsDelta(s, e, r, vm);
      }
    }
  }

  lemma RecordsApartKept(s: State, e: Event)
    requires Shape(s) && HeldApart(s) && RecordsApart(s) && Enabled(s, e)
    ensures RecordsApart(Apply(s, e))
  {
    var t := Apply(s, e);
    forall r, vm | Records(t, r, vm) ensures vm in t.created {
      RecordsDelta(s, e, r, vm);
    }
    forall r, q, vm | Records(t, r, vm) && Records(t, q, vm) ensures r == q {
      RecordsDelta(s, e, r, vm);
      RecordsDelta(s, e, q, vm);
    }
  }

  /** What a VM that was held becomes: still held, on record, or gone. */
  lemma HeldGoesSomewhere(s: State, e: Event, c: CallId, vm: VmId)
    requires Shape(s) && Enabled(s, e) && Holds(s, c, vm)
    ensures var t := Apply(s, e);
            Holds(t, c, vm) || RecordsLive(t, s.calls[c].req, vm) || Gone(t, vm)
  {
    if !Steps(e, c) {
      BystanderStays(s, e, c);
    }
  }

  /** What a VM on an assigned row becomes: still there, or gone once the row is released. */
  lemma RecordGoesSomewhere(s: State, e: Event, r: RequestId, vm: VmId)
    requires Shape(s) && TornOnlyByRelease(s) && Enabled(s, e) && RecordsLive(s, r, vm)
    ensures RecordsLive(Apply(s, e), r, vm) || Gone(Apply(s, e), vm)
  {
    if e.CommitRelease? && s.calls[e.call].req == r {
      assert Targeted(s.calls[e.call]) && Gone(s, s.calls[e.call].rpc.target.vm);
    } else {
      RecordStays(s, e, r, vm);
    }
  }

  lemma RecordStays(s: State, e: Event, r: RequestId, vm: VmId)
    requires Enabled(s, e) && RecordsLive(s, r, vm) && !(e.CommitRelease? && s.calls[e.call].req == r)
    ensures RecordsLive(Apply(s, e), r, vm)
  {
    if !Writes(s, e, r) {
      UnwrittenStays(s, e, r);
    }
  }

  lemma GoneWasCreated(s: State, e: Event, vm: VmId)
    requires Shape(s) && Ledger(s) && Enabled(s, e) && Gone(Apply(s, e), vm)
    ensures vm in Apply(s, e).created
  {
    GoneDelta(s, e, vm);
    CreatedGrows(s, e);
    if e.DeleteVm? || e.NoClient? {
      TornWasRecorded(s, e);
    }
  }

  lemma NoneForgottenKept(s: State, e: Event)
    requires Shape(s) && Ledger(s) && Enabled(s, e)
    ensures NoneForgotten(Apply(s, e))
  {
    var t := Apply(s, e);
    forall vm | Gone(t, vm) ensures vm in t.created {
      GoneWasCreated(s, e, vm);
    }
    forall vm | vm in t.created
      ensures Gone(t, vm) || (exists c :: Holds(t, c, vm)) || (exists r :: RecordsLive(t, r, vm))
    {
      if vm !in s.created {
        assert Holds(t, e.call, vm);
      } else if Gone(s, vm) {
        assert Gone(t, vm);
      } else if c :| Holds(s, c, vm) {
        HeldGoesSomewhere(s, e, c, vm);
      } else {
        var r :| RecordsLive(s, r, vm);
        RecordGoesSomewhere(s, e, r, vm);
      }
    }
  }

  /** A teardown in progress stays in progress until the release transaction ends the assignment. */
  lemma TearingDelta(s: State, e: Event, c: CallId, r: RequestId)
    requires Shape(s) && Enabled(s, e) && Tearing(s, c, r)
    ensures || Tearing(Apply(s, e), c, r)
            || (r in Apply(s, e).requests && Apply(s, e).requests[r].status == Released)
  {
    if !Steps(e, c) {
      BystanderStays(s, e, c);
    }
  }

  lemma TornOnlyByReleaseKept(s: State, e: Event)
    requires Shape(s) && Ledger(s) && Enabled(s, e)
    ensures TornOnlyByRelease(Apply(s, e))
  {
    var t := Apply(s, e);
    forall c | c in t.calls && t.calls[c].Release? && t.calls[c].rpc.Committing? ensures Gone(t, t.calls[c].rpc.target.vm) {
      CommittingIsGone(s, e, c);
    }
    forall r, vm | RecordsLive(t, r, vm) && Gone(t, vm) ensures exists c :: Tearing(t, c, r) {
      var c := TornBy(s, e, r, vm);
      assert Tearing(t, c, r);
    }
  }

  lemma CommittingIsGone(s: State, e: Event, c: CallId)
    requires TornOnlyByRelease(s) && Enabled(s, e)
    requires c in Apply(s, e).calls && Apply(s, e).calls[c].Release? && Apply(s, e).calls[c].rpc.Committing?
    ensures Gone(Apply(s, e), Apply(s, e).calls[c].rpc.target.vm)
  {
    GoneStays(s, e);
    if !Steps(e, c) {
      BystanderStays(s, e, c);
    }
  }

  lemma GoneStays(s: State, e: Event)
    requires Enabled(s, e)
    ensures s.deleted <= Apply(s, e).deleted && s.lost <= Apply(s, e).lost
  {
  }

  lemma TornBy(s: State, e: Event, r: RequestId, vm: VmId) returns (c: CallId)
    requires Shape(s) && Ledger(s) && Enabled(s, e)
    requires RecordsLive(Apply(s, e), r, vm) && Gone(Apply(s, e), vm)
    ensures Tearing(Apply(s, e), c, r)
  {
    GoneDelta(s, e, vm);
    RecordsDelta(s, e, r, vm);
    if Records(s, r, vm) && Gone(s, vm) {
      LiveBefore(s, e, r, vm);
      c :| Tearing(s, c, r);
      TearingDelta(s, e, c, r);
    } else {
      if e.DeleteVm? || e.NoClient? {
        assert Records(s, s.calls[e.call].req, vm);
      }
      c := e.call;
    }
  }

  lemma LiveBefore(s: State, e: Event, r: RequestId, vm: VmId)
    requires RowsShape(s) && Enabled(s, e) && Records(s, r, vm) && RecordsLive(Apply(s, e), r, vm)
    ensures RecordsLive(s, r, vm)
  {
    assert RowShape(s.requests[r]);
    if !Writes(s, e, r) {
      UnwrittenStays(s, e, r);
    }
  }

  // ----- usage events: one 'start' per request

  ghost predicate WonBy(s: State, c: CallId, r: RequestId) {
    c in s.calls && s.calls[c].Assign? && s.calls[c].pc.Won? && s.calls[c].req == r
  }

  function WonPlacement(call: Call): Placement
    requires call.Assign? && call.pc.Won?
  {
    Placement(call.pc.host, call.pc.vm, call.plan.size)
  }

  ghost predicate StartsOnce(s: State) {
    && (forall c, r :: WonBy(s, c, r) ==>
          r !in s.starts && r in s.requests && s.requests[r].placement == Some(WonPlacement(s.calls[c])))
    && (forall c, d, r :: WonBy(s, c, r) && WonBy(s, d, r) ==> c == d)
    && (forall r :: s.starts[r] <= 1)
    && (forall r :: r in s.starts ==> r in s.requests && s.requests[r].placement.Some?)
  }

  lemma WonDelta(s: State, e: Event, c: CallId, r: RequestId)
    requires Shape(s) && Enabled(s, e) && WonBy(Apply(s, e), c, r)
    ensures || (WonBy(s, c, r) && Apply(s, e).calls[c] == s.calls[c] && e != Account(c))
            || (e == CommitAssign(c) && s.calls[c].req == r && s.requests[r].status == Assigning
                && Apply(s, e).requests[r].placement == Some(WonPlacement(Apply(s, e).calls[c])))
  {
    if !Steps(e, c) {
      BystanderStays(s, e, c);
    }
  }

  lemma StartsDelta(s: State, e: Event)
    requires Enabled(s, e)
    ensures Apply(s, e).starts == if e.Account? then s.starts + multiset{s.calls[e.call].req} else s.starts
  {
  }

  lemma WonKept(s: State, e: Event, c: CallId, r: RequestId)
    requires Shape(s) && StartsOnce(s) && Enabled(s, e) && WonBy(Apply(s, e), c, r)
    ensures var t := Apply(s, e);
            r !in t.starts && r in t.requests && t.requests[r].placement == Some(WonPlacement(t.calls[c]))
  {
    StartsDelta(s, e);
    WonDelta(s, e, c, r);
    if e.Account? {
      assert WonBy(s, e.call, s.calls[e.call].req);
    }
    if WonBy(s, c, r) {
      PlacementsStay(s, e, r);
    } else {
      assert RowShape(s.requests[r]);
    }
  }

  lemma WonAlone(s: State, e: Event, c: CallId, d: CallId, r: RequestId)
    requires Shape(s) && StartsOnce(s) && Enabled(s, e) && WonBy(Apply(s, e), c, r) && WonBy(Apply(s, e), d, r)
    ensures c == d
  {
    WonDelta(s, e, c, r);
    WonDelta(s, e, d, r);
    if WonBy(s, c, r) || WonBy(s, d, r) {
      assert RowShape(s.requests[r]);
    }
  }

  lemma StartsOnceKept(s: State, e: Event)
    requires Shape(s) && StartsOnce(s) && Enabled(s, e)
    ensures StartsOnce(Apply(s, e))
  {
    var t := Apply(s, e);
    StartsDelta(s, e);
    forall c, r | WonBy(t, c, r)
      ensures r !in t.starts && r in t.requests && t.requests[r].placement == Some(WonPlacement(t.calls[c]))
    {
      WonKept(s, e, c, r);
    }
    forall c, d, r | WonBy(t, c, r) && WonBy(t, d, r) ensures c == d {
      WonAlone(s, e, c, d, r);
    }
    if e.Account? {
      assert WonBy(s, e.call, s.calls[e.call].req);
    }
    forall r | r in t.starts ensures r in t.requests && t.requests[r].placement.Some? {
      PlacementsStay(s, e, r);
    }
  }

  // ----- the queued_at_limit webhook

  ghost predicate NotifyingBy(s: State, c: CallId, r: RequestId) {
    c in s.calls && s.calls[c].Assign? && s.calls[c].pc.Notifying? && s.calls[c].req == r
  }

  ghost predicate NoticesOnce(s: State) {
    && (forall c, r :: NotifyingBy(s, c, r) ==>
          r !in s.notices && r in s.requests && s.requests[r].blocked && s.calls[c].plan.parallelEnvs > 0)
    && (forall c, d, r :: NotifyingBy(s, c, r) && NotifyingBy(s, d, r) ==> c == d)
    && (forall r :: s.notices[r] <= 1)
    && (forall r :: r in s.notices ==> r in s.requests && s.requests[r].blocked)
  }

  lemma NotifyingDelta(s: State, e: Event, c: CallId, r: RequestId)
    requires Shape(s) && Enabled(s, e) && NotifyingBy(Apply(s, e), c, r)
    ensures || (NotifyingBy(s, c, r) && Apply(s, e).calls[c] == s.calls[c] && e != Notify(c))
            || (e.Reserve? && e.call == c && s.calls[c].req == r && !s.requests[r].blocked
                && s.calls[c].plan.parallelEnvs > 0)
  {
    if !Steps(e, c) {
      BystanderStays(s, e, c);
    }
  }

  lemma NoticesDelta(s: State, e: Event)
    requires Enabled(s, e)
    ensures Apply(s, e).notices == if e.Notify? then s.notices + multiset{s.calls[e.call].req} else s.notices
  {
  }

  lemma BlockedStays(s: State, e: Event, r: RequestId)
    requires Enabled(s, e) && r in s.requests && s.requests[r].blocked
    ensures r in Apply(s, e).requests && Apply(s, e).requests[r].blocked
  {
    if !Writes(s, e, r) {
      UnwrittenStays(s, e, r);
    }
  }

  lemma NotifyingKept(s: State, e: Event, c: CallId, r: RequestId)
    requires Shape(s) && NoticesOnce(s) && Enabled(s, e) && NotifyingBy(Apply(s, e), c, r)
    ensures var t := Apply(s, e);
            r !in t.notices && r in t.requests && t.requests[r].blocked && t.calls[c].plan.parallelEnvs > 0
  {
    NotifyingDelta(s, e, c, r);
    NoticesDelta(s, e);
    if e.Notify? {
      assert NotifyingBy(s, e.call, s.calls[e.call].req);
    }
    if NotifyingBy(s, c, r) {
      BlockedStays(s, e, r);
    }
  }

  lemma NoticesOnceKept(s: State, e: Event)
    requires Shape(s) && NoticesOnce(s) && Enabled(s, e)
    ensures NoticesOnce(Apply(s, e))
  {
    var t := Apply(s, e);
    NoticesDelta(s, e);
    forall c, r | NotifyingBy(t, c, r)
      ensures r !in t.notices && r in t.requests && t.requests[r].blocked && t.calls[c].plan.parallelEnvs > 0
    {
      NotifyingKept(s, e, c, r);
    }
    forall c, d, r | NotifyingBy(t, c, r) && NotifyingBy(t, d, r) ensures c == d {
      NotifyingDelta(s, e, c, r);
      NotifyingDelta(s, e, d, r);
    }
    if e.Notify? {
      assert NotifyingBy(s, e.call, s.calls[e.call].req);
    }
    forall r | r in t.notices ensures r in t.requests && t.requests[r].blocked {
      BlockedStays(s, e, r);
    }
  }

  // ----- everything together

  ghost predicate Inv(s: State) {
    Shape(s) && Ledger(s) && StartsOnce(s) && NoticesOnce(s)
  }

  lemma InvInit(hosts: set<HostId>)
    ensures Inv(Init(hosts))
  {
  }

  lemma InvKept(s: State, e: Event)
    requires Inv(s) && Enabled(s, e)
    ensures Inv(Apply(s, e))
  {
    CallsShapeKept(s, e);
    RowsShapeKept(s, e);
    TargetsShapeKept(s, e);
    HeldApartKept(s, e);
    RecordsApartKept(s, e);
    NoneForgottenKept(s, e);
    TornOnlyByReleaseKept(s, e);
    StartsOnceKept(s, e);
    NoticesOnceKept(s, e);
  }

  lemma {:induction false} InvAlong(s: State, es: seq<Event>)
    requires Inv(s) && Run(s, es).Some?
    ensures Inv(Run(s, es).value)
    decreases |es|
  {
    if es != [] {
      InvKept(s, es[0]);
      InvAlong(Apply(s, es[0]), es[1..]);
    }
  }

  lemma ReachableInv(s: State)
    requires Reachable(s)
    ensures Inv(s)
  {
    var hosts, es :| Run(Init(hosts), es) == Some(s);
    InvInit(hosts);
    InvAlong(Init(hosts), es);
  }
}
