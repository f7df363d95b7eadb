/**
 * Host accounting: cpu_used and ram_used_mb against the sizes stored on the rows they pay for.
 */
module HostLedger {
  import opened Wrappers
  import opened EnvironmentProtocol
  import opened EnvironmentSafety

  /** The rows a host's reservations should add up to: assigned there, with the start on record. */
  ghost function AccountedOn(s: State, h: HostId): set<RequestId> {
    set r | r in s.requests && Accounted(s, r) && s.requests[r].placement.value.host == h
  }

  predicate Accounted(s: State, r: RequestId) {
    r in s.requests && s.requests[r].status == Assigned && s.requests[r].placement.Some? && r in s.starts
  }

  predicate Placed(rows: map<RequestId, Request>, ids: set<RequestId>) {
    forall r :: r in ids ==> r in rows && rows[r].placement.Some?
  }

  ghost function SumSizes(rows: map<RequestId, Request>, ids: set<RequestId>): Size
    requires Placed(rows, ids)
  {
    if ids == {} then NOTHING
    else var r :| r in ids; rows[r].placement.value.size.Plus(SumSizes(rows, ids - {r}))
  }

  lemma {:induction false} SumTake(rows: map<RequestId, Request>, ids: set<RequestId>, r: RequestId)
    requires Placed(rows, ids) && r in ids
    ensures SumSizes(rows, ids) == rows[r].placement.value.size.Plus(SumSizes(rows, ids - {r}))
    decreases |ids|
  {
    var q :| q in ids && SumSizes(rows, ids) == rows[q].placement.value.size.Plus(SumSizes(rows, ids - {q}));
    if q != r {
      SumTake(rows, ids - {q}, r);
      SumTake(rows, ids - {r}, q);
      assert ids - {q} - {r} == ids - {r} - {q};
      PlusSwaps(rows[q].placement.value.size, rows[r].placement.value.size, SumSizes(rows, ids - {q} - {r}));
    }
  }

  lemma PlusSwaps(a: Size, b: Size, c: Size)
    ensures a.Plus(b.Plus(c)) == b.Plus(a.Plus(c))
  {
  }

  lemma {:induction false} SumSame(rows: map<RequestId, Request>, rows': map<RequestId, Request>, ids: set<RequestId>)
    requires Placed(rows, ids) && Placed(rows', ids)
    requires forall r :: r in ids ==> rows'[r].placement == rows[r].placement
    ensures SumSizes(rows', ids) == SumSizes(rows, ids)
    decreases |ids|
  {
    if ids != {} {
      var r :| r in ids;
      SumTake(rows, ids, r);
      SumTake(rows', ids, r);
      SumSame(rows, rows', ids - {r});
    }
  }

  ghost function Owed(s: State, h: HostId): Size {
    SumSizes(s.requests, AccountedOn(s, h))
  }

  /** Every host's reservations are exactly the sum over its assigned rows whose start is on record. */
  ghost predicate Balanced(s: State) {
    forall h :: h in s.used ==> s.used[h] == Owed(s, h)
  }

  lemma LeavesOnlyByRelease(s: State, e: Event, r: RequestId)
    requires Enabled(s, e) && Accounted(s, r) && !Accounted(Apply(s, e), r)
    ensures e.CommitRelease? && r == s.calls[e.call].req
  {
    StartsDelta(s, e);
    AssignedUntilReleased(s, e, r);
  }

  lemma AssignedUntilReleased(s: State, e: Event, r: RequestId)
    requires Enabled(s, e) && r in s.requests && s.requests[r].status == Assigned
    ensures r in Apply(s, e).requests
    ensures || (e.CommitRelease? && r == s.calls[e.call].req)
            || (Apply(s, e).requests[r].status == Assigned && Apply(s, e).requests[r].placement == s.requests[r].placement)
  {
    if !Writes(s, e, r) {
      UnwrittenStays(s, e, r);
    }
  }

  lemma EntersOnlyByAccount(s: State, e: Event, r: RequestId)
    requires Inv(s) && Enabled(s, e) && !Accounted(s, r) && Accounted(Apply(s, e), r)
    ensures e.Account? && r == s.calls[e.call].req
  {
    StartsDelta(s, e);
    RowStep(s, e, r);
    assert r in s.requests ==> RowShape(s.requests[r]);
  }

  /** An event that neither accounts nor releases leaves the accounted rows of every host alone. */
  lemma AccountedSame(s: State, e: Event, h: HostId)
    requires Inv(s) && Enabled(s, e) && !e.Account? && !e.CommitRelease?
    ensures AccountedOn(Apply(s, e), h) == AccountedOn(s, h)
    ensures Placed(Apply(s, e).requests, AccountedOn(s, h))
    ensures Owed(Apply(s, e), h) == Owed(s, h)
  {
    var t := Apply(s, e);
    forall r | r in AccountedOn(s, h) ensures Accounted(t, r) && t.requests[r].placement == s.requests[r].placement {
      PlacementsStay(s, e, r);
      if !Accounted(t, r) {
        LeavesOnlyByRelease(s, e, r);
      }
    }
    forall r | r in AccountedOn(t, h) ensures r in AccountedOn(s, h) {
      if !Accounted(s, r) {
        EntersOnlyByAccount(s, e, r);
      }
      PlacementsStay(s, e, r);
    }
    SumSame(s.requests, t.requests, AccountedOn(s, h));
  }

  lemma UsedSame(s: State, e: Event)
    requires Enabled(s, e) && !e.Account? && !e.CommitRelease?
    ensures Apply(s, e).used == s.used
  {
    if ByRelease(e) {
      UsedSameByRelease(s, e);
    } else {
      UsedSameByAssign(s, e);
    }
  }

  lemma UsedSameByRelease(s: State, e: Event)
    requires Enabled(s, e) && ByRelease(e) && !e.CommitRelease?
    ensures Apply(s, e).used == s.used
  {
  }

  lemma UsedSameByAssign(s: State, e: Event)
    requires Enabled(s, e) && !ByRelease(e) && !e.Account?
    ensures Apply(s, e).used == s.used
  {
  }

  /** The accounting transaction adds the plan's size to its own host's columns, and the release takes the stored size off, never below zero. */
  lemma ColumnsMove(s: State, c: CallId, h: HostId)
    requires h in s.used
    ensures Enabled(s, Account(c)) ==>
              var t, call := Apply(s, Account(c)), s.calls[c];
              && h in t.used
              && t.used[h].cpu == s.used[h].cpu + (if h == call.pc.host then call.plan.size.cpu else 0)
              && t.used[h].ram == s.used[h].ram + (if h == call.pc.host then call.plan.size.ram else 0)
    ensures Enabled(s, CommitRelease(c)) ==>
              var t, p := Apply(s, CommitRelease(c)), s.calls[c].rpc.target;
              && h in t.used
              && t.used[h].cpu == (if h != p.host then s.used[h].cpu else if s.used[h].cpu < p.size.cpu then 0 else s.used[h].cpu - p.size.cpu)
              && t.used[h].ram == (if h != p.host then s.used[h].ram else if s.used[h].ram < p.size.ram then 0 else s.used[h].ram - p.size.ram)
  {
  }

  /** The row the accounting transaction pays for is not accounted yet, and is the only one it adds. */
  lemma AccountAdds(s: State, c: CallId, h: HostId)
    requires Inv(s) && Enabled(s, Account(c))
    ensures var call, t := s.calls[c], Apply(s, Account(c));
            Owed(t, h) == if s.requests[call.req].status == Assigned && call.pc.host == h
                          then Owed(s, h).Plus(call.plan.size) else Owed(s, h)
  {
    var call, t := s.calls[c], Apply(s, Account(c));
    var r := call.req;
    assert WonBy(s, c, r);
    assert t.requests == s.requests;
    if s.requests[r].status == Assigned && call.pc.host == h {
      assert AccountedOn(t, h) == AccountedOn(s, h) + {r};
      SumTake(t.requests, AccountedOn(t, h), r);
      assert AccountedOn(t, h) - {r} == AccountedOn(s, h);
    } else {
      assert AccountedOn(t, h) == AccountedOn(s, h);
    }
  }

  /** The release transaction takes its row off its host's account, if it was on it. */
  lemma ReleasedLeaves(s: State, c: CallId, h: HostId)
    requires Enabled(s, CommitRelease(c))
    ensures var t := Apply(s, CommitRelease(c));
            && AccountedOn(t, h) == AccountedOn(s, h) - {s.calls[c].req}
            && (forall r <- AccountedOn(t, h) :: r in s.requests && t.requests[r] == s.requests[r])
  {
  }

  lemma ReleaseTakes(s: State, c: CallId, h: HostId)
    requires Inv(s) && Enabled(s, CommitRelease(c))
    ensures var call, t := s.calls[c], Apply(s, CommitRelease(c));
            if Accounted(s, call.req) && call.rpc.target.host == h
            then Owed(s, h) == Owed(t, h).Plus(call.rpc.target.size) else Owed(t, h) == Owed(s, h)
  {
    assert s.requests[s.calls[c].req].placement == Some(s.calls[c].rpc.target);
    TargetTaken(s, c, h);
  }

  lemma TargetTaken(s: State, c: CallId, h: HostId)
    requires Enabled(s, CommitRelease(c)) && s.requests[s.calls[c].req].placement == Some(s.calls[c].rpc.target)
    ensures var call, t := s.calls[c], Apply(s, CommitRelease(c));
            if Accounted(s, call.req) && call.rpc.target.host == h
            then Owed(s, h) == Owed(t, h).Plus(call.rpc.target.size) else Owed(t, h) == Owed(s, h)
  {
    var call, t := s.calls[c], Apply(s, CommitRelease(c));
    var r := call.req;
    ReleasedLeaves(s, c, h);
    SumSame(s.requests, t.requests, AccountedOn(t, h));
    if r in AccountedOn(s, h) {
      SumTake(s.requests, AccountedOn(s, h), r);
    } else {
      assert AccountedOn(t, h) == AccountedOn(s, h);
    }
  }

  /**
   * A step that keeps the books: the accounting of a row that is still assigned, and the
   * release of a row that is assigned and accounted. The other cases are an accounting that a
   * release overtook, the release of an assigned row whose start is not on record, and a second
   * release of one row (`DriftingSteps`); they are harmless only when the amount they add or the
   * clamped amount they take is nothing, or the host row is gone.
   */
  predicate KeepsBooks(s: State, e: Event)
    requires Enabled(s, e)
  {
    match e
    case Account(c) =>
      var call := s.calls[c];
      || (call.req in s.requests && s.requests[call.req].status == Assigned)
      || call.pc.host !in s.used
      || call.plan.size == NOTHING
    case CommitRelease(c) =>
      var p := s.calls[c].rpc.target;
      || Accounted(s, s.calls[c].req)
      || p.host !in s.used
      || s.used[p.host].ClampedMinus(p.size) == s.used[p.host]
    case _ => true
  }

  predicate Overtakes(s: State, e: Event)
    requires Enabled(s, e)
  {
    e.Account? && s.calls[e.call].req in s.requests && s.requests[s.calls[e.call].req].status == Released
  }

  predicate ReleasesUnaccounted(s: State, e: Event)
    requires Enabled(s, e)
  {
    e.CommitRelease? && s.requests[s.calls[e.call].req].status == Assigned && s.calls[e.call].req !in s.starts
  }

  predicate ReleasesAgain(s: State, e: Event)
    requires Enabled(s, e)
  {
    e.CommitRelease? && s.requests[s.calls[e.call].req].status == Released
  }

  /** The size the step adds or takes is something, and its host row exists. */
  predicate Moves(s: State, e: Event)
    requires Enabled(s, e) && (e.Account? || e.CommitRelease?)
  {
    if e.Account? then s.calls[e.call].pc.host in s.used && s.calls[e.call].plan.size != NOTHING
    else
      var p := s.calls[e.call].rpc.target;
      p.host in s.used && s.used[p.host].ClampedMinus(p.size) != s.used[p.host]
  }

  /** The steps that do not keep the books are of exactly three kinds. */
  lemma DriftingSteps(s: State, e: Event)
    requires Reachable(s) && Enabled(s, e)
    ensures !KeepsBooks(s, e) <==>
            (Overtakes(s, e) || ReleasesUnaccounted(s, e) || ReleasesAgain(s, e)) && Moves(s, e)
  {
    ReachableInv(s);
    if e.Account? {
      assert WonBy(s, e.call, s.calls[e.call].req);
      assert RowShape(s.requests[s.calls[e.call].req]);
    } else if e.CommitRelease? {
      assert Targeted(s.calls[e.call]);
      assert RowShape(s.requests[s.calls[e.call].req]);
    }
  }

  lemma AccountKeepsBook(s: State, c: CallId, h: HostId)
    requires Inv(s) && Balanced(s) && Enabled(s, Account(c)) && KeepsBooks(s, Account(c)) && h in s.used
    ensures h in Apply(s, Account(c)).used && Apply(s, Account(c)).used[h] == Owed(Apply(s, Account(c)), h)
  {
    assert WonBy(s, c, s.calls[c].req);
    AccountAdds(s, c, h);
    AccountedAmount(s, c, h);
  }

  lemma AccountedAmount(s: State, c: CallId, h: HostId)
    requires Enabled(s, Account(c)) && KeepsBooks(s, Account(c)) && s.calls[c].req in s.requests && h in s.used
    ensures var call, t := s.calls[c], Apply(s, Account(c));
            && h in t.used
            && t.used[h] == if s.requests[call.req].status == Assigned && call.pc.host == h
                            then s.used[h].Plus(call.plan.size) else s.used[h]
  {
  }

  lemma ReleaseKeepsBook(s: State, c: CallId, h: HostId)
    requires Inv(s) && Balanced(s) && Enabled(s, CommitRelease(c)) && KeepsBooks(s, CommitRelease(c)) && h in s.used
    ensures h in Apply(s, CommitRelease(c)).used
    ensures Apply(s, CommitRelease(c)).used[h] == Owed(Apply(s, CommitRelease(c)), h)
  {
    ReleaseTakes(s, c, h);
  }

  lemma OtherStepsKeepBook(s: State, e: Event, h: HostId)
    requires Inv(s) && Balanced(s) && Enabled(s, e) && !e.Account? && !e.CommitRelease? && h in s.used
    ensures Apply(s, e).used == s.used && s.used[h] == Owed(Apply(s, e), h)
  {
    AccountedSame(s, e, h);
    UsedSame(s, e);
  }

  lemma BalancedKept(s: State, e: Event)
    requires Inv(s) && Balanced(s) && Enabled(s, e) && KeepsBooks(s, e)
    ensures Balanced(Apply(s, e))
  {
    if e.Account? {
      AccountKeepsBooks(s, e.call);
    } else if e.CommitRelease? {
      ReleaseKeepsBooks(s, e.call);
    } else {
      OtherStepsKeepBooks(s, e);
    }
  }

  lemma AccountKeepsBooks(s: State, c: CallId)
    requires Inv(s) && Balanced(s) && Enabled(s, Account(c)) && KeepsBooks(s, Account(c))
    ensures Balanced(Apply(s, Account(c)))
  {
    assert Apply(s, Account(c)).used.Keys == s.used.Keys;
    forall h | h in s.used ensures Apply(s, Account(c)).used[h] == Owed(Apply(s, Account(c)), h) {
      AccountKeepsBook(s, c, h);
    }
  }

  lemma ReleaseKeepsBooks(s: State, c: CallId)
    requires Inv(s) && Balanced(s) && Enabled(s, CommitRelease(c)) && KeepsBooks(s, CommitRelease(c))
    ensures Balanced(Apply(s, CommitRelease(c)))
  {
    assert Apply(s, CommitRelease(c)).used.Keys == s.used.Keys;
    forall h | h in s.used ensures Apply(s, CommitRelease(c)).used[h] == Owed(Apply(s, CommitRelease(c)), h) {
      ReleaseKeepsBook(s, c, h);
    }
  }

  lemma OtherStepsKeepBooks(s: State, e: Event)
    requires Inv(s) && Balanced(s) && Enabled(s, e) && !e.Account? && !e.CommitRelease?
    ensures Balanced(Apply(s, e))
  {
    UsedSame(s, e);
    forall h | h in s.used ensures s.used[h] == Owed(Apply(s, e), h) {
      OtherStepsKeepBook(s, e, h);
    }
  }

  /** Over every interleaving, the books stay balanced at a step if and only if it keeps the books. */
  lemma BalancedIff(s: State, e: Event)
    requires Reachable(s) && Balanced(s) && Enabled(s, e)
    ensures Balanced(Apply(s, e)) <==> KeepsBooks(s, e)
  {
    ReachableInv(s);
    BalancedStepIff(s, e);
  }

  lemma BalancedStepIff(s: State, e: Event)
    requires Inv(s) && Balanced(s) && Enabled(s, e)
    ensures Balanced(Apply(s, e)) <==> KeepsBooks(s, e)
  {
    if KeepsBooks(s, e) {
      BalancedKept(s, e);
    } else if e.Account? {
      var h := s.calls[e.call].pc.host;
      assert WonBy(s, e.call, s.calls[e.call].req);
      AccountAdds(s, e.call, h);
      assert Apply(s, e).used[h] != s.used[h];
    } else {
      var h := s.calls[e.call].rpc.target.host;
      ReleaseTakes(s, e.call, h);
      assert Apply(s, e).used[h] != s.used[h];
    }
  }

  /** Every step of the run keeps the books. */
  ghost predicate KeepsBooksAlong(s: State, es: seq<Event>)
    requires Run(s, es).Some?
    decreases |es|
  {
    es == [] || (KeepsBooks(s, es[0]) && KeepsBooksAlong(Apply(s, es[0]), es[1..]))
  }

  /** The books are balanced in every state of the run. */
  ghost predicate BalancedAlong(s: State, es: seq<Event>)
    requires Run(s, es).Some?
    decreases |es|
  {
    Balanced(s) && (es != [] ==> BalancedAlong(Apply(s, es[0]), es[1..]))
  }

  lemma {:induction false} BalancedAlongIff(s: State, es: seq<Event>)
    requires Inv(s) && Balanced(s) && Run(s, es).Some?
    ensures BalancedAlong(s, es) <==> KeepsBooksAlong(s, es)
    ensures BalancedAlong(s, es) ==> Balanced(Run(s, es).value)
    decreases |es|
  {
    if es != [] {
      InvKept(s, es[0]);
      BalancedStepIff(s, es[0]);
      if KeepsBooks(s, es[0]) {
        BalancedAlongIff(Apply(s, es[0]), es[1..]);
      } else {
        NotBalancedAlong(Apply(s, es[0]), es[1..]);
      }
    }
  }

  lemma NotBalancedAlong(s: State, es: seq<Event>)
    requires Run(s, es).Some? && !Balanced(s)
    ensures !BalancedAlong(s, es)
  {
  }

  /** All along an interleaving from the empty system the books are balanced if and only if every step keeps them. */
  lemma BooksStayBalanced(hosts: set<HostId>, es: seq<Event>)
    requires Run(Init(hosts), es).Some?
    ensures BalancedAlong(Init(hosts), es) <==> KeepsBooksAlong(Init(hosts), es)
    ensures KeepsBooksAlong(Init(hosts), es) ==> Balanced(Run(Init(hosts), es).value)
  {
    InvInit(hosts);
    BalancedAlongIff(Init(hosts), es);
  }

  /** Releasing an accounted row, the clamp at zero never acts: the host has at least that much reserved. */
  lemma ClampNeverActs(s: State, c: CallId)
    requires Reachable(s) && Balanced(s) && Enabled(s, CommitRelease(c))
    requires Accounted(s, s.calls[c].req) && s.calls[c].rpc.target.host in s.used
    ensures var p := s.calls[c].rpc.target;
            && p.size.cpu <= s.used[p.host].cpu
            && p.size.ram <= s.used[p.host].ram
            && Apply(s, CommitRelease(c)).used[p.host].Plus(p.size) == s.used[p.host]
  {
    ReachableInv(s);
    ReleaseTakes(s, c, s.calls[c].rpc.target.host);
  }
}
