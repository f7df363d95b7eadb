/**
 * Host conservation over complete, non-overlapping calls, whatever the agents and the database
 * answer: every host's reservations are the sum of its assigned rows, until an accounting
 * transaction rolls back behind an assignment.
 */
module HostConservation {
  import opened Wrappers
  import opened EnvironmentProtocol
  import opened EnvironmentSafety
  import opened HostLedger
  import opened WholeCalls

  /** One call run to its end with no other call in between. */
  datatype WholeCall =
    | Inserts(req: RequestId, team: TeamId)
    | Tries(req: RequestId, plan: Plan, candidates: seq<HostId>, outcomes: seq<Outcome>, now: int, result: Option<Result>)
    | Releases(req: RequestId, team: TeamId, hasClient: bool, ok: bool)
    | Sweeps(cutoff: int)

  ghost predicate Does(s: State, call: WholeCall, t: State) {
    match call
    case Inserts(req, team) =>
      req !in s.requests && t.requests == s.requests[req := Request(team, Queued, None, None, 0, false)]
      && t.used == s.used && t.starts == s.starts
    case Tries(req, plan, candidates, outcomes, now, result) =>
      req in s.requests && |outcomes| == |candidates| && AssignsAlone(s, t, req, plan, candidates, outcomes, now, result)
    case Releases(req, team, hasClient, ok) => ReleasesAlone(s, t, req, team, hasClient, ok)
    case Sweeps(cutoff) =>
      t.requests == ReclaimRows(s.requests, cutoff) && t.used == s.used && t.starts == s.starts
  }

  ghost function RowsOn(s: State, h: HostId): set<RequestId> {
    set r | r in s.requests && s.requests[r].status == Assigned && s.requests[r].placement.Some?
            && s.requests[r].placement.value.host == h
  }

  /** cpu_used and ram_used_mb of every host are the sums over the rows assigned to it. */
  ghost predicate Conserved(s: State) {
    && RowsShape(s)
    && (forall h :: h in s.used ==> s.used[h] == SumSizes(s.requests, RowsOn(s, h)))
  }

  /** A row without a VM changed into another one without a VM. */
  lemma OtherRowsCount(s: State, t: State, h: HostId)
    requires Conserved(s) && RowsShape(t) && RowsOn(t, h) == RowsOn(s, h)
    requires forall r :: r in RowsOn(s, h) ==> r in t.requests && t.requests[r] == s.requests[r]
    ensures SumSizes(t.requests, RowsOn(t, h)) == SumSizes(s.requests, RowsOn(s, h))
  {
    SumSame(s.requests, t.requests, RowsOn(s, h));
  }

  lemma IdleRowConserves(s: State, t: State, req: RequestId, row: Request)
    requires Conserved(s) && t.requests == s.requests[req := row] && t.used == s.used
    requires RowShape(row) && row.status != Assigned
    requires req in s.requests ==> s.requests[req].status != Assigned
    ensures Conserved(t)
  {
    forall h | h in t.used ensures t.used[h] == SumSizes(t.requests, RowsOn(t, h)) {
      assert RowsOn(t, h) == RowsOn(s, h);
      OtherRowsCount(s, t, h);
    }
  }

  lemma AssignmentConserves(s: State, t: State, req: RequestId, row: Request)
    requires Conserved(s) && req in s.requests && s.requests[req].status != Assigned
    requires row.status == Assigned && row.placement.Some? && t.requests == s.requests[req := row]
    requires t.used == AddUsed(s.used, row.placement.value.host, row.placement.value.size)
    ensures Conserved(t)
  {
    var p := row.placement.value;
    forall h | h in t.used ensures t.used[h] == SumSizes(t.requests, RowsOn(t, h)) {
      if h == p.host {
        assert RowsOn(t, h) == RowsOn(s, h) + {req} && RowsOn(t, h) - {req} == RowsOn(s, h);
        SumTake(t.requests, RowsOn(t, h), req);
        SumSame(s.requests, t.requests, RowsOn(s, h));
      } else {
        assert RowsOn(t, h) == RowsOn(s, h);
        OtherRowsCount(s, t, h);
      }
    }
  }

  /** Releasing takes exactly what assigning added, and the clamp at zero has nothing to do. */
  lemma ReleaseConserves(s: State, t: State, req: RequestId)
    requires Conserved(s) && req in s.requests && s.requests[req].status == Assigned && s.requests[req].placement.Some?
    requires t.requests == s.requests[req := s.requests[req].(status := Released)]
    requires t.used == SubUsed(s.used, s.requests[req].placement.value.host, s.requests[req].placement.value.size)
    ensures Conserved(t)
    ensures var p := s.requests[req].placement.value;
            p.host in s.used ==> t.used[p.host].Plus(p.size) == s.used[p.host]
  {
    var p := s.requests[req].placement.value;
    forall h | h in t.used
      ensures t.used[h] == SumSizes(t.requests, RowsOn(t, h))
      ensures h == p.host ==> t.used[h].Plus(p.size) == s.used[h]
    {
      assert RowsOn(t, h) == RowsOn(s, h) - {req};
      SumSame(s.requests, t.requests, RowsOn(t, h));
      if h == p.host {
        SumTake(s.requests, RowsOn(s, h), req);
      } else {
        assert RowsOn(t, h) == RowsOn(s, h);
      }
    }
    assert forall r :: r in t.requests ==> RowShape(s.requests[r]);
  }

  /** An assignment whose size was not added: harmless only when it is nothing, or the host row is gone. */
  lemma UnchargedConservesIff(s: State, t: State, req: RequestId, row: Request)
    requires Conserved(s) && req in s.requests && s.requests[req].status != Assigned
    requires row.status == Assigned && row.placement.Some? && t.requests == s.requests[req := row] && t.used == s.used
    ensures var p := row.placement.value;
            Conserved(t) <==> p.size == NOTHING || p.host !in s.used
  {
    var p := row.placement.value;
    if p.size == NOTHING || p.host !in s.used {
      assert t.used == AddUsed(s.used, p.host, p.size);
      AssignmentConserves(s, t, req, row);
    } else if RowsShape(t) {
      var h := p.host;
      assert RowsOn(t, h) == RowsOn(s, h) + {req} && RowsOn(t, h) - {req} == RowsOn(s, h);
      SumTake(t.requests, RowsOn(t, h), req);
      SumSame(s.requests, t.requests, RowsOn(s, h));
    }
  }

  /**
   * The whole try in which the accounting transaction rolls back behind the assignment of a
   * non-empty environment on an existing host.
   */
  predicate RollsBack(s: State, call: WholeCall) {
    && call.Tries? && call.req in s.requests && |call.outcomes| == |call.candidates| && Granted(s, call.req, call.plan)
    && var c := NextCommit(call.outcomes, 0);
       && c < |call.outcomes| && call.outcomes[c].BootsThenAccountingErrors?
       && call.plan.size != NOTHING && call.candidates[c] in s.used
  }

  lemma PlacingConservesIff(s: State, t: State, req: RequestId, row: Request, plan: Plan, candidates: seq<HostId>,
                            outcomes: seq<Outcome>, result: Option<Result>)
    requires |outcomes| == |candidates| && req in s.requests && Conserved(s)
    requires s.requests[req].status == Queued && row.status == Assigning && row.claimedAt.Some? && row.placement == None
    requires PlacesAlone(s, t, req, row, plan, candidates, outcomes, result)
    ensures var c := NextCommit(outcomes, 0);
            Conserved(t) <==> c == |outcomes| || outcomes[c].Boots? || plan.size == NOTHING || candidates[c] !in s.used
  {
    var c := NextCommit(outcomes, 0);
    if candidates == [] || c == |outcomes| {
      IdleRowConserves(s, t, req, t.requests[req]);
    } else if outcomes[c].Boots? {
      AssignmentConserves(s, t, req, t.requests[req]);
    } else {
      UnchargedConservesIff(s, t, req, t.requests[req]);
    }
  }

  lemma TryConservesIff(s: State, t: State, call: WholeCall)
    requires call.Tries? && Conserved(s) && Does(s, call, t)
    ensures Conserved(t) <==> !RollsBack(s, call)
  {
    var row := s.requests[call.req];
    assert RowShape(row);
    if Granted(s, call.req, call.plan) {
      PlacingConservesIff(s, t, call.req, row.(status := Assigning, claimedAt := Some(call.now)), call.plan,
                          call.candidates, call.outcomes, call.result);
    } else {
      SameRowsConserve(s, t);
    }
  }

  /** Stamping a refusal, or taking back stale claims, moves no VM. */
  lemma SameRowsConserve(s: State, t: State)
    requires Conserved(s) && t.used == s.used && t.requests.Keys == s.requests.Keys
    requires forall r :: r in s.requests ==>
               && RowShape(t.requests[r])
               && t.requests[r].placement == s.requests[r].placement
               && (t.requests[r].status == Assigned <==> s.requests[r].status == Assigned)
    ensures Conserved(t)
  {
    forall h | h in t.used ensures t.used[h] == SumSizes(t.requests, RowsOn(t, h)) {
      assert RowsOn(t, h) == RowsOn(s, h);
      SumSame(s.requests, t.requests, RowsOn(s, h));
    }
  }

  /** A whole call keeps the sums if and only if it is not such a try. */
  lemma WholeCallConservesIff(s: State, call: WholeCall, t: State)
    requires Conserved(s) && Does(s, call, t)
    ensures Conserved(t) <==> !RollsBack(s, call)
  {
    match call
    case Inserts(req, team) => IdleRowConserves(s, t, req, t.requests[req]);
    case Tries(_, _, _, _, _, _) => TryConservesIff(s, t, call);
    case Releases(req, team, hasClient, ok) =>
      if ok {
        assert RowShape(s.requests[req]);
        if s.requests[req].status == Assigned {
          ReleaseConserves(s, t, req);
        } else {
          IdleRowConserves(s, t, req, t.requests[req]);
        }
      }
    case Sweeps(cutoff) =>
      assert forall r :: r in s.requests ==> RowShape(s.requests[r]);
      SameRowsConserve(s, t);
  }

  /** A run of whole calls through the given states, from the empty system. */
  ghost predicate WholeRun(hosts: set<HostId>, calls: seq<WholeCall>, states: seq<State>) {
    && |states| == |calls| + 1 && states[0] == Init(hosts)
    && forall i :: 0 <= i < |calls| ==> Does(states[i], calls[i], states[i + 1])
  }

  /** None of the first n calls rolls back. */
  ghost predicate NoneRollsBack(calls: seq<WholeCall>, states: seq<State>, n: nat)
    requires n <= |calls| < |states|
  {
    forall i :: 0 <= i < n ==> !RollsBack(states[i], calls[i])
  }

  ghost predicate ConservedUpTo(states: seq<State>, n: nat)
    requires n < |states|
  {
    forall i :: 0 <= i <= n ==> Conserved(states[i])
  }

  lemma {:induction false} ConservedUpToIff(hosts: set<HostId>, calls: seq<WholeCall>, states: seq<State>, n: nat)
    requires WholeRun(hosts, calls, states) && n <= |calls|
    ensures ConservedUpTo(states, n) <==> NoneRollsBack(calls, states, n)
    decreases n
  {
    if n > 0 {
      ConservedUpToIff(hosts, calls, states, n - 1);
      if ConservedUpTo(states, n - 1) {
        assert Does(states[n - 1], calls[n - 1], states[n - 1 + 1]);
        WholeCallConservesIff(states[n - 1], calls[n - 1], states[n]);
        StepUp(calls, states, n);
      } else {
        assert !ConservedUpTo(states, n);
      }
    } else {
      assert Conserved(states[0]);
    }
  }

  lemma StepUp(calls: seq<WholeCall>, states: seq<State>, n: nat)
    requires 0 < n <= |calls| < |states| && ConservedUpTo(states, n - 1) && NoneRollsBack(calls, states, n - 1)
    requires Conserved(states[n]) <==> !RollsBack(states[n - 1], calls[n - 1])
    ensures ConservedUpTo(states, n) <==> NoneRollsBack(calls, states, n)
  {
  }

  /** The sums hold all along a run of whole calls if and only if none of its tries rolls back. */
  lemma HostsConservedIff(hosts: set<HostId>, calls: seq<WholeCall>, states: seq<State>)
    requires WholeRun(hosts, calls, states)
    ensures ConservedUpTo(states, |calls|) <==> NoneRollsBack(calls, states, |calls|)
  {
    ConservedUpToIff(hosts, calls, states, |calls|);
  }

  /** After any run of whole calls in which no accounting transaction rolls back, every host's sums are exact. */
  lemma HostsConserved(hosts: set<HostId>, calls: seq<WholeCall>, states: seq<State>)
    requires WholeRun(hosts, calls, states)
    requires forall i, k :: 0 <= i < |calls| && calls[i].Tries? && 0 <= k < |calls[i].outcomes| ==>
               !calls[i].outcomes[k].BootsThenAccountingErrors?
    ensures Conserved(states[|calls|])
  {
    HostsConservedIff(hosts, calls, states);
  }
}
