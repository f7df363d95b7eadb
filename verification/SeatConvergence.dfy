/** Pushing zeroes drift, the candidate query misses no drifted team, and ticks converge. */
module SeatConvergence {
  import opened Wrappers
  import opened SeatSpec
  import opened Sets

  // ----- what a push and the query are, in the terms of the tables

  /** The seats beyond those the plan includes. */
  function Seats(t: Team): (r: int)
    ensures r >= 0 && r >= t.members - t.plan.includedSeats && (r == 0 || r == t.members - t.plan.includedSeats)
  {
    if t.members <= t.plan.includedSeats then 0 else t.members - t.plan.includedSeats
  }

  lemma BilledAreTheSeats(t: Team, s: Subscription)
    ensures Billable(t) == Seats(t)
    ensures SeatDrift(t, s) == match s
                               case Subscription(Some(_), _, Some(q), _, _) => Seats(t) - q
                               case Subscription(Some(_), _, None, _, _) => Seats(t)
                               case _ => 0
  {
  }

  /** The team has a Stripe subscription whose stored quantity, none being zero, is not its seats. */
  predicate Owes(w: World, team: TeamId) {
    && team in w.teams && team in w.subs && w.subs[team].stripeId.Some?
    && match w.subs[team].seatQuantity
       case Some(q) => q != Seats(w.teams[team])
       case None => 0 != Seats(w.teams[team])
  }

  predicate HasTwoItems(w: World, team: TeamId)
    requires team in w.subs && w.subs[team].stripeId.Some?
  {
    w.subs[team].stripeId.value in w.items && |w.items[w.subs[team].stripeId.value]| == 2
  }

  /** Where a push fails, of the calls it comes to. */
  predicate PushFails(w: World, team: TeamId, luck: Luck) {
    match luck
    case AllWell => Owes(w, team) && w.subs[team].seatItemId.None? && w.subs[team].stripeId.value !in w.items
    case StateFails => true
    case ItemReadFails => Owes(w, team)
    case RetrieveFails => Owes(w, team) && w.subs[team].seatItemId.None?
    case RememberFails =>
      && Owes(w, team) && w.subs[team].seatItemId.None?
      && (w.subs[team].stripeId.value !in w.items || HasTwoItems(w, team))
    case _ => Owes(w, team) && (w.subs[team].seatItemId.Some? || w.subs[team].stripeId.value !in w.items || HasTwoItems(w, team))
  }

  /** The outcome of a push, exactly; and a synced one bills the seats on the team's item and stores them. */
  lemma PushOutcome(w: World, team: TeamId, luck: Luck, now: int)
    ensures var (w', outcome) := PushSeats(w, team, luck, now);
            && (outcome == Failed <==> PushFails(w, team, luck))
            && (outcome == Synced <==>
                  && !PushFails(w, team, luck) && Owes(w, team)
                  && (w.subs[team].seatItemId.Some? || HasTwoItems(w, team)))
            && (outcome == Synced ==>
                  var item := if w.subs[team].seatItemId.Some? then w.subs[team].seatItemId.value
                              else w.items[w.subs[team].stripeId.value][1];
                  && w'.quantities == w.quantities[item := Seats(w.teams[team])]
                  && w'.subs == w.subs[team := Subscription(w.subs[team].stripeId, w.subs[team].status,
                                                            Some(Seats(w.teams[team])), Some(item), Some(now))])
            && (outcome == Noop ==> w' == w)
            && (outcome == Failed && !luck.RecordFails? ==> w'.quantities == w.quantities)
  {
    if team in w.teams && team in w.subs {
      BilledAreTheSeats(w.teams[team], w.subs[team]);
    }
  }

  /** The candidate query, column by column. */
  lemma CandidateIff(w: World, team: TeamId)
    ensures Candidate(w, team) <==>
            && team in w.teams && team in w.subs
            && w.teams[team].plan.chfPerSeatMonthly > 0
            && (w.subs[team].status == Active || w.subs[team].status == Trialing || w.subs[team].status == PastDue)
            && (match w.subs[team].seatQuantity
                case Some(q) => q != Seats(w.teams[team])
                case None => true)
  {
    if team in w.teams && team in w.subs {
      BilledAreTheSeats(w.teams[team], w.subs[team]);
    }
  }

  /** A candidate left that no other one left comes strictly before. */
  lemma {:induction false} Earliest(w: World, left: set<TeamId>) returns (team: TeamId)
    requires left != {} && left <= Candidates(w)
    ensures team in left && forall other <- left :: SyncedBefore(w.subs[team].seatSyncedAt, w.subs[other].seatSyncedAt)
    decreases |left|
  {
    team :| team in left;
    if left != {team} {
      var rest := Earliest(w, left - {team});
      assert forall other <- left :: other == team || other in left - {team};
      if !SyncedBefore(w.subs[team].seatSyncedAt, w.subs[rest].seatSyncedAt) {
        team := rest;
      }
    }
  }

  /** The query always has an answer. */
  lemma BatchExists(w: World) returns (batch: seq<TeamId>)
    ensures IsBatch(w, batch)
  {
    batch := [];
    var left := Candidates(w);
    while |batch| < 50 && left != {}
      invariant |batch| <= 50 && left <= Candidates(w) && |batch| + |left| == |Candidates(w)|
      invariant forall i :: 0 <= i < |batch| ==> Candidate(w, batch[i]) && batch[i] !in left
      invariant forall i, j :: 0 <= i < j < |batch| ==>
                  batch[i] != batch[j] && SyncedBefore(w.subs[batch[i]].seatSyncedAt, w.subs[batch[j]].seatSyncedAt)
      invariant forall team <- Candidates(w) :: team in batch || team in left
      invariant forall i, team :: 0 <= i < |batch| && team in left ==>
                  SyncedBefore(w.subs[batch[i]].seatSyncedAt, w.subs[team].seatSyncedAt)
      decreases |left|
    {
      var next := Earliest(w, left);
      batch, left := batch + [next], left - {next};
    }
  }

  /** Every push of a batch has one outcome. */
  lemma {:induction false} OutcomesAddUp(w: World, batch: seq<TeamId>, lucks: seq<Luck>, now: int)
    requires |lucks| == |batch|
    ensures OutcomeCount(w, batch, lucks, now, Noop) + OutcomeCount(w, batch, lucks, now, Synced)
          + OutcomeCount(w, batch, lucks, now, Failed) == |batch|
    decreases |batch|
  {
    if batch != [] {
      var n := |batch| - 1;
      OutcomesAddUp(w, batch[..n], lucks[..n], now);
    }
  }

  // ----- one push

  /** A push that Stripe can carry out. */
  predicate Fixable(w: World, team: TeamId) {
    && team in w.teams && team in w.subs
    && SeatDrift(w.teams[team], w.subs[team]) != 0
    && var sub := w.subs[team];
       sub.seatItemId.Some? || (sub.stripeId.value in w.items && |w.items[sub.stripeId.value]| == 2)
  }

  /** When the calls succeed, a push syncs exactly the fixable teams and touches nothing else. */
  lemma PushFixes(w: World, team: TeamId, now: int)
    requires team in w.teams && team in w.subs
    ensures var (w', outcome) := PushSeats(w, team, AllWell, now);
            && (outcome == Synced <==> Fixable(w, team))
            && (outcome != Synced ==> w' == w)
            && (outcome == Synced ==>
                  && SeatDrift(w'.teams[team], w'.subs[team]) == 0
                  && w'.subs[team].seatQuantity == Some(Billable(w.teams[team]))
                  && w'.subs[team].seatItemId.Some?
                  && w'.quantities == w.quantities[w'.subs[team].seatItemId.value := Billable(w.teams[team])]
                  && !Candidate(w', team))
            && w'.teams == w.teams && w'.items == w.items && w'.subs.Keys == w.subs.Keys
            && (forall other <- w.subs :: other != team ==> w'.subs[other] == w.subs[other])
  {
  }

  /** A team without drift keeps its row through a push of any team, however its calls go. */
  lemma PushLeavesSettled(w: World, pushed: TeamId, luck: Luck, now: int, team: TeamId)
    requires team in w.teams && team in w.subs && SeatDrift(w.teams[team], w.subs[team]) == 0
    ensures var w' := PushSeats(w, pushed, luck, now).0;
            && w'.teams == w.teams && team in w'.subs && w'.subs[team] == w.subs[team]
            && (pushed == team ==> w' == w)
  {
  }

  lemma {:induction false} SettledStays(w: World, batch: seq<TeamId>, lucks: seq<Luck>, now: int, team: TeamId)
    requires |lucks| == |batch|
    requires team in w.teams && team in w.subs && SeatDrift(w.teams[team], w.subs[team]) == 0
    ensures var w' := Reconciled(w, batch, lucks, now);
            w'.teams == w.teams && team in w'.subs && w'.subs[team] == w.subs[team]
    decreases |batch|
  {
    if batch != [] {
      var n := |batch| - 1;
      SettledStays(w, batch[..n], lucks[..n], now, team);
      PushLeavesSettled(Reconciled(w, batch[..n], lucks[..n], now), batch[n], lucks[n], now, team);
    }
  }

  /**
   * Pushing again changes nothing, and the synced row stays through any list of later pushes of
   * any teams, however their calls go.
   */
  lemma PushIsIdempotent(w: World, team: TeamId, luck: Luck, now: int, later: int, batch: seq<TeamId>, lucks: seq<Luck>)
    requires PushSeats(w, team, AllWell, now).1 == Synced && |lucks| == |batch|
    ensures var w' := PushSeats(w, team, AllWell, now).0;
            && PushSeats(w', team, luck, later) == (w', if luck.StateFails? then Failed else Noop)
            && team in w'.subs && team in Reconciled(w', batch, lucks, later).subs
            && Reconciled(w', batch, lucks, later).subs[team] == w'.subs[team]
  {
    SettledStays(PushSeats(w, team, AllWell, now).0, batch, lucks, later, team);
  }

  /**
   * A push that fails, wherever it does, leaves every row's quantity as it was, and so the drift
   * and the candidates for the reconciler; unless it failed to read, there was drift.
   */
  lemma FailedPushKeepsDrift(w: World, team: TeamId, luck: Luck, now: int)
    requires PushSeats(w, team, luck, now).1 == Failed
    ensures var w' := PushSeats(w, team, luck, now).0;
            && w'.teams == w.teams && w'.items == w.items && w'.subs.Keys == w.subs.Keys
            && (forall t <- w.subs :: w'.subs[t] == w.subs[t].(seatItemId := w'.subs[t].seatItemId))
            && (forall t :: Candidate(w, t) <==> Candidate(w', t))
            && (!luck.StateFails? ==> team in w.teams && team in w.subs && SeatDrift(w'.teams[team], w'.subs[team]) != 0)
  {
  }

  // ----- the candidate query

  /** A row the query compares: a per-seat plan and a billing status. */
  predicate Compared(w: World, team: TeamId) {
    && team in w.teams && team in w.subs
    && w.teams[team].plan.chfPerSeatMonthly > 0 && Billing(w.subs[team].status)
  }

  /**
   * The query finds every drifted team; the others it finds are exactly those without a Stripe
   * subscription whose stored quantity differs, and those with no billable seat and no quantity.
   */
  lemma CandidatesAreTheDrifted(w: World, team: TeamId)
    requires Compared(w, team)
    ensures var t, s := w.teams[team], w.subs[team];
            && (SeatDrift(t, s) != 0 ==> Candidate(w, team))
            && (Candidate(w, team) && SeatDrift(t, s) == 0 <==>
                  || (s.stripeId.None? && Billable(t) != OrElse(s.seatQuantity, -1))
                  || (s.stripeId.Some? && Billable(t) == 0 && s.seatQuantity.None?))
  {
  }

  /** Those extra candidates are never fixed: no list of pushes, however its calls go, changes one, so it stays a candidate. */
  lemma ExtraCandidatesStay(w: World, batch: seq<TeamId>, lucks: seq<Luck>, now: int, team: TeamId)
    requires |lucks| == |batch| && Candidate(w, team) && SeatDrift(w.teams[team], w.subs[team]) == 0
    ensures var w' := Reconciled(w, batch, lucks, now);
            && Candidate(w', team) && w'.subs[team] == w.subs[team]
            && SeatDrift(w'.teams[team], w'.subs[team]) == 0
  {
    SettledStays(w, batch, lucks, now, team);
  }

  // ----- ticks

  function FixableCandidates(w: World): set<TeamId> {
    set team | team in w.subs && Candidate(w, team) && Fixable(w, team)
  }

  function StuckCandidates(w: World): set<TeamId> {
    set team | team in w.subs && Candidate(w, team) && !Fixable(w, team)
  }

  function Fine(n: nat): (lucks: seq<Luck>)
    ensures |lucks| == n && forall i :: 0 <= i < n ==> lucks[i] == AllWell
  {
    if n == 0 then [] else Fine(n - 1) + [AllWell]
  }

  function Tick(w: World, batch: seq<TeamId>, now: int): World {
    Reconciled(w, batch, Fine(|batch|), now)
  }

  /** Pushing a list of teams fixes exactly its fixable ones. */
  lemma {:induction false} TickFixes(w: World, batch: seq<TeamId>, now: int)
    requires forall i :: 0 <= i < |batch| ==> batch[i] in w.teams && batch[i] in w.subs
    ensures var w' := Tick(w, batch, now);
            && w'.teams == w.teams && w'.items == w.items && w'.subs.Keys == w.subs.Keys
            && (forall team <- w.subs ::
                  if team in batch && Fixable(w, team) then !Candidate(w', team) && !Fixable(w', team)
                  else w'.subs[team] == w.subs[team])
    decreases |batch|
  {
    if batch != [] {
      var n := |batch| - 1;
      TickFixes(w, batch[..n], now);
      var v := Tick(w, batch[..n], now);
      assert Fine(n + 1)[..n] == Fine(n);
      PushFixes(v, batch[n], now);
      forall team <- w.subs
        ensures var w' := Tick(w, batch, now);
                if team in batch && Fixable(w, team) then !Candidate(w', team) && !Fixable(w', team)
                else w'.subs[team] == w.subs[team]
      {
        assert team in batch <==> team in batch[..n] || team == batch[n];
      }
    }
  }

  /** What a tick leaves: the stuck candidates, and the fixable ones that were not in its batch. */
  lemma TickLeaves(w: World, batch: seq<TeamId>, now: int)
    requires IsBatch(w, batch)
    ensures StuckCandidates(Tick(w, batch, now)) == StuckCandidates(w)
    ensures FixableCandidates(Tick(w, batch, now)) == FixableCandidates(w) - Elements(batch)
  {
    TickFixes(w, batch, now);
    var w' := Tick(w, batch, now);
    forall team <- w.subs
      ensures team in StuckCandidates(w') <==> team in StuckCandidates(w)
      ensures team in FixableCandidates(w') <==> team in FixableCandidates(w) && team !in batch
    {
    }
  }

  function Min(a: int, b: int): int {
    if a < b then a else b
  }

  /** With d fixable and k < 50 stuck candidates, a tick fixes at least min(d, 50 - k) teams. */
  lemma TickProgress(w: World, batch: seq<TeamId>, now: int)
    requires IsBatch(w, batch) && |StuckCandidates(w)| < 50
    ensures |FixableCandidates(Tick(w, batch, now))| <=
            |FixableCandidates(w)| - Min(|FixableCandidates(w)|, 50 - |StuckCandidates(w)|)
  {
    var d, k, b := FixableCandidates(w), StuckCandidates(w), Elements(batch);
    TickLeaves(w, batch, now);
    ElementsSize(batch);
    assert Candidates(w) == d + k;
    assert b <= d + k;
    LeftOver(d, k, b);
  }

  lemma LeftOver(d: set<TeamId>, k: set<TeamId>, b: set<TeamId>)
    requires d !! k && b <= d + k && |k| < 50 && |b| == Min(|d + k|, 50)
    ensures |d - b| <= |d| - Min(|d|, 50 - |k|)
  {
    if |d + k| < 50 {
      FullBatch(b, d + k);
      assert d - b == {};
    } else {
      assert b == (b * d) + (b * k);
      SubsetSize(b * k, k);
      assert d == (d - b) + (b * d);
    }
  }

  lemma FullBatch(b: set<TeamId>, c: set<TeamId>)
    requires b <= c && |b| == |c|
    ensures b == c
  {
    if x :| x in c && x !in b {
      SubsetSize(b, c - {x});
    }
  }

  /** n successive ticks in which Stripe succeeds and nobody joins, leaves or changes plan. */
  ghost predicate Ticks(w: World, n: nat, t: World)
    decreases n
  {
    if n == 0 then t == w
    else exists batch, now :: IsBatch(w, batch) && Ticks(Tick(w, batch, now), n - 1, t)
  }

  /** n times the gap. */
  function Places(n: nat, gap: int): int {
    if n == 0 then 0 else Places(n - 1, gap) + gap
  }

  lemma {:induction false} PlacesAdd(n: nat, gap: int)
    ensures Places(n, gap) == n * gap
  {
    if n > 0 {
      PlacesAdd(n - 1, gap);
      assert n * gap == (n - 1) * gap + gap;
    }
  }

  lemma OneTick(w: World, batch: seq<TeamId>, now: int, gap: int)
    requires IsBatch(w, batch) && gap == 50 - |StuckCandidates(w)| > 0
    ensures StuckCandidates(Tick(w, batch, now)) == StuckCandidates(w)
    ensures |FixableCandidates(Tick(w, batch, now))| <= |FixableCandidates(w)| - Min(|FixableCandidates(w)|, gap)
  {
    TickLeaves(w, batch, now);
    TickProgress(w, batch, now);
  }

  lemma FewerLeft(d: int, left: int, last: int, places: int, gap: int)
    requires 0 <= left <= d - Min(d, gap) && last <= left - Min(left, places) && places >= 0 && gap > 0
    ensures last <= d - Min(d, places + gap)
  {
  }

  /** With fewer than 50 stuck candidates, n ticks fix at least n times what one does, or all of them. */
  lemma {:induction false} TicksProgress(w: World, n: nat, t: World, gap: int)
    requires Ticks(w, n, t) && gap == 50 - |StuckCandidates(w)| > 0
    ensures StuckCandidates(t) == StuckCandidates(w) && Places(n, gap) >= 0
    ensures |FixableCandidates(t)| <= |FixableCandidates(w)| - Min(|FixableCandidates(w)|, Places(n, gap))
    decreases n
  {
    if n > 0 {
      var batch, now :| IsBatch(w, batch) && Ticks(Tick(w, batch, now), n - 1, t);
      OneTick(w, batch, now, gap);
      var next := Tick(w, batch, now);
      TicksProgress(next, n - 1, t, gap);
      FewerLeft(|FixableCandidates(w)|, |FixableCandidates(next)|, |FixableCandidates(t)|, Places(n - 1, gap), gap);
    }
  }

  /** So once n * (50 - k) reaches d, no fixable team is left. */
  lemma DriftReachesZero(w: World, n: nat, t: World)
    requires Ticks(w, n, t) && |StuckCandidates(w)| < 50
    requires n * (50 - |StuckCandidates(w)|) >= |FixableCandidates(w)|
    ensures FixableCandidates(t) == {} && Candidates(t) == StuckCandidates(w)
  {
    var gap := 50 - |StuckCandidates(w)|;
    PlacesAdd(n, gap);
    EnoughPlaces(w, n, t, gap);
  }

  lemma EnoughPlaces(w: World, n: nat, t: World, gap: int)
    requires Ticks(w, n, t) && gap == 50 - |StuckCandidates(w)| > 0 && Places(n, gap) >= |FixableCandidates(w)|
    ensures FixableCandidates(t) == {} && Candidates(t) == StuckCandidates(w)
  {
    TicksProgress(w, n, t, gap);
    CandidatesSplit(t);
  }

  lemma CandidatesSplit(w: World)
    ensures Candidates(w) == FixableCandidates(w) + StuckCandidates(w)
    ensures |FixableCandidates(w)| <= 0 ==> Candidates(w) == StuckCandidates(w)
  {
  }

  /**
   * Fifty stuck candidates that were never synced starve every team that once was: each batch
   * is made of stuck ones only, and the tick changes nothing.
   */
  lemma FiftyStuckStarve(w: World, batch: seq<TeamId>, now: int)
    requires IsBatch(w, batch)
    requires |NeverSyncedStuck(w)| >= 50
    requires forall team <- FixableCandidates(w) :: w.subs[team].seatSyncedAt.Some?
    ensures FixableCandidates(Tick(w, batch, now)) == FixableCandidates(w)
  {
    TickLeaves(w, batch, now);
    forall team <- FixableCandidates(w) ensures team !in Elements(batch) {
      OnlyStuck(w, batch, team);
    }
  }

  lemma OnlyStuck(w: World, batch: seq<TeamId>, team: TeamId)
    requires IsBatch(w, batch) && |NeverSyncedStuck(w)| >= 50
    requires team in FixableCandidates(w) && w.subs[team].seatSyncedAt.Some?
    ensures team !in batch
  {
    if team in batch {
      NullsFirst(w, batch, team);
      ElementsSize(batch);
      SubsetSize(NeverSyncedStuck(w), Elements(batch) - {team});
      assert false;
    }
  }

  /** A synced team is in the batch only after every never-synced candidate. */
  lemma NullsFirst(w: World, batch: seq<TeamId>, team: TeamId)
    requires IsBatch(w, batch) && team in batch && team in FixableCandidates(w) && w.subs[team].seatSyncedAt.Some?
    ensures NeverSyncedStuck(w) <= Elements(batch) - {team}
  {
    forall other <- NeverSyncedStuck(w) ensures other in Elements(batch) - {team} {
      var i :| 0 <= i < |batch| && batch[i] == team;
      LeftOutIsLater(w, batch, i, other);
    }
  }

  lemma LeftOutIsLater(w: World, batch: seq<TeamId>, i: nat, other: TeamId)
    requires IsBatch(w, batch) && i < |batch| && Candidate(w, other)
    ensures other in batch || SyncedBefore(w.subs[batch[i]].seatSyncedAt, w.subs[other].seatSyncedAt)
  {
  }

  function NeverSyncedStuck(w: World): set<TeamId> {
    set team | team in w.subs && Candidate(w, team) && !Fixable(w, team) && w.subs[team].seatSyncedAt.None?
  }
}
