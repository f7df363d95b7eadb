/** Seat billing: src/lib/pricing.ts, src/lib/seats.ts and the statements of src/scheduler/seatSync.ts. */
module SeatSpec {
  import opened Wrappers

  type TeamId = nat
  type SubscriptionId = string
  type ItemId = string

  const MAX_PER_TICK: nat := 50

  datatype Plan = Plan(chfPerSeatMonthly: int, includedSeats: int)

  datatype Team = Team(members: nat, plan: Plan)

  datatype Status = Active | Trialing | PastDue | Canceled | Incomplete

  /** A subscriptions row. */
  datatype Subscription = Subscription(
    stripeId: Option<SubscriptionId>,
    status: Status,
    seatQuantity: Option<int>,
    seatItemId: Option<ItemId>,
    seatSyncedAt: Option<int>)

  /** The tables, and what Stripe holds: the items of each subscription and the quantity of each item. */
  datatype World = World(
    teams: map<TeamId, Team>,
    subs: map<TeamId, Subscription>,
    items: map<SubscriptionId, seq<ItemId>>,
    quantities: map<ItemId, int>)

  function BillableSeats(plan: Plan, seats: int): int {
    if seats - plan.includedSeats > 0 then seats - plan.includedSeats else 0
  }

  function Billable(t: Team): int {
    BillableSeats(t.plan, t.members)
  }

  function OrElse(q: Option<int>, default: int): int {
    if q.Some? then q.value else default
  }

  function SeatDrift(t: Team, s: Subscription): int {
    if s.stripeId.None? then 0 else Billable(t) - OrElse(s.seatQuantity, 0)
  }

  // ----- pushSeats

  datatype Outcome = Noop | Synced | Failed

  /** Which of its queries and remote calls goes wrong, if any, in their order. */
  datatype Luck = AllWell | StateFails | ItemReadFails | RetrieveFails | RememberFails | UpdateFails | RecordFails

  /** The update of the seat item and of the row, once the item is known. */
  function Billed(w: World, team: TeamId, item: ItemId, billable: int, luck: Luck, now: int): (World, Outcome)
    requires team in w.subs
  {
    if luck.UpdateFails? then (w, Failed)
    else
      var w := w.(quantities := w.quantities[item := billable]);
      if luck.RecordFails? then (w, Failed)
      else
        var row := w.subs[team].(seatQuantity := Some(billable), seatItemId := Some(item), seatSyncedAt := Some(now));
        (w.(subs := w.subs[team := row]), Synced)
  }

  function PushSeats(w: World, team: TeamId, luck: Luck, now: int): (World, Outcome) {
    if luck.StateFails? then (w, Failed)
    else if team !in w.teams || team !in w.subs || w.subs[team].stripeId.None? then (w, Noop)
    else if SeatDrift(w.teams[team], w.subs[team]) == 0 then (w, Noop)
    else
      var sub := w.subs[team];
      var billable := Billable(w.teams[team]);
      if luck.ItemReadFails? then (w, Failed)
      else if sub.seatItemId.Some? then Billed(w, team, sub.seatItemId.value, billable, luck, now)
      else if luck.RetrieveFails? || sub.stripeId.value !in w.items then (w, Failed)
      else if |w.items[sub.stripeId.value]| != 2 then (w, Noop)
      else if luck.RememberFails? then (w, Failed)
      else
        var item := w.items[sub.stripeId.value][1];
        Billed(w.(subs := w.subs[team := sub.(seatItemId := Some(item))]), team, item, billable, luck, now)
  }

  // ----- reconcileSeats

  predicate Billing(status: Status) {
    status.Active? || status.Trialing? || status.PastDue?
  }

  /** The WHERE clause of the candidate query. */
  predicate Candidate(w: World, team: TeamId) {
    && team in w.teams && team in w.subs
    && w.teams[team].plan.chfPerSeatMonthly > 0
    && Billing(w.subs[team].status)
    && Billable(w.teams[team]) != OrElse(w.subs[team].seatQuantity, -1)
  }

  function Candidates(w: World): set<TeamId> {
    set team | team in w.subs && Candidate(w, team)
  }

  /** ORDER BY seat_synced_at NULLS FIRST */
  predicate SyncedBefore(a: Option<int>, b: Option<int>) {
    a.None? || (b.Some? && a.value <= b.value)
  }

  /** An answer of the candidate query: ordered, at most 50, none left out for a later one. */
  ghost predicate IsBatch(w: World, batch: seq<TeamId>) {
    && (forall i :: 0 <= i < |batch| ==> Candidate(w, batch[i]))
    && (forall i, j :: 0 <= i < j < |batch| ==>
          batch[i] != batch[j] && SyncedBefore(w.subs[batch[i]].seatSyncedAt, w.subs[batch[j]].seatSyncedAt))
    && |batch| == (if |Candidates(w)| < MAX_PER_TICK then |Candidates(w)| else MAX_PER_TICK)
    && (forall i, team :: 0 <= i < |batch| && Candidate(w, team) && team !in batch ==>
          SyncedBefore(w.subs[batch[i]].seatSyncedAt, w.subs[team].seatSyncedAt))
  }

  /** The world after the batch. */
  function Reconciled(w: World, batch: seq<TeamId>, lucks: seq<Luck>, now: int): World
    requires |lucks| == |batch|
  {
    if batch == [] then w
    else
      var n := |batch| - 1;
      PushSeats(Reconciled(w, batch[..n], lucks[..n], now), batch[n], lucks[n], now).0
  }

  /** How many of the batch came out that way. */
  function OutcomeCount(w: World, batch: seq<TeamId>, lucks: seq<Luck>, now: int, o: Outcome): nat
    requires |lucks| == |batch|
  {
    if batch == [] then 0
    else
      var n := |batch| - 1;
      OutcomeCount(w, batch[..n], lucks[..n], now, o) +
      if PushSeats(Reconciled(w, batch[..n], lucks[..n], now), batch[n], lucks[n], now).1 == o then 1 else 0
  }
}
