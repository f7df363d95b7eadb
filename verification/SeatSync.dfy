/** pushSeats and reconcileSeats as they are written, over the mutable tables and Stripe. */
module SeatSync {
  import opened Wrappers
  import opened SeatSpec

  class SeatBook {
    var teams: map<TeamId, Team>
    var subs: map<TeamId, Subscription>
    var items: map<SubscriptionId, seq<ItemId>>
    var quantities: map<ItemId, int>

    function Now(): World
      reads this
    {
      World(teams, subs, items, quantities)
    }

    constructor (w: World)
      ensures Now() == w
    {
      teams, subs, items, quantities := w.teams, w.subs, w.items, w.quantities;
    }

    /** Finds the seat item of a subscription and remembers it; None when there is nothing to guess from. */
    method DiscoverSeatItem(team: TeamId, stripeId: SubscriptionId, luck: Luck) returns (threw: bool, item: Option<ItemId>)
      requires team in subs
      modifies this`subs
      ensures threw <==> luck.RetrieveFails? || stripeId !in items || (luck.RememberFails? && |items[stripeId]| == 2)
      ensures item.Some? <==> !threw && |items[stripeId]| == 2
      ensures item.Some? ==> item.value == items[stripeId][1]
      ensures subs == if item.Some? then old(subs)[team := old(subs)[team].(seatItemId := item)] else old(subs)
    {
      if luck.RetrieveFails? || stripeId !in items {
        return true, None;
      }
      var data := items[stripeId];
      if |data| != 2 {
        return false, None;
      }
      if luck.RememberFails? {
        return true, None;
      }
      subs := subs[team := subs[team].(seatItemId := Some(data[1]))];
      return false, Some(data[1]);
    }

    method Push(team: TeamId, luck: Luck, now: int) returns (outcome: Outcome)
      modifies this`subs, this`quantities
      ensures (Now(), outcome) == PushSeats(old(Now()), team, luck, now)
    {
      if luck.StateFails? {
        return Failed;
      }
      if team !in teams || team !in subs || subs[team].stripeId.None? {
        return Noop;
      }
      if SeatDrift(teams[team], subs[team]) == 0 {
        return Noop;
      }
      var billable := Billable(teams[team]);
      if luck.ItemReadFails? {
        return Failed;
      }
      var itemId := subs[team].seatItemId;
      if itemId.None? {
        var threw;
        threw, itemId := DiscoverSeatItem(team, subs[team].stripeId.value, luck);
        if threw {
          return Failed;
        }
        if itemId.None? {
          return Noop;
        }
      }
      if luck.UpdateFails? {
        return Failed;
      }
      quantities := quantities[itemId.value := billable];
      if luck.RecordFails? {
        return Failed;
      }
      subs := subs[team := subs[team].(seatQuantity := Some(billable), seatItemId := itemId, seatSyncedAt := Some(now))];
      return Synced;
    }

    method ReconcileSeats(batch: seq<TeamId>, lucks: seq<Luck>, now: int) returns (checked: nat, synced: nat, failed: nat)
      requires IsBatch(Now(), batch) && |lucks| == |batch|
      modifies this`subs, this`quantities
      ensures Now() == Reconciled(old(Now()), batch, lucks, now)
      ensures checked == |batch|
      ensures synced == OutcomeCount(old(Now()), batch, lucks, now, Synced)
      ensures failed == OutcomeCount(old(Now()), batch, lucks, now, Failed)
    {
      synced, failed := 0, 0;
      ghost var w := Now();
      for i := 0 to |batch|
        invariant Now() == Reconciled(w, batch[..i], lucks[..i], now)
        invariant synced == OutcomeCount(w, batch[..i], lucks[..i], now, Synced)
        invariant failed == OutcomeCount(w, batch[..i], lucks[..i], now, Failed)
      {
        assert batch[..i + 1][..i] == batch[..i] && lucks[..i + 1][..i] == lucks[..i];
        var outcome := Push(batch[i], lucks[i], now);
        if outcome == Synced {
          synced := synced + 1;
        } else if outcome == Failed {
          failed := failed + 1;
        }
      }
      assert batch[..|batch|] == batch && lucks[..|lucks|] == lucks;
      checked := |batch|;
    }
  }
}
