/** What a stale save does to whoever committed in between. */
module BookingRaces {
  import opened Seqs
  import opened Tables
  import opened Ticketing
  import opened Bookings
  import opened BookingInvariant
  import opened BookingRows
  import opened BookingRuns
  import opened BookingTheorems

  /** The invariant is not all a customer cares about: a donation committed
      between the read and the save is silently taken back, and the order the
      customer is handed is for the total from before it. */
  lemma DonationDuringOrderCallIsLost(db: Db, b: BookingId, requested: Gateway, donation: int, session: string)
    requires Inv(db) && b < |db.bookings| && NeedsOrder(db.bookings[b])
    requires ValidDonation(db.settings, donation) && donation != db.bookings[b].donation
    ensures
      var read, o := db.bookings[b], |db.orders|;
      var changed := SetDonation(PlaceOrder(db, b, read, requested), b, read.user, donation);
      && changed.Committed? && changed.db.bookings[b].donation == donation
      && SafeToAttach(changed.db.bookings[b], read)
      && var saved := AttachOrder(changed.db, b, read, o, session);
         && saved.Committed? && Inv(saved.db)
         && saved.db.bookings[b].donation == read.donation != donation
         && saved.db.bookings[b].order == Some(o)
         && saved.db.orders[o].amount == saved.db.bookings[b].total == read.total
  {
    var read, o := db.bookings[b], |db.orders|;
    var placed := PlaceOrder(db, b, read, requested);
    PlaceOrderKeeps(db, b, read, requested);
    SetDonationKeeps(placed, b, read.user, donation);
    DonatedFacts(placed, b, read.user, donation);
    var changed := SetDonation(placed, b, read.user, donation).db;
    RowIsGood(db, b);
    SameKeyDoesNotCollide(changed.bookings, b, WithOrder(read, o, changed.orders[o].gateway, session));
    AttachKeepsExactlyWhenSafe(changed, b, read, requested, o, session);
  }

  // --- the cancel that is undone -------------------------------------------

  /** The customer cancels while the order call is out, and the save that
      follows reopens the row. */
  function Reopened(db: Db, b: BookingId, requested: Gateway, session: string): Db
    requires b < |db.bookings|
  {
    var read := db.bookings[b];
    var placed := PlaceOrder(db, b, read, requested);
    var cancelled := After(placed, Cancel(placed, b, read.user));
    After(cancelled, AttachOrder(cancelled, b, read, |db.orders|, session))
  }

  lemma ReopenedFacts(db: Db, b: BookingId, requested: Gateway, session: string, t: TierId)
    requires Inv(db) && b < |db.bookings| && NeedsOrder(db.bookings[b]) && t in db.tiers
    ensures var saved := Reopened(db, b, requested, session);
      && RowsGood(saved) && saved.clock == db.clock && saved.settings == db.settings && saved.tickets == db.tickets
      && |saved.bookings| == |db.bookings| && saved.bookings[b].status == Reserved
      && SameIdentity(db.bookings[b], saved.bookings[b])
      && t in saved.tiers && saved.tiers[t].sold == db.tiers[t].sold
      && saved.tiers[t].reserved == db.tiers[t].reserved - Quantity(db.bookings[b].items, t)
      && SameTier(db.tiers[t], saved.tiers[t])
  {
    var read := db.bookings[b];
    var placed := PlaceOrder(db, b, read, requested);
    PlaceOrderKeeps(db, b, read, requested);
    GiveUpKeeps(placed, b, Cancelled, "user_cancelled");
    HeldSeatsAreReserved(placed.tiers, placed.bookings, b);
    ReleaseAllSubtractsExactly(placed.tiers, read.items);
    var cancelled := Cancel(placed, b, read.user).db;
    assert SameTier(placed.tiers[t], cancelled.tiers[t]);
    SameKeyDoesNotCollide(cancelled.bookings, b,
                          WithOrder(read, |db.orders|, placed.orders[|db.orders|].gateway, session));
    RowIsGood(db, b);
    GoodRows(cancelled);
    AttachKeepsRows(cancelled, b, read, requested, |db.orders|, session);
  }

  /** A confirm issues every line's tickets, whatever the counters say. */
  lemma ConfirmIssues(db: Db, b: BookingId, ref: string, t: TierId)
    requires RowsGood(db) && b < |db.bookings| && Confirmable(db.bookings[b], db.clock)
    ensures var after := Confirm(db, b, ref);
      && after.Committed? && RowsGood(after.db) && after.db.clock == db.clock
      && Sum(after.db.tickets, OfTier(t)) == Sum(db.tickets, OfTier(t)) + Quantity(db.bookings[b].items, t)
      && |after.db.bookings| == |db.bookings|
      && forall k :: 0 <= k < |db.bookings| && k != b ==> after.db.bookings[k] == db.bookings[k]
  {
    var row := db.bookings[b];
    KnownLinesConfirm(db.tiers, row.items);
    ConfirmKeepsRows(db, b, ref);
    SumConcat(db.tickets, Issue(b, row.event, row.items), OfTier(t));
    IssueCounts(b, row.event, row.items, t);
  }

  lemma TwoConfirmsIssue(db: Db, i: BookingId, j: BookingId, ref1: string, ref2: string, t: TierId)
    requires RowsGood(db) && i < |db.bookings| && j < |db.bookings| && i != j && t in db.tiers
    requires Confirmable(db.bookings[i], db.clock) && Confirmable(db.bookings[j], db.clock)
    ensures var one := Confirm(db, i, ref1);
      && one.Committed?
      && var two := Confirm(one.db, j, ref2);
         && two.Committed? && t in two.db.tiers && two.db.tiers[t].quantity == db.tiers[t].quantity
         && Sum(two.db.tickets, OfTier(t))
         == Sum(db.tickets, OfTier(t)) + Quantity(db.bookings[i].items, t) + Quantity(db.bookings[j].items, t)
  {
    ConfirmIssues(db, i, ref1, t);
    ConfirmPersists(db, i, ref1);
    var one := Confirm(db, i, ref1).db;
    ConfirmIssues(one, j, ref2, t);
    ConfirmPersists(one, j, ref2);
    var two := Confirm(one, j, ref2).db;
    assert SameTier(db.tiers[t], one.tiers[t]) && SameTier(one.tiers[t], two.tiers[t]);
  }

  /** The harm: the reopened row was the only hold on a tier, somebody else
      books every seat its cancel freed, and both are paid for. The tier then
      has more tickets than seats, by exactly the reopened row's. */
  lemma ReopenedHoldOversells(db: Db, b: BookingId, requested: Gateway, session: string, t: TierId,
                              buyer: UserId, event: EventId, lines: seq<Item>, donation: int,
                              ref1: string, ref2: string)
    requires Inv(db) && b < |db.bookings| && NeedsOrder(db.bookings[b]) && db.clock <= db.bookings[b].holdExpiresAt
    requires t in db.tiers && db.tiers[t].reserved == Quantity(db.bookings[b].items, t) > 0
    requires Create(Reopened(db, b, requested, session), buyer, event, true, lines, donation, None).Committed?
    requires Quantity(lines, t) == db.tiers[t].quantity - db.tiers[t].sold && db.settings.hold >= 0
    ensures
      var made := Create(Reopened(db, b, requested, session), buyer, event, true, lines, donation, None).db;
      var one := Confirm(made, b, ref1);
      && one.Committed?
      && var two := Confirm(one.db, |db.bookings|, ref2);
         && two.Committed? && t in two.db.tiers && two.db.tiers[t].quantity == db.tiers[t].quantity
         && Sum(two.db.tickets, OfTier(t)) == db.tiers[t].quantity + Quantity(db.bookings[b].items, t)
  {
    var saved := Reopened(db, b, requested, session);
    ReopenedFacts(db, b, requested, session, t);
    CreatedFacts(saved, buyer, event, true, lines, donation, None);
    CreateKeepsRows(saved, buyer, event, true, lines, donation, None);
    CreatePersists(saved, buyer, event, true, lines, donation, None);
    var made := Create(saved, buyer, event, true, lines, donation, None).db;
    assert made.bookings[b] == saved.bookings[b] && SameTier(saved.tiers[t], made.tiers[t]);
    TwoConfirmsIssue(made, b, |db.bookings|, ref1, ref2, t);
    SeatsOfTier(db, t);
  }

  lemma SeatsOfTier(db: Db, t: TierId)
    requires Inv(db) && t in db.tiers
    ensures Sum(db.tickets, OfTier(t)) == db.tiers[t].sold
  {
  }

  /** One seat, sold twice: two buyers, a cancel during the order call, and two
      payments. */
  lemma OneSeatSoldTwice(hold: nat, price: nat, alice: UserId, bob: UserId, session: string, ref1: string, ref2: string)
    ensures
      var held := Create(OneSeat(map[], hold), alice, 0, true, SeatLine(price), 0, None);
      && held.Committed? && |held.db.bookings| == 1
      && var made := Create(Reopened(held.db, 0, "g", session), bob, 0, true, SeatLine(price), 0, None);
         && made.Committed?
         && var one := Confirm(made.db, 0, ref1);
            && one.Committed?
            && var two := Confirm(one.db, 1, ref2);
               && two.Committed? && 0 in two.db.tiers && two.db.tiers[0].quantity == 1
               && Sum(two.db.tickets, OfTier(0)) == 2
  {
    var shop := OneSeat(map[], hold);
    EmptyShopIsGood(shop);
    SeatLineIsValid(shop, price, 0);
    var held := Create(shop, alice, 0, true, SeatLine(price), 0, None).db;
    CreateKeeps(shop, alice, 0, true, SeatLine(price), 0, None);
    ReopenedFacts(held, 0, "g", session, 0);
    SeatLineIsValid(Reopened(held, 0, "g", session), price, 0);
    ReopenedHoldOversells(held, 0, "g", session, 0, bob, 0, SeatLine(price), 0, ref1, ref2);
  }
}
