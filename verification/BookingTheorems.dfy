/** What callers of the booking service may rely on. */
module BookingTheorems {
  import opened Seqs
  import opened Tables
  import opened Ticketing
  import opened Bookings
  import opened BookingInvariant
  import opened BookingRows
  import opened BookingRuns
  import Coupons
  import Money
  import Sweeper

  // --- tickets and seats ---------------------------------------------------

  function TicketIds(tickets: seq<Ticket>, b: BookingId): set<nat> {
    set i: nat | i < |tickets| && tickets[i].booking == b
  }

  lemma TicketsOfPrefix(a: seq<Ticket>, b: seq<Ticket>, k: BookingId, t: TierId)
    requires TicketsExtend(a, b)
    ensures Sum(b, TicketOf(k, t)) == Sum(a, TicketOf(k, t)) + Sum(b[|a|..], TicketOf(k, t))
  {
    forall i | 0 <= i < |a| ensures TicketOf(k, t)(a[i]) == TicketOf(k, t)(b[..|a|][i]) {
      assert a[i].(status := b[i].status) == b[i];
    }
    SumPointwise(a, b[..|a|], TicketOf(k, t), TicketOf(k, t));
    SumConcat(b[..|a|], b[|a|..], TicketOf(k, t));
    assert b[..|a|] + b[|a|..] == b;
  }

  lemma PaidTicketsAreFinal(a: Db, b: Db, k: BookingId)
    requires Inv(a) && Inv(b) && Extends(a, b) && k < |a.bookings| && a.bookings[k].status == Paid
    ensures b.bookings[k].status == Paid && TicketIds(b.tickets, k) == TicketIds(a.tickets, k)
  {
    assert RowExtends(a.bookings[k], b.bookings[k]);
    SameTicketIds(a, b, k);
  }

  lemma SameTicketIds(a: Db, b: Db, k: BookingId)
    requires TicketsExtend(a.tickets, b.tickets)
    requires forall t :: Sum(a.tickets, TicketOf(k, t)) == Sum(b.tickets, TicketOf(k, t))
    ensures TicketIds(b.tickets, k) == TicketIds(a.tickets, k)
  {
    forall i | i in TicketIds(a.tickets, k) ensures i in TicketIds(b.tickets, k) {
      assert a.tickets[i].(status := b.tickets[i].status) == b.tickets[i];
    }
    forall i | i in TicketIds(b.tickets, k) ensures i in TicketIds(a.tickets, k) {
      if i >= |a.tickets| {
        var t := b.tickets[i].tier;
        TicketsOfPrefix(a.tickets, b.tickets, k, t);
        SumAtLeast(b.tickets[|a.tickets|..], i - |a.tickets|, TicketOf(k, t));
      } else {
        assert a.tickets[i].(status := b.tickets[i].status) == b.tickets[i];
      }
    }
  }

  /** Over any run: once paid, a booking stays paid and its ticket set never
      grows or shrinks, so a replayed confirm returns the same tickets. */
  lemma TicketsAreIssuedOnce(h: seq<Db>, acts: seq<Action>, i: nat, j: nat, b: BookingId)
    requires SafeRun(h, acts) && Inv(h[0]) && i <= j < |h|
    requires b < |h[i].bookings| && h[i].bookings[b].status == Paid
    ensures b < |h[j].bookings| && h[j].bookings[b].status == Paid
    ensures TicketIds(h[j].tickets, b) == TicketIds(h[i].tickets, b)
  {
    RunKeepsInvariant(h, acts);
    assert Inv(h[i]) && Inv(h[j]) && Extends(h[i], h[j]);
    PaidTicketsAreFinal(h[i], h[j], b);
  }

  /** Over any run, at any moment: a booking's items have been confirmed once
      (and then it is paid and holds exactly `quantity` tickets per line),
      released once (and then it is closed and holds none), or neither. */
  lemma ItemsSettleOnce(h: seq<Db>, acts: seq<Action>, k: nat, b: BookingId, t: TierId)
    requires SafeRun(h, acts) && Inv(h[0]) && k < |h| && b < |h[k].bookings|
    ensures var db := h[k];
      var confirmed, released := Sum(db.outbox, Confirmations(b)), Sum(db.outbox, Releases(b));
      && confirmed + released <= 1
      && (confirmed == 1 <==> db.bookings[b].status == Paid)
      && (released == 1 <==> Closed(db.bookings[b]))
      && Sum(db.tickets, TicketOf(b, t)) == confirmed * Quantity(db.bookings[b].items, t)
  {
    RunKeepsInvariant(h, acts);
    assert Inv(h[k]);
  }

  /** Over any run no tier is oversold: seats held plus tickets issued never
      exceed capacity, and the tickets that exist are exactly the seats sold. */
  lemma NeverOversold(h: seq<Db>, acts: seq<Action>, k: nat, t: TierId)
    requires SafeRun(h, acts) && Inv(h[0]) && k < |h| && t in h[0].tiers
    ensures t in h[k].tiers && h[k].tiers[t].quantity == h[0].tiers[t].quantity
    ensures Sum(h[k].bookings, HeldOf(t, Reserved)) + Sum(h[k].tickets, OfTier(t)) <= h[0].tiers[t].quantity
    ensures h[k].tiers[t].sold == Sum(h[k].tickets, OfTier(t)) == Sum(h[k].bookings, HeldOf(t, Paid))
  {
    RunKeepsInvariant(h, acts);
    assert Inv(h[k]) && Extends(h[0], h[k]);
    assert SameTier(h[0].tiers[t], h[k].tiers[t]);
  }

  /** Over every run, saves of stale copies included, no tier's counters pass
      its capacity. */
  lemma CountersStayWithinCapacity(h: seq<Db>, acts: seq<Action>, k: nat, t: TierId)
    requires IsRun(h, acts) && RowsGood(h[0]) && k < |h| && t in h[0].tiers
    ensures t in h[k].tiers && h[k].tiers[t].reserved + h[k].tiers[t].sold <= h[0].tiers[t].quantity
  {
    EveryRunKeepsRows(h, acts);
    assert RowsGood(h[k]) && Persists(h[0], h[k]);
    assert SameTier(h[0].tiers[t], h[k].tiers[t]);
  }

  /** Over every run a sweep pass raises exactly when the database fails a
      transaction of its list: lines keep the tiers they were reserved on, and
      no step removes a tier. */
  lemma OnlyFailuresRaise(h: seq<Db>, acts: seq<Action>, k: nat, work: seq<BookingId>, failing: set<BookingId>)
    requires IsRun(h, acts) && RowsGood(h[0]) && k < |h|
    ensures Sweeper.Raised(h[k], work, failing)
         == if exists i :: 0 <= i < |work| && work[i] in failing then Some(DatabaseFailed) else None
  {
    EveryRunKeepsRows(h, acts);
    assert RowsGood(h[k]);
    Sweeper.KnownTiersRaiseExactly(h[k], work, failing);
  }

  // --- when a booking may change -------------------------------------------

  /** A fresh booking can be paid for through the end of its hold, inclusive;
      checkout shows it for that long, exclusive; the sweep takes it after. */
  lemma CreatedHoldLasts(db: Db, user: UserId, event: EventId, bookable: bool, lines: seq<Item>, donation: int,
                         key: Option<string>, elapsed: nat)
    requires Create(db, user, event, bookable, lines, donation, key).Committed?
    ensures var made, b := Create(db, user, event, bookable, lines, donation, key).db, |db.bookings|;
      var later := made.(clock := made.clock + elapsed);
      && |made.bookings| == b + 1 && made.bookings[..b] == db.bookings
      && (Confirmable(later.bookings[b], later.clock) <==> elapsed <= db.settings.hold)
      && (GetLiveHold(later, b, user).None? <==> elapsed < db.settings.hold)
      && (Sweepable(later.bookings[b], later.clock) <==> elapsed > db.settings.hold)
  {
    CreatedFacts(db, user, event, bookable, lines, donation, key);
  }

  /** A void kills exactly the booking's unused tickets, for good: none of them
      is left active, a used one stays used, and voiding again does nothing. */
  lemma VoidIsFinal(db: Db, b: BookingId)
    ensures var after := VoidTickets(db, b);
      && |after.tickets| == |db.tickets| && VoidTickets(after, b) == after
      && forall i :: 0 <= i < |db.tickets| ==>
           if db.tickets[i].booking == b
           then after.tickets[i].status == (if db.tickets[i].status == Used then Used else Void)
           else after.tickets[i] == db.tickets[i]
  {
    var after := VoidTickets(db, b);
    assert VoidTickets(after, b).tickets == after.tickets;
  }

  // --- money ---------------------------------------------------------------

  /** Over every run, saves of stale copies included. */
  lemma RowIsWellPriced(h: seq<Db>, acts: seq<Action>, k: nat, b: BookingId)
    requires IsRun(h, acts) && RowsGood(h[0]) && k < |h| && b < |h[k].bookings|
    ensures WellPriced(h[k].bookings[b], h[k].settings.feeBps)
  {
    EveryRunKeepsRows(h, acts);
    assert RowsGood(h[k]);
  }

  /** The amount a customer is charged depends on what was bought and on the
      final donation and discount, never on the calls that led there. */
  lemma AmountIgnoresHistory(h1: seq<Db>, acts1: seq<Action>, h2: seq<Db>, acts2: seq<Action>,
                             i: nat, j: nat, b1: BookingId, b2: BookingId)
    requires IsRun(h1, acts1) && RowsGood(h1[0]) && i < |h1| && b1 < |h1[i].bookings|
    requires IsRun(h2, acts2) && RowsGood(h2[0]) && j < |h2| && b2 < |h2[j].bookings|
    requires h1[i].settings.feeBps == h2[j].settings.feeBps
    requires h1[i].bookings[b1].items == h2[j].bookings[b2].items
    requires h1[i].bookings[b1].donation == h2[j].bookings[b2].donation
    requires h1[i].bookings[b1].discount == h2[j].bookings[b2].discount
    ensures h1[i].bookings[b1].total == h2[j].bookings[b2].total
    ensures h1[i].bookings[b1].fee == h2[j].bookings[b2].fee
  {
    RowIsWellPriced(h1, acts1, i, b1);
    RowIsWellPriced(h2, acts2, j, b2);
  }

  /** The organizer is transferred exactly the discounted ticket subtotal, the
      platform's fee is the exact percentage of it to half a paisa, and a
      refund of a paid booking gives back everything but the donation. */
  lemma MoneyIsSplitExactly(db: Db, b: BookingId)
    requires RowsGood(db) && b < |db.bookings|
    ensures var row := db.bookings[b];
      && OrganizerTransfer(row) == Subtotal(row.items) - row.discount >= 0
      && -5_000 < row.fee * 10_000 - OrganizerTransfer(row) * db.settings.feeBps <= 5_000
      && row.total == OrganizerTransfer(row) + row.fee + row.donation
      && Refundable(db, b).Some?
      && Refundable(db, b).value == row.total - (if row.status == Paid then row.donation else 0) >= 0
  {
    RowIsSplitExactly(db.bookings[b], db.settings.feeBps);
  }

  lemma RowIsSplitExactly(row: Booking, bps: nat)
    requires WellPriced(row, bps)
    ensures OrganizerTransfer(row) == Subtotal(row.items) - row.discount >= 0
    ensures -5_000 < row.fee * 10_000 - OrganizerTransfer(row) * bps <= 5_000
    ensures row.fee >= 0 && row.total == OrganizerTransfer(row) + row.fee + row.donation
  {
    var charged := Subtotal(row.items) - row.discount;
    Money.FeeIsNearest(charged, bps, row.fee);
    Money.FeeIsMonotone(0, charged, bps);
  }

  // --- the payment order ---------------------------------------------------

  /** Over every run, saves of stale copies included, an order id on a row
      names an order the provider created for exactly the row's current total
      at exactly the gateway the row answers with. */
  lemma OrderAlwaysFits(h: seq<Db>, acts: seq<Action>, k: nat, b: BookingId)
    requires IsRun(h, acts) && RowsGood(h[0]) && k < |h| && b < |h[k].bookings| && h[k].bookings[b].order.Some?
    ensures var db, row := h[k], h[k].bookings[b];
      row.order.value < |db.orders|
      && db.orders[row.order.value] == Order(b, row.total, GatewayOrDefault(db.settings, row))
  {
    EveryRunKeepsRows(h, acts);
    assert RowsGood(h[k]);
  }

  /** A handle with no order behind it: the one of an order that was dropped. */
  predicate StaleSession(row: Booking) {
    row.order.None? && row.session != ""
  }

  /** The session handle has no such guarantee. Exactly when each committed
      change leaves a stale one, in terms of the row before it: a donation or
      coupon change that really changes something keeps the handle of the
      order it drops; a gateway change clears the handle of an order it drops
      and keeps a stale one under the new gateway; a cancel touches neither;
      and a new order overwrites it. */
  lemma StaleSessionExactly(db: Db, b: BookingId, actor: UserId, donation: int, code: Option<CouponId>, wanted: Gateway)
    requires b < |db.bookings|
    ensures var row, after := db.bookings[b], SetDonation(db, b, actor, donation);
      after.Committed? ==>
        (StaleSession(after.db.bookings[b]) <==> row.session != "" && (row.order.None? || donation != row.donation))
    ensures var row, after := db.bookings[b], SetCoupon(db, b, actor, code);
      after.Committed? ==> (StaleSession(after.db.bookings[b]) <==> row.session != "")
    ensures var row, after := db.bookings[b], ClearCoupon(db, b, actor);
      after.Committed? ==>
        (StaleSession(after.db.bookings[b])
         <==> row.session != "" && (row.order.None? || b in db.redemptions || row.discount != 0))
    ensures var row, after := db.bookings[b], SetGateway(db, b, actor, wanted);
      after.Committed? ==>
        && (StaleSession(after.db.bookings[b]) <==> StaleSession(row))
        && after.db.bookings[b].gateway == wanted
        && (row.order.None? ==> after.db.bookings[b].session == row.session)
    ensures var row, after := db.bookings[b], Cancel(db, b, actor);
      after.Committed? ==> (StaleSession(after.db.bookings[b]) <==> StaleSession(row))
  {
    if SetCoupon(db, b, actor, code).Committed? { CouponedFacts(db, b, actor, code); }
  }

  // --- coupons -------------------------------------------------------------

  function Discounted(db: Db): set<BookingId> {
    set b: nat | b < |db.bookings| && Live(db.bookings[b]) && db.bookings[b].discount > 0
  }

  /** The discount column and the redemption table say the same thing: the
      live discounted bookings are exactly the redeemed ones, row for row and
      amount for amount, and no coupon is used past its caps. */
  lemma DiscountsAreRedemptions(h: seq<Db>, acts: seq<Action>, k: nat)
    requires SafeRun(h, acts) && Inv(h[0]) && k < |h|
    ensures var db := h[k];
      && Discounted(db) == db.redemptions.Keys
      && (forall b :: b in db.redemptions ==> db.redemptions[b].amount == db.bookings[b].discount)
      && Coupons.WithinCaps(db.coupons, db.redemptions)
  {
    RunKeepsInvariant(h, acts);
    assert Inv(h[k]);
    var db := h[k];
    forall b: nat ensures b in Discounted(db) <==> b in db.redemptions {
    }
    forall b | b in db.redemptions ensures db.redemptions[b].amount == db.bookings[b].discount {
    }
  }

  /** An applied code makes the booking strictly cheaper, by as much as the
      coupon's terms allow and the fee on it, and leaves at least the
      provider's floor to pay. */
  lemma CouponTakesEffect(db: Db, b: BookingId, actor: UserId, code: Option<CouponId>)
    requires SetCoupon(db, b, actor, code).Committed?
    ensures code.Some? && code.value in db.coupons && b < |db.bookings|
    ensures var after, row := SetCoupon(db, b, actor, code).db, db.bookings[b];
      var now, subtotal := after.bookings[b], Subtotal(row.items);
      && now.discount == Coupons.DiscountOn(db.coupons[code.value], subtotal)
      && after.redemptions == db.redemptions[b := Redemption(code.value, actor, now.discount)]
      && Coupons.MIN_PAYABLE_TOTAL_MINOR <= now.total < Money.Total(subtotal, 0, row.donation, db.settings.feeBps)
      && now.items == row.items && now.donation == row.donation && now.order.None?
  {
    CouponedFacts(db, b, actor, code);
    var row := db.bookings[b];
    var subtotal, discount := Subtotal(row.items), Coupons.DiscountOn(db.coupons[code.value], Subtotal(row.items));
    Money.FeeIsMonotone(subtotal - discount, subtotal, db.settings.feeBps);
    Money.FeeIsMonotone(0, subtotal - discount, db.settings.feeBps);
  }

  /** Taking the code off again gives back the booking as it was, but for its
      payment order. */
  lemma CouponRoundTrip(db: Db, b: BookingId, actor: UserId, code: Option<CouponId>)
    requires Inv(db) && SetCoupon(db, b, actor, code).Committed? && b !in db.redemptions
    ensures var cleared := ClearCoupon(SetCoupon(db, b, actor, code).db, b, actor);
      && cleared.Committed? && cleared.db.redemptions == db.redemptions
      && cleared.db.bookings == db.bookings[b := db.bookings[b].(order := None)]
  {
    var discount := CouponedForFirstTime(db, b, actor, code);
    ClearingRestores(db, SetCoupon(db, b, actor, code).db, b, actor, discount);
  }

  lemma CouponedForFirstTime(db: Db, b: BookingId, actor: UserId, code: Option<CouponId>) returns (discount: nat)
    requires Inv(db) && SetCoupon(db, b, actor, code).Committed? && b !in db.redemptions
    ensures b < |db.bookings| && db.bookings[b].user == actor && db.bookings[b].status == Reserved
    ensures WellPriced(db.bookings[b], db.settings.feeBps) && db.bookings[b].discount == 0
    ensures var row, after := db.bookings[b], SetCoupon(db, b, actor, code).db;
      && b in after.redemptions && after.redemptions - {b} == db.redemptions && after.settings == db.settings
      && after.bookings == db.bookings[b := Reprice(row, Subtotal(row.items), discount, db.settings.feeBps)]
  {
    CouponedFacts(db, b, actor, code);
    RowIsGood(db, b);
    discount := Coupons.DiscountOn(db.coupons[code.value], Subtotal(db.bookings[b].items));
  }

  lemma ClearingRestores(db: Db, after: Db, b: BookingId, actor: UserId, discount: nat)
    requires b < |db.bookings| && db.bookings[b].user == actor && db.bookings[b].status == Reserved
    requires WellPriced(db.bookings[b], db.settings.feeBps) && db.bookings[b].discount == 0
    requires b !in db.redemptions && b in after.redemptions && after.redemptions - {b} == db.redemptions
    requires after.settings == db.settings
    requires var row := db.bookings[b];
      after.bookings == db.bookings[b := Reprice(row, Subtotal(row.items), discount, db.settings.feeBps)]
    ensures var cleared := ClearCoupon(after, b, actor);
      && cleared.Committed? && cleared.db.redemptions == db.redemptions
      && cleared.db.bookings == db.bookings[b := db.bookings[b].(order := None)]
  {
    var row, subtotal := db.bookings[b], Subtotal(db.bookings[b].items);
    assert Reprice(after.bookings[b], subtotal, 0, db.settings.feeBps) == row.(order := None);
  }

  /** A donation moves the total by exactly its own difference, and putting the
      old amount back restores the row but for its payment order. */
  lemma DonationRoundTrip(db: Db, b: BookingId, actor: UserId, donation: int)
    requires SetDonation(db, b, actor, donation).Committed?
    requires ValidDonation(db.settings, db.bookings[b].donation) && db.bookings[b].donation != donation
    ensures var after, row := SetDonation(db, b, actor, donation).db, db.bookings[b];
      && after.bookings[b].donation == donation && after.bookings[b].total - row.total == donation - row.donation
      && SetDonation(after, b, actor, row.donation).Committed?
      && SetDonation(after, b, actor, row.donation).db == WithRow(db, b, row.(order := None))
  {
    var after, row := SetDonation(db, b, actor, donation).db, db.bookings[b];
    assert after.bookings[b := row.(order := None)] == db.bookings[b := row.(order := None)];
  }

  /** The floor is checked when a code is applied and at no other time. A hold
      stays at or above it whatever donation its owner chooses afterwards if
      and only if what it costs without its donation is at or above it. */
  lemma FloorSurvivesDonationsExactly(db: Db, b: BookingId)
    requires b < |db.bookings| && db.bookings[b].status == Reserved
    ensures var row := db.bookings[b];
      (forall donation :: ValidDonation(db.settings, donation) ==>
         After(db, SetDonation(db, b, row.user, donation)).bookings[b].total >= Coupons.MIN_PAYABLE_TOTAL_MINOR)
      <==> row.total - row.donation >= Coupons.MIN_PAYABLE_TOTAL_MINOR
  {
    var row := db.bookings[b];
    assert ValidDonation(db.settings, 0);
    assert After(db, SetDonation(db, b, row.user, 0)).bookings[b].total == row.total - row.donation;
  }

  /** So a code that takes the whole subtotal off is accepted on the strength of
      the donation, and withdrawing the donation then leaves nothing to pay. */
  lemma FullDiscountThenNothingToPay(db: Db, b: BookingId, actor: UserId, code: Option<CouponId>)
    requires SetCoupon(db, b, actor, code).Committed?
    requires var subtotal := Subtotal(db.bookings[b].items);
      Coupons.DiscountOn(db.coupons[code.value], subtotal) == subtotal
    ensures var coded := SetCoupon(db, b, actor, code).db;
      && coded.bookings[b].total >= Coupons.MIN_PAYABLE_TOTAL_MINOR
      && SetDonation(coded, b, actor, 0).Committed? && SetDonation(coded, b, actor, 0).db.bookings[b].total == 0
  {
    CouponedFacts(db, b, actor, code);
  }

  /** A shop with one seat and nothing sold. */
  function OneSeat(coupons: map<CouponId, Coupon>, hold: nat): Db {
    Db(Settings(0, 1000, hold, 0, "g", {"g"}, "g"), map[0 := Tier(0, 1, 0, 0, None, None, 10)],
       [], [], map[], coupons, [], [], 0)
  }

  function SeatLine(price: nat): seq<Item> {
    [Item(0, 1, price)]
  }

  lemma SeatLineIsValid(db: Db, price: nat, donation: int)
    requires 0 in db.tiers && db.tiers[0] == Tier(0, 1, 0, 0, None, None, 10)
    requires 0 <= donation <= db.settings.donationMax
    ensures Quantity(SeatLine(price), 0) == 1 && Subtotal(SeatLine(price)) == price
    ensures forall user: UserId :: Create(db, user, 0, true, SeatLine(price), donation, None).Committed?
    ensures ReserveAll(db.tiers, SeatLine(price), db.clock) == Moved(db.tiers[0 := Tier(0, 1, 1, 0, None, None, 10)])
  {
    var lines := SeatLine(price);
    assert lines[1..] == [];
    assert Sum(lines, QuantityOf(0)) == QuantityOf(0)(lines[0]) + Sum(lines[1..], QuantityOf(0));
    assert Subtotal(lines) == LinePrice()(lines[0]) + Sum(lines[1..], LinePrice());
    assert ValidItems(db.tiers, 0, lines, {});
    assert ReserveAll(db.tiers, lines, db.clock)
        == ReserveAll(db.tiers[0 := Tier(0, 1, 1, 0, None, None, 10)], [], db.clock);
  }

  function Everything(): Coupon {
    Coupon(None, true, None, None, true, 100, None, None, 1)
  }

  /** For one: book the seat, at any price, with a donation of a rupee, apply a
      code for everything, take the donation back. */
  lemma NothingToPay(hold: nat, price: nat, user: UserId)
    requires price > 0
    ensures
      var made := Create(OneSeat(map[0 := Everything()], hold), user, 0, true, SeatLine(price), 100, None);
      && made.Committed?
      && var coded := SetCoupon(made.db, 0, user, Some(0));
         && coded.Committed? && coded.db.bookings[0].total == 100
         && SetDonation(coded.db, 0, user, 0).Committed?
         && SetDonation(coded.db, 0, user, 0).db.bookings[0].total == 0
  {
    var shop := OneSeat(map[0 := Everything()], hold);
    SeatLineIsValid(shop, price, 100);
    var made := Create(shop, user, 0, true, SeatLine(price), 100, None).db;
    assert made.redemptions - {0} == map[];
    assert Coupons.RowsFor(map[], 0) == {} && Coupons.RowsForUser(map[], 0, user) == {};
    assert Coupons.DiscountOn(Everything(), price) == price;
    FullDiscountThenNothingToPay(made, 0, user, Some(0));
  }

  // --- idempotency ---------------------------------------------------------

  /** When the lookup declines every row of the key, releasing the key frees
      it: the insert that follows cannot collide, and it touches no row the
      lookup would have answered with. */
  lemma ReleasedKeyIsFree(db: Db, user: UserId, event: EventId, lines: seq<Item>, donation: int, key: Option<string>)
    requires FindReplayable(db.bookings, user, key, db.clock, db.settings.replayWindow).None?
    ensures !KeyTakenIn(ReleaseKey(db, user, key).bookings, user, key)
    ensures ReserveAndInsert(ReleaseKey(db, user, key), user, event, lines, donation, key) != RolledBack(KeyTaken)
  {
    var freed := ReleaseKey(db, user, key);
    forall i | 0 <= i < |freed.bookings| ensures !HoldsKey(freed.bookings[i], user, key) {
      assert freed.bookings[i] == DetachKey(db.bookings[i], user, key, db.clock, db.settings.replayWindow);
    }
    ReserveNeverSaysKeyTaken(freed.tiers, lines, freed.clock);
  }

  /** The one instant at which a row that cannot be replayed now still may be
      later: its hold ends exactly now, so confirm still accepts it. */
  predicate OnBoundary(row: Booking, now: Time, window: Time) {
    row.status == Reserved && row.holdExpiresAt == now && row.createdAt > now - window
  }

  lemma DeadRowStaysDead(a: Db, b: Db, k: BookingId)
    requires Inv(a) && Inv(b) && Extends(a, b) && k < |a.bookings|
    requires !Replayable(a.bookings[k], a.clock, a.settings.replayWindow)
    requires !OnBoundary(a.bookings[k], a.clock, a.settings.replayWindow)
    ensures !Replayable(b.bookings[k], b.clock, b.settings.replayWindow)
  {
    assert RowExtends(a.bookings[k], b.bookings[k]);
    if Sweepable(a.bookings[k], a.clock) {
      assert b.bookings[k].status != Paid;
    }
  }

  lemma DeadOffBoundary(h: seq<Db>, i: nat, j: nat, b: BookingId)
    requires AllGood(h) && i <= j < |h| && b < |h[i].bookings|
    requires !Replayable(h[i].bookings[b], h[i].clock, h[i].settings.replayWindow)
    requires !OnBoundary(h[i].bookings[b], h[i].clock, h[i].settings.replayWindow)
    ensures b < |h[j].bookings| && !Replayable(h[j].bookings[b], h[j].clock, h[j].settings.replayWindow)
  {
    assert Extends(h[i], h[j]) && Inv(h[i]) && Inv(h[j]);
    DeadRowStaysDead(h[i], h[j], b);
  }

  lemma BoundaryConfirmRevives(db: Db, b: BookingId, ref: string)
    requires Inv(db) && b < |db.bookings| && OnBoundary(db.bookings[b], db.clock, db.settings.replayWindow)
    requires !Replayable(db.bookings[b], db.clock, db.settings.replayWindow)
    ensures Confirm(db, b, ref).Committed?
         && Replayable(Confirm(db, b, ref).db.bookings[b], db.clock, db.settings.replayWindow)
  {
    ConfirmKeeps(db, b, ref);
  }

  /** A row that cannot be replayed can ever be replayed again exactly when it
      sits on the boundary: off it no run brings it back, on it a confirm does. */
  lemma ReplayableAgainOnlyOnBoundary(h: seq<Db>, acts: seq<Action>, i: nat, b: BookingId)
    requires SafeRun(h, acts) && Inv(h[0]) && i < |h| && b < |h[i].bookings|
    requires !Replayable(h[i].bookings[b], h[i].clock, h[i].settings.replayWindow)
    ensures !OnBoundary(h[i].bookings[b], h[i].clock, h[i].settings.replayWindow) ==>
              forall j :: i <= j < |h| ==>
                            b < |h[j].bookings| && !Replayable(h[j].bookings[b], h[j].clock, h[j].settings.replayWindow)
    ensures OnBoundary(h[i].bookings[b], h[i].clock, h[i].settings.replayWindow) ==>
              forall ref :: Confirm(h[i], b, ref).Committed?
                            && Replayable(Confirm(h[i], b, ref).db.bookings[b], h[i].clock, h[i].settings.replayWindow)
  {
    RunKeepsInvariant(h, acts);
    assert Inv(h[i]);
    if OnBoundary(h[i].bookings[b], h[i].clock, h[i].settings.replayWindow) {
      forall ref
        ensures Confirm(h[i], b, ref).Committed?
             && Replayable(Confirm(h[i], b, ref).db.bookings[b], h[i].clock, h[i].settings.replayWindow)
      {
        BoundaryConfirmRevives(h[i], b, ref);
      }
    } else {
      forall j | i <= j < |h|
        ensures b < |h[j].bookings| && !Replayable(h[j].bookings[b], h[j].clock, h[j].settings.replayWindow)
      {
        DeadOffBoundary(h, i, j, b);
      }
    }
  }

  /** Over every run, saves of stale copies included, a user's key is on at
      most one row. */
  lemma KeyIsOnOneRow(h: seq<Db>, acts: seq<Action>, k: nat, i: nat, j: nat, user: UserId, key: Option<string>)
    requires IsRun(h, acts) && RowsGood(h[0]) && k < |h| && i < |h[k].bookings| && j < |h[k].bookings|
    requires HoldsKey(h[k].bookings[i], user, key) && HoldsKey(h[k].bookings[j], user, key)
    ensures i == j
  {
    EveryRunKeepsRows(h, acts);
    assert RowsGood(h[k]);
  }
}
