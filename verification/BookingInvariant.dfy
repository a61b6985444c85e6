/** What every transaction of the booking service keeps. */
module BookingInvariant {
  import opened Seqs
  import opened Tables
  import opened Ticketing
  import opened Bookings
  import Coupons
  import Money

  // --- the invariant -------------------------------------------------------

  function HeldOf(t: TierId, s: BookingStatus): Booking -> nat {
    (b: Booking) => if b.status == s then Quantity(b.items, t) else 0
  }

  /** Tier counters are the summed quantities of the bookings that own them. */
  ghost predicate Inventory(tiers: map<TierId, Tier>, bookings: seq<Booking>) {
    && NoOversell(tiers)
    && (forall b :: 0 <= b < |bookings| ==> LinesKnown(tiers, bookings[b].items))
    && (forall t :: t in tiers ==>
          && tiers[t].reserved == Sum(bookings, HeldOf(t, Reserved))
          && tiers[t].sold == Sum(bookings, HeldOf(t, Paid)))
  }

  /** The row's money columns are a function of its lines, discount and donation. */
  ghost predicate WellPriced(row: Booking, bps: nat) {
    && row.items != [] && (forall i :: 0 <= i < |row.items| ==> row.items[i].quantity >= 1)
    && 0 <= row.discount <= Subtotal(row.items)
    && row.donation >= 0
    && row.fee == Money.PlatformFee(Subtotal(row.items) - row.discount, bps)
    && row.total == Money.Total(Subtotal(row.items), row.discount, row.donation, bps)
  }

  ghost predicate Priced(bookings: seq<Booking>, bps: nat) {
    forall b :: 0 <= b < |bookings| ==> WellPriced(bookings[b], bps)
  }

  predicate Live(row: Booking) {
    row.status == Reserved || row.status == Paid
  }

  function RedeemedAmount(redemptions: map<BookingId, Redemption>, b: BookingId): nat {
    if b in redemptions then redemptions[b].amount else 0
  }

  /** The discount column of a live row mirrors its redemption; a closed row
      has none. */
  ghost predicate CouponMirror(bookings: seq<Booking>, redemptions: map<BookingId, Redemption>) {
    && (forall b :: b in redemptions ==>
          b < |bookings| && Live(bookings[b]) && redemptions[b].amount > 0
          && redemptions[b].user == bookings[b].user)
    && (forall b :: 0 <= b < |bookings| && Live(bookings[b]) ==>
          bookings[b].discount == RedeemedAmount(redemptions, b))
  }

  /** A row's order was created for exactly its total, by exactly its gateway. */
  ghost predicate OrderFits(settings: Settings, orders: seq<Order>, b: BookingId, row: Booking) {
    row.order.Some? ==>
      && row.order.value < |orders|
      && orders[row.order.value] == Order(b, row.total, GatewayOrDefault(settings, row))
  }

  ghost predicate OrdersFit(settings: Settings, orders: seq<Order>, bookings: seq<Booking>) {
    forall b :: 0 <= b < |bookings| ==> OrderFits(settings, orders, b, bookings[b])
  }

  ghost predicate UniqueKeys(bookings: seq<Booking>) {
    forall i, j :: 0 <= i < |bookings| && 0 <= j < |bookings| && i != j ==>
      !HoldsKey(bookings[j], bookings[i].user, bookings[i].key)
  }

  function TicketOf(b: BookingId, t: TierId): Ticket -> nat {
    (k: Ticket) => if k.booking == b && k.tier == t then 1 else 0
  }

  function OfTier(t: TierId): Ticket -> nat {
    (k: Ticket) => if k.tier == t then 1 else 0
  }

  /** A booking has its full set of tickets exactly when it is paid, and the
      tickets of a tier are exactly the seats it has sold. */
  ghost predicate TicketsMatch(tiers: map<TierId, Tier>, bookings: seq<Booking>, tickets: seq<Ticket>) {
    && (forall i :: 0 <= i < |tickets| ==>
          tickets[i].booking < |bookings| && tickets[i].event == bookings[tickets[i].booking].event)
    && (forall b, t :: 0 <= b < |bookings| ==>
          Sum(tickets, TicketOf(b, t)) == if bookings[b].status == Paid then Quantity(bookings[b].items, t) else 0)
    && (forall t :: t in tiers ==> Sum(tickets, OfTier(t)) == tiers[t].sold)
  }

  function Confirmations(b: BookingId): DomainEvent -> nat {
    (e: DomainEvent) => if e.BookingConfirmed? && e.booking == b then 1 else 0
  }

  function Releases(b: BookingId): DomainEvent -> nat {
    (e: DomainEvent) => if e.BookingCancelled? && e.booking == b then 1 else 0
  }

  predicate Closed(row: Booking) {
    row.status == Cancelled || row.status == Expired
  }

  /** Every transaction that confirms or releases a booking's items records
      it; the record says once or never. */
  ghost predicate SettledOnce(bookings: seq<Booking>, outbox: seq<DomainEvent>) {
    && (forall i :: 0 <= i < |outbox| ==> outbox[i].booking < |bookings|)
    && (forall b :: 0 <= b < |bookings| ==>
          && Sum(outbox, Confirmations(b)) == (if bookings[b].status == Paid then 1 else 0)
          && Sum(outbox, Releases(b)) == (if Closed(bookings[b]) then 1 else 0))
  }

  predicate ValidSettings(s: Settings) {
    && "" !in s.offered && s.defaultGateway in s.offered && s.backend != ""
  }

  /** What the columns of the rows say: prices, orders and keys. */
  ghost predicate Columns(settings: Settings, orders: seq<Order>, bookings: seq<Booking>) {
    && ValidSettings(settings)
    && Priced(bookings, settings.feeBps)
    && OrdersFit(settings, orders, bookings)
    && UniqueKeys(bookings)
  }

  /** Who holds the seats: counters, tickets and the record of settlements. */
  ghost predicate Seats(tiers: map<TierId, Tier>, bookings: seq<Booking>, tickets: seq<Ticket>,
                        outbox: seq<DomainEvent>)
  {
    && Inventory(tiers, bookings)
    && TicketsMatch(tiers, bookings, tickets)
    && SettledOnce(bookings, outbox)
  }

  ghost predicate CouponsAgree(bookings: seq<Booking>, coupons: map<CouponId, Coupon>,
                               redemptions: map<BookingId, Redemption>)
  {
    CouponMirror(bookings, redemptions) && Coupons.WithinCaps(coupons, redemptions)
  }

  ghost predicate Inv(db: Db) {
    && Columns(db.settings, db.orders, db.bookings)
    && Seats(db.tiers, db.bookings, db.tickets, db.outbox)
    && CouponsAgree(db.bookings, db.coupons, db.redemptions)
  }

  ghost predicate AllLinesKnown(tiers: map<TierId, Tier>, bookings: seq<Booking>) {
    forall b :: 0 <= b < |bookings| ==> LinesKnown(tiers, bookings[b].items)
  }

  /** The part of the invariant no save can break, stale or not. */
  ghost predicate RowsGood(db: Db) {
    && Columns(db.settings, db.orders, db.bookings)
    && NoOversell(db.tiers) && AllLinesKnown(db.tiers, db.bookings)
  }

  lemma GoodRows(db: Db)
    requires Inv(db)
    ensures RowsGood(db)
  {
  }

  /** Columns no transaction ever rewrites. */
  predicate SameIdentity(a: Booking, b: Booking) {
    && a.user == b.user && a.event == b.event && a.items == b.items
    && a.createdAt == b.createdAt && a.holdExpiresAt == b.holdExpiresAt
  }

  // --- rewriting rows without moving seats ---------------------------------

  /** The columns the counters, tickets and log depend on. */
  ghost predicate SameSeats(a: seq<Booking>, b: seq<Booking>) {
    && |a| == |b|
    && forall i :: 0 <= i < |a| ==>
         a[i].status == b[i].status && a[i].items == b[i].items && a[i].event == b[i].event
  }

  lemma SameSeatsKeepCounts(tiers: map<TierId, Tier>, tickets: seq<Ticket>, outbox: seq<DomainEvent>,
                            before: seq<Booking>, after: seq<Booking>)
    requires SameSeats(before, after)
    ensures Inventory(tiers, before) ==> Inventory(tiers, after)
    ensures TicketsMatch(tiers, before, tickets) ==> TicketsMatch(tiers, after, tickets)
    ensures SettledOnce(before, outbox) ==> SettledOnce(after, outbox)
  {
    forall t, s ensures Sum(before, HeldOf(t, s)) == Sum(after, HeldOf(t, s)) {
      SumPointwise(before, after, HeldOf(t, s), HeldOf(t, s));
    }
  }

  lemma SameSeatsKeep(tiers: map<TierId, Tier>, before: seq<Booking>, after: seq<Booking>,
                      tickets: seq<Ticket>, outbox: seq<DomainEvent>)
    requires Seats(tiers, before, tickets, outbox) && SameSeats(before, after)
    ensures Seats(tiers, after, tickets, outbox)
  {
    SameSeatsKeepCounts(tiers, tickets, outbox, before, after);
  }

  lemma UpdateKeepsKeys(bookings: seq<Booking>, b: BookingId, row: Booking)
    requires UniqueKeys(bookings) && b < |bookings| && !SaveCollides(bookings, b, row)
    ensures UniqueKeys(bookings[b := row])
  {
  }

  lemma SameKeyDoesNotCollide(bookings: seq<Booking>, b: BookingId, row: Booking)
    requires UniqueKeys(bookings) && b < |bookings|
    requires row.user == bookings[b].user && row.key == bookings[b].key
    ensures !SaveCollides(bookings, b, row)
  {
  }

  /** The row's own redemption, and nobody else's, may have moved. */
  ghost predicate OnlyRedemptionOf(b: BookingId, before: map<BookingId, Redemption>,
                                   after: map<BookingId, Redemption>)
  {
    forall k :: k != b ==> (k in before <==> k in after) && (k in before ==> before[k] == after[k])
  }

  ghost predicate RowMirrors(b: BookingId, row: Booking, redemptions: map<BookingId, Redemption>) {
    && (b in redemptions ==> Live(row) && redemptions[b].amount > 0 && redemptions[b].user == row.user)
    && (Live(row) ==> row.discount == RedeemedAmount(redemptions, b))
  }

  lemma UpdateKeepsMirror(bookings: seq<Booking>, before: map<BookingId, Redemption>,
                          after: map<BookingId, Redemption>, b: BookingId, row: Booking)
    requires CouponMirror(bookings, before) && b < |bookings|
    requires OnlyRedemptionOf(b, before, after) && RowMirrors(b, row, after)
    ensures CouponMirror(bookings[b := row], after)
  {
  }

  /** A save whose row is rightly priced, fits its order and keeps clear of
      other rows' keys. */
  lemma SaveKeepsColumns(settings: Settings, orders: seq<Order>, bookings: seq<Booking>, b: BookingId, row: Booking)
    requires Columns(settings, orders, bookings) && b < |bookings| && !SaveCollides(bookings, b, row)
    requires WellPriced(row, settings.feeBps) && OrderFits(settings, orders, b, row)
    ensures Columns(settings, orders, bookings[b := row])
  {
    UpdateKeepsKeys(bookings, b, row);
  }

  lemma SaveKeepsCoupons(bookings: seq<Booking>, coupons: map<CouponId, Coupon>, before: map<BookingId, Redemption>,
                         after: map<BookingId, Redemption>, b: BookingId, row: Booking)
    requires CouponsAgree(bookings, coupons, before) && b < |bookings|
    requires OnlyRedemptionOf(b, before, after) && RowMirrors(b, row, after) && Coupons.WithinCaps(coupons, after)
    ensures CouponsAgree(bookings[b := row], coupons, after)
  {
    UpdateKeepsMirror(bookings, before, after, b, row);
  }

  lemma SaveKeepsSeats(tiers: map<TierId, Tier>, bookings: seq<Booking>, tickets: seq<Ticket>,
                       outbox: seq<DomainEvent>, b: BookingId, row: Booking)
    requires Seats(tiers, bookings, tickets, outbox) && b < |bookings|
    requires row.status == bookings[b].status && row.items == bookings[b].items && row.event == bookings[b].event
    ensures Seats(tiers, bookings[b := row], tickets, outbox)
  {
    SameSeatsKeep(tiers, bookings, bookings[b := row], tickets, outbox);
  }

  /** A rewrite of one row that leaves its seats and key alone keeps the
      invariant when the new row fits its price, its order and its coupon. */
  lemma RewriteKeeps(db: Db, b: BookingId, row: Booking, redemptions: map<BookingId, Redemption>)
    requires Inv(db) && b < |db.bookings|
    requires row.status == db.bookings[b].status && row.items == db.bookings[b].items
    requires row.event == db.bookings[b].event
    requires !SaveCollides(db.bookings, b, row)
    requires WellPriced(row, db.settings.feeBps) && OrderFits(db.settings, db.orders, b, row)
    requires OnlyRedemptionOf(b, db.redemptions, redemptions) && RowMirrors(b, row, redemptions)
    requires Coupons.WithinCaps(db.coupons, redemptions)
    ensures Inv(WithRow(db, b, row).(redemptions := redemptions))
  {
    SaveKeepsColumns(db.settings, db.orders, db.bookings, b, row);
    SaveKeepsSeats(db.tiers, db.bookings, db.tickets, db.outbox, b, row);
    SaveKeepsCoupons(db.bookings, db.coupons, db.redemptions, redemptions, b, row);
  }

  // --- create --------------------------------------------------------------

  lemma NoTicketsOf(tickets: seq<Ticket>, b: BookingId, t: TierId)
    requires forall i :: 0 <= i < |tickets| ==> tickets[i].booking != b
    ensures Sum(tickets, TicketOf(b, t)) == 0
  {
    forall x | x in tickets ensures TicketOf(b, t)(x) == 0 {}
    SumZero(tickets, TicketOf(b, t));
  }

  lemma NoEventsOf(outbox: seq<DomainEvent>, b: BookingId)
    requires forall i :: 0 <= i < |outbox| ==> outbox[i].booking != b
    ensures Sum(outbox, Confirmations(b)) == 0 && Sum(outbox, Releases(b)) == 0
  {
    forall x | x in outbox ensures Confirmations(b)(x) == 0 && Releases(b)(x) == 0 {}
    SumZero(outbox, Confirmations(b));
    SumZero(outbox, Releases(b));
  }

  lemma CreateKeepsInventory(tiers: map<TierId, Tier>, bookings: seq<Booking>, row: Booking, now: Time)
    requires Inventory(tiers, bookings) && row.status == Reserved
    requires ReserveAll(tiers, row.items, now).Moved?
    ensures Inventory(ReserveAll(tiers, row.items, now).tiers, bookings + [row])
  {
    ReserveAllAddsExactly(tiers, row.items, now);
    var moved := ReserveAll(tiers, row.items, now).tiers;
    var after := bookings + [row];
    forall b | 0 <= b < |after| ensures LinesKnown(moved, after[b].items) {
      assert b < |bookings| ==> after[b] == bookings[b];
    }
    forall t | t in moved
      ensures moved[t].reserved == Sum(after, HeldOf(t, Reserved)) && moved[t].sold == Sum(after, HeldOf(t, Paid))
    {
      SumAppend(bookings, row, HeldOf(t, Reserved));
      SumAppend(bookings, row, HeldOf(t, Paid));
    }
  }

  lemma CreateKeepsTickets(tiers: map<TierId, Tier>, moved: map<TierId, Tier>, bookings: seq<Booking>,
                           row: Booking, tickets: seq<Ticket>)
    requires TicketsMatch(tiers, bookings, tickets) && row.status == Reserved
    requires SameTiers(tiers, moved) && forall t :: t in tiers ==> moved[t].sold == tiers[t].sold
    ensures TicketsMatch(moved, bookings + [row], tickets)
  {
    var after := bookings + [row];
    forall b, t | 0 <= b < |after|
      ensures Sum(tickets, TicketOf(b, t)) == if after[b].status == Paid then Quantity(after[b].items, t) else 0
    {
      if b == |bookings| {
        NoTicketsOf(tickets, b, t);
      } else {
        assert after[b] == bookings[b];
      }
    }
  }

  lemma CreateKeepsLog(bookings: seq<Booking>, row: Booking, outbox: seq<DomainEvent>)
    requires SettledOnce(bookings, outbox) && row.status == Reserved
    ensures SettledOnce(bookings + [row], outbox + [BookingCreated(|bookings|)])
  {
    var after, log := bookings + [row], outbox + [BookingCreated(|bookings|)];
    forall b | 0 <= b < |after|
      ensures Sum(log, Confirmations(b)) == (if after[b].status == Paid then 1 else 0)
      ensures Sum(log, Releases(b)) == (if Closed(after[b]) then 1 else 0)
    {
      SumAppend(outbox, BookingCreated(|bookings|), Confirmations(b));
      SumAppend(outbox, BookingCreated(|bookings|), Releases(b));
      if b == |bookings| {
        NoEventsOf(outbox, b);
      } else {
        assert after[b] == bookings[b];
      }
    }
  }

  lemma {:induction false} ValidItemsArePositive(tiers: map<TierId, Tier>, event: EventId, lines: seq<Item>,
                                                 seen: set<TierId>)
    requires ValidItems(tiers, event, lines, seen)
    ensures forall i :: 0 <= i < |lines| ==> lines[i].quantity >= 1 && lines[i].tier in tiers
  {
    if lines != [] {
      ValidItemsArePositive(tiers, event, lines[1..], seen + {lines[0].tier});
      forall i | 0 <= i < |lines| ensures lines[i].quantity >= 1 && lines[i].tier in tiers {
        assert i > 0 ==> lines[i] == lines[1..][i - 1];
      }
    }
  }

  lemma AppendKeepsColumns(settings: Settings, orders: seq<Order>, bookings: seq<Booking>, row: Booking)
    requires Columns(settings, orders, bookings) && WellPriced(row, settings.feeBps) && row.order.None?
    requires !KeyTakenIn(bookings, row.user, row.key)
    ensures Columns(settings, orders, bookings + [row])
  {
  }

  lemma AppendKeepsCoupons(bookings: seq<Booking>, coupons: map<CouponId, Coupon>,
                           redemptions: map<BookingId, Redemption>, row: Booking)
    requires CouponsAgree(bookings, coupons, redemptions) && row.discount == 0
    ensures CouponsAgree(bookings + [row], coupons, redemptions)
  {
  }

  lemma ReservingKeepsSeats(tiers: map<TierId, Tier>, bookings: seq<Booking>, tickets: seq<Ticket>,
                            outbox: seq<DomainEvent>, row: Booking, now: Time)
    requires Seats(tiers, bookings, tickets, outbox) && row.status == Reserved
    requires ReserveAll(tiers, row.items, now).Moved?
    ensures Seats(ReserveAll(tiers, row.items, now).tiers, bookings + [row], tickets,
                  outbox + [BookingCreated(|bookings|)])
  {
    ReserveAllAddsExactly(tiers, row.items, now);
    CreateKeepsInventory(tiers, bookings, row, now);
    CreateKeepsTickets(tiers, ReserveAll(tiers, row.items, now).tiers, bookings, row, tickets);
    CreateKeepsLog(bookings, row, outbox);
  }

  lemma NewRowIsWellPriced(db: Db, user: UserId, event: EventId, lines: seq<Item>, donation: int, key: Option<string>)
    requires lines != [] && donation >= 0 && forall i :: 0 <= i < |lines| ==> lines[i].quantity >= 1
    ensures WellPriced(NewRow(db, user, event, lines, donation, key), db.settings.feeBps)
  {
  }

  /** What a committed create had checked, and what it wrote. */
  lemma CreatedFacts(db: Db, user: UserId, event: EventId, bookable: bool, lines: seq<Item>,
                     donation: int, key: Option<string>)
    requires Create(db, user, event, bookable, lines, donation, key).Committed?
    ensures lines != [] && donation >= 0 && ValidItems(db.tiers, event, lines, {})
    ensures ReserveAll(db.tiers, lines, db.clock).Moved? && !KeyTakenIn(db.bookings, user, key)
    ensures Create(db, user, event, bookable, lines, donation, key).db
         == db.(tiers := ReserveAll(db.tiers, lines, db.clock).tiers,
                bookings := db.bookings + [NewRow(db, user, event, lines, donation, key)],
                outbox := db.outbox + [BookingCreated(|db.bookings|)])
  {
  }

  lemma CreateKeeps(db: Db, user: UserId, event: EventId, bookable: bool, lines: seq<Item>,
                    donation: int, key: Option<string>)
    requires Inv(db) && Create(db, user, event, bookable, lines, donation, key).Committed?
    ensures Inv(Create(db, user, event, bookable, lines, donation, key).db)
  {
    CreatedFacts(db, user, event, bookable, lines, donation, key);
    ValidItemsArePositive(db.tiers, event, lines, {});
    NewRowIsWellPriced(db, user, event, lines, donation, key);
    InsertedRowKeeps(db, NewRow(db, user, event, lines, donation, key));
  }

  /** A fresh reserved row whose lines were all reserved. */
  lemma InsertedRowKeeps(db: Db, row: Booking)
    requires Inv(db) && WellPriced(row, db.settings.feeBps)
    requires row.status == Reserved && row.order.None? && row.discount == 0
    requires !KeyTakenIn(db.bookings, row.user, row.key) && ReserveAll(db.tiers, row.items, db.clock).Moved?
    ensures Inv(db.(tiers := ReserveAll(db.tiers, row.items, db.clock).tiers,
                    bookings := db.bookings + [row],
                    outbox := db.outbox + [BookingCreated(|db.bookings|)]))
  {
    AppendKeepsColumns(db.settings, db.orders, db.bookings, row);
    AppendKeepsCoupons(db.bookings, db.coupons, db.redemptions, row);
    ReservingKeepsSeats(db.tiers, db.bookings, db.tickets, db.outbox, row, db.clock);
  }

  /** What an insert writes, and what it takes to be committed. */
  lemma InsertedFacts(db: Db, user: UserId, event: EventId, lines: seq<Item>, donation: int, key: Option<string>)
    requires ReserveAndInsert(db, user, event, lines, donation, key).Committed?
    ensures ReserveAll(db.tiers, lines, db.clock).Moved? && !KeyTakenIn(db.bookings, user, key)
    ensures var row := NewRow(db, user, event, lines, donation, key);
      ReserveAndInsert(db, user, event, lines, donation, key).db
      == db.(tiers := ReserveAll(db.tiers, row.items, db.clock).tiers,
             bookings := db.bookings + [row],
             outbox := db.outbox + [BookingCreated(|db.bookings|)])
  {
  }

  predicate Orderable(lines: seq<Item>, donation: int) {
    lines != [] && donation >= 0 && forall i :: 0 <= i < |lines| ==> lines[i].quantity >= 1
  }

  lemma ReserveAndInsertKeeps(db: Db, user: UserId, event: EventId, lines: seq<Item>, donation: int,
                              key: Option<string>)
    requires Inv(db) && Orderable(lines, donation)
    requires ReserveAndInsert(db, user, event, lines, donation, key).Committed?
    ensures Inv(ReserveAndInsert(db, user, event, lines, donation, key).db)
  {
    InsertedFacts(db, user, event, lines, donation, key);
    NewRowIsWellPriced(db, user, event, lines, donation, key);
    InsertedRowKeeps(db, NewRow(db, user, event, lines, donation, key));
  }

  // --- giving a hold up ----------------------------------------------------

  /** A reserved booking's seats are among those its tiers hold. */
  lemma HeldSeatsAreReserved(tiers: map<TierId, Tier>, bookings: seq<Booking>, b: BookingId)
    requires Inventory(tiers, bookings) && b < |bookings| && bookings[b].status == Reserved
    ensures LinesKnown(tiers, bookings[b].items)
    ensures forall t :: t in tiers ==> Quantity(bookings[b].items, t) <= tiers[t].reserved
  {
    forall t | t in tiers ensures Quantity(bookings[b].items, t) <= tiers[t].reserved {
      SumAtLeast(bookings, b, HeldOf(t, Reserved));
    }
  }

  lemma StatusMoves(bookings: seq<Booking>, b: BookingId, row: Booking, t: TierId)
    requires b < |bookings| && bookings[b].status == Reserved && row.items == bookings[b].items
    requires row.status != Reserved
    ensures Sum(bookings[b := row], HeldOf(t, Reserved)) == Sum(bookings, HeldOf(t, Reserved)) - Quantity(row.items, t)
    ensures Sum(bookings[b := row], HeldOf(t, Paid))
         == Sum(bookings, HeldOf(t, Paid)) + (if row.status == Paid then Quantity(row.items, t) else 0)
  {
    SumUpdate(bookings, b, row, HeldOf(t, Reserved));
    SumUpdate(bookings, b, row, HeldOf(t, Paid));
  }

  lemma GiveUpKeepsInventory(tiers: map<TierId, Tier>, bookings: seq<Booking>, b: BookingId, row: Booking)
    requires Inventory(tiers, bookings) && b < |bookings| && bookings[b].status == Reserved
    requires row.items == bookings[b].items && Closed(row)
    ensures ReleaseAll(tiers, row.items).Moved?
    ensures Inventory(ReleaseAll(tiers, row.items).tiers, bookings[b := row])
    ensures SameTiers(tiers, ReleaseAll(tiers, row.items).tiers)
    ensures forall t :: t in tiers ==> ReleaseAll(tiers, row.items).tiers[t].sold == tiers[t].sold
  {
    HeldSeatsAreReserved(tiers, bookings, b);
    ReleaseAllSubtractsExactly(tiers, row.items);
    var moved := ReleaseAll(tiers, row.items).tiers;
    forall t | t in moved
      ensures moved[t].reserved == Sum(bookings[b := row], HeldOf(t, Reserved))
      ensures moved[t].sold == Sum(bookings[b := row], HeldOf(t, Paid))
    {
      StatusMoves(bookings, b, row, t);
    }
  }

  lemma LogKeeps(bookings: seq<Booking>, outbox: seq<DomainEvent>, b: BookingId, row: Booking, e: DomainEvent)
    requires SettledOnce(bookings, outbox) && b < |bookings| && bookings[b].status == Reserved
    requires (e.BookingCancelled? && Closed(row)) || (e.BookingConfirmed? && row.status == Paid)
    requires e.booking == b
    ensures SettledOnce(bookings[b := row], outbox + [e])
  {
    var after, log := bookings[b := row], outbox + [e];
    forall k | 0 <= k < |after|
      ensures Sum(log, Confirmations(k)) == (if after[k].status == Paid then 1 else 0)
      ensures Sum(log, Releases(k)) == (if Closed(after[k]) then 1 else 0)
    {
      SumAppend(outbox, e, Confirmations(k));
      SumAppend(outbox, e, Releases(k));
    }
  }

  lemma ClosingKeepsTickets(tiers: map<TierId, Tier>, moved: map<TierId, Tier>, bookings: seq<Booking>,
                            tickets: seq<Ticket>, b: BookingId, row: Booking)
    requires TicketsMatch(tiers, bookings, tickets) && b < |bookings| && bookings[b].status == Reserved
    requires row.items == bookings[b].items && row.event == bookings[b].event && Closed(row)
    requires SameTiers(tiers, moved) && forall t :: t in tiers ==> moved[t].sold == tiers[t].sold
    ensures TicketsMatch(moved, bookings[b := row], tickets)
  {
  }

  /** Closing or confirming a row leaves its price, order and key as they were. */
  lemma SettlingKeepsColumns(settings: Settings, orders: seq<Order>, bookings: seq<Booking>, b: BookingId, row: Booking)
    requires Columns(settings, orders, bookings) && b < |bookings|
    requires row == bookings[b].(status := row.status, paymentRef := row.paymentRef)
    ensures Columns(settings, orders, bookings[b := row])
  {
    SameKeyDoesNotCollide(bookings, b, row);
    SaveKeepsColumns(settings, orders, bookings, b, row);
  }

  lemma ClosingKeepsSeats(tiers: map<TierId, Tier>, bookings: seq<Booking>, tickets: seq<Ticket>,
                          outbox: seq<DomainEvent>, b: BookingId, row: Booking, reason: string)
    requires Seats(tiers, bookings, tickets, outbox) && b < |bookings| && bookings[b].status == Reserved
    requires row.items == bookings[b].items && row.event == bookings[b].event && Closed(row)
    ensures ReleaseAll(tiers, row.items).Moved?
    ensures Seats(ReleaseAll(tiers, row.items).tiers, bookings[b := row], tickets,
                  outbox + [BookingCancelled(b, reason)])
  {
    GiveUpKeepsInventory(tiers, bookings, b, row);
    ClosingKeepsTickets(tiers, ReleaseAll(tiers, row.items).tiers, bookings, tickets, b, row);
    LogKeeps(bookings, outbox, b, row, BookingCancelled(b, reason));
  }

  lemma ClosingKeepsCoupons(bookings: seq<Booking>, coupons: map<CouponId, Coupon>,
                            redemptions: map<BookingId, Redemption>, b: BookingId, row: Booking)
    requires CouponsAgree(bookings, coupons, redemptions) && b < |bookings| && Closed(row)
    ensures CouponsAgree(bookings[b := row], coupons, redemptions - {b})
  {
    Coupons.ReleaseKeepsCaps(coupons, redemptions, b);
    SaveKeepsCoupons(bookings, coupons, redemptions, redemptions - {b}, b, row);
  }

  lemma GiveUpKeeps(db: Db, b: BookingId, status: BookingStatus, reason: string)
    requires Inv(db) && b < |db.bookings| && db.bookings[b].status == Reserved
    requires status == Cancelled || status == Expired
    ensures GiveUp(db, b, status, reason).Committed? && Inv(GiveUp(db, b, status, reason).db)
  {
    var row := db.bookings[b].(status := status);
    SettlingKeepsColumns(db.settings, db.orders, db.bookings, b, row);
    ClosingKeepsSeats(db.tiers, db.bookings, db.tickets, db.outbox, b, row, reason);
    ClosingKeepsCoupons(db.bookings, db.coupons, db.redemptions, b, row);
  }

  lemma CancelKeeps(db: Db, b: BookingId, actor: UserId)
    requires Inv(db)
    ensures Inv(After(db, Cancel(db, b, actor)))
  {
    if b < |db.bookings| && db.bookings[b].status == Reserved { GiveUpKeeps(db, b, Cancelled, "user_cancelled"); }
  }

  lemma ReleaseUnstartableKeeps(db: Db, b: BookingId)
    requires Inv(db)
    ensures Inv(After(db, ReleaseUnstartable(db, b)))
  {
    if b < |db.bookings| && db.bookings[b].status == Reserved { GiveUpKeeps(db, b, Cancelled, "payment_order_failed"); }
  }

  lemma SweepKeeps(db: Db, b: BookingId)
    requires Inv(db)
    ensures Inv(After(db, SweepOne(db, b)))
  {
    if b < |db.bookings| && db.bookings[b].status == Reserved { GiveUpKeeps(db, b, Expired, "expired"); }
  }

  // --- re-pricing and the gateway ------------------------------------------

  /** What the invariant says of one row. */
  lemma RowIsGood(db: Db, b: BookingId)
    requires Inv(db) && b < |db.bookings|
    ensures WellPriced(db.bookings[b], db.settings.feeBps)
    ensures OrderFits(db.settings, db.orders, b, db.bookings[b])
    ensures RowMirrors(b, db.bookings[b], db.redemptions)
    ensures !SaveCollides(db.bookings, b, db.bookings[b])
  {
  }

  /** A save that leaves seats, key and discount alone. */
  lemma SaveKeeps(db: Db, b: BookingId, row: Booking)
    requires Inv(db) && b < |db.bookings|
    requires row == db.bookings[b].(donation := row.donation, total := row.total, fee := row.fee,
                                    order := row.order, session := row.session, gateway := row.gateway)
    requires WellPriced(row, db.settings.feeBps) && OrderFits(db.settings, db.orders, b, row)
    ensures Inv(WithRow(db, b, row))
  {
    SameKeyDoesNotCollide(db.bookings, b, row);
    SaveKeepsColumns(db.settings, db.orders, db.bookings, b, row);
    SaveKeepsSeats(db.tiers, db.bookings, db.tickets, db.outbox, b, row);
    SaveKeepsCoupons(db.bookings, db.coupons, db.redemptions, db.redemptions, b, row);
  }

  function Donated(row: Booking, donation: int): Booking {
    row.(donation := donation, total := row.total - row.donation + donation, order := None)
  }

  /** Recovering the total by difference or recomputing it gives the same
      price. */
  lemma DonatedRowIsWellPriced(row: Booking, donation: int, bps: nat)
    requires WellPriced(row, bps) && donation >= 0
    ensures WellPriced(Donated(row, donation), bps)
  {
  }

  lemma RepricedRowIsWellPriced(row: Booking, discount: int, bps: nat)
    requires WellPriced(row, bps) && 0 <= discount <= Subtotal(row.items)
    ensures WellPriced(Reprice(row, Subtotal(row.items), discount, bps), bps)
  {
  }

  lemma DonatedFacts(db: Db, b: BookingId, actor: UserId, donation: int)
    requires SetDonation(db, b, actor, donation).Committed?
    ensures b < |db.bookings| && db.bookings[b].user == actor && db.bookings[b].status == Reserved && donation >= 0
    ensures SetDonation(db, b, actor, donation).db
         == if db.bookings[b].donation == donation then db else WithRow(db, b, Donated(db.bookings[b], donation))
  {
  }

  lemma SetDonationKeeps(db: Db, b: BookingId, actor: UserId, donation: int)
    requires Inv(db) && SetDonation(db, b, actor, donation).Committed?
    ensures Inv(SetDonation(db, b, actor, donation).db)
  {
    DonatedFacts(db, b, actor, donation);
    if db.bookings[b].donation != donation {
      RowIsGood(db, b);
      DonatedRowIsWellPriced(db.bookings[b], donation, db.settings.feeBps);
      SaveKeeps(db, b, Donated(db.bookings[b], donation));
    }
  }

  /** What an accepted code had to satisfy, and what it wrote. */
  lemma CouponedFacts(db: Db, b: BookingId, actor: UserId, code: Option<CouponId>)
    requires SetCoupon(db, b, actor, code).Committed?
    ensures code.Some? && code.value in db.coupons && b < |db.bookings| && db.bookings[b].user == actor
    ensures db.bookings[b].status == Reserved
    ensures var row := db.bookings[b];
      var subtotal, discount := Subtotal(row.items), Coupons.DiscountOn(db.coupons[code.value], Subtotal(row.items));
      && 0 < discount <= subtotal && subtotal - discount + row.donation >= Coupons.MIN_PAYABLE_TOTAL_MINOR
      && SetCoupon(db, b, actor, code).db
      == WithRow(db, b, Reprice(row, subtotal, discount, db.settings.feeBps)).(
         redemptions := db.redemptions[b := Redemption(code.value, actor, discount)])
  {
    var row := db.bookings[b];
    var discount := Coupons.DiscountOn(db.coupons[code.value], Subtotal(row.items));
    Coupons.DiscountIsBounded(db.coupons[code.value], Subtotal(row.items));
    assert (db.redemptions - {b})[b := Redemption(code.value, actor, discount)]
        == db.redemptions[b := Redemption(code.value, actor, discount)];
  }

  lemma CouponedCaps(db: Db, b: BookingId, actor: UserId, code: Option<CouponId>)
    requires SetCoupon(db, b, actor, code).Committed? && Coupons.WithinCaps(db.coupons, db.redemptions)
    ensures Coupons.WithinCaps(db.coupons, SetCoupon(db, b, actor, code).db.redemptions)
  {
    var row, others := db.bookings[b], db.redemptions - {b};
    var discount := Coupons.DiscountOn(db.coupons[code.value], Subtotal(row.items));
    Coupons.ReleaseKeepsCaps(db.coupons, db.redemptions, b);
    Coupons.RedeemKeepsCaps(db.coupons, others, code, b, row.event, row.user, Subtotal(row.items), row.donation,
                            db.clock, discount);
  }

  lemma RepricedRowFits(row: Booking, bps: nat, b: BookingId, discount: int, redemptions: map<BookingId, Redemption>)
    requires WellPriced(row, bps) && 0 <= discount <= Subtotal(row.items) && row.status == Reserved
    requires if b in redemptions then redemptions[b].amount == discount > 0 && redemptions[b].user == row.user
             else discount == 0
    ensures var now := Reprice(row, Subtotal(row.items), discount, bps);
      WellPriced(now, bps) && now.order.None? && RowMirrors(b, now, redemptions)
  {
  }

  lemma SetCouponKeeps(db: Db, b: BookingId, actor: UserId, code: Option<CouponId>)
    requires Inv(db) && SetCoupon(db, b, actor, code).Committed?
    ensures Inv(SetCoupon(db, b, actor, code).db)
  {
    CouponedFacts(db, b, actor, code);
    CouponedCaps(db, b, actor, code);
    var discount := Coupons.DiscountOn(db.coupons[code.value], Subtotal(db.bookings[b].items));
    RepricedKeeps(db, b, discount, db.redemptions[b := Redemption(code.value, actor, discount)]);
  }

  lemma RepricedKeeps(db: Db, b: BookingId, discount: int, redemptions: map<BookingId, Redemption>)
    requires Inv(db) && b < |db.bookings| && db.bookings[b].status == Reserved
    requires 0 <= discount <= Subtotal(db.bookings[b].items)
    requires if b in redemptions
             then redemptions[b].amount == discount > 0 && redemptions[b].user == db.bookings[b].user
             else discount == 0
    requires OnlyRedemptionOf(b, db.redemptions, redemptions) && Coupons.WithinCaps(db.coupons, redemptions)
    ensures Inv(WithRow(db, b, Reprice(db.bookings[b], Subtotal(db.bookings[b].items), discount, db.settings.feeBps)).(
                redemptions := redemptions))
  {
    var now := Reprice(db.bookings[b], Subtotal(db.bookings[b].items), discount, db.settings.feeBps);
    RowIsGood(db, b);
    RepricedRowFits(db.bookings[b], db.settings.feeBps, b, discount, redemptions);
    SameKeyDoesNotCollide(db.bookings, b, now);
    RewriteKeeps(db, b, now, redemptions);
  }

  lemma ClearedFacts(db: Db, b: BookingId, actor: UserId)
    requires ClearCoupon(db, b, actor).Committed?
    ensures b < |db.bookings| && db.bookings[b].user == actor && db.bookings[b].status == Reserved
    ensures ClearCoupon(db, b, actor).db
         == if b !in db.redemptions && db.bookings[b].discount == 0 then db
            else WithRow(db, b, Reprice(db.bookings[b], Subtotal(db.bookings[b].items), 0, db.settings.feeBps)).(
                 redemptions := db.redemptions - {b})
  {
  }

  lemma ClearCouponKeeps(db: Db, b: BookingId, actor: UserId)
    requires Inv(db) && ClearCoupon(db, b, actor).Committed?
    ensures Inv(ClearCoupon(db, b, actor).db)
  {
    ClearedFacts(db, b, actor);
    if b in db.redemptions || db.bookings[b].discount != 0 {
      Coupons.ReleaseKeepsCaps(db.coupons, db.redemptions, b);
      RepricedKeeps(db, b, 0, db.redemptions - {b});
    }
  }

  /** The row as a gateway choice leaves it: an order of another gateway is
      dropped with its session. */
  function Regatewayed(settings: Settings, row: Booking, wanted: Gateway): Booking {
    if row.order.Some? && GatewayOrDefault(settings, row) != wanted
    then row.(order := None, session := "", gateway := wanted) else row.(gateway := wanted)
  }

  lemma RegatewayedFits(settings: Settings, orders: seq<Order>, b: BookingId, row: Booking, wanted: Gateway)
    requires OrderFits(settings, orders, b, row) && wanted != ""
    ensures OrderFits(settings, orders, b, Regatewayed(settings, row, wanted))
  {
  }

  lemma GatewayFacts(db: Db, b: BookingId, actor: UserId, wanted: Gateway)
    requires SetGateway(db, b, actor, wanted).Committed?
    ensures b < |db.bookings| && db.bookings[b].user == actor && db.bookings[b].status == Reserved
    ensures wanted in db.settings.offered
    ensures SetGateway(db, b, actor, wanted).db == WithRow(db, b, Regatewayed(db.settings, db.bookings[b], wanted))
  {
  }

  lemma SetGatewayKeeps(db: Db, b: BookingId, actor: UserId, wanted: Gateway)
    requires Inv(db) && SetGateway(db, b, actor, wanted).Committed?
    ensures Inv(SetGateway(db, b, actor, wanted).db)
  {
    GatewayFacts(db, b, actor, wanted);
    assert ValidSettings(db.settings);
    RegatewayedKeeps(db, b, wanted);
  }

  lemma RegatewayedKeeps(db: Db, b: BookingId, wanted: Gateway)
    requires Inv(db) && b < |db.bookings| && wanted != ""
    ensures Inv(WithRow(db, b, Regatewayed(db.settings, db.bookings[b], wanted)))
  {
    RowIsGood(db, b);
    RegatewayedFits(db.settings, db.orders, b, db.bookings[b], wanted);
    SaveKeeps(db, b, Regatewayed(db.settings, db.bookings[b], wanted));
  }

  /** Rows that differ at most by a key that was dropped. */
  ghost predicate KeysDropped(before: seq<Booking>, after: seq<Booking>) {
    && |before| == |after|
    && forall i :: 0 <= i < |before| ==> after[i] == before[i] || after[i] == before[i].(key := None)
  }

  lemma DroppedKeysKeepColumns(settings: Settings, orders: seq<Order>, before: seq<Booking>, after: seq<Booking>)
    requires Columns(settings, orders, before) && KeysDropped(before, after)
    ensures Columns(settings, orders, after)
  {
  }

  lemma DroppedKeysKeepCoupons(before: seq<Booking>, after: seq<Booking>, coupons: map<CouponId, Coupon>,
                               redemptions: map<BookingId, Redemption>)
    requires CouponsAgree(before, coupons, redemptions) && KeysDropped(before, after)
    ensures CouponsAgree(after, coupons, redemptions)
  {
  }

  lemma ReleaseKeyKeeps(db: Db, user: UserId, key: Option<string>)
    requires Inv(db)
    ensures Inv(ReleaseKey(db, user, key))
  {
    var after := ReleaseKey(db, user, key).bookings;
    DroppedKeysKeepColumns(db.settings, db.orders, db.bookings, after);
    SameSeatsKeep(db.tiers, db.bookings, after, db.tickets, db.outbox);
    DroppedKeysKeepCoupons(db.bookings, after, db.coupons, db.redemptions);
  }

  lemma MoreOrdersKeepColumns(settings: Settings, orders: seq<Order>, more: seq<Order>, bookings: seq<Booking>)
    requires Columns(settings, orders, bookings)
    ensures Columns(settings, orders + more, bookings)
  {
  }

  lemma PlaceOrderKeeps(db: Db, b: BookingId, read: Booking, requested: Gateway)
    requires Inv(db)
    ensures Inv(PlaceOrder(db, b, read, requested))
  {
    MoreOrdersKeepColumns(db.settings, db.orders, [Order(b, read.total, ChosenGateway(db.settings, read, requested))],
                          db.bookings);
  }

  // --- confirm and void ----------------------------------------------------

  lemma {:induction false} CopiesCount(k: Ticket, n: nat, w: Ticket -> nat)
    ensures Sum(Copies(k, n), w) == n * w(k)
  {
    if n > 0 {
      assert Copies(k, n)[1..] == Copies(k, n - 1);
      CopiesCount(k, n - 1, w);
    }
  }

  /** Issuing a booking's tickets makes exactly `quantity` per line, all of
      that booking, that event and active. */
  lemma {:induction false} IssueCounts(b: BookingId, event: EventId, items: seq<Item>, t: TierId)
    ensures Sum(Issue(b, event, items), TicketOf(b, t)) == Quantity(items, t)
    ensures Sum(Issue(b, event, items), OfTier(t)) == Quantity(items, t)
    ensures forall k :: k in Issue(b, event, items) ==> k.booking == b && k.event == event && k.status == Active
  {
    if items != [] {
      var k := Ticket(b, items[0].tier, event, Active);
      var first, rest := Copies(k, items[0].quantity), Issue(b, event, items[1..]);
      CopiesCount(k, items[0].quantity, TicketOf(b, t));
      CopiesCount(k, items[0].quantity, OfTier(t));
      SumConcat(first, rest, TicketOf(b, t));
      SumConcat(first, rest, OfTier(t));
      IssueCounts(b, event, items[1..], t);
    }
  }

  lemma ConfirmKeepsInventory(tiers: map<TierId, Tier>, bookings: seq<Booking>, b: BookingId, row: Booking)
    requires Inventory(tiers, bookings) && b < |bookings| && bookings[b].status == Reserved
    requires row.items == bookings[b].items && row.status == Paid
    ensures ConfirmAll(tiers, row.items).Moved?
    ensures Inventory(ConfirmAll(tiers, row.items).tiers, bookings[b := row])
    ensures SameTiers(tiers, ConfirmAll(tiers, row.items).tiers)
    ensures forall t :: t in tiers ==>
              ConfirmAll(tiers, row.items).tiers[t].sold == tiers[t].sold + Quantity(row.items, t)
  {
    HeldSeatsAreReserved(tiers, bookings, b);
    ConfirmAllMovesExactly(tiers, row.items);
    var moved := ConfirmAll(tiers, row.items).tiers;
    forall t | t in moved
      ensures moved[t].reserved == Sum(bookings[b := row], HeldOf(t, Reserved))
      ensures moved[t].sold == Sum(bookings[b := row], HeldOf(t, Paid))
    {
      StatusMoves(bookings, b, row, t);
    }
  }

  lemma ConfirmKeepsTickets(tiers: map<TierId, Tier>, moved: map<TierId, Tier>, bookings: seq<Booking>,
                            tickets: seq<Ticket>, b: BookingId, row: Booking)
    requires TicketsMatch(tiers, bookings, tickets) && b < |bookings| && bookings[b].status == Reserved
    requires row.items == bookings[b].items && row.event == bookings[b].event && row.status == Paid
    requires SameTiers(tiers, moved)
    requires forall t :: t in tiers ==> moved[t].sold == tiers[t].sold + Quantity(row.items, t)
    ensures TicketsMatch(moved, bookings[b := row], tickets + Issue(b, row.event, row.items))
  {
    var issued := Issue(b, row.event, row.items);
    var after, all := bookings[b := row], tickets + issued;
    forall i | 0 <= i < |all|
      ensures all[i].booking < |after| && all[i].event == after[all[i].booking].event
    {
      if i >= |tickets| {
        assert all[i] in issued;
        IssueCounts(b, row.event, row.items, 0);
      }
    }
    forall k, t | 0 <= k < |after|
      ensures Sum(all, TicketOf(k, t)) == if after[k].status == Paid then Quantity(after[k].items, t) else 0
    {
      SumConcat(tickets, issued, TicketOf(k, t));
      IssueCounts(b, row.event, row.items, t);
      if k != b {
        NoTicketsOf(issued, k, t);
      }
    }
    forall t | t in moved ensures Sum(all, OfTier(t)) == moved[t].sold {
      SumConcat(tickets, issued, OfTier(t));
      IssueCounts(b, row.event, row.items, t);
    }
  }

  lemma ConfirmKeepsLog(bookings: seq<Booking>, outbox: seq<DomainEvent>, b: BookingId, row: Booking, ids: seq<nat>)
    requires SettledOnce(bookings, outbox) && b < |bookings| && bookings[b].status == Reserved && row.status == Paid
    ensures SettledOnce(bookings[b := row], outbox + [BookingConfirmed(b, ids), TicketIssued(b, ids)])
  {
    LogKeeps(bookings, outbox, b, row, BookingConfirmed(b, ids));
    var log := outbox + [BookingConfirmed(b, ids)];
    forall k ensures Sum(log + [TicketIssued(b, ids)], Confirmations(k)) == Sum(log, Confirmations(k))
             ensures Sum(log + [TicketIssued(b, ids)], Releases(k)) == Sum(log, Releases(k))
    {
      SumAppend(log, TicketIssued(b, ids), Confirmations(k));
      SumAppend(log, TicketIssued(b, ids), Releases(k));
    }
    assert outbox + [BookingConfirmed(b, ids), TicketIssued(b, ids)] == log + [TicketIssued(b, ids)];
  }

  lemma ConfirmingKeepsSeats(tiers: map<TierId, Tier>, bookings: seq<Booking>, tickets: seq<Ticket>,
                             outbox: seq<DomainEvent>, b: BookingId, row: Booking, ids: seq<nat>)
    requires Seats(tiers, bookings, tickets, outbox) && b < |bookings| && bookings[b].status == Reserved
    requires row.items == bookings[b].items && row.event == bookings[b].event && row.status == Paid
    ensures ConfirmAll(tiers, row.items).Moved?
    ensures Seats(ConfirmAll(tiers, row.items).tiers, bookings[b := row], tickets + Issue(b, row.event, row.items),
                  outbox + [BookingConfirmed(b, ids), TicketIssued(b, ids)])
  {
    ConfirmKeepsInventory(tiers, bookings, b, row);
    ConfirmKeepsTickets(tiers, ConfirmAll(tiers, row.items).tiers, bookings, tickets, b, row);
    ConfirmKeepsLog(bookings, outbox, b, row, ids);
  }

  lemma ConfirmKeeps(db: Db, b: BookingId, ref: string)
    requires Inv(db) && b < |db.bookings|
    ensures Confirm(db, b, ref).Committed? && Inv(Confirm(db, b, ref).db)
  {
    if Confirmable(db.bookings[b], db.clock) {
      var row := db.bookings[b].(status := Paid, paymentRef := ref);
      SettlingKeepsColumns(db.settings, db.orders, db.bookings, b, row);
      ConfirmingKeepsSeats(db.tiers, db.bookings, db.tickets, db.outbox, b, row,
                           IdsFrom(|db.tickets|, |Issue(b, row.event, row.items)|));
      RowIsGood(db, b);
      SaveKeepsCoupons(db.bookings, db.coupons, db.redemptions, db.redemptions, b, row);
    }
  }

  ghost predicate SameTickets(a: seq<Ticket>, b: seq<Ticket>) {
    && |a| == |b|
    && forall i :: 0 <= i < |a| ==> a[i].(status := b[i].status) == b[i]
  }

  lemma SameTicketsKeep(tiers: map<TierId, Tier>, bookings: seq<Booking>, before: seq<Ticket>, after: seq<Ticket>)
    requires TicketsMatch(tiers, bookings, before) && SameTickets(before, after)
    ensures TicketsMatch(tiers, bookings, after)
  {
    forall b, t ensures Sum(before, TicketOf(b, t)) == Sum(after, TicketOf(b, t)) {
      SumPointwise(before, after, TicketOf(b, t), TicketOf(b, t));
    }
    forall t ensures Sum(before, OfTier(t)) == Sum(after, OfTier(t)) {
      SumPointwise(before, after, OfTier(t), OfTier(t));
    }
    forall i | 0 <= i < |after|
      ensures after[i].booking < |bookings| && after[i].event == bookings[after[i].booking].event
    {
      assert before[i].(status := after[i].status) == after[i];
    }
  }

  lemma VoidKeeps(db: Db, b: BookingId)
    requires Inv(db)
    ensures Inv(VoidTickets(db, b))
  {
    SameTicketsKeep(db.tiers, db.bookings, db.tickets, VoidTickets(db, b).tickets);
  }

  lemma MarkUsedKeeps(db: Db, t: nat)
    requires Inv(db)
    ensures Inv(MarkUsed(db, t))
  {
    assert SameTickets(db.tickets, MarkUsed(db, t).tickets);
    SameTicketsKeep(db.tiers, db.bookings, db.tickets, MarkUsed(db, t).tickets);
  }
}
