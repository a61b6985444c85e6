/** What survives every run, saves of stale copies included: prices, orders,
    keys and the capacity of the tiers. */
module BookingRows {
  import opened Seqs
  import opened Tables
  import opened Ticketing
  import opened Bookings
  import opened BookingInvariant
  import opened BookingRuns
  import Coupons

  // --- each transaction ----------------------------------------------------

  lemma SavedRowsStayGood(db: Db, b: BookingId, row: Booking, redemptions: map<BookingId, Redemption>)
    requires RowsGood(db) && b < |db.bookings| && row.items == db.bookings[b].items
    requires !SaveCollides(db.bookings, b, row)
    requires WellPriced(row, db.settings.feeBps) && OrderFits(db.settings, db.orders, b, row)
    ensures RowsGood(WithRow(db, b, row).(redemptions := redemptions))
  {
    SaveKeepsColumns(db.settings, db.orders, db.bookings, b, row);
  }

  lemma CreateKeepsRows(db: Db, user: UserId, event: EventId, bookable: bool, lines: seq<Item>, donation: int,
                        key: Option<string>)
    requires RowsGood(db)
    ensures RowsGood(After(db, Create(db, user, event, bookable, lines, donation, key)))
  {
    if Create(db, user, event, bookable, lines, donation, key).Committed? {
      CreatedFacts(db, user, event, bookable, lines, donation, key);
      ValidItemsArePositive(db.tiers, event, lines, {});
      NewRowIsWellPriced(db, user, event, lines, donation, key);
      InsertedRowsStayGood(db, NewRow(db, user, event, lines, donation, key));
    }
  }

  lemma InsertedRowsStayGood(db: Db, row: Booking)
    requires RowsGood(db) && WellPriced(row, db.settings.feeBps) && row.order.None?
    requires !KeyTakenIn(db.bookings, row.user, row.key) && ReserveAll(db.tiers, row.items, db.clock).Moved?
    ensures RowsGood(db.(tiers := ReserveAll(db.tiers, row.items, db.clock).tiers,
                         bookings := db.bookings + [row],
                         outbox := db.outbox + [BookingCreated(|db.bookings|)]))
  {
    ReserveAllAddsExactly(db.tiers, row.items, db.clock);
    AppendKeepsColumns(db.settings, db.orders, db.bookings, row);
  }

  lemma GiveUpKeepsRows(db: Db, b: BookingId, status: BookingStatus, reason: string)
    requires RowsGood(db) && b < |db.bookings|
    ensures GiveUp(db, b, status, reason).Committed? && RowsGood(GiveUp(db, b, status, reason).db)
  {
    ReleaseAllIff(db.tiers, db.bookings[b].items);
    ReleaseAllTakesNoSeat(db.tiers, db.bookings[b].items);
    SettlingKeepsColumns(db.settings, db.orders, db.bookings, b, db.bookings[b].(status := status));
  }

  lemma {:induction false} KnownLinesConfirm(tiers: map<TierId, Tier>, lines: seq<Item>)
    requires LinesKnown(tiers, lines)
    ensures ConfirmAll(tiers, lines).Moved?
  {
    if lines != [] {
      KnownLinesConfirm(ConfirmSold(tiers, lines[0]).tiers, lines[1..]);
    }
  }

  lemma ConfirmKeepsRows(db: Db, b: BookingId, ref: string)
    requires RowsGood(db)
    ensures RowsGood(After(db, Confirm(db, b, ref)))
  {
    if b < |db.bookings| && Confirmable(db.bookings[b], db.clock) {
      KnownLinesConfirm(db.tiers, db.bookings[b].items);
      ConfirmAllKeepsCapacity(db.tiers, db.bookings[b].items);
      SettlingKeepsColumns(db.settings, db.orders, db.bookings, b,
                           db.bookings[b].(status := Paid, paymentRef := ref));
    }
  }

  lemma DonationKeepsRows(db: Db, b: BookingId, actor: UserId, donation: int)
    requires RowsGood(db)
    ensures RowsGood(After(db, SetDonation(db, b, actor, donation)))
  {
    if SetDonation(db, b, actor, donation).Committed? {
      DonatedFacts(db, b, actor, donation);
      if db.bookings[b].donation != donation {
        DonatedRowIsWellPriced(db.bookings[b], donation, db.settings.feeBps);
        SameKeyDoesNotCollide(db.bookings, b, Donated(db.bookings[b], donation));
        SavedRowsStayGood(db, b, Donated(db.bookings[b], donation), db.redemptions);
      }
    }
  }

  lemma RepricedRowsStayGood(db: Db, b: BookingId, discount: int, redemptions: map<BookingId, Redemption>)
    requires RowsGood(db) && b < |db.bookings| && 0 <= discount <= Subtotal(db.bookings[b].items)
    ensures var now := Reprice(db.bookings[b], Subtotal(db.bookings[b].items), discount, db.settings.feeBps);
      RowsGood(WithRow(db, b, now).(redemptions := redemptions))
  {
    var now := Reprice(db.bookings[b], Subtotal(db.bookings[b].items), discount, db.settings.feeBps);
    RepricedRowIsWellPriced(db.bookings[b], discount, db.settings.feeBps);
    SameKeyDoesNotCollide(db.bookings, b, now);
    SavedRowsStayGood(db, b, now, redemptions);
  }

  lemma CouponKeepsRows(db: Db, b: BookingId, actor: UserId, code: Option<CouponId>)
    requires RowsGood(db)
    ensures RowsGood(After(db, SetCoupon(db, b, actor, code)))
  {
    if SetCoupon(db, b, actor, code).Committed? {
      CouponedFacts(db, b, actor, code);
      var discount := Coupons.DiscountOn(db.coupons[code.value], Subtotal(db.bookings[b].items));
      RepricedRowsStayGood(db, b, discount, db.redemptions[b := Redemption(code.value, actor, discount)]);
    }
  }

  lemma ClearKeepsRows(db: Db, b: BookingId, actor: UserId)
    requires RowsGood(db)
    ensures RowsGood(After(db, ClearCoupon(db, b, actor)))
  {
    if ClearCoupon(db, b, actor).Committed? {
      ClearedFacts(db, b, actor);
      RepricedRowsStayGood(db, b, 0, db.redemptions - {b});
    }
  }

  lemma GatewayKeepsRows(db: Db, b: BookingId, actor: UserId, wanted: Gateway)
    requires RowsGood(db)
    ensures RowsGood(After(db, SetGateway(db, b, actor, wanted)))
  {
    if SetGateway(db, b, actor, wanted).Committed? {
      GatewayFacts(db, b, actor, wanted);
      var now := Regatewayed(db.settings, db.bookings[b], wanted);
      RegatewayedFits(db.settings, db.orders, b, db.bookings[b], wanted);
      SameKeyDoesNotCollide(db.bookings, b, now);
      SavedRowsStayGood(db, b, now, db.redemptions);
    }
  }

  lemma KeyReleaseKeepsRows(db: Db, user: UserId, key: Option<string>)
    requires RowsGood(db)
    ensures RowsGood(ReleaseKey(db, user, key))
  {
    DroppedKeysKeepColumns(db.settings, db.orders, db.bookings, ReleaseKey(db, user, key).bookings);
  }

  lemma OrderKeepsRows(db: Db, b: BookingId, read: Booking, requested: Gateway)
    requires RowsGood(db)
    ensures RowsGood(PlaceOrder(db, b, read, requested))
  {
    MoreOrdersKeepColumns(db.settings, db.orders, [Order(b, read.total, ChosenGateway(db.settings, read, requested))],
                          db.bookings);
  }

  /** The save outside the lock, however stale the copy it writes back. */
  lemma AttachKeepsRows(db: Db, b: BookingId, read: Booking, requested: Gateway, o: OrderId, session: string)
    requires RowsGood(db) && OrderRequest(db, b, read, requested, o)
    requires read.items == db.bookings[b].items && WellPriced(read, db.settings.feeBps)
    ensures RowsGood(After(db, AttachOrder(db, b, read, o, session)))
  {
    if AttachOrder(db, b, read, o, session).Committed? {
      AttachFits(db, b, read, requested, o, session);
      SavedRowsStayGood(db, b, WithOrder(read, o, db.orders[o].gateway, session), db.redemptions);
    }
  }

  // --- runs ----------------------------------------------------------------

  /** What no step changes: settings, tiers but for their counters, and who
      booked what. */
  ghost predicate Persists(a: Db, b: Db) {
    && a.settings == b.settings && SameTiers(a.tiers, b.tiers)
    && |a.bookings| <= |b.bookings|
    && forall i :: 0 <= i < |a.bookings| ==> SameIdentity(a.bookings[i], b.bookings[i])
  }

  lemma PersistsIsTransitive(a: Db, b: Db, c: Db)
    requires Persists(a, b) && Persists(b, c)
    ensures Persists(a, c)
  {
    forall i | 0 <= i < |a.bookings| ensures SameIdentity(a.bookings[i], c.bookings[i]) {
      assert SameIdentity(a.bookings[i], b.bookings[i]) && SameIdentity(b.bookings[i], c.bookings[i]);
    }
  }

  lemma SavePersists(db: Db, after: Db, b: BookingId, row: Booking)
    requires b < |db.bookings| && SameIdentity(db.bookings[b], row) && after.bookings == db.bookings[b := row]
    requires after.settings == db.settings && SameTiers(db.tiers, after.tiers)
    ensures Persists(db, after)
  {
  }

  lemma GiveUpPersists(db: Db, b: BookingId, status: BookingStatus, reason: string)
    requires b < |db.bookings|
    ensures Persists(db, After(db, GiveUp(db, b, status, reason)))
  {
    if GiveUp(db, b, status, reason).Committed? {
      ReleaseAllTakesNoSeat(db.tiers, db.bookings[b].items);
      SavePersists(db, GiveUp(db, b, status, reason).db, b, db.bookings[b].(status := status));
    }
  }

  lemma ConfirmPersists(db: Db, b: BookingId, ref: string)
    ensures Persists(db, After(db, Confirm(db, b, ref)))
  {
    if b < |db.bookings| && Confirmable(db.bookings[b], db.clock)
       && ConfirmAll(db.tiers, db.bookings[b].items).Moved? {
      ConfirmAllKeepsCapacity(db.tiers, db.bookings[b].items);
      SavePersists(db, Confirm(db, b, ref).db, b, db.bookings[b].(status := Paid, paymentRef := ref));
    }
  }

  lemma CreatePersists(db: Db, user: UserId, event: EventId, bookable: bool, lines: seq<Item>, donation: int,
                       key: Option<string>)
    ensures Persists(db, After(db, Create(db, user, event, bookable, lines, donation, key)))
  {
    if Create(db, user, event, bookable, lines, donation, key).Committed? {
      CreatedFacts(db, user, event, bookable, lines, donation, key);
      ReserveAllMovesCountersOnly(db.tiers, lines, db.clock);
    }
  }

  lemma DonationPersists(db: Db, b: BookingId, actor: UserId, donation: int)
    ensures Persists(db, After(db, SetDonation(db, b, actor, donation)))
  {
  }

  lemma CouponPersists(db: Db, b: BookingId, actor: UserId, code: Option<CouponId>)
    ensures Persists(db, After(db, SetCoupon(db, b, actor, code)))
    ensures Persists(db, After(db, ClearCoupon(db, b, actor)))
  {
  }

  lemma GatewayPersists(db: Db, b: BookingId, actor: UserId, wanted: Gateway)
    ensures Persists(db, After(db, SetGateway(db, b, actor, wanted)))
  {
  }

  ghost predicate PersistsAlong(h: seq<Db>) {
    forall i, j :: 0 <= i <= j < |h| ==> Persists(h[i], h[j])
  }

  lemma AttachStepPersists(h: seq<Db>, a: Action)
    requires h != [] && a.AttachPaymentOrder? && PersistsAlong(h)
    ensures Persists(Last(h), Step(h, a))
  {
    var db := Last(h);
    if ValidAttach(h, a) {
      var read := h[a.readAt].bookings[a.booking];
      assert Persists(h[a.readAt], h[|h| - 1]);
      assert SameIdentity(read, db.bookings[a.booking]);
      if AttachOrder(db, a.booking, read, a.order, a.session).Committed? {
        SavePersists(db, Step(h, a), a.booking, WithOrder(read, a.order, db.orders[a.order].gateway, a.session));
      }
    }
  }

  lemma SettleStepPersists(h: seq<Db>, a: Action)
    requires h != [] && Settles(a)
    ensures Persists(Last(h), Step(h, a))
  {
    var db := Last(h);
    match a
    case ReleaseUnstartableHold(b) => if b < |db.bookings| { GiveUpPersists(db, b, Cancelled, "payment_order_failed"); }
    case CancelBooking(b, actor) => if b < |db.bookings| { GiveUpPersists(db, b, Cancelled, "user_cancelled"); }
    case SweepBooking(b) => if b < |db.bookings| { GiveUpPersists(db, b, Expired, "expired"); }
    case ConfirmBooking(b, ref) => ConfirmPersists(db, b, ref);
    case VoidBooking(b) => TicketsPersist(db, VoidTickets(db, b));
    case ScanTicket(t) => TicketsPersist(db, MarkUsed(db, t));
  }

  lemma TicketsPersist(db: Db, after: Db)
    requires after == db.(tickets := after.tickets)
    ensures Persists(db, after)
  {
  }

  lemma ChangeStepPersists(h: seq<Db>, a: Action)
    requires h != [] && !Settles(a) && !a.AttachPaymentOrder?
    ensures Persists(Last(h), Step(h, a))
  {
    var db := Last(h);
    match a
    case CreateBooking(user, event, bookable, lines, donation, key) =>
      CreatePersists(db, user, event, bookable, lines, donation, key);
    case ChangeDonation(b, actor, donation) => DonationPersists(db, b, actor, donation);
    case ChangeGateway(b, actor, wanted) => GatewayPersists(db, b, actor, wanted);
    case ApplyCoupon(b, actor, code) => CouponPersists(db, b, actor, code);
    case RemoveCoupon(b, actor) => CouponPersists(db, b, actor, None);
    case DetachDeadKey(user, key) =>
    case PlacePaymentOrder(b, readAt, requested) =>
    case Tick(elapsed) =>
  }

  /** Nothing that identifies a row or a tier ever changes, in any run from any
      database. */
  lemma {:induction false} EveryRunPersists(h: seq<Db>, acts: seq<Action>)
    requires IsRun(h, acts)
    ensures PersistsAlong(h)
  {
    if acts != [] {
      var past, a := h[..|acts|], acts[|acts| - 1];
      PastOfRun(h, acts);
      EveryRunPersists(past, acts[..|acts| - 1]);
      if a.AttachPaymentOrder? { AttachStepPersists(past, a); }
      else if Settles(a) { SettleStepPersists(past, a); } else { ChangeStepPersists(past, a); }
      OneMorePersists(past, Step(past, a));
    }
  }

  lemma PastOfRun(h: seq<Db>, acts: seq<Action>)
    requires IsRun(h, acts) && acts != []
    ensures var past, a := h[..|acts|], acts[|acts| - 1];
      && IsRun(past, acts[..|acts| - 1]) && past != [] && past[0] == h[0] && h == past + [Step(past, a)]
  {
    var past, before := h[..|acts|], acts[..|acts| - 1];
    forall k | 0 <= k < |before| ensures past[k + 1] == Step(past[..k + 1], before[k]) {
      assert past[..k + 1] == h[..k + 1];
    }
    assert h[..|before| + 1] == past;
  }

  lemma OneMorePersists(past: seq<Db>, db: Db)
    requires past != [] && PersistsAlong(past) && Persists(Last(past), db)
    ensures PersistsAlong(past + [db])
  {
    var h := past + [db];
    forall i, j | 0 <= i <= j < |h| ensures Persists(h[i], h[j]) {
      if j < |past| {
        assert h[i] == past[i] && h[j] == past[j];
      } else if i < |past| {
        assert Persists(past[i], past[|past| - 1]);
        PersistsIsTransitive(past[i], Last(past), db);
      }
    }
  }

  // --- good rows along a run -----------------------------------------------

  ghost predicate GoodRowsAlong(h: seq<Db>) {
    (forall k :: 0 <= k < |h| ==> RowsGood(h[k])) && PersistsAlong(h)
  }

  lemma AttachStepIsGood(h: seq<Db>, a: Action)
    requires h != [] && a.AttachPaymentOrder? && GoodRowsAlong(h)
    ensures RowsGood(Step(h, a))
  {
    var db := Last(h);
    assert RowsGood(db);
    if ValidAttach(h, a) {
      var read := h[a.readAt].bookings[a.booking];
      assert RowsGood(h[a.readAt]) && Persists(h[a.readAt], h[|h| - 1]);
      assert SameIdentity(read, db.bookings[a.booking]);
      AttachKeepsRows(db, a.booking, read, a.requested, a.order, a.session);
    }
  }

  lemma SettleStepIsGood(h: seq<Db>, a: Action)
    requires h != [] && Settles(a) && RowsGood(Last(h))
    ensures RowsGood(Step(h, a))
  {
    var db := Last(h);
    match a
    case ReleaseUnstartableHold(b) =>
      if b < |db.bookings| { GiveUpKeepsRows(db, b, Cancelled, "payment_order_failed"); }
    case CancelBooking(b, actor) => if b < |db.bookings| { GiveUpKeepsRows(db, b, Cancelled, "user_cancelled"); }
    case SweepBooking(b) => if b < |db.bookings| { GiveUpKeepsRows(db, b, Expired, "expired"); }
    case ConfirmBooking(b, ref) => ConfirmKeepsRows(db, b, ref);
    case VoidBooking(b) =>
    case ScanTicket(t) =>
  }

  lemma ChangeStepIsGood(h: seq<Db>, a: Action)
    requires h != [] && !Settles(a) && !a.AttachPaymentOrder? && RowsGood(Last(h))
    ensures RowsGood(Step(h, a))
  {
    var db := Last(h);
    match a
    case CreateBooking(user, event, bookable, lines, donation, key) =>
      CreateKeepsRows(db, user, event, bookable, lines, donation, key);
    case DetachDeadKey(user, key) => KeyReleaseKeepsRows(db, user, key);
    case PlacePaymentOrder(b, readAt, requested) =>
      if readAt < |h| && b < |h[readAt].bookings| { OrderKeepsRows(db, b, h[readAt].bookings[b], requested); }
    case ChangeDonation(b, actor, donation) => DonationKeepsRows(db, b, actor, donation);
    case ChangeGateway(b, actor, wanted) => GatewayKeepsRows(db, b, actor, wanted);
    case ApplyCoupon(b, actor, code) => CouponKeepsRows(db, b, actor, code);
    case RemoveCoupon(b, actor) => ClearKeepsRows(db, b, actor);
    case Tick(elapsed) =>
  }

  /** Over every run at all, saves of stale copies included: each state's rows
      are good, and nothing that identifies a row or a tier ever changes. */
  lemma {:induction false} EveryRunKeepsRows(h: seq<Db>, acts: seq<Action>)
    requires IsRun(h, acts) && RowsGood(h[0])
    ensures GoodRowsAlong(h)
  {
    EveryRunPersists(h, acts);
    if acts != [] {
      var past, a := h[..|acts|], acts[|acts| - 1];
      PastOfRun(h, acts);
      EveryRunKeepsRows(past, acts[..|acts| - 1]);
      assert RowsGood(Last(past));
      if a.AttachPaymentOrder? { AttachStepIsGood(past, a); }
      else if Settles(a) { SettleStepIsGood(past, a); } else { ChangeStepIsGood(past, a); }
    }
  }
}
