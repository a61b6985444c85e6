/** Runs of the booking service: any interleaving of its transactions, with
    the unlocked save of a payment order as a step of its own. */
module BookingRuns {
  import opened Seqs
  import opened Tables
  import opened Ticketing
  import opened Bookings
  import opened BookingInvariant
  import Coupons

  // --- the save outside the lock -------------------------------------------

  /** `read` is a copy of the row a request may be holding, and order `o` is
      the one the provider created for it. */
  ghost predicate OrderRequest(db: Db, b: BookingId, read: Booking, requested: Gateway, o: OrderId) {
    && b < |db.bookings| && o < |db.orders|
    && NeedsOrder(read)
    && db.orders[o] == Order(b, read.total, ChosenGateway(db.settings, read, requested))
  }

  /** What the row must still be when the save lands. */
  predicate SafeToAttach(row: Booking, read: Booking) {
    row.status == Reserved && row.discount == read.discount
  }

  lemma ReopenedRowOverstatesHolds(tiers: map<TierId, Tier>, bookings: seq<Booking>, b: BookingId, row: Booking)
    requires Inventory(tiers, bookings) && b < |bookings|
    requires bookings[b].status != Reserved && row.status == Reserved && row.items == bookings[b].items
    requires row.items != [] && row.items[0].quantity >= 1
    ensures !Inventory(tiers, bookings[b := row])
  {
    var t := row.items[0].tier;
    SumAtLeast(row.items, 0, QuantityOf(t));
    SumUpdate(bookings, b, row, HeldOf(t, Reserved));
    assert LinesKnown(tiers, bookings[b].items);
  }

  /** The save of a row read earlier keeps the invariant exactly when the row
      is still reserved and still carries the discount that was read. What
      else was committed in between is then consistently overwritten, or the
      unique key refuses the save. */
  lemma AttachKeepsExactlyWhenSafe(db: Db, b: BookingId, read: Booking, requested: Gateway, o: OrderId, session: string)
    requires Inv(db) && OrderRequest(db, b, read, requested, o)
    requires SameIdentity(read, db.bookings[b]) && WellPriced(read, db.settings.feeBps)
    requires AttachOrder(db, b, read, o, session).Committed?
    ensures Inv(AttachOrder(db, b, read, o, session).db) <==> SafeToAttach(db.bookings[b], read)
  {
    var row := WithOrder(read, o, db.orders[o].gateway, session);
    var after := AttachOrder(db, b, read, o, session).db;
    assert after == WithRow(db, b, row);
    if db.bookings[b].status != Reserved {
      ReopenedRowOverstatesHolds(db.tiers, db.bookings, b, row);
    } else if db.bookings[b].discount != read.discount {
      assert after.bookings[b].discount != RedeemedAmount(db.redemptions, b);
      assert !CouponMirror(after.bookings, after.redemptions);
    } else {
      AttachFits(db, b, read, requested, o, session);
      RewriteKeeps(db, b, row, db.redemptions);
      assert after == WithRow(db, b, row).(redemptions := db.redemptions);
    }
  }

  lemma AttachFits(db: Db, b: BookingId, read: Booking, requested: Gateway, o: OrderId, session: string)
    requires ValidSettings(db.settings) && OrderRequest(db, b, read, requested, o)
    requires WellPriced(read, db.settings.feeBps)
    ensures var row := WithOrder(read, o, db.orders[o].gateway, session);
      WellPriced(row, db.settings.feeBps) && OrderFits(db.settings, db.orders, b, row)
  {
  }

  /** What goes wrong otherwise: a cancel that lands between the read and the
      save is undone by the save. The seats it released count as free while a
      reserved row claims them again. */
  lemma CancelDuringOrderCallIsUndone(db: Db, b: BookingId, requested: Gateway, session: string)
    requires Inv(db) && b < |db.bookings| && NeedsOrder(db.bookings[b])
    ensures
      var read := db.bookings[b];
      var placed := PlaceOrder(db, b, read, requested);
      var cancelled := Cancel(placed, b, read.user);
      && cancelled.Committed? && Inv(cancelled.db) && cancelled.db.bookings[b].status == Cancelled
      && var saved := AttachOrder(cancelled.db, b, read, |db.orders|, session);
         saved.Committed? && saved.db.bookings[b].status == Reserved && !Inv(saved.db)
  {
    var read := db.bookings[b];
    var placed := PlaceOrder(db, b, read, requested);
    PlaceOrderKeeps(db, b, read, requested);
    GiveUpKeeps(placed, b, Cancelled, "user_cancelled");
    var cancelled := Cancel(placed, b, read.user).db;
    SameKeyDoesNotCollide(cancelled.bookings, b,
                          WithOrder(read, |db.orders|, placed.orders[|db.orders|].gateway, session));
    AttachKeepsExactlyWhenSafe(cancelled, b, read, requested, |db.orders|, session);
  }

  // --- steps ---------------------------------------------------------------

  datatype Action =
    | CreateBooking(user: UserId, event: EventId, bookable: bool, lines: seq<Item>, donation: int, key: Option<string>)
    | DetachDeadKey(user: UserId, key: Option<string>)
    | PlacePaymentOrder(booking: BookingId, readAt: nat, requested: Gateway)
    | AttachPaymentOrder(booking: BookingId, readAt: nat, requested: Gateway, order: OrderId, session: string)
    | ReleaseUnstartableHold(booking: BookingId)
    | CancelBooking(booking: BookingId, actor: UserId)
    | ChangeDonation(booking: BookingId, actor: UserId, donation: int)
    | ChangeGateway(booking: BookingId, actor: UserId, wanted: Gateway)
    | ApplyCoupon(booking: BookingId, actor: UserId, code: Option<CouponId>)
    | RemoveCoupon(booking: BookingId, actor: UserId)
    | SweepBooking(booking: BookingId)
    | ConfirmBooking(booking: BookingId, ref: string)
    | VoidBooking(booking: BookingId)
    | ScanTicket(ticket: nat)
    | Tick(elapsed: nat)

  ghost function Last(h: seq<Db>): Db
    requires h != []
  {
    h[|h| - 1]
  }

  /** The attach a request makes with the row as the run had it at `readAt`. */
  ghost predicate ValidAttach(h: seq<Db>, a: Action)
    requires h != [] && a.AttachPaymentOrder?
  {
    && a.readAt < |h| && a.booking < |h[a.readAt].bookings|
    && OrderRequest(Last(h), a.booking, h[a.readAt].bookings[a.booking], a.requested, a.order)
  }

  /** One atomic step, after the history `h`. A refused transaction changes nothing. */
  ghost function Step(h: seq<Db>, a: Action): Db
    requires h != []
  {
    var db := Last(h);
    match a
    case CreateBooking(user, event, bookable, lines, donation, key) =>
      After(db, Create(db, user, event, bookable, lines, donation, key))
    case DetachDeadKey(user, key) => ReleaseKey(db, user, key)
    case PlacePaymentOrder(b, readAt, requested) =>
      if readAt < |h| && b < |h[readAt].bookings| && NeedsOrder(h[readAt].bookings[b])
      then PlaceOrder(db, b, h[readAt].bookings[b], requested) else db
    case AttachPaymentOrder(b, readAt, requested, o, session) =>
      if ValidAttach(h, a) then After(db, AttachOrder(db, b, h[readAt].bookings[b], o, session)) else db
    case ReleaseUnstartableHold(b) => After(db, ReleaseUnstartable(db, b))
    case CancelBooking(b, actor) => After(db, Cancel(db, b, actor))
    case ChangeDonation(b, actor, donation) => After(db, SetDonation(db, b, actor, donation))
    case ChangeGateway(b, actor, wanted) => After(db, SetGateway(db, b, actor, wanted))
    case ApplyCoupon(b, actor, code) => After(db, SetCoupon(db, b, actor, code))
    case RemoveCoupon(b, actor) => After(db, ClearCoupon(db, b, actor))
    case SweepBooking(b) => After(db, SweepOne(db, b))
    case ConfirmBooking(b, ref) => After(db, Confirm(db, b, ref))
    case VoidBooking(b) => VoidTickets(db, b)
    case ScanTicket(t) => MarkUsed(db, t)
    case Tick(elapsed) => db.(clock := db.clock + elapsed)
  }

  /** No attach lands on a row that was settled or re-couponed since it was read. */
  ghost predicate SafeStep(h: seq<Db>, a: Action)
    requires h != []
  {
    a.AttachPaymentOrder? && ValidAttach(h, a) ==>
      a.booking < |Last(h).bookings| && SafeToAttach(Last(h).bookings[a.booking], h[a.readAt].bookings[a.booking])
  }

  ghost predicate IsRun(h: seq<Db>, acts: seq<Action>) {
    && |h| == |acts| + 1
    && forall k :: 0 <= k < |acts| ==> h[k + 1] == Step(h[..k + 1], acts[k])
  }

  ghost predicate SafeRun(h: seq<Db>, acts: seq<Action>) {
    && IsRun(h, acts)
    && forall k :: 0 <= k < |acts| ==> SafeStep(h[..k + 1], acts[k])
  }

  // --- what only ever grows ------------------------------------------------

  ghost predicate TicketsExtend(a: seq<Ticket>, b: seq<Ticket>) {
    && |a| <= |b|
    && forall i :: 0 <= i < |a| ==> a[i].(status := b[i].status) == b[i]
  }

  /** A settled row never changes again, except that its key may be dropped. */
  predicate RowExtends(a: Booking, b: Booking) {
    && SameIdentity(a, b)
    && (a.status != Reserved ==> b == a || b == a.(key := None))
  }

  ghost predicate RowsExtend(a: seq<Booking>, b: seq<Booking>) {
    && |a| <= |b|
    && forall i :: 0 <= i < |a| ==> RowExtends(a[i], b[i])
  }

  /** A hold past its deadline is never paid for later. */
  ghost predicate LapsedStayUnpaid(a: Db, b: Db)
    requires |a.bookings| <= |b.bookings|
  {
    forall i :: 0 <= i < |a.bookings| && Sweepable(a.bookings[i], a.clock) ==> b.bookings[i].status != Paid
  }

  ghost predicate Extends(a: Db, b: Db) {
    && a.settings == b.settings && a.coupons == b.coupons && a.clock <= b.clock
    && a.orders <= b.orders && a.outbox <= b.outbox
    && SameTiers(a.tiers, b.tiers)
    && RowsExtend(a.bookings, b.bookings)
    && LapsedStayUnpaid(a, b)
    && TicketsExtend(a.tickets, b.tickets)
  }

  lemma ExtendsIsTransitive(a: Db, b: Db, c: Db)
    requires Extends(a, b) && Extends(b, c)
    ensures Extends(a, c)
  {
    forall i | 0 <= i < |a.bookings| ensures RowExtends(a.bookings[i], c.bookings[i]) {
      assert RowExtends(a.bookings[i], b.bookings[i]) && RowExtends(b.bookings[i], c.bookings[i]);
    }
    forall i | 0 <= i < |a.bookings| && Sweepable(a.bookings[i], a.clock) ensures c.bookings[i].status != Paid {
      assert RowExtends(a.bookings[i], b.bookings[i]) && RowExtends(b.bookings[i], c.bookings[i]);
    }
    forall i | 0 <= i < |a.tickets| ensures a.tickets[i].(status := c.tickets[i].status) == c.tickets[i] {
      assert a.tickets[i].(status := b.tickets[i].status) == b.tickets[i];
      assert b.tickets[i].(status := c.tickets[i].status) == c.tickets[i];
    }
  }

  /** A reserved row settled, its seats moved and its tickets and events appended. */
  lemma SettlingExtends(db: Db, after: Db, b: BookingId, row: Booking)
    requires b < |db.bookings| && db.bookings[b].status == Reserved && after.bookings == db.bookings[b := row]
    requires SameIdentity(db.bookings[b], row) && (row.status == Paid ==> !Sweepable(db.bookings[b], db.clock))
    requires after == db.(bookings := after.bookings, tiers := after.tiers, redemptions := after.redemptions,
                          tickets := after.tickets, outbox := after.outbox)
    requires SameTiers(db.tiers, after.tiers) && db.tickets <= after.tickets && db.outbox <= after.outbox
    ensures Extends(db, after)
  {
  }

  lemma GiveUpExtends(db: Db, b: BookingId, status: BookingStatus, reason: string)
    requires Inv(db) && b < |db.bookings| && db.bookings[b].status == Reserved
    requires status == Cancelled || status == Expired
    ensures GiveUp(db, b, status, reason).Committed? && Extends(db, GiveUp(db, b, status, reason).db)
  {
    HeldSeatsAreReserved(db.tiers, db.bookings, b);
    ReleaseAllSubtractsExactly(db.tiers, db.bookings[b].items);
    SettlingExtends(db, GiveUp(db, b, status, reason).db, b, db.bookings[b].(status := status));
  }

  lemma CancelExtends(db: Db, b: BookingId, actor: UserId)
    requires Inv(db)
    ensures Extends(db, After(db, Cancel(db, b, actor)))
  {
    if b < |db.bookings| && db.bookings[b].status == Reserved { GiveUpExtends(db, b, Cancelled, "user_cancelled"); }
    ExtendsIsReflexive(db);
  }

  lemma ReleaseUnstartableExtends(db: Db, b: BookingId)
    requires Inv(db)
    ensures Extends(db, After(db, ReleaseUnstartable(db, b)))
  {
    if b < |db.bookings| && db.bookings[b].status == Reserved {
      GiveUpExtends(db, b, Cancelled, "payment_order_failed");
    }
    ExtendsIsReflexive(db);
  }

  lemma SweepExtends(db: Db, b: BookingId)
    requires Inv(db)
    ensures Extends(db, After(db, SweepOne(db, b)))
  {
    if b < |db.bookings| && db.bookings[b].status == Reserved { GiveUpExtends(db, b, Expired, "expired"); }
    ExtendsIsReflexive(db);
  }

  lemma ConfirmExtends(db: Db, b: BookingId, ref: string)
    requires Inv(db)
    ensures Extends(db, After(db, Confirm(db, b, ref)))
  {
    if b < |db.bookings| && Confirmable(db.bookings[b], db.clock) {
      HeldSeatsAreReserved(db.tiers, db.bookings, b);
      ConfirmAllMovesExactly(db.tiers, db.bookings[b].items);
      SettlingExtends(db, Confirm(db, b, ref).db, b, db.bookings[b].(status := Paid, paymentRef := ref));
    } else {
      ExtendsIsReflexive(db);
    }
  }

  lemma InsertExtends(db: Db, after: Db, row: Booking)
    requires after == db.(bookings := db.bookings + [row], tiers := after.tiers, outbox := after.outbox)
    requires SameTiers(db.tiers, after.tiers) && db.outbox <= after.outbox
    ensures Extends(db, after)
  {
  }

  lemma CreateExtends(db: Db, user: UserId, event: EventId, bookable: bool, lines: seq<Item>,
                      donation: int, key: Option<string>)
    requires Inv(db)
    ensures Extends(db, After(db, Create(db, user, event, bookable, lines, donation, key)))
  {
    if Create(db, user, event, bookable, lines, donation, key).Committed? {
      CreatedFacts(db, user, event, bookable, lines, donation, key);
      ReserveAllAddsExactly(db.tiers, lines, db.clock);
      InsertExtends(db, Create(db, user, event, bookable, lines, donation, key).db,
                    NewRow(db, user, event, lines, donation, key));
    } else {
      ExtendsIsReflexive(db);
    }
  }

  /** A save that rewrites one reserved row and moves no seat. */
  lemma RewriteExtends(db: Db, b: BookingId, row: Booking, redemptions: map<BookingId, Redemption>)
    requires b < |db.bookings| && db.bookings[b].status == Reserved && SameIdentity(db.bookings[b], row)
    requires row.status == Reserved
    ensures Extends(db, WithRow(db, b, row).(redemptions := redemptions))
    ensures Extends(db, WithRow(db, b, row))
  {
  }

  lemma DonationExtends(db: Db, b: BookingId, actor: UserId, donation: int)
    ensures Extends(db, After(db, SetDonation(db, b, actor, donation)))
  {
  }

  lemma GatewayExtends(db: Db, b: BookingId, actor: UserId, wanted: Gateway)
    ensures Extends(db, After(db, SetGateway(db, b, actor, wanted)))
  {
  }

  lemma CouponExtends(db: Db, b: BookingId, actor: UserId, code: Option<CouponId>)
    ensures Extends(db, After(db, SetCoupon(db, b, actor, code)))
  {
  }

  lemma ClearExtends(db: Db, b: BookingId, actor: UserId)
    ensures Extends(db, After(db, ClearCoupon(db, b, actor)))
  {
  }

  lemma KeyExtends(db: Db, user: UserId, key: Option<string>)
    ensures Extends(db, ReleaseKey(db, user, key))
  {
  }

  lemma VoidExtends(db: Db, b: BookingId)
    ensures Extends(db, VoidTickets(db, b))
  {
  }

  lemma ScanExtends(db: Db, t: nat)
    ensures Extends(db, MarkUsed(db, t))
  {
  }

  lemma OrdersExtend(db: Db, after: Db)
    requires db.orders <= after.orders && db.clock <= after.clock
    requires after == db.(orders := after.orders, clock := after.clock)
    ensures Extends(db, after)
  {
  }

  lemma AttachStepExtends(h: seq<Db>, a: Action)
    requires h != [] && SafeStep(h, a) && a.AttachPaymentOrder?
    requires forall k :: 0 <= k < |h| ==> Extends(h[k], Last(h))
    ensures Extends(Last(h), Step(h, a))
  {
    if ValidAttach(h, a) {
      var db, read := Last(h), h[a.readAt].bookings[a.booking];
      assert RowExtends(read, db.bookings[a.booking]);
      RewriteExtends(db, a.booking, WithOrder(read, a.order, db.orders[a.order].gateway, a.session), db.redemptions);
    } else {
      ExtendsIsReflexive(Last(h));
    }
  }

  lemma StepExtends(h: seq<Db>, a: Action)
    requires h != [] && Inv(Last(h)) && SafeStep(h, a)
    requires forall k :: 0 <= k < |h| ==> Extends(h[k], Last(h))
    ensures Extends(Last(h), Step(h, a))
  {
    if a.AttachPaymentOrder? { AttachStepExtends(h, a); }
    else if Settles(a) { SettleExtends(h, a); } else { ChangeExtends(h, a); }
  }

  predicate Settles(a: Action) {
    a.ReleaseUnstartableHold? || a.CancelBooking? || a.SweepBooking? || a.ConfirmBooking? ||
    a.VoidBooking? || a.ScanTicket?
  }

  lemma SettleExtends(h: seq<Db>, a: Action)
    requires h != [] && Inv(Last(h)) && Settles(a)
    ensures Extends(Last(h), Step(h, a))
  {
    var db, after := Last(h), Step(h, a);
    match a
    case ReleaseUnstartableHold(b) => ReleaseUnstartableExtends(db, b);
    case CancelBooking(b, actor) => CancelExtends(db, b, actor);
    case SweepBooking(b) => SweepExtends(db, b);
    case ConfirmBooking(b, ref) => ConfirmExtends(db, b, ref);
    case VoidBooking(b) => VoidExtends(db, b);
    case ScanTicket(t) => ScanExtends(db, t);
  }

  lemma ChangeExtends(h: seq<Db>, a: Action)
    requires h != [] && Inv(Last(h)) && !Settles(a) && !a.AttachPaymentOrder?
    ensures Extends(Last(h), Step(h, a))
  {
    var db, after := Last(h), Step(h, a);
    match a
    case CreateBooking(user, event, bookable, lines, donation, key) =>
      CreateExtends(db, user, event, bookable, lines, donation, key);
    case ChangeDonation(b, actor, donation) => DonationExtends(db, b, actor, donation);
    case ChangeGateway(b, actor, wanted) => GatewayExtends(db, b, actor, wanted);
    case ApplyCoupon(b, actor, code) => CouponExtends(db, b, actor, code);
    case RemoveCoupon(b, actor) => ClearExtends(db, b, actor);
    case DetachDeadKey(user, key) => KeyExtends(db, user, key);
    case PlacePaymentOrder(b, readAt, requested) => OrdersExtend(db, after);
    case Tick(elapsed) => OrdersExtend(db, after);
  }

  lemma AttachStepKeeps(h: seq<Db>, a: Action)
    requires h != [] && SafeStep(h, a) && a.AttachPaymentOrder?
    requires forall k :: 0 <= k < |h| ==> Inv(h[k]) && Extends(h[k], Last(h))
    ensures Inv(Step(h, a))
  {
    if ValidAttach(h, a) {
      var db, b, read := Last(h), a.booking, h[a.readAt].bookings[a.booking];
      if AttachOrder(db, b, read, a.order, a.session).Committed? {
        assert RowExtends(read, db.bookings[b]);
        assert Inv(h[a.readAt]) && WellPriced(read, db.settings.feeBps);
        AttachKeepsExactlyWhenSafe(db, b, read, a.requested, a.order, a.session);
      }
    }
  }

  lemma StepKeeps(h: seq<Db>, a: Action)
    requires h != [] && SafeStep(h, a)
    requires forall k :: 0 <= k < |h| ==> Inv(h[k]) && Extends(h[k], Last(h))
    ensures Inv(Step(h, a))
  {
    assert Inv(Last(h));
    if a.AttachPaymentOrder? { AttachStepKeeps(h, a); }
    else if Settles(a) { SettleKeeps(h, a); } else { ChangeKeeps(h, a); }
  }

  lemma SettleKeeps(h: seq<Db>, a: Action)
    requires h != [] && Inv(Last(h)) && Settles(a)
    ensures Inv(Step(h, a))
  {
    var db := Last(h);
    match a
    case ReleaseUnstartableHold(b) => ReleaseUnstartableKeeps(db, b);
    case CancelBooking(b, actor) => CancelKeeps(db, b, actor);
    case SweepBooking(b) => SweepKeeps(db, b);
    case ConfirmBooking(b, ref) => if b < |db.bookings| { ConfirmKeeps(db, b, ref); }
    case VoidBooking(b) => VoidKeeps(db, b);
    case ScanTicket(t) => MarkUsedKeeps(db, t);
  }

  lemma ChangeKeeps(h: seq<Db>, a: Action)
    requires h != [] && Inv(Last(h)) && !Settles(a) && !a.AttachPaymentOrder?
    ensures Inv(Step(h, a))
  {
    var db := Last(h);
    match a
    case CreateBooking(user, event, bookable, lines, donation, key) =>
      if Create(db, user, event, bookable, lines, donation, key).Committed? {
        CreateKeeps(db, user, event, bookable, lines, donation, key);
      }
    case DetachDeadKey(user, key) => ReleaseKeyKeeps(db, user, key);
    case PlacePaymentOrder(b, readAt, requested) =>
      if readAt < |h| && b < |h[readAt].bookings| {
        PlaceOrderKeeps(db, b, h[readAt].bookings[b], requested);
      }
    case ChangeDonation(b, actor, donation) =>
      if SetDonation(db, b, actor, donation).Committed? { SetDonationKeeps(db, b, actor, donation); }
    case ChangeGateway(b, actor, wanted) =>
      if SetGateway(db, b, actor, wanted).Committed? { SetGatewayKeeps(db, b, actor, wanted); }
    case ApplyCoupon(b, actor, code) =>
      if SetCoupon(db, b, actor, code).Committed? { SetCouponKeeps(db, b, actor, code); }
    case RemoveCoupon(b, actor) =>
      if ClearCoupon(db, b, actor).Committed? { ClearCouponKeeps(db, b, actor); }
    case Tick(elapsed) =>
  }

  // --- theorems about runs -------------------------------------------------

  ghost predicate AllGood(h: seq<Db>) {
    && (forall k :: 0 <= k < |h| ==> Inv(h[k]))
    && (forall i, j :: 0 <= i <= j < |h| ==> Extends(h[i], h[j]))
  }

  lemma AllGoodAppend(past: seq<Db>, db: Db)
    requires past != [] && AllGood(past) && Inv(db) && Extends(Last(past), db)
    ensures AllGood(past + [db])
  {
    var h := past + [db];
    forall i, j | 0 <= i <= j < |h| ensures Extends(h[i], h[j]) {
      if j < |past| {
        assert h[i] == past[i] && h[j] == past[j];
      } else if i < |past| {
        assert Extends(past[i], past[|past| - 1]);
        ExtendsIsTransitive(past[i], Last(past), db);
      } else {
        ExtendsIsReflexive(db);
      }
    }
  }

  /** Every state of a run from a good database is good, and later states
      only extend earlier ones. */
  lemma {:induction false} RunKeepsInvariant(h: seq<Db>, acts: seq<Action>)
    requires SafeRun(h, acts) && Inv(h[0])
    ensures AllGood(h)
  {
    if acts == [] {
      OneStateIsGood(h);
    } else {
      var past := h[..|acts|];
      LastStepOfRun(h, acts);
      RunKeepsInvariant(past, acts[..|acts| - 1]);
      GoodStep(past, acts[|acts| - 1]);
    }
  }

  lemma OneStateIsGood(h: seq<Db>)
    requires |h| == 1 && Inv(h[0])
    ensures AllGood(h)
  {
    assert h == [h[0]];
    forall k | 0 <= k < |h| ensures h[k] == h[0] {}
    ExtendsIsReflexive(h[0]);
  }

  lemma GoodStep(past: seq<Db>, a: Action)
    requires past != [] && AllGood(past) && SafeStep(past, a)
    ensures AllGood(past + [Step(past, a)])
  {
    StepExtends(past, a);
    StepKeeps(past, a);
    AllGoodAppend(past, Step(past, a));
  }

  lemma ExtendsIsReflexive(db: Db)
    ensures Extends(db, db)
  {
  }

  lemma LastStepOfRun(h: seq<Db>, acts: seq<Action>)
    requires SafeRun(h, acts) && acts != []
    ensures var past, a := h[..|acts|], acts[|acts| - 1];
      && SafeRun(past, acts[..|acts| - 1]) && past != [] && past[0] == h[0]
      && SafeStep(past, a) && h == past + [Step(past, a)]
  {
    var past, before := h[..|acts|], acts[..|acts| - 1];
    forall k | 0 <= k < |before|
      ensures past[k + 1] == Step(past[..k + 1], before[k]) && SafeStep(past[..k + 1], before[k])
    {
      assert past[..k + 1] == h[..k + 1];
    }
    assert h[..|before| + 1] == past;
  }

  /** An empty shop is a good place to start. */
  lemma EmptyShopIsGood(db: Db)
    requires ValidSettings(db.settings)
    requires db.bookings == [] && db.tickets == [] && db.outbox == [] && db.redemptions == map[]
    requires forall t :: t in db.tiers ==> db.tiers[t].reserved == 0 && db.tiers[t].sold == 0
    ensures Inv(db)
  {
    forall c ensures Coupons.RowsFor(db.redemptions, c) == {} {}
    forall c, u ensures Coupons.RowsForUser(db.redemptions, c, u) == {} {}
  }
}
