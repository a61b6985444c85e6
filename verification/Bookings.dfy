/** The transactions of the booking service, each as the database it commits
    (apps/booking/services.py, apps/booking/repositories.py). */
module Bookings {
  import opened Seqs
  import opened Tables
  import opened Ticketing
  import Coupons
  import Money

  // --- idempotency ---------------------------------------------------------

  /** The rows an idempotency key may answer for. */
  predicate Replayable(row: Booking, now: Time, window: Time) {
    || (row.status == Paid && row.createdAt > now - window)
    || (row.status == Reserved && row.holdExpiresAt > now)
  }

  predicate HoldsKey(row: Booking, user: UserId, key: Option<string>) {
    key.Some? && row.user == user && row.key == key
  }

  predicate KeyTakenIn(bookings: seq<Booking>, user: UserId, key: Option<string>) {
    exists i :: 0 <= i < |bookings| && HoldsKey(bookings[i], user, key)
  }

  function FindReplayable(bookings: seq<Booking>, user: UserId, key: Option<string>,
                          now: Time, window: Time): (found: Option<BookingId>)
    ensures found.Some? ==>
              && found.value < |bookings| && HoldsKey(bookings[found.value], user, key)
              && Replayable(bookings[found.value], now, window)
    ensures found.None? ==>
              forall i :: 0 <= i < |bookings| && HoldsKey(bookings[i], user, key) ==>
                            !Replayable(bookings[i], now, window)
  {
    if bookings == [] then None
    else
      var last := |bookings| - 1;
      var earlier := FindReplayable(bookings[..last], user, key, now, window);
      if earlier.Some? then earlier
      else if HoldsKey(bookings[last], user, key) && Replayable(bookings[last], now, window) then Some(last)
      else None
  }

  /** Detach a key from the row that can never answer for it again. */
  function DetachKey(row: Booking, user: UserId, key: Option<string>, now: Time, window: Time): Booking {
    if HoldsKey(row, user, key) && !Replayable(row, now, window) then row.(key := None) else row
  }

  function ReleaseKey(db: Db, user: UserId, key: Option<string>): Db {
    db.(bookings := seq(|db.bookings|, i requires 0 <= i < |db.bookings| =>
      DetachKey(db.bookings[i], user, key, db.clock, db.settings.replayWindow)))
  }

  // --- create --------------------------------------------------------------

  function ValidItems(tiers: map<TierId, Tier>, event: EventId, lines: seq<Item>, seen: set<TierId>): bool {
    lines == [] ||
    (&& lines[0].quantity >= 1
     && lines[0].tier !in seen
     && lines[0].tier in tiers && tiers[lines[0].tier].event == event
     && ValidItems(tiers, event, lines[1..], seen + {lines[0].tier}))
  }

  function NewRow(db: Db, user: UserId, event: EventId, lines: seq<Item>, donation: int, key: Option<string>): Booking {
    var fee := Money.PlatformFee(Subtotal(lines), db.settings.feeBps);
    Booking(user, event, Reserved, db.clock, db.clock + db.settings.hold, lines,
            Subtotal(lines) + fee + donation, fee, donation, 0, None, "", "", "", key)
  }

  function ReserveAndInsert(db: Db, user: UserId, event: EventId, lines: seq<Item>,
                            donation: int, key: Option<string>): Outcome
  {
    match ReserveAll(db.tiers, lines, db.clock)
    case Refused(e) => RolledBack(e)
    case Moved(tiers) =>
      if KeyTakenIn(db.bookings, user, key) then RolledBack(KeyTaken)
      else Committed(db.(
        tiers := tiers,
        bookings := db.bookings + [NewRow(db, user, event, lines, donation, key)],
        outbox := db.outbox + [BookingCreated(|db.bookings|)]))
  }

  function ValidDonation(settings: Settings, donation: int): bool {
    0 <= donation <= settings.donationMax
  }

  /** What create refuses before it takes any lock. */
  function CreateRefusal(db: Db, event: EventId, bookable: bool, lines: seq<Item>, donation: int): Option<Error> {
    if lines == [] then Some(InvalidItems)
    else if !ValidDonation(db.settings, donation) then Some(InvalidDonation)
    else if !bookable then Some(EventNotBookable)
    else if !ValidItems(db.tiers, event, lines, {}) then Some(InvalidItems)
    else None
  }

  function Create(db: Db, user: UserId, event: EventId, bookable: bool, lines: seq<Item>,
                  donation: int, key: Option<string>): Outcome
  {
    match CreateRefusal(db, event, bookable, lines, donation)
    case Some(e) => RolledBack(e)
    case None => ReserveAndInsert(db, user, event, lines, donation, key)
  }

  // --- giving a hold up ----------------------------------------------------

  /** Release the items and the coupon and close the row. */
  function GiveUp(db: Db, b: BookingId, status: BookingStatus, reason: string): Outcome
    requires b < |db.bookings|
  {
    match ReleaseAll(db.tiers, db.bookings[b].items)
    case Refused(e) => RolledBack(e)
    case Moved(tiers) => Committed(
      WithRow(db, b, db.bookings[b].(status := status)).(
        tiers := tiers,
        redemptions := db.redemptions - {b},
        outbox := db.outbox + [BookingCancelled(b, reason)]))
  }

  function Cancel(db: Db, b: BookingId, actor: UserId): Outcome {
    if b >= |db.bookings| then RolledBack(NotFound)
    else if db.bookings[b].user != actor then RolledBack(NotOwner)
    else if db.bookings[b].status != Reserved then RolledBack(NotCancellable(db.bookings[b].status))
    else GiveUp(db, b, Cancelled, "user_cancelled")
  }

  function ReleaseUnstartable(db: Db, b: BookingId): Outcome {
    if b >= |db.bookings| || db.bookings[b].status != Reserved then Committed(db)
    else GiveUp(db, b, Cancelled, "payment_order_failed")
  }

  predicate Sweepable(row: Booking, now: Time) {
    row.status == Reserved && row.holdExpiresAt < now
  }

  function SweepOne(db: Db, b: BookingId): Outcome {
    if b >= |db.bookings| || !Sweepable(db.bookings[b], db.clock) then Committed(db)
    else GiveUp(db, b, Expired, "expired")
  }

  /** Why row b has no payment page for this user now, if it has none. */
  function GetLiveHold(db: Db, b: BookingId, actor: UserId): Option<Error> {
    if b >= |db.bookings| || db.bookings[b].user != actor then Some(NotFound)
    else if db.bookings[b].status != Reserved then Some(HoldNotLive(db.bookings[b].status))
    else if db.bookings[b].holdExpiresAt <= db.clock then Some(HoldNotLive(Expired))
    else None
  }

  // --- re-pricing a live hold ----------------------------------------------

  /** The checks every change to a live hold makes under the row lock. */
  function ModifyRefusal(db: Db, b: BookingId, actor: UserId): Option<Error> {
    if b >= |db.bookings| then Some(NotFound)
    else if db.bookings[b].user != actor then Some(NotOwner)
    else if db.bookings[b].status != Reserved then Some(NotModifiable(db.bookings[b].status))
    else None
  }

  function SetDonation(db: Db, b: BookingId, actor: UserId, donation: int): Outcome {
    if !ValidDonation(db.settings, donation) then RolledBack(InvalidDonation)
    else
      match ModifyRefusal(db, b, actor)
      case Some(e) => RolledBack(e)
      case None =>
        var row := db.bookings[b];
        if row.donation == donation then Committed(db)
        else Committed(WithRow(db, b, row.(
          donation := donation, total := row.total - row.donation + donation, order := None)))
  }

  function Reprice(row: Booking, subtotal: int, discount: int, bps: nat): Booking {
    var fee := Money.PlatformFee(subtotal - discount, bps);
    row.(discount := discount, fee := fee, total := subtotal - discount + fee + row.donation, order := None)
  }

  /** A new code replaces the old one, or is refused and changes nothing. */
  function SetCoupon(db: Db, b: BookingId, actor: UserId, code: Option<CouponId>): Outcome {
    match ModifyRefusal(db, b, actor)
    case Some(e) => RolledBack(e)
    case None =>
      var row := db.bookings[b];
      var others := db.redemptions - {b};
      var subtotal := Subtotal(row.items);
      match Coupons.Decide(db.coupons, others, code, row.event, row.user, subtotal, row.donation, db.clock)
      case Declined(e) => RolledBack(e)
      case Redeemed(discount) => Committed(
        WithRow(db, b, Reprice(row, subtotal, discount, db.settings.feeBps)).(
          redemptions := others[b := Redemption(code.value, row.user, discount)]))
  }

  function ClearCoupon(db: Db, b: BookingId, actor: UserId): Outcome {
    match ModifyRefusal(db, b, actor)
    case Some(e) => RolledBack(e)
    case None =>
      var row := db.bookings[b];
      if b !in db.redemptions && row.discount == 0 then Committed(db)
      else Committed(WithRow(db, b, Reprice(row, Subtotal(row.items), 0, db.settings.feeBps)).(
        redemptions := db.redemptions - {b}))
  }

  // --- the payment order ---------------------------------------------------

  function GatewayOrDefault(settings: Settings, row: Booking): Gateway {
    if row.gateway != "" then row.gateway else settings.backend
  }

  function ResolveGateway(settings: Settings, requested: Gateway): Gateway {
    if requested in settings.offered then requested else settings.defaultGateway
  }

  function SetGateway(db: Db, b: BookingId, actor: UserId, wanted: Gateway): Outcome {
    if wanted !in db.settings.offered then RolledBack(UnknownGateway)
    else
      match ModifyRefusal(db, b, actor)
      case Some(e) => RolledBack(e)
      case None =>
        var row := db.bookings[b];
        var cleared := if row.order.Some? && GatewayOrDefault(db.settings, row) != wanted
                       then row.(order := None, session := "") else row;
        Committed(WithRow(db, b, cleared.(gateway := wanted)))
  }

  predicate NeedsOrder(row: Booking) {
    row.order.None? && row.status == Reserved
  }

  /** Where an order goes: the row's own gateway, or what the request resolves to. */
  function ChosenGateway(settings: Settings, row: Booking, requested: Gateway): Gateway {
    if row.gateway != "" then row.gateway else ResolveGateway(settings, requested)
  }

  /** The provider accepts an order for the row as the request read it. */
  function PlaceOrder(db: Db, b: BookingId, read: Booking, requested: Gateway): Db {
    db.(orders := db.orders + [Order(b, read.total, ChosenGateway(db.settings, read, requested))])
  }

  /** The request's copy of the row with the order filled in. */
  function WithOrder(read: Booking, o: OrderId, gateway: Gateway, session: string): Booking {
    read.(order := Some(o), session := session, gateway := gateway)
  }

  predicate SaveCollides(bookings: seq<Booking>, b: BookingId, row: Booking) {
    exists i :: 0 <= i < |bookings| && i != b && HoldsKey(bookings[i], row.user, row.key)
  }

  /** The save outside the lock: every column of the request's copy is written
      back, whatever the row has become since it was read. */
  function AttachOrder(db: Db, b: BookingId, read: Booking, o: OrderId, session: string): Outcome
    requires b < |db.bookings| && o < |db.orders|
  {
    var row := WithOrder(read, o, db.orders[o].gateway, session);
    if SaveCollides(db.bookings, b, row) then RolledBack(KeyTaken)
    else Committed(WithRow(db, b, row))
  }

  // --- confirm, void -------------------------------------------------------

  function Copies(t: Ticket, n: nat): seq<Ticket> {
    seq(n, _ => t)
  }

  function Issue(b: BookingId, event: EventId, items: seq<Item>): seq<Ticket> {
    if items == [] then []
    else Copies(Ticket(b, items[0].tier, event, Active), items[0].quantity) + Issue(b, event, items[1..])
  }

  function IdsFrom(first: nat, count: nat): seq<nat> {
    seq(count, i requires 0 <= i < count => first + i)
  }

  predicate Confirmable(row: Booking, now: Time) {
    row.status == Reserved && !(row.holdExpiresAt < now)
  }

  function Confirm(db: Db, b: BookingId, ref: string): Outcome {
    if b >= |db.bookings| then RolledBack(NotFound)
    else if !Confirmable(db.bookings[b], db.clock) then Committed(db)
    else
      match ConfirmAll(db.tiers, db.bookings[b].items)
      case Refused(e) => RolledBack(e)
      case Moved(tiers) =>
        var row := db.bookings[b];
        var issued := Issue(b, row.event, row.items);
        var ids := IdsFrom(|db.tickets|, |issued|);
        Committed(WithRow(db, b, row.(status := Paid, paymentRef := ref)).(
          tiers := tiers,
          tickets := db.tickets + issued,
          outbox := db.outbox + [BookingConfirmed(b, ids), TicketIssued(b, ids)]))
  }

  function VoidTicket(t: Ticket, b: BookingId): Ticket {
    if t.booking == b && t.status == Active then t.(status := Void) else t
  }

  function VoidTickets(db: Db, b: BookingId): Db {
    db.(tickets := seq(|db.tickets|, i requires 0 <= i < |db.tickets| => VoidTicket(db.tickets[i], b)))
  }

  /** What a gate scan does to the ticket row. */
  function MarkUsed(db: Db, t: nat): Db {
    if t < |db.tickets| && db.tickets[t].status == Active
    then db.(tickets := db.tickets[t := db.tickets[t].(status := Used)])
    else db
  }

  function Refundable(db: Db, b: BookingId): Option<int> {
    if b >= |db.bookings| then None
    else if db.bookings[b].status != Paid then Some(db.bookings[b].total)
    else Some(db.bookings[b].total - db.bookings[b].donation)
  }

  /** What the Route split transfers to the organizer. */
  function OrganizerTransfer(row: Booking): int {
    row.total - row.fee - row.donation
  }
}
