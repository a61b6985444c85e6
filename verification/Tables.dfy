/** The rows the booking money path reads and writes, and the database that
    holds them. Rows are never deleted except coupon redemptions, so bookings,
    tickets, orders and outbox events are sequences whose positions are ids. */
module Tables {
  import opened Seqs

  type Time = int  // microseconds
  type UserId = nat
  type EventId = nat
  type TierId = nat
  type CouponId = nat
  type BookingId = nat
  type OrderId = nat
  type Gateway = string  // "" is a blank column

  datatype BookingStatus = Reserved | Paid | Cancelled | Expired

  datatype TicketStatus = Active | Used | Void

  datatype Tier = Tier(event: EventId, quantity: nat, reserved: nat, sold: nat,
                       saleStart: Option<Time>, saleEnd: Option<Time>, maxPerOrder: nat)

  /** A line of a booking: the unit price is the one the locked reserve decided. */
  datatype Item = Item(tier: TierId, quantity: nat, unitPrice: nat)

  datatype Booking = Booking(
    user: UserId, event: EventId, status: BookingStatus,
    createdAt: Time, holdExpiresAt: Time, items: seq<Item>,
    total: int, fee: int, donation: int, discount: int,
    order: Option<OrderId>, gateway: Gateway, session: string,
    paymentRef: string, key: Option<string>)

  datatype Ticket = Ticket(booking: BookingId, tier: TierId, event: EventId, status: TicketStatus)

  datatype Redemption = Redemption(coupon: CouponId, user: UserId, amount: nat)

  datatype Coupon = Coupon(
    event: Option<EventId>, active: bool, startsAt: Option<Time>, endsAt: Option<Time>,
    percent: bool, value: int, maxDiscount: Option<int>,
    maxRedemptions: Option<nat>, maxPerUser: nat)

  /** A payment order as the provider holds it. */
  datatype Order = Order(booking: BookingId, amount: int, gateway: Gateway)

  datatype DomainEvent =
    | BookingCreated(booking: BookingId)
    | BookingCancelled(booking: BookingId, reason: string)
    | BookingConfirmed(booking: BookingId, tickets: seq<nat>)
    | TicketIssued(booking: BookingId, tickets: seq<nat>)

  /** Deployment settings. `backend` is PAYMENTS_BACKEND. */
  datatype Settings = Settings(
    feeBps: nat, donationMax: nat, hold: Time, replayWindow: Time,
    backend: Gateway, offered: set<Gateway>, defaultGateway: Gateway)

  datatype Db = Db(
    settings: Settings,
    tiers: map<TierId, Tier>,
    bookings: seq<Booking>,
    tickets: seq<Ticket>,
    redemptions: map<BookingId, Redemption>,
    coupons: map<CouponId, Coupon>,
    orders: seq<Order>,
    outbox: seq<DomainEvent>,
    clock: Time)

  datatype Error =
    | InvalidItems | InvalidDonation | EventNotBookable
    | TierNotFound | SaleNotStarted | SaleClosed | ExceedsMaxPerOrder | SoldOut
    | KeyTaken | NotFound | NotOwner
    | NotCancellable(status: BookingStatus) | NotModifiable(status: BookingStatus)
    | HoldNotLive(status: BookingStatus)
    | UnknownGateway
    | CouponUnknown | CouponWrongEvent | CouponNotStarted | CouponExpired
    | CouponExhausted | CouponAlreadyUsed | CouponWorthNothing | CouponLeavesNothing
    | PaymentOrderFailed
    | DatabaseFailed

  /** A transaction either commits a new database or rolls every write back. */
  datatype Outcome = Committed(db: Db) | RolledBack(error: Error)

  function After(db: Db, o: Outcome): Db {
    if o.Committed? then o.db else db
  }

  function WithRow(db: Db, b: BookingId, row: Booking): Db
    requires b < |db.bookings|
  {
    db.(bookings := db.bookings[b := row])
  }

  function Subtotal(items: seq<Item>): nat {
    Sum(items, LinePrice())
  }

  function LinePrice(): Item -> nat {
    (i: Item) => i.quantity * i.unitPrice
  }
}
