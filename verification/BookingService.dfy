/** The booking service as the source runs it: tables updated in place, one
    transaction at a time, each method proved to commit exactly the database
    its specification says. */
module BookingService {
  import opened Seqs
  import opened Tables
  import opened Ticketing
  import opened Bookings
  import opened BookingInvariant
  import opened BookingRows
  import opened BookingRuns
  import opened BookingRules
  import opened BookingTheorems
  import Coupons
  import Money
  import Sweeper

  datatype Result<+T> = Ok(value: T) | Err(error: Error)

  /** What a payment provider answers to an order. */
  datatype Reply = Created(session: string) | Rejected | Unavailable

  /** A refused order that carried the organizer's split is tried once more
      without it. */
  function FinalReply(split: bool, first: Reply, second: Reply): Reply {
    if split && first.Rejected? then second else first
  }

  /** Neither the order nor, where a refused one carried the organizer's split,
      the one tried without it was accepted. */
  predicate OrderRefused(split: bool, first: Reply, second: Reply) {
    match first
    case Created(_) => false
    case Rejected => split ==> !second.Created?
    case Unavailable => true
  }

  /** The handle of the order that was accepted. */
  predicate OrderAccepted(split: bool, first: Reply, second: Reply, session: string) {
    first == Created(session) || (first == Rejected && split && second == Created(session))
  }

  datatype Ensured = Ensured(db: Db, answer: Result<BookingId>)

  /** Filling in a missing order, the row being the request's own copy. */
  function EnsureOrder(db: Db, b: BookingId, read: Booking, releaseOnFailure: bool,
                       requested: Gateway, reply: Reply): Ensured
    requires b < |db.bookings|
  {
    if !NeedsOrder(read) then Ensured(db, Ok(b))
    else if reply.Created? then
      var placed := PlaceOrder(db, b, read, requested);
      match AttachOrder(placed, b, read, |db.orders|, reply.session)
      case Committed(saved) => Ensured(saved, Ok(b))
      case RolledBack(e) => Ensured(placed, Err(e))
    else if releaseOnFailure then
      match ReleaseUnstartable(db, b)
      case Committed(released) => Ensured(released, Err(PaymentOrderFailed))
      case RolledBack(e) => Ensured(db, Err(e))
    else Ensured(db, Err(PaymentOrderFailed))
  }

  /** A copy of the row, read earlier: what identifies the row never changes,
      and every stored price was right. */
  ghost predicate CopyOf(db: Db, b: BookingId, read: Booking) {
    b < |db.bookings| && SameIdentity(read, db.bookings[b]) && WellPriced(read, db.settings.feeBps)
  }

  /** However stale the copy, filling in the order keeps prices, orders, keys
      and capacities. */
  lemma EnsureOrderKeepsRows(db: Db, b: BookingId, read: Booking, releaseOnFailure: bool, requested: Gateway,
                             reply: Reply)
    requires RowsGood(db) && CopyOf(db, b, read)
    ensures RowsGood(EnsureOrder(db, b, read, releaseOnFailure, requested, reply).db)
  {
    if NeedsOrder(read) {
      if reply.Created? {
        OrderKeepsRows(db, b, read, requested);
        AttachKeepsRows(PlaceOrder(db, b, read, requested), b, read, requested, |db.orders|, reply.session);
      } else if releaseOnFailure {
        GiveUpKeepsRows(db, b, Cancelled, "payment_order_failed");
      }
    }
  }

  /** What the order call is about to save, if it saves, is still safe to save. */
  predicate SavesSafely(db: Db, b: BookingId, read: Booking, reply: Reply)
    requires b < |db.bookings|
  {
    NeedsOrder(read) && reply.Created? && !SaveCollides(db.bookings, b, read) ==>
      SafeToAttach(db.bookings[b], read)
  }

  /** And it keeps the whole invariant exactly then. */
  lemma EnsureOrderKeeps(db: Db, b: BookingId, read: Booking, releaseOnFailure: bool, requested: Gateway, reply: Reply)
    requires Inv(db) && CopyOf(db, b, read)
    ensures Inv(EnsureOrder(db, b, read, releaseOnFailure, requested, reply).db) <==> SavesSafely(db, b, read, reply)
  {
    if NeedsOrder(read) {
      if reply.Created? {
        PlaceOrderKeeps(db, b, read, requested);
        var placed := PlaceOrder(db, b, read, requested);
        if AttachOrder(placed, b, read, |db.orders|, reply.session).Committed? {
          AttachKeepsExactlyWhenSafe(placed, b, read, requested, |db.orders|, reply.session);
        }
      } else if releaseOnFailure && db.bookings[b].status == Reserved {
        GiveUpKeeps(db, b, Cancelled, "payment_order_failed");
      }
    }
  }

  /** A hold left without an order is repaired by the next call that reaches
      the provider: afterwards it carries an order for exactly its total, at
      the gateway it already named, if any, and at one on offer otherwise. */
  lemma RetryRepairsOrder(db: Db, b: BookingId, releaseOnFailure: bool, requested: Gateway, session: string)
    requires Inv(db) && b < |db.bookings| && NeedsOrder(db.bookings[b])
    ensures EnsureOrder(db, b, db.bookings[b], releaseOnFailure, requested, Created(session)).answer == Ok(b)
    ensures var after := EnsureOrder(db, b, db.bookings[b], releaseOnFailure, requested, Created(session)).db;
      && after.bookings[b].order.Some? && after.bookings[b].session == session
      && after.bookings[b].status == Reserved && after.bookings[b].total == db.bookings[b].total
      && OrderFits(after.settings, after.orders, b, after.bookings[b])
      && if db.bookings[b].gateway != "" then after.bookings[b].gateway == db.bookings[b].gateway
         else after.bookings[b].gateway in db.settings.offered
  {
    var read := db.bookings[b];
    var placed := PlaceOrder(db, b, read, requested);
    SameKeyDoesNotCollide(placed.bookings, b,
                          WithOrder(read, |db.orders|, placed.orders[|db.orders|].gateway, session));
    RowIsGood(db, b);
    EnsureOrderKeeps(db, b, read, releaseOnFailure, requested, Created(session));
  }

  lemma ReserveThenReleaseRestores(tiers: map<TierId, Tier>, lines: seq<Item>, now: Time)
    requires NoOversell(tiers) && ReserveAll(tiers, lines, now).Moved?
    ensures ReleaseAll(ReserveAll(tiers, lines, now).tiers, lines) == Moved(tiers)
  {
    var reserved := ReserveAll(tiers, lines, now).tiers;
    ReserveAllAddsExactly(tiers, lines, now);
    ReleaseAllSubtractsExactly(reserved, lines);
    var released := ReleaseAll(reserved, lines).tiers;
    forall t | t in tiers ensures released[t] == tiers[t] {
      assert SameTier(tiers[t], reserved[t]) && SameTier(reserved[t], released[t]);
    }
    assert released == tiers;
  }

  /** A hold whose first payment could not be started leaves no trace in the
      inventory: the seats that were reserved are exactly the seats released. */
  lemma FailedOrderReturnsSeats(db: Db, user: UserId, event: EventId, lines: seq<Item>, donation: int,
                                key: Option<string>, requested: Gateway, reply: Reply)
    requires Inv(db) && ReserveAndInsert(db, user, event, lines, donation, key).Committed? && !reply.Created?
    ensures var made, b := ReserveAndInsert(db, user, event, lines, donation, key).db, |db.bookings|;
      var after := EnsureOrder(made, b, made.bookings[b], true, requested, reply).db;
      && after.tiers == db.tiers && after.tickets == db.tickets
      && after.bookings[b].status == Cancelled && after.bookings[..b] == db.bookings
  {
    ReserveThenReleaseRestores(db.tiers, lines, db.clock);
  }

  datatype ConfirmReason = Issued | AlreadyConfirmed | HoldExpired

  datatype ConfirmResult = ConfirmResult(reason: ConfirmReason, tickets: set<nat>)

  lemma TicketsOnlyWhenPaid(db: Db, b: BookingId)
    requires Inv(db) && b < |db.bookings| && db.bookings[b].status != Paid
    ensures TicketIds(db.tickets, b) == {}
  {
    forall i | i in TicketIds(db.tickets, b) ensures false {
      SumAtLeast(db.tickets, i, TicketOf(b, db.tickets[i].tier));
    }
  }

  /** The ids a confirm hands back are the booking's whole ticket set. */
  lemma ConfirmReturnsTickets(db: Db, b: BookingId, ref: string)
    requires Inv(db) && b < |db.bookings|
    ensures Confirm(db, b, ref).Committed? && Inv(Confirm(db, b, ref).db)
    ensures db.bookings[b].status != Paid ==> TicketIds(db.tickets, b) == {}
    ensures |db.tickets| <= |Confirm(db, b, ref).db.tickets|
    ensures var after := Confirm(db, b, ref).db.tickets;
      Confirmable(db.bookings[b], db.clock) ==> TicketIds(after, b) == IdSet(|db.tickets|, |after|)
  {
    ConfirmKeeps(db, b, ref);
    if db.bookings[b].status != Paid { TicketsOnlyWhenPaid(db, b); }
    if Confirmable(db.bookings[b], db.clock) {
      NewTicketIds(db.tickets, b, db.bookings[b].event, db.bookings[b].items);
    }
  }

  /** The ids of the rows appended to a table between two lengths. */
  function IdSet(first: nat, end: nat): set<nat>
    requires first <= end
  {
    Elements(IdsFrom(first, end - first))
  }

  lemma InIdSet(first: nat, end: nat, i: nat)
    requires first <= end
    ensures i in IdSet(first, end) <==> first <= i < end
  {
    if first <= i < end {
      assert IdsFrom(first, end - first)[i - first] == i;
    }
  }

  lemma NewTicketIds(tickets: seq<Ticket>, b: BookingId, event: EventId, items: seq<Item>)
    requires TicketIds(tickets, b) == {}
    ensures var all := tickets + Issue(b, event, items); TicketIds(all, b) == IdSet(|tickets|, |all|)
  {
    var all := tickets + Issue(b, event, items);
    IssueCounts(b, event, items, 0);
    forall i: nat ensures i in TicketIds(all, b) <==> i in IdSet(|tickets|, |all|) {
      InIdSet(|tickets|, |all|, i);
      if i < |tickets| {
        assert i in TicketIds(tickets, b) <==> tickets[i].booking == b;
      } else if i < |all| {
        assert all[i] in Issue(b, event, items);
      }
    }
  }

  // --- one request among others --------------------------------------------

  /** What other requests commit at the k-th gap between this request's own
      transactions. They never remove a row or a tier, nor rewrite what
      identifies one. */
  type Others = (nat, Db) -> Db

  ghost predicate Rely(others: Others) {
    forall k, db :: Persists(db, others(k, db))
  }

  /** They keep what every transaction keeps. */
  ghost predicate KeepRows(others: Others) {
    forall k, db :: RowsGood(db) ==> RowsGood(others(k, db))
  }

  /** They keep the whole invariant. */
  ghost predicate KeepAll(others: Others) {
    forall k, db :: Inv(db) ==> Inv(others(k, db))
  }

  /** The stretch of a run that begins at its i-th state is what happens in the
      gap between `db` and `after`. */
  ghost predicate IsGap(h: seq<Db>, acts: seq<Action>, i: nat, db: Db, after: Db) {
    IsRun(h, acts) && i < |h| && h[i] == db && Last(h) == after
  }

  ghost predicate AreRuns(others: Others) {
    forall k, db ::
      exists h, acts, i :: IsGap(h, acts, i, db, others(k, db)) && (RowsGood(db) ==> RowsGood(h[0]))
  }

  ghost predicate AreSafeRuns(others: Others) {
    forall k, db :: Inv(db) ==>
      exists h, acts, i :: IsGap(h, acts, i, db, others(k, db)) && SafeRun(h, acts) && Inv(h[0])
  }

  /** Any steps of any run, taken in the gaps, are others to rely on: saves of
      copies read before the gap included. */
  lemma RunsAreReliable(others: Others)
    requires AreRuns(others)
    ensures Rely(others) && KeepRows(others)
  {
    forall k, db ensures Persists(db, others(k, db)) && (RowsGood(db) ==> RowsGood(others(k, db))) {
      var h, acts, i :| IsGap(h, acts, i, db, others(k, db)) && (RowsGood(db) ==> RowsGood(h[0]));
      EveryRunPersists(h, acts);
      assert Persists(h[i], h[|h| - 1]);
      if RowsGood(db) {
        EveryRunKeepsRows(h, acts);
        assert RowsGood(h[|h| - 1]);
      }
    }
  }

  lemma SafeRunsKeepAll(others: Others)
    requires AreSafeRuns(others)
    ensures KeepAll(others)
  {
    forall k, db | Inv(db) ensures Inv(others(k, db)) {
      var h, acts, i :| IsGap(h, acts, i, db, others(k, db)) && SafeRun(h, acts) && Inv(h[0]);
      RunKeepsInvariant(h, acts);
      assert Inv(h[|h| - 1]);
    }
  }

  /** The order for row b, on the copy read now, after one more gap. */
  ghost function Serve(db: Db, others: Others, k: nat, b: BookingId, releaseOnFailure: bool, requested: Gateway,
                       reply: Reply): Ensured
    requires Rely(others) && b < |db.bookings|
  {
    assert Persists(db, others(k, db));
    EnsureOrder(others(k, db), b, db.bookings[b], releaseOnFailure, requested, reply)
  }

  /** Nothing in that gap makes the copy unsafe to save. */
  ghost predicate ServesSafely(db: Db, others: Others, k: nat, b: BookingId, reply: Reply)
    requires Rely(others) && b < |db.bookings|
  {
    assert Persists(db, others(k, db));
    SavesSafely(others(k, db), b, db.bookings[b], reply)
  }

  lemma ServeKeepsRows(db: Db, others: Others, k: nat, b: BookingId, releaseOnFailure: bool, requested: Gateway,
                       reply: Reply)
    requires Rely(others) && KeepRows(others) && RowsGood(db) && b < |db.bookings|
    ensures RowsGood(Serve(db, others, k, b, releaseOnFailure, requested, reply).db)
    ensures AnswersFor(Serve(db, others, k, b, releaseOnFailure, requested, reply), b, db.bookings[b].user)
  {
    assert Persists(db, others(k, db));
    assert WellPriced(db.bookings[b], db.settings.feeBps);
    EnsureOrderKeepsRows(others(k, db), b, db.bookings[b], releaseOnFailure, requested, reply);
  }

  /** The answer, when there is one, is that booking, still the user's. */
  ghost predicate AnswersFor(result: Ensured, b: BookingId, user: UserId) {
    && b < |result.db.bookings| && result.db.bookings[b].user == user
    && (result.answer.Ok? ==> result.answer.value == b)
  }

  lemma ServeKeeps(db: Db, others: Others, k: nat, b: BookingId, releaseOnFailure: bool, requested: Gateway,
                   reply: Reply)
    requires Rely(others) && KeepAll(others) && Inv(db) && b < |db.bookings|
    ensures Inv(Serve(db, others, k, b, releaseOnFailure, requested, reply).db)
       <==> ServesSafely(db, others, k, b, reply)
  {
    assert Persists(db, others(k, db));
    RowIsGood(db, b);
    EnsureOrderKeeps(others(k, db), b, db.bookings[b], releaseOnFailure, requested, reply);
  }

  /** A change committed as `db`, and then the order for it, the hold kept
      whatever the provider answers. */
  ghost predicate ReissuedIn(before: Db, db: Db, others: Others, b: BookingId, requested: Gateway, reply: Reply,
                             result: Ensured)
    requires Rely(others)
  {
    && b < |db.bookings| && result == Serve(db, others, 0, b, false, requested, reply)
    && (RowsGood(before) && KeepRows(others) ==> RowsGood(result.db) && AnswersFor(result, b, db.bookings[b].user))
    && (Inv(before) && KeepAll(others) ==> (Inv(result.db) <==> ServesSafely(db, others, 0, b, reply)))
  }

  /** What becomes of row b, of which `read` was the request's copy and which
      the others left in `now`. Where the copy has its order, nothing. Where
      the order is refused, nothing either on a change of the hold, and on a
      create the hold is cancelled if it still is one. Where it is accepted, it
      is for exactly the total read, at the row's own gateway or else the one
      asked for if on offer, and is saved with its handle unless another row
      took the key. */
  ghost predicate OrderOutcome(read: Booking, now: Db, b: BookingId, releaseOnFailure: bool, requested: Gateway,
                               split: bool, first: Reply, second: Reply, after: Db, answer: Result<BookingId>)
    requires b < |now.bookings|
  {
    if read.order.Some? || read.status != Reserved then after == now && answer == Ok(b)
    else if OrderRefused(split, first, second) then
      if releaseOnFailure && now.bookings[b].status == Reserved
         && forall i :: 0 <= i < |now.bookings[b].items| ==> now.bookings[b].items[i].tier in now.tiers
      then
        && answer == Err(PaymentOrderFailed)
        && after.bookings == now.bookings[b := now.bookings[b].(status := Cancelled)]
        && NoSeatTaken(now.tiers, after.tiers) && b !in after.redemptions
        && after.tickets == now.tickets && after.orders == now.orders
      else
        after == now
        && answer == Err(if releaseOnFailure && now.bookings[b].status == Reserved then TierNotFound
                         else PaymentOrderFailed)
    else
      && after.tiers == now.tiers && after.tickets == now.tickets && after.redemptions == now.redemptions
      && |after.orders| == |now.orders| + 1 && now.orders <= after.orders
      && after.orders[|now.orders|].booking == b && after.orders[|now.orders|].amount == read.total
      && after.orders[|now.orders|].gateway
         == (if read.gateway != "" then read.gateway
             else if requested in now.settings.offered then requested else now.settings.defaultGateway)
      && if exists i :: 0 <= i < |now.bookings| && i != b && read.key.Some?
                        && now.bookings[i].user == read.user && now.bookings[i].key == read.key
         then after.bookings == now.bookings && answer == Err(KeyTaken)
         else
           && answer == Ok(b) && |after.bookings| == |now.bookings|
           && OrderAccepted(split, first, second, after.bookings[b].session)
           && after.bookings == now.bookings[b := read.(order := Some(|now.orders|),
                                                        session := after.bookings[b].session,
                                                        gateway := after.orders[|now.orders|].gateway)]
  }

  lemma OrderEndsSo(now: Db, b: BookingId, read: Booking, releaseOnFailure: bool, requested: Gateway,
                    split: bool, first: Reply, second: Reply)
    requires b < |now.bookings|
    ensures var result := EnsureOrder(now, b, read, releaseOnFailure, requested, FinalReply(split, first, second));
      OrderOutcome(read, now, b, releaseOnFailure, requested, split, first, second, result.db, result.answer)
  {
    if OrderRefused(split, first, second) {
      RefusedOrderEndsSo(now, b, read, releaseOnFailure, requested, split, first, second);
    } else {
      AcceptedOrderEndsSo(now, b, read, releaseOnFailure, requested, split, first, second);
    }
  }

  lemma RefusedOrderEndsSo(now: Db, b: BookingId, read: Booking, releaseOnFailure: bool, requested: Gateway,
                           split: bool, first: Reply, second: Reply)
    requires b < |now.bookings| && OrderRefused(split, first, second)
    ensures var result := EnsureOrder(now, b, read, releaseOnFailure, requested, FinalReply(split, first, second));
      OrderOutcome(read, now, b, releaseOnFailure, requested, split, first, second, result.db, result.answer)
  {
    ReleaseAllIff(now.tiers, now.bookings[b].items);
    if ReleaseAll(now.tiers, now.bookings[b].items).Moved? {
      ReleaseAllTakesNoSeat(now.tiers, now.bookings[b].items);
    }
  }

  lemma AcceptedOrderEndsSo(now: Db, b: BookingId, read: Booking, releaseOnFailure: bool, requested: Gateway,
                            split: bool, first: Reply, second: Reply)
    requires b < |now.bookings| && !OrderRefused(split, first, second)
    ensures var result := EnsureOrder(now, b, read, releaseOnFailure, requested, FinalReply(split, first, second));
      OrderOutcome(read, now, b, releaseOnFailure, requested, split, first, second, result.db, result.answer)
  {
  }

  // --- the create among others ---------------------------------------------

  /** Where a create ends up before its order: declined, on an earlier row of
      its key read at one of three lookups, or on a row of its own. */
  datatype Landing =
    | Declined(db: Db, error: Error)
    | Replayed(db: Db, gap: nat, row: BookingId)
    | Inserted(db: Db, gap: nat, row: BookingId)

  predicate OnARow(landing: Landing) {
    !landing.Declined? ==> landing.row < |landing.db.bookings|
  }

  /** Reserve and insert; a lost race for the key lands on its winner. */
  ghost function InsertLanding(db: Db, user: UserId, event: EventId, lines: seq<Item>, donation: int,
                               key: Option<string>): (landing: Landing)
    ensures OnARow(landing)
  {
    match ReserveAndInsert(db, user, event, lines, donation, key)
    case Committed(made) => Inserted(made, 2, |db.bookings|)
    case RolledBack(e) =>
      match FindReplayable(db.bookings, user, key, db.clock, db.settings.replayWindow)
      case Some(winner) => if e == KeyTaken then Replayed(db, 2, winner) else Declined(db, e)
      case None => Declined(db, e)
  }

  /** The locked half: look again, detach the dead key, insert. */
  ghost function UnderKeyLanding(db: Db, others: Others, user: UserId, event: EventId, lines: seq<Item>, donation: int,
                                 key: Option<string>): (landing: Landing)
    ensures OnARow(landing)
  {
    match FindReplayable(db.bookings, user, key, db.clock, db.settings.replayWindow)
    case Some(b) => Replayed(db, 1, b)
    case None => InsertLanding(others(1, ReleaseKey(db, user, key)), user, event, lines, donation, key)
  }

  ghost function CreateLanding(db: Db, others: Others, user: UserId, event: EventId, bookable: bool, lines: seq<Item>,
                               donation: int, key: Option<string>): (landing: Landing)
    ensures OnARow(landing)
  {
    match CreateRefusal(db, event, bookable, lines, donation)
    case Some(e) => Declined(db, e)
    case None =>
      match FindReplayable(db.bookings, user, key, db.clock, db.settings.replayWindow)
      case Some(b) => Replayed(db, 0, b)
      case None => UnderKeyLanding(others(0, db), others, user, event, lines, donation, key)
  }

  ghost function ServeLanding(landing: Landing, others: Others, requested: Gateway, reply: Reply): Ensured
    requires Rely(others) && OnARow(landing)
  {
    if landing.Declined? then Ensured(landing.db, Err(landing.error))
    else Serve(landing.db, others, landing.gap, landing.row, true, requested, reply)
  }

  ghost predicate LandsSafely(landing: Landing, others: Others, reply: Reply)
    requires Rely(others) && OnARow(landing)
  {
    landing.Declined? || ServesSafely(landing.db, others, landing.gap, landing.row, reply)
  }

  /** The whole create call, with anything going on in the gaps. */
  ghost function CreateRequest(db: Db, others: Others, user: UserId, event: EventId, bookable: bool, lines: seq<Item>,
                               donation: int, key: Option<string>, requested: Gateway, reply: Reply): Ensured
    requires Rely(others)
  {
    ServeLanding(CreateLanding(db, others, user, event, bookable, lines, donation, key), others, requested, reply)
  }

  /** Good rows, and the row landed on is the user's own. */
  ghost predicate LandsOnOwn(landing: Landing, user: UserId) {
    && RowsGood(landing.db) && OnARow(landing)
    && (!landing.Declined? ==> landing.db.bookings[landing.row].user == user)
  }

  lemma InsertLandingKeepsRows(db: Db, user: UserId, event: EventId, lines: seq<Item>, donation: int,
                               key: Option<string>)
    requires RowsGood(db) && Orderable(lines, donation)
    ensures LandsOnOwn(InsertLanding(db, user, event, lines, donation, key), user)
  {
    if ReserveAndInsert(db, user, event, lines, donation, key).Committed? {
      InsertedFacts(db, user, event, lines, donation, key);
      NewRowIsWellPriced(db, user, event, lines, donation, key);
      InsertedRowsStayGood(db, NewRow(db, user, event, lines, donation, key));
    }
  }

  lemma CreateLandingKeepsRows(db: Db, others: Others, user: UserId, event: EventId, bookable: bool, lines: seq<Item>,
                               donation: int, key: Option<string>)
    requires KeepRows(others) && RowsGood(db)
    ensures LandsOnOwn(CreateLanding(db, others, user, event, bookable, lines, donation, key), user)
  {
    if CreateRefusal(db, event, bookable, lines, donation).None? {
      ValidItemsArePositive(db.tiers, event, lines, {});
      var second := others(0, db);
      KeyReleaseKeepsRows(second, user, key);
      InsertLandingKeepsRows(others(1, ReleaseKey(second, user, key)), user, event, lines, donation, key);
    }
  }

  /** The answer, when there is one, is a booking of the user who asked. */
  ghost predicate AnswersOwn(result: Ensured, user: UserId) {
    result.answer.Ok? ==>
      result.answer.value < |result.db.bookings| && result.db.bookings[result.answer.value].user == user
  }

  /** Whatever runs in the gaps, a create keeps prices, orders, keys and
      capacities, and answers with a booking of the user who asked. */
  lemma CreateRequestKeepsRows(db: Db, others: Others, user: UserId, event: EventId, bookable: bool, lines: seq<Item>,
                               donation: int, key: Option<string>, requested: Gateway, reply: Reply)
    requires Rely(others) && KeepRows(others) && RowsGood(db)
    ensures var result := CreateRequest(db, others, user, event, bookable, lines, donation, key, requested, reply);
      RowsGood(result.db) && AnswersOwn(result, user)
  {
    var landing := CreateLanding(db, others, user, event, bookable, lines, donation, key);
    CreateLandingKeepsRows(db, others, user, event, bookable, lines, donation, key);
    if !landing.Declined? {
      ServeKeepsRows(landing.db, others, landing.gap, landing.row, true, requested, reply);
    }
  }

  lemma InsertLandingKeeps(db: Db, user: UserId, event: EventId, lines: seq<Item>, donation: int, key: Option<string>)
    requires Inv(db) && Orderable(lines, donation)
    ensures Inv(InsertLanding(db, user, event, lines, donation, key).db)
  {
    if ReserveAndInsert(db, user, event, lines, donation, key).Committed? {
      ReserveAndInsertKeeps(db, user, event, lines, donation, key);
    }
  }

  lemma UnderKeyLandingKeeps(db: Db, others: Others, user: UserId, event: EventId, lines: seq<Item>, donation: int,
                             key: Option<string>)
    requires KeepAll(others) && Inv(db) && Orderable(lines, donation)
    ensures Inv(UnderKeyLanding(db, others, user, event, lines, donation, key).db)
  {
    ReleaseKeyKeeps(db, user, key);
    InsertLandingKeeps(others(1, ReleaseKey(db, user, key)), user, event, lines, donation, key);
  }

  lemma CreateLandingKeeps(db: Db, others: Others, user: UserId, event: EventId, bookable: bool, lines: seq<Item>,
                           donation: int, key: Option<string>)
    requires KeepAll(others) && Inv(db)
    ensures Inv(CreateLanding(db, others, user, event, bookable, lines, donation, key).db)
  {
    if CreateRefusal(db, event, bookable, lines, donation).None? {
      ValidItemsArePositive(db.tiers, event, lines, {});
      UnderKeyLandingKeeps(others(0, db), others, user, event, lines, donation, key);
    }
  }

  /** And it keeps the whole invariant exactly when no gap between its read of
      the row and its save makes that one copy unsafe to save. */
  lemma CreateRequestKeeps(db: Db, others: Others, user: UserId, event: EventId, bookable: bool, lines: seq<Item>,
                           donation: int, key: Option<string>, requested: Gateway, reply: Reply)
    requires Rely(others) && KeepAll(others) && Inv(db)
    ensures Inv(CreateRequest(db, others, user, event, bookable, lines, donation, key, requested, reply).db)
       <==> LandsSafely(CreateLanding(db, others, user, event, bookable, lines, donation, key), others, reply)
  {
    var landing := CreateLanding(db, others, user, event, bookable, lines, donation, key);
    CreateLandingKeeps(db, others, user, event, bookable, lines, donation, key);
    if !landing.Declined? { ServeKeeps(landing.db, others, landing.gap, landing.row, true, requested, reply); }
  }

  lemma CreateRequestKeepsBoth(db: Db, others: Others, user: UserId, event: EventId, bookable: bool, lines: seq<Item>,
                               donation: int, key: Option<string>, requested: Gateway, reply: Reply)
    requires Rely(others)
    ensures var result := CreateRequest(db, others, user, event, bookable, lines, donation, key, requested, reply);
      && (RowsGood(db) && KeepRows(others) ==> RowsGood(result.db) && AnswersOwn(result, user))
      && (Inv(db) && KeepAll(others) ==>
            (Inv(result.db) <==>
             LandsSafely(CreateLanding(db, others, user, event, bookable, lines, donation, key), others, reply)))
  {
    if RowsGood(db) && KeepRows(others) {
      CreateRequestKeepsRows(db, others, user, event, bookable, lines, donation, key, requested, reply);
    }
    if Inv(db) && KeepAll(others) {
      CreateRequestKeeps(db, others, user, event, bookable, lines, donation, key, requested, reply);
    }
  }

  /** Some row that still answers for the key holds it. */
  predicate Answerable(db: Db, user: UserId, key: Option<string>) {
    exists i :: 0 <= i < |db.bookings| && HoldsKey(db.bookings[i], user, key)
                && Replayable(db.bookings[i], db.clock, db.settings.replayWindow)
  }

  lemma OrderTakesNoSeat(db: Db, b: BookingId, read: Booking, releaseOnFailure: bool, requested: Gateway, reply: Reply)
    requires b < |db.bookings|
    ensures NoSeatTaken(db.tiers, EnsureOrder(db, b, read, releaseOnFailure, requested, reply).db.tiers)
  {
    if ReleaseAll(db.tiers, db.bookings[b].items).Moved? {
      ReleaseAllTakesNoSeat(db.tiers, db.bookings[b].items);
    }
  }

  /** The three databases the lookups of a create may see. */
  ghost predicate SeenByCreate(db: Db, others: Others, user: UserId, key: Option<string>, seen: Db) {
    seen == db || seen == others(0, db) || seen == others(1, ReleaseKey(others(0, db), user, key))
  }

  lemma TakenKeyIsNotInserted(db: Db, user: UserId, event: EventId, lines: seq<Item>, donation: int,
                              key: Option<string>)
    requires KeyTakenIn(db.bookings, user, key)
    ensures var landing := InsertLanding(db, user, event, lines, donation, key);
      landing.db == db && !landing.Inserted? &&
      (landing.Replayed? ==> HoldsKey(db.bookings[landing.row], user, key))
  {
  }

  lemma ReplayLandsOnHolder(db: Db, others: Others, user: UserId, event: EventId, bookable: bool, lines: seq<Item>,
                            donation: int, key: Option<string>)
    requires var second := others(0, db);
      || Answerable(db, user, key) || Answerable(second, user, key)
      || KeyTakenIn(others(1, ReleaseKey(second, user, key)).bookings, user, key)
    ensures var landing := CreateLanding(db, others, user, event, bookable, lines, donation, key);
      && SeenByCreate(db, others, user, key, landing.db) && !landing.Inserted?
      && (landing.Replayed? ==> HoldsKey(landing.db.bookings[landing.row], user, key))
  {
    var third := others(1, ReleaseKey(others(0, db), user, key));
    if KeyTakenIn(third.bookings, user, key) {
      TakenKeyIsNotInserted(third, user, event, lines, donation, key);
    }
  }

  /** A create whose key an answerable row holds at the first lookup or the
      second, or any row at all at the insert, reserves nothing: the counters
      only ever go down from where the others last left them, and it answers,
      if at all, with the holder it found. */
  lemma ReplayReservesNothing(db: Db, others: Others, user: UserId, event: EventId, bookable: bool, lines: seq<Item>,
                              donation: int, key: Option<string>, requested: Gateway, reply: Reply)
    requires Rely(others)
    requires var second := others(0, db);
      || Answerable(db, user, key) || Answerable(second, user, key)
      || KeyTakenIn(others(1, ReleaseKey(second, user, key)).bookings, user, key)
    ensures var landing, result := CreateLanding(db, others, user, event, bookable, lines, donation, key),
                                   CreateRequest(db, others, user, event, bookable, lines, donation, key, requested,
                                                 reply);
      && SeenByCreate(db, others, user, key, landing.db)
      && NoSeatTaken(if landing.Declined? then landing.db.tiers else others(landing.gap, landing.db).tiers,
                     result.db.tiers)
      && (result.answer.Ok? ==>
            && result.answer.value < |landing.db.bookings|
            && HoldsKey(landing.db.bookings[result.answer.value], user, key))
  {
    var landing := CreateLanding(db, others, user, event, bookable, lines, donation, key);
    ReplayLandsOnHolder(db, others, user, event, bookable, lines, donation, key);
    ServeTakesNoSeat(landing, others, requested, reply);
  }

  lemma ServeTakesNoSeat(landing: Landing, others: Others, requested: Gateway, reply: Reply)
    requires Rely(others) && OnARow(landing)
    ensures var result := ServeLanding(landing, others, requested, reply);
      && NoSeatTaken(if landing.Declined? then landing.db.tiers else others(landing.gap, landing.db).tiers,
                     result.db.tiers)
      && (result.answer.Ok? ==> !landing.Declined? && result.answer.value == landing.row)
  {
    if !landing.Declined? {
      assert Persists(landing.db, others(landing.gap, landing.db));
      OrderTakesNoSeat(others(landing.gap, landing.db), landing.row, landing.db.bookings[landing.row], true, requested,
                       reply);
    }
  }

  lemma ServeAddsNoRow(landing: Landing, others: Others, requested: Gateway, reply: Reply)
    requires Rely(others) && landing.Replayed? && OnARow(landing)
    ensures |ServeLanding(landing, others, requested, reply).db.bookings| == |others(landing.gap, landing.db).bookings|
  {
    assert Persists(landing.db, others(landing.gap, landing.db));
  }

  /** The row a create made, later in any run, while its hold runs and it is
      reserved or freshly paid. */
  ghost predicate StillAnswers(db: Db, now: Db, b: BookingId) {
    && b < |now.bookings| && now.clock < db.clock + db.settings.hold
    && (now.bookings[b].status == Reserved ||
        (now.bookings[b].status == Paid && now.clock < db.clock + db.settings.replayWindow))
  }

  lemma MadeRowIsFound(db: Db, user: UserId, event: EventId, bookable: bool, lines: seq<Item>, donation: int,
                       key: Option<string>, h: seq<Db>, acts: seq<Action>)
    requires RowsGood(db) && key.Some? && Create(db, user, event, bookable, lines, donation, key).Committed?
    requires IsRun(h, acts) && h[0] == Create(db, user, event, bookable, lines, donation, key).db
    requires StillAnswers(db, Last(h), |db.bookings|)
    ensures var now := Last(h);
      FindReplayable(now.bookings, user, key, now.clock, now.settings.replayWindow) == Some(|db.bookings|)
  {
    var b, now := |db.bookings|, Last(h);
    CreateWrites(db, user, event, bookable, lines, donation, key);
    CreateKeepsRows(db, user, event, bookable, lines, donation, key);
    LiveRowKeepsKey(h, acts, b, key);
    EveryRunKeepsRows(h, acts);
    assert RowsGood(h[|h| - 1]) && Persists(h[0], h[|h| - 1]) && KeyOnLive(h[|h| - 1], b, key);
    assert SameIdentity(h[0].bookings[b], now.bookings[b]);
    UniqueHolder(now, user, key, b);
    OnlyHolderIsFound(now, user, key, b);
  }

  lemma UniqueHolder(db: Db, user: UserId, key: Option<string>, b: BookingId)
    requires RowsGood(db) && b < |db.bookings| && key.Some?
    requires db.bookings[b].user == user && db.bookings[b].key == key
    ensures forall i :: 0 <= i < |db.bookings| && i != b ==>
                          !(db.bookings[i].user == user && db.bookings[i].key == key)
  {
    forall i | 0 <= i < |db.bookings| && i != b
      ensures !(db.bookings[i].user == user && db.bookings[i].key == key)
    {
      assert !HoldsKey(db.bookings[i], db.bookings[b].user, db.bookings[b].key);
    }
  }

  /** A create sent again with its key, whatever ran since and whatever the
      second call carries: while the first booking's hold runs and it is
      reserved or freshly paid, the retry makes no row, takes no seat and
      answers, if at all, with the first booking. */
  lemma RetriedCreateIsReplayed(db: Db, user: UserId, event: EventId, bookable: bool, lines: seq<Item>, donation: int,
                                key: Option<string>, h: seq<Db>, acts: seq<Action>, others: Others,
                                event2: EventId, bookable2: bool, lines2: seq<Item>, donation2: int,
                                requested: Gateway, reply: Reply)
    requires RowsGood(db) && key.Some? && Create(db, user, event, bookable, lines, donation, key).Committed?
    requires IsRun(h, acts) && h[0] == Create(db, user, event, bookable, lines, donation, key).db
    requires StillAnswers(db, Last(h), |db.bookings|) && Rely(others)
    ensures var now := Last(h);
      var result := CreateRequest(now, others, user, event2, bookable2, lines2, donation2, key, requested, reply);
      && (result.answer.Ok? ==> result.answer.value == |db.bookings|)
      && (result.db == now || |result.db.bookings| == |others(0, now).bookings|)
      && (NoSeatTaken(now.tiers, result.db.tiers) || NoSeatTaken(others(0, now).tiers, result.db.tiers))
      && (CreateRefusal(now, event2, bookable2, lines2, donation2).None? && now.bookings[|db.bookings|].order.Some? ==>
            result == Ensured(others(0, now), Ok(|db.bookings|)))
  {
    var now := Last(h);
    var landing := CreateLanding(now, others, user, event2, bookable2, lines2, donation2, key);
    MadeRowIsFound(db, user, event, bookable, lines, donation, key, h, acts);
    ServeTakesNoSeat(landing, others, requested, reply);
    if landing.Replayed? { ServeAddsNoRow(landing, others, requested, reply); }
  }

  /** How a create ends: declined with nothing of its own done, or with the
      order of the row it landed on. */
  lemma CreateEndsSo(db: Db, others: Others, user: UserId, event: EventId, bookable: bool, lines: seq<Item>,
                     donation: int, key: Option<string>, requested: Gateway, split: bool, first: Reply, second: Reply)
    requires Rely(others)
    ensures var landing := CreateLanding(db, others, user, event, bookable, lines, donation, key);
      var result := CreateRequest(db, others, user, event, bookable, lines, donation, key, requested,
                                  FinalReply(split, first, second));
      if landing.Declined? then result == Ensured(landing.db, Err(landing.error))
      else
        && landing.row < |others(landing.gap, landing.db).bookings|
        && OrderOutcome(landing.db.bookings[landing.row], others(landing.gap, landing.db), landing.row, true,
                        requested, split, first, second, result.db, result.answer)
  {
    var landing := CreateLanding(db, others, user, event, bookable, lines, donation, key);
    if !landing.Declined? {
      assert Persists(landing.db, others(landing.gap, landing.db));
      OrderEndsSo(others(landing.gap, landing.db), landing.row, landing.db.bookings[landing.row], true, requested,
                  split, first, second);
    }
  }

  /** A dead key is no obstacle: where the lookup declines every row of it and
      nothing runs in between, an order that could be reserved is inserted. */
  lemma DeadKeyIsReplaced(db: Db, others: Others, user: UserId, event: EventId, bookable: bool, lines: seq<Item>,
                          donation: int, key: Option<string>)
    requires CreateRefusal(db, event, bookable, lines, donation).None? && ReserveAll(db.tiers, lines, db.clock).Moved?
    requires !Answerable(db, user, key)
    requires others(0, db) == db && others(1, ReleaseKey(db, user, key)) == ReleaseKey(db, user, key)
    ensures CreateLanding(db, others, user, event, bookable, lines, donation, key).Inserted?
  {
    var found := FindReplayable(db.bookings, user, key, db.clock, db.settings.replayWindow);
    assert found.None?;
    ReleasedKeyIsFree(db, user, event, lines, donation, key);
  }

  /** A create whose own new hold is refused its order, whatever others did
      meanwhile: if it is still a hold, it is cancelled, and exactly its seats
      go back. */
  lemma RefusedCreateReturnsSeats(db: Db, others: Others, user: UserId, event: EventId, bookable: bool,
                                  lines: seq<Item>, donation: int, key: Option<string>, requested: Gateway,
                                  split: bool, first: Reply, second: Reply)
    requires Rely(others) && KeepAll(others) && Inv(db) && OrderRefused(split, first, second)
    requires CreateLanding(db, others, user, event, bookable, lines, donation, key).Inserted?
    ensures var landing := CreateLanding(db, others, user, event, bookable, lines, donation, key);
      var now, b := others(landing.gap, landing.db), landing.row;
      var result := CreateRequest(db, others, user, event, bookable, lines, donation, key, requested,
                                  FinalReply(split, first, second));
      && b < |now.bookings| && result.answer == Err(PaymentOrderFailed)
      && if now.bookings[b].status != Reserved then result.db == now
         else
           && result.db.bookings == now.bookings[b := now.bookings[b].(status := Cancelled)]
           && forall t :: t in now.tiers ==>
                t in result.db.tiers && result.db.tiers[t].sold == now.tiers[t].sold
                && result.db.tiers[t].reserved == now.tiers[t].reserved - Quantity(lines, t)
  {
    var landing := CreateLanding(db, others, user, event, bookable, lines, donation, key);
    var now, b := others(landing.gap, landing.db), landing.row;
    CreateLandingKeeps(db, others, user, event, bookable, lines, donation, key);
    assert Persists(landing.db, now);
    NewHoldNeedsOrder(db, others, user, event, bookable, lines, donation, key);
    if now.bookings[b].status == Reserved { GivingUpWrites(now, b, Cancelled, "payment_order_failed"); }
  }

  lemma NewHoldNeedsOrder(db: Db, others: Others, user: UserId, event: EventId, bookable: bool, lines: seq<Item>,
                          donation: int, key: Option<string>)
    requires CreateLanding(db, others, user, event, bookable, lines, donation, key).Inserted?
    ensures var landing := CreateLanding(db, others, user, event, bookable, lines, donation, key);
      && NeedsOrder(landing.db.bookings[landing.row]) && landing.db.bookings[landing.row].items == lines
  {
  }

  // --- the key and the void, row by row ------------------------------------

  /** Rows of which exactly the unreplayable holders lost the key. */
  ghost predicate OnlyDeadHoldersDetached(before: seq<Booking>, after: seq<Booking>, user: UserId,
                                          key: Option<string>, now: Time, window: Time)
  {
    && |after| == |before|
    && (forall i :: 0 <= i < |after| ==>
          (HoldsKey(after[i], user, key) <==> HoldsKey(before[i], user, key) && Replayable(before[i], now, window)))
    && (forall i :: 0 <= i < |after| ==>
          after[i] == before[i] || (HoldsKey(before[i], user, key) && after[i] == before[i].(key := None)))
  }

  lemma DetachedIsReleased(db: Db, after: seq<Booking>, user: UserId, key: Option<string>)
    requires OnlyDeadHoldersDetached(db.bookings, after, user, key, db.clock, db.settings.replayWindow)
    ensures ReleaseKey(db, user, key) == db.(bookings := after)
  {
    assert ReleaseKey(db, user, key).bookings == after;
  }

  lemma NoKeyNothingReleased(db: Db, user: UserId)
    ensures ReleaseKey(db, user, None) == db
  {
    assert ReleaseKey(db, user, None).bookings == db.bookings;
  }

  /** Tickets of which exactly the booking's active ones died. */
  ghost predicate OnlyActiveVoided(before: seq<Ticket>, after: seq<Ticket>, b: BookingId) {
    && |after| == |before|
    && (forall i :: 0 <= i < |after| && after[i] != before[i] ==>
          before[i].booking == b && before[i].status == Active && after[i] == before[i].(status := Void))
    && (forall i :: 0 <= i < |after| && after[i].booking == b ==> after[i].status != Active)
  }

  lemma OnlyActiveVoidedIsVoid(db: Db, after: seq<Ticket>, b: BookingId)
    requires OnlyActiveVoided(db.tickets, after, b)
    ensures VoidTickets(db, b) == db.(tickets := after)
  {
    assert VoidTickets(db, b).tickets == after;
  }

  // --- issuing, ticket by ticket -------------------------------------------

  lemma CopiesGrow(start: seq<Ticket>, t: Ticket, n: nat)
    ensures start + Copies(t, 0) == start
    ensures start + Copies(t, n) + [t] == start + Copies(t, n + 1)
  {
    assert Copies(t, n + 1) == Copies(t, n) + [t];
    ConcatAssociates(start, Copies(t, n), [t]);
  }

  lemma LineIssued(b: BookingId, event: EventId, items: seq<Item>, i: nat, start: seq<Ticket>)
    requires i < |items|
    ensures start + Issue(b, event, items[i..])
         == start + Copies(Ticket(b, items[i].tier, event, Active), items[i].quantity) + Issue(b, event, items[i + 1..])
  {
    var rest := items[i..];
    assert rest[1..] == items[i + 1..] && rest[0] == items[i];
    ConcatAssociates(start, Copies(Ticket(b, items[i].tier, event, Active), items[i].quantity),
                     Issue(b, event, items[i + 1..]));
  }

  lemma IssueStarts(b: BookingId, event: EventId, items: seq<Item>)
    ensures [] + Issue(b, event, items[0..]) == Issue(b, event, items)
  {
    assert items[0..] == items;
  }

  lemma IssueEnds(b: BookingId, event: EventId, items: seq<Item>, made: seq<Ticket>)
    ensures made + Issue(b, event, items[|items|..]) == made
  {
    assert items[|items|..] == [];
  }

  class BookingService {
    const settings: Settings
    var tiers: map<TierId, Tier>
    var bookings: seq<Booking>
    var tickets: seq<Ticket>
    var redemptions: map<BookingId, Redemption>
    var coupons: map<CouponId, Coupon>
    var orders: seq<Order>
    var outbox: seq<DomainEvent>
    var clock: Time

    function Database(): Db
      reads this
    {
      Db(settings, tiers, bookings, tickets, redemptions, coupons, orders, outbox, clock)
    }

    /** A new deployment, with its tiers on sale and nothing sold. */
    constructor (settings: Settings, onSale: map<TierId, Tier>, coupons: map<CouponId, Coupon>, now: Time)
      ensures Database() == Db(settings, map t | t in onSale :: onSale[t].(reserved := 0, sold := 0),
                               [], [], map[], coupons, [], [], now)
      ensures ValidSettings(settings) ==> Inv(Database())
    {
      this.settings := settings;
      tiers := map t | t in onSale :: onSale[t].(reserved := 0, sold := 0);
      bookings, tickets, orders, outbox := [], [], [], [];
      redemptions, this.coupons, clock := map[], coupons, now;
      new;
      if ValidSettings(settings) { EmptyShopIsGood(Database()); }
    }

    // --- one tier, under its row lock --------------------------------------

    method ReserveTier(line: Item) returns (refused: Option<Error>)
      modifies this`tiers
      ensures match Reserve(old(tiers), line, clock)
              case Refused(e) => refused == Some(e) && tiers == old(tiers)
              case Moved(next) => refused == None && tiers == next
    {
      if line.tier !in tiers { return Some(TierNotFound); }
      var t := tiers[line.tier];
      if t.saleStart.Some? && clock < t.saleStart.value { return Some(SaleNotStarted); }
      if t.saleEnd.Some? && clock > t.saleEnd.value { return Some(SaleClosed); }
      if line.quantity > t.maxPerOrder { return Some(ExceedsMaxPerOrder); }
      var available := t.quantity - t.sold - t.reserved;
      if line.quantity > available { return Some(SoldOut); }
      tiers := tiers[line.tier := t.(reserved := t.reserved + line.quantity)];
      return None;
    }

    method ReleaseTier(line: Item) returns (refused: Option<Error>)
      modifies this`tiers
      ensures match Release(old(tiers), line)
              case Refused(e) => refused == Some(e) && tiers == old(tiers)
              case Moved(next) => refused == None && tiers == next
    {
      if line.tier !in tiers { return Some(TierNotFound); }
      var t := tiers[line.tier];
      var released := if line.quantity < t.reserved then line.quantity else t.reserved;
      tiers := tiers[line.tier := t.(reserved := t.reserved - released)];
      return None;
    }

    method ConfirmTier(line: Item) returns (refused: Option<Error>)
      modifies this`tiers
      ensures match ConfirmSold(old(tiers), line)
              case Refused(e) => refused == Some(e) && tiers == old(tiers)
              case Moved(next) => refused == None && tiers == next
    {
      if line.tier !in tiers { return Some(TierNotFound); }
      var t := tiers[line.tier];
      var moved := if line.quantity < t.reserved then line.quantity else t.reserved;
      tiers := tiers[line.tier := t.(reserved := t.reserved - moved, sold := t.sold + moved)];
      return None;
    }

    // --- create ------------------------------------------------------------

    method ValidateItems(event: EventId, lines: seq<Item>) returns (ok: bool)
      ensures ok == ValidItems(tiers, event, lines, {})
    {
      var seen: set<TierId> := {};
      for i := 0 to |lines|
        invariant ValidItems(tiers, event, lines[i..], seen) == ValidItems(tiers, event, lines, {})
      {
        var line := lines[i];
        if line.quantity < 1 { return false; }
        if line.tier in seen { return false; }
        if line.tier !in tiers || tiers[line.tier].event != event { return false; }
        seen := seen + {line.tier};
        assert lines[i..][1..] == lines[i + 1..];
      }
      return true;
    }

    /** Every line reserved under its own lock and the row inserted with the
        prices those locks decided, or nothing at all. A lost race for the key
        answers with the row that won it. */
    method InsertHold(user: UserId, event: EventId, lines: seq<Item>, donation: int, key: Option<string>)
      returns (r: Result<BookingId>)
      modifies this
      ensures var before := old(Database());
        match Bookings.ReserveAndInsert(before, user, event, lines, donation, key)
        case Committed(db) => r == Ok(|before.bookings|) && Database() == db
        case RolledBack(e) =>
          && Database() == before
          && match FindReplayable(before.bookings, user, key, before.clock, before.settings.replayWindow)
             case Some(winner) => r == if e == KeyTaken then Ok(winner) else Err(e)
             case None => r == Err(e)
      ensures var subtotal := Subtotal(lines);
        var fee := Money.PlatformFee(subtotal, settings.feeBps);
        || bookings == old(bookings)
        || bookings == old(bookings) + [Booking(user, event, Reserved, clock, clock + settings.hold, lines,
                                                subtotal + fee + donation, fee, donation, 0, None, "", "", "", key)]
    {
      ReserveNeverSaysKeyTaken(tiers, lines, clock);
      var savepoint := tiers;
      var i := 0;
      while i < |lines|
        invariant i <= |lines|
        invariant ReserveAll(tiers, lines[i..], clock) == ReserveAll(savepoint, lines, clock)
        invariant Database() == old(Database()).(tiers := tiers)
      {
        assert lines[i..][1..] == lines[i + 1..];
        var refused := ReserveTier(lines[i]);
        if refused.Some? {
          tiers := savepoint;
          return Err(refused.value);
        }
        i := i + 1;
      }
      var subtotal := Subtotal(lines);
      var fee := Money.PlatformFee(subtotal, settings.feeBps);
      if KeyTakenIn(bookings, user, key) {
        tiers := savepoint;
        var winner := FindReplayable(bookings, user, key, clock, settings.replayWindow);
        return if winner.Some? then Ok(winner.value) else Err(KeyTaken);
      }
      var b := |bookings|;
      bookings := bookings + [Booking(user, event, Reserved, clock, clock + settings.hold, lines,
                                      subtotal + fee + donation, fee, donation, 0, None, "", "", "", key)];
      outbox := outbox + [BookingCreated(b)];
      return Ok(b);
    }

    /** Afterwards only a row the lookup would answer with holds the key. */
    method ReleaseIdempotencyKey(user: UserId, key: Option<string>) returns (detached: nat)
      modifies this`bookings
      ensures OnlyDeadHoldersDetached(old(bookings), bookings, user, key, clock, settings.replayWindow)
      ensures detached == |set i: nat | i < |bookings| && bookings[i] != old(bookings)[i]|
    {
      ghost var before := bookings;
      var dead := set i: nat | i < |bookings| && HoldsKey(bookings[i], user, key)
                               && !Replayable(bookings[i], clock, settings.replayWindow);
      bookings := seq(|bookings|, i requires 0 <= i < |bookings| reads this =>
        DetachKey(bookings[i], user, key, clock, settings.replayWindow));
      assert dead == set i: nat | i < |bookings| && bookings[i] != before[i];
      return |dead|;
    }

    /** What the others do while this request holds no transaction open. */
    method Meanwhile(others: Others, k: nat)
      requires Rely(others)
      modifies this
      ensures Database() == others(k, old(Database()))
    {
      ghost var before := Database();
      var next := others(k, Database());
      assert Persists(before, next);
      tiers, bookings, tickets, redemptions := next.tiers, next.bookings, next.tickets, next.redemptions;
      coupons, orders, outbox, clock := next.coupons, next.orders, next.outbox, next.clock;
    }

    /** The create call, among others. */
    method CreateBooking(user: UserId, event: EventId, bookable: bool, lines: seq<Item>, donation: int,
                         key: Option<string>, requested: Gateway, split: bool, first: Reply, second: Reply,
                         others: Others)
      returns (r: Result<BookingId>)
      requires Rely(others)
      modifies this
      ensures Ensured(Database(), r) == CreateRequest(old(Database()), others, user, event, bookable, lines, donation,
                                                      key, requested, FinalReply(split, first, second))
      ensures RowsGood(old(Database())) && KeepRows(others) ==>
                RowsGood(Database()) && AnswersOwn(Ensured(Database(), r), user)
      ensures Inv(old(Database())) && KeepAll(others) ==>
                (Inv(Database()) <==>
                 LandsSafely(CreateLanding(old(Database()), others, user, event, bookable, lines, donation, key),
                             others, FinalReply(split, first, second)))
    {
      CreateRequestKeepsBoth(Database(), others, user, event, bookable, lines, donation, key, requested,
                             FinalReply(split, first, second));
      if lines == [] { return Err(InvalidItems); }
      if donation < 0 || donation > settings.donationMax { return Err(InvalidDonation); }
      if !bookable { return Err(EventNotBookable); }
      var valid := ValidateItems(event, lines);
      if !valid { return Err(InvalidItems); }
      var existing := FindReplayable(bookings, user, key, clock, settings.replayWindow);
      if existing.Some? {
        r := PayLater(existing.value, true, requested, split, first, second, others, 0);
        return;
      }
      Meanwhile(others, 0);
      r := CreateHoldingKey(user, event, lines, donation, key, requested, split, first, second, others);
    }

    /** Under the cache lock when there is a key; nothing rests on the lock. */
    method CreateHoldingKey(user: UserId, event: EventId, lines: seq<Item>, donation: int, key: Option<string>,
                            requested: Gateway, split: bool, first: Reply, second: Reply, others: Others)
      returns (r: Result<BookingId>)
      requires Rely(others)
      modifies this
      ensures Ensured(Database(), r)
           == ServeLanding(UnderKeyLanding(old(Database()), others, user, event, lines, donation, key), others,
                           requested, FinalReply(split, first, second))
    {
      ghost var before := Database();
      NoKeyNothingReleased(before, user);
      if key.Some? {
        var existing := FindReplayable(bookings, user, key, clock, settings.replayWindow);
        if existing.Some? {
          r := PayLater(existing.value, true, requested, split, first, second, others, 1);
          return;
        }
        var _ := ReleaseIdempotencyKey(user, key);
        DetachedIsReleased(before, bookings, user, key);
      }
      Meanwhile(others, 1);
      r := InsertHold(user, event, lines, donation, key);
      if r.Err? { return; }
      r := PayLater(r.value, true, requested, split, first, second, others, 2);
    }

    /** The order call, outside any transaction: on the copy read now. */
    method PayLater(b: BookingId, releaseOnFailure: bool, requested: Gateway, split: bool, first: Reply, second: Reply,
                    others: Others, k: nat)
      returns (r: Result<BookingId>)
      requires Rely(others) && b < |bookings|
      modifies this
      ensures Ensured(Database(), r)
           == Serve(old(Database()), others, k, b, releaseOnFailure, requested, FinalReply(split, first, second))
      ensures b < |others(k, old(Database())).bookings| &&
              OrderOutcome(old(bookings)[b], others(k, old(Database())), b, releaseOnFailure, requested,
                           split, first, second, Database(), r)
      ensures RowsGood(old(Database())) && KeepRows(others) ==>
                RowsGood(Database()) && AnswersFor(Ensured(Database(), r), b, old(bookings)[b].user)
      ensures Inv(old(Database())) && KeepAll(others) ==>
                (Inv(Database()) <==>
                 ServesSafely(old(Database()), others, k, b, FinalReply(split, first, second)))
    {
      ghost var before, final := Database(), FinalReply(split, first, second);
      if RowsGood(before) && KeepRows(others) {
        ServeKeepsRows(before, others, k, b, releaseOnFailure, requested, final);
      }
      if Inv(before) && KeepAll(others) { ServeKeeps(before, others, k, b, releaseOnFailure, requested, final); }
      var read := bookings[b];
      assert Persists(before, others(k, before));
      OrderEndsSo(others(k, before), b, read, releaseOnFailure, requested, split, first, second);
      Meanwhile(others, k);
      r := EnsurePaymentOrder(b, read, releaseOnFailure, requested, split, first, second);
    }

    // --- the payment order -------------------------------------------------

    method EnsurePaymentOrder(b: BookingId, read: Booking, releaseOnFailure: bool, requested: Gateway,
                              split: bool, first: Reply, second: Reply)
      returns (r: Result<BookingId>)
      requires b < |bookings| && SameIdentity(read, bookings[b])
      modifies this
      ensures Ensured(Database(), r) == EnsureOrder(old(Database()), b, read, releaseOnFailure, requested,
                                        FinalReply(split, first, second))
      ensures RowsGood(old(Database())) && CopyOf(old(Database()), b, read) ==> RowsGood(Database())
      ensures Inv(old(Database())) && CopyOf(old(Database()), b, read) ==>
                (Inv(Database()) <==> SavesSafely(old(Database()), b, read, FinalReply(split, first, second)))
    {
      ghost var before, final := Database(), FinalReply(split, first, second);
      if RowsGood(before) && CopyOf(before, b, read) {
        EnsureOrderKeepsRows(before, b, read, releaseOnFailure, requested, final);
      }
      if Inv(before) && CopyOf(before, b, read) {
        EnsureOrderKeeps(before, b, read, releaseOnFailure, requested, final);
      }
      if read.order.Some? || read.status != Reserved { return Ok(b); }
      var chosen := if read.gateway != "" then read.gateway else ResolveGateway(settings, requested);
      var reply := first;
      if split && first.Rejected? { reply := second; }
      if !reply.Created? {
        if releaseOnFailure {
          var refused := ReleaseUnstartableHold(b);
          if refused.Some? { return Err(refused.value); }
        }
        return Err(PaymentOrderFailed);
      }
      var o := |orders|;
      orders := orders + [Order(b, read.total, chosen)];
      var row := read.(order := Some(o), session := reply.session, gateway := chosen);
      if SaveCollides(bookings, b, row) { return Err(KeyTaken); }
      bookings := bookings[b := row];
      return Ok(b);
    }

    /** The release every closing path shares: items, coupon, status, event. */
    method CloseHold(b: BookingId, status: BookingStatus, reason: string) returns (refused: Option<Error>)
      requires b < |bookings|
      modifies this
      ensures match GiveUp(old(Database()), b, status, reason)
              case Committed(db) => refused == None && Database() == db
              case RolledBack(e) => refused == Some(e) && Database() == old(Database())
      ensures refused == None ==>
                && bookings == old(bookings)[b := old(bookings)[b].(status := status)]
                && redemptions == old(redemptions) - {b} && outbox == old(outbox) + [BookingCancelled(b, reason)]
    {
      var savepoint := tiers;
      var items := bookings[b].items;
      for i := 0 to |items|
        invariant ReleaseAll(tiers, items[i..]) == ReleaseAll(savepoint, items)
        invariant Database() == old(Database()).(tiers := tiers)
      {
        assert items[i..][1..] == items[i + 1..];
        refused := ReleaseTier(items[i]);
        if refused.Some? {
          tiers := savepoint;
          return;
        }
      }
      redemptions := redemptions - {b};
      bookings := bookings[b := bookings[b].(status := status)];
      outbox := outbox + [BookingCancelled(b, reason)];
      return None;
    }

    method ReleaseUnstartableHold(b: BookingId) returns (refused: Option<Error>)
      modifies this
      ensures Database() == After(old(Database()), ReleaseUnstartable(old(Database()), b))
      ensures refused == match ReleaseUnstartable(old(Database()), b)
                         case Committed(_) => None
                         case RolledBack(e) => Some(e)
    {
      if b >= |bookings| || bookings[b].status != Reserved { return None; }
      refused := CloseHold(b, Cancelled, "payment_order_failed");
    }

    method CancelBooking(b: BookingId, actor: UserId) returns (r: Result<BookingId>)
      modifies this
      ensures Database() == After(old(Database()), Cancel(old(Database()), b, actor))
      ensures r == match Cancel(old(Database()), b, actor) case Committed(_) => Ok(b) case RolledBack(e) => Err(e)
      ensures r.Ok? ==>
                && b < |old(bookings)| && old(bookings)[b].user == actor && old(bookings)[b].status == Reserved
                && bookings == old(bookings)[b := old(bookings)[b].(status := Cancelled)]
      ensures r.Err? ==> Database() == old(Database())
      ensures Inv(old(Database())) ==> Inv(Database())
    {
      if b >= |bookings| { return Err(NotFound); }
      if bookings[b].user != actor { return Err(NotOwner); }
      if bookings[b].status != Reserved { return Err(NotCancellable(bookings[b].status)); }
      if Inv(Database()) { GiveUpKeeps(Database(), b, Cancelled, "user_cancelled"); }
      var refused := CloseHold(b, Cancelled, "user_cancelled");
      return if refused.Some? then Err(refused.value) else Ok(b);
    }

    // --- re-pricing --------------------------------------------------------

    /** The locked half of a donation change. */
    method WriteDonation(b: BookingId, actor: UserId, donation: int) returns (refused: Option<Error>)
      modifies this`bookings
      ensures match Bookings.SetDonation(old(Database()), b, actor, donation)
              case Committed(db) => refused == None && Database() == db
              case RolledBack(e) => refused == Some(e) && Database() == old(Database())
    {
      if donation < 0 || donation > settings.donationMax { return Some(InvalidDonation); }
      if b >= |bookings| { return Some(NotFound); }
      var row := bookings[b];
      if row.user != actor { return Some(NotOwner); }
      if row.status != Reserved { return Some(NotModifiable(row.status)); }
      if row.donation != donation {
        var withoutDonation := row.total - row.donation;
        bookings := bookings[b := row.(donation := donation, total := withoutDonation + donation, order := None)];
      }
      return None;
    }

    method SetDonation(b: BookingId, actor: UserId, donation: int,
                       split: bool, first: Reply, second: Reply, others: Others)
      returns (r: Result<BookingId>)
      requires Rely(others)
      modifies this
      ensures match Bookings.SetDonation(old(Database()), b, actor, donation)
              case RolledBack(e) => r == Err(e) && Database() == old(Database())
              case Committed(db) => ReissuedIn(old(Database()), db, others, b, "", FinalReply(split, first, second),
                                               Ensured(Database(), r))
      ensures var change := Bookings.SetDonation(old(Database()), b, actor, donation);
        change.Committed? ==>
          b < |others(0, change.db).bookings| &&
          OrderOutcome(change.db.bookings[b], others(0, change.db), b, false, "",
                       split, first, second, Database(), r)
    {
      ghost var before := Database();
      var refused := WriteDonation(b, actor, donation);
      if refused.Some? { return Err(refused.value); }
      if RowsGood(before) { DonationKeepsRows(before, b, actor, donation); }
      if Inv(before) { SetDonationKeeps(before, b, actor, donation); }
      r := PayLater(b, false, "", split, first, second, others, 0);
    }

    method WriteGateway(b: BookingId, actor: UserId, wanted: Gateway) returns (refused: Option<Error>)
      modifies this`bookings
      ensures match SetGateway(old(Database()), b, actor, wanted)
              case Committed(db) => refused == None && Database() == db
              case RolledBack(e) => refused == Some(e) && Database() == old(Database())
    {
      if wanted !in settings.offered { return Some(UnknownGateway); }
      if b >= |bookings| { return Some(NotFound); }
      var row := bookings[b];
      if row.user != actor { return Some(NotOwner); }
      if row.status != Reserved { return Some(NotModifiable(row.status)); }
      if row.order.Some? && GatewayOrDefault(settings, row) != wanted {
        row := row.(order := None, session := "");
      }
      bookings := bookings[b := row.(gateway := wanted)];
      return None;
    }

    method SetPaymentGateway(b: BookingId, actor: UserId, wanted: Gateway,
                             split: bool, first: Reply, second: Reply, others: Others)
      returns (r: Result<BookingId>)
      requires Rely(others)
      modifies this
      ensures match SetGateway(old(Database()), b, actor, wanted)
              case RolledBack(e) => r == Err(e) && Database() == old(Database())
              case Committed(db) => ReissuedIn(old(Database()), db, others, b, wanted, FinalReply(split, first, second),
                                               Ensured(Database(), r))
      ensures var change := SetGateway(old(Database()), b, actor, wanted);
        change.Committed? ==>
          b < |others(0, change.db).bookings| &&
          OrderOutcome(change.db.bookings[b], others(0, change.db), b, false, wanted,
                       split, first, second, Database(), r)
    {
      ghost var before := Database();
      var refused := WriteGateway(b, actor, wanted);
      if refused.Some? { return Err(refused.value); }
      if RowsGood(before) { GatewayKeepsRows(before, b, actor, wanted); }
      if Inv(before) { SetGatewayKeeps(before, b, actor, wanted); }
      r := PayLater(b, false, wanted, split, first, second, others, 0);
    }

    method WriteCoupon(b: BookingId, actor: UserId, code: Option<CouponId>) returns (refused: Option<Error>)
      modifies this`bookings, this`redemptions
      ensures match Bookings.SetCoupon(old(Database()), b, actor, code)
              case Committed(db) => refused == None && Database() == db
              case RolledBack(e) => refused == Some(e) && Database() == old(Database())
    {
      if b >= |bookings| { return Some(NotFound); }
      var row := bookings[b];
      if row.user != actor { return Some(NotOwner); }
      if row.status != Reserved { return Some(NotModifiable(row.status)); }
      var savepoint := redemptions;
      redemptions := redemptions - {b};
      var subtotal := Subtotal(row.items);
      var decision := Coupons.Decide(coupons, redemptions, code, row.event, row.user, subtotal, row.donation, clock);
      if decision.Declined? {
        redemptions := savepoint;
        return Some(decision.error);
      }
      redemptions := redemptions[b := Redemption(code.value, row.user, decision.discount)];
      var charged := subtotal - decision.discount;
      var fee := Money.PlatformFee(charged, settings.feeBps);
      bookings := bookings[b := row.(discount := decision.discount, fee := fee,
                                     total := charged + fee + row.donation, order := None)];
      return None;
    }

    /** A refused replacement code leaves row, redemption and total as they were. */
    method SetCoupon(b: BookingId, actor: UserId, code: Option<CouponId>,
                     split: bool, first: Reply, second: Reply, others: Others)
      returns (r: Result<BookingId>)
      requires Rely(others)
      modifies this
      ensures match Bookings.SetCoupon(old(Database()), b, actor, code)
              case RolledBack(e) => r == Err(e) && Database() == old(Database())
              case Committed(db) => ReissuedIn(old(Database()), db, others, b, "", FinalReply(split, first, second),
                                               Ensured(Database(), r))
      ensures var change := Bookings.SetCoupon(old(Database()), b, actor, code);
        change.Committed? ==>
          b < |others(0, change.db).bookings| &&
          OrderOutcome(change.db.bookings[b], others(0, change.db), b, false, "",
                       split, first, second, Database(), r)
    {
      ghost var before := Database();
      var refused := WriteCoupon(b, actor, code);
      if refused.Some? { return Err(refused.value); }
      if RowsGood(before) { CouponKeepsRows(before, b, actor, code); }
      if Inv(before) { SetCouponKeeps(before, b, actor, code); }
      r := PayLater(b, false, "", split, first, second, others, 0);
    }

    method DropCoupon(b: BookingId, actor: UserId) returns (refused: Option<Error>, changed: bool)
      modifies this`bookings, this`redemptions
      ensures match Bookings.ClearCoupon(old(Database()), b, actor)
              case Committed(db) => refused == None && Database() == db && (changed <==> db != old(Database()))
              case RolledBack(e) => refused == Some(e) && Database() == old(Database())
    {
      changed := false;
      if b >= |bookings| { return Some(NotFound), false; }
      var row := bookings[b];
      if row.user != actor { return Some(NotOwner), false; }
      if row.status != Reserved { return Some(NotModifiable(row.status)), false; }
      var released := b in redemptions;
      if !released && row.discount == 0 { return None, false; }
      redemptions := redemptions - {b};
      var subtotal := Subtotal(row.items);
      var fee := Money.PlatformFee(subtotal, settings.feeBps);
      bookings := bookings[b := row.(discount := 0, fee := fee, total := subtotal + fee + row.donation, order := None)];
      assert released ==> b !in redemptions && b in old(redemptions);
      assert row.discount != 0 ==> bookings[b].discount == 0;
      return None, true;
    }

    /** A booking with no code comes back unchanged and places no new order. */
    method ClearCoupon(b: BookingId, actor: UserId, split: bool, first: Reply, second: Reply, others: Others)
      returns (r: Result<BookingId>)
      requires Rely(others)
      modifies this
      ensures match Bookings.ClearCoupon(old(Database()), b, actor)
              case RolledBack(e) => r == Err(e) && Database() == old(Database())
              case Committed(db) =>
                if db == old(Database()) then r == Ok(b) && Database() == old(Database())
                else ReissuedIn(old(Database()), db, others, b, "", FinalReply(split, first, second),
                                Ensured(Database(), r))
      ensures var change := Bookings.ClearCoupon(old(Database()), b, actor);
        change.Committed? && change.db != old(Database()) ==>
          b < |others(0, change.db).bookings| &&
          OrderOutcome(change.db.bookings[b], others(0, change.db), b, false, "",
                       split, first, second, Database(), r)
    {
      ghost var before := Database();
      var refused, changed := DropCoupon(b, actor);
      if refused.Some? { return Err(refused.value); }
      if !changed { return Ok(b); }
      if RowsGood(before) { ClearKeepsRows(before, b, actor); }
      if Inv(before) { ClearCouponKeeps(before, b, actor); }
      r := PayLater(b, false, "", split, first, second, others, 0);
    }

    // --- the sweep ---------------------------------------------------------

    /** The work list: ids of lapsed holds, up to the limit. The query has no
        order, and callers are promised none. */
    method ListExpiredReservedIds(limit: nat) returns (work: seq<BookingId>)
      ensures Sweeper.WorkList(Database(), limit, work)
      ensures forall k :: k in work ==>
                k < |bookings| && bookings[k].status == Reserved && bookings[k].holdExpiresAt < clock
    {
      work := [];
      for i := 0 to |bookings|
        invariant |work| <= limit && Sweeper.Distinct(work)
        invariant forall k :: k in work ==> k < i && k in Sweeper.Lapsed(Database())
        invariant |work| < limit ==> forall k: nat :: k < i && k in Sweeper.Lapsed(Database()) ==> k in work
      {
        if |work| < limit && bookings[i].status == Reserved && bookings[i].holdExpiresAt < clock {
          Sweeper.AppendIsDistinct(work, i);
          work := work + [i];
        }
      }
      Sweeper.IsWorkList(Database(), limit, work);
    }

    /** One pass, with nothing else running; `work` is the list it drew up and
        `failing` the ids whose transaction the database will fail. */
    method ReleaseExpired(limit: nat, failing: set<BookingId>)
      returns (released: nat, raised: Option<Error>, ghost work: seq<BookingId>)
      modifies this
      ensures Sweeper.WorkList(old(Database()), limit, work)
      ensures Database() == Sweeper.SweepAll(old(Database()), work, failing)
      ensures released == |Sweeper.Reached(old(Database()), work, failing)|
      ensures raised == if released < |work| then Some(Sweeper.Failure(work[released], failing)) else None
      ensures Sweeper.LinesAllKnown(old(Database())) && failing == {} ==>
                raised == None && |Sweeper.Lapsed(Database())| == |Sweeper.Lapsed(old(Database()))| - released
    {
      ghost var before := Database();
      var list := ListExpiredReservedIds(limit);
      work := list;
      Sweeper.PassReachesExactly(before, list, failing);
      if Sweeper.LinesAllKnown(before) && failing == {} { Sweeper.PassShrinksBacklog(before, limit, list); }
      released, raised := ReleaseEach(list, failing);
    }

    method ReleaseEach(work: seq<BookingId>, failing: set<BookingId>) returns (released: nat, raised: Option<Error>)
      modifies this
      ensures Database() == Sweeper.SweepAll(old(Database()), work, failing)
      ensures released == Sweeper.Released(old(Database()), work, failing)
      ensures raised == Sweeper.Raised(old(Database()), work, failing)
    {
      released := 0;
      for i := 0 to |work|
        invariant Sweeper.SweepAll(Database(), work[i..], failing) == Sweeper.SweepAll(old(Database()), work, failing)
        invariant released + Sweeper.Released(Database(), work[i..], failing)
               == Sweeper.Released(old(Database()), work, failing)
        invariant Sweeper.Raised(Database(), work[i..], failing) == Sweeper.Raised(old(Database()), work, failing)
      {
        assert work[i..][1..] == work[i + 1..];
        var gone;
        gone, raised := ReleaseOneExpired(work[i], work[i] in failing);
        if raised.Some? { return; }
        if gone { released := released + 1; }
      }
      raised := None;
    }

    /** Re-checked under the lock, unless the transaction fails. */
    method ReleaseOneExpired(b: BookingId, fails: bool) returns (gone: bool, raised: Option<Error>)
      modifies this
      ensures match Sweeper.ReleaseOne(old(Database()), b, if fails then {b} else {})
              case Committed(db) => raised == None && Database() == db
              case RolledBack(e) => raised == Some(e) && Database() == old(Database())
      ensures gone <==> outbox != old(outbox)
    {
      if fails { return false, Some(DatabaseFailed); }
      if b >= |bookings| { return false, None; }
      if bookings[b].status != Reserved || bookings[b].holdExpiresAt >= clock { return false, None; }
      raised := CloseHold(b, Expired, "expired");
      gone := raised.None?;
    }

    // --- confirm and void --------------------------------------------------

    method ConfirmTiers(b: BookingId) returns (refused: Option<Error>)
      requires b < |bookings|
      modifies this`tiers
      ensures match ConfirmAll(old(tiers), bookings[b].items)
              case Refused(e) => refused == Some(e) && tiers == old(tiers)
              case Moved(next) => refused == None && tiers == next
    {
      var savepoint, items := tiers, bookings[b].items;
      for i := 0 to |items|
        invariant ConfirmAll(tiers, items[i..]) == ConfirmAll(savepoint, items)
      {
        assert items[i..][1..] == items[i + 1..];
        refused := ConfirmTier(items[i]);
        if refused.Some? {
          tiers := savepoint;
          return;
        }
      }
      return None;
    }

    method IssueTickets(b: BookingId, event: EventId, items: seq<Item>) returns (ids: seq<nat>)
      modifies this`tickets
      ensures tickets == old(tickets) + Issue(b, event, items)
      ensures ids == IdsFrom(|old(tickets)|, |Issue(b, event, items)|)
    {
      var made: seq<Ticket> := [];
      IssueStarts(b, event, items);
      for i := 0 to |items|
        invariant tickets == old(tickets)
        invariant made + Issue(b, event, items[i..]) == Issue(b, event, items)
      {
        ghost var start := made;
        var ticket := Ticket(b, items[i].tier, event, Active);
        CopiesGrow(start, ticket, 0);
        for n := 0 to items[i].quantity
          invariant tickets == old(tickets)
          invariant made == start + Copies(ticket, n)
        {
          CopiesGrow(start, ticket, n);
          made := made + [ticket];
        }
        LineIssued(b, event, items, i, start);
      }
      IssueEnds(b, event, items, made);
      ids := IdsFrom(|tickets|, |made|);
      tickets := tickets + made;
    }

    /** The transaction of a good hold: reserved becomes sold, the row paid,
        the tickets issued and both events recorded, or nothing. */
    method MarkPaid(b: BookingId, ref: string) returns (r: Result<ConfirmResult>)
      requires b < |bookings| && Confirmable(bookings[b], clock)
      modifies this
      ensures match Confirm(old(Database()), b, ref)
              case RolledBack(e) => r == Err(e) && Database() == old(Database())
              case Committed(db) =>
                && Database() == db
                && |old(tickets)| <= |tickets| && r == Ok(ConfirmResult(Issued, IdSet(|old(tickets)|, |tickets|)))
    {
      var refused := ConfirmTiers(b);
      if refused.Some? { return Err(refused.value); }
      bookings := bookings[b := bookings[b].(status := Paid, paymentRef := ref)];
      var ids := IssueTickets(b, bookings[b].event, bookings[b].items);
      outbox := outbox + [BookingConfirmed(b, ids), TicketIssued(b, ids)];
      assert ids == IdsFrom(|old(tickets)|, |tickets| - |old(tickets)|);
      return Ok(ConfirmResult(Issued, Elements(ids)));
    }

    /** Issued once; a replay is handed the same tickets; a lapsed hold gets
        none and is left for the sweep. */
    method ConfirmBooking(b: BookingId, ref: string) returns (r: Result<ConfirmResult>)
      modifies this
      ensures b >= |old(bookings)| ==> r == Err(NotFound)
      ensures Database() == After(old(Database()), Confirm(old(Database()), b, ref))
      ensures r.Ok? && r.value.reason == AlreadyConfirmed <==> b < |old(bookings)| && old(bookings)[b].status == Paid
      ensures r.Ok? && r.value.reason == Issued ==>
                && Confirmable(old(bookings)[b], clock)
                && bookings == old(bookings)[b := old(bookings)[b].(status := Paid, paymentRef := ref)]
      ensures r.Ok? && r.value.reason == HoldExpired ==> r.value.tickets == {} && Database() == old(Database())
      ensures r.Ok? && r.value.reason == AlreadyConfirmed ==> r.value.tickets == TicketIds(tickets, b)
      ensures Inv(old(Database())) ==>
                && Inv(Database())
                && (b < |bookings| ==> r.Ok? && r.value.tickets == TicketIds(tickets, b))
    {
      if b >= |bookings| { return Err(NotFound); }
      ghost var before := Database();
      if Inv(before) { ConfirmReturnsTickets(before, b, ref); }
      if bookings[b].status == Paid {
        return Ok(ConfirmResult(AlreadyConfirmed, TicketIds(tickets, b)));
      }
      var lapsed := bookings[b].status == Cancelled || bookings[b].status == Expired
                    || bookings[b].holdExpiresAt < clock;
      if lapsed { return Ok(ConfirmResult(HoldExpired, {})); }
      r := MarkPaid(b, ref);
    }

    /** Kills exactly the booking's active tickets and says how many. */
    method VoidTicketsForBooking(b: BookingId) returns (voided: nat)
      modifies this`tickets
      ensures Database() == VoidTickets(old(Database()), b) && OnlyActiveVoided(old(tickets), tickets, b)
      ensures Inv(old(Database())) ==> Inv(Database())
      ensures voided == |set i: nat | i < |tickets| && tickets[i] != old(tickets)[i]|
    {
      ghost var before, was := tickets, Database();
      var active := set i: nat | i < |tickets| && tickets[i].booking == b && tickets[i].status == Active;
      tickets := seq(|tickets|, i requires 0 <= i < |tickets| reads this => VoidTicket(tickets[i], b));
      assert active == set i: nat | i < |tickets| && tickets[i] != before[i];
      OnlyActiveVoidedIsVoid(was, tickets, b);
      if Inv(was) { VoidKeeps(was, b); }
      return |active|;
    }
  }
}
