/** What each booking transaction accepts, and what it writes, column by
    column: stated without the functions the transactions are made of. */
module BookingRules {
  import opened Seqs
  import opened Tables
  import opened Ticketing
  import opened Bookings
  import opened BookingInvariant
  import opened BookingRows
  import opened BookingRuns
  import Coupons
  import Money

  // --- create --------------------------------------------------------------

  lemma {:induction false} ValidItemsExactly(tiers: map<TierId, Tier>, event: EventId, lines: seq<Item>,
                                             seen: set<TierId>)
    ensures ValidItems(tiers, event, lines, seen) <==>
            && (forall i :: 0 <= i < |lines| ==>
                  && lines[i].quantity >= 1 && lines[i].tier !in seen
                  && lines[i].tier in tiers && tiers[lines[i].tier].event == event)
            && (forall i, j :: 0 <= i < j < |lines| ==> lines[i].tier != lines[j].tier)
  {
    if lines != [] {
      var rest, more := lines[1..], seen + {lines[0].tier};
      ValidItemsExactly(tiers, event, rest, more);
      forall i | 1 <= i < |lines| ensures lines[i] == rest[i - 1] {}
      if ValidItems(tiers, event, lines, seen) {
        forall i, j | 0 <= i < j < |lines| ensures lines[i].tier != lines[j].tier {
          assert lines[j] == rest[j - 1];
          if i > 0 { assert lines[i] == rest[i - 1]; }
        }
      }
    }
  }

  /** Exactly the orders a create accepts: bookable event, a donation within
      its limit, at least one line, every line at least one seat of a tier of
      the event named once, on sale, within its order limit and not sold out,
      and no row of this user with the same key. */
  lemma CreateSucceedsExactly(db: Db, user: UserId, event: EventId, bookable: bool, lines: seq<Item>, donation: int,
                              key: Option<string>)
    ensures Create(db, user, event, bookable, lines, donation, key).Committed? <==>
            && bookable && lines != [] && 0 <= donation <= db.settings.donationMax
            && (forall i :: 0 <= i < |lines| ==>
                  && lines[i].quantity >= 1
                  && lines[i].tier in db.tiers && db.tiers[lines[i].tier].event == event
                  && Reservable(db.tiers, lines[i], db.clock))
            && (forall i, j :: 0 <= i < j < |lines| ==> lines[i].tier != lines[j].tier)
            && (key.Some? ==> forall i :: 0 <= i < |db.bookings| ==>
                                !(db.bookings[i].user == user && db.bookings[i].key == key))
  {
    ValidItemsExactly(db.tiers, event, lines, {});
    if forall i, j :: 0 <= i < j < |lines| ==> lines[i].tier != lines[j].tier {
      ReserveAllIffEach(db.tiers, lines, db.clock);
    }
  }

  /** A refused create changes nothing and gives a true reason: the first check
      of the order that fails, and only then what the tiers and the key say. */
  lemma CreateRefusalIsTrue(db: Db, user: UserId, event: EventId, bookable: bool, lines: seq<Item>, donation: int,
                            key: Option<string>)
    requires Create(db, user, event, bookable, lines, donation, key).RolledBack?
    ensures match Create(db, user, event, bookable, lines, donation, key).error
            case InvalidItems =>
              || lines == []
              || (exists i :: 0 <= i < |lines| && !(lines[i].quantity >= 1 && lines[i].tier in db.tiers
                                                    && db.tiers[lines[i].tier].event == event))
              || (exists i, j :: 0 <= i < j < |lines| && lines[i].tier == lines[j].tier)
            case InvalidDonation => donation < 0 || donation > db.settings.donationMax
            case EventNotBookable => !bookable
            case KeyTaken =>
              && key.Some?
              && exists i :: 0 <= i < |db.bookings| && db.bookings[i].user == user && db.bookings[i].key == key
            case SaleNotStarted =>
              exists i :: 0 <= i < |lines| && lines[i].tier in db.tiers && db.tiers[lines[i].tier].saleStart.Some?
                          && db.clock < db.tiers[lines[i].tier].saleStart.value
            case SaleClosed =>
              exists i :: 0 <= i < |lines| && lines[i].tier in db.tiers && db.tiers[lines[i].tier].saleEnd.Some?
                          && db.tiers[lines[i].tier].saleEnd.value < db.clock
            case ExceedsMaxPerOrder =>
              exists i :: 0 <= i < |lines| && lines[i].tier in db.tiers
                          && db.tiers[lines[i].tier].maxPerOrder < lines[i].quantity
            case SoldOut =>
              exists i :: 0 <= i < |lines| && lines[i].tier in db.tiers
                          && var t := db.tiers[lines[i].tier];
                             t.quantity < t.sold + t.reserved + lines[i].quantity
            case _ => false
    ensures var error := Create(db, user, event, bookable, lines, donation, key).error;
      && (lines != [] && (donation < 0 || donation > db.settings.donationMax) ==> error == InvalidDonation)
      && (lines != [] && 0 <= donation <= db.settings.donationMax && !bookable ==> error == EventNotBookable)
      && (error == KeyTaken ==> forall i :: 0 <= i < |lines| ==> Reservable(db.tiers, lines[i], db.clock))
  {
    ValidItemsExactly(db.tiers, event, lines, {});
    if forall i, j :: 0 <= i < j < |lines| ==> lines[i].tier != lines[j].tier {
      ReserveAllIffEach(db.tiers, lines, db.clock);
    }
    ReserveNeverSaysKeyTaken(db.tiers, lines, db.clock);
    if CreateRefusal(db, event, bookable, lines, donation).None? && ReserveAll(db.tiers, lines, db.clock).Refused? {
      var i := FirstRefusedLine(db.tiers, lines, db.clock);
      RefusalIsTrue(db.tiers, lines[i], db.clock);
    }
  }

  /** The line whose own refusal an order of distinct tiers is refused with. */
  lemma {:induction false} FirstRefusedLine(tiers: map<TierId, Tier>, lines: seq<Item>, now: Time) returns (i: nat)
    requires forall i, j :: 0 <= i < j < |lines| ==> lines[i].tier != lines[j].tier
    requires ReserveAll(tiers, lines, now).Refused?
    ensures i < |lines| && Reserve(tiers, lines[i], now) == ReserveAll(tiers, lines, now)
  {
    if Reserve(tiers, lines[0], now).Refused? {
      i := 0;
    } else {
      var rest := FirstRefusedLine(Reserve(tiers, lines[0], now).tiers, lines[1..], now);
      i := rest + 1;
    }
  }

  /** The price of an order grows, line by line, by quantity times unit price. */
  lemma SubtotalAddsLines(lines: seq<Item>, line: Item)
    ensures Subtotal([]) == 0 && Subtotal(lines + [line]) == Subtotal(lines) + line.quantity * line.unitPrice
  {
    SumAppend(lines, line, LinePrice());
  }

  /** The one row a create writes, every column of it, and nothing else but the
      seats and the event. */
  lemma CreateWrites(db: Db, user: UserId, event: EventId, bookable: bool, lines: seq<Item>, donation: int,
                     key: Option<string>)
    requires Create(db, user, event, bookable, lines, donation, key).Committed?
    ensures var made := Create(db, user, event, bookable, lines, donation, key).db;
      && |made.bookings| == |db.bookings| + 1 && made.bookings[..|db.bookings|] == db.bookings
      && (var row := made.bookings[|db.bookings|];
         && row.user == user && row.event == event && row.status == Reserved && row.items == lines && row.key == key
         && row.createdAt == db.clock && row.holdExpiresAt == db.clock + db.settings.hold
         && row.donation == donation && row.discount == 0
         && -5_000 < row.fee * 10_000 - Subtotal(lines) * db.settings.feeBps <= 5_000
         && row.total == Subtotal(lines) + row.fee + donation
         && row.order == None && row.gateway == "" && row.session == "" && row.paymentRef == "")
      && made == db.(tiers := made.tiers, bookings := made.bookings, outbox := made.outbox)
      && made.outbox == db.outbox + [BookingCreated(|db.bookings|)]
  {
    CreatedFacts(db, user, event, bookable, lines, donation, key);
    Money.FeeIsNearest(Subtotal(lines), db.settings.feeBps, Money.PlatformFee(Subtotal(lines), db.settings.feeBps));
  }

  // --- the key of a row ----------------------------------------------------

  /** What a row must be to answer for its key: a hold still running, or a paid
      booking made within the window. */
  lemma AnswersExactly(row: Booking, now: Time, window: Time)
    ensures Replayable(row, now, window) <==>
            if row.status == Reserved then now < row.holdExpiresAt
            else row.status == Paid && now - row.createdAt < window
  {
  }

  /** The only row of its key is the row the lookup answers with, exactly while
      it answers for it. */
  lemma OnlyHolderIsFound(db: Db, user: UserId, key: Option<string>, b: BookingId)
    requires b < |db.bookings| && key.Some? && db.bookings[b].user == user && db.bookings[b].key == key
    requires forall i :: 0 <= i < |db.bookings| && i != b ==>
                           !(db.bookings[i].user == user && db.bookings[i].key == key)
    ensures FindReplayable(db.bookings, user, key, db.clock, db.settings.replayWindow)
         == if Replayable(db.bookings[b], db.clock, db.settings.replayWindow) then Some(b) else None
  {
    assert HoldsKey(db.bookings[b], user, key);
  }

  /** A keyed create is found again by its key, exactly while its hold runs; one
      without a key never is. */
  lemma CreatedRowAnswersItsKey(db: Db, user: UserId, event: EventId, bookable: bool, lines: seq<Item>, donation: int,
                                key: Option<string>, elapsed: nat)
    requires Create(db, user, event, bookable, lines, donation, key).Committed?
    ensures var made := Create(db, user, event, bookable, lines, donation, key).db;
      FindReplayable(made.bookings, user, key, db.clock + elapsed, db.settings.replayWindow)
      == if key.Some? && elapsed < db.settings.hold then Some(|db.bookings|) else None
  {
    var made := Create(db, user, event, bookable, lines, donation, key).db;
    CreateSucceedsExactly(db, user, event, bookable, lines, donation, key);
    CreateWrites(db, user, event, bookable, lines, donation, key);
    if key.Some? {
      OnlyHolderIsFound(made.(clock := db.clock + elapsed), user, key, |db.bookings|);
    }
  }

  /** And after it is paid for, exactly until the replay window has passed since
      it was made. */
  lemma PaidRowAnswersItsKey(db: Db, user: UserId, event: EventId, bookable: bool, lines: seq<Item>, donation: int,
                             key: Option<string>, before: nat, ref: string, after: nat)
    requires RowsGood(db) && key.Some? && before <= db.settings.hold
    requires Create(db, user, event, bookable, lines, donation, key).Committed?
    ensures var made := Create(db, user, event, bookable, lines, donation, key).db;
      var paid := Confirm(made.(clock := db.clock + before), |db.bookings|, ref);
      && paid.Committed?
      && FindReplayable(paid.db.bookings, user, key, db.clock + before + after, db.settings.replayWindow)
      == if before + after < db.settings.replayWindow then Some(|db.bookings|) else None
  {
    var b := |db.bookings|;
    CreateSucceedsExactly(db, user, event, bookable, lines, donation, key);
    CreateWrites(db, user, event, bookable, lines, donation, key);
    CreateKeepsRows(db, user, event, bookable, lines, donation, key);
    var waiting := Create(db, user, event, bookable, lines, donation, key).db.(clock := db.clock + before);
    KnownLinesConfirm(waiting.tiers, waiting.bookings[b].items);
    var paid := Confirm(waiting, b, ref).db;
    assert paid.bookings == waiting.bookings[b := waiting.bookings[b].(status := Paid, paymentRef := ref)];
    OnlyHolderIsFound(paid.(clock := db.clock + before + after), user, key, b);
  }

  // --- whose hold it is ----------------------------------------------------

  predicate OwnHold(db: Db, b: BookingId, actor: UserId) {
    b < |db.bookings| && db.bookings[b].user == actor && db.bookings[b].status == Reserved
  }

  /** Exactly when each change of a hold is accepted: never but by the owner of
      a reserved row. */
  lemma ChangesAcceptedExactly(db: Db, b: BookingId, actor: UserId, donation: int, wanted: Gateway,
                               code: Option<CouponId>)
    ensures SetDonation(db, b, actor, donation).Committed?
       <==> OwnHold(db, b, actor) && 0 <= donation <= db.settings.donationMax
    ensures SetGateway(db, b, actor, wanted).Committed? <==> OwnHold(db, b, actor) && wanted in db.settings.offered
    ensures ClearCoupon(db, b, actor).Committed? <==> OwnHold(db, b, actor)
    ensures SetCoupon(db, b, actor, code).Committed? ==> OwnHold(db, b, actor)
    ensures Cancel(db, b, actor).Committed?
       <==> OwnHold(db, b, actor) && forall i :: 0 <= i < |db.bookings[b].items| ==>
                                       db.bookings[b].items[i].tier in db.tiers
    ensures GetLiveHold(db, b, actor) == None <==> OwnHold(db, b, actor) && db.clock < db.bookings[b].holdExpiresAt
  {
    if b < |db.bookings| { ReleaseAllIff(db.tiers, db.bookings[b].items); }
  }

  /** Exactly when a code is accepted on a hold, the hold's own earlier code
      counting for nothing. */
  lemma CouponAcceptedExactly(db: Db, b: BookingId, actor: UserId, code: Option<CouponId>)
    requires OwnHold(db, b, actor)
    ensures var row := db.bookings[b];
      SetCoupon(db, b, actor, code).Committed? <==>
      exists d: nat :: Coupons.Decide(db.coupons, db.redemptions - {b}, code, row.event, actor, Subtotal(row.items),
                                      row.donation, db.clock) == Coupons.Redeemed(d)
  {
    var row := db.bookings[b];
    var decision := Coupons.Decide(db.coupons, db.redemptions - {b}, code, row.event, row.user, Subtotal(row.items),
                                   row.donation, db.clock);
    assert decision.Redeemed? ==> decision == Coupons.Redeemed(decision.discount);
  }

  /** What somebody else, or the owner of a settled row, is told: nothing
      changes, and the first true reason is given. */
  lemma RefusalsAreTrue(db: Db, b: BookingId, actor: UserId, donation: int, wanted: Gateway, code: Option<CouponId>)
    requires !OwnHold(db, b, actor)
    ensures Cancel(db, b, actor)
         == RolledBack(if b >= |db.bookings| then NotFound else if db.bookings[b].user != actor then NotOwner
                       else NotCancellable(db.bookings[b].status))
    ensures var refusal := RolledBack(if b >= |db.bookings| then NotFound
                                      else if db.bookings[b].user != actor then NotOwner
                                      else NotModifiable(db.bookings[b].status));
      && SetCoupon(db, b, actor, code) == refusal && ClearCoupon(db, b, actor) == refusal
      && (0 <= donation <= db.settings.donationMax ==> SetDonation(db, b, actor, donation) == refusal)
      && (wanted in db.settings.offered ==> SetGateway(db, b, actor, wanted) == refusal)
    ensures GetLiveHold(db, b, actor)
         == Some(if b >= |db.bookings| || db.bookings[b].user != actor then NotFound
                 else HoldNotLive(db.bookings[b].status))
  {
  }

  /** And what is asked for is checked before whose hold it is. */
  lemma WishesAreCheckedFirst(db: Db, b: BookingId, actor: UserId, donation: int, wanted: Gateway)
    ensures donation < 0 || donation > db.settings.donationMax ==>
              SetDonation(db, b, actor, donation) == RolledBack(InvalidDonation)
    ensures wanted !in db.settings.offered ==> SetGateway(db, b, actor, wanted) == RolledBack(UnknownGateway)
  {
  }

  /** A gate scan uses an active ticket, and nothing else changes. */
  lemma ScanWrites(db: Db, t: nat)
    ensures MarkUsed(db, t)
         == if t >= |db.tickets| || db.tickets[t].status != Active then db
            else db.(tickets := db.tickets[t := Ticket(db.tickets[t].booking, db.tickets[t].tier,
                                                       db.tickets[t].event, Used)])
  {
  }

  // --- what settling writes ------------------------------------------------

  lemma HeldSeatsComeBack(tiers: map<TierId, Tier>, bookings: seq<Booking>, b: BookingId)
    requires Inventory(tiers, bookings) && b < |bookings| && bookings[b].status == Reserved
    ensures ReleaseAll(tiers, bookings[b].items).Moved?
    ensures var after := ReleaseAll(tiers, bookings[b].items).tiers;
      && after.Keys == tiers.Keys
      && forall t :: t in tiers ==>
           after[t] == tiers[t].(reserved := after[t].reserved)
           && after[t].reserved == tiers[t].reserved - Quantity(bookings[b].items, t)
  {
    HeldSeatsAreReserved(tiers, bookings, b);
    ReleaseAllSubtractsExactly(tiers, bookings[b].items);
    var after := ReleaseAll(tiers, bookings[b].items).tiers;
    forall t | t in tiers ensures after[t] == tiers[t].(reserved := after[t].reserved) {
      assert SameTier(tiers[t], after[t]);
    }
  }

  /** Giving a hold up, for whatever reason: its seats and no others come back,
      its code is free again, its row keeps every column but the status, and
      nobody else's row, ticket or redemption moves. */
  lemma GivingUpWrites(db: Db, b: BookingId, status: BookingStatus, reason: string)
    requires Inv(db) && b < |db.bookings| && db.bookings[b].status == Reserved
    ensures GiveUp(db, b, status, reason).Committed?
    ensures var after := GiveUp(db, b, status, reason).db;
      && after == db.(bookings := db.bookings[b := db.bookings[b].(status := status)], tiers := after.tiers,
                      redemptions := db.redemptions - {b}, outbox := db.outbox + [BookingCancelled(b, reason)])
      && after.tiers.Keys == db.tiers.Keys
      && forall t :: t in db.tiers ==>
           after.tiers[t] == db.tiers[t].(reserved := after.tiers[t].reserved)
           && after.tiers[t].reserved == db.tiers[t].reserved - Quantity(db.bookings[b].items, t)
  {
    HeldSeatsComeBack(db.tiers, db.bookings, b);
    GivenUpIs(db, b, status, reason);
  }

  lemma GivenUpIs(db: Db, b: BookingId, status: BookingStatus, reason: string)
    requires b < |db.bookings| && ReleaseAll(db.tiers, db.bookings[b].items).Moved?
    ensures GiveUp(db, b, status, reason)
         == Committed(db.(bookings := db.bookings[b := db.bookings[b].(status := status)],
                          tiers := ReleaseAll(db.tiers, db.bookings[b].items).tiers,
                          redemptions := db.redemptions - {b}, outbox := db.outbox + [BookingCancelled(b, reason)]))
  {
  }

  /** Who gives up what: the owner's cancel, the sweep of a hold past its
      deadline, and a payment that could not start. */
  lemma WhatGivesUp(db: Db, b: BookingId, actor: UserId)
    requires b < |db.bookings| && db.bookings[b].status == Reserved
    ensures db.bookings[b].user == actor ==> Cancel(db, b, actor) == GiveUp(db, b, Cancelled, "user_cancelled")
    ensures SweepOne(db, b)
         == if db.bookings[b].holdExpiresAt < db.clock then GiveUp(db, b, Expired, "expired") else Committed(db)
    ensures ReleaseUnstartable(db, b) == GiveUp(db, b, Cancelled, "payment_order_failed")
  {
  }

  lemma HeldSeatsAreSold(tiers: map<TierId, Tier>, bookings: seq<Booking>, b: BookingId)
    requires Inventory(tiers, bookings) && b < |bookings| && bookings[b].status == Reserved
    ensures ConfirmAll(tiers, bookings[b].items).Moved?
    ensures var after := ConfirmAll(tiers, bookings[b].items).tiers;
      forall t :: t in tiers ==>
        t in after && after[t].reserved == tiers[t].reserved - Quantity(bookings[b].items, t)
        && after[t].sold == tiers[t].sold + Quantity(bookings[b].items, t)
  {
    HeldSeatsAreReserved(tiers, bookings, b);
    ConfirmAllMovesExactly(tiers, bookings[b].items);
  }

  /** Tickets appended to a table: of this booking and event, active. */
  ghost predicate NewTickets(before: seq<Ticket>, after: seq<Ticket>, b: BookingId, event: EventId) {
    && before <= after
    && forall i :: |before| <= i < |after| ==> after[i] == Ticket(b, after[i].tier, event, Active)
  }

  /** Both events of a confirm, naming exactly the appended tickets. */
  ghost predicate Announced(before: Db, after: Db, b: BookingId) {
    && |before.outbox| + 2 == |after.outbox| && before.outbox <= after.outbox
    && var said, issued := after.outbox[|before.outbox|], after.outbox[|before.outbox| + 1];
       && said.BookingConfirmed? && issued.TicketIssued? && said.booking == b && issued.booking == b
       && said.tickets == issued.tickets && |said.tickets| == |after.tickets| - |before.tickets|
       && forall i :: 0 <= i < |said.tickets| ==> said.tickets[i] == |before.tickets| + i
  }

  /** Confirming a hold not past its deadline: its seats move from reserved to
      sold, its row is paid under this reference, new active tickets of its
      event are issued to it, and both events name exactly those. Any other
      row is left as it is. */
  lemma ConfirmWrites(db: Db, b: BookingId, ref: string)
    requires Inv(db) && b < |db.bookings|
    ensures var row, after := db.bookings[b], After(db, Confirm(db, b, ref));
      if row.status != Reserved || row.holdExpiresAt < db.clock then after == db
      else
        && after.bookings == db.bookings[b := row.(status := Paid, paymentRef := ref)]
        && (forall t :: t in db.tiers ==>
              t in after.tiers && after.tiers[t].reserved == db.tiers[t].reserved - Quantity(row.items, t)
              && after.tiers[t].sold == db.tiers[t].sold + Quantity(row.items, t))
        && NewTickets(db.tickets, after.tickets, b, row.event) && Announced(db, after, b)
        && after == db.(bookings := after.bookings, tiers := after.tiers, tickets := after.tickets,
                        outbox := after.outbox)
  {
    if db.bookings[b].status == Reserved && db.bookings[b].holdExpiresAt >= db.clock {
      HeldSeatsAreSold(db.tiers, db.bookings, b);
      ConfirmedIs(db, b, ref);
    }
  }

  lemma ConfirmedIs(db: Db, b: BookingId, ref: string)
    requires b < |db.bookings| && db.bookings[b].status == Reserved && db.bookings[b].holdExpiresAt >= db.clock
    requires ConfirmAll(db.tiers, db.bookings[b].items).Moved?
    ensures var row, after := db.bookings[b], After(db, Confirm(db, b, ref));
      && after == db.(bookings := db.bookings[b := row.(status := Paid, paymentRef := ref)],
                      tiers := ConfirmAll(db.tiers, row.items).tiers,
                      tickets := after.tickets, outbox := after.outbox)
      && NewTickets(db.tickets, after.tickets, b, row.event) && Announced(db, after, b)
  {
    var row, after := db.bookings[b], After(db, Confirm(db, b, ref));
    var issued := Issue(b, row.event, row.items);
    IssuedTickets(b, row.event, row.items);
    assert after.tickets == db.tickets + issued;
    forall i | |db.tickets| <= i < |after.tickets|
      ensures after.tickets[i] == Ticket(b, after.tickets[i].tier, row.event, Active)
    {
      assert after.tickets[i] == issued[i - |db.tickets|];
    }
  }

  lemma {:induction false} IssuedTickets(b: BookingId, event: EventId, items: seq<Item>)
    ensures forall i :: 0 <= i < |Issue(b, event, items)| ==>
              Issue(b, event, items)[i] == Ticket(b, Issue(b, event, items)[i].tier, event, Active)
  {
    if items != [] {
      IssuedTickets(b, event, items[1..]);
    }
  }

  // --- a key stays on its live row -----------------------------------------

  /** The row still answers for a key, and its hold has not run out. */
  predicate LiveAt(row: Booking, now: Time, window: Time) {
    Replayable(row, now, window) && now < row.holdExpiresAt
  }

  predicate KeyOnLive(db: Db, b: BookingId, key: Option<string>) {
    b < |db.bookings| && LiveAt(db.bookings[b], db.clock, db.settings.replayWindow) ==> db.bookings[b].key == key
  }

  ghost predicate KeyKept(h: seq<Db>, b: BookingId, key: Option<string>) {
    && (forall i :: 0 <= i < |h| ==> b < |h[i].bookings| && KeyOnLive(h[i], b, key))
    && (forall i, j :: 0 <= i <= j < |h| ==> h[i].clock <= h[j].clock && Persists(h[i], h[j]))
  }

  lemma StepKeepsClock(h: seq<Db>, a: Action)
    requires h != []
    ensures Last(h).clock <= Step(h, a).clock && Step(h, a).settings == Last(h).settings
  {
  }

  lemma AttachKeepsKey(h: seq<Db>, a: Action, b: BookingId, key: Option<string>)
    requires h != [] && KeyKept(h, b, key) && a.AttachPaymentOrder?
    ensures KeyOnLive(Step(h, a), b, key)
  {
    var db := Last(h);
    assert KeyOnLive(db, b, key);
    if ValidAttach(h, a) && a.booking == b {
      var earlier := h[a.readAt];
      assert KeyOnLive(earlier, b, key) && earlier.clock <= h[|h| - 1].clock && Persists(earlier, h[|h| - 1]);
      assert SameIdentity(earlier.bookings[b], db.bookings[b]);
    }
  }

  lemma ChangeKeepsKey(h: seq<Db>, a: Action, b: BookingId, key: Option<string>)
    requires h != [] && !Settles(a) && !a.AttachPaymentOrder?
    requires b < |Last(h).bookings| && KeyOnLive(Last(h), b, key)
    ensures KeyOnLive(Step(h, a), b, key)
  {
  }

  lemma SettleKeepsKey(h: seq<Db>, a: Action, b: BookingId, key: Option<string>)
    requires h != [] && Settles(a)
    requires b < |Last(h).bookings| && KeyOnLive(Last(h), b, key)
    ensures KeyOnLive(Step(h, a), b, key)
  {
  }

  /** Over every run, saves of stale copies included, no step takes its key
      from a row while the hold runs and the row answers for it. */
  lemma {:induction false} LiveRowKeepsKey(h: seq<Db>, acts: seq<Action>, b: BookingId, key: Option<string>)
    requires IsRun(h, acts) && b < |h[0].bookings| && KeyOnLive(h[0], b, key)
    ensures KeyKept(h, b, key)
  {
    EveryRunPersists(h, acts);
    if acts != [] {
      var past, a := h[..|acts|], acts[|acts| - 1];
      PastOfRun(h, acts);
      LiveRowKeepsKey(past, acts[..|acts| - 1], b, key);
      StepKeepsClock(past, a);
      if a.AttachPaymentOrder? { AttachKeepsKey(past, a, b, key); }
      else if Settles(a) { SettleKeepsKey(past, a, b, key); } else { ChangeKeepsKey(past, a, b, key); }
      OneMoreKeepsKey(past, Step(past, a), b, key);
    }
  }

  lemma OneMoreKeepsKey(past: seq<Db>, db: Db, b: BookingId, key: Option<string>)
    requires past != [] && KeyKept(past, b, key) && PersistsAlong(past + [db])
    requires Last(past).clock <= db.clock && KeyOnLive(db, b, key)
    ensures KeyKept(past + [db], b, key)
  {
    var h := past + [db];
    assert Persists(h[|past| - 1], h[|past|]);
    forall i, j | 0 <= i <= j < |h| ensures h[i].clock <= h[j].clock && Persists(h[i], h[j]) {
      if j == |past| && i < j { assert h[i] == past[i] && past[i].clock <= past[|past| - 1].clock; }
    }
  }
}
