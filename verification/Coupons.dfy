/** What a code is worth and whether a booking may use it
    (apps/coupons/discounts.py, apps/coupons/services.py). Finding the coupon
    row a typed code names is an input. */
module Coupons {
  import opened Seqs
  import opened Tables

  const MIN_PAYABLE_TOTAL_MINOR: nat := 100
  const MAX_PERCENT: nat := 100

  function Min(a: int, b: int): int {
    if a < b then a else b
  }

  function Max(a: int, b: int): int {
    if a < b then b else a
  }

  /** Percentages truncate; nothing exceeds the cap or the subtotal. */
  function DiscountOn(c: Coupon, subtotal: nat): nat {
    if subtotal == 0 then 0
    else
      var worth := if c.percent then subtotal * Max(0, Min(c.value, MAX_PERCENT)) / 100 else Max(0, c.value);
      var capped := if c.maxDiscount.Some? then Min(worth, Max(0, c.maxDiscount.value)) else worth;
      Min(capped, subtotal)
  }

  /** What the terms allow to be taken off. */
  predicate MayTakeOff(c: Coupon, subtotal: nat, d: nat) {
    && d <= subtotal
    && (c.maxDiscount.Some? ==> d <= Max(0, c.maxDiscount.value))
    && if c.percent then d * 100 <= subtotal * Max(0, Min(c.value, MAX_PERCENT)) else d <= Max(0, c.value)
  }

  /** The discount is THE largest whole number of paise the terms allow. */
  lemma DiscountIsLargest(c: Coupon, subtotal: nat, d: nat)
    ensures d == DiscountOn(c, subtotal) <==> MayTakeOff(c, subtotal, d) && !MayTakeOff(c, subtotal, d + 1)
  {
    var share := subtotal * Max(0, Min(c.value, MAX_PERCENT));
    assert subtotal == 0 ==> share == 0;
    assert d * 100 <= share <==> d <= share / 100;
    assert (d + 1) * 100 <= share <==> d + 1 <= share / 100;
  }

  /** A percentage never gives away more than it advertises, and no code more
      than the order or its own cap. */
  lemma DiscountIsBounded(c: Coupon, subtotal: nat)
    ensures DiscountOn(c, subtotal) <= subtotal
    ensures c.percent && c.value >= 0 ==> DiscountOn(c, subtotal) * 100 <= subtotal * c.value
    ensures c.maxDiscount.Some? && c.maxDiscount.value >= 0 ==> DiscountOn(c, subtotal) <= c.maxDiscount.value
  {
    var p := Max(0, Min(c.value, MAX_PERCENT));
    assert c.value >= 0 ==> subtotal * p <= subtotal * c.value;
  }

  function RowsFor(redemptions: map<BookingId, Redemption>, c: CouponId): set<BookingId> {
    set b | b in redemptions && redemptions[b].coupon == c
  }

  function RowsForUser(redemptions: map<BookingId, Redemption>, c: CouponId, u: UserId): set<BookingId> {
    set b | b in redemptions && redemptions[b].coupon == c && redemptions[b].user == u
  }

  datatype Decision = Redeemed(discount: nat) | Declined(error: Error)

  /** The decision taken under the coupon's row lock, for a booking that
      carries no redemption (the caller released it first). */
  function Decide(coupons: map<CouponId, Coupon>, redemptions: map<BookingId, Redemption>,
                  code: Option<CouponId>, event: EventId, user: UserId,
                  subtotal: nat, donation: int, now: Time): Decision
  {
    if code.None? || code.value !in coupons || !coupons[code.value].active then Declined(CouponUnknown)
    else
      var c := coupons[code.value];
      if c.event.Some? && c.event.value != event then Declined(CouponWrongEvent)
      else if !(c.startsAt.None? || c.startsAt.value <= now) then Declined(CouponNotStarted)
      else if c.endsAt.Some? && c.endsAt.value <= now then Declined(CouponExpired)
      else if c.maxRedemptions.Some? && |RowsFor(redemptions, code.value)| >= c.maxRedemptions.value
        then Declined(CouponExhausted)
      else if |RowsForUser(redemptions, code.value, user)| >= c.maxPerUser then Declined(CouponAlreadyUsed)
      else
        var discount := DiscountOn(c, subtotal);
        if discount == 0 then Declined(CouponWorthNothing)
        else if subtotal - discount + donation < MIN_PAYABLE_TOTAL_MINOR then Declined(CouponLeavesNothing)
        else Redeemed(discount)
  }

  /** Exactly when a code is accepted, and for how much: it is active, for this
      event or any, begun and not ended, used less often than it may be by all
      and by this user, worth something, and leaves a hundred paise to pay. */
  lemma AcceptedExactly(coupons: map<CouponId, Coupon>, redemptions: map<BookingId, Redemption>,
                        code: Option<CouponId>, event: EventId, user: UserId,
                        subtotal: nat, donation: int, now: Time, d: nat)
    ensures Decide(coupons, redemptions, code, event, user, subtotal, donation, now) == Redeemed(d) <==>
            && code.Some? && code.value in coupons
            && var c := coupons[code.value];
               && c.active && (c.event.None? || c.event == Some(event))
               && (c.startsAt.None? || c.startsAt.value <= now) && (c.endsAt.None? || now < c.endsAt.value)
               && (c.maxRedemptions.None? ||
                   |set b | b in redemptions && redemptions[b].coupon == code.value| < c.maxRedemptions.value)
               && |set b | b in redemptions && redemptions[b].coupon == code.value && redemptions[b].user == user|
                  < c.maxPerUser
               && d > 0 && MayTakeOff(c, subtotal, d) && !MayTakeOff(c, subtotal, d + 1)
               && subtotal - d + donation >= 100
  {
    if code.Some? && code.value in coupons {
      DiscountIsLargest(coupons[code.value], subtotal, d);
      assert RowsFor(redemptions, code.value) == set b | b in redemptions && redemptions[b].coupon == code.value;
      assert RowsForUser(redemptions, code.value, user)
          == set b | b in redemptions && redemptions[b].coupon == code.value && redemptions[b].user == user;
    }
  }

  /** What a declined code is told: the first of these that is so. */
  lemma DeclineIsTrue(coupons: map<CouponId, Coupon>, redemptions: map<BookingId, Redemption>,
                      code: Option<CouponId>, event: EventId, user: UserId,
                      subtotal: nat, donation: int, now: Time)
    requires Decide(coupons, redemptions, code, event, user, subtotal, donation, now).Declined?
    ensures var error := Decide(coupons, redemptions, code, event, user, subtotal, donation, now).error;
      if code.None? || code.value !in coupons || !coupons[code.value].active then error == CouponUnknown
      else
        var c := coupons[code.value];
        if c.event.Some? && c.event != Some(event) then error == CouponWrongEvent
        else if c.startsAt.Some? && now < c.startsAt.value then error == CouponNotStarted
        else if c.endsAt.Some? && c.endsAt.value <= now then error == CouponExpired
        else if c.maxRedemptions.Some? &&
                |set b | b in redemptions && redemptions[b].coupon == code.value| >= c.maxRedemptions.value
        then error == CouponExhausted
        else if |set b | b in redemptions && redemptions[b].coupon == code.value && redemptions[b].user == user|
                >= c.maxPerUser
        then error == CouponAlreadyUsed
        else if !MayTakeOff(c, subtotal, 1) then error == CouponWorthNothing
        else
          && error == CouponLeavesNothing
          && exists d: nat :: MayTakeOff(c, subtotal, d) && !MayTakeOff(c, subtotal, d + 1)
                              && subtotal - d + donation < 100
  {
    if code.Some? && code.value in coupons {
      var d := DiscountOn(coupons[code.value], subtotal);
      DiscountIsLargest(coupons[code.value], subtotal, d);
      LessMayBeTakenOff(coupons[code.value], subtotal, d);
      assert RowsFor(redemptions, code.value) == set b | b in redemptions && redemptions[b].coupon == code.value;
      assert RowsForUser(redemptions, code.value, user)
          == set b | b in redemptions && redemptions[b].coupon == code.value && redemptions[b].user == user;
    }
  }

  lemma LessMayBeTakenOff(c: Coupon, subtotal: nat, d: nat)
    requires MayTakeOff(c, subtotal, d)
    ensures d > 0 ==> MayTakeOff(c, subtotal, 1)
  {
  }

  /** No coupon is used past its cap, by everybody or by one person. */
  ghost predicate WithinCaps(coupons: map<CouponId, Coupon>, redemptions: map<BookingId, Redemption>) {
    && (forall b :: b in redemptions ==> redemptions[b].coupon in coupons)
    && (forall c :: c in coupons && coupons[c].maxRedemptions.Some? ==>
          |RowsFor(redemptions, c)| <= coupons[c].maxRedemptions.value)
    && (forall c, u :: c in coupons ==> |RowsForUser(redemptions, c, u)| <= coupons[c].maxPerUser)
  }

  lemma SubsetSize<T>(a: set<T>, b: set<T>)
    requires a <= b
    ensures |a| <= |b|
  {
    assert |b| == |b - a| + |a| by { assert b == (b - a) + a; }
  }

  lemma ReleaseKeepsCaps(coupons: map<CouponId, Coupon>, redemptions: map<BookingId, Redemption>, b: BookingId)
    requires WithinCaps(coupons, redemptions)
    ensures WithinCaps(coupons, redemptions - {b})
  {
    var after := redemptions - {b};
    forall c | c in coupons && coupons[c].maxRedemptions.Some?
      ensures |RowsFor(after, c)| <= coupons[c].maxRedemptions.value
    {
      SubsetSize(RowsFor(after, c), RowsFor(redemptions, c));
    }
    forall c, u | c in coupons
      ensures |RowsForUser(after, c, u)| <= coupons[c].maxPerUser
    {
      SubsetSize(RowsForUser(after, c, u), RowsForUser(redemptions, c, u));
    }
  }

  /** The count taken under the lock is what keeps a code with fifty uses from
      being used fifty-one times. */
  lemma RedeemKeepsCaps(coupons: map<CouponId, Coupon>, redemptions: map<BookingId, Redemption>,
                        code: Option<CouponId>, b: BookingId, event: EventId, user: UserId,
                        subtotal: nat, donation: int, now: Time, amount: nat)
    requires WithinCaps(coupons, redemptions) && b !in redemptions
    requires Decide(coupons, redemptions, code, event, user, subtotal, donation, now).Redeemed?
    ensures code.Some?
    ensures WithinCaps(coupons, redemptions[b := Redemption(code.value, user, amount)])
  {
    var after := redemptions[b := Redemption(code.value, user, amount)];
    assert code.value in coupons;
    assert coupons[code.value].maxRedemptions.Some? ==>
      |RowsFor(redemptions, code.value)| < coupons[code.value].maxRedemptions.value;
    assert |RowsForUser(redemptions, code.value, user)| < coupons[code.value].maxPerUser;
    AddedRowKeepsCaps(coupons, redemptions, code.value, b, user, amount);
  }

  lemma AddedRowKeepsCaps(coupons: map<CouponId, Coupon>, redemptions: map<BookingId, Redemption>,
                          code: CouponId, b: BookingId, user: UserId, amount: nat)
    requires WithinCaps(coupons, redemptions) && b !in redemptions && code in coupons
    requires coupons[code].maxRedemptions.Some? ==> |RowsFor(redemptions, code)| < coupons[code].maxRedemptions.value
    requires |RowsForUser(redemptions, code, user)| < coupons[code].maxPerUser
    ensures WithinCaps(coupons, redemptions[b := Redemption(code, user, amount)])
  {
    var after := redemptions[b := Redemption(code, user, amount)];
    forall c | c in coupons && coupons[c].maxRedemptions.Some?
      ensures |RowsFor(after, c)| <= coupons[c].maxRedemptions.value
    {
      AddedRowCounts(redemptions, code, b, user, amount, c);
    }
    forall c, u | c in coupons
      ensures |RowsForUser(after, c, u)| <= coupons[c].maxPerUser
    {
      AddedRowCountsForUser(redemptions, code, b, user, amount, c, u);
    }
  }

  /** A new row adds one to its own coupon's and user's counts and to no other. */
  lemma AddedRowCounts(redemptions: map<BookingId, Redemption>, code: CouponId, b: BookingId, user: UserId, amount: nat,
                       c: CouponId)
    requires b !in redemptions
    ensures |RowsFor(redemptions[b := Redemption(code, user, amount)], c)|
         == |RowsFor(redemptions, c)| + (if c == code then 1 else 0)
  {
    var after, rows := redemptions[b := Redemption(code, user, amount)], RowsFor(redemptions, c);
    if c == code {
      assert RowsFor(after, c) == rows + {b} && b !in rows;
    } else {
      assert RowsFor(after, c) == rows;
    }
  }

  lemma AddedRowCountsForUser(redemptions: map<BookingId, Redemption>, code: CouponId, b: BookingId, user: UserId,
                              amount: nat, c: CouponId, u: UserId)
    requires b !in redemptions
    ensures |RowsForUser(redemptions[b := Redemption(code, user, amount)], c, u)|
         == |RowsForUser(redemptions, c, u)| + (if c == code && u == user then 1 else 0)
  {
    var after, rows := redemptions[b := Redemption(code, user, amount)], RowsForUser(redemptions, c, u);
    if c == code && u == user {
      assert RowsForUser(after, c, u) == rows + {b} && b !in rows;
    } else {
      assert RowsForUser(after, c, u) == rows;
    }
  }
}
