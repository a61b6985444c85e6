/** The per-tier counters, decided under the tier's row lock
    (apps/ticketing/strategies.py). Pricing is an input: the unit price on a
    line is the one the locked decision settled on. */
module Ticketing {
  import opened Seqs
  import opened Tables

  datatype Tiers = Moved(tiers: map<TierId, Tier>) | Refused(error: Error)

  function Reserve(tiers: map<TierId, Tier>, line: Item, now: Time): Tiers {
    if line.tier !in tiers then Refused(TierNotFound)
    else
      var t := tiers[line.tier];
      if t.saleStart.Some? && now < t.saleStart.value then Refused(SaleNotStarted)
      else if t.saleEnd.Some? && now > t.saleEnd.value then Refused(SaleClosed)
      else if line.quantity > t.maxPerOrder then Refused(ExceedsMaxPerOrder)
      else if line.quantity > t.quantity - t.sold - t.reserved then Refused(SoldOut)
      else Moved(tiers[line.tier := t.(reserved := t.reserved + line.quantity)])
  }

  /** Clamped to what is actually reserved. */
  function Release(tiers: map<TierId, Tier>, line: Item): Tiers {
    if line.tier !in tiers then Refused(TierNotFound)
    else
      var t := tiers[line.tier];
      var released := if line.quantity < t.reserved then line.quantity else t.reserved;
      Moved(tiers[line.tier := t.(reserved := t.reserved - released)])
  }

  /** Clamped to what is actually reserved. */
  function ConfirmSold(tiers: map<TierId, Tier>, line: Item): Tiers {
    if line.tier !in tiers then Refused(TierNotFound)
    else
      var t := tiers[line.tier];
      var moved := if line.quantity < t.reserved then line.quantity else t.reserved;
      Moved(tiers[line.tier := t.(reserved := t.reserved - moved, sold := t.sold + moved)])
  }

  function ReserveAll(tiers: map<TierId, Tier>, lines: seq<Item>, now: Time): Tiers {
    if lines == [] then Moved(tiers)
    else
      match Reserve(tiers, lines[0], now)
      case Refused(e) => Refused(e)
      case Moved(next) => ReserveAll(next, lines[1..], now)
  }

  function ReleaseAll(tiers: map<TierId, Tier>, lines: seq<Item>): Tiers {
    if lines == [] then Moved(tiers)
    else
      match Release(tiers, lines[0])
      case Refused(e) => Refused(e)
      case Moved(next) => ReleaseAll(next, lines[1..])
  }

  function ConfirmAll(tiers: map<TierId, Tier>, lines: seq<Item>): Tiers {
    if lines == [] then Moved(tiers)
    else
      match ConfirmSold(tiers, lines[0])
      case Refused(e) => Refused(e)
      case Moved(next) => ConfirmAll(next, lines[1..])
  }

  function QuantityOf(t: TierId): Item -> nat {
    (i: Item) => if i.tier == t then i.quantity else 0
  }

  /** How many tickets of tier `t` the lines ask for. */
  function Quantity(lines: seq<Item>, t: TierId): nat {
    Sum(lines, QuantityOf(t))
  }

  ghost predicate LinesKnown(tiers: map<TierId, Tier>, lines: seq<Item>) {
    forall i :: 0 <= i < |lines| ==> lines[i].tier in tiers
  }

  /** Only the two counters of a tier ever move. */
  predicate SameTier(a: Tier, b: Tier) {
    a.(reserved := b.reserved, sold := b.sold) == b
  }

  ghost predicate SameTiers(a: map<TierId, Tier>, b: map<TierId, Tier>) {
    a.Keys == b.Keys && forall t :: t in a ==> SameTier(a[t], b[t])
  }

  ghost predicate NoOversell(tiers: map<TierId, Tier>) {
    forall t :: t in tiers ==> tiers[t].reserved + tiers[t].sold <= tiers[t].quantity
  }

  /** One accepted reserve. */
  lemma ReserveAdds(tiers: map<TierId, Tier>, line: Item, now: Time)
    requires NoOversell(tiers) && Reserve(tiers, line, now).Moved?
    ensures line.tier in tiers
    ensures var after := Reserve(tiers, line, now).tiers;
      && SameTiers(tiers, after) && NoOversell(after)
      && forall t :: t in tiers ==>
           && after[t].reserved == tiers[t].reserved + QuantityOf(t)(line)
           && after[t].sold == tiers[t].sold
  {
  }

  /** What a locked reserve asks of the tier. */
  predicate Reservable(tiers: map<TierId, Tier>, line: Item, now: Time) {
    && line.tier in tiers
    && var t := tiers[line.tier];
       && (t.saleStart.Some? ==> t.saleStart.value <= now) && (t.saleEnd.Some? ==> now <= t.saleEnd.value)
       && line.quantity <= t.maxPerOrder && t.sold + t.reserved + line.quantity <= t.quantity
  }

  /** What a reserve that is refused says: the first of these that is so. */
  lemma RefusalIsTrue(tiers: map<TierId, Tier>, line: Item, now: Time)
    requires Reserve(tiers, line, now).Refused?
    ensures var error := Reserve(tiers, line, now).error;
      if line.tier !in tiers then error == TierNotFound
      else
        var t := tiers[line.tier];
        if t.saleStart.Some? && now < t.saleStart.value then error == SaleNotStarted
        else if t.saleEnd.Some? && t.saleEnd.value < now then error == SaleClosed
        else if t.maxPerOrder < line.quantity then error == ExceedsMaxPerOrder
        else error == SoldOut && t.quantity < t.sold + t.reserved + line.quantity
  {
  }

  lemma {:induction false} ReserveNeverSaysKeyTaken(tiers: map<TierId, Tier>, lines: seq<Item>, now: Time)
    ensures ReserveAll(tiers, lines, now) != Refused(KeyTaken)
  {
    if lines != [] && Reserve(tiers, lines[0], now).Moved? {
      ReserveNeverSaysKeyTaken(Reserve(tiers, lines[0], now).tiers, lines[1..], now);
    }
  }

  /** Where each tier appears once, the whole order is reserved if and only if
      every line could have been reserved on its own. */
  lemma {:induction false} ReserveAllIffEach(tiers: map<TierId, Tier>, lines: seq<Item>, now: Time)
    requires forall i, j :: 0 <= i < j < |lines| ==> lines[i].tier != lines[j].tier
    ensures ReserveAll(tiers, lines, now).Moved? <==>
            forall i :: 0 <= i < |lines| ==> Reservable(tiers, lines[i], now)
  {
    if lines != [] && Reserve(tiers, lines[0], now).Moved? {
      var next, rest := Reserve(tiers, lines[0], now).tiers, lines[1..];
      ReserveAllIffEach(next, rest, now);
      forall i | 1 <= i < |lines|
        ensures Reservable(next, rest[i - 1], now) <==> Reservable(tiers, lines[i], now)
      {
        assert rest[i - 1] == lines[i] && lines[0].tier != lines[i].tier;
      }
    }
  }

  /** A release of more than is reserved leaves nothing reserved, not less. */
  lemma ReleaseClamps(tiers: map<TierId, Tier>, line: Item)
    requires line.tier in tiers
    ensures Release(tiers, line) == Moved(tiers[line.tier := tiers[line.tier].(
              reserved := if tiers[line.tier].reserved <= line.quantity then 0
                          else tiers[line.tier].reserved - line.quantity)])
  {
  }

  /** A release undoes the reserve it gives back, counter for counter. */
  lemma ReleaseUndoesReserve(tiers: map<TierId, Tier>, line: Item, now: Time)
    requires Reserve(tiers, line, now).Moved?
    ensures Release(Reserve(tiers, line, now).tiers, line) == Moved(tiers)
  {
    var after := Reserve(tiers, line, now).tiers;
    assert after[line.tier := tiers[line.tier]] == tiers;
  }

  /** A reserve that succeeds on every line adds exactly the quantities asked
      for, sells nothing and never exceeds any tier's capacity. */
  lemma {:induction false} ReserveAllAddsExactly(tiers: map<TierId, Tier>, lines: seq<Item>, now: Time)
    requires NoOversell(tiers) && ReserveAll(tiers, lines, now).Moved?
    ensures var after := ReserveAll(tiers, lines, now).tiers;
      && SameTiers(tiers, after) && NoOversell(after) && LinesKnown(tiers, lines)
      && forall t :: t in tiers ==>
           && after[t].reserved == tiers[t].reserved + Quantity(lines, t)
           && after[t].sold == tiers[t].sold
  {
    if lines != [] {
      ReserveAdds(tiers, lines[0], now);
      var next := Reserve(tiers, lines[0], now).tiers;
      var after := ReserveAll(next, lines[1..], now).tiers;
      ReserveAllAddsExactly(next, lines[1..], now);
      assert ReserveAll(tiers, lines, now).tiers == after;
      assert LinesKnown(tiers, lines) by {
        forall i | 0 <= i < |lines| ensures lines[i].tier in tiers {
          if i > 0 { assert lines[i] == lines[1..][i - 1]; }
        }
      }
    }
  }

  /** Where the held quantities really are reserved, no clamp bites: releasing
      a booking's lines subtracts exactly those lines. */
  lemma {:induction false} ReleaseAllSubtractsExactly(tiers: map<TierId, Tier>, lines: seq<Item>)
    requires LinesKnown(tiers, lines)
    requires forall t :: t in tiers ==> Quantity(lines, t) <= tiers[t].reserved
    ensures ReleaseAll(tiers, lines).Moved?
    ensures var after := ReleaseAll(tiers, lines).tiers;
      && SameTiers(tiers, after)
      && forall t :: t in tiers ==>
           && after[t].reserved == tiers[t].reserved - Quantity(lines, t)
           && after[t].sold == tiers[t].sold
  {
    if lines != [] {
      assert Quantity(lines, lines[0].tier) <= tiers[lines[0].tier].reserved;
      ReleaseAllSubtractsExactly(Release(tiers, lines[0]).tiers, lines[1..]);
    }
  }

  /** Likewise confirming moves exactly those lines from reserved to sold. */
  lemma {:induction false} ConfirmAllMovesExactly(tiers: map<TierId, Tier>, lines: seq<Item>)
    requires LinesKnown(tiers, lines)
    requires forall t :: t in tiers ==> Quantity(lines, t) <= tiers[t].reserved
    ensures ConfirmAll(tiers, lines).Moved?
    ensures var after := ConfirmAll(tiers, lines).tiers;
      && SameTiers(tiers, after)
      && forall t :: t in tiers ==>
           && after[t].reserved == tiers[t].reserved - Quantity(lines, t)
           && after[t].sold == tiers[t].sold + Quantity(lines, t)
  {
    if lines != [] {
      assert Quantity(lines, lines[0].tier) <= tiers[lines[0].tier].reserved;
      ConfirmAllMovesExactly(ConfirmSold(tiers, lines[0]).tiers, lines[1..]);
    }
  }

  /** A release is refused only for a tier that is not there, and then not one
      line of the order is released. */
  lemma {:induction false} ReleaseAllIff(tiers: map<TierId, Tier>, lines: seq<Item>)
    ensures ReleaseAll(tiers, lines).Moved? <==> LinesKnown(tiers, lines)
    ensures ReleaseAll(tiers, lines).Moved? ==> ReleaseAll(tiers, lines).tiers.Keys == tiers.Keys
    ensures ReleaseAll(tiers, lines).Refused? ==> ReleaseAll(tiers, lines).error == TierNotFound
  {
    if lines != [] && lines[0].tier in tiers {
      var next := Release(tiers, lines[0]).tiers;
      ReleaseAllIff(next, lines[1..]);
      assert next.Keys == tiers.Keys;
      forall i | 1 <= i < |lines| ensures lines[i].tier in tiers <==> lines[1..][i - 1].tier in next {
        assert lines[1..][i - 1] == lines[i];
      }
    }
  }

  /** Seats given back, perhaps; none taken and none sold. */
  ghost predicate NoSeatTaken(before: map<TierId, Tier>, after: map<TierId, Tier>) {
    && SameTiers(before, after)
    && forall t :: t in before ==> after[t].reserved <= before[t].reserved && after[t].sold == before[t].sold
  }

  lemma {:induction false} ReleaseAllTakesNoSeat(tiers: map<TierId, Tier>, lines: seq<Item>)
    requires ReleaseAll(tiers, lines).Moved?
    ensures NoSeatTaken(tiers, ReleaseAll(tiers, lines).tiers)
  {
    if lines != [] {
      ReleaseAllTakesNoSeat(Release(tiers, lines[0]).tiers, lines[1..]);
    }
  }

  /** Confirming, clamped or not, never takes a tier past its capacity. */
  lemma {:induction false} ConfirmAllKeepsCapacity(tiers: map<TierId, Tier>, lines: seq<Item>)
    requires ConfirmAll(tiers, lines).Moved?
    ensures SameTiers(tiers, ConfirmAll(tiers, lines).tiers)
    ensures NoOversell(tiers) ==> NoOversell(ConfirmAll(tiers, lines).tiers)
  {
    if lines != [] {
      ConfirmAllKeepsCapacity(ConfirmSold(tiers, lines[0]).tiers, lines[1..]);
    }
  }

  lemma {:induction false} ReserveAllMovesCountersOnly(tiers: map<TierId, Tier>, lines: seq<Item>, now: Time)
    requires ReserveAll(tiers, lines, now).Moved?
    ensures SameTiers(tiers, ReserveAll(tiers, lines, now).tiers)
  {
    if lines != [] {
      ReserveAllMovesCountersOnly(Reserve(tiers, lines[0], now).tiers, lines[1..], now);
    }
  }
}
