/** What a booking costs, in whole paise. */
module Money {

  /** The platform's percentage on a ticket subtotal, rounded half up. */
  function PlatformFee(subtotal: int, bps: nat): int {
    (subtotal * bps + 5_000) / 10_000
  }

  /** The fee is THE whole number of paise nearest the exact percentage, an
      exact half going up: it is pinned down by this, not merely bounded. */
  lemma FeeIsNearest(subtotal: int, bps: nat, fee: int)
    ensures fee == PlatformFee(subtotal, bps)
       <==> -5_000 < fee * 10_000 - subtotal * bps <= 5_000
  {
    var exact := subtotal * bps;
    assert fee * 10_000 <= exact + 5_000 < (fee + 1) * 10_000 <==> fee == (exact + 5_000) / 10_000;
  }

  lemma FeeIsMonotone(small: int, large: int, bps: nat)
    requires small <= large
    ensures PlatformFee(small, bps) <= PlatformFee(large, bps)
  {
    assert small * bps <= large * bps;
  }

  /** subtotal - discount, the fee on what is left, and the donation. */
  function Total(subtotal: int, discount: int, donation: int, bps: nat): int {
    subtotal - discount + PlatformFee(subtotal - discount, bps) + donation
  }
}
