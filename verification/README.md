# A verified model of the ticketing backend

This project models the parts of a ticketing platform's backend where money, seats and credentials can go wrong,
and proves what they promise. Check every proof with Dafny 4.11:

    dafny verify dfyconfig.toml

## What is modelled

**The booking money path** (`Tables`, `Money`, `Ticketing`, `Coupons`, `Bookings`, `BookingInvariant`, `BookingRuns`,
`BookingRows`, `BookingRules`, `BookingTheorems`, `BookingRaces`, `BookingService`, `Sweeper`). A database holds tiers,
bookings with their line items, tickets, coupon redemptions, payment orders and outbox events. `Bookings` gives each
transaction as the database it commits, or the error it rolls back with. `BookingService` is the service itself: a
class whose methods update the tables step by step, with the loops the source has, each proved to commit exactly that
database; the calls made of several transactions (create, and every change that re-issues the order) are proved with
other requests committing in every gap, where the others may be any steps of any run
(`BookingService.RunsAreReliable`). `BookingInvariant.Inv` is what every transaction keeps; `BookingRuns` takes
arbitrary interleavings of transactions and proves it, together with what only ever grows; `BookingRules` says exactly
what each transaction accepts and which columns it writes, without the functions it is made of; `BookingTheorems` and
`Sweeper` state what callers may rely on.

One write is not a transaction: the payment order is saved outside the row lock with every column of a copy read
earlier. It is a step of its own in a run, made with any earlier state's copy of the row. What that save can and cannot
break divides the results in two. Prices, orders, keys and tier capacities hold over every run, stale saves included
(`BookingRows.EveryRunKeepsRows`). Seats, tickets, coupons and settlements hold over runs in which no save lands on a
row that was settled or re-couponed since it was read: `BookingRuns.AttachKeepsExactlyWhenSafe` says that this is
exactly when a save keeps the invariant, and `BookingRaces` what happens to the people concerned, inside that
condition (a donation committed meanwhile is silently lost) and outside it (one seat is sold twice).

**Gate check-in** (`Checkin`) is two-phase: an unlocked pre-check, then a decision under the row lock, with scans,
refunds and sales in any order between. **The attendance counter** (`Attendance`) sits on three cache keys with
lifetimes of their own.

**Queues** (`Batches`, `Outbox`, `Announcements`). `Batches` holds the progress argument the outbox drain and the
announcement fan-out share: a backlog served oldest first in bounded batches, in which some rows never go.

**One-time credentials** (`EmailCodes`, `SignIn`): the guess budget of an email code, and the chain from a sign-in
state through a handoff to a session, with the purge sweep running between its SELECT and its DELETE.

**Kernels** (`Receipt`, `QrTokens`): greedy line wrap, Indian digit grouping, and signed tokens in unpadded base64url
(section 5 of RFC 4648, padding rules in section 3.2). The MAC (section 2 of RFC 2104) is an abstract function.

Times are integers in microseconds. A row's id is its position in its table; bookings, tickets, orders and events are
never deleted. An absent idempotency key and a blank one are both `None`.

## Where the code and its documentation disagree

The model follows the code.

- The booking model's comment says the payment session id is cleared with the order. It is cleared only by a gateway
  change that drops an order. Donation and coupon changes drop the order and keep the handle, and a gateway change of
  a hold that already has no order keeps the old provider's handle under the new gateway:
  `BookingTheorems.StaleSessionExactly` says for every change exactly when a handle without an order is left. The
  order id is what stays coherent (`BookingTheorems.OrderAlwaysFits`).
- Token verification's documentation says it never raises. It raises for exactly the tokens
  `QrTokens.RaisesExactly` describes, because the digest comparison refuses text outside ASCII and stands outside the
  guarded block.
- The sweep's documentation says one failure does not block the rest. A release that raises ends the pass there, and
  every later hold of its list stays, whichever releases raise (`Sweeper.PassReachesExactly`,
  `Sweeper.PassRaisesExactly`), so from every database with two releasable holds one failed transaction leaves the
  other one lapsed (`Sweeper.OneFailureBlocksTheRest`). What raises is a transaction the database itself ends, or a
  tier that is gone. The services never produce the second: the line's foreign key is PROTECT
  (backend/apps/booking/models.py:170-172), nothing marks a tier deleted, and over every run a pass raises exactly
  when a transaction of its list fails (`BookingTheorems.OnlyFailuresRaise`).
- A code that would leave less than the payable floor is refused, but only when the code is applied. A hold stays
  payable whatever donation is chosen later exactly when it is payable without one
  (`BookingTheorems.FloorSurvivesDonationsExactly`); `BookingTheorems.NothingToPay` is a run that ends with nothing to
  pay.
- The fan-out's documentation says one press drives a list of any size. It does so only when fewer rows than a batch
  are permanently skipped; otherwise the chain never ends (`Announcements.ChainEndsIff`).

## Model

| member | source | states |
|---|---|---|
| Money.FeeIsNearest | backend/apps/booking/services.py:442-450 | the fee is the one whole number of paise within half a paisa of the exact percentage, a half going up |
| Money.FeeIsMonotone | backend/apps/booking/services.py:442-450 | a larger subtotal never pays a smaller fee |
| Ticketing.ReserveAllIffEach | backend/apps/booking/services.py:512-527 | an order whose tiers are distinct is reserved as a whole if and only if each line could be reserved on its own |
| Ticketing.RefusalIsTrue | backend/apps/ticketing/strategies.py:102-122 | a refused reserve says which check failed first: no such tier, not on sale yet, no longer, above the order limit, more than is left |
| Ticketing.ReserveAllAddsExactly | backend/apps/ticketing/strategies.py:102-155 | reserving adds exactly the quantities asked for, sells nothing and never exceeds a tier's capacity |
| Ticketing.ReleaseUndoesReserve | backend/apps/ticketing/strategies.py:157-174 | a release gives back exactly what its reserve took |
| Ticketing.ReleaseClamps | backend/apps/ticketing/strategies.py:157-165 | releasing more than is reserved leaves nothing reserved and moves nothing else |
| Ticketing.ReleaseAllSubtractsExactly | backend/apps/booking/services.py:1293-1295 | releasing held lines subtracts exactly those lines, so no clamp bites |
| Ticketing.ReleaseAllIff | backend/apps/ticketing/strategies.py:96-100 | releasing an order's lines raises exactly when a line's tier is gone |
| Ticketing.ConfirmAllMovesExactly | backend/apps/ticketing/strategies.py:176-194 | confirming held lines moves exactly those lines from reserved to sold |
| Coupons.DiscountIsLargest | backend/apps/coupons/discounts.py:57-80 | the discount is the largest whole amount the coupon's terms allow on the subtotal |
| Coupons.DiscountIsBounded | backend/apps/coupons/discounts.py:57-80 | a percentage gives no more than it advertises, and no code more than its cap or the order |
| Coupons.AcceptedExactly | backend/apps/coupons/services.py:466-566 | exactly when a code is accepted, and for how much: active, for this event, begun, not ended, below both its caps, worth something, a hundred paise left to pay |
| Coupons.DeclineIsTrue | backend/apps/coupons/services.py:466-566 | a declined code is told which check failed first |
| Coupons.RedeemKeepsCaps | backend/apps/coupons/services.py:523-583 | an accepted redemption leaves every coupon within its total and per-person caps |
| Coupons.ReleaseKeepsCaps | backend/apps/coupons/services.py:600-618 | giving a redemption back keeps every cap |
| Bookings.FindReplayable | backend/apps/booking/repositories.py:122-157 | the lookup answers with a replayable row of the key, and with none only when no row of the key is replayable |
| BookingRules.AnswersExactly | backend/apps/booking/repositories.py:24-56 | a row answers for its key exactly while its hold runs, or, paid, within the window since it was made |
| BookingInvariant.CreateKeeps | backend/apps/booking/services.py:472-614 | a committed create keeps the whole invariant: counters, prices, coupons, orders, keys, tickets and the record of settlements |
| BookingRules.CreateSucceedsExactly | backend/apps/booking/services.py:276-614 | exactly the orders a create accepts: bookable event, donation within its limit, distinct known tiers of the event, each line reservable on its own, and no row of the user with the key |
| BookingRules.CreateRefusalIsTrue | backend/apps/booking/services.py:276-614 | a refused create gives a true reason, the order's own checks before the tiers' and the tiers' before the key's |
| BookingRules.CreateWrites | backend/apps/booking/services.py:529-600 | the one row a create writes, column by column, its key and its two deadlines included, and nothing else but the seats and the event |
| BookingRules.SubtotalAddsLines | backend/apps/booking/services.py:1109-1123 | the price of an order is the sum over its lines of quantity times unit price |
| BookingRules.CreatedRowAnswersItsKey | backend/apps/booking/services.py:329-336 | a keyed create is found again by its key exactly while its hold runs, one without a key never |
| BookingRules.PaidRowAnswersItsKey | backend/apps/booking/repositories.py:24-56 | and once paid for, exactly until the replay window has passed since it was made |
| BookingRules.LiveRowKeepsKey | backend/apps/booking/repositories.py:159-184 | over every run, stale saves included, no step takes its key from a row that answers for it while its hold runs |
| BookingInvariant.GiveUpKeeps | backend/apps/booking/services.py:786-826 | releasing a hold always succeeds and keeps the invariant, coupon mirror included |
| BookingRules.GivingUpWrites | backend/apps/booking/services.py:802-812 | giving a hold up returns exactly its seats, frees its code, changes nothing of its row but the status and nothing of anybody else's |
| BookingRules.WhatGivesUp | backend/apps/booking/services.py:786-908 | the owner's cancel, the sweep past the deadline and the unstartable payment are what gives a hold up, each with its own status and reason |
| BookingRules.ChangesAcceptedExactly | backend/apps/booking/services.py:877-1246 | cancel, donation, gateway and coupon changes are accepted from nobody but the owner of a reserved row, and exactly when what they ask is allowed; checkout shows a hold to nobody else |
| BookingRules.CouponAcceptedExactly | backend/apps/booking/services.py:1183-1201 | a code is accepted on a hold exactly when it would be had the hold no code yet |
| BookingRules.RefusalsAreTrue | backend/apps/booking/services.py:877-1222 | anybody else, and the owner of a settled row, is refused with the first true reason |
| BookingRules.WishesAreCheckedFirst | backend/apps/booking/services.py:948-953 | a donation out of range and a gateway not offered are refused whoever asks, on whatever row |
| BookingInvariant.SetDonationKeeps | backend/apps/booking/services.py:954-980 | recovering the total by difference gives the same price as recomputing it, so a donation keeps the invariant |
| BookingInvariant.SetCouponKeeps | backend/apps/booking/services.py:1183-1210 | release-then-redeem keeps the invariant: one redemption per booking, mirrored by its discount |
| BookingInvariant.ClearCouponKeeps | backend/apps/booking/services.py:1214-1246 | taking a code off keeps the invariant |
| BookingInvariant.SetGatewayKeeps | backend/apps/booking/services.py:1064-1107 | a gateway change leaves no order of another gateway, blank legacy columns included |
| BookingInvariant.ReleaseKeyKeeps | backend/apps/booking/repositories.py:159-184 | detaching a dead key keeps the invariant |
| BookingInvariant.IssueCounts | backend/apps/booking/services.py:1577-1595 | issuing makes exactly `quantity` tickets per line, of that booking, that event and active |
| BookingInvariant.ConfirmKeeps | backend/apps/booking/services.py:1299-1380 | confirming never fails on a known booking and keeps the invariant: full ticket set exactly when paid, tickets equal to seats sold |
| BookingRules.ConfirmWrites | backend/apps/booking/services.py:1333-1370 | a confirm in time moves exactly the booking's seats to sold, pays the row under the reference, issues active tickets of its event and names exactly them in both events; any other changes nothing |
| BookingInvariant.VoidKeeps | backend/apps/booking/repositories.py:570-578 | voiding changes no count the invariant speaks of |
| BookingRuns.AttachKeepsExactlyWhenSafe | backend/apps/booking/services.py:679-682 | the unlocked whole-row save keeps the invariant if and only if the row is still reserved with the discount that was read |
| BookingRuns.CancelDuringOrderCallIsUndone | backend/core/base_repository.py:31-33 | from any good state, a cancel landing before that save is undone by it and the invariant broken |
| BookingRuns.RunKeepsInvariant | backend/apps/booking/services.py:276-1396 | over any interleaving whose saves are safe every state is good and each extends the earlier ones: settled rows never change but for a dropped key, lapsed holds are never paid, logs only grow |
| BookingRows.EveryRunKeepsRows | backend/apps/booking/services.py:276-1396 | over any interleaving at all, saves of stale copies included, every price, order, key and tier capacity is right, and no row or tier changes its identity |
| BookingRows.AttachKeepsRows | backend/core/base_repository.py:31-33 | the unlocked save keeps those, however stale the copy |
| BookingRaces.DonationDuringOrderCallIsLost | backend/apps/booking/services.py:679-682 | from any good state, a donation committed between read and save is taken back by a save that keeps the invariant, with an order for the old total |
| BookingRaces.ReopenedHoldOversells | backend/apps/booking/services.py:679-682 | after a cancel undone by that save, whoever books the freed seats and pays too leaves the tier with more tickets than seats, by exactly the reopened row's |
| BookingRaces.OneSeatSoldTwice | backend/apps/booking/services.py:679-682 | such a run from an empty shop: one seat, two tickets |
| BookingRuns.EmptyShopIsGood | backend/apps/ticketing/models.py:133-134 | a shop whose tiers start with nothing sold or reserved satisfies the invariant |
| BookingTheorems.CountersStayWithinCapacity | backend/apps/ticketing/models.py:146-155 | over every run, stale saves included, a tier's reserved and sold never exceed its quantity |
| BookingTheorems.NeverOversold | backend/apps/booking/services.py:484-527 | over any run with safe saves, a tier's held seats plus its tickets never exceed its capacity, and its tickets are its sold seats |
| BookingTheorems.ItemsSettleOnce | backend/apps/booking/services.py:1299-1380 | a booking's items are confirmed once, released once or neither, and it has exactly `quantity` tickets per line when paid and none otherwise |
| BookingTheorems.TicketsAreIssuedOnce | backend/apps/booking/services.py:1318-1331 | once paid a booking stays paid with the same ticket set, so replayed confirms return it |
| BookingTheorems.CreatedHoldLasts | backend/apps/booking/services.py:481-482 | a fresh booking is confirmable through the end of its hold inclusive, live to checkout exclusive, and sweepable after |
| BookingTheorems.VoidIsFinal | backend/apps/booking/repositories.py:570-578 | a void leaves none of the booking's tickets active, keeps used ones and every other ticket, and repeating it does nothing |
| BookingRules.ScanWrites | backend/apps/booking/repositories.py:532-550 | a gate scan uses an active ticket and changes nothing else |
| BookingTheorems.RowIsWellPriced | backend/apps/booking/services.py:1125-1147 | in every state of every run total = subtotal - discount + fee(subtotal - discount) + donation, from the line items |
| BookingTheorems.AmountIgnoresHistory | backend/apps/booking/services.py:966-978 | in any states of any runs, two bookings of the same lines, donation and discount cost the same |
| BookingTheorems.MoneyIsSplitExactly | backend/apps/booking/services.py:840-863 | the organizer's transfer is exactly the discounted subtotal, the fee within half a paisa of its percentage of it, and nothing is lost |
| BookingTheorems.RowIsSplitExactly | backend/apps/booking/services.py:1398-1430 | total = transfer + fee + donation with none negative, which is what the refund amount rests on |
| BookingTheorems.OrderAlwaysFits | backend/apps/booking/models.py:153-164 | over every run, stale saves included, an order id names an order created for exactly the row's total at exactly the gateway it answers with |
| BookingTheorems.StaleSessionExactly | backend/apps/booking/services.py:1099-1105 | for a donation, coupon, gateway change and cancel, exactly when it leaves a session handle without an order |
| BookingTheorems.DiscountsAreRedemptions | backend/apps/booking/services.py:1183-1246 | live discounted bookings are exactly the redeemed ones, amount for amount, within every coupon's caps |
| BookingTheorems.CouponTakesEffect | backend/apps/booking/services.py:1194-1204 | an accepted code takes off exactly the allowed discount, makes the booking strictly cheaper and leaves at least the floor |
| BookingTheorems.CouponRoundTrip | backend/apps/booking/services.py:1214-1246 | applying a code and clearing it restores the booking but for its order, and the redemptions |
| BookingTheorems.DonationRoundTrip | backend/apps/booking/services.py:966-978 | a donation moves the total by its own difference and putting it back restores the row but for its order |
| BookingTheorems.FloorSurvivesDonationsExactly | backend/apps/coupons/services.py:493-511 | a hold stays at or above the payable floor under every donation if and only if it is so without any |
| BookingTheorems.FullDiscountThenNothingToPay | backend/apps/booking/services.py:946-978 | a code for the whole subtotal is accepted on the strength of a donation, and withdrawing it leaves nothing to pay |
| BookingTheorems.NothingToPay | backend/apps/coupons/services.py:493-511 | such a run from an empty shop |
| BookingTheorems.ReleasedKeyIsFree | backend/apps/booking/services.py:349-363 | when the lookup declines, releasing the key frees it and the insert cannot collide |
| BookingTheorems.ReplayableAgainOnlyOnBoundary | backend/apps/booking/repositories.py:24-56 | an unreplayable row can be replayed again only from the boundary instant, and from it a confirm does bring it back |
| BookingTheorems.KeyIsOnOneRow | backend/apps/booking/models.py:123-131 | over every run, stale saves included, a user's key is on at most one row |
| BookingService.EnsureOrderKeeps | backend/apps/booking/services.py:652-683 | on any copy of the row, a first order, a refused one that releases the hold and a refused one that keeps it keep the invariant exactly unless a copy no longer safe is saved |
| BookingService.EnsureOrderKeepsRows | backend/apps/booking/services.py:652-683 | and always keep prices, orders, keys and capacities |
| BookingService.OrderEndsSo | backend/apps/booking/services.py:639-737 | on any copy: an order in place is left, a refused order (split retried once without it) leaves a changed hold as it was and cancels a new one, an accepted one is for the total read at the right gateway and is saved with its handle |
| BookingService.CreateEndsSo | backend/apps/booking/services.py:276-378 | a create ends declined, or with that outcome for the row it landed on, releasing on failure |
| BookingService.CreateRequestKeepsRows | backend/apps/booking/services.py:276-378 | whatever others commit between its transactions, a create keeps prices, orders, keys and capacities and answers with a booking of the user who asked |
| BookingService.CreateRequestKeeps | backend/apps/booking/services.py:276-378 | and the whole invariant exactly when the one gap between its read of the row and its save does not make that copy unsafe to save |
| BookingService.RunsAreReliable | backend/apps/booking/services.py:373-378 | what happens in a gap may be any stretch of any run, saves of copies read before it included: that is all the create and the changes assume of the others |
| BookingService.SafeRunsKeepAll | backend/apps/booking/services.py:373-378 | and where that run has safe saves the others keep the whole invariant too |
| BookingService.ReplayReservesNothing | backend/apps/booking/services.py:329-378 | a create whose key an answerable row holds at either lookup, or any row at the insert, takes no seat whatever the provider answers, and answers at most with a holder of the key |
| BookingService.RetriedCreateIsReplayed | backend/apps/booking/services.py:329-336 | a create sent again with its key, after any run, while the first hold runs and is reserved or freshly paid: no row, no seat, no answer but the first booking, and that answer when its order is in place |
| BookingService.DeadKeyIsReplaced | backend/apps/booking/services.py:349-371 | a key on dead rows only is no obstacle to a new booking |
| BookingService.RetryRepairsOrder | backend/apps/booking/services.py:639-644 | a hold left without an order is repaired by the next call: an order for exactly its unchanged total, at the gateway it already named if any |
| BookingService.FailedOrderReturnsSeats | backend/apps/booking/services.py:623-637 | a create whose payment cannot start leaves inventory and tickets exactly as they were, the row cancelled |
| BookingService.RefusedCreateReturnsSeats | backend/apps/booking/services.py:616-670 | whatever others commit meanwhile, a create whose new hold is refused its order cancels it, if it still is one, and returns exactly its seats |
| BookingService.ConfirmReturnsTickets | backend/apps/booking/services.py:1299-1380 | the ids a fresh confirm hands back are the booking's whole ticket set |
| BookingService.BookingService.constructor | backend/apps/booking/services.py:123-167 | a new deployment starts empty and, with valid settings, good |
| BookingService.BookingService.ValidateItems | backend/apps/booking/services.py:452-470 | accepts exactly the orders with positive quantities and distinct tiers of the event |
| BookingService.BookingService.InsertHold | backend/apps/booking/services.py:472-614 | all lines reserved and the row inserted with every column, its key included, or counters and tables exactly as before; a lost race for the key answers with the winner |
| BookingService.BookingService.ReleaseIdempotencyKey | backend/apps/booking/repositories.py:159-184 | afterwards exactly the replayable holders still hold the key, no row changed otherwise, and the count is of the rows that changed |
| BookingService.BookingService.CreateBooking | backend/apps/booking/services.py:276-378 | the whole create with anything committed in its gaps: the first lookup, the second, detach, insert or lost race, and the order on the copy read; rows kept good, own booking answered, invariant kept exactly when that copy is still safe to save |
| BookingService.BookingService.CreateHoldingKey | backend/apps/booking/services.py:342-371 | the part under the key: look again, detach the dead key, insert |
| BookingService.BookingService.PayLater | backend/apps/booking/services.py:373-378 | the order call outside any transaction, on the copy read before a gap: the outcome stated by `BookingService.OrderEndsSo`, rows good, and the invariant exactly when that copy is still safe to save |
| BookingService.BookingService.EnsurePaymentOrder | backend/apps/booking/services.py:616-683 | fills in a missing order on any copy, retrying without the split, or releases or keeps the hold; rows kept good, the invariant exactly unless an unsafe copy is saved |
| BookingService.BookingService.CloseHold | backend/apps/booking/services.py:802-812 | items, coupon, status and event together, or nothing |
| BookingService.BookingService.ReleaseUnstartableHold | backend/apps/booking/services.py:786-826 | releases a reserved hold once and leaves any other row alone |
| BookingService.BookingService.CancelBooking | backend/apps/booking/services.py:877-908 | cancels nothing but the actor's own reserved booking, reports each refusal and keeps the invariant |
| BookingService.BookingService.SetDonation | backend/apps/booking/services.py:912-980 | a refusal changes nothing; otherwise the donation is written and, after anything others commit, a refused order leaves everything as they left it and an accepted one is saved on the copy read; the invariant exactly when that copy is still safe to save |
| BookingService.BookingService.SetPaymentGateway | backend/apps/booking/services.py:1025-1107 | gateway written and a foreign order dropped, then the order re-issued after a gap in the same way |
| BookingService.BookingService.WriteCoupon | backend/apps/booking/services.py:1183-1204 | release-then-redeem in one transaction: a refused code restores everything |
| BookingService.BookingService.SetCoupon | backend/apps/booking/services.py:1149-1212 | a refused replacement code leaves row, redemption and total unchanged; an accepted one re-issues the order after a gap in the same way |
| BookingService.BookingService.DropCoupon | backend/apps/booking/services.py:1221-1238 | the locked half of taking a code off, and whether anything changed |
| BookingService.BookingService.ClearCoupon | backend/apps/booking/services.py:1214-1246 | a booking without a code comes back unchanged and places no order; one with a code has its order re-issued after a gap in the same way |
| BookingService.BookingService.ListExpiredReservedIds | backend/apps/booking/repositories.py:342-350 | a legal work list: lapsed holds, none twice, up to the limit, all if there is room |
| BookingService.BookingService.ReleaseExpired | backend/apps/booking/services.py:1250-1262 | one pass over the list it draws up, whichever transactions fail: it releases those before the first broken one and returns their number, or raises there; with known tiers and no failure the backlog shrinks by exactly that number |
| BookingService.BookingService.ReleaseOneExpired | backend/apps/booking/services.py:1264-1291 | re-checks under the lock and reports a release exactly when one happened; a failed transaction changes nothing |
| BookingService.BookingService.ConfirmTiers | backend/apps/booking/services.py:1342-1347 | every line moved from reserved to sold, or none |
| BookingService.BookingService.IssueTickets | backend/apps/booking/services.py:1577-1595 | appends the specified tickets and returns their ids |
| BookingService.BookingService.MarkPaid | backend/apps/booking/services.py:1342-1370 | counters, row, tickets and both events together, or nothing |
| BookingService.BookingService.ConfirmBooking | backend/apps/booking/services.py:1299-1380 | issued once; a replay is handed the same tickets; a lapsed hold none; the reply always holds the booking's ticket set |
| BookingService.BookingService.VoidTicketsForBooking | backend/apps/booking/services.py:1382-1396 | every ticket that changed was the booking's and active and is now void, none of the booking's is left active, nothing else changes, the count is of those that changed, and the invariant is kept |
| Sweeper.ConfirmXorSweep | backend/apps/booking/services.py:1333-1340 | for a reserved row exactly one of "confirm accepts" and "sweep releases" holds, and a live hold is confirmable |
| Sweeper.BoundaryInstant | backend/apps/booking/services.py:1014-1021 | at the instant a hold ends checkout calls it lapsed, confirm accepts it and the sweep leaves it |
| Sweeper.PassReleasesItsWork | backend/apps/booking/services.py:1250-1262 | an uncontended pass releases exactly its work list and returns its length |
| Sweeper.PassReachesExactly | backend/apps/booking/services.py:1257-1262 | whichever transactions fail, a pass releases exactly the bookings before the first broken one, raises its failure there and leaves the others lapsed |
| Sweeper.PassRaisesExactly | backend/apps/booking/services.py:1264-1295 | a pass is cut short if and only if a booking of its list has a failing transaction or a line whose tier is gone |
| Sweeper.OneFailureBlocksTheRest | backend/apps/booking/services.py:1250-1262 | in every database with two releasable holds, a failure of the one met first leaves the other lapsed, which the other order would have released |
| BookingTheorems.OnlyFailuresRaise | backend/apps/booking/models.py:167-172 | over every run a pass raises exactly when a transaction of its list fails |
| Sweeper.PassShrinksBacklog | backend/apps/booking/repositories.py:342-350 | one pass over any legal work list takes the smaller of the limit and the backlog |
| Sweeper.GoneAfterCeiling | backend/apps/booking/services.py:1250-1262 | a backlog of n is gone exactly from pass number n / limit rounded up |
| Sweeper.BacklogDrains | backend/apps/booking/services.py:1250-1291 | with the clock still, after k passes exactly what k limits leave remains, and the counts returned sum to what went |
| Sweeper.BacklogIsConserved | backend/apps/booking/services.py:1250-1291 | with the clock running, lapsed at the end = lapsed at the start + lapsed meanwhile - the counts returned |
| Sweeper.StartBacklogIsGone | backend/apps/booking/services.py:1250-1291 | and every hold lapsed at the start is gone once the passes have room for it and for all that lapsed meanwhile, whichever the queries pick |
| Checkin.EveryRunAgrees | backend/apps/checkin/services.py:301-352 | under any interleaving a ticket has one admitted row when used and none otherwise, and per event used tickets equal admitted scans |
| Checkin.OneScanEntry | backend/apps/booking/repositories.py:532-550 | two admitted rows of one ticket are the same row |
| Checkin.RunOnlyMovesForward | backend/apps/booking/repositories.py:570-578 | the log only grows; a used or void ticket never changes again |
| Checkin.LaterScanIsRefused | backend/apps/checkin/services.py:317-322 | the first scan at the lock is admitted and any later one refused, told when and where the first went in |
| Checkin.RefundBeatsWaitingScan | backend/apps/checkin/services.py:323-337 | a refund between pre-check and lock refuses every scan from then on |
| Checkin.RefundWrites | backend/apps/booking/repositories.py:570-578 | a refund voids exactly the booking's active tickets |
| Checkin.GoesOnExactly | backend/apps/checkin/services.py:115-447 | a scan reaches the lock exactly when the token is genuine, the scanner is the owner or an admin, and the ticket is this event's, active and within its session's or event's hours with both margins |
| Checkin.TurnedAwayExactly | backend/apps/checkin/services.py:132-152 | a stranger, a missing event, a forged token and an unknown ticket are turned away, exactly then, and leave no trace |
| Checkin.DenialsAreTrue | backend/apps/checkin/services.py:154-171 | every other denial gives the one true reason, a used ticket with when and where, is logged, and moves no ticket |
| Checkin.CheckinService.LockAndAdmit | backend/apps/checkin/services.py:301-366 | the locked decision as specified; the live count is bumped exactly on admission |
| Checkin.CheckinService.VerifyAndMarkUsed | backend/apps/checkin/services.py:115-352 | admits exactly the good ticket scanned by the owner or an admin within its hours, turns strangers away without a trace, and bumps the count exactly on admission |
| Checkin.CheckinService.LookupTicket | backend/apps/checkin/services.py:184-275 | the read-only twin: admissible exactly when a scan would reach the lock, else the scan's own reason, with when and where the ticket was used, and nothing changed |
| Attendance.ArmingIsSafeExactly | backend/apps/checkin/selectors.py:96-102 | arming the marker is safe if and only if the counter is then a reconciled one that outlives it: otherwise a recreated counter can be served, and if so never |
| Attendance.TimelyReconcileArmsSafely | backend/apps/checkin/selectors.py:28-31 | a reconcile whose counter write landed and which takes no longer than the two lifetimes' difference arms it safely |
| Attendance.DriftIsExact | backend/apps/checkin/selectors.py:90-102 | a value read behind a live marker differs from the used count by exactly what was outstanding at its reconcile less what is outstanding, lost or overwritten since, and is never a recreated counter's, whatever happens between the two reads |
| Attendance.ReconcileResetsError | backend/apps/checkin/selectors.py:96-102 | an undisturbed reconcile serves the true count |
| Attendance.ServedExactly | backend/apps/checkin/selectors.py:88-94 | the cache serves the counter exactly while marker, counter and capacity are all alive |
| Attendance.SlowReconcileServesRecreated | backend/apps/checkin/selectors.py:28-31 | a reconcile any slower than the two lifetimes' difference can serve 1 for a full house |
| Attendance.LostWriteServesRecreated | backend/core/adapters/redis/adapter.py:210-216 | so can one whose counter write is swallowed, in no time at all |
| Attendance.LateReadSeesRecreated | backend/apps/checkin/selectors.py:90-94 | and a counter read after the marker seen has run out |
| Attendance.AttendanceCache.BumpAttendance | backend/apps/checkin/selectors.py:59-64 | an increment keeps the key's lifetime and recreates an expired key at one with none |
| Attendance.AttendanceCache.GetAttendance | backend/apps/checkin/selectors.py:67-102 | serves the cached value untouched, or on a miss or an unreadable cache the true count, with the three writes each landing or not as in the runs |
| Batches.GoesEventuallyIff | backend/core/outbox.py:41-55 | a row that can go does go after finitely many batches if and only if fewer than a batch of stuck rows are ahead of it |
| Batches.ReachedInTime | backend/core/outbox.py:41-55 | and then within as many batches as its place in the queue needs, whatever arrives behind it |
| Batches.BatchIsTaken | backend/apps/announcements/repositories.py:177-201 | the query's batch is the oldest pending rows up to the limit, and is full exactly when there are that many |
| Outbox.OutboxTable.RecordEvent | backend/core/outbox.py:24-29 | refused outside a transaction, otherwise one unpublished row appended |
| Outbox.OutboxTable.PublishPending | backend/core/outbox.py:32-57 | marks exactly the batch's rows whose handler did not raise, returns their number and changes no other mark |
| Outbox.EveryRunIsSafe | backend/core/outbox.py:41-57 | under any interleaving of drains, commits and crashes no row is held twice, no mark undone, and no event delivered more than once but for crashed drains |
| Outbox.OutboxTable.DrainOnSchedule | backend/core/outbox.py:32-57 | the drain run again and again with events recorded in between: no mark moves, and every event not failing for ever, with fewer than a batch of failing ones before it, is marked within as many drains as there are publishable events up to it |
| Outbox.EveryGoodEventIsPublished | backend/core/outbox.py:32-57 | with fewer forever-failing events than a batch, every other event of the backlog is published in boundedly many drains |
| Announcements.InsertAppends | backend/apps/announcements/repositories.py:159-172 | an ignoring insert only appends, gives everyone a row and nobody two, and its own rows are exactly the new ones |
| Announcements.BroadcastService.CreateForSubscribers | backend/apps/announcements/repositories.py:135-172 | the count returned is exactly the rows this press created, unsent and each for one of the ids given, whatever other presses insert between chunks |
| Announcements.BroadcastService.Notify | backend/apps/notifications/services.py:107-190 | one send per address: a second call returns the same log and sends nothing |
| Announcements.BroadcastService.HandOver | backend/apps/announcements/services.py:401-425 | a delivery is handed over exactly when its subscriber is known, still subscribed and has an address, and then carries that address's log; no other address is sent to |
| Announcements.BroadcastService.SendPending | backend/apps/announcements/services.py:376-434 | one fan-out run: the backlog it leaves, the rows it attached, its count, and that it re-enqueues exactly after a full batch; the row of anybody who left is untouched and no address is sent to that no subscribed recipient has |
| Announcements.ChainEndsIff | backend/apps/announcements/services.py:427-428 | the self re-enqueuing chain ends if and only if fewer rows than the limit are permanently skipped |
| Announcements.ChainEndsInTime | backend/apps/announcements/services.py:427-428 | and how soon |
| Announcements.EndedChainIsComplete | backend/apps/announcements/services.py:376-434 | after the chain's last run exactly the skipped rows are still pending |
| Announcements.BroadcastService.RunQueuedJobs | backend/apps/announcements/tasks.py:17-22 | the queue run until empty: every still-subscribed recipient's row carries the one log id of its address, each address was sent to once, the rows of whoever left, is unknown or has no address are untouched and alone pending |
| Announcements.RacesSendOnce | backend/apps/announcements/repositories.py:203-213 | racing fan-outs send once per address, and a log id once written never changes |
| EmailCodes.EveryCodeIsBudgeted | backend/apps/accounts/services.py:765-786 | under any interleaving a code is compared with at most MAX_ATTEMPTS submissions and used at most once |
| EmailCodes.CooldownIsMinute | backend/apps/accounts/services.py:703-708 | a new code may be asked for exactly when a full minute has passed, fractions of a second included |
| EmailCodes.AcceptedExactly | backend/apps/accounts/services.py:744-786 | exactly the submissions accepted: to an unverified address, the very secret of its latest code, unused, unexpired and within its five attempts |
| EmailCodes.RefusedCostsAttempt | backend/apps/accounts/services.py:770-783 | any other submission verifies nothing and costs an attempt, for a wrong code and a dead one alike, until none is left |
| EmailCodes.VerifiedByTheSecret | backend/apps/accounts/services.py:744-786 | under any interleaving an address not proven elsewhere is verified only by somebody who submitted the secret of one of its codes |
| EmailCodes.FreshCodeLastsItsTtl | backend/apps/accounts/services.py:711-716 | a code just issued is accepted exactly for ten minutes |
| EmailCodes.GuessRateIsBounded | backend/apps/accounts/models.py:178-183 | with requests and verifies one at a time, any window of T seconds holds at most 5 * (T / 60 + 2) comparisons |
| EmailCodes.RacingVerifiesAreBounded | backend/apps/accounts/services.py:744-786 | with requests one at a time and verifies racing freely, any window holds at most five comparisons for each code that can be alive in it |
| EmailCodes.RacingRequestsBreakTheRate | backend/apps/accounts/services.py:703-716 | requests racing past the cooldown check give 5 comparisons each at one instant |
| EmailCodes.EmailVerificationService.RequestCode | backend/apps/accounts/services.py:694-716 | a code is issued exactly when unverified and out of cooldown |
| EmailCodes.EmailVerificationService.Verify | backend/apps/accounts/services.py:744-789 | the decision on the latest code: accepted only with its secret, and then the address is verified; attempts kept on refusal |
| SignIn.EveryRunIsGood | backend/core/ephemeral.py:37-103 | every interleaving of flows, callbacks, redeems and purges keeps the chain's invariant, and its records only grow |
| SignIn.SessionsComeFromFlows | backend/apps/accounts/services.py:957-1047 | every session goes back to a redeemed handoff for that user and through it to a consumed state of a started flow |
| SignIn.SessionsAreInjective | backend/apps/accounts/services.py:1026-1047 | no two sessions share a handoff or a flow |
| SignIn.PayloadLeavesOnce | backend/core/ephemeral.py:53-82 | a row's payload is handed out at most once and strictly before its expiry |
| SignIn.PurgeSparesTheLiving | backend/core/ephemeral.py:85-103 | a sweep's DELETE takes nothing that could still be used |
| SignIn.PurgeTakesTheDead | backend/core/ephemeral.py:85-103 | a sweep that marks every expired row leaves none of them |
| SignIn.PromptFlowSignsIn | backend/apps/accounts/services.py:921-1047 | a flow ends in a session for the user named exactly when it stays inside both deadlines |
| SignIn.RedeemedExactly | backend/apps/accounts/services.py:1026-1047 | a handoff is gone once redeemed and makes a session, for its user, exactly when it was there, unexpired, and that user is active |
| SignIn.FailedExchangeLeavesNothing | backend/apps/accounts/services.py:957-1000 | a failed exchange leaves nothing to redeem and its state spent |
| SignIn.TokenStore.IssueOne | backend/core/ephemeral.py:37-50 | a collision is refused and changes nothing, otherwise the row is stored with its deadline |
| SignIn.TokenStore.ConsumeToken | backend/core/ephemeral.py:53-82 | the row is removed whatever happens and its payload returned only before its deadline |
| Receipt.Wrap | backend/apps/booking/receipt_pdf.py:253-272 | the loop computes the greedy lines |
| Receipt.GreedyIsLegal | backend/apps/booking/receipt_pdf.py:263-271 | the lines are the words again in order, each fitting or a single over-long word |
| Receipt.WrapIsOptimal | backend/apps/booking/receipt_pdf.py:253-272 | they re-join to the text and no other such break uses fewer lines |
| Receipt.Rupees | backend/apps/booking/receipt_pdf.py:91-109 | the loop prints the grouped amount |
| Receipt.PrintedReadsBack | backend/apps/booking/receipt_pdf.py:91-109 | for every amount, reading the printed digits with the sign gives it back |
| Receipt.PrintedPinsPoint | backend/apps/booking/receipt_pdf.py:91-109 | the printed amount is the sign, the rupee sign, the whole rupees grouped, a point and exactly the two digits of the paise |
| Receipt.PrintingIsInjective | backend/apps/booking/receipt_pdf.py:91-109 | two amounts never print the same |
| Receipt.PrintedIsIndian | backend/apps/booking/receipt_pdf.py:97-107 | a last group of three, inner groups of exactly two, a leading group of one or two |
| QrTokens.DecodeUndoesEncode | backend/apps/booking/qr.py:30-36 | unpadded encoding and re-padded decoding are inverse on every byte string |
| QrTokens.SymbolsAreTheAlphabet | backend/apps/booking/qr.py:30-32 | the symbols are the url-safe alphabet in its order |
| QrTokens.SignedVerifies | backend/apps/booking/qr.py:44-48 | verifying a signed token with the same key returns its ids |
| QrTokens.AcceptedExactly | backend/apps/booking/qr.py:51-70 | accepted tokens are exactly v1.payload.signature with the payload holding those ids and the signature the MAC of that payload |
| QrTokens.MovedSignatureNeedsEqualMacs | backend/apps/booking/qr.py:39-41 | a signature moved to another payload is accepted only where the two MACs are equal |
| QrTokens.RaisesExactly | backend/apps/booking/qr.py:54-64 | exactly the tokens on which verification raises |
| QrTokens.RaisingToken | backend/apps/booking/qr.py:62-64 | one such token |

## Left out

- Unit prices: phases and group bands are not modelled; a line carries the price the locked reserve decided.
- Finding a coupon by its typed code within an organization, and edits to coupons and tiers: the coupon row is an input, tiers keep their capacity.
- Event deletion and event publication: `bookable` is an input; tiers are never marked deleted, as nothing in the services does it.
- Questionnaire answers, attendee assignment, receipt sharing and audit records.
- The cache lock around a keyed create: correctness rests on the unique constraint, as the source says.
- Payment providers, mail, Google and the cache server are outcomes a step may have; the webhook side of payments is not part of this model.
- Integer column widths: amounts and counts are unbounded.
- Negative quantities: a quantity is a natural number, and zero stands for every refused one.
- Waiting for locks and deadlock: a transaction is one step.
- BookingTheorems.NeverOversold: for runs with safe saves; `BookingRaces.OneSeatSoldTwice` shows it is needed.
- Attendance.AttendanceCache.GetAttendance: nothing runs between its own steps; runs of the machine interleave them, and `Attendance.DriftIsExact` covers a reader interrupted between its reads.
- EmailCodes.GuessRateIsBounded: for requests and verifies served one at a time; `EmailCodes.RacingVerifiesAreBounded` is the bound without the second, and `EmailCodes.RacingRequestsBreakTheRate` shows there is none without the first.
- Announcements.EndedChainIsComplete: for subscribers who do not change their mind during the chain; subscribing, unsubscribing and click stamps are not modelled.
- Checkin.CheckinService.VerifyAndMarkUsed: takes the ticket a genuine token names; token verification is `QrTokens.Verify`, and the tokens on which it raises do not reach this step.
- Code generation, hashing, random tokens and JSON reading are abstract; lone surrogates in a token are not characters here.
- `Receipt.Wrap` starts from the words; splitting text on whitespace, drawing and e-mail wording are left out.
- Profile fields, operator roles, content pages, the job schedule, views and wiring would add only shallow members.
