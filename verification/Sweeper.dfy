/** The expiry sweep: who it takes, and how many passes drain the backlog. */
module Sweeper {
  import opened Seqs
  import opened Tables
  import opened Ticketing
  import opened Bookings
  import opened BookingInvariant
  import Coupons

  /** For a reserved row at any instant exactly one of "confirm accepts" and
      "the sweep releases" holds, and a hold reported live is one confirm
      accepts. */
  lemma ConfirmXorSweep(db: Db, b: BookingId, ref: string)
    requires Inv(db) && b < |db.bookings| && db.bookings[b].status == Reserved
    ensures After(db, Confirm(db, b, ref)).bookings[b].status == Paid
       <==> After(db, SweepOne(db, b)).bookings[b].status != Expired
    ensures GetLiveHold(db, b, db.bookings[b].user).None? ==>
              After(db, Confirm(db, b, ref)).bookings[b].status == Paid
  {
    ConfirmSettles(db, b, ref);
    SweepSettles(db, b);
  }

  lemma ConfirmSettles(db: Db, b: BookingId, ref: string)
    requires Inv(db) && b < |db.bookings| && db.bookings[b].status == Reserved
    ensures After(db, Confirm(db, b, ref)).bookings[b].status
         == if Confirmable(db.bookings[b], db.clock) then Paid else Reserved
  {
    ConfirmKeeps(db, b, ref);
  }

  lemma SweepSettles(db: Db, b: BookingId)
    requires Inv(db) && b < |db.bookings| && db.bookings[b].status == Reserved
    ensures After(db, SweepOne(db, b)).bookings[b].status
         == if Sweepable(db.bookings[b], db.clock) then Expired else Reserved
  {
    GiveUpKeeps(db, b, Expired, "expired");
  }

  /** At the very instant a hold ends, checkout already calls it lapsed while
      confirm still accepts it and the sweep still leaves it. */
  lemma BoundaryInstant(db: Db, b: BookingId, ref: string)
    requires Inv(db) && b < |db.bookings|
    requires db.bookings[b].status == Reserved && db.bookings[b].holdExpiresAt == db.clock
    ensures GetLiveHold(db, b, db.bookings[b].user) == Some(HoldNotLive(Expired))
    ensures After(db, SweepOne(db, b)) == db
    ensures After(db, Confirm(db, b, ref)).bookings[b].status == Paid
  {
    ConfirmKeeps(db, b, ref);
  }

  /** The sweeper's work list, all of it. */
  function Lapsed(db: Db): set<BookingId> {
    set b: nat | b < |db.bookings| && Sweepable(db.bookings[b], db.clock)
  }

  /** A legal answer to the work-list query: some `limit` of the lapsed rows,
      in any order, or all of them. */
  ghost predicate WorkList(db: Db, limit: nat, work: seq<BookingId>) {
    && Elements(work) <= Lapsed(db) && Distinct(work)
    && |work| == if |Lapsed(db)| < limit then |Lapsed(db)| else limit
  }

  /** One id's transaction. `failing` are the ids whose transaction the
      database itself ends: a deadlock, a lost connection. */
  function ReleaseOne(db: Db, b: BookingId, failing: set<BookingId>): Outcome {
    if b in failing then RolledBack(DatabaseFailed) else SweepOne(db, b)
  }

  /** One pass: each id is re-checked and released in its own transaction. A
      release that raises ends the pass and keeps what went before. */
  function SweepAll(db: Db, work: seq<BookingId>, failing: set<BookingId>): Db
    decreases |work|
  {
    if work == [] then db
    else
      match ReleaseOne(db, work[0], failing)
      case RolledBack(_) => db
      case Committed(after) => SweepAll(after, work[1..], failing)
  }

  /** What ended the pass early, if anything did. */
  function Raised(db: Db, work: seq<BookingId>, failing: set<BookingId>): Option<Error>
    decreases |work|
  {
    if work == [] then None
    else
      match ReleaseOne(db, work[0], failing)
      case RolledBack(e) => Some(e)
      case Committed(after) => Raised(after, work[1..], failing)
  }

  /** How many of them a pass releases. */
  function Released(db: Db, work: seq<BookingId>, failing: set<BookingId>): nat
    decreases |work|
  {
    if work == [] then 0
    else
      match ReleaseOne(db, work[0], failing)
      case RolledBack(_) => 0
      case Committed(after) => (if after.outbox != db.outbox then 1 else 0) + Released(after, work[1..], failing)
  }

  /** Every line names a tier that exists: all the sweep needs of the data. */
  ghost predicate LinesAllKnown(db: Db) {
    AllLinesKnown(db.tiers, db.bookings)
  }

  /** A booking whose release raises: its transaction fails, or the tier of
      one of its lines is gone. */
  ghost predicate Broken(db: Db, b: BookingId, failing: set<BookingId>) {
    b in failing || (b < |db.bookings| && !LinesKnown(db.tiers, db.bookings[b].items))
  }

  function Failure(b: BookingId, failing: set<BookingId>): Error {
    if b in failing then DatabaseFailed else TierNotFound
  }

  lemma SweepOneTakesOne(db: Db, b: BookingId)
    requires LinesAllKnown(db)
    ensures SweepOne(db, b).Committed? && LinesAllKnown(After(db, SweepOne(db, b)))
    ensures Lapsed(After(db, SweepOne(db, b))) == Lapsed(db) - {b}
    ensures b in Lapsed(db) <==> After(db, SweepOne(db, b)).outbox != db.outbox
  {
    if b in Lapsed(db) {
      ReleaseAllIff(db.tiers, db.bookings[b].items);
    }
  }

  ghost predicate Distinct(work: seq<BookingId>) {
    forall i, j :: 0 <= i < j < |work| ==> work[i] != work[j]
  }

  lemma TailOfWork(work: seq<BookingId>)
    requires work != [] && Distinct(work)
    ensures Distinct(work[1..]) && work[0] !in Elements(work[1..])
    ensures Elements(work) == {work[0]} + Elements(work[1..])
    ensures |Elements(work)| == 1 + |Elements(work[1..])|
  {
    assert Elements(work) == {work[0]} + Elements(work[1..]);
    forall i, j | 0 <= i < j < |work[1..]| ensures work[1..][i] != work[1..][j] {
      assert work[1..][i] == work[i + 1] && work[1..][j] == work[j + 1];
    }
  }

  lemma ReleaseOneExactly(db: Db, b: BookingId, failing: set<BookingId>)
    requires b in Lapsed(db)
    ensures ReleaseOne(db, b, failing).RolledBack? <==> Broken(db, b, failing)
    ensures ReleaseOne(db, b, failing).RolledBack? ==> ReleaseOne(db, b, failing).error == Failure(b, failing)
    ensures ReleaseOne(db, b, failing).Committed? ==>
              var next := ReleaseOne(db, b, failing).db;
              && Lapsed(next) == Lapsed(db) - {b} && next.outbox != db.outbox
              && next.clock == db.clock && forall k :: Broken(next, k, failing) <==> Broken(db, k, failing)
  {
    ReleaseAllIff(db.tiers, db.bookings[b].items);
    if ReleaseOne(db, b, failing).Committed? {
      SameBroken(db, ReleaseOne(db, b, failing).db, failing);
    }
  }

  lemma SameBroken(db: Db, after: Db, failing: set<BookingId>)
    requires after.tiers.Keys == db.tiers.Keys && |after.bookings| == |db.bookings|
    requires forall k :: 0 <= k < |db.bookings| ==> after.bookings[k].items == db.bookings[k].items
    ensures forall k :: Broken(after, k, failing) <==> Broken(db, k, failing)
  {
  }

  /** How far a pass gets: the bookings of its list before the first broken one. */
  ghost function Reached(db: Db, work: seq<BookingId>, failing: set<BookingId>): seq<BookingId> {
    if work == [] || Broken(db, work[0], failing) then [] else [work[0]] + Reached(db, work[1..], failing)
  }

  lemma {:induction false} ReachedStopsAtBroken(db: Db, work: seq<BookingId>, failing: set<BookingId>)
    ensures var done := Reached(db, work, failing);
      && done <= work && (forall b :: b in done ==> !Broken(db, b, failing))
      && (|done| < |work| ==> Broken(db, work[|done|], failing))
  {
    if work != [] && !Broken(db, work[0], failing) {
      ReachedStopsAtBroken(db, work[1..], failing);
    }
  }

  lemma {:induction false} SameReached(db: Db, after: Db, work: seq<BookingId>, failing: set<BookingId>)
    requires forall k :: Broken(after, k, failing) <==> Broken(db, k, failing)
    ensures Reached(after, work, failing) == Reached(db, work, failing)
  {
    if work != [] {
      SameReached(db, after, work[1..], failing);
    }
  }

  lemma OneMoreReleased(db: Db, next: Db, work: seq<BookingId>, failing: set<BookingId>)
    requires work != [] && !Broken(db, work[0], failing) && ReleaseOne(db, work[0], failing) == Committed(next)
    requires Lapsed(next) == Lapsed(db) - {work[0]} && next.outbox != db.outbox
    requires Reached(next, work[1..], failing) == Reached(db, work[1..], failing)
    requires Lapsed(SweepAll(next, work[1..], failing))
          == Lapsed(next) - Elements(Reached(next, work[1..], failing))
    ensures Released(db, work, failing) == 1 + Released(next, work[1..], failing)
    ensures Raised(db, work, failing) == Raised(next, work[1..], failing)
    ensures Lapsed(SweepAll(db, work, failing)) == Lapsed(db) - Elements(Reached(db, work, failing))
  {
    var rest := Reached(db, work[1..], failing);
    assert Elements([work[0]] + rest) == {work[0]} + Elements(rest);
    assert Lapsed(db) - {work[0]} - Elements(rest) == Lapsed(db) - Elements([work[0]] + rest);
  }

  /** Exactly what a pass over lapsed bookings does, whichever transactions
      fail: it releases those before the first broken one, raises there, and
      leaves that one and every later one of its list lapsed and unreleased. */
  lemma {:induction false} PassReachesExactly(db: Db, work: seq<BookingId>, failing: set<BookingId>)
    requires Distinct(work) && Elements(work) <= Lapsed(db)
    ensures Released(db, work, failing) == |Reached(db, work, failing)| <= |work|
    ensures Lapsed(SweepAll(db, work, failing)) == Lapsed(db) - Elements(Reached(db, work, failing))
    ensures var n := |Reached(db, work, failing)|;
      Raised(db, work, failing) == if n < |work| then Some(Failure(work[n], failing)) else None
    decreases |work|
  {
    if work == [] {
      assert Lapsed(db) - Elements([]) == Lapsed(db);
    } else {
      ReleaseOneExactly(db, work[0], failing);
      if Broken(db, work[0], failing) {
        assert Lapsed(db) - Elements([]) == Lapsed(db);
      } else {
        var next := ReleaseOne(db, work[0], failing).db;
        TailOfWork(work);
        PassReachesExactly(next, work[1..], failing);
        SameReached(db, next, work[1..], failing);
        OneMoreReleased(db, next, work, failing);
      }
    }
  }

  /** A pass is cut short if and only if a booking of its list is broken, and
      every booking of the list from the first broken one on stays lapsed. */
  lemma PassRaisesExactly(db: Db, work: seq<BookingId>, failing: set<BookingId>)
    requires Distinct(work) && Elements(work) <= Lapsed(db)
    ensures Raised(db, work, failing).Some? <==> exists i :: 0 <= i < |work| && Broken(db, work[i], failing)
    ensures forall i :: |Reached(db, work, failing)| <= i < |work| ==> work[i] in Lapsed(SweepAll(db, work, failing))
  {
    PassReachesExactly(db, work, failing);
    ReachedStopsAtBroken(db, work, failing);
    var done := Reached(db, work, failing);
    assert |done| == |work| ==> done == work;
    forall i | |done| <= i < |work| ensures work[i] in Lapsed(SweepAll(db, work, failing)) {
      assert work[i] in Elements(work);
      assert forall k :: 0 <= k < |done| ==> done[k] == work[k];
      assert work[i] !in Elements(done);
    }
  }

  /** Where every line's tier exists a pass raises exactly when a transaction
      of its list fails, whatever its list. */
  lemma {:induction false} KnownTiersRaiseExactly(db: Db, work: seq<BookingId>, failing: set<BookingId>)
    requires LinesAllKnown(db)
    ensures Raised(db, work, failing)
         == if exists i :: 0 <= i < |work| && work[i] in failing then Some(DatabaseFailed) else None
    decreases |work|
  {
    if work != [] && work[0] !in failing {
      SweepOneTakesOne(db, work[0]);
      KnownTiersRaiseExactly(After(db, SweepOne(db, work[0])), work[1..], failing);
      assert forall i :: 1 <= i < |work| ==> work[i] == work[1..][i - 1];
    }
  }

  /** One failure does block the rest, in any good database: where the first of
      two lapsed holds fails, the second stays, although a pass that met it
      first would have released it. */
  lemma OneFailureBlocksTheRest(db: Db, b: BookingId, c: BookingId)
    requires LinesAllKnown(db) && b in Lapsed(db) && c in Lapsed(db) && b != c
    ensures Raised(db, [b, c], {b}) == Some(DatabaseFailed) && SweepAll(db, [b, c], {b}) == db
    ensures c in Lapsed(SweepAll(db, [b, c], {b}))
    ensures Raised(db, [c, b], {b}) == Some(DatabaseFailed) && Lapsed(SweepAll(db, [c, b], {b})) == Lapsed(db) - {c}
  {
    SweepOneTakesOne(db, c);
    var next := SweepOne(db, c).db;
    assert [c, b][1..] == [b];
    assert SweepAll(next, [b], {b}) == next && Raised(next, [b], {b}) == Some(DatabaseFailed);
  }

  lemma {:induction false} DistinctSize(work: seq<BookingId>)
    requires Distinct(work)
    ensures |Elements(work)| == |work|
  {
    if work != [] {
      TailOfWork(work);
      DistinctSize(work[1..]);
    }
  }

  lemma AppendIsDistinct(work: seq<BookingId>, b: BookingId)
    requires Distinct(work) && b !in work
    ensures Distinct(work + [b])
  {
  }

  /** Any lapsed ids, none twice, up to the limit, and all of them if there is
      room: a legal answer. */
  lemma IsWorkList(db: Db, limit: nat, work: seq<BookingId>)
    requires Distinct(work) && Elements(work) <= Lapsed(db) && |work| <= limit
    requires |work| < limit ==> Lapsed(db) <= Elements(work)
    ensures WorkList(db, limit, work)
  {
    DistinctSize(work);
    Coupons.SubsetSize(Elements(work), Lapsed(db));
    if |work| < limit { assert Elements(work) == Lapsed(db); }
  }

  /** An uncontended pass releases every row of its work list and no other,
      raises nothing, and returns exactly how many there were. */
  lemma {:induction false} PassReleasesItsWork(db: Db, work: seq<BookingId>)
    requires LinesAllKnown(db) && Distinct(work) && Elements(work) <= Lapsed(db)
    ensures LinesAllKnown(SweepAll(db, work, {})) && Raised(db, work, {}).None?
    ensures Released(db, work, {}) == |work| == |Elements(work)|
    ensures Lapsed(SweepAll(db, work, {})) == Lapsed(db) - Elements(work)
    decreases |work|
  {
    if work == [] {
      assert Lapsed(db) - Elements(work) == Lapsed(db);
    } else {
      var next := After(db, SweepOne(db, work[0]));
      SweepOneTakesOne(db, work[0]);
      TailOfWork(work);
      PassReleasesItsWork(next, work[1..]);
      assert Lapsed(db) - {work[0]} - Elements(work[1..]) == Lapsed(db) - Elements(work);
    }
  }

  lemma PassShrinksBacklog(db: Db, limit: nat, work: seq<BookingId>)
    requires LinesAllKnown(db) && WorkList(db, limit, work)
    ensures var after := SweepAll(db, work, {});
      && LinesAllKnown(after) && Released(db, work, {}) == |work| == |Lapsed(db)| - |Lapsed(after)|
      && |Lapsed(after)| == Left(|Lapsed(db)|, 1, limit)
  {
    PassReleasesItsWork(db, work);
    assert Lapsed(db) == (Lapsed(db) - Elements(work)) + Elements(work);
  }

  function Later(db: Db, gap: nat): Db {
    db.(clock := db.clock + gap)
  }

  /** Successive uncontended passes, `gaps[k]` apart: more holds may lapse in
      between. */
  ghost predicate Passes(h: seq<Db>, works: seq<seq<BookingId>>, gaps: seq<nat>, limit: nat) {
    && |h| == |works| + 1 && |gaps| == |works|
    && forall k :: 0 <= k < |works| ==>
         WorkList(h[k], limit, works[k]) && h[k + 1] == Later(SweepAll(h[k], works[k], {}), gaps[k])
  }

  ghost function TotalReleased(h: seq<Db>, works: seq<seq<BookingId>>): nat
    requires |h| == |works| + 1
  {
    if works == [] then 0 else Released(h[0], works[0], {}) + TotalReleased(h[1..], works[1..])
  }

  /** Holds that lapsed between one pass and the next. */
  ghost function TotalArrived(h: seq<Db>, works: seq<seq<BookingId>>): int
    requires |h| == |works| + 1
  {
    if works == [] then 0
    else |Lapsed(h[1])| - |Lapsed(SweepAll(h[0], works[0], {}))| + TotalArrived(h[1..], works[1..])
  }

  /** What `passes` passes of `limit` leave of a backlog of n. */
  function Left(n: nat, passes: nat, limit: nat): nat {
    if passes * limit < n then n - passes * limit else 0
  }

  lemma LeftAfterOne(n: nat, passes: nat, limit: nat)
    requires passes > 0
    ensures Left(Left(n, 1, limit), passes - 1, limit) == Left(n, passes, limit) <= n
  {
    assert passes * limit == limit + (passes - 1) * limit;
  }

  /** The backlog is gone exactly from the pass number n / limit, rounded up. */
  lemma GoneAfterCeiling(n: nat, passes: nat, limit: nat)
    requires limit > 0
    ensures Left(n, passes, limit) == 0 <==> passes >= (n + limit - 1) / limit
  {
    var q := (n + limit - 1) / limit;
    if passes >= q {
      assert passes * limit >= q * limit;
    } else {
      assert passes * limit <= (q - 1) * limit;
    }
  }

  lemma TailOfPasses(h: seq<Db>, works: seq<seq<BookingId>>, gaps: seq<nat>, limit: nat)
    requires Passes(h, works, gaps, limit) && works != []
    ensures Passes(h[1..], works[1..], gaps[1..], limit)
    ensures h[1..][0] == h[1] && h[1..][|works[1..]|] == h[|works|]
    ensures WorkList(h[0], limit, works[0]) && h[1] == Later(SweepAll(h[0], works[0], {}), gaps[0])
  {
    assert h[0 + 1] == Later(SweepAll(h[0], works[0], {}), gaps[0]);
    forall k | 0 <= k < |works[1..]|
      ensures WorkList(h[1..][k], limit, works[1..][k])
      ensures h[1..][k + 1] == Later(SweepAll(h[1..][k], works[1..][k], {}), gaps[1..][k])
    {
      assert works[1..][k] == works[k + 1] && h[1..][k] == h[k + 1];
      assert h[k + 1 + 1] == Later(SweepAll(h[k + 1], works[k + 1], {}), gaps[k + 1]);
    }
  }

  /** Nothing is lost: what is lapsed at the end is what was lapsed at the start
      plus what lapsed in between, less the sum of the counts returned. */
  lemma {:induction false} BacklogIsConserved(h: seq<Db>, works: seq<seq<BookingId>>, gaps: seq<nat>, limit: nat)
    requires Passes(h, works, gaps, limit) && LinesAllKnown(h[0])
    ensures |Lapsed(h[|works|])| == |Lapsed(h[0])| + TotalArrived(h, works) - TotalReleased(h, works)
  {
    if works != [] {
      TailOfPasses(h, works, gaps, limit);
      PassShrinksBacklog(h[0], limit, works[0]);
      BacklogIsConserved(h[1..], works[1..], gaps[1..], limit);
    }
  }

  /** With the clock still, after k passes exactly max(0, n - k * limit) of the
      n lapsed holds are left. */
  lemma {:induction false} BacklogDrains(h: seq<Db>, works: seq<seq<BookingId>>, gaps: seq<nat>, limit: nat)
    requires Passes(h, works, gaps, limit) && LinesAllKnown(h[0]) && forall k :: 0 <= k < |gaps| ==> gaps[k] == 0
    ensures |Lapsed(h[|works|])| == Left(|Lapsed(h[0])|, |works|, limit)
    ensures TotalReleased(h, works) == |Lapsed(h[0])| - |Lapsed(h[|works|])|
  {
    if works != [] {
      TailOfPasses(h, works, gaps, limit);
      PassShrinksBacklog(h[0], limit, works[0]);
      assert h[1] == SweepAll(h[0], works[0], {});
      BacklogDrains(h[1..], works[1..], gaps[1..], limit);
      LeftAfterOne(|Lapsed(h[0])|, |works|, limit);
    }
  }

  /** A pass moves no deadline and reopens nothing. */
  lemma {:induction false} SweepAllOnlyCloses(db: Db, work: seq<BookingId>)
    ensures var after := SweepAll(db, work, {});
      && after.clock == db.clock && |after.bookings| == |db.bookings|
      && forall k :: 0 <= k < |db.bookings| ==>
           && after.bookings[k].holdExpiresAt == db.bookings[k].holdExpiresAt
           && (db.bookings[k].status != Reserved ==> after.bookings[k].status == db.bookings[k].status)
    decreases |work|
  {
    if work != [] && SweepOne(db, work[0]).Committed? {
      SweepAllOnlyCloses(SweepOne(db, work[0]).db, work[1..]);
    }
  }

  ghost predicate IsGone(db: Db, b: BookingId) {
    b < |db.bookings| && db.bookings[b].status != Reserved
  }

  lemma {:induction false} GoneStaysGone(h: seq<Db>, works: seq<seq<BookingId>>, gaps: seq<nat>, limit: nat,
                                         b: BookingId)
    requires Passes(h, works, gaps, limit) && IsGone(h[0], b)
    ensures IsGone(h[|works|], b)
  {
    if works != [] {
      TailOfPasses(h, works, gaps, limit);
      SweepAllOnlyCloses(h[0], works[0]);
      GoneStaysGone(h[1..], works[1..], gaps[1..], limit, b);
    }
  }

  /** A lapsed hold is lapsed still, or gone, after the next pass. */
  lemma LapsedStaysOrGoes(db: Db, work: seq<BookingId>, gap: nat, b: BookingId)
    requires b in Lapsed(db)
    ensures var next := Later(SweepAll(db, work, {}), gap); b in Lapsed(next) || IsGone(next, b)
    ensures b !in Lapsed(SweepAll(db, work, {})) ==> IsGone(Later(SweepAll(db, work, {}), gap), b)
  {
    SweepAllOnlyCloses(db, work);
  }

  /** The holds lapsed at the start that are lapsed at the end. */
  ghost function StillWaiting(h: seq<Db>): set<BookingId>
    requires h != []
  {
    Lapsed(h[0]) * Lapsed(h[|h| - 1])
  }

  lemma WaitingOutlivesFirstPass(h: seq<Db>, works: seq<seq<BookingId>>, gaps: seq<nat>, limit: nat, b: BookingId)
    requires Passes(h, works, gaps, limit) && works != [] && b in StillWaiting(h)
    ensures b in Lapsed(SweepAll(h[0], works[0], {})) && b in StillWaiting(h[1..])
  {
    TailOfPasses(h, works, gaps, limit);
    LapsedStaysOrGoes(h[0], works[0], gaps[0], b);
    if IsGone(h[1], b) { GoneStaysGone(h[1..], works[1..], gaps[1..], limit, b); }
  }

  /** A pass that leaves anything lapsed was a full one. */
  lemma LeavingPassIsFull(db: Db, limit: nat, work: seq<BookingId>, b: BookingId)
    requires LinesAllKnown(db) && WorkList(db, limit, work) && b in Lapsed(SweepAll(db, work, {}))
    ensures Released(db, work, {}) == limit
  {
    PassShrinksBacklog(db, limit, work);
    assert Lapsed(SweepAll(db, work, {})) != {};
  }

  lemma {:induction false} FullPassesUntilGone(h: seq<Db>, works: seq<seq<BookingId>>, gaps: seq<nat>, limit: nat)
    requires Passes(h, works, gaps, limit) && LinesAllKnown(h[0])
    ensures StillWaiting(h) == {} || TotalReleased(h, works) == |works| * limit
  {
    if works != [] && StillWaiting(h) != {} {
      var b :| b in StillWaiting(h);
      TailOfPasses(h, works, gaps, limit);
      WaitingOutlivesFirstPass(h, works, gaps, limit, b);
      LeavingPassIsFull(h[0], limit, works[0], b);
      PassReleasesItsWork(h[0], works[0]);
      FullPassesUntilGone(h[1..], works[1..], gaps[1..], limit);
      OneFullPassMore(|works|, limit);
    }
  }

  lemma OneFullPassMore(n: nat, limit: nat)
    ensures n * limit == limit + (n - 1) * limit
  {
  }

  /** With the clock running, whichever holds the queries pick: every hold
      lapsed at the start is gone once the passes have room for it and for
      everything that lapsed meanwhile. */
  lemma StartBacklogIsGone(h: seq<Db>, works: seq<seq<BookingId>>, gaps: seq<nat>, limit: nat)
    requires Passes(h, works, gaps, limit) && LinesAllKnown(h[0])
    requires |works| * limit >= |Lapsed(h[0])| + TotalArrived(h, works)
    ensures StillWaiting(h) == {}
  {
    FullPassesUntilGone(h, works, gaps, limit);
    BacklogIsConserved(h, works, gaps, limit);
  }
}
