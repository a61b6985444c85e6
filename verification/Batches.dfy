/** Oldest-first batches over a backlog in which some rows never go: the
    shape the outbox drain and the announcement fan-out share. A backlog says
    of each row, oldest first, whether it is still pending; `stuck` says which
    rows every attempt leaves behind. */
module Batches {

  type Stuck = nat -> bool

  /** How many of the first n indices the weight picks. */
  ghost function Count(n: nat, picks: nat -> bool): nat {
    if n == 0 then 0 else Count(n - 1, picks) + (if picks(n - 1) then 1 else 0)
  }

  function Pending(p: seq<bool>): nat -> bool {
    (i: nat) => i < |p| && p[i]
  }

  function StuckIn(p: seq<bool>, stuck: Stuck): nat -> bool {
    (i: nat) => i < |p| && p[i] && stuck(i)
  }

  function GoodIn(p: seq<bool>, stuck: Stuck): nat -> bool {
    (i: nat) => i < |p| && p[i] && !stuck(i)
  }

  /** Pending rows older than row i. */
  ghost function Rank(p: seq<bool>, i: nat): nat {
    Count(i, Pending(p))
  }

  /** A row is in the next batch when fewer than `limit` pending rows are older. */
  ghost predicate Taken(p: seq<bool>, limit: nat, i: nat) {
    i < |p| && p[i] && Rank(p, i) < limit
  }

  /** The backlog after one batch: the stuck rows of the batch stay. */
  ghost function Drain(p: seq<bool>, stuck: Stuck, limit: nat): seq<bool> {
    seq(|p|, i requires 0 <= i < |p| => p[i] && !(Taken(p, limit, i) && !stuck(i)))
  }

  lemma {:induction false} CountSame(n: nat, a: nat -> bool, b: nat -> bool)
    requires forall i: nat :: i < n ==> a(i) == b(i)
    ensures Count(n, a) == Count(n, b)
  {
    if n > 0 {
      CountSame(n - 1, a, b);
    }
  }

  lemma {:induction false} CountMonotone(m: nat, n: nat, a: nat -> bool)
    requires m <= n
    ensures Count(m, a) <= Count(n, a) <= Count(m, a) + (n - m)
  {
    if m < n {
      CountMonotone(m, n - 1, a);
    }
  }

  lemma {:induction false} PendingSplits(p: seq<bool>, stuck: Stuck, g: nat)
    ensures Rank(p, g) == Count(g, StuckIn(p, stuck)) + Count(g, GoodIn(p, stuck))
  {
    if g > 0 {
      PendingSplits(p, stuck, g - 1);
    }
  }

  /** One batch, seen from row g: it takes the g-older pending rows up to the
      limit, leaves every stuck one, and so removes all but the stuck ones of
      those it took. */
  lemma {:induction false} BatchBefore(p: seq<bool>, stuck: Stuck, limit: nat, g: nat)
    ensures var q := Drain(p, stuck, limit);
      && Count(g, StuckIn(q, stuck)) == Count(g, StuckIn(p, stuck))
      && Count(g, GoodIn(q, stuck)) <= Count(g, GoodIn(p, stuck))
      && (Rank(p, g) <= limit ==> Count(g, GoodIn(q, stuck)) == 0)
      && (Rank(p, g) >= limit ==>
            Count(g, GoodIn(q, stuck)) + limit <= Count(g, GoodIn(p, stuck)) + Count(g, StuckIn(p, stuck)))
  {
    if g > 0 {
      var q := Drain(p, stuck, limit);
      BatchBefore(p, stuck, limit, g - 1);
      PendingSplits(p, stuck, g - 1);
      PendingSplits(p, stuck, g);
      assert Pending(p)(g - 1) && Rank(p, g - 1) < limit ==> Taken(p, limit, g - 1);
      assert GoodIn(q, stuck)(g - 1) ==> GoodIn(p, stuck)(g - 1) && Rank(p, g - 1) >= limit;
    }
  }

  /** Batches one after another; `arrivals` new rows join at the young end
      after each. */
  ghost function Drains(p: seq<bool>, stuck: Stuck, limit: nat, arrivals: seq<nat>): seq<bool>
    decreases |arrivals|
  {
    if arrivals == [] then p
    else Drains(Drain(p, stuck, limit) + seq(arrivals[0], _ => true), stuck, limit, arrivals[1..])
  }

  lemma OlderRowsOnly(p: seq<bool>, tail: seq<bool>, stuck: Stuck, g: nat)
    requires g <= |p|
    ensures Rank(p + tail, g) == Rank(p, g)
    ensures Count(g, StuckIn(p + tail, stuck)) == Count(g, StuckIn(p, stuck))
    ensures Count(g, GoodIn(p + tail, stuck)) == Count(g, GoodIn(p, stuck))
  {
    CountSame(g, Pending(p + tail), Pending(p));
    CountSame(g, StuckIn(p + tail, stuck), StuckIn(p, stuck));
    CountSame(g, GoodIn(p + tail, stuck), GoodIn(p, stuck));
  }

  /** With `limit` or more stuck rows ahead of it, a row is never reached,
      however many batches run. */
  lemma {:induction false} BlockedForever(p: seq<bool>, stuck: Stuck, limit: nat, g: nat, arrivals: seq<nat>)
    requires g < |p| && p[g] && Count(g, StuckIn(p, stuck)) >= limit
    ensures g < |Drains(p, stuck, limit, arrivals)| && Drains(p, stuck, limit, arrivals)[g]
    decreases |arrivals|
  {
    if arrivals != [] {
      var q := Drain(p, stuck, limit);
      BatchBefore(p, stuck, limit, g);
      PendingSplits(p, stuck, g);
      OlderRowsOnly(q, seq(arrivals[0], _ => true), stuck, g);
      assert !Taken(p, limit, g) && q[g];
      BlockedForever(q + seq(arrivals[0], _ => true), stuck, limit, g, arrivals[1..]);
    }
  }

  lemma {:induction false} GoneStaysGone(p: seq<bool>, stuck: Stuck, limit: nat, g: nat, arrivals: seq<nat>)
    requires g < |p| && !p[g]
    ensures g < |Drains(p, stuck, limit, arrivals)| && !Drains(p, stuck, limit, arrivals)[g]
    decreases |arrivals|
  {
    if arrivals != [] {
      GoneStaysGone(Drain(p, stuck, limit) + seq(arrivals[0], _ => true), stuck, limit, g, arrivals[1..]);
    }
  }

  lemma OneBatchLess(n: nat, free: int)
    ensures n * free == free + (n - 1) * free
  {
  }

  lemma TimesAtLeastOne(n: nat, k: nat)
    requires k > 0
    ensures n * k >= n
  {
  }

  /** With fewer, every batch brings it closer by what the stuck rows leave
      free, so it goes within that many batches, whatever arrives behind it. */
  lemma {:induction false} ReachedInTime(p: seq<bool>, stuck: Stuck, limit: nat, g: nat, arrivals: seq<nat>)
    requires g < |p| && !stuck(g) && Count(g, StuckIn(p, stuck)) < limit
    requires |arrivals| * (limit - Count(g, StuckIn(p, stuck))) > Count(g, GoodIn(p, stuck))
    ensures g < |Drains(p, stuck, limit, arrivals)| && !Drains(p, stuck, limit, arrivals)[g]
    decreases |arrivals|
  {
    var tail := seq(arrivals[0], _ => true);
    var q := Drain(p, stuck, limit);
    var free := limit - Count(g, StuckIn(p, stuck));
    BatchBefore(p, stuck, limit, g);
    PendingSplits(p, stuck, g);
    OlderRowsOnly(q, tail, stuck, g);
    if !p[g] || Rank(p, g) < limit {
      GoneStaysGone(q + tail, stuck, limit, g, arrivals[1..]);
    } else {
      OneBatchLess(|arrivals|, free);
      assert limit - Count(g, StuckIn(q + tail, stuck)) == free;
      ReachedInTime(q + tail, stuck, limit, g, arrivals[1..]);
    }
  }

  /** The exact condition: a row that can go does go, after finitely many
      batches, if and only if fewer than `limit` stuck rows are ahead of it. */
  lemma GoesEventuallyIff(p: seq<bool>, stuck: Stuck, limit: nat, g: nat)
    requires g < |p| && p[g] && !stuck(g)
    ensures (exists n: nat :: !Survives(p, stuck, limit, g, n)) <==> Count(g, StuckIn(p, stuck)) < limit
  {
    if Count(g, StuckIn(p, stuck)) < limit {
      GoesAfter(p, stuck, limit, g, Count(g, GoodIn(p, stuck)) + 1);
    } else {
      forall n: nat ensures Survives(p, stuck, limit, g, n) {
        BlockedForever(p, stuck, limit, g, Quiet(n));
      }
    }
  }

  lemma GoesAfter(p: seq<bool>, stuck: Stuck, limit: nat, g: nat, n: nat)
    requires g < |p| && !stuck(g) && Count(g, StuckIn(p, stuck)) < limit
    requires n > Count(g, GoodIn(p, stuck))
    ensures !Survives(p, stuck, limit, g, n)
  {
    var free := limit - Count(g, StuckIn(p, stuck));
    TimesAtLeastOne(n, free);
    assert |Quiet(n)| == n;
    ReachedInTime(p, stuck, limit, g, Quiet(n));
  }

  /** n batches with nothing arriving. */
  function Quiet(n: nat): seq<nat> {
    seq(n, _ => 0)
  }

  /** Row g is still pending after n batches. */
  ghost predicate Survives(p: seq<bool>, stuck: Stuck, limit: nat, g: nat, n: nat) {
    var after := Drains(p, stuck, limit, Quiet(n));
    g < |after| && after[g]
  }

  // --- the batch as the query returns it -----------------------------------

  /** The first `limit` pending rows from row i on, oldest first. */
  function BatchFrom(p: seq<bool>, i: nat, limit: nat): seq<nat>
    requires i <= |p|
    decreases |p| - i
  {
    if i == |p| || limit == 0 then []
    else if p[i] then [i] + BatchFrom(p, i + 1, limit - 1)
    else BatchFrom(p, i + 1, limit)
  }

  function Batch(p: seq<bool>, limit: nat): seq<nat> {
    BatchFrom(p, 0, limit)
  }

  ghost predicate Increasing(s: seq<nat>) {
    forall i, j :: 0 <= i < j < |s| ==> s[i] < s[j]
  }

  lemma {:induction false} BatchFromIs(p: seq<bool>, i: nat, limit: nat, k: nat)
    requires i <= |p| && Rank(p, i) <= k && limit == k - Rank(p, i)
    ensures var batch := BatchFrom(p, i, limit);
      Increasing(batch) && forall j :: j in batch <==> j >= i && Taken(p, k, j)
    decreases |p| - i
  {
    if i < |p| && limit > 0 {
      var rest := BatchFrom(p, i + 1, if p[i] then limit - 1 else limit);
      BatchFromIs(p, i + 1, if p[i] then limit - 1 else limit, k);
      forall a | 0 <= a < |rest| ensures rest[a] > i {
        assert rest[a] in rest;
      }
    } else {
      forall j | j >= i && Taken(p, k, j) ensures false {
        CountMonotone(i, j, Pending(p));
      }
    }
  }

  lemma {:induction false} BatchFromLength(p: seq<bool>, i: nat, limit: nat, k: nat)
    requires i <= |p| && Rank(p, i) <= k && limit == k - Rank(p, i)
    ensures |BatchFrom(p, i, limit)| <= limit
    ensures |BatchFrom(p, i, limit)| == limit <==> Rank(p, |p|) >= k
    decreases |p| - i
  {
    CountMonotone(i, |p|, Pending(p));
    if i < |p| && limit > 0 {
      BatchFromLength(p, i + 1, if p[i] then limit - 1 else limit, k);
    }
  }

  lemma IncreasingIsDistinct(s: seq<nat>, k: nat)
    requires Increasing(s) && k < |s|
    ensures s[k] !in s[..k] && s[..k + 1] == s[..k] + [s[k]]
  {
  }

  /** The query's batch is exactly the rows taken, oldest first, and it is
      full exactly when at least `limit` rows are pending. */
  lemma BatchIsTaken(p: seq<bool>, limit: nat)
    ensures var batch := Batch(p, limit);
      && Increasing(batch) && |batch| <= limit
      && (|batch| == limit <==> Rank(p, |p|) >= limit)
      && forall j :: j in batch <==> Taken(p, limit, j)
  {
    BatchFromIs(p, 0, limit, limit);
    BatchFromLength(p, 0, limit, limit);
  }
}
