/** The transactional outbox (core/outbox.py). */
module Outbox {
  import opened Seqs
  import opened Tables
  import opened Batches

  // --- one drain on its own ------------------------------------------------

  /** Which rows have no publication time yet. */
  function PendingRows(publishedAt: seq<Option<Time>>): seq<bool> {
    seq(|publishedAt|, i requires 0 <= i < |publishedAt| => publishedAt[i].None?)
  }

  datatype Recorded = RecordedAt(id: nat) | OutsideTransaction

  /** Event g does not fail for ever, fewer than a batch of failing ones are
      before it, and the drains outnumber the publishable ones before it. */
  ghost predicate InReach(p: seq<bool>, fails: Stuck, batchSize: nat, drains: nat, g: nat) {
    !fails(g) && Count(g, StuckIn(p, fails)) < batchSize && drains > Count(g, GoodIn(p, fails))
  }

  class OutboxTable {
    var publishedAt: seq<Option<Time>>  // one row per event, in creation order
    var clock: Time

    constructor (now: Time)
      ensures publishedAt == [] && clock == now
    {
      publishedAt, clock := [], now;
    }

    /** Only inside the transaction of the change it describes. */
    method RecordEvent(inAtomicBlock: bool) returns (r: Recorded)
      modifies this`publishedAt
      ensures !inAtomicBlock ==> r == OutsideTransaction && publishedAt == old(publishedAt)
      ensures inAtomicBlock ==> r == RecordedAt(|old(publishedAt)|) && publishedAt == old(publishedAt) + [None]
    {
      if !inAtomicBlock { return OutsideTransaction; }
      r := RecordedAt(|publishedAt|);
      publishedAt := publishedAt + [None];
    }

    /** Publish up to `batchSize` unpublished events, oldest first. `fails`
        says whose handler raises in this drain; those stay for the next. */
    method PublishPending(batchSize: nat, fails: Stuck) returns (publishedCount: nat)
      modifies this`publishedAt
      ensures |publishedAt| == |old(publishedAt)|
      ensures PendingRows(publishedAt) == Drain(PendingRows(old(publishedAt)), fails, batchSize)
      ensures forall i :: 0 <= i < |publishedAt| ==>
                publishedAt[i] == old(publishedAt)[i] || (old(publishedAt)[i] == None && publishedAt[i] == Some(clock))
      ensures publishedCount == |set i: nat | i < |publishedAt| && publishedAt[i] != old(publishedAt)[i]|
    {
      ghost var p := PendingRows(publishedAt);
      var events := Batch(PendingRows(publishedAt), batchSize);
      BatchIsTaken(p, batchSize);
      publishedCount := 0;
      ghost var gone: set<nat> := {};
      for k := 0 to |events|
        invariant |publishedAt| == |old(publishedAt)|
        invariant forall i :: 0 <= i < |publishedAt| ==>
                    publishedAt[i] == if i in gone then Some(clock) else old(publishedAt)[i]
        invariant forall i :: i in gone <==> i in events[..k] && !fails(i)
        invariant publishedCount == |gone|
      {
        assert events[k] in events;
        assert Taken(p, batchSize, events[k]);
        IncreasingIsDistinct(events, k);
        if !fails(events[k]) {
          publishedAt := publishedAt[events[k] := Some(clock)];
          publishedCount := publishedCount + 1;
          gone := gone + {events[k]};
        }
      }
      assert events[..|events|] == events;
      PublishedAreTaken(old(publishedAt), publishedAt, fails, batchSize, gone, clock);
    }

    /** The scheduled drain, run once per entry of `recorded`, which says how
        many events are recorded after it. With `fails` the events that fail
        for ever, every event in reach is marked published, and no mark is
        ever moved. */
    method DrainOnSchedule(batchSize: nat, fails: Stuck, recorded: seq<nat>)
      modifies this`publishedAt
      ensures PendingRows(publishedAt) == Drains(PendingRows(old(publishedAt)), fails, batchSize, recorded)
      ensures |old(publishedAt)| <= |publishedAt|
      ensures forall g :: 0 <= g < |old(publishedAt)| && old(publishedAt)[g].Some? ==>
                publishedAt[g] == old(publishedAt)[g]
      ensures var p := PendingRows(old(publishedAt));
        forall g :: 0 <= g < |p| && InReach(p, fails, batchSize, |recorded|, g) ==> publishedAt[g].Some?
    {
      for k := 0 to |recorded|
        invariant |old(publishedAt)| <= |publishedAt|
        invariant forall g :: 0 <= g < |old(publishedAt)| && old(publishedAt)[g].Some? ==>
                    publishedAt[g] == old(publishedAt)[g]
        invariant Drains(PendingRows(publishedAt), fails, batchSize, recorded[k..])
               == Drains(PendingRows(old(publishedAt)), fails, batchSize, recorded)
      {
        ghost var p := PendingRows(publishedAt);
        var _ := PublishPending(batchSize, fails);
        ghost var drained := publishedAt;
        for n := 0 to recorded[k]
          invariant publishedAt == drained + seq(n, _ => None)
        {
          var _ := RecordEvent(true);
        }
        assert PendingRows(publishedAt) == Drain(p, fails, batchSize) + seq(recorded[k], _ => true);
        assert recorded[k..][1..] == recorded[k + 1..];
      }
      ghost var p := PendingRows(old(publishedAt));
      forall g | 0 <= g < |p| && InReach(p, fails, batchSize, |recorded|, g) ensures publishedAt[g].Some? {
        TimesAtLeastOne(|recorded|, batchSize - Count(g, StuckIn(p, fails)));
        ReachedInTime(p, fails, batchSize, g, recorded);
        assert !PendingRows(publishedAt)[g];
      }
    }
  }

  lemma PublishedAreTaken(before: seq<Option<Time>>, after: seq<Option<Time>>, fails: Stuck, limit: nat,
                          gone: set<nat>, now: Time)
    requires |before| == |after|
    requires forall i :: i in gone <==> Taken(PendingRows(before), limit, i) && !fails(i)
    requires forall i :: 0 <= i < |after| ==> after[i] == if i in gone then Some(now) else before[i]
    ensures PendingRows(after) == Drain(PendingRows(before), fails, limit)
    ensures forall i :: 0 <= i < |after| ==> after[i] == before[i] || (before[i] == None && after[i] == Some(now))
    ensures gone == set i: nat | i < |after| && after[i] != before[i]
  {
  }

  // --- concurrent drains ---------------------------------------------------

  /** A drain in its transaction: the rows it locked, those it has handled, and
      those among them it has marked, not yet committed. */
  datatype DrainTx = DrainTx(held: seq<nat>, handled: set<nat>, marked: set<nat>)

  datatype State = State(
    published: seq<bool>,
    drains: map<nat, DrainTx>,
    delivered: multiset<nat>,  // handlers that ran to the end
    forgotten: multiset<nat>)  // marks rolled back by a crash

  datatype Action =
    | Record
    | Begin(drain: nat, limit: nat)
    | Handle(drain: nat, event: nat, ok: bool)
    | Commit(drain: nat)
    | Crash(drain: nat)

  predicate Locked(s: State, i: nat) {
    exists d :: d in s.drains && i in s.drains[d].held
  }

  predicate Marked(s: State, i: nat) {
    exists d :: d in s.drains && i in s.drains[d].marked
  }

  /** What SELECT ... FOR UPDATE SKIP LOCKED sees. */
  function FreeRows(s: State): seq<bool> {
    seq(|s.published|, i requires 0 <= i < |s.published| => !s.published[i] && !Locked(s, i))
  }

  function Step(s: State, a: Action): State {
    match a
    case Record => s.(published := s.published + [false])
    case Begin(d, limit) =>
      if d in s.drains then s
      else s.(drains := s.drains[d := DrainTx(Batch(FreeRows(s), limit), {}, {})])
    case Handle(d, i, ok) =>
      if d !in s.drains || i !in s.drains[d].held || i in s.drains[d].handled then s
      else
        var tx := s.drains[d];
        if ok then s.(drains := s.drains[d := tx.(handled := tx.handled + {i}, marked := tx.marked + {i})],
                      delivered := s.delivered + multiset{i})
        else s.(drains := s.drains[d := tx.(handled := tx.handled + {i})])
    case Commit(d) =>
      if d !in s.drains then s
      else s.(published := seq(|s.published|, i requires 0 <= i < |s.published| =>
                             s.published[i] || i in s.drains[d].marked),
              drains := s.drains - {d})
    case Crash(d) =>
      if d !in s.drains then s
      else s.(drains := s.drains - {d}, forgotten := s.forgotten + multiset(s.drains[d].marked))
  }

  function Run(s: State, acts: seq<Action>): State
    decreases |acts|
  {
    if acts == [] then s else Step(Run(s, acts[..|acts| - 1]), acts[|acts| - 1])
  }

  /** No two drains hold one row. */
  ghost predicate HoldsDisjoint(s: State) {
    forall d, e, i :: d in s.drains && e in s.drains && i in s.drains[d].held && i in s.drains[e].held ==> d == e
  }

  ghost predicate HeldAreUnpublished(s: State) {
    forall d :: d in s.drains ==>
      && s.drains[d].marked <= s.drains[d].handled
      && forall i :: (i in s.drains[d].held ==> i < |s.published| && !s.published[i])
                     && (i in s.drains[d].handled ==> i in s.drains[d].held)
  }

  function Once(b: bool): nat {
    if b then 1 else 0
  }

  /** Every delivery of an event is accounted for: the one its mark stands
      for, committed or in flight, and those a crash forgot. */
  ghost predicate DeliveriesAddUp(s: State) {
    forall i: nat :: s.delivered[i] == Once(i < |s.published| && s.published[i]) + Once(Marked(s, i)) + s.forgotten[i]
  }

  ghost predicate Inv(s: State) {
    HoldsDisjoint(s) && HeldAreUnpublished(s) && DeliveriesAddUp(s)
  }

  lemma BeginKeeps(s: State, d: nat, limit: nat)
    requires Inv(s)
    ensures Inv(Step(s, Begin(d, limit)))
  {
    if d !in s.drains {
      var after := Step(s, Begin(d, limit));
      BatchIsTaken(FreeRows(s), limit);
      forall i | i in after.drains[d].held ensures i < |s.published| && !s.published[i] && !Locked(s, i) {
        assert Taken(FreeRows(s), limit, i);
      }
      forall i: nat ensures Marked(after, i) <==> Marked(s, i) {
        if Marked(s, i) {
          var e :| e in s.drains && i in s.drains[e].marked;
          assert after.drains[e] == s.drains[e];
        }
      }
    }
  }

  lemma HandleKeeps(s: State, d: nat, i: nat, ok: bool)
    requires Inv(s)
    ensures Inv(Step(s, Handle(d, i, ok)))
  {
    var after := Step(s, Handle(d, i, ok));
    if d in s.drains && i in s.drains[d].held && i !in s.drains[d].handled {
      forall k: nat ensures Marked(after, k) <==> Marked(s, k) || (ok && k == i) {
        if Marked(s, k) {
          var e :| e in s.drains && k in s.drains[e].marked;
          assert k in after.drains[e].marked;
        }
        if ok && k == i { assert k in after.drains[d].marked; }
      }
      assert !Marked(s, i) by {
        forall e | e in s.drains ensures i !in s.drains[e].marked {
          MarkedAreHeld(s, e, i);
        }
      }
    }
  }

  lemma MarkedAreHeld(s: State, d: nat, i: nat)
    requires HeldAreUnpublished(s) && d in s.drains
    ensures i in s.drains[d].marked ==> i in s.drains[d].handled && i in s.drains[d].held
  {
  }

  lemma LeavingUnmarks(s: State, d: nat, i: nat)
    requires Inv(s) && d in s.drains
    ensures Marked(s, i) <==> i in s.drains[d].marked || Marked(s.(drains := s.drains - {d}), i)
    ensures i in s.drains[d].marked ==> !Marked(s.(drains := s.drains - {d}), i)
  {
    var after := s.(drains := s.drains - {d});
    if Marked(s, i) && i !in s.drains[d].marked {
      var e :| e in s.drains && i in s.drains[e].marked;
      assert e in after.drains && i in after.drains[e].marked;
    }
    if i in s.drains[d].marked {
      forall e | e in after.drains ensures i !in after.drains[e].marked {
        MarkedAreHeld(s, e, i);
        MarkedAreHeld(s, d, i);
      }
    }
  }

  lemma LeaveKeeps(s: State, d: nat, a: Action)
    requires Inv(s) && (a == Commit(d) || a == Crash(d))
    ensures Inv(Step(s, a))
  {
    if d in s.drains {
      var after := Step(s, a);
      forall i: nat
        ensures after.delivered[i]
             == Once(i < |after.published| && after.published[i]) + Once(Marked(after, i)) + after.forgotten[i]
      {
        LeavingUnmarks(s, d, i);
        var left := s.(drains := s.drains - {d});
        assert Marked(after, i) <==> Marked(left, i);
        MarkedAreHeld(s, d, i);
      }
      forall e, i | e in after.drains && i in after.drains[e].held
        ensures i < |after.published| && !after.published[i]
      {
        MarkedAreHeld(s, d, i);
      }
    }
  }

  lemma StepKeeps(s: State, a: Action)
    requires Inv(s)
    ensures Inv(Step(s, a))
    ensures |s.published| <= |Step(s, a).published|
    ensures forall i :: 0 <= i < |s.published| && s.published[i] ==> Step(s, a).published[i]
  {
    match a
    case Record => RecordKeeps(s);
    case Begin(d, limit) => BeginKeeps(s, d, limit);
    case Handle(d, i, ok) => HandleKeeps(s, d, i, ok);
    case Commit(d) => LeaveKeeps(s, d, a);
    case Crash(d) => LeaveKeeps(s, d, a);
  }

  lemma RecordKeeps(s: State)
    requires Inv(s)
    ensures Inv(Step(s, Record))
  {
    var after := Step(s, Record);
    forall i: nat ensures Marked(after, i) <==> Marked(s, i) {}
  }

  /** Under any interleaving of drains, commits and crashes: no two drains hold
      the same row, a published mark is never undone, and an event's handlers
      have completed exactly as often as its mark and the crashes account for,
      so more than once only if a drain crashed after delivering it. */
  lemma {:induction false} EveryRunIsSafe(s: State, acts: seq<Action>)
    requires Inv(s)
    ensures var now := Run(s, acts);
      && Inv(now)
      && |s.published| <= |now.published|
      && (forall i :: 0 <= i < |s.published| && s.published[i] ==> now.published[i])
      && (forall i: nat :: now.delivered[i] <= 1 + now.forgotten[i])
    decreases |acts|
  {
    if acts != [] {
      EveryRunIsSafe(s, acts[..|acts| - 1]);
      StepKeeps(Run(s, acts[..|acts| - 1]), acts[|acts| - 1]);
    }
    var now := Run(s, acts);
    forall i: nat ensures now.delivered[i] <= 1 + now.forgotten[i] {
      if Marked(now, i) { MarkedIsUnpublished(now, i); }
    }
  }

  lemma MarkedIsUnpublished(s: State, i: nat)
    requires Inv(s) && Marked(s, i)
    ensures i < |s.published| && !s.published[i]
  {
    var d :| d in s.drains && i in s.drains[d].marked;
    assert i in s.drains[d].held;
  }

  // --- progress ------------------------------------------------------------

  /** When events that fail forever are fewer than a batch, every other event
      is published by successive drains, new events or not, in no more drains
      than there are publishable events up to it. */
  lemma EveryGoodEventIsPublished(p: seq<bool>, failing: Stuck, batchSize: nat, g: nat, arrivals: seq<nat>)
    requires g < |p| && !failing(g)
    requires Count(|p|, StuckIn(p, failing)) < batchSize
    requires |arrivals| > Count(g, GoodIn(p, failing))
    ensures g < |Drains(p, failing, batchSize, arrivals)| && !Drains(p, failing, batchSize, arrivals)[g]
  {
    CountMonotone(g, |p|, StuckIn(p, failing));
    var free := batchSize - Count(g, StuckIn(p, failing));
    TimesAtLeastOne(|arrivals|, free);
    ReachedInTime(p, failing, batchSize, g, arrivals);
  }
}
