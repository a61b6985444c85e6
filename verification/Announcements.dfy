/** The announcement fan-out (apps/announcements): delivery rows created in
    counted chunks, then handed to notifications by a job that re-enqueues
    itself. One announcement's rows; oldest first is insertion order. */
module Announcements {
  import opened Seqs
  import opened Batches

  type SubscriberId = nat
  type LogId = nat

  const INSERT_CHUNK: nat := 1000

  datatype Subscriber = Subscriber(email: string, subscribed: bool)

  /** `press` is whose INSERT the row's primary key came from. */
  datatype Delivery = Delivery(subscriber: SubscriberId, log: Option<LogId>, press: nat)

  // --- creating the rows ---------------------------------------------------

  predicate Reached(rows: seq<Delivery>, s: SubscriberId) {
    exists i :: 0 <= i < |rows| && rows[i].subscriber == s
  }

  /** INSERT ... ON CONFLICT DO NOTHING over (announcement, subscriber). */
  function InsertIgnoring(rows: seq<Delivery>, ids: seq<SubscriberId>, press: nat): seq<Delivery>
    decreases |ids|
  {
    if ids == [] then rows
    else if Reached(rows, ids[0]) then InsertIgnoring(rows, ids[1..], press)
    else InsertIgnoring(rows + [Delivery(ids[0], None, press)], ids[1..], press)
  }

  ghost predicate OnePerSubscriber(rows: seq<Delivery>) {
    forall i, j :: 0 <= i < j < |rows| ==> rows[i].subscriber != rows[j].subscriber
  }

  function ByPress(press: nat): Delivery -> nat {
    (d: Delivery) => if d.press == press then 1 else 0
  }

  function CreatedBy(rows: seq<Delivery>, press: nat): nat {
    Sum(rows, ByPress(press))
  }

  /** An insert only appends, everyone asked for ends up with a row, nobody
      with two, and every appended row is this press's own. */
  lemma {:induction false} InsertAppends(rows: seq<Delivery>, ids: seq<SubscriberId>, press: nat)
    ensures var after := InsertIgnoring(rows, ids, press);
      && rows <= after
      && (OnePerSubscriber(rows) ==> OnePerSubscriber(after))
      && (forall s :: s in ids ==> Reached(after, s))
      && (forall i :: |rows| <= i < |after| ==>
            after[i].subscriber in ids && after[i] == Delivery(after[i].subscriber, None, press))
      && CreatedBy(after, press) == CreatedBy(rows, press) + (|after| - |rows|)
      && forall other :: other != press ==> CreatedBy(after, other) == CreatedBy(rows, other)
    decreases |ids|
  {
    if ids != [] {
      var next := if Reached(rows, ids[0]) then rows else rows + [Delivery(ids[0], None, press)];
      forall p ensures CreatedBy(rows + [Delivery(ids[0], None, press)], p)
                    == CreatedBy(rows, p) + (if p == press then 1 else 0)
      {
        SumAppend(rows, Delivery(ids[0], None, press), ByPress(p));
      }
      InsertAppends(next, ids[1..], press);
      var after := InsertIgnoring(next, ids[1..], press);
      assert Reached(next, ids[0]) by {
        assert !Reached(rows, ids[0]) ==> next[|rows|].subscriber == ids[0];
      }
      ReachedStays(next, after, ids[0]);
      forall s | s in ids ensures Reached(after, s) {
        assert s == ids[0] || s in ids[1..];
      }
    }
  }

  lemma ReachedStays(rows: seq<Delivery>, after: seq<Delivery>, s: SubscriberId)
    requires rows <= after && Reached(rows, s)
    ensures Reached(after, s)
  {
    var i :| 0 <= i < |rows| && rows[i].subscriber == s;
    assert after[i].subscriber == s;
  }

  // --- one fan-out run -----------------------------------------------------

  function PendingRows(rows: seq<Delivery>): seq<bool> {
    seq(|rows|, i requires 0 <= i < |rows| => rows[i].log.None?)
  }

  /** Rows this run leaves behind: the subscriber left, or notify has nobody
      to send to. */
  predicate Skipped(rows: seq<Delivery>, subscribers: map<SubscriberId, Subscriber>, i: nat) {
    i < |rows| &&
    (rows[i].subscriber !in subscribers || !subscribers[rows[i].subscriber].subscribed
     || subscribers[rows[i].subscriber].email == "")
  }

  /** The recipient is known, still subscribed and has an address. */
  predicate Wanted(d: Delivery, subscribers: map<SubscriberId, Subscriber>) {
    && d.subscriber in subscribers && subscribers[d.subscriber].subscribed
    && subscribers[d.subscriber].email != ""
  }

  /** Some wanted delivery goes to this address. */
  predicate AddressWanted(rows: seq<Delivery>, subscribers: map<SubscriberId, Subscriber>, e: string) {
    exists i :: 0 <= i < |rows| && Wanted(rows[i], subscribers) && subscribers[rows[i].subscriber].email == e
  }

  /** Nothing is sent to an address no wanted delivery has. */
  ghost predicate OnlyToWanted(rows: seq<Delivery>, subscribers: map<SubscriberId, Subscriber>,
                               before: map<string, LogId>, after: map<string, LogId>)
  {
    forall e :: e in after && e !in before ==> AddressWanted(rows, subscribers, e)
  }

  lemma SameAddressesWanted(a: seq<Delivery>, b: seq<Delivery>, subscribers: map<SubscriberId, Subscriber>, e: string)
    requires |a| == |b| && (forall i :: 0 <= i < |a| ==> a[i].subscriber == b[i].subscriber)
    requires AddressWanted(b, subscribers, e)
    ensures AddressWanted(a, subscribers, e)
  {
    var i :| 0 <= i < |b| && Wanted(b[i], subscribers) && subscribers[b[i].subscriber].email == e;
    assert Wanted(a[i], subscribers);
  }

  function SkippedRows(rows: seq<Delivery>, subscribers: map<SubscriberId, Subscriber>): Stuck {
    (i: nat) => Skipped(rows, subscribers, i)
  }

  /** Whether a task re-enqueues itself: a full, non-empty batch came back. */
  ghost predicate Requeues(p: seq<bool>, limit: nat) {
    limit > 0 && Rank(p, |p|) >= limit
  }

  /** The row now carries the id of the log its subscriber's address has. */
  predicate HandedOver(before: Delivery, after: Delivery, subscribers: map<SubscriberId, Subscriber>,
                       ledger: map<string, LogId>)
  {
    && before.log.None? && before.subscriber in subscribers
    && subscribers[before.subscriber].email in ledger
    && after == before.(log := Some(ledger[subscribers[before.subscriber].email]))
  }

  ghost predicate SentSoFar(before: seq<Delivery>, after: seq<Delivery>, subscribers: map<SubscriberId, Subscriber>,
                            ledger: map<string, LogId>, handed: set<nat>)
  {
    && |before| == |after|
    && forall i :: 0 <= i < |after| ==>
         if i in handed then HandedOver(before[i], after[i], subscribers, ledger) else after[i] == before[i]
  }

  lemma SendingOneMore(before: seq<Delivery>, mid: seq<Delivery>, after: seq<Delivery>,
                       subscribers: map<SubscriberId, Subscriber>, known: map<string, LogId>,
                       ledger: map<string, LogId>, handed: set<nat>, i: nat, ok: bool)
    requires SentSoFar(before, mid, subscribers, known, handed) && i < |mid| == |after| && i !in handed
    requires forall e :: e in known ==> e in ledger && ledger[e] == known[e]
    requires if ok then HandedOver(mid[i], after[i], subscribers, ledger) && after == mid[i := after[i]]
             else after == mid
    ensures SentSoFar(before, after, subscribers, ledger, if ok then handed + {i} else handed)
  {
    forall j | 0 <= j < |after| && j in handed ensures HandedOver(before[j], after[j], subscribers, ledger) {
      assert HandedOver(before[j], mid[j], subscribers, known);
    }
  }

  /** Every row is as it was, or was handed over. */
  ghost predicate SentOrLeft(before: seq<Delivery>, after: seq<Delivery>, subscribers: map<SubscriberId, Subscriber>,
                             ledger: map<string, LogId>)
  {
    && |before| == |after|
    && forall i :: 0 <= i < |after| ==>
         after[i] == before[i] ||
         (!Skipped(before, subscribers, i) && HandedOver(before[i], after[i], subscribers, ledger))
  }

  ghost predicate OnlySkippedPending(rows: seq<Delivery>, skipped: Stuck) {
    forall i :: 0 <= i < |rows| && rows[i].log.None? ==> skipped(i)
  }

  lemma SameSubscribersSkipped(before: seq<Delivery>, after: seq<Delivery>, subscribers: map<SubscriberId, Subscriber>)
    requires |before| == |after| && forall i :: 0 <= i < |after| ==> after[i].subscriber == before[i].subscriber
    ensures forall i: nat :: Skipped(before, subscribers, i) <==> Skipped(after, subscribers, i)
  {
  }

  lemma SameSkippedDrain(p: seq<bool>, a: Stuck, b: Stuck, limit: nat)
    requires forall i: nat :: i < |p| ==> a(i) == b(i)
    ensures Drain(p, a, limit) == Drain(p, b, limit)
  {
  }

  lemma SentTwice(first: seq<Delivery>, mid: seq<Delivery>, last: seq<Delivery>,
                  subscribers: map<SubscriberId, Subscriber>, known: map<string, LogId>, ledger: map<string, LogId>)
    requires SentOrLeft(first, mid, subscribers, known) && SentOrLeft(mid, last, subscribers, ledger)
    requires forall e :: e in known ==> e in ledger && ledger[e] == known[e]
    ensures SentOrLeft(first, last, subscribers, ledger)
  {
    forall i | 0 <= i < |last|
      ensures last[i] == first[i] ||
              (!Skipped(first, subscribers, i) && HandedOver(first[i], last[i], subscribers, ledger))
    {
      assert mid[i].subscriber == first[i].subscriber;
    }
  }

  lemma EveryRowIsSettled(before: seq<Delivery>, after: seq<Delivery>, subscribers: map<SubscriberId, Subscriber>,
                          ledger: map<string, LogId>)
    requires SentOrLeft(before, after, subscribers, ledger)
    requires OnlySkippedPending(after, SkippedRows(before, subscribers))
    ensures forall i :: 0 <= i < |after| ==>
              if before[i].log.Some? || Skipped(before, subscribers, i) then after[i] == before[i]
              else HandedOver(before[i], after[i], subscribers, ledger)
  {
  }

  class BroadcastService {
    var rows: seq<Delivery>
    var subscribers: map<SubscriberId, Subscriber>
    var ledger: map<string, LogId>  // notifications' log of this announcement, by address
    var sends: nat                  // messages handed over for sending
    var tasks: nat                  // fan-out jobs ever enqueued
    var ran: nat                    // and how many of them have run

    constructor (subscribers: map<SubscriberId, Subscriber>)
      ensures rows == [] && this.subscribers == subscribers && ledger == map[] && sends == 0 && tasks == 0 && ran == 0
    {
      rows, this.subscribers, ledger, sends, tasks, ran := [], subscribers, map[], 0, 0, 0;
    }

    /** Idempotent on the address: a second call returns the same log and
        sends nothing. */
    method Notify(email: string) returns (log: Option<LogId>)
      modifies this`ledger, this`sends
      ensures email == "" ==> log == None && ledger == old(ledger) && sends == old(sends)
      ensures email != "" && email in old(ledger) ==>
                log == Some(old(ledger)[email]) && ledger == old(ledger) && sends == old(sends)
      ensures email != "" && email !in old(ledger) ==>
                && log == Some(old(sends)) && ledger == old(ledger)[email := old(sends)]
                && sends == old(sends) + 1
    {
      if email == "" { return None; }
      if email in ledger { return Some(ledger[email]); }
      log := Some(sends);
      ledger := ledger[email := sends];
      sends := sends + 1;
    }

    /** One delivery of a batch: skip who left, notify, and attach the log id
        where none was written yet. */
    method HandOver(i: nat) returns (ok: bool)
      requires i < |rows| && rows[i].log.None?
      modifies this`rows, this`ledger, this`sends
      ensures ok <==> !Skipped(old(rows), subscribers, i)
      ensures var s := old(rows)[i].subscriber;
        && (ok <==> s in subscribers && subscribers[s].subscribed && subscribers[s].email != "")
        && forall e :: e in ledger && e !in old(ledger) ==> ok && e == subscribers[s].email
      ensures forall e :: e in old(ledger) ==> e in ledger && ledger[e] == old(ledger)[e]
      ensures sends - |ledger| == old(sends) - |old(ledger)|
      ensures !ok ==> rows == old(rows) && ledger == old(ledger) && sends == old(sends)
      ensures |rows| == |old(rows)|
      ensures ok ==> HandedOver(old(rows)[i], rows[i], subscribers, ledger) && rows == old(rows)[i := rows[i]]
    {
      ok := false;
      var s := rows[i].subscriber;
      if s in subscribers && subscribers[s].subscribed {
        var log := Notify(subscribers[s].email);
        if log.Some? {
          if rows[i].log.None? {
            rows := rows[i := rows[i].(log := log)];
          }
          ok := true;
        }
      }
    }

    /** The batch, one delivery after another. */
    method SendBatch(pending: seq<nat>) returns (sent: nat, ghost handed: set<nat>)
      requires Increasing(pending) && forall i :: i in pending ==> i < |rows| && rows[i].log.None?
      modifies this`rows, this`ledger, this`sends
      ensures sent == |handed| && sends - |ledger| == old(sends) - |old(ledger)|
      ensures forall e :: e in old(ledger) ==> e in ledger && ledger[e] == old(ledger)[e]
      ensures forall i :: i in handed <==> i in pending && !Skipped(old(rows), subscribers, i)
      ensures SentSoFar(old(rows), rows, subscribers, ledger, handed)
      ensures OnlyToWanted(old(rows), subscribers, old(ledger), ledger)
    {
      sent, handed := 0, {};
      for k := 0 to |pending|
        invariant sent == |handed| && sends - |ledger| == old(sends) - |old(ledger)|
        invariant forall e :: e in old(ledger) ==> e in ledger && ledger[e] == old(ledger)[e]
        invariant forall i :: i in handed <==> i in pending[..k] && !Skipped(old(rows), subscribers, i)
        invariant SentSoFar(old(rows), rows, subscribers, ledger, handed)
        invariant OnlyToWanted(old(rows), subscribers, old(ledger), ledger)
      {
        var i := pending[k];
        assert i in pending;
        IncreasingIsDistinct(pending, k);
        ghost var earlier, known := rows, ledger;
        assert rows[i] == old(rows)[i];
        SameSubscribersSkipped(old(rows), rows, subscribers);
        var ok := HandOver(i);
        forall e | e in ledger && e !in known ensures AddressWanted(old(rows), subscribers, e) {
          assert Wanted(old(rows)[i], subscribers);
        }
        SendingOneMore(old(rows), earlier, rows, subscribers, known, ledger, handed, i, ok);
        if ok {
          sent := sent + 1;
          handed := handed + {i};
        }
      }
      assert pending[..|pending|] == pending;
    }

    /** Hand up to `limit` unsent deliveries over, oldest first, and re-enqueue
        while a full batch came back. */
    method SendPending(announcementExists: bool, limit: nat) returns (sent: nat)
      modifies this`rows, this`ledger, this`sends, this`tasks
      ensures !announcementExists ==> rows == old(rows) && ledger == old(ledger) && tasks == old(tasks)
      ensures announcementExists ==>
                PendingRows(rows) == Drain(PendingRows(old(rows)), SkippedRows(old(rows), subscribers), limit)
      ensures announcementExists ==>
                tasks == old(tasks) + (if Requeues(PendingRows(old(rows)), limit) then 1 else 0)
      ensures sends - |ledger| == old(sends) - |old(ledger)|
      ensures forall e :: e in old(ledger) ==> e in ledger && ledger[e] == old(ledger)[e]
      ensures SentOrLeft(old(rows), rows, subscribers, ledger)
      ensures forall i :: 0 <= i < |rows| && !Wanted(old(rows)[i], subscribers) ==> rows[i] == old(rows)[i]
      ensures OnlyToWanted(old(rows), subscribers, old(ledger), ledger)
      ensures sent == |set i: nat | i < |rows| && rows[i] != old(rows)[i]|
    {
      if !announcementExists {
        assert (set i: nat | i < |rows| && rows[i] != rows[i]) == {};
        return 0;
      }
      ghost var p := PendingRows(rows);
      var pending := Batch(PendingRows(rows), limit);
      BatchIsTaken(p, limit);
      if |pending| == 0 {
        assert forall i :: !Taken(p, limit, i);
        SentAreTaken(old(rows), rows, subscribers, limit, {}, ledger);
        return 0;
      }
      ghost var handed;
      sent, handed := SendBatch(pending);
      SentAreTaken(old(rows), rows, subscribers, limit, handed, ledger);
      if |pending| == limit {
        tasks := tasks + 1;
      }
    }

    /** The job queue at work, after a press: every enqueued job is run, until
        none is left. When it stops, every still-subscribed recipient's row
        carries the one log id of its address, each address was sent to once,
        and only skipped rows are pending, just as they were. */
    method RunQueuedJobs(limit: nat)
      requires ran < tasks
      requires SkippedCount(PendingRows(rows), SkippedRows(rows, subscribers)) < limit
      modifies this`rows, this`ledger, this`sends, this`tasks, this`ran
      ensures ran == tasks && |rows| == |old(rows)|
      ensures forall i :: 0 <= i < |rows| ==>
                if old(rows)[i].log.Some? || Skipped(old(rows), subscribers, i) then rows[i] == old(rows)[i]
                else HandedOver(old(rows)[i], rows[i], subscribers, ledger)
      ensures forall i :: 0 <= i < |rows| ==>
                if old(rows)[i].log.Some? || !Wanted(old(rows)[i], subscribers) then rows[i] == old(rows)[i]
                else
                  && subscribers[old(rows)[i].subscriber].email in ledger
                  && rows[i] == old(rows)[i].(log := Some(ledger[subscribers[old(rows)[i].subscriber].email]))
      ensures OnlyToWanted(old(rows), subscribers, old(ledger), ledger)
      ensures forall e :: e in old(ledger) ==> e in ledger && ledger[e] == old(ledger)[e]
      ensures sends - old(sends) == |ledger| - |old(ledger)|
    {
      ghost var skipped := SkippedRows(rows, subscribers);
      ghost var requeued := true;
      while ran < tasks
        invariant ran <= tasks && (!requeued || ran < tasks)
        invariant SkippedCount(PendingRows(rows), skipped) < limit
        invariant SentOrLeft(old(rows), rows, subscribers, ledger)
        invariant OnlyToWanted(old(rows), subscribers, old(ledger), ledger)
        invariant forall e :: e in old(ledger) ==> e in ledger && ledger[e] == old(ledger)[e]
        invariant sends - |ledger| == old(sends) - |old(ledger)|
        invariant !requeued ==> OnlySkippedPending(rows, skipped)
        decreases Owed(PendingRows(rows), skipped), tasks - ran
      {
        ghost var earlier, known, p := rows, ledger, PendingRows(rows);
        var enqueued := tasks;
        SameSubscribersSkipped(old(rows), rows, subscribers);
        var _ := SendPending(true, limit);
        SameSkippedDrain(p, SkippedRows(earlier, subscribers), skipped, limit);
        OneRunOwesLess(p, skipped, limit);
        SentTwice(old(rows), earlier, rows, subscribers, known, ledger);
        forall e | e in ledger && e !in known ensures AddressWanted(old(rows), subscribers, e) {
          SameAddressesWanted(old(rows), earlier, subscribers, e);
        }
        ran := ran + 1;
        requeued := tasks > enqueued;
        if !requeued { LastRunIsComplete(p, skipped, limit); }
      }
      EveryRowIsSettled(old(rows), rows, subscribers, ledger);
    }

    /** One row per subscriber, in chunks; the count is of the rows carrying
        this press's own keys. `meanwhile` is what other presses insert before
        each chunk. */
    method CreateForSubscribers(ids: seq<SubscriberId>, press: nat, meanwhile: nat -> seq<SubscriberId>, other: nat)
      returns (created: nat)
      requires OnePerSubscriber(rows) && other != press
      modifies this`rows
      ensures old(rows) <= rows && OnePerSubscriber(rows)
      ensures forall s :: s in ids ==> Reached(rows, s)
      ensures forall i :: |old(rows)| <= i < |rows| ==>
                rows[i].log.None? && (rows[i].press == other || (rows[i].press == press && rows[i].subscriber in ids))
      ensures created == CreatedBy(rows, press) - CreatedBy(old(rows), press)
      ensures |rows| - |old(rows)| == created + (CreatedBy(rows, other) - CreatedBy(old(rows), other))
    {
      created := 0;
      var start := 0;
      while start < |ids|
        invariant start <= |ids|
        invariant old(rows) <= rows && OnePerSubscriber(rows)
        invariant forall s :: s in ids[..start] ==> Reached(rows, s)
        invariant forall i :: |old(rows)| <= i < |rows| ==>
                    && rows[i].log.None?
                    && (rows[i].press == other || (rows[i].press == press && rows[i].subscriber in ids))
        invariant created == CreatedBy(rows, press) - CreatedBy(old(rows), press)
        invariant |rows| - |old(rows)| == created + (CreatedBy(rows, other) - CreatedBy(old(rows), other))
      {
        var end := if start + INSERT_CHUNK < |ids| then start + INSERT_CHUNK else |ids|;
        var chunk := ids[start..end];
        InsertAppends(rows, meanwhile(start), other);
        ghost var earlier := rows;
        rows := InsertIgnoring(rows, meanwhile(start), other);
        var before := |rows|;
        ghost var mid := rows;
        InsertAppends(rows, chunk, press);
        rows := InsertIgnoring(rows, chunk, press);
        created := created + (|rows| - before);
        forall s | s in ids[..end] ensures Reached(rows, s) {
          if s in ids[..start] {
            ReachedStays(earlier, rows, s);
          } else {
            assert ids[..end] == ids[..start] + chunk;
          }
        }
        start := end;
      }
      assert ids[..start] == ids;
    }
  }

  lemma SentAreTaken(before: seq<Delivery>, after: seq<Delivery>, subscribers: map<SubscriberId, Subscriber>,
                     limit: nat, handed: set<nat>, ledger: map<string, LogId>)
    requires SentSoFar(before, after, subscribers, ledger, handed)
    requires forall i :: i in handed <==> Taken(PendingRows(before), limit, i) && !Skipped(before, subscribers, i)
    ensures PendingRows(after) == Drain(PendingRows(before), SkippedRows(before, subscribers), limit)
    ensures handed == set i: nat | i < |after| && after[i] != before[i]
    ensures SentOrLeft(before, after, subscribers, ledger)
  {
  }

  // --- the whole chain -----------------------------------------------------

  /** Everything still owed: pending rows nobody skips. */
  ghost function Owed(p: seq<bool>, skipped: Stuck): nat {
    Count(|p|, GoodIn(p, skipped))
  }

  ghost function SkippedCount(p: seq<bool>, skipped: Stuck): nat {
    Count(|p|, StuckIn(p, skipped))
  }

  /** The backlog after n tasks of the chain. */
  ghost function AfterTasks(p: seq<bool>, skipped: Stuck, limit: nat, n: nat): seq<bool> {
    if n == 0 then p else Drain(AfterTasks(p, skipped, limit, n - 1), skipped, limit)
  }

  lemma {:induction false} TasksShrinkWhatIsOwed(p: seq<bool>, skipped: Stuck, limit: nat, n: nat)
    ensures var q := AfterTasks(p, skipped, limit, n);
      && |q| == |p| && SkippedCount(q, skipped) == SkippedCount(p, skipped)
      && (SkippedCount(p, skipped) < limit ==>
            Owed(q, skipped) == 0 || Owed(q, skipped) + n * (limit - SkippedCount(p, skipped)) <= Owed(p, skipped))
  {
    if n > 0 {
      TasksShrinkWhatIsOwed(p, skipped, limit, n - 1);
      var q := AfterTasks(p, skipped, limit, n - 1);
      BatchBefore(q, skipped, limit, |q|);
      PendingSplits(q, skipped, |q|);
      var free := limit - SkippedCount(p, skipped);
      assert n * free == (n - 1) * free + free;
    }
  }

  /** A run keeps every skipped row, and when it re-enqueues it owes less. */
  lemma OneRunOwesLess(p: seq<bool>, skipped: Stuck, limit: nat)
    ensures var q := Drain(p, skipped, limit);
      && SkippedCount(q, skipped) == SkippedCount(p, skipped) && Owed(q, skipped) <= Owed(p, skipped)
      && (Requeues(p, limit) && SkippedCount(p, skipped) < limit ==> Owed(q, skipped) < Owed(p, skipped))
  {
    BatchBefore(p, skipped, limit, |p|);
    PendingSplits(p, skipped, |p|);
  }

  lemma LastRunIsComplete(p: seq<bool>, skipped: Stuck, limit: nat)
    requires limit > 0 && !Requeues(p, limit)
    ensures var q := Drain(p, skipped, limit); forall i :: 0 <= i < |q| && q[i] ==> skipped(i)
  {
    assert AfterTasks(p, skipped, limit, 0) == p && AfterTasks(p, skipped, limit, 1) == Drain(p, skipped, limit);
    EndedChainIsComplete(p, skipped, limit, 0);
  }

  /** The self re-enqueuing chain ends if and only if fewer than `limit`
      pending rows are permanently skipped. */
  lemma ChainEndsIff(p: seq<bool>, skipped: Stuck, limit: nat)
    requires limit > 0
    ensures (exists n: nat :: !Continues(p, skipped, limit, n)) <==> SkippedCount(p, skipped) < limit
  {
    if SkippedCount(p, skipped) < limit {
      EndsByOwed(p, skipped, limit);
    } else {
      forall n: nat ensures Continues(p, skipped, limit, n) {
        NeverEnds(p, skipped, limit, n);
      }
    }
  }

  lemma EndsByOwed(p: seq<bool>, skipped: Stuck, limit: nat)
    requires SkippedCount(p, skipped) < limit
    ensures !Continues(p, skipped, limit, Owed(p, skipped) + 1)
  {
    var n, free := Owed(p, skipped) + 1, limit - SkippedCount(p, skipped);
    TimesAtLeastOne(n, free);
    ChainEndsInTime(p, skipped, limit, n);
  }

  lemma NeverEnds(p: seq<bool>, skipped: Stuck, limit: nat, n: nat)
    requires 0 < limit <= SkippedCount(p, skipped)
    ensures Continues(p, skipped, limit, n)
  {
    TasksShrinkWhatIsOwed(p, skipped, limit, n);
    PendingSplits(AfterTasks(p, skipped, limit, n), skipped, |p|);
  }

  /** Task number n of the chain enqueues another. */
  ghost predicate Continues(p: seq<bool>, skipped: Stuck, limit: nat, n: nat) {
    Requeues(AfterTasks(p, skipped, limit, n), limit)
  }

  /** How soon: once n tasks' free places exceed what was owed, nothing is. */
  lemma ChainEndsInTime(p: seq<bool>, skipped: Stuck, limit: nat, n: nat)
    requires SkippedCount(p, skipped) < limit && n * (limit - SkippedCount(p, skipped)) > Owed(p, skipped)
    ensures Owed(AfterTasks(p, skipped, limit, n), skipped) == 0
    ensures !Continues(p, skipped, limit, n)
  {
    TasksShrinkWhatIsOwed(p, skipped, limit, n);
    PendingSplits(AfterTasks(p, skipped, limit, n), skipped, |p|);
  }

  /** And when it ends, it is done: after the run that does not re-enqueue,
      the rows still pending are exactly the skipped ones, whatever the limit. */
  lemma EndedChainIsComplete(p: seq<bool>, skipped: Stuck, limit: nat, n: nat)
    requires limit > 0 && !Continues(p, skipped, limit, n)
    ensures var last := AfterTasks(p, skipped, limit, n + 1);
      |last| == |p| && forall i :: 0 <= i < |p| ==> (last[i] <==> p[i] && skipped(i))
  {
    var q := AfterTasks(p, skipped, limit, n);
    TasksShrinkWhatIsOwed(p, skipped, limit, n);
    SkippedStayPending(p, skipped, limit, n);
    forall i | 0 <= i < |q| && q[i] ensures Taken(q, limit, i) {
      CountMonotone(i, |q|, Pending(q));
    }
  }

  lemma {:induction false} SkippedStayPending(p: seq<bool>, skipped: Stuck, limit: nat, n: nat)
    ensures var q := AfterTasks(p, skipped, limit, n);
      |q| == |p| && forall i :: 0 <= i < |p| ==> (q[i] ==> p[i]) && (p[i] && skipped(i) ==> q[i])
  {
    if n > 0 {
      SkippedStayPending(p, skipped, limit, n - 1);
    }
  }

  // --- two fan-outs over the same rows -------------------------------------

  /** notify and attach are separate statements; `handed` holds what each
      fan-out got back and has not written yet. */
  datatype Race = Race(emails: seq<string>, logs: seq<Option<LogId>>, ledger: map<string, LogId>,
                       sends: nat, handed: set<(nat, LogId)>)

  datatype RaceStep = NotifyRow(row: nat) | AttachRow(row: nat, log: LogId)

  function RaceNext(r: Race, a: RaceStep): Race {
    match a
    case NotifyRow(i) =>
      if i >= |r.emails| || r.emails[i] == "" then r
      else if r.emails[i] in r.ledger then r.(handed := r.handed + {(i, r.ledger[r.emails[i]])})
      else r.(ledger := r.ledger[r.emails[i] := r.sends], sends := r.sends + 1, handed := r.handed + {(i, r.sends)})
    case AttachRow(i, log) =>
      if (i, log) in r.handed && i < |r.logs| && r.logs[i].None? then r.(logs := r.logs[i := Some(log)]) else r
  }

  function RaceRun(r: Race, steps: seq<RaceStep>): Race
    decreases |steps|
  {
    if steps == [] then r else RaceNext(RaceRun(r, steps[..|steps| - 1]), steps[|steps| - 1])
  }

  ghost predicate RaceInv(r: Race) {
    && |r.emails| == |r.logs|
    && r.sends == |r.ledger|
    && (forall i, log :: (i, log) in r.handed ==>
          i < |r.emails| && r.emails[i] in r.ledger && r.ledger[r.emails[i]] == log)
    && (forall i :: 0 <= i < |r.logs| && r.logs[i].Some? ==>
          r.emails[i] in r.ledger && r.ledger[r.emails[i]] == r.logs[i].value)
  }

  /** However many fan-outs race over the same rows: one send per address, and
      a row's log id, once written, is that send's and never changes. */
  lemma {:induction false} RacesSendOnce(r: Race, steps: seq<RaceStep>)
    requires RaceInv(r)
    ensures var now := RaceRun(r, steps);
      && RaceInv(now) && now.emails == r.emails
      && now.sends - r.sends == |now.ledger| - |r.ledger|
      && (forall e :: e in r.ledger ==> e in now.ledger && now.ledger[e] == r.ledger[e])
      && forall i :: 0 <= i < |r.logs| && r.logs[i].Some? ==> now.logs[i] == r.logs[i]
    decreases |steps|
  {
    if steps != [] {
      RacesSendOnce(r, steps[..|steps| - 1]);
      RaceStepKeeps(RaceRun(r, steps[..|steps| - 1]), steps[|steps| - 1]);
    }
  }

  lemma RaceStepKeeps(r: Race, a: RaceStep)
    requires RaceInv(r)
    ensures var now := RaceNext(r, a);
      && RaceInv(now) && now.emails == r.emails
      && (forall e :: e in r.ledger ==> e in now.ledger && now.ledger[e] == r.ledger[e])
      && forall i :: 0 <= i < |r.logs| && r.logs[i].Some? ==> now.logs[i] == r.logs[i]
  {
  }
}
