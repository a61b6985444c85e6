/** Entry at the gate (apps/checkin/services.py): an unlocked pre-check, then
    the decision under the ticket's row lock, with other scans and refunds in
    between. */
module Checkin {
  import opened Seqs
  import opened Tables

  datatype ScanResult =
    | Allowed | DeniedAlreadyUsed | DeniedInvalid | DeniedWrongEvent | DeniedNotActive | DeniedOutOfWindow

  datatype Slot = Slot(startsAt: Time, endsAt: Option<Time>)

  datatype EventRow = EventRow(owner: UserId, startsAt: Time, endsAt: Option<Time>)

  datatype GateTicket = GateTicket(
    booking: BookingId, event: EventId, slot: Option<Slot>,
    status: TicketStatus, usedAt: Option<Time>, gate: string)

  /** The scan log has a row for each scan of a known ticket; `event` is the
      event the gate stands at. */
  datatype Scan = Scan(ticket: nat, event: EventId, gate: string, result: ScanResult)

  /** A scan that passed the pre-check and is waiting for the row lock. */
  datatype Waiting = Waiting(ticket: nat, event: EventId, gate: string)

  datatype Door = Door(
    opensBefore: Time, graceAfter: Time,
    events: map<EventId, EventRow>,
    tickets: seq<GateTicket>,
    scans: seq<Scan>,
    waiting: map<nat, Waiting>,
    clock: Time)

  datatype Reply = Reply(result: ScanResult, usedAt: Option<Time>, gate: string)

  datatype Answer =
    | Decided(reply: Reply)
    | MustLock
    | EventMissing
    | NotChecker

  function Deny(result: ScanResult): Reply {
    Reply(result, None, "")
  }

  /** The window belongs to the session when the ticket sells one. */
  predicate WithinWindow(door: Door, event: EventRow, ticket: GateTicket) {
    var startsAt := if ticket.slot.Some? then ticket.slot.value.startsAt else event.startsAt;
    var endsAt :=
      if ticket.slot.Some? then
        (if ticket.slot.value.endsAt.Some? then ticket.slot.value.endsAt.value else ticket.slot.value.startsAt)
      else if event.endsAt.Some? then event.endsAt.value
      else event.startsAt;
    startsAt - door.opensBefore <= door.clock <= endsAt + door.graceAfter
  }

  /** The ladder both the gate and the support lookup walk. */
  function Ladder(door: Door, event: EventId, ticket: GateTicket): ScanResult
    requires event in door.events
  {
    if ticket.event != event then DeniedWrongEvent
    else if ticket.status == Used then DeniedAlreadyUsed
    else if ticket.status != Active then DeniedNotActive
    else if !WithinWindow(door, door.events[event], ticket) then DeniedOutOfWindow
    else Allowed
  }

  function Record(door: Door, t: nat, event: EventId, gate: string, result: ScanResult): Door {
    door.(scans := door.scans + [Scan(t, event, gate, result)])
  }

  function Denial(ticket: GateTicket, result: ScanResult): Reply {
    if result == DeniedAlreadyUsed then Reply(result, ticket.usedAt, ticket.gate) else Deny(result)
  }

  /** Phase one: no lock. `token` is the ticket a genuine signature names. */
  function PreCheck(door: Door, request: nat, token: Option<nat>, event: EventId, gate: string,
                    actor: UserId, admin: bool): (Door, Answer)
  {
    if token.None? then (door, Decided(Deny(DeniedInvalid)))
    else if event !in door.events then (door, EventMissing)
    else if !admin && door.events[event].owner != actor then (door, NotChecker)
    else if token.value >= |door.tickets| then (door, Decided(Deny(DeniedInvalid)))
    else
      var ticket := door.tickets[token.value];
      var result := Ladder(door, event, ticket);
      if result == Allowed
      then (door.(waiting := door.waiting[request := Waiting(token.value, event, gate)]), MustLock)
      else (Record(door, token.value, event, gate, result), Decided(Denial(ticket, result)))
  }

  /** Phase two: the decision under the lock, on the row as it is now. */
  function AdmitUnderLock(door: Door, w: Waiting): (Door, Reply) {
    if w.ticket >= |door.tickets| then (door, Deny(DeniedInvalid))
    else
      var ticket := door.tickets[w.ticket];
      if ticket.status == Used then
        (Record(door, w.ticket, w.event, w.gate, DeniedAlreadyUsed), Denial(ticket, DeniedAlreadyUsed))
      else if ticket.status != Active then
        (Record(door, w.ticket, w.event, w.gate, DeniedNotActive), Deny(DeniedNotActive))
      else
        var used := ticket.(status := Used, usedAt := Some(door.clock), gate := w.gate);
        (Record(door.(tickets := door.tickets[w.ticket := used]), w.ticket, w.event, w.gate, Allowed),
         Reply(Allowed, Some(door.clock), w.gate))
  }

  function VoidOne(t: GateTicket, b: BookingId): GateTicket {
    if t.booking == b && t.status == Active then t.(status := Void) else t
  }

  function VoidActive(door: Door, b: BookingId): Door {
    door.(tickets := seq(|door.tickets|, i requires 0 <= i < |door.tickets| => VoidOne(door.tickets[i], b)))
  }

  // --- who goes in, and who may ask ----------------------------------------

  /** The hours a ticket is good for: its session's where it has one and the
      event's where it has none, without an end the start standing for it. */
  predicate InsideHours(door: Door, event: EventRow, slot: Option<Slot>) {
    match slot
    case Some(Slot(start, Some(end))) => start - door.opensBefore <= door.clock <= end + door.graceAfter
    case Some(Slot(start, None)) => start - door.opensBefore <= door.clock <= start + door.graceAfter
    case None =>
      match event.endsAt
      case Some(end) => event.startsAt - door.opensBefore <= door.clock <= end + door.graceAfter
      case None => event.startsAt - door.opensBefore <= door.clock <= event.startsAt + door.graceAfter
  }

  predicate MayScan(door: Door, event: EventId, actor: UserId, admin: bool) {
    event in door.events && (admin || door.events[event].owner == actor)
  }

  /** A known ticket of this event, active, within its hours. */
  predicate GoodAtGate(door: Door, t: nat, event: EventId) {
    && t < |door.tickets| && event in door.events && door.tickets[t].event == event
    && door.tickets[t].status == Active && InsideHours(door, door.events[event], door.tickets[t].slot)
  }

  /** A scan goes on to the lock exactly when its token is genuine, the scanner
      is the event's owner or an admin, and the ticket is good at this gate. */
  lemma GoesOnExactly(door: Door, request: nat, token: Option<nat>, event: EventId, gate: string,
                      actor: UserId, admin: bool)
    ensures PreCheck(door, request, token, event, gate, actor, admin).1 == MustLock
       <==> token.Some? && MayScan(door, event, actor, admin) && GoodAtGate(door, token.value, event)
    ensures PreCheck(door, request, token, event, gate, actor, admin).1 == MustLock ==>
              PreCheck(door, request, token, event, gate, actor, admin).0
              == door.(waiting := door.waiting[request := Waiting(token.value, event, gate)])
  {
  }

  /** Anybody else is turned away and leaves no trace, whatever the ticket; so
      is a scan at an event that is not there, a forged token and an unknown
      ticket. */
  lemma TurnedAwayExactly(door: Door, request: nat, token: Option<nat>, event: EventId, gate: string,
                          actor: UserId, admin: bool)
    ensures var scanned := PreCheck(door, request, token, event, gate, actor, admin);
      && (scanned == (door, NotChecker)
          <==> token.Some? && event in door.events && !MayScan(door, event, actor, admin))
      && (scanned == (door, EventMissing) <==> token.Some? && event !in door.events)
      && (scanned == (door, Decided(Reply(DeniedInvalid, None, "")))
          <==> token.None? || (MayScan(door, event, actor, admin) && token.value >= |door.tickets|))
  {
    if token.Some? && MayScan(door, event, actor, admin) && token.value < |door.tickets| {
      DenialsAreTrue(door, request, token.value, event, gate, actor, admin);
    }
  }

  /** A known ticket that does not go on to the lock is told why, truly, a used
      one when and where it went in; the scan is logged and no ticket moves. */
  lemma DenialsAreTrue(door: Door, request: nat, t: nat, event: EventId, gate: string, actor: UserId, admin: bool)
    requires MayScan(door, event, actor, admin) && t < |door.tickets|
    ensures var ticket, (after, answer) := door.tickets[t], PreCheck(door, request, Some(t), event, gate, actor, admin);
      !GoodAtGate(door, t, event) ==>
        && answer == Decided(
             if ticket.event != event then Reply(DeniedWrongEvent, None, "")
             else match ticket.status
                  case Used => Reply(DeniedAlreadyUsed, ticket.usedAt, ticket.gate)
                  case Void => Reply(DeniedNotActive, None, "")
                  case Active => Reply(DeniedOutOfWindow, None, ""))
        && after == door.(scans := door.scans + [Scan(t, event, gate, answer.reply.result)])
  {
  }

  /** A refund voids the booking's active tickets and touches no other. */
  lemma RefundWrites(door: Door, b: BookingId)
    ensures var after := VoidActive(door, b);
      && after == door.(tickets := after.tickets) && |after.tickets| == |door.tickets|
      && forall i :: 0 <= i < |door.tickets| ==>
           after.tickets[i] == if door.tickets[i].booking == b && door.tickets[i].status == Active
                               then door.tickets[i].(status := Void) else door.tickets[i]
  {
  }

  // --- runs ----------------------------------------------------------------

  datatype Action =
    | Sell(ticket: GateTicket)
    | Begin(request: nat, token: Option<nat>, event: EventId, gate: string, actor: UserId, admin: bool)
    | Finish(request: nat)
    | Refund(booking: BookingId)
    | Tick(elapsed: nat)

  function Step(door: Door, a: Action): Door {
    match a
    case Sell(t) =>
      door.(tickets := door.tickets + [t.(status := Active, usedAt := None, gate := "")])
    case Begin(request, token, event, gate, actor, admin) =>
      PreCheck(door, request, token, event, gate, actor, admin).0
    case Finish(request) =>
      if request !in door.waiting then door
      else AdmitUnderLock(door.(waiting := door.waiting - {request}), door.waiting[request]).0
    case Refund(b) => VoidActive(door, b)
    case Tick(elapsed) => door.(clock := door.clock + elapsed)
  }

  function Run(door: Door, acts: seq<Action>): Door
    decreases |acts|
  {
    if acts == [] then door else Step(Run(door, acts[..|acts| - 1]), acts[|acts| - 1])
  }

  // --- the invariant -------------------------------------------------------

  function Admits(t: nat): Scan -> nat {
    (s: Scan) => if s.ticket == t && s.result == Allowed then 1 else 0
  }

  function AllowedAt(e: EventId): Scan -> nat {
    (s: Scan) => if s.event == e && s.result == Allowed then 1 else 0
  }

  function UsedAt(e: EventId): GateTicket -> nat {
    (t: GateTicket) => if t.event == e && t.status == Used then 1 else 0
  }

  ghost predicate OneEntryEach(tickets: seq<GateTicket>, scans: seq<Scan>) {
    && (forall i :: 0 <= i < |scans| ==> scans[i].ticket < |tickets|)
    && forall t :: 0 <= t < |tickets| ==> Sum(scans, Admits(t)) == (if tickets[t].status == Used then 1 else 0)
  }

  ghost predicate CountsAgree(tickets: seq<GateTicket>, scans: seq<Scan>) {
    forall e :: Sum(tickets, UsedAt(e)) == Sum(scans, AllowedAt(e))
  }

  /** An admitted scan row tells where the ticket went in. */
  ghost predicate LogTellsGate(tickets: seq<GateTicket>, scans: seq<Scan>) {
    forall i :: 0 <= i < |scans| && scans[i].result == Allowed ==>
      && scans[i].ticket < |tickets| && tickets[scans[i].ticket].status == Used
      && tickets[scans[i].ticket].gate == scans[i].gate && tickets[scans[i].ticket].event == scans[i].event
  }

  /** A waiting scan stands at the gate of its own ticket's event. */
  ghost predicate WaitingAtOwnEvent(tickets: seq<GateTicket>, waiting: map<nat, Waiting>) {
    forall r :: r in waiting ==>
      waiting[r].ticket < |tickets| && tickets[waiting[r].ticket].event == waiting[r].event
  }

  ghost predicate Inv(door: Door) {
    && OneEntryEach(door.tickets, door.scans)
    && CountsAgree(door.tickets, door.scans)
    && LogTellsGate(door.tickets, door.scans)
    && WaitingAtOwnEvent(door.tickets, door.waiting)
  }

  lemma DenialKeeps(door: Door, t: nat, event: EventId, gate: string, result: ScanResult)
    requires Inv(door) && t < |door.tickets| && result != Allowed
    ensures Inv(Record(door, t, event, gate, result))
  {
    var row := Scan(t, event, gate, result);
    forall k ensures Sum(door.scans + [row], Admits(k)) == Sum(door.scans, Admits(k)) {
      SumAppend(door.scans, row, Admits(k));
    }
    forall e ensures Sum(door.scans + [row], AllowedAt(e)) == Sum(door.scans, AllowedAt(e)) {
      SumAppend(door.scans, row, AllowedAt(e));
    }
  }

  lemma AdmissionKeeps(door: Door, w: Waiting)
    requires Inv(door) && w.ticket < |door.tickets| && door.tickets[w.ticket].status == Active
    requires door.tickets[w.ticket].event == w.event
    ensures Inv(AdmitUnderLock(door, w).0)
  {
    var used := door.tickets[w.ticket].(status := Used, usedAt := Some(door.clock), gate := w.gate);
    var row := Scan(w.ticket, w.event, w.gate, Allowed);
    var tickets, scans := door.tickets[w.ticket := used], door.scans + [row];
    forall t | 0 <= t < |tickets| ensures Sum(scans, Admits(t)) == (if tickets[t].status == Used then 1 else 0) {
      SumAppend(door.scans, row, Admits(t));
    }
    forall e ensures Sum(tickets, UsedAt(e)) == Sum(scans, AllowedAt(e)) {
      SumAppend(door.scans, row, AllowedAt(e));
      SumUpdate(door.tickets, w.ticket, used, UsedAt(e));
    }
    forall i | 0 <= i < |door.scans| && door.scans[i].result == Allowed ensures door.scans[i].ticket != w.ticket {
      assert door.tickets[door.scans[i].ticket].status == Used;
    }
  }

  lemma LockedDecisionKeeps(door: Door, w: Waiting)
    requires Inv(door) && w.ticket < |door.tickets| && door.tickets[w.ticket].event == w.event
    ensures Inv(AdmitUnderLock(door, w).0)
  {
    if door.tickets[w.ticket].status == Active {
      AdmissionKeeps(door, w);
    } else if door.tickets[w.ticket].status == Used {
      DenialKeeps(door, w.ticket, w.event, w.gate, DeniedAlreadyUsed);
    } else {
      DenialKeeps(door, w.ticket, w.event, w.gate, DeniedNotActive);
    }
  }

  lemma PreCheckKeeps(door: Door, request: nat, token: Option<nat>, event: EventId, gate: string,
                      actor: UserId, admin: bool)
    requires Inv(door)
    ensures Inv(PreCheck(door, request, token, event, gate, actor, admin).0)
  {
    if token.Some? && event in door.events && token.value < |door.tickets| {
      var result := Ladder(door, event, door.tickets[token.value]);
      if result != Allowed {
        DenialKeeps(door, token.value, event, gate, result);
      }
    }
  }

  lemma RefundKeeps(door: Door, b: BookingId)
    requires Inv(door)
    ensures Inv(VoidActive(door, b))
  {
    var after := VoidActive(door, b).tickets;
    forall e ensures Sum(after, UsedAt(e)) == Sum(door.tickets, UsedAt(e)) {
      SumPointwise(after, door.tickets, UsedAt(e), UsedAt(e));
    }
  }

  lemma SaleKeeps(door: Door, t: GateTicket)
    requires Inv(door)
    ensures Inv(Step(door, Sell(t)))
  {
    var sold := t.(status := Active, usedAt := None, gate := "");
    var after := door.tickets + [sold];
    forall e ensures Sum(after, UsedAt(e)) == Sum(door.tickets, UsedAt(e)) {
      SumAppend(door.tickets, sold, UsedAt(e));
    }
    var n := |door.tickets|;
    assert Sum(door.scans, Admits(n)) == 0 by {
      forall s | s in door.scans ensures Admits(n)(s) == 0 {}
      SumZero(door.scans, Admits(n));
    }
    forall k | 0 <= k < |after| ensures Sum(door.scans, Admits(k)) == (if after[k].status == Used then 1 else 0) {
      assert k < n ==> after[k] == door.tickets[k];
    }
  }

  lemma StepKeeps(door: Door, a: Action)
    requires Inv(door)
    ensures Inv(Step(door, a))
  {
    match a
    case Sell(t) => SaleKeeps(door, t);
    case Begin(request, token, event, gate, actor, admin) =>
      PreCheckKeeps(door, request, token, event, gate, actor, admin);
    case Finish(request) =>
      if request in door.waiting {
        LockedDecisionKeeps(door.(waiting := door.waiting - {request}), door.waiting[request]);
      }
    case Refund(b) => RefundKeeps(door, b);
    case Tick(elapsed) =>
  }

  /** Under any interleaving of two-phase scans, refunds and sales: a ticket has
      one admitted scan row when it is used and none otherwise, that row names
      the gate the ticket remembers, and for every event the used tickets are
      as many as the admitted scans. */
  lemma {:induction false} EveryRunAgrees(door: Door, acts: seq<Action>)
    requires Inv(door)
    ensures Inv(Run(door, acts))
    decreases |acts|
  {
    if acts != [] {
      EveryRunAgrees(door, acts[..|acts| - 1]);
      StepKeeps(Run(door, acts[..|acts| - 1]), acts[|acts| - 1]);
    }
  }

  /** Nobody is let in twice: over any run two admitted rows of one ticket are
      the same row. */
  lemma OneScanEntry(door: Door, acts: seq<Action>, i: nat, j: nat)
    requires Inv(door)
    requires var scans := Run(door, acts).scans;
      i < |scans| && j < |scans| && scans[i].ticket == scans[j].ticket
      && scans[i].result == Allowed && scans[j].result == Allowed
    ensures i == j
  {
    EveryRunAgrees(door, acts);
    var scans := Run(door, acts).scans;
    if i < j {
      SumAtMostOne(scans, i, j, Admits(scans[i].ticket));
    } else if j < i {
      SumAtMostOne(scans, j, i, Admits(scans[i].ticket));
    }
  }

  // --- what only ever moves forward ----------------------------------------

  predicate StatusMovesOn(a: GateTicket, b: GateTicket) {
    && a.booking == b.booking && a.event == b.event && a.slot == b.slot
    && (a.status != Active ==> a == b)
  }

  ghost predicate Later(a: Door, b: Door) {
    && a.scans <= b.scans && |a.tickets| <= |b.tickets|
    && forall t :: 0 <= t < |a.tickets| ==> StatusMovesOn(a.tickets[t], b.tickets[t])
  }

  /** The scan log is append-only and a used or void ticket never changes
      again: no refund un-uses a ticket and no scan revives a void one. */
  lemma {:induction false} RunOnlyMovesForward(door: Door, acts: seq<Action>)
    ensures Later(door, Run(door, acts))
    decreases |acts|
  {
    if acts != [] {
      RunOnlyMovesForward(door, acts[..|acts| - 1]);
      var before := Run(door, acts[..|acts| - 1]);
      var after := Step(before, acts[|acts| - 1]);
      StepMovesForward(before, acts[|acts| - 1]);
      forall t | 0 <= t < |door.tickets| ensures StatusMovesOn(door.tickets[t], after.tickets[t]) {
        assert StatusMovesOn(door.tickets[t], before.tickets[t]) && StatusMovesOn(before.tickets[t], after.tickets[t]);
      }
    }
  }

  lemma StepMovesForward(door: Door, a: Action)
    ensures Later(door, Step(door, a))
  {
  }

  /** Of any number of scans of one active ticket that reach the lock, the
      first one in is admitted; every later one, whatever happened in between,
      is refused, and is told when and where the first one went in. */
  lemma {:induction false} LaterScanIsRefused(door: Door, first: Waiting, acts: seq<Action>, second: Waiting)
    requires first.ticket < |door.tickets| && door.tickets[first.ticket].status == Active
    requires second.ticket == first.ticket
    ensures AdmitUnderLock(door, first).1 == Reply(Allowed, Some(door.clock), first.gate)
    ensures AdmitUnderLock(Run(AdmitUnderLock(door, first).0, acts), second).1
         == Reply(DeniedAlreadyUsed, Some(door.clock), first.gate)
  {
    var admitted := AdmitUnderLock(door, first).0;
    RunOnlyMovesForward(admitted, acts);
    assert StatusMovesOn(admitted.tickets[first.ticket], Run(admitted, acts).tickets[first.ticket]);
  }

  /** A refund that lands between the pre-check and the lock wins: the ticket
      it voided is refused by every scan from then on. */
  lemma {:induction false} RefundBeatsWaitingScan(door: Door, b: BookingId, acts: seq<Action>, w: Waiting)
    requires w.ticket < |door.tickets| && door.tickets[w.ticket].status == Active && door.tickets[w.ticket].booking == b
    ensures AdmitUnderLock(Run(VoidActive(door, b), acts), w).1 == Deny(DeniedNotActive)
  {
    var refunded := VoidActive(door, b);
    RunOnlyMovesForward(refunded, acts);
    assert StatusMovesOn(refunded.tickets[w.ticket], Run(refunded, acts).tickets[w.ticket]);
  }

  /** What a lookup shows for what a scan would be told: the same result, an
      admission where the scan would go on to the lock, and when and where a
      known ticket was used. */
  function Shown(door: Door, token: Option<nat>, answer: Answer): Answer {
    match answer
    case EventMissing => answer
    case NotChecker => answer
    case MustLock => WithUse(door, token, Allowed)
    case Decided(reply) => WithUse(door, token, reply.result)
  }

  function WithUse(door: Door, token: Option<nat>, result: ScanResult): Answer {
    if token.Some? && token.value < |door.tickets|
    then Decided(Reply(result, door.tickets[token.value].usedAt, door.tickets[token.value].gate))
    else Decided(Deny(result))
  }

  // --- the service ---------------------------------------------------------

  class CheckinService {
    const opensBefore: Time
    const graceAfter: Time
    var events: map<EventId, EventRow>
    var tickets: seq<GateTicket>
    var scans: seq<Scan>
    ghost var waiting: map<nat, Waiting>
    var clock: Time
    var bumps: nat

    ghost function State(): Door
      reads this
    {
      Door(opensBefore, graceAfter, events, tickets, scans, waiting, clock)
    }

    constructor (opensBefore: Time, graceAfter: Time, events: map<EventId, EventRow>, now: Time)
      ensures State() == Door(opensBefore, graceAfter, events, [], [], map[], now) && Inv(State())
    {
      this.opensBefore, this.graceAfter, this.events := opensBefore, graceAfter, events;
      tickets, scans, waiting, clock, bumps := [], [], map[], now, 0;
    }

    predicate InWindow(event: EventRow, ticket: GateTicket)
      reads this
    {
      WithinWindow(Door(opensBefore, graceAfter, events, tickets, scans, map[], clock), event, ticket)
    }

    /** Lock, re-check, mark, log; the live count is bumped after an admission
        and only then. */
    method LockAndAdmit(w: Waiting) returns (reply: Reply)
      modifies this`tickets, this`scans, this`bumps
      ensures (State(), reply) == AdmitUnderLock(old(State()), w)
      ensures w.ticket < |tickets| ==> scans == old(scans) + [Scan(w.ticket, w.event, w.gate, reply.result)]
      ensures bumps == old(bumps) + (if reply.result == Allowed then 1 else 0)
    {
      if w.ticket >= |tickets| { return Deny(DeniedInvalid); }
      var ticket := tickets[w.ticket];
      if ticket.status == Used {
        scans := scans + [Scan(w.ticket, w.event, w.gate, DeniedAlreadyUsed)];
        return Reply(DeniedAlreadyUsed, ticket.usedAt, ticket.gate);
      }
      if ticket.status != Active {
        scans := scans + [Scan(w.ticket, w.event, w.gate, DeniedNotActive)];
        return Deny(DeniedNotActive);
      }
      var usedAt := clock;
      tickets := tickets[w.ticket := ticket.(status := Used, usedAt := Some(usedAt), gate := w.gate)];
      scans := scans + [Scan(w.ticket, w.event, w.gate, Allowed)];
      bumps := bumps + 1;
      return Reply(Allowed, Some(usedAt), w.gate);
    }

    /** Both phases with nothing in between. */
    method VerifyAndMarkUsed(token: Option<nat>, event: EventId, gate: string, actor: UserId, admin: bool)
      returns (answer: Answer)
      modifies this`tickets, this`scans, this`bumps
      ensures old(Inv(State())) ==> Inv(State())
      ensures bumps == old(bumps) + (if answer.Decided? && answer.reply.result == Allowed then 1 else 0)
      ensures answer == Decided(Reply(Allowed, Some(clock), gate))
         <==> token.Some? && MayScan(old(State()), event, actor, admin) && GoodAtGate(old(State()), token.value, event)
      ensures answer == NotChecker <==> token.Some? && event in events && !admin && events[event].owner != actor
      ensures answer == NotChecker ==> State() == old(State())
      ensures match PreCheck(old(State()), 0, token, event, gate, actor, admin)
              case (checked, Decided(reply)) => answer == Decided(reply) && State() == checked
              case (checked, MustLock) =>
                token.Some? && answer.Decided?
                && (State(), answer.reply) == AdmitUnderLock(old(State()), Waiting(token.value, event, gate))
              case (checked, refusal) => answer == refusal && State() == old(State())
    {
      if Inv(State()) { PreCheckKeeps(State(), 0, token, event, gate, actor, admin); }
      if token.None? { return Decided(Deny(DeniedInvalid)); }
      if event !in events { return EventMissing; }
      if !admin && events[event].owner != actor { return NotChecker; }
      if token.value >= |tickets| { return Decided(Deny(DeniedInvalid)); }
      var ticket := tickets[token.value];
      if ticket.event != event {
        scans := scans + [Scan(token.value, event, gate, DeniedWrongEvent)];
        return Decided(Deny(DeniedWrongEvent));
      }
      if ticket.status == Used {
        scans := scans + [Scan(token.value, event, gate, DeniedAlreadyUsed)];
        return Decided(Reply(DeniedAlreadyUsed, ticket.usedAt, ticket.gate));
      }
      if ticket.status != Active {
        scans := scans + [Scan(token.value, event, gate, DeniedNotActive)];
        return Decided(Deny(DeniedNotActive));
      }
      if !InWindow(events[event], ticket) {
        scans := scans + [Scan(token.value, event, gate, DeniedOutOfWindow)];
        return Decided(Deny(DeniedOutOfWindow));
      }
      var w := Waiting(token.value, event, gate);
      if Inv(State()) { LockedDecisionKeeps(State(), w); }
      var reply := LockAndAdmit(w);
      return Decided(reply);
    }

    /** The read-only twin: it says what a scan right now would be told, and
        writes nothing. */
    method LookupTicket(token: Option<nat>, event: EventId, actor: UserId, admin: bool)
      returns (reason: Answer, wouldAdmit: bool)
      ensures wouldAdmit <==> PreCheck(State(), 0, token, event, "", actor, admin).1 == MustLock
      ensures wouldAdmit
         <==> token.Some? && MayScan(State(), event, actor, admin) && GoodAtGate(State(), token.value, event)
      ensures reason == Shown(State(), token, PreCheck(State(), 0, token, event, "", actor, admin).1)
      ensures token.Some? && token.value < |tickets| && MayScan(State(), event, actor, admin) ==>
                && reason.Decided? && reason.reply.usedAt == tickets[token.value].usedAt
                && reason.reply.gate == tickets[token.value].gate && (wouldAdmit <==> reason.reply.result == Allowed)
    {
      if token.None? { return Decided(Deny(DeniedInvalid)), false; }
      if event !in events { return EventMissing, false; }
      if !admin && events[event].owner != actor { return NotChecker, false; }
      if token.value >= |tickets| { return Decided(Deny(DeniedInvalid)), false; }
      var ticket := tickets[token.value];
      var result := Allowed;
      if ticket.event != event {
        result := DeniedWrongEvent;
      } else if ticket.status == Used {
        result := DeniedAlreadyUsed;
      } else if ticket.status != Active {
        result := DeniedNotActive;
      } else if !InWindow(events[event], ticket) {
        result := DeniedOutOfWindow;
      }
      return Decided(Reply(result, ticket.usedAt, ticket.gate)), result == Allowed;
    }
  }
}
