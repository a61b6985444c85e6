/** Single-use tokens (core/ephemeral.py) and the sign-in chain built on them:
    a state, a handoff, a session (apps/accounts/services.py). */
module SignIn {
  import opened Seqs
  import opened Tables

  datatype Purpose = SignInState | SignInHandoff | CalendarState

  const OAUTH_STATE_TTL: Time := 600_000_000
  const HANDOFF_TTL: Time := 120_000_000

  /** Where a row's payload comes from: a started flow, or the state row a
      completed flow consumed. The row's own id is its place in the issue log. */
  datatype Payload = FlowStarted | UserProven(user: UserId, stateRow: nat)

  datatype Row = Row(id: nat, payload: Payload, expiresAt: Time)

  /** Everything ever issued, in order; kept for the proofs. */
  datatype Issue = Issue(purpose: Purpose, token: string, payload: Payload, expiresAt: Time)

  datatype Consumption = Consumption(row: nat, at: Time)

  datatype Session = Session(user: UserId, handoffRow: nat)

  /** A callback between consuming its state and issuing its handoff: the
      exchange with Google happens here and may fail. */
  datatype Exchange = Exchange(stateRow: nat)

  datatype Store = Store(
    live: map<(Purpose, string), Row>,
    issued: seq<Issue>,
    consumed: seq<Consumption>,   // payloads handed out
    exchanging: map<nat, Exchange>,
    used: set<nat>,               // state rows whose exchange already made a handoff
    sessions: seq<Session>,
    purging: map<nat, set<nat>>,  // sweeps between their SELECT and their DELETE
    clock: Time)

  /** A collision is raised, never overwritten. */
  function IssueToken(s: Store, purpose: Purpose, token: string, payload: Payload, ttl: Time): Option<Store> {
    if (purpose, token) in s.live then None
    else
      var id := |s.issued|;
      Some(s.(live := s.live[(purpose, token) := Row(id, payload, s.clock + ttl)],
              issued := s.issued + [Issue(purpose, token, payload, s.clock + ttl)]))
  }

  /** Select for update, delete, and hand the payload out unless it expired. */
  function Consume(s: Store, purpose: Purpose, token: string): (Store, Option<Row>) {
    if (purpose, token) !in s.live then (s, None)
    else
      var row := s.live[(purpose, token)];
      var without := s.(live := s.live - {(purpose, token)});
      if row.expiresAt <= s.clock then (without, None)
      else (without.(consumed := s.consumed + [Consumption(row.id, s.clock)]), Some(row))
  }

  function ExpiredIds(s: Store): set<nat> {
    set k | k in s.live && s.live[k].expiresAt <= s.clock :: s.live[k].id
  }

  datatype Action =
    | Start(state: string)
    | Callback(request: nat, state: string)         // consumes the state
    | Exchanged(request: nat, user: UserId, handoff: string) // Google agreed; issue the handoff
    | ExchangeFailed(request: nat)
    | Redeem(handoff: string, active: bool)
    | CalendarStart(state: string)
    | CalendarCallback(state: string)
    | PurgeSelect(sweep: nat, ids: set<nat>)
    | PurgeDelete(sweep: nat)
    | Tick(elapsed: nat)

  function Step(s: Store, a: Action): Store {
    match a
    case Start(state) =>
      (match IssueToken(s, SignInState, state, FlowStarted, OAUTH_STATE_TTL) case Some(next) => next case None => s)
    case Callback(request, state) =>
      if request in s.exchanging then s
      else
        var (next, row) := Consume(s, SignInState, state);
        if row.Some? then next.(exchanging := next.exchanging[request := Exchange(row.value.id)]) else next
    case Exchanged(request, user, handoff) =>
      if request !in s.exchanging then s
      else
        var from := s.exchanging[request].stateRow;
        var left := s.(exchanging := s.exchanging - {request});
        (match IssueToken(left, SignInHandoff, handoff, UserProven(user, from), HANDOFF_TTL)
         case Some(next) => next.(used := next.used + {from})
         case None => left)
    case ExchangeFailed(request) => s.(exchanging := s.exchanging - {request})
    case Redeem(handoff, active) =>
      var (next, row) := Consume(s, SignInHandoff, handoff);
      if row.Some? && row.value.payload.UserProven? && active
      then next.(sessions := next.sessions + [Session(row.value.payload.user, row.value.id)])
      else next
    case CalendarStart(state) =>
      (match IssueToken(s, CalendarState, state, FlowStarted, OAUTH_STATE_TTL) case Some(next) => next case None => s)
    case CalendarCallback(state) => Consume(s, CalendarState, state).0
    case PurgeSelect(sweep, ids) =>
      if ids <= ExpiredIds(s) then s.(purging := s.purging[sweep := ids]) else s
    case PurgeDelete(sweep) =>
      if sweep !in s.purging then s
      else s.(live := map k | k in s.live && s.live[k].id !in s.purging[sweep] :: s.live[k],
              purging := s.purging - {sweep})
    case Tick(elapsed) => s.(clock := s.clock + elapsed)
  }

  function Run(s: Store, acts: seq<Action>): Store
    decreases |acts|
  {
    if acts == [] then s else Step(Run(s, acts[..|acts| - 1]), acts[|acts| - 1])
  }

  // --- the invariant -------------------------------------------------------

  /** The row's payload has been handed out. */
  predicate Handed(consumed: seq<Consumption>, row: nat) {
    exists i :: 0 <= i < |consumed| && consumed[i].row == row
  }

  /** A live row is the row its id says it is, and has not been handed out. */
  ghost predicate LiveMatchIssued(live: map<(Purpose, string), Row>, issued: seq<Issue>, consumed: seq<Consumption>) {
    forall k :: k in live ==>
      && live[k].id < |issued|
      && issued[live[k].id] == Issue(k.0, k.1, live[k].payload, live[k].expiresAt)
      && !Handed(consumed, live[k].id)
  }

  /** Payloads leave the store once each, and strictly before they expire. */
  ghost predicate HandedOnce(issued: seq<Issue>, consumed: seq<Consumption>) {
    && (forall i :: 0 <= i < |consumed| ==>
          consumed[i].row < |issued| && consumed[i].at < issued[consumed[i].row].expiresAt)
    && (forall i, j :: 0 <= i < j < |consumed| ==> consumed[i].row != consumed[j].row)
  }

  ghost predicate IsStateRow(issued: seq<Issue>, consumed: seq<Consumption>, row: nat) {
    row < |issued| && issued[row].purpose == SignInState && Handed(consumed, row)
  }

  /** An exchange holds a consumed state row of its own, not used before. */
  ghost predicate ExchangesOwn(issued: seq<Issue>, consumed: seq<Consumption>,
                               exchanging: map<nat, Exchange>, used: set<nat>) {
    && (forall row :: row in used ==> IsStateRow(issued, consumed, row))
    && (forall r :: r in exchanging ==>
          IsStateRow(issued, consumed, exchanging[r].stateRow) && exchanging[r].stateRow !in used)
    && (forall q, r :: q in exchanging && r in exchanging && q != r ==>
          exchanging[q].stateRow != exchanging[r].stateRow)
  }

  /** Handoffs come from distinct used states. */
  ghost predicate HandoffsFromStates(issued: seq<Issue>, used: set<nat>) {
    && (forall i :: 0 <= i < |issued| && issued[i].purpose == SignInHandoff ==>
          issued[i].payload.UserProven? && issued[i].payload.stateRow in used)
    && (forall i, j :: 0 <= i < j < |issued| && issued[i].purpose == SignInHandoff
                       && issued[j].purpose == SignInHandoff ==>
          issued[i].payload.stateRow != issued[j].payload.stateRow)
  }

  /** Sessions come from distinct redeemed handoffs, for the handoff's user. */
  ghost predicate SessionsFromHandoffs(issued: seq<Issue>, consumed: seq<Consumption>, sessions: seq<Session>) {
    && (forall i :: 0 <= i < |sessions| ==> Redeemed(issued, consumed, sessions[i]))
    && (forall i, j :: 0 <= i < j < |sessions| ==> sessions[i].handoffRow != sessions[j].handoffRow)
  }

  ghost predicate Redeemed(issued: seq<Issue>, consumed: seq<Consumption>, session: Session) {
    var h := session.handoffRow;
    && h < |issued| && issued[h].purpose == SignInHandoff && Handed(consumed, h)
    && issued[h].payload.UserProven? && issued[h].payload.user == session.user
  }

  /** A sweep only ever marked rows that had expired. */
  ghost predicate PurgesExpired(issued: seq<Issue>, now: Time, purging: map<nat, set<nat>>) {
    forall w :: w in purging ==> AllExpired(issued, now, purging[w])
  }

  ghost predicate AllExpired(issued: seq<Issue>, now: Time, ids: set<nat>) {
    forall i :: i in ids ==> i < |issued| && issued[i].expiresAt <= now
  }

  ghost predicate Inv(s: Store) {
    && LiveMatchIssued(s.live, s.issued, s.consumed)
    && HandedOnce(s.issued, s.consumed)
    && ExchangesOwn(s.issued, s.consumed, s.exchanging, s.used)
    && HandoffsFromStates(s.issued, s.used)
    && SessionsFromHandoffs(s.issued, s.consumed, s.sessions)
    && PurgesExpired(s.issued, s.clock, s.purging)
  }

  // --- issue ---------------------------------------------------------------

  lemma NewRowIsUnhanded(issued: seq<Issue>, consumed: seq<Consumption>)
    requires HandedOnce(issued, consumed)
    ensures !Handed(consumed, |issued|)
  {
  }

  lemma IssueKeepsRecords(s: Store, purpose: Purpose, token: string, payload: Payload, ttl: Time)
    requires Inv(s) && (purpose, token) !in s.live
    ensures var next := IssueToken(s, purpose, token, payload, ttl).value;
      && LiveMatchIssued(next.live, next.issued, s.consumed)
      && HandedOnce(next.issued, s.consumed)
      && SessionsFromHandoffs(next.issued, s.consumed, s.sessions)
      && PurgesExpired(next.issued, s.clock, s.purging)
  {
    var next := IssueToken(s, purpose, token, payload, ttl).value;
    NewRowIsUnhanded(s.issued, s.consumed);
    forall k | k in next.live
      ensures next.live[k].id < |next.issued| && !Handed(s.consumed, next.live[k].id)
      ensures next.issued[next.live[k].id] == Issue(k.0, k.1, next.live[k].payload, next.live[k].expiresAt)
    {
      assert k != (purpose, token) ==> next.live[k] == s.live[k];
    }
    forall i | 0 <= i < |s.sessions| ensures Redeemed(next.issued, s.consumed, s.sessions[i]) {
      assert Redeemed(s.issued, s.consumed, s.sessions[i]);
    }
    forall w | w in s.purging ensures AllExpired(next.issued, s.clock, s.purging[w]) {
      assert AllExpired(s.issued, s.clock, s.purging[w]);
    }
  }

  lemma IssueKeeps(s: Store, purpose: Purpose, token: string, payload: Payload, ttl: Time)
    requires Inv(s) && purpose != SignInHandoff
    requires IssueToken(s, purpose, token, payload, ttl).Some?
    ensures Inv(IssueToken(s, purpose, token, payload, ttl).value)
  {
    var next := IssueToken(s, purpose, token, payload, ttl).value;
    IssueKeepsRecords(s, purpose, token, payload, ttl);
    OtherIssueKeepsChain(s.issued, next.issued[|s.issued|], s.consumed, s.exchanging, s.used);
  }

  lemma OtherIssueKeepsChain(issued: seq<Issue>, row: Issue, consumed: seq<Consumption>,
                             exchanging: map<nat, Exchange>, used: set<nat>)
    requires ExchangesOwn(issued, consumed, exchanging, used) && HandoffsFromStates(issued, used)
    requires row.purpose != SignInHandoff
    ensures ExchangesOwn(issued + [row], consumed, exchanging, used) && HandoffsFromStates(issued + [row], used)
  {
    forall i ensures IsStateRow(issued, consumed, i) ==> IsStateRow(issued + [row], consumed, i) {}
  }

  lemma HandoffIssueKeepsChain(issued: seq<Issue>, row: Issue, consumed: seq<Consumption>,
                               exchanging: map<nat, Exchange>, used: set<nat>, request: nat)
    requires ExchangesOwn(issued, consumed, exchanging, used) && HandoffsFromStates(issued, used)
    requires request in exchanging
    requires row.purpose == SignInHandoff && row.payload.UserProven?
    requires row.payload.stateRow == exchanging[request].stateRow
    ensures ExchangesOwn(issued + [row], consumed, exchanging - {request}, used + {exchanging[request].stateRow})
    ensures HandoffsFromStates(issued + [row], used + {exchanging[request].stateRow})
  {
    forall i ensures IsStateRow(issued, consumed, i) ==> IsStateRow(issued + [row], consumed, i) {}
    var after := exchanging - {request};
    forall r | r in after ensures after[r] == exchanging[r] && after[r].stateRow != exchanging[request].stateRow {}
  }

  lemma HandoffKeeps(s: Store, request: nat, user: UserId, handoff: string)
    requires Inv(s)
    ensures Inv(Step(s, Exchanged(request, user, handoff)))
  {
    if request in s.exchanging {
      ExchangedIs(s, request, user, handoff);
      if (SignInHandoff, handoff) in s.live {
        DroppedIsGood(s, request);
      } else {
        HandoffIssued(s, request, user, handoff);
      }
    }
  }

  lemma ExchangedIs(s: Store, request: nat, user: UserId, handoff: string)
    requires request in s.exchanging
    ensures var from := s.exchanging[request].stateRow;
      var issue := IssueToken(s, SignInHandoff, handoff, UserProven(user, from), HANDOFF_TTL);
      Step(s, Exchanged(request, user, handoff))
      == if issue.Some? then issue.value.(exchanging := s.exchanging - {request}, used := s.used + {from})
         else s.(exchanging := s.exchanging - {request})
  {
  }

  lemma HandoffIssued(s: Store, request: nat, user: UserId, handoff: string)
    requires Inv(s) && request in s.exchanging && (SignInHandoff, handoff) !in s.live
    ensures var from := s.exchanging[request].stateRow;
      Inv(IssueToken(s, SignInHandoff, handoff, UserProven(user, from), HANDOFF_TTL).value.(
          exchanging := s.exchanging - {request}, used := s.used + {from}))
  {
    var payload := UserProven(user, s.exchanging[request].stateRow);
    IssueKeepsRecords(s, SignInHandoff, handoff, payload, HANDOFF_TTL);
    HandoffIssueKeepsChain(s.issued, Issue(SignInHandoff, handoff, payload, s.clock + HANDOFF_TTL),
                           s.consumed, s.exchanging, s.used, request);
  }

  lemma DroppedIsGood(s: Store, request: nat)
    requires Inv(s)
    ensures Inv(s.(exchanging := s.exchanging - {request}))
  {
    DroppingExchangeKeeps(s, request);
  }

  lemma DroppingExchangeKeeps(s: Store, request: nat)
    requires ExchangesOwn(s.issued, s.consumed, s.exchanging, s.used)
    ensures ExchangesOwn(s.issued, s.consumed, s.exchanging - {request}, s.used)
  {
    var after := s.exchanging - {request};
    forall r | r in after ensures after[r] == s.exchanging[r] {}
  }

  // --- consume -------------------------------------------------------------

  lemma HandOutKeeps(s: Store, row: nat, live: map<(Purpose, string), Row>)
    requires Inv(s) && row < |s.issued| && s.clock < s.issued[row].expiresAt && !Handed(s.consumed, row)
    requires forall k :: k in live ==> k in s.live && live[k] == s.live[k] && live[k].id != row
    ensures Inv(s.(live := live, consumed := s.consumed + [Consumption(row, s.clock)]))
    ensures Handed(s.consumed + [Consumption(row, s.clock)], row)
  {
    var consumed := s.consumed + [Consumption(row, s.clock)];
    forall i ensures Handed(consumed, i) == (Handed(s.consumed, i) || i == row) {
      if Handed(s.consumed, i) {
        var k :| 0 <= k < |s.consumed| && s.consumed[k].row == i;
        assert consumed[k].row == i;
      }
      assert consumed[|s.consumed|].row == row;
    }
    forall i | 0 <= i < |s.sessions| ensures Redeemed(s.issued, consumed, s.sessions[i]) {
      assert Redeemed(s.issued, s.consumed, s.sessions[i]);
    }
    forall i ensures IsStateRow(s.issued, s.consumed, i) ==> IsStateRow(s.issued, consumed, i) {}
    forall i | 0 <= i < |s.consumed| ensures s.consumed[i].row != row {
      assert s.consumed[i].row == row ==> Handed(s.consumed, row);
    }
  }

  lemma ConsumeKeeps(s: Store, purpose: Purpose, token: string)
    requires Inv(s)
    ensures var (next, row) := Consume(s, purpose, token);
      && Inv(next)
      && (row.Some? ==>
            && !Handed(s.consumed, row.value.id) && Handed(next.consumed, row.value.id)
            && row.value.id < |s.issued| && s.issued[row.value.id].purpose == purpose
            && s.issued[row.value.id].payload == row.value.payload)
  {
    if (purpose, token) in s.live {
      var row := s.live[(purpose, token)];
      var live := s.live - {(purpose, token)};
      forall k | k in live ensures live[k] == s.live[k] && live[k].id != row.id {
        assert s.issued[s.live[k].id].purpose == k.0 && s.issued[s.live[k].id].token == k.1;
      }
      if row.expiresAt > s.clock {
        HandOutKeeps(s, row.id, live);
      }
    }
  }

  lemma RedeemKeeps(s: Store, handoff: string, active: bool)
    requires Inv(s)
    ensures Inv(Step(s, Redeem(handoff, active)))
  {
    var (next, row) := Consume(s, SignInHandoff, handoff);
    ConsumeKeeps(s, SignInHandoff, handoff);
    if row.Some? && row.value.payload.UserProven? && active {
      forall i | 0 <= i < |s.sessions| ensures s.sessions[i].handoffRow != row.value.id {
        assert Redeemed(s.issued, s.consumed, s.sessions[i]);
      }
      SessionStarts(next, Session(row.value.payload.user, row.value.id));
    }
  }

  lemma SessionStarts(s: Store, session: Session)
    requires Inv(s) && Redeemed(s.issued, s.consumed, session)
    requires forall i :: 0 <= i < |s.sessions| ==> s.sessions[i].handoffRow != session.handoffRow
    ensures Inv(s.(sessions := s.sessions + [session]))
  {
  }

  lemma CallbackKeeps(s: Store, request: nat, state: string)
    requires Inv(s)
    ensures Inv(Step(s, Callback(request, state)))
  {
    if request !in s.exchanging {
      var (next, row) := Consume(s, SignInState, state);
      ConsumeKeeps(s, SignInState, state);
      if row.Some? {
        assert !IsStateRow(s.issued, s.consumed, row.value.id);
        ExchangeStarts(next, request, row.value.id);
      }
    }
  }

  lemma ExchangeStarts(s: Store, request: nat, row: nat)
    requires Inv(s) && request !in s.exchanging && IsStateRow(s.issued, s.consumed, row)
    requires row !in s.used && forall r :: r in s.exchanging ==> s.exchanging[r].stateRow != row
    ensures Inv(s.(exchanging := s.exchanging[request := Exchange(row)]))
  {
  }

  lemma PurgeKeeps(s: Store, sweep: nat, ids: set<nat>)
    requires Inv(s)
    ensures Inv(Step(s, PurgeSelect(sweep, ids))) && Inv(Step(s, PurgeDelete(sweep)))
  {
    if ids <= ExpiredIds(s) {
      forall i | i in ids ensures i < |s.issued| && s.issued[i].expiresAt <= s.clock {
        assert i in ExpiredIds(s);
      }
    }
  }

  lemma TickKeeps(s: Store, elapsed: nat)
    requires Inv(s)
    ensures Inv(Step(s, Tick(elapsed)))
  {
    forall w | w in s.purging ensures AllExpired(s.issued, s.clock + elapsed, s.purging[w]) {
      assert AllExpired(s.issued, s.clock, s.purging[w]);
    }
  }

  lemma StepKeeps(s: Store, a: Action)
    requires Inv(s)
    ensures Inv(Step(s, a))
  {
    match a
    case Start(state) =>
      if (SignInState, state) !in s.live { IssueKeeps(s, SignInState, state, FlowStarted, OAUTH_STATE_TTL); }
    case Callback(request, state) => CallbackKeeps(s, request, state);
    case Exchanged(request, user, handoff) => HandoffKeeps(s, request, user, handoff);
    case ExchangeFailed(request) => DroppedIsGood(s, request);
    case Redeem(handoff, active) => RedeemKeeps(s, handoff, active);
    case CalendarStart(state) =>
      if (CalendarState, state) !in s.live { IssueKeeps(s, CalendarState, state, FlowStarted, OAUTH_STATE_TTL); }
    case CalendarCallback(state) => ConsumeKeeps(s, CalendarState, state);
    case PurgeSelect(sweep, ids) => PurgeKeeps(s, sweep, ids);
    case PurgeDelete(sweep) => PurgeKeeps(s, sweep, {});
    case Tick(elapsed) => TickKeeps(s, elapsed);
  }

  lemma EmptyStoreIsGood(s: Store, now: Time)
    requires s == Store(map[], [], [], map[], {}, [], map[], now)
    ensures Inv(s)
  {
  }

  // --- theorems ------------------------------------------------------------

  /** Nothing issued, handed out or signed in is ever unrecorded. */
  ghost predicate Grows(a: Store, b: Store) {
    && a.issued <= b.issued && a.consumed <= b.consumed && a.sessions <= b.sessions
    && a.used <= b.used && a.clock <= b.clock
  }

  lemma StepGrows(s: Store, a: Action)
    ensures Grows(s, Step(s, a))
  {
  }

  lemma {:induction false} EveryRunIsGood(s: Store, acts: seq<Action>)
    requires Inv(s)
    ensures Inv(Run(s, acts)) && Grows(s, Run(s, acts))
    decreases |acts|
  {
    if acts != [] {
      EveryRunIsGood(s, acts[..|acts| - 1]);
      StepGrows(Run(s, acts[..|acts| - 1]), acts[|acts| - 1]);
      StepKeeps(Run(s, acts[..|acts| - 1]), acts[|acts| - 1]);
    }
  }

  /** The flow a session goes back to: the state row behind its handoff row. */
  function FlowOf(s: Store, session: nat): nat
    requires session < |s.sessions| && s.sessions[session].handoffRow < |s.issued|
    requires s.issued[s.sessions[session].handoffRow].payload.UserProven?
  {
    s.issued[s.sessions[session].handoffRow].payload.stateRow
  }

  /** Every session minted goes back to a started flow of its own, through a
      handoff of its own that was redeemed for the handoff's user; no two
      sessions share either. */
  lemma SessionsComeFromFlows(s: Store, acts: seq<Action>, i: nat)
    requires Inv(s) && i < |Run(s, acts).sessions|
    ensures var now := Run(s, acts);
      var h := now.sessions[i].handoffRow;
      && h < |now.issued| && now.issued[h].purpose == SignInHandoff && Handed(now.consumed, h)
      && now.issued[h].payload.UserProven? && now.issued[h].payload.user == now.sessions[i].user
      && FlowOf(now, i) < |now.issued| && now.issued[FlowOf(now, i)].purpose == SignInState
      && Handed(now.consumed, FlowOf(now, i))
  {
    EveryRunIsGood(s, acts);
    var now := Run(s, acts);
    assert Redeemed(now.issued, now.consumed, now.sessions[i]);
    assert IsStateRow(now.issued, now.consumed, now.issued[now.sessions[i].handoffRow].payload.stateRow);
  }

  lemma SessionsAreInjective(s: Store, acts: seq<Action>, i: nat, j: nat)
    requires Inv(s) && i < j < |Run(s, acts).sessions|
    ensures var now := Run(s, acts);
      && now.sessions[i].handoffRow != now.sessions[j].handoffRow
      && now.sessions[i].handoffRow < |now.issued| && now.sessions[j].handoffRow < |now.issued|
      && now.issued[now.sessions[i].handoffRow].payload.UserProven?
      && now.issued[now.sessions[j].handoffRow].payload.UserProven?
      && FlowOf(now, i) != FlowOf(now, j)
  {
    EveryRunIsGood(s, acts);
    var now := Run(s, acts);
    var a, b := now.sessions[i].handoffRow, now.sessions[j].handoffRow;
    assert Redeemed(now.issued, now.consumed, now.sessions[i]) && Redeemed(now.issued, now.consumed, now.sessions[j]);
    if a < b {
      assert now.issued[a].payload.stateRow != now.issued[b].payload.stateRow;
    } else {
      assert now.issued[b].payload.stateRow != now.issued[a].payload.stateRow;
    }
  }

  /** Each row's payload leaves the store at most once and strictly before its
      expiry, whatever the sweep is doing. */
  lemma PayloadLeavesOnce(s: Store, acts: seq<Action>, i: nat, j: nat)
    requires Inv(s) && i < |Run(s, acts).consumed| && j < |Run(s, acts).consumed|
    ensures var now := Run(s, acts);
      && now.consumed[i].row < |now.issued|
      && now.consumed[i].at < now.issued[now.consumed[i].row].expiresAt
      && (now.consumed[i].row == now.consumed[j].row ==> i == j)
  {
    EveryRunIsGood(s, acts);
    var now := Run(s, acts);
    if i < j {
      assert now.consumed[i].row != now.consumed[j].row;
    } else if j < i {
      assert now.consumed[j].row != now.consumed[i].row;
    }
  }

  /** The sweep takes nothing that could still be used: a row alive now is
      either still there when its DELETE runs or was handed out meanwhile. */
  lemma PurgeSparesTheLiving(s: Store, sweep: nat, k: (Purpose, string))
    requires Inv(s) && k in s.live && s.live[k].expiresAt > s.clock
    ensures k in Step(s, PurgeDelete(sweep)).live && Step(s, PurgeDelete(sweep)).live[k] == s.live[k]
  {
    if sweep in s.purging {
      assert AllExpired(s.issued, s.clock, s.purging[sweep]);
    }
  }

  /** And it does take the dead: a sweep that marks every expired row leaves
      none of them, however long its DELETE takes to come. */
  lemma PurgeTakesTheDead(s: Store, sweep: nat, elapsed: nat, k: (Purpose, string))
    requires k in s.live && s.live[k].expiresAt <= s.clock
    ensures k !in Step(Step(Step(s, PurgeSelect(sweep, ExpiredIds(s))), Tick(elapsed)), PurgeDelete(sweep)).live
  {
    assert s.live[k].id in ExpiredIds(s);
  }

  /** And a flow ends in a session, for the user Google named, exactly when it
      stays inside both its deadlines. */
  lemma PromptFlowSignsIn(s: Store, state: string, request: nat, user: UserId, handoff: string, away: nat, back: nat)
    requires Inv(s) && request !in s.exchanging
    requires (SignInState, state) !in s.live && (SignInHandoff, handoff) !in s.live
    ensures var s1 := Step(Step(s, Start(state)), Tick(away));
      var s2 := Step(Step(s1, Callback(request, state)), Exchanged(request, user, handoff));
      var s3 := Step(Step(s2, Tick(back)), Redeem(handoff, true));
      s3.sessions == if away < 600_000_000 && back < 120_000_000
                     then s.sessions + [Session(user, |s.issued| + 1)] else s.sessions
  {
    var started := Step(s, Start(state));
    assert started.live[(SignInState, state)] == Row(|s.issued|, FlowStarted, s.clock + OAUTH_STATE_TTL);
    var s1 := Step(started, Tick(away));
    var called := Step(s1, Callback(request, state));
    if away >= OAUTH_STATE_TTL {
      assert called == s1.(live := s1.live - {(SignInState, state)});
      return;
    }
    assert called.exchanging[request] == Exchange(|s.issued|) && called.live == s1.live - {(SignInState, state)};
    var s2 := Step(called, Exchanged(request, user, handoff));
    assert s2.live[(SignInHandoff, handoff)]
        == Row(|s.issued| + 1, UserProven(user, |s.issued|), called.clock + HANDOFF_TTL);
  }

  /** What redeeming a handoff does, whoever redeems it: it is gone whatever
      happens, and it makes a session, for the user it stands for, exactly when
      it was there, had not expired, and that user is active. */
  lemma RedeemedExactly(s: Store, handoff: string, active: bool)
    requires Inv(s)
    ensures var after, key := Step(s, Redeem(handoff, active)), (SignInHandoff, handoff);
      && key !in after.live
      && (forall k :: k in s.live && k != key ==> k in after.live && after.live[k] == s.live[k])
      && if key in s.live && s.clock < s.live[key].expiresAt && active
         then
           && s.live[key].payload.UserProven?
           && after.sessions == s.sessions + [Session(s.live[key].payload.user, s.live[key].id)]
         else after.sessions == s.sessions
  {
    var key := (SignInHandoff, handoff);
    if key in s.live { assert s.issued[s.live[key].id].purpose == SignInHandoff; }
  }

  /** A callback whose exchange fails leaves nothing to redeem, and nobody can
      try its state again. */
  lemma FailedExchangeLeavesNothing(s: Store, request: nat, state: string)
    requires Inv(s) && request !in s.exchanging
    ensures var after := Step(Step(s, Callback(request, state)), ExchangeFailed(request));
      && (SignInState, state) !in after.live && request !in after.exchanging
      && after.issued == s.issued && after.sessions == s.sessions && after.used == s.used
  {
  }

  // --- the store -----------------------------------------------------------

  class TokenStore {
    var live: map<(Purpose, string), Row>
    ghost var issued: seq<Issue>
    ghost var consumed: seq<Consumption>
    var nextId: nat
    var clock: Time

    ghost function Now(): Store
      reads this
    {
      Store(live, issued, consumed, map[], {}, [], map[], clock)
    }

    constructor (now: Time)
      ensures Now() == Store(map[], [], [], map[], {}, [], map[], now) && nextId == |issued|
      ensures Inv(Now())
    {
      live, issued, consumed, nextId, clock := map[], [], [], 0, now;
      new;
      EmptyStoreIsGood(Now(), now);
    }

    method IssueOne(purpose: Purpose, token: string, payload: Payload, ttl: Time) returns (ok: bool)
      requires nextId == |issued|
      modifies this`live, this`issued, this`nextId
      ensures nextId == |issued|
      ensures match IssueToken(old(Now()), purpose, token, payload, ttl)
              case Some(next) => ok && Now() == next
              case None => !ok && Now() == old(Now())
      ensures ok <==> (purpose, token) !in old(live)
      ensures live == if ok then old(live)[(purpose, token) := Row(old(nextId), payload, clock + ttl)] else old(live)
    {
      if (purpose, token) in live { return false; }
      live := live[(purpose, token) := Row(nextId, payload, clock + ttl)];
      issued := issued + [Issue.Issue(purpose, token, payload, clock + ttl)];
      nextId := nextId + 1;
      return true;
    }

    method ConsumeToken(purpose: Purpose, token: string) returns (payload: Option<Payload>)
      modifies this`live, this`consumed
      ensures Now() == Consume(old(Now()), purpose, token).0
      ensures var row := Consume(old(Now()), purpose, token).1;
        payload == if row.Some? then Some(row.value.payload) else None
      ensures var key := (purpose, token);
        && live == old(live) - {key}
        && payload == if key in old(live) && clock < old(live)[key].expiresAt then Some(old(live)[key].payload)
                      else None
    {
      if (purpose, token) !in live { return None; }
      var row := live[(purpose, token)];
      var expired := row.expiresAt <= clock;
      live := live - {(purpose, token)};
      if expired { return None; }
      consumed := consumed + [Consumption(row.id, clock)];
      return Some(row.payload);
    }
  }
}
