/** The cached attendance counter (apps/checkin/selectors.py): increments that
    arrive late or never, reconciles that overlap, and three keys with their
    own lifetimes. The cache behaves as Redis does: an increment keeps a key's
    lifetime, and recreates an expired key at zero with none. */
module Attendance {
  import opened Seqs
  import opened Tables

  const FRESH_TTL: Time := 5_000_000
  const VALUE_TTL: Time := 300_000_000
  /** How long a reconcile may take from its first write to its last. */
  const SLACK: Time := VALUE_TTL - FRESH_TTL

  /** Where the number in the counter comes from. A reconcile remembers, for
      the proofs, what was outstanding and lost when it counted the rows, and
      how many increments had landed then and by the time it wrote. */
  datatype Origin =
    | Reconciled(counted: nat, outstanding: nat, lost: nat, landed: nat, landedAtWrite: nat)
    | Recreated

  datatype Counter = Counter(value: nat, expires: Option<Time>, origin: Origin)

  /** A reconcile in flight: what it counted, and when its counter write landed. */
  datatype Reader = Reader(origin: Origin, wroteAt: Option<Time>)

  datatype State = State(
    used: nat, landed: nat, lost: nat,
    counter: Option<Counter>, capacity: Option<Time>, marker: Option<Time>,
    readers: map<nat, Reader>, clock: Time)

  datatype Action =
    | Admit
    | Bump(lands: bool)
    | Count(reader: nat)
    | WriteCounter(reader: nat, lands: bool)
    | WriteCapacity(reader: nat, lands: bool)
    | WriteFresh(reader: nat, lands: bool)
    | Tick(elapsed: nat)

  predicate Alive(expires: Option<Time>, now: Time) {
    expires.None? || now < expires.value
  }

  predicate CounterAlive(s: State) {
    s.counter.Some? && Alive(s.counter.value.expires, s.clock)
  }

  predicate FreshAlive(s: State) {
    s.marker.Some? && s.clock < s.marker.value
  }

  function Outstanding(s: State): int {
    s.used - s.landed - s.lost
  }

  function Increment(s: State): Counter {
    if CounterAlive(s) then s.counter.value.(value := s.counter.value.value + 1)
    else Counter(1, None, Recreated)
  }

  /** What the fast path serves: only while the marker is alive, and only when
      both values are there. */
  function Served(s: State): Option<nat> {
    if FreshAlive(s) && CounterAlive(s) && s.capacity.Some? && s.clock < s.capacity.value
    then Some(s.counter.value.value) else None
  }

  function Step(s: State, a: Action): State {
    match a
    case Admit => s.(used := s.used + 1)
    case Bump(lands) =>
      if Outstanding(s) <= 0 then s
      else if lands then s.(landed := s.landed + 1, counter := Some(Increment(s)))
      else s.(lost := s.lost + 1)
    case Count(r) =>
      if Outstanding(s) < 0 then s
      else s.(readers := s.readers[r := Reader(Reconciled(s.used, Outstanding(s), s.lost, s.landed, 0), None)])
    case WriteCounter(r, lands) =>
      if r !in s.readers || !lands || s.readers[r].origin.Recreated? then s
      else
        var origin := s.readers[r].origin.(landedAtWrite := s.landed);
        s.(counter := Some(Counter(origin.counted, Some(s.clock + VALUE_TTL), origin)),
           readers := s.readers[r := Reader(origin, Some(s.clock))])
    case WriteCapacity(r, lands) =>
      if r in s.readers && lands then s.(capacity := Some(s.clock + VALUE_TTL)) else s
    case WriteFresh(r, lands) =>
      if r in s.readers && lands then s.(marker := Some(s.clock + FRESH_TTL)) else s
    case Tick(elapsed) => s.(clock := s.clock + elapsed)
  }

  /** The side condition on arming the marker: the counter then is a reconciled
      one, and outlives the marker. */
  predicate ArmsSafely(s: State) {
    && s.counter.Some? && s.counter.value.origin.Reconciled?
    && s.counter.value.expires.Some? && s.clock + FRESH_TTL <= s.counter.value.expires.value
  }

  predicate SafeStep(s: State, a: Action) {
    a.WriteFresh? && a.lands && a.reader in s.readers ==> ArmsSafely(s)
  }

  function Run(s: State, acts: seq<Action>): State
    decreases |acts|
  {
    if acts == [] then s else Run(Step(s, acts[0]), acts[1..])
  }

  predicate SafeRun(s: State, acts: seq<Action>)
    decreases |acts|
  {
    acts == [] || (SafeStep(s, acts[0]) && SafeRun(Step(s, acts[0]), acts[1..]))
  }

  predicate Cold(s: State) {
    && s.landed == 0 && s.lost == 0 && s.counter == None && s.capacity == None && s.marker == None && s.readers == map[]
  }

  /** Exactly when the cache serves, and what: the counter, while the marker,
      the counter and the capacity are all there and none has run out. */
  lemma ServedExactly(s: State, value: nat)
    ensures Served(s) == Some(value) <==>
            && s.counter.Some? && s.counter.value.value == value
            && (s.counter.value.expires.None? || s.clock < s.counter.value.expires.value)
            && s.marker.Some? && s.clock < s.marker.value && s.capacity.Some? && s.clock < s.capacity.value
  {
  }

  // --- the invariant -------------------------------------------------------

  predicate Honest(s: State, o: Origin) {
    o.Reconciled? ==>
      && o.counted == o.outstanding + o.landed + o.lost
      && o.landed <= s.landed && o.lost <= s.lost && o.counted <= s.used
  }

  /** The counter is what was counted plus what has landed since the write. */
  predicate CounterAdds(s: State) {
    s.counter.Some? && s.counter.value.origin.Reconciled? ==>
      var c := s.counter.value;
      && Honest(s, c.origin) && c.origin.landed <= c.origin.landedAtWrite <= s.landed
      && c.value == c.origin.counted + (s.landed - c.origin.landedAtWrite)
  }

  /** From a landed counter write until its lifetime ends, the counter is a
      reconciled one that outlives it. */
  predicate CounterOutlives(s: State, since: Time) {
    s.clock < since + VALUE_TTL ==>
      && s.counter.Some? && s.counter.value.origin.Reconciled?
      && s.counter.value.expires.Some? && s.counter.value.expires.value >= since + VALUE_TTL
  }

  ghost predicate Inv(s: State) {
    && Outstanding(s) >= 0
    && CounterAdds(s)
    && (s.counter.Some? ==> (s.counter.value.origin.Reconciled? <==> s.counter.value.expires.Some?))
    && (forall r :: r in s.readers ==>
          && s.readers[r].origin.Reconciled? && Honest(s, s.readers[r].origin)
          && (s.readers[r].wroteAt.Some? ==>
                CounterOutlives(s, s.readers[r].wroteAt.value) && s.readers[r].wroteAt.value <= s.clock))
    && (s.marker.Some? ==> s.marker.value <= s.clock + FRESH_TTL)
    && (FreshAlive(s) ==>
          && s.counter.Some? && s.counter.value.origin.Reconciled?
          && s.counter.value.expires.Some? && s.marker.value <= s.counter.value.expires.value)
  }

  lemma WriteCounterKeeps(s: State, r: nat, lands: bool)
    requires Inv(s)
    ensures Inv(Step(s, WriteCounter(r, lands)))
  {
  }

  lemma WriteFreshKeeps(s: State, r: nat, lands: bool)
    requires Inv(s) && SafeStep(s, WriteFresh(r, lands))
    ensures Inv(Step(s, WriteFresh(r, lands)))
  {
  }

  lemma BumpKeeps(s: State, lands: bool)
    requires Inv(s)
    ensures Inv(Step(s, Bump(lands)))
  {
  }

  lemma StepKeeps(s: State, a: Action)
    requires Inv(s) && SafeStep(s, a)
    ensures Inv(Step(s, a))
  {
    match a
    case WriteFresh(r, lands) => WriteFreshKeeps(s, r, lands);
    case WriteCounter(r, lands) => WriteCounterKeeps(s, r, lands);
    case Bump(lands) => BumpKeeps(s, lands);
    case Admit =>
    case Count(r) =>
    case WriteCapacity(r, lands) =>
    case Tick(elapsed) =>
  }

  lemma {:induction false} RunKeeps(s: State, acts: seq<Action>)
    requires Inv(s) && SafeRun(s, acts)
    ensures Inv(Run(s, acts))
    decreases |acts|
  {
    if acts != [] {
      StepKeeps(s, acts[0]);
      RunKeeps(Step(s, acts[0]), acts[1..]);
    }
  }

  /** A reconcile whose own counter write landed, at most SLACK ago, arms the
      marker safely. */
  lemma TimelyReconcileArmsSafely(s: State, r: nat)
    requires Inv(s) && r in s.readers && s.readers[r].wroteAt.Some?
    requires s.clock <= s.readers[r].wroteAt.value + SLACK
    ensures ArmsSafely(s)
  {
    assert CounterOutlives(s, s.readers[r].wroteAt.value);
  }

  /** A counter that increments recreated is being served. */
  predicate ServesRecreated(s: State) {
    Served(s).Some? && s.counter.value.origin.Recreated?
  }

  function Armed(s: State, r: nat): State {
    Step(s, WriteFresh(r, true))
  }

  /** The condition is exact: arming the marker is safe if and only if nothing
      that can follow ever has a recreated counter served, other armings being
      safe. */
  lemma ArmingIsSafeExactly(s: State, r: nat)
    requires Inv(s) && r in s.readers
    ensures ArmsSafely(s) <==> !exists acts :: Exposes(s, r, acts)
  {
    if ArmsSafely(s) {
      StepKeeps(s, WriteFresh(r, true));
      forall acts ensures !Exposes(s, r, acts) {
        if SafeRun(Armed(s, r), acts) { RunKeeps(Armed(s, r), acts); }
      }
    } else {
      UnsafeArmingExposes(s, r);
    }
  }

  /** After arming in s, `acts` arm safely and end with a recreated counter
      being served. */
  ghost predicate Exposes(s: State, r: nat, acts: seq<Action>) {
    SafeRun(Armed(s, r), acts) && ServesRecreated(Run(Armed(s, r), acts))
  }

  /** What follows an unsafe arming: the counter runs out while the marker
      lives, one person comes in, and the capacity is written. */
  function Exposure(s: State, r: nat): seq<Action> {
    var left := if s.counter.Some? && s.counter.value.expires.Some? && s.counter.value.expires.value > s.clock
                then s.counter.value.expires.value - s.clock else 0;
    [Tick(left), Admit, Bump(true), WriteCapacity(r, true)]
  }

  lemma UnsafeArmingExposes(s: State, r: nat)
    requires Inv(s) && r in s.readers && !ArmsSafely(s)
    ensures Exposes(s, r, Exposure(s, r))
  {
    var t := Exposure(s, r);
    RunFour(Armed(s, r), t[0], t[1], t[2], t[3]);
    assert t == [t[0], t[1], t[2], t[3]];
  }

  lemma {:induction false} MarkerOnlyMovesOn(s: State, acts: seq<Action>)
    requires s.marker.Some? && s.marker.value <= s.clock + FRESH_TTL
    ensures var now := Run(s, acts); now.marker.Some? && now.marker.value >= s.marker.value
    decreases |acts|
  {
    if acts != [] {
      MarkerOnlyMovesOn(Step(s, acts[0]), acts[1..]);
    }
  }

  lemma {:induction false} SafeRunSplits(s: State, a: seq<Action>, b: seq<Action>)
    ensures SafeRun(s, a + b) <==> SafeRun(s, a) && SafeRun(Run(s, a), b)
    decreases |a|
  {
    if a == [] {
      assert a + b == b;
    } else {
      assert (a + b)[1..] == a[1..] + b;
      SafeRunSplits(Step(s, a[0]), a[1..], b);
    }
  }

  /** How a reader gets its number: it saw the marker alive in `seen`, then,
      before that marker could run out, the counter alive in `now`. */
  predicate ReadAs(seen: State, now: State) {
    FreshAlive(seen) && CounterAlive(now) && now.clock < seen.marker.value
  }

  /** A value served from the cache is off by exactly
        what was outstanding when its reconcile counted
        - what is outstanding now
        - what has been lost since
        - what landed between the count and the write (and was overwritten),
      so too high by at most the first and too low by at most the rest; and it
      never comes from a counter that an increment recreated. Anything may
      happen between the read of the marker and the read of the counter. */
  lemma DriftIsExact(s: State, before: seq<Action>, between: seq<Action>)
    requires Cold(s) && SafeRun(s, before + between) && ReadAs(Run(s, before), Run(s, before + between))
    ensures var now := Run(s, before + between);
      var value, o := now.counter.value.value, now.counter.value.origin;
      && o.Reconciled?
      && value - now.used == o.outstanding - Outstanding(now) - (now.lost - o.lost) - (o.landedAtWrite - o.landed)
      && now.lost >= o.lost && o.landedAtWrite >= o.landed
      && value - now.used <= o.outstanding
      && now.used - value <= Outstanding(now) + (now.lost - o.lost) + (o.landedAtWrite - o.landed)
  {
    SafeRunSplits(s, before, between);
    RunConcat(s, before, between);
    RunKeeps(s, before);
    RunKeeps(Run(s, before), between);
    MarkerOnlyMovesOn(Run(s, before), between);
  }

  /** A whole reconcile: count the rows, then the three writes. */
  function ReconcileSteps(r: nat): seq<Action> {
    [Count(r), WriteCounter(r, true), WriteCapacity(r, true), WriteFresh(r, true)]
  }

  function Reconciliation(s: State): Origin
    requires Outstanding(s) >= 0
  {
    Reconciled(s.used, Outstanding(s), s.lost, s.landed, s.landed)
  }

  function AfterReconcile(s: State, r: nat): State
    requires Outstanding(s) >= 0
  {
    s.(counter := Some(Counter(s.used, Some(s.clock + VALUE_TTL), Reconciliation(s))),
       capacity := Some(s.clock + VALUE_TTL), marker := Some(s.clock + FRESH_TTL),
       readers := s.readers[r := Reader(Reconciliation(s), Some(s.clock))])
  }

  lemma CountThenWrite(s: State, r: nat)
    requires Outstanding(s) >= 0
    ensures Step(Step(s, Count(r)), WriteCounter(r, true))
         == s.(counter := Some(Counter(s.used, Some(s.clock + VALUE_TTL), Reconciliation(s))),
               readers := s.readers[r := Reader(Reconciliation(s), Some(s.clock))])
  {
    var s1 := Step(s, Count(r));
    assert s1.readers[r := Reader(Reconciliation(s), Some(s.clock))]
        == s.readers[r := Reader(Reconciliation(s), Some(s.clock))];
  }

  lemma ReconcileWrites(s: State, r: nat)
    requires Outstanding(s) >= 0
    ensures SafeRun(s, ReconcileSteps(r)) && Run(s, ReconcileSteps(r)) == AfterReconcile(s, r)
  {
    CountThenWrite(s, r);
    RunFour(s, Count(r), WriteCounter(r, true), WriteCapacity(r, true), WriteFresh(r, true));
  }

  lemma RunFour(s: State, a: Action, b: Action, c: Action, d: Action)
    ensures Run(s, [a, b, c, d]) == Step(Step(Step(Step(s, a), b), c), d)
    ensures
      SafeRun(s, [a, b, c, d])
      <==> && SafeStep(s, a) && SafeStep(Step(s, a), b) && SafeStep(Step(Step(s, a), b), c)
           && SafeStep(Step(Step(Step(s, a), b), c), d)
  {
    var t := [a, b, c, d];
    var s1 := Step(s, a);
    var s2 := Step(s1, b);
    var s3 := Step(s2, c);
    assert t[0..] == t && t[1..][1..] == t[2..] && t[2..][1..] == t[3..];
    RunFrom(s, t, 0);
    RunFrom(s1, t, 1);
    RunFrom(s2, t, 2);
    RunFrom(s3, t, 3);
    assert SafeRun(s3, t[3..]) <==> SafeStep(s3, d);
    assert SafeRun(s2, t[2..]) <==> SafeStep(s2, c) && SafeStep(s3, d);
    assert SafeRun(s1, t[1..]) <==> SafeStep(s1, b) && SafeStep(s2, c) && SafeStep(s3, d);
  }

  lemma ReconcileServes(s: State, r: nat)
    requires Outstanding(s) >= 0
    ensures Run(s, ReconcileSteps(r)) == AfterReconcile(s, r)
    ensures Inv(s) ==> Inv(AfterReconcile(s, r))
    ensures Served(AfterReconcile(s, r)) == Some(s.used)
  {
    ReconcileWrites(s, r);
    if Inv(s) { RunKeeps(s, ReconcileSteps(r)); }
  }

  /** A reconcile with nothing in between serves the true count. */
  lemma ReconcileResetsError(s: State, r: nat)
    requires Inv(s)
    ensures var now := Run(s, ReconcileSteps(r));
      Inv(now) && Served(now) == Some(s.used) && now.used == s.used
  {
    ReconcileServes(s, r);
  }

  /** One way to miss the condition: a reconcile that takes any longer than
      SLACK between its first and last write can have a recreated counter
      served, showing one person in a full house. */
  lemma SlowReconcileServesRecreated(s: State, used: nat, gap: nat)
    requires Cold(s) && s.used == 0 && used > 0 && gap > SLACK
    ensures var now := Run(s, Admissions(used) + SlowReconcile(gap));
      now.used == used && Served(now) == Some(1) && ServesRecreated(now)
  {
    AdmissionsAdmit(s, used);
    RunConcat(s, Admissions(used), SlowReconcile(gap));
    SlowTail(s.(used := used), gap);
  }

  function SlowReconcile(gap: nat): seq<Action> {
    SlowWrites(gap) + LateArming(gap)
  }

  function SlowWrites(gap: nat): seq<Action> {
    [Count(0), WriteCounter(0, true), Tick(gap), WriteCapacity(0, true)]
  }

  /** The marker, and an increment once the counter has run out. */
  function LateArming(gap: nat): seq<Action> {
    [WriteFresh(0, true), Tick(if gap < VALUE_TTL then VALUE_TTL - gap else 0), Bump(true)]
  }

  lemma SlowTail(s: State, gap: nat)
    requires s.used > 0 && s.landed == 0 && s.lost == 0 && gap > SLACK
    ensures var now := Run(s, SlowReconcile(gap));
      now.used == s.used && Served(now) == Some(1) && ServesRecreated(now)
  {
    var mid := SlowWritesRun(s, gap);
    RunConcat(s, SlowWrites(gap), LateArming(gap));
    LateTail(mid, s.clock, gap);
  }

  lemma SlowWritesRun(s: State, gap: nat) returns (now: State)
    requires Outstanding(s) >= 0
    ensures now == Run(s, SlowWrites(gap))
    ensures
      && now.clock == s.clock + gap && now.used == s.used && now.landed == s.landed && now.lost == s.lost
      && now.counter.Some? && now.counter.value.expires == Some(s.clock + VALUE_TTL) && 0 in now.readers
      && now.capacity == Some(s.clock + gap + VALUE_TTL)
  {
    now := Run(s, SlowWrites(gap));
    RunFour(s, Count(0), WriteCounter(0, true), Tick(gap), WriteCapacity(0, true));
    CountThenWrite(s, 0);
  }

  /** The marker is armed on a counter that expires first, and an increment
      recreates the counter while the marker lives. */
  lemma LateTail(s: State, start: Time, gap: nat)
    requires s.used > 0 && s.landed == 0 && s.lost == 0 && gap > SLACK && s.clock == start + gap && 0 in s.readers
    requires s.counter.Some? && s.counter.value.expires == Some(start + VALUE_TTL)
    requires s.capacity == Some(start + gap + VALUE_TTL)
    ensures var now := Run(s, LateArming(gap));
      now.used == s.used && Served(now) == Some(1) && ServesRecreated(now)
  {
    RunThree(s, LateArming(gap)[0], LateArming(gap)[1], LateArming(gap)[2]);
  }

  lemma RunThree(s: State, a: Action, b: Action, c: Action)
    ensures Run(s, [a, b, c]) == Step(Step(Step(s, a), b), c)
  {
    var t := [a, b, c];
    assert t[0..] == t && t[3..] == [];
    RunFrom(s, t, 0);
    RunFrom(Step(s, a), t, 1);
    RunFrom(Step(Step(s, a), b), t, 2);
  }

  /** The other way, in no time at all: the reconcile's own counter write is
      lost, its others land, and a counter recreated before it is served. */
  lemma LostWriteServesRecreated(s: State, used: nat)
    requires Cold(s) && s.used == 0 && used > 0
    ensures var now := Run(s, Admissions(used) + LostWrite());
      now.used == used && now.clock == s.clock && Served(now) == Some(1) && ServesRecreated(now)
  {
    AdmissionsAdmit(s, used);
    RunConcat(s, Admissions(used), LostWrite());
    LostWriteRun(s.(used := used));
  }

  function LostWrite(): seq<Action> {
    [Bump(true)] + Writes(0, false, true, true)
  }

  lemma LostWriteRun(s: State)
    requires Outstanding(s) > 0 && s.counter.None?
    ensures var now := Run(s, LostWrite());
      now.used == s.used && now.clock == s.clock && Served(now) == Some(1) && ServesRecreated(now)
  {
    RunConcat(s, [Bump(true)], Writes(0, false, true, true));
    RunOne(s, Bump(true));
    LostWriteTail(Step(s, Bump(true)));
  }

  lemma RunOne(s: State, a: Action)
    ensures Run(s, [a]) == Step(s, a)
  {
    assert [a][1..] == [];
  }

  lemma LostWriteTail(s: State)
    requires Outstanding(s) >= 0 && s.counter == Some(Counter(1, None, Recreated))
    ensures var now := Run(s, Writes(0, false, true, true));
      now.used == s.used && now.clock == s.clock && Served(now) == Some(1) && now.counter == s.counter
  {
    WritesRun(s, 0, false, true, true);
    LostWriteLeaves(s);
  }

  lemma LostWriteLeaves(s: State)
    requires Outstanding(s) >= 0 && s.counter == Some(Counter(1, None, Recreated))
    ensures
      var now := Step(Step(Step(Step(s, Count(0)), WriteCounter(0, false)), WriteCapacity(0, true)),
                      WriteFresh(0, true));
      now.used == s.used && now.clock == s.clock && Served(now) == Some(1) && now.counter == s.counter
  {
    var s1 := Step(s, Count(0));
    assert Step(s1, WriteCounter(0, false)) == s1;
  }

  /** Reading the counter after the marker seen has run out is not covered: it
      may by then be a recreated one, however soundly it was written. */
  lemma LateReadSeesRecreated(s: State)
    requires Cold(s)
    ensures exists before, between ::
              && SafeRun(s, before + between) && FreshAlive(Run(s, before)) && CounterAlive(Run(s, before + between))
              && Run(s, before + between).counter.value.origin.Recreated?
  {
    var before, between := ReconcileSteps(0), [Tick(VALUE_TTL), Admit, Bump(true), Tick(0)];
    ReconcileWrites(s, 0);
    RunsOut(AfterReconcile(s, 0));
    SafeRunSplits(s, before, between);
    RunConcat(s, before, between);
  }

  lemma RunsOut(s: State)
    requires Outstanding(s) >= 0 && s.counter.Some? && s.counter.value.expires == Some(s.clock + VALUE_TTL)
    ensures var t := [Tick(VALUE_TTL), Admit, Bump(true), Tick(0)];
      SafeRun(s, t) && CounterAlive(Run(s, t)) && Run(s, t).counter.value.origin.Recreated?
  {
    RunFour(s, Tick(VALUE_TTL), Admit, Bump(true), Tick(0));
  }

  function Admissions(n: nat): seq<Action> {
    seq(n, _ => Admit)
  }

  lemma {:induction false} AdmissionsAdmit(s: State, n: nat)
    ensures Run(s, Admissions(n)) == s.(used := s.used + n)
    decreases n
  {
    if n > 0 {
      assert Admissions(n)[1..] == Admissions(n - 1);
      AdmissionsAdmit(Step(s, Admit), n - 1);
    }
  }

  lemma {:induction false} RunConcat(s: State, a: seq<Action>, b: seq<Action>)
    ensures Run(s, a + b) == Run(Run(s, a), b)
    decreases |a|
  {
    if a == [] {
      assert a + b == b;
    } else {
      assert (a + b)[1..] == a[1..] + b;
      RunConcat(Step(s, a[0]), a[1..], b);
    }
  }

  lemma RunFrom(s: State, acts: seq<Action>, k: nat)
    requires k < |acts|
    ensures Run(s, acts[k..]) == Run(Step(s, acts[k]), acts[k + 1..])
  {
    assert acts[k..][1..] == acts[k + 1..];
  }

  datatype Entry = Entry(value: nat, expires: Option<Time>)

  /** The selector as it runs: three keys overwritten in place. */
  class AttendanceCache {
    var used: nat  // the used-ticket rows, as the database counts them
    var counter: Option<Entry>
    var capacity: Option<Time>
    var marker: Option<Time>
    var clock: Time
    ghost var origin: Origin
    ghost var landed: nat
    ghost var lost: nat
    ghost var readers: map<nat, Reader>  // reconciles in flight

    ghost function Now(): State
      reads this
    {
      var held := if counter.Some? then Some(Counter(counter.value.value, counter.value.expires, origin)) else None;
      State(used, landed, lost, held, capacity, marker, readers, clock)
    }

    /** Called after an admission commits. */
    method BumpAttendance()
      requires Outstanding(Now()) > 0
      modifies this`counter, this`origin, this`landed
      ensures Now() == Step(old(Now()), Bump(true))
      ensures counter == Some(
                if old(counter).Some? && (old(counter).value.expires.None? || clock < old(counter).value.expires.value)
                then Entry(old(counter).value.value + 1, old(counter).value.expires) else Entry(1, None))
    {
      landed := landed + 1;
      if counter.Some? && (counter.value.expires.None? || clock < counter.value.expires.value) {
        counter := Some(counter.value.(value := counter.value.value + 1));
      } else {
        counter := Some(Entry(1, None));
        origin := Recreated;
      }
    }

    /** The four steps of a reconcile; a write that fails is swallowed. */
    method CountUsed(reader: nat) returns (admitted: nat)
      requires Outstanding(Now()) >= 0
      modifies this`readers
      ensures admitted == used && Now() == Step(old(Now()), Count(reader))
    {
      readers := readers[reader := Reader(Reconciled(used, Outstanding(Now()), lost, landed, 0), None)];
      admitted := used;
    }

    method SetCounter(reader: nat, admitted: nat, lands: bool)
      requires reader in readers && readers[reader].origin.Reconciled? && readers[reader].origin.counted == admitted
      modifies this`counter, this`origin, this`readers
      ensures Now() == Step(old(Now()), WriteCounter(reader, lands))
      ensures counter == if lands then Some(Entry(admitted, Some(clock + 300_000_000))) else old(counter)
    {
      if lands {
        counter := Some(Entry(admitted, Some(clock + VALUE_TTL)));
        origin := readers[reader].origin.(landedAtWrite := landed);
        readers := readers[reader := Reader(origin, Some(clock))];
      }
    }

    method SetCapacity(ghost reader: nat, lands: bool)
      requires reader in readers
      modifies this`capacity
      ensures Now() == Step(old(Now()), WriteCapacity(reader, lands))
      ensures capacity == if lands then Some(clock + 300_000_000) else old(capacity)
    {
      if lands { capacity := Some(clock + VALUE_TTL); }
    }

    method SetFresh(ghost reader: nat, lands: bool)
      requires reader in readers
      modifies this`marker
      ensures Now() == Step(old(Now()), WriteFresh(reader, lands))
      ensures marker == if lands then Some(clock + 5_000_000) else old(marker)
    {
      if lands { marker := Some(clock + FRESH_TTL); }
    }

    method Reconcile(reader: nat, counterLands: bool, capacityLands: bool, freshLands: bool) returns (admitted: nat)
      requires Outstanding(Now()) >= 0
      modifies this`counter, this`origin, this`capacity, this`marker, this`readers
      ensures admitted == used
      ensures Now() == Run(old(Now()), Writes(reader, counterLands, capacityLands, freshLands))
    {
      WritesRun(Now(), reader, counterLands, capacityLands, freshLands);
      admitted := CountUsed(reader);
      SetCounter(reader, admitted, counterLands);
      SetCapacity(reader, capacityLands);
      SetFresh(reader, freshLands);
    }

    /** Serve the cached count untouched, or count the rows and write the three
        keys, each of which may fail; a cache that cannot be read is a miss.
        The true count is what a miss returns either way. */
    method GetAttendance(reader: nat, readable: bool, counterLands: bool, capacityLands: bool, freshLands: bool)
      returns (admitted: nat)
      requires Outstanding(Now()) >= 0
      modifies this`counter, this`origin, this`capacity, this`marker, this`readers
      ensures readable && Served(old(Now())).Some? ==> Some(admitted) == Served(old(Now())) && Now() == old(Now())
      ensures !(readable && Served(old(Now())).Some?) ==>
                && admitted == used
                && Now() == Run(old(Now()), Writes(reader, counterLands, capacityLands, freshLands))
      ensures old(Inv(Now())) && (freshLands ==> counterLands || ArmsSafely(old(Now()))) ==> Inv(Now())
    {
      if readable && marker.Some? && clock < marker.value {
        if counter.Some? && (counter.value.expires.None? || clock < counter.value.expires.value)
           && capacity.Some? && clock < capacity.value {
          return counter.value.value;
        }
      }
      WritesRun(Now(), reader, counterLands, capacityLands, freshLands);
      admitted := Reconcile(reader, counterLands, capacityLands, freshLands);
    }
  }

  function Writes(r: nat, counter: bool, capacity: bool, marker: bool): seq<Action> {
    [Count(r), WriteCounter(r, counter), WriteCapacity(r, capacity), WriteFresh(r, marker)]
  }

  lemma WritesRun(s: State, r: nat, counter: bool, capacity: bool, marker: bool)
    requires Outstanding(s) >= 0
    ensures Run(s, Writes(r, counter, capacity, marker))
         == Step(Step(Step(Step(s, Count(r)), WriteCounter(r, counter)), WriteCapacity(r, capacity)),
                 WriteFresh(r, marker))
    ensures Inv(s) && (marker ==> counter || ArmsSafely(s)) ==> Inv(Run(s, Writes(r, counter, capacity, marker)))
  {
    RunFour(s, Count(r), WriteCounter(r, counter), WriteCapacity(r, capacity), WriteFresh(r, marker));
    if Inv(s) && (marker ==> counter || ArmsSafely(s)) {
      RunKeeps(s, Writes(r, counter, capacity, marker));
    }
  }
}
