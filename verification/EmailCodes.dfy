/** One-time email codes and their guess budget (apps/accounts/services.py),
    for one user. Hashing is abstract: a submission matches a stored code or
    it does not. */
module EmailCodes {
  import opened Seqs
  import opened Tables

  const SECOND: Time := 1_000_000
  const TTL: Time := 600 * SECOND
  const MAX_ATTEMPTS: nat := 5
  const RESEND_COOLDOWN_SECONDS: nat := 60
  const COOLDOWN: Time := 60_000_000

  datatype Code = Code(secret: string, issuedAt: Time, expiresAt: Time, attempts: nat, consumedAt: Option<Time>)

  /** A submission that was really compared with a stored code, and what the
      comparison said. */
  datatype Comparison = Comparison(at: Time, code: nat, guess: string, matched: bool)

  datatype Account = Account(verified: bool, codes: seq<Code>, log: seq<Comparison>, clock: Time)

  datatype Answer =
    | Accepted | AlreadyVerified | Cooldown(remaining: int) | CodeInvalid | AttemptsExceeded

  /** Whole seconds, truncated toward zero as int() does. */
  function WholeSeconds(elapsed: Time): int {
    if elapsed >= 0 then elapsed / SECOND else -(-elapsed / SECOND)
  }

  function Remaining(a: Account): int {
    if a.codes == [] then 0
    else RESEND_COOLDOWN_SECONDS - WholeSeconds(a.clock - a.codes[|a.codes| - 1].issuedAt)
  }

  function Insert(a: Account, secret: string): Account {
    a.(codes := a.codes + [Code(secret, a.clock, a.clock + TTL, 0, None)])
  }

  function Requested(a: Account, secret: string): (Account, Answer) {
    if a.verified then (a, AlreadyVerified)
    else if Remaining(a) > 0 then (a, Cooldown(Remaining(a)))
    else (Insert(a, secret), Accepted)
  }

  predicate Spent(c: Code, now: Time) {
    c.consumedAt.Some? || c.expiresAt <= now
  }

  /** The decision on code k under its row lock. */
  function VerifyCode(a: Account, k: nat, guess: string): (Account, Answer) {
    if k >= |a.codes| then (a, CodeInvalid)
    else
      var c := a.codes[k];
      if c.attempts >= MAX_ATTEMPTS then (a, AttemptsExceeded)
      else if Spent(c, a.clock) then (a.(codes := a.codes[k := c.(attempts := c.attempts + 1)]), CodeInvalid)
      else if guess != c.secret then
        (a.(codes := a.codes[k := c.(attempts := c.attempts + 1)],
            log := a.log + [Comparison(a.clock, k, guess, false)]), CodeInvalid)
      else
        (a.(codes := a.codes[k := c.(consumedAt := Some(a.clock))],
            log := a.log + [Comparison(a.clock, k, guess, true)], verified := true), Accepted)
  }

  /** A request served on its own: the latest code is the one compared. */
  function Submitted(a: Account, guess: string): (Account, Answer) {
    if a.verified then (a, AlreadyVerified)
    else if a.codes == [] then (a, CodeInvalid)
    else VerifyCode(a, |a.codes| - 1, guess)
  }

  // --- the budget of one code, under any interleaving ----------------------

  function Against(k: nat): Comparison -> nat {
    (c: Comparison) => if c.code == k then 1 else 0
  }

  function Wins(k: nat): Comparison -> nat {
    (c: Comparison) => if c.code == k && c.matched then 1 else 0
  }

  ghost predicate Budgeted(a: Account) {
    && (forall i :: 0 <= i < |a.log| ==> a.log[i].code < |a.codes|)
    && forall k :: 0 <= k < |a.codes| ==>
         && a.codes[k].attempts <= MAX_ATTEMPTS
         && Sum(a.log, Against(k)) <= MAX_ATTEMPTS
         && (a.codes[k].consumedAt.None? ==> Sum(a.log, Against(k)) <= a.codes[k].attempts)
         && Sum(a.log, Wins(k)) == (if a.codes[k].consumedAt.Some? then 1 else 0)
  }

  datatype Action =
    | Ask(secret: string)             // request_code, served on its own
    | InsertUnchecked(secret: string) // the insert of a request whose cooldown check raced
    | Submit(guess: string)           // verify, served on its own
    | SubmitTo(code: nat, guess: string) // the locked half, on a code read as latest earlier
    | ProvenElsewhere                 // Google proved the address
    | Revoke                          // an operator untrusts it
    | Tick(elapsed: nat)

  function Step(a: Account, act: Action): Account {
    match act
    case Ask(secret) => Requested(a, secret).0
    case InsertUnchecked(secret) => Insert(a, secret)
    case Submit(guess) => Submitted(a, guess).0
    case SubmitTo(k, guess) => VerifyCode(a, k, guess).0
    case ProvenElsewhere => a.(verified := true)
    case Revoke => a.(verified := false)
    case Tick(elapsed) => a.(clock := a.clock + elapsed)
  }

  function Run(a: Account, acts: seq<Action>): Account
    decreases |acts|
  {
    if acts == [] then a else Step(Run(a, acts[..|acts| - 1]), acts[|acts| - 1])
  }

  lemma VerifyCodeKeepsBudget(a: Account, k: nat, guess: string)
    requires Budgeted(a)
    ensures Budgeted(VerifyCode(a, k, guess).0)
  {
    var after := VerifyCode(a, k, guess).0;
    if |after.log| > |a.log| {
      var entry := after.log[|a.log|];
      forall j ensures Sum(after.log, Against(j)) == Sum(a.log, Against(j)) + Against(j)(entry)
               ensures Sum(after.log, Wins(j)) == Sum(a.log, Wins(j)) + Wins(j)(entry)
      {
        SumAppend(a.log, entry, Against(j));
        SumAppend(a.log, entry, Wins(j));
      }
    }
  }

  lemma InsertKeepsBudget(a: Account, secret: string)
    requires Budgeted(a)
    ensures Budgeted(Insert(a, secret))
  {
    var n := |a.codes|;
    forall x | x in a.log ensures Against(n)(x) == 0 && Wins(n)(x) == 0 {}
    SumZero(a.log, Against(n));
    SumZero(a.log, Wins(n));
    var after := Insert(a, secret);
    forall k | 0 <= k < |after.codes|
      ensures k < n ==> after.codes[k] == a.codes[k]
    {
    }
  }

  lemma StepKeepsBudget(a: Account, act: Action)
    requires Budgeted(a)
    ensures Budgeted(Step(a, act))
  {
    match act
    case Ask(secret) => InsertKeepsBudget(a, secret);
    case InsertUnchecked(secret) => InsertKeepsBudget(a, secret);
    case Submit(guess) => if a.codes != [] { VerifyCodeKeepsBudget(a, |a.codes| - 1, guess); }
    case SubmitTo(k, guess) => VerifyCodeKeepsBudget(a, k, guess);
    case ProvenElsewhere =>
    case Revoke =>
    case Tick(elapsed) =>
  }

  /** Under any interleaving, racing requests included: each issued code is
      compared with at most MAX_ATTEMPTS submissions and used at most once. */
  lemma {:induction false} EveryCodeIsBudgeted(a: Account, acts: seq<Action>)
    requires Budgeted(a)
    ensures Budgeted(Run(a, acts))
    decreases |acts|
  {
    if acts != [] {
      EveryCodeIsBudgeted(a, acts[..|acts| - 1]);
      StepKeepsBudget(Run(a, acts[..|acts| - 1]), acts[|acts| - 1]);
    }
  }

  // --- what a submission is told -------------------------------------------

  /** Exactly the submissions accepted: to an unverified address, the very
      secret of its latest code, unused, not yet ten minutes old as issued, and
      with fewer than five attempts against it. It spends the code, verifies
      the address and touches no other code. */
  lemma AcceptedExactly(a: Account, guess: string)
    ensures Submitted(a, guess).1 == Accepted <==>
            && !a.verified && a.codes != []
            && var latest := a.codes[|a.codes| - 1];
               guess == latest.secret && latest.consumedAt.None? && a.clock < latest.expiresAt && latest.attempts < 5
    ensures Submitted(a, guess).1 == Accepted ==>
              var after, last := Submitted(a, guess).0, |a.codes| - 1;
              && after.verified && after.clock == a.clock
              && after.codes == a.codes[last := a.codes[last].(consumedAt := Some(a.clock))]
  {
  }

  /** Any other submission verifies nothing and, while the code has attempts
      left, costs one: a wrong one and one for a dead code alike. */
  lemma RefusedCostsAttempt(a: Account, guess: string)
    requires Submitted(a, guess).1 != Accepted
    ensures var (after, answer) := Submitted(a, guess);
      && after.verified == a.verified && after.clock == a.clock
      && if a.verified then after == a && answer == AlreadyVerified
         else if a.codes == [] then after == a && answer == CodeInvalid
         else
           var last := |a.codes| - 1;
           if a.codes[last].attempts >= 5 then after == a && answer == AttemptsExceeded
           else
             && answer == CodeInvalid
             && after.codes == a.codes[last := a.codes[last].(attempts := a.codes[last].attempts + 1)]
  {
  }

  /** Every comparison ever made matched exactly when the guess was the very
      secret of its code. */
  ghost predicate Truthful(a: Account) {
    forall i :: 0 <= i < |a.log| ==>
      && a.log[i].code < |a.codes|
      && (a.log[i].matched <==> a.log[i].guess == a.codes[a.log[i].code].secret)
  }

  ghost predicate Matched(a: Account, i: nat) {
    i < |a.log| && a.log[i].matched
  }

  /** Secrets stay, the log grows, and an address not verified before is
      verified only by a new comparison that matched. */
  ghost predicate Proven(a: Account, b: Account) {
    && |a.codes| <= |b.codes| && a.log <= b.log
    && (forall k :: 0 <= k < |a.codes| ==> b.codes[k].secret == a.codes[k].secret)
    && (!a.verified && b.verified ==> exists i: nat :: |a.log| <= i && Matched(b, i))
  }

  lemma VerifyIsTruthful(a: Account, k: nat, guess: string)
    requires Truthful(a)
    ensures Truthful(VerifyCode(a, k, guess).0) && Proven(a, VerifyCode(a, k, guess).0)
  {
    var b := VerifyCode(a, k, guess).0;
    if |b.log| > |a.log| { assert Matched(b, |a.log|) <==> b.log[|a.log|].matched; }
  }

  lemma StepIsTruthful(a: Account, act: Action)
    requires Truthful(a)
    ensures Truthful(Step(a, act)) && (act != ProvenElsewhere ==> Proven(a, Step(a, act)))
  {
    match act
    case Submit(guess) => if a.codes != [] { VerifyIsTruthful(a, |a.codes| - 1, guess); }
    case SubmitTo(k, guess) => VerifyIsTruthful(a, k, guess);
    case Ask(secret) =>
    case InsertUnchecked(secret) =>
    case ProvenElsewhere =>
    case Revoke =>
    case Tick(elapsed) =>
  }

  lemma ProvenOn(a: Account, b: Account, c: Account)
    requires Proven(a, b) && Proven(b, c)
    ensures Proven(a, c)
  {
    if !a.verified && c.verified {
      if b.verified {
        var i: nat :| |a.log| <= i && Matched(b, i);
        assert Matched(c, i);
      } else {
        var i: nat :| |b.log| <= i && Matched(c, i);
        assert |a.log| <= i;
      }
    }
  }

  /** Over any interleaving in which nobody proves the address elsewhere, it is
      verified only by somebody who submitted the secret of one of its codes. */
  lemma {:induction false} VerifiedByTheSecret(a: Account, acts: seq<Action>)
    requires Truthful(a) && forall i :: 0 <= i < |acts| ==> acts[i] != ProvenElsewhere
    ensures Truthful(Run(a, acts)) && Proven(a, Run(a, acts))
    ensures var b := Run(a, acts);
      !a.verified && b.verified ==>
        exists i :: |a.log| <= i < |b.log| && b.log[i].code < |b.codes|
                    && b.log[i].guess == b.codes[b.log[i].code].secret
    decreases |acts|
  {
    if acts != [] {
      var before := Run(a, acts[..|acts| - 1]);
      VerifiedByTheSecret(a, acts[..|acts| - 1]);
      StepIsTruthful(before, acts[|acts| - 1]);
      ProvenOn(a, before, Run(a, acts));
    }
    var b := Run(a, acts);
    if !a.verified && b.verified {
      var i: nat :| |a.log| <= i && Matched(b, i);
      assert b.log[i].guess == b.codes[b.log[i].code].secret;
    }
  }

  // --- the rate over time, everything served one at a time -----------------

  predicate Serial(acts: seq<Action>) {
    forall i :: 0 <= i < |acts| ==> !acts[i].InsertUnchecked? && !acts[i].SubmitTo?
  }

  ghost predicate CodesSpaced(codes: seq<Code>) {
    forall i :: 0 <= i < |codes| - 1 ==> codes[i].issuedAt + COOLDOWN <= codes[i + 1].issuedAt
  }

  ghost predicate LogInOrder(log: seq<Comparison>) {
    forall i, j :: 0 <= i < j < |log| ==> log[i].at <= log[j].at && log[i].code <= log[j].code
  }

  /** A comparison falls between its code's issue and the next code's. */
  ghost predicate WithinReign(codes: seq<Code>, c: Comparison) {
    && c.code < |codes| && codes[c.code].issuedAt <= c.at
    && (c.code + 1 < |codes| ==> c.at <= codes[c.code + 1].issuedAt)
  }

  ghost predicate InReigns(codes: seq<Code>, log: seq<Comparison>, clock: Time) {
    forall i :: 0 <= i < |log| ==> log[i].at <= clock && WithinReign(codes, log[i])
  }

  ghost predicate Orderly(a: Account) {
    && Budgeted(a)
    && CodesSpaced(a.codes) && LogInOrder(a.log)
    && (forall i :: 0 <= i < |a.codes| ==> a.codes[i].issuedAt <= a.clock)
    && InReigns(a.codes, a.log, a.clock)
  }

  /** Whole seconds or not, the wait is over after exactly a minute. */
  lemma CooldownIsMinute(a: Account)
    requires a.codes != []
    ensures Remaining(a) <= 0 <==> a.clock - a.codes[|a.codes| - 1].issuedAt >= 60_000_000
  {
  }

  /** A code just issued is good for exactly ten minutes. */
  lemma FreshCodeLastsItsTtl(a: Account, secret: string, elapsed: nat)
    requires Requested(a, secret).1 == Accepted
    ensures var later := Step(Requested(a, secret).0, Tick(elapsed));
      Submitted(later, secret).1 == Accepted <==> elapsed < 600_000_000
  {
  }

  lemma AskIsOrderly(a: Account, secret: string)
    requires Orderly(a) && Requested(a, secret).1 == Accepted
    ensures Orderly(Requested(a, secret).0)
  {
    InsertKeepsBudget(a, secret);
    if a.codes != [] {
      CooldownIsMinute(a);
    }
    var after := Insert(a, secret);
    forall i | 0 <= i < |a.log| ensures WithinReign(after.codes, a.log[i]) {
      assert WithinReign(a.codes, a.log[i]);
    }
  }

  lemma SubmitKeepsIssues(a: Account, guess: string)
    requires CodesSpaced(a.codes)
    ensures var after := Submitted(a, guess).0;
      && |after.codes| == |a.codes| && CodesSpaced(after.codes)
      && forall i :: 0 <= i < |a.codes| ==> after.codes[i].issuedAt == a.codes[i].issuedAt
  {
  }

  lemma SameIssuesKeepReigns(before: seq<Code>, after: seq<Code>, log: seq<Comparison>, clock: Time)
    requires |before| == |after| && forall i :: 0 <= i < |before| ==> after[i].issuedAt == before[i].issuedAt
    requires InReigns(before, log, clock)
    ensures InReigns(after, log, clock)
  {
    forall i | 0 <= i < |log| ensures log[i].at <= clock && WithinReign(after, log[i]) {
      assert WithinReign(before, log[i]);
    }
  }

  lemma SubmitKeepsReigns(a: Account, guess: string)
    requires CodesSpaced(a.codes) && InReigns(a.codes, a.log, a.clock)
    requires a.codes != [] && a.codes[|a.codes| - 1].issuedAt <= a.clock
    ensures var after := Submitted(a, guess).0; InReigns(after.codes, after.log, a.clock)
  {
    var after := Submitted(a, guess).0;
    SubmitKeepsIssues(a, guess);
    SameIssuesKeepReigns(a.codes, after.codes, a.log, a.clock);
    if |after.log| > |a.log| {
      assert WithinReign(after.codes, after.log[|a.log|]);
      assert after.log[..|a.log|] == a.log;
    }
  }

  lemma SubmitKeepsBudget(a: Account, guess: string)
    requires Budgeted(a)
    ensures Budgeted(Submitted(a, guess).0)
  {
    if a.codes != [] {
      VerifyCodeKeepsBudget(a, |a.codes| - 1, guess);
    }
  }

  lemma OrderlyFromParts(before: Account, after: Account)
    requires Orderly(before) && Budgeted(after) && after.clock == before.clock
    requires |after.codes| == |before.codes| && CodesSpaced(after.codes) && LogInOrder(after.log)
    requires forall i :: 0 <= i < |before.codes| ==> after.codes[i].issuedAt == before.codes[i].issuedAt
    requires InReigns(after.codes, after.log, after.clock)
    ensures Orderly(after)
  {
  }

  lemma SubmitIsOrderly(a: Account, guess: string)
    requires Orderly(a)
    ensures Orderly(Submitted(a, guess).0)
  {
    if a.verified || a.codes == [] {
      assert Submitted(a, guess).0 == a;
    } else {
      SubmitKeepsBudget(a, guess);
      SubmitKeepsIssues(a, guess);
      SubmitKeepsLogOrder(a, guess);
      SubmitKeepsReigns(a, guess);
      OrderlyFromParts(a, Submitted(a, guess).0);
    }
  }

  lemma SubmitKeepsLogOrder(a: Account, guess: string)
    requires LogInOrder(a.log) && a.codes != []
    requires forall i :: 0 <= i < |a.log| ==> a.log[i].at <= a.clock && a.log[i].code < |a.codes|
    ensures LogInOrder(Submitted(a, guess).0.log)
  {
  }

  lemma {:induction false} SerialRunIsOrderly(a: Account, acts: seq<Action>)
    requires Orderly(a) && Serial(acts)
    ensures Orderly(Run(a, acts))
    decreases |acts|
  {
    if acts != [] {
      SerialRunIsOrderly(a, acts[..|acts| - 1]);
      var before, act := Run(a, acts[..|acts| - 1]), acts[|acts| - 1];
      match act
      case Ask(secret) => if Requested(before, secret).1 == Accepted { AskIsOrderly(before, secret); }
      case Submit(guess) => SubmitIsOrderly(before, guess);
      case ProvenElsewhere =>
      case Revoke =>
      case Tick(elapsed) =>
    }
  }

  function InWindow(start: Time, length: nat): Comparison -> nat {
    (c: Comparison) => if start <= c.at <= start + length then 1 else 0
  }

  lemma {:induction false} SpacingAdds(codes: seq<Code>, i: nat, j: nat)
    requires CodesSpaced(codes) && i <= j < |codes|
    ensures codes[j].issuedAt - codes[i].issuedAt >= (j - i) * COOLDOWN
  {
    if i < j {
      SpacingAdds(codes, i, j - 1);
      assert codes[j - 1].issuedAt + COOLDOWN <= codes[j - 1 + 1].issuedAt;
      assert (j - i) * COOLDOWN == (j - 1 - i) * COOLDOWN + COOLDOWN;
    }
  }

  /** The comparisons against codes lo..hi, together. */
  ghost function AgainstRange(log: seq<Comparison>, lo: nat, hi: nat): nat
    requires lo <= hi
    decreases hi - lo
  {
    if lo == hi then 0 else AgainstRange(log, lo, hi - 1) + Sum(log, Against(hi - 1))
  }

  lemma {:induction false} RangeIsBudgeted(a: Account, lo: nat, hi: nat)
    requires Budgeted(a) && lo <= hi <= |a.codes|
    ensures AgainstRange(a.log, lo, hi) <= MAX_ATTEMPTS * (hi - lo)
    decreases hi - lo
  {
    if lo < hi {
      RangeIsBudgeted(a, lo, hi - 1);
    }
  }

  lemma {:induction false} RangeOfTail(log: seq<Comparison>, lo: nat, hi: nat)
    requires log != [] && lo <= hi
    ensures AgainstRange(log, lo, hi)
         == AgainstRange(log[1..], lo, hi) + (if lo <= log[0].code < hi then 1 else 0)
    decreases hi - lo
  {
    if lo < hi {
      RangeOfTail(log, lo, hi - 1);
    }
  }

  lemma {:induction false} WindowInRange(log: seq<Comparison>, start: Time, length: nat, lo: nat, hi: nat)
    requires lo <= hi
    requires forall i :: 0 <= i < |log| && start <= log[i].at <= start + length ==> lo <= log[i].code < hi
    ensures Sum(log, InWindow(start, length)) <= AgainstRange(log, lo, hi)
  {
    if log != [] {
      assert forall i :: 0 <= i < |log[1..]| ==> log[1..][i] == log[i + 1];
      WindowInRange(log[1..], start, length, lo, hi);
      RangeOfTail(log, lo, hi);
    }
  }

  /** The first and the last comparison in the window, if there is any. */
  lemma {:induction false} WindowEnds(log: seq<Comparison>, start: Time, length: nat, n: nat)
    returns (first: nat, last: nat)
    requires n <= |log|
    ensures (forall i :: 0 <= i < n ==> !(start <= log[i].at <= start + length)) ||
            (&& first <= last < n && start <= log[first].at && log[last].at <= start + length
             && start <= log[last].at
             && forall i :: 0 <= i < n && start <= log[i].at <= start + length ==> first <= i <= last)
  {
    first, last := 0, 0;
    if n > 0 {
      first, last := WindowEnds(log, start, length, n - 1);
      if start <= log[n - 1].at <= start + length {
        if forall i :: 0 <= i < n - 1 ==> !(start <= log[i].at <= start + length) {
          first := n - 1;
        }
        last := n - 1;
      }
    }
  }

  /** With requests and verifies all served one at a time, in any window of
      `length` microseconds a user gets at most five comparisons for each full minute
      in it, and ten more. */
  lemma GuessRateIsBounded(a: Account, acts: seq<Action>, start: Time, length: nat)
    requires Orderly(a) && Serial(acts)
    ensures Sum(Run(a, acts).log, InWindow(start, length)) <= MAX_ATTEMPTS * (length / COOLDOWN + 2)
  {
    SerialRunIsOrderly(a, acts);
    OrderlyRate(Run(a, acts), start, length);
  }

  lemma OrderlyRate(a: Account, start: Time, length: nat)
    requires Orderly(a)
    ensures Sum(a.log, InWindow(start, length)) <= MAX_ATTEMPTS * (length / COOLDOWN + 2)
  {
    var first, last := WindowEnds(a.log, start, length, |a.log|);
    if forall i :: 0 <= i < |a.log| ==> !(start <= a.log[i].at <= start + length) {
      WindowInRange(a.log, start, length, 0, 0);
    } else {
      WindowIsBudgeted(a, start, length, first, last);
    }
  }

  lemma WindowIsBudgeted(a: Account, start: Time, length: nat, first: nat, last: nat)
    requires Orderly(a) && first <= last < |a.log| && a.log[last].at - a.log[first].at <= length
    requires forall i :: 0 <= i < |a.log| && start <= a.log[i].at <= start + length ==> first <= i <= last
    ensures Sum(a.log, InWindow(start, length)) <= MAX_ATTEMPTS * (length / COOLDOWN + 2)
  {
    CodesBetween(a.log, start, length, first, last);
    WindowInRange(a.log, start, length, a.log[first].code, a.log[last].code + 1);
    BudgetBetween(a, a.log[first], a.log[last], length);
  }

  lemma BudgetBetween(a: Account, first: Comparison, last: Comparison, length: nat)
    requires Orderly(a) && first in a.log && last in a.log
    requires first.code <= last.code && last.at - first.at <= length
    ensures AgainstRange(a.log, first.code, last.code + 1) <= MAX_ATTEMPTS * (length / COOLDOWN + 2)
  {
    assert WithinReign(a.codes, first) && WithinReign(a.codes, last);
    RangeIsBudgeted(a, first.code, last.code + 1);
    CodesInWindow(a, first, last, length);
    FiveTimes(last.code + 1 - first.code, length / COOLDOWN + 2);
  }

  lemma FiveTimes(x: nat, y: nat)
    requires x <= y
    ensures MAX_ATTEMPTS * x <= MAX_ATTEMPTS * y
  {
  }

  lemma CodesBetween(log: seq<Comparison>, start: Time, length: nat, first: nat, last: nat)
    requires LogInOrder(log) && first <= last < |log|
    requires forall i :: 0 <= i < |log| && start <= log[i].at <= start + length ==> first <= i <= last
    ensures log[first].code <= log[last].code
    ensures forall i :: 0 <= i < |log| && start <= log[i].at <= start + length ==>
                          log[first].code <= log[i].code < log[last].code + 1
  {
  }

  lemma CodesInWindow(a: Account, first: Comparison, last: Comparison, length: nat)
    requires CodesSpaced(a.codes) && WithinReign(a.codes, first) && WithinReign(a.codes, last)
    requires first.code <= last.code && last.at - first.at <= length
    ensures last.code + 1 - first.code <= length / COOLDOWN + 2
  {
    if first.code < last.code {
      SpacingAdds(a.codes, first.code + 1, last.code);
      assert (last.code - first.code - 1) * COOLDOWN <= length;
    }
  }

  lemma NewAccountIsOrderly(now: Time)
    ensures Orderly(Account(false, [], [], now))
  {
  }

  // --- the rate when verifies race -----------------------------------------

  predicate RequestsInTurn(acts: seq<Action>) {
    forall i :: 0 <= i < |acts| ==> !acts[i].InsertUnchecked?
  }

  /** A comparison falls within its code's lifetime. */
  ghost predicate WithinLife(codes: seq<Code>, c: Comparison) {
    c.code < |codes| && codes[c.code].issuedAt <= c.at < codes[c.code].issuedAt + TTL
  }

  ghost predicate CodesDated(codes: seq<Code>, clock: Time) {
    && CodesSpaced(codes)
    && forall k :: 0 <= k < |codes| ==>
         codes[k].issuedAt <= clock && codes[k].expiresAt == codes[k].issuedAt + TTL
  }

  ghost predicate Dated(a: Account) {
    && Budgeted(a) && CodesDated(a.codes, a.clock)
    && forall i :: 0 <= i < |a.log| ==> WithinLife(a.codes, a.log[i])
  }

  lemma AskKeepsDates(a: Account, secret: string)
    requires Dated(a) && Requested(a, secret).1 == Accepted
    ensures Dated(Requested(a, secret).0)
  {
    InsertKeepsBudget(a, secret);
    if a.codes != [] {
      CooldownIsMinute(a);
    }
    var after := Insert(a, secret);
    forall i | 0 <= i < |a.log| ensures WithinLife(after.codes, a.log[i]) {
      assert WithinLife(a.codes, a.log[i]);
    }
  }

  lemma VerifyKeepsDates(a: Account, k: nat, guess: string)
    requires Dated(a)
    ensures Dated(VerifyCode(a, k, guess).0)
  {
    var after := VerifyCode(a, k, guess).0;
    VerifyCodeKeepsBudget(a, k, guess);
    VerifyKeepsIssues(a, k, guess);
    forall i | 0 <= i < |after.log| ensures WithinLife(after.codes, after.log[i]) {
      if i < |a.log| {
        assert after.log[i] == a.log[i] && WithinLife(a.codes, a.log[i]);
      }
    }
  }

  lemma VerifyKeepsIssues(a: Account, k: nat, guess: string)
    requires CodesDated(a.codes, a.clock)
    ensures var after := VerifyCode(a, k, guess).0;
      && |after.codes| == |a.codes| && CodesDated(after.codes, a.clock)
      && forall i :: 0 <= i < |a.codes| ==> after.codes[i].issuedAt == a.codes[i].issuedAt
  {
  }

  lemma {:induction false} RunKeepsDates(a: Account, acts: seq<Action>)
    requires Dated(a) && RequestsInTurn(acts)
    ensures Dated(Run(a, acts))
    decreases |acts|
  {
    if acts != [] {
      RunKeepsDates(a, acts[..|acts| - 1]);
      var before, act := Run(a, acts[..|acts| - 1]), acts[|acts| - 1];
      match act
      case Ask(secret) => if Requested(before, secret).1 == Accepted { AskKeepsDates(before, secret); }
      case Submit(guess) => if before.codes != [] { VerifyKeepsDates(before, |before.codes| - 1, guess); }
      case SubmitTo(k, guess) => VerifyKeepsDates(before, k, guess);
      case ProvenElsewhere =>
      case Revoke =>
      case Tick(elapsed) =>
    }
  }

  /** The codes issued after `from` and up to `to`: a run of neighbours, and
      how many there can be. */
  lemma IssuedWithin(codes: seq<Code>, from: Time, to: Time) returns (lo: nat, hi: nat)
    requires CodesSpaced(codes)
    ensures lo <= hi <= |codes|
    ensures forall k :: 0 <= k < |codes| && from < codes[k].issuedAt <= to ==> lo <= k < hi
    ensures lo < hi ==> (hi - lo - 1) * COOLDOWN < to - from
  {
    lo := 0;
    while lo < |codes| && codes[lo].issuedAt <= from
      invariant lo <= |codes| && forall k :: 0 <= k < lo ==> codes[k].issuedAt <= from
    {
      lo := lo + 1;
    }
    hi := lo;
    while hi < |codes| && codes[hi].issuedAt <= to
      invariant lo <= hi <= |codes| && (hi > lo ==> codes[hi - 1].issuedAt <= to)
    {
      hi := hi + 1;
    }
    if lo < hi { SpacingAdds(codes, lo, hi - 1); }
    forall k | 0 <= k < |codes| && from < codes[k].issuedAt <= to ensures lo <= k < hi {
      if k >= hi { SpacingAdds(codes, hi, k); }
    }
  }

  /** With requests one at a time and verifies racing as they like, in any
      window a user gets at most five comparisons for each code that can be
      alive in it: one for each minute of the window and the lifetime before. */
  lemma RacingVerifiesAreBounded(a: Account, acts: seq<Action>, start: Time, length: nat)
    requires Dated(a) && RequestsInTurn(acts)
    ensures Sum(Run(a, acts).log, InWindow(start, length)) <= MAX_ATTEMPTS * ((length + TTL - 1) / COOLDOWN + 1)
  {
    RunKeepsDates(a, acts);
    DatedRate(Run(a, acts), start, length);
  }

  lemma DatedRate(a: Account, start: Time, length: nat)
    requires Dated(a)
    ensures Sum(a.log, InWindow(start, length)) <= MAX_ATTEMPTS * ((length + TTL - 1) / COOLDOWN + 1)
  {
    var lo, hi := IssuedWithin(a.codes, start - TTL, start + length);
    forall i | 0 <= i < |a.log| && start <= a.log[i].at <= start + length ensures lo <= a.log[i].code < hi {
      assert WithinLife(a.codes, a.log[i]);
    }
    WindowInRange(a.log, start, length, lo, hi);
    RangeIsBudgeted(a, lo, hi);
    FiveTimes(hi - lo, (length + TTL - 1) / COOLDOWN + 1);
  }

  // --- why "requests one at a time" is needed ------------------------------

  /** Requests that all pass the cooldown check before any of them inserts,
      each followed by five wrong submissions. */
  function Racing(n: nat): seq<Action> {
    if n == 0 then [] else Racing(n - 1) + ([InsertUnchecked("000000")] + Wrong(5))
  }

  function Wrong(n: nat): seq<Action> {
    if n == 0 then [] else Wrong(n - 1) + [Submit("1")]
  }

  lemma {:induction false} RunConcat(a: Account, x: seq<Action>, y: seq<Action>)
    ensures Run(a, x + y) == Run(Run(a, x), y)
    decreases |y|
  {
    if y == [] {
      assert x + y == x;
    } else {
      assert (x + y)[..|x + y| - 1] == x + y[..|y| - 1];
      RunConcat(a, x, y[..|y| - 1]);
    }
  }

  lemma RunOne(a: Account, act: Action)
    ensures Run(a, [act]) == Step(a, act)
  {
    assert [act][..0] == [];
  }

  /** An account nobody has verified yet, at one instant. */
  ghost predicate At(a: Account, now: Time, compared: nat) {
    !a.verified && a.clock == now && Sum(a.log, InWindow(now, 0)) == compared
  }

  /** n racing requests give 5 n comparisons in no time at all. */
  lemma {:induction false} RacingRequestsBreakTheRate(now: Time, n: nat)
    ensures Requested(Account(false, [], [], now), "000000").1 == Accepted
    ensures At(Run(Account(false, [], [], now), Racing(n)), now, MAX_ATTEMPTS * n)
  {
    var a := Account(false, [], [], now);
    if n > 0 {
      RacingRequestsBreakTheRate(now, n - 1);
      OneRace(a, Racing(n - 1), now, MAX_ATTEMPTS * (n - 1));
    }
  }

  lemma OneRace(a: Account, acts: seq<Action>, now: Time, compared: nat)
    requires At(Run(a, acts), now, compared)
    ensures At(Run(a, acts + ([InsertUnchecked("000000")] + Wrong(5))), now, compared + 5)
  {
    var before := Run(a, acts);
    RunConcat(a, acts, [InsertUnchecked("000000")] + Wrong(5));
    RunConcat(before, [InsertUnchecked("000000")], Wrong(5));
    RunOne(before, InsertUnchecked("000000"));
    WrongGuesses(Insert(before, "000000"), now, compared, 5);
  }

  ghost predicate LastCodeTried(a: Account, now: Time, n: nat) {
    a.codes != [] && a.codes[|a.codes| - 1] == Code("000000", now, now + TTL, n, None)
  }

  lemma OneWrongGuess(a: Account, now: Time, compared: nat, n: nat)
    requires At(a, now, compared) && LastCodeTried(a, now, n) && n < MAX_ATTEMPTS
    ensures At(Step(a, Submit("1")), now, compared + 1) && LastCodeTried(Step(a, Submit("1")), now, n + 1)
  {
    assert |"1"| != |"000000"|;
    SumAppend(a.log, Comparison(now, |a.codes| - 1, "1", false), InWindow(now, 0));
  }

  lemma OneMoreWrong(a: Account, n: nat)
    requires n > 0
    ensures Run(a, Wrong(n)) == Step(Run(a, Wrong(n - 1)), Submit("1"))
  {
    assert Wrong(n)[..|Wrong(n)| - 1] == Wrong(n - 1);
  }

  lemma {:induction false} WrongGuesses(a: Account, now: Time, compared: nat, n: nat)
    requires At(a, now, compared) && LastCodeTried(a, now, 0) && n <= MAX_ATTEMPTS
    ensures At(Run(a, Wrong(n)), now, compared + n) && LastCodeTried(Run(a, Wrong(n)), now, n)
  {
    if n > 0 {
      WrongGuesses(a, now, compared, n - 1);
      OneMoreWrong(a, n);
      OneWrongGuess(Run(a, Wrong(n - 1)), now, compared + (n - 1), n - 1);
    }
  }

  // --- the service ---------------------------------------------------------

  class EmailVerificationService {
    var verified: bool
    var codes: seq<Code>
    ghost var log: seq<Comparison>
    var clock: Time

    ghost function Now(): Account
      reads this
    {
      Account(verified, codes, log, clock)
    }

    constructor (now: Time)
      ensures Now() == Account(false, [], [], now) && Orderly(Now())
    {
      NewAccountIsOrderly(now);
      verified, codes, log, clock := false, [], [], now;
    }

    method RequestCode(secret: string) returns (answer: Answer)
      modifies this`codes
      ensures (Now(), answer) == Requested(old(Now()), secret)
      ensures answer == Accepted
         <==> !verified && (old(codes) == [] || clock - old(codes)[|old(codes)| - 1].issuedAt >= 60_000_000)
      ensures codes == if answer == Accepted then old(codes) + [Code(secret, clock, clock + 600_000_000, 0, None)]
                       else old(codes)
      ensures old(Orderly(Now())) ==> Orderly(Now())
    {
      if Orderly(Now()) && Requested(Now(), secret).1 == Accepted { AskIsOrderly(Now(), secret); }
      if verified { return AlreadyVerified; }
      if codes != [] {
        var elapsed := clock - codes[|codes| - 1].issuedAt;
        var remaining := RESEND_COOLDOWN_SECONDS - WholeSeconds(elapsed);
        if remaining > 0 { return Cooldown(remaining); }
      }
      codes := codes + [Code(secret, clock, clock + TTL, 0, None)];
      return Accepted;
    }

    /** A wrong submission is answered only after its attempt is stored. */
    method Verify(guess: string) returns (answer: Answer)
      modifies this`verified, this`codes, this`log
      ensures (Now(), answer) == Submitted(old(Now()), guess)
      ensures answer == Accepted ==> codes != [] && guess == codes[|codes| - 1].secret && verified
      ensures answer != Accepted ==> verified == old(verified)
      ensures old(Orderly(Now())) ==> Orderly(Now())
    {
      if Orderly(Now()) { SubmitIsOrderly(Now(), guess); }
      if verified { return AlreadyVerified; }
      if codes == [] { return CodeInvalid; }
      var k := |codes| - 1;
      if codes[k].attempts >= MAX_ATTEMPTS { return AttemptsExceeded; }
      answer := CodeInvalid;
      var spent := codes[k].consumedAt.Some? || codes[k].expiresAt <= clock;
      if !spent {
        log := log + [Comparison(clock, k, guess, guess == codes[k].secret)];
      }
      if spent || guess != codes[k].secret {
        codes := codes[k := codes[k].(attempts := codes[k].attempts + 1)];
      } else {
        codes := codes[k := codes[k].(consumedAt := Some(clock))];
        verified := true;
        answer := Accepted;
      }
    }
  }
}
