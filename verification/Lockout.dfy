/** The failed-attempt table of internal/auth/service.go: a fixed window with a lockout, and pruning. */
module Lockout {
  /** Instants; 0 is the zero time, so a real clock reads positive instants. */
  type Time = int

  datatype Policy = Policy(maxAttempts: int, window: int, lockout: int)

  /** What the configuration loader accepts. */
  predicate ValidPolicy(p: Policy) {
    p.maxAttempts > 0 && p.window > 0 && p.lockout > 0
  }

  datatype Attempt = Attempt(count: nat, windowStart: Time, blockedUntil: Time)

  type Attempts = map<string, Attempt>

  /** One re-authentication: `correct` is the outcome of the password check, should it be made;
      `busy` says that no verification slot is free. */
  datatype Request = Request(key: string, now: Time, busy: bool, correct: bool)

  datatype Verdict = RateLimited | Rejected | Accepted

  predicate Blocked(attempts: Attempts, key: string, now: Time) {
    key in attempts && attempts[key].blockedUntil > now
  }

  function Bumped(p: Policy, attempt: Attempt, now: Time): (bumped: Attempt) {
    var open := if attempt.windowStart == 0 || now - attempt.windowStart > p.window
                then Attempt(0, now, 0) else attempt;
    var counted := open.(count := open.count + 1);
    if counted.count >= p.maxAttempts then counted.(blockedUntil := now + p.lockout) else counted
  }

  const NoAttempt := Attempt(0, 0, 0)

  function Recorded(p: Policy, attempts: Attempts, key: string, now: Time): (recorded: Attempts) {
    attempts[key := Bumped(p, if key in attempts then attempts[key] else NoAttempt, now)]
  }

  predicate Stale(p: Policy, attempt: Attempt, now: Time) {
    attempt.blockedUntil <= now && now - attempt.windowStart > p.window + p.lockout
  }

  function Pruned(p: Policy, attempts: Attempts, now: Time): (kept: Attempts) {
    map k | k in attempts && !Stale(p, attempts[k], now) :: attempts[k]
  }

  function VerdictOf(attempts: Attempts, r: Request): (verdict: Verdict) {
    if Blocked(attempts, r.key, r.now) || r.busy then RateLimited
    else if r.correct then Accepted
    else Rejected
  }

  /** The table after a request; `pruning` is the real service, `!pruning` one that never forgets. */
  function After(p: Policy, attempts: Attempts, r: Request, pruning: bool): (after: Attempts) {
    match VerdictOf(attempts, r)
    case RateLimited => attempts
    case Accepted => attempts - {r.key}
    case Rejected =>
      var recorded := Recorded(p, attempts, r.key, r.now);
      if pruning then Pruned(p, recorded, r.now) else recorded
  }

  /** Requests, and the prunes that logins run in between. */
  datatype Event = Ask(request: Request) | LoginPrune(at: Time)

  function TimeOf(e: Event): Time {
    match e
    case Ask(r) => r.now
    case LoginPrune(at) => at
  }

  function AfterEvent(p: Policy, attempts: Attempts, e: Event, pruning: bool): (after: Attempts) {
    match e
    case Ask(r) => After(p, attempts, r, pruning)
    case LoginPrune(at) => if pruning then Pruned(p, attempts, at) else attempts
  }

  function AfterAll(p: Policy, attempts: Attempts, events: seq<Event>, pruning: bool): (after: Attempts)
    decreases |events|
  {
    if events == [] then attempts
    else AfterAll(p, AfterEvent(p, attempts, events[0], pruning), events[1..], pruning)
  }

  function Verdicts(p: Policy, attempts: Attempts, events: seq<Event>, pruning: bool): (verdicts: seq<Verdict>)
    decreases |events|
  {
    if events == [] then []
    else
      var rest := Verdicts(p, AfterEvent(p, attempts, events[0], pruning), events[1..], pruning);
      match events[0]
      case Ask(r) => [VerdictOf(attempts, r)] + rest
      case LoginPrune(_) => rest
  }

  /** A clock that never steps back, reading `start` or later. */
  predicate Timely(events: seq<Event>, start: Time) {
    events != [] ==> start <= TimeOf(events[0]) && Timely(events[1..], TimeOf(events[0]))
  }

  // ---------------------------------------------------------------- pruning is invisible

  /** From `now` on, this row acts like no row: it blocks nothing and the next failure reopens it. */
  predicate Forgettable(p: Policy, attempt: Attempt, now: Time) {
    attempt.blockedUntil <= now && (attempt.windowStart == 0 || now - attempt.windowStart > p.window)
  }

  ghost predicate Similar(p: Policy, pruned: Attempts, full: Attempts, now: Time) {
    && (forall k | k in pruned :: k in full && full[k] == pruned[k])
    && (forall k | k in full && k !in pruned :: Forgettable(p, full[k], now))
  }

  lemma StepKeepsSimilar(p: Policy, pruned: Attempts, full: Attempts, e: Event, now: Time)
    requires ValidPolicy(p) && Similar(p, pruned, full, now) && now <= TimeOf(e)
    ensures e.Ask? ==> VerdictOf(pruned, e.request) == VerdictOf(full, e.request)
    ensures Similar(p, AfterEvent(p, pruned, e, true), AfterEvent(p, full, e, false), TimeOf(e))
  {
    var later := TimeOf(e);
    assert forall k | k in full && k !in pruned :: Forgettable(p, full[k], later);
    if e.Ask? && VerdictOf(full, e.request) == Rejected {
      assert Recorded(p, pruned, e.request.key, later)[e.request.key]
          == Recorded(p, full, e.request.key, later)[e.request.key];
    }
  }

  /** A service that prunes and one that never does give the same verdict on every request. */
  lemma {:induction false} PruningIsInvisible(p: Policy, pruned: Attempts, full: Attempts, events: seq<Event>, now: Time)
    requires ValidPolicy(p) && Similar(p, pruned, full, now) && Timely(events, now)
    ensures Verdicts(p, pruned, events, true) == Verdicts(p, full, events, false)
    decreases |events|
  {
    if events != [] {
      StepKeepsSimilar(p, pruned, full, events[0], now);
      PruningIsInvisible(p, AfterEvent(p, pruned, events[0], true), AfterEvent(p, full, events[0], false),
                         events[1..], TimeOf(events[0]));
    }
  }

  lemma PruningIsInvisibleFromStart(p: Policy, events: seq<Event>, now: Time)
    requires ValidPolicy(p) && Timely(events, now)
    ensures Verdicts(p, map[], events, true) == Verdicts(p, map[], events, false)
  {
    PruningIsInvisible(p, map[], map[], events, now);
  }

  /** The clock matters: after a step back, a pruned row would still have blocked its key. */
  lemma PruningShowsWhenTheClockStepsBack(p: Policy, key: string, r: Request)
    requires ValidPolicy(p) && p.maxAttempts == 1
    requires r == Request(key, 1, false, false)
    ensures var late := 3 + p.window + p.lockout;
      Verdicts(p, map[], [Ask(r), LoginPrune(late), Ask(r)], true) !=
      Verdicts(p, map[], [Ask(r), LoginPrune(late), Ask(r)], false)
  {
    var events := [Ask(r), LoginPrune(3 + p.window + p.lockout), Ask(r)];
    var first := After(p, map[], r, false);
    assert first == map[key := Attempt(1, 1, 1 + p.lockout)] == After(p, map[], r, true);
    assert Pruned(p, first, events[1].at) == map[];
    var tail := [Ask(r)];
    assert events[1..][1..] == tail && tail[1..] == [];
    assert Verdicts(p, first, tail, false) == [RateLimited];
    assert Verdicts(p, map[], tail, true) == [Rejected];
    assert Verdicts(p, first, events[1..], false) == [RateLimited];
    assert Verdicts(p, first, events[1..], true) == [Rejected];
    assert Verdicts(p, map[], events, false)[1] == RateLimited;
    assert Verdicts(p, map[], events, true)[1] == Rejected;
  }

  // ---------------------------------------------------------------- rows of reachable tables

  /** What every row of a reachable table satisfies at `now`. */
  ghost predicate WellFormed(attempts: Attempts, now: Time) {
    forall k | k in attempts :: attempts[k].count >= 1 && 0 < attempts[k].windowStart <= now
  }

  lemma {:induction false} RunKeepsWellFormed(p: Policy, attempts: Attempts, events: seq<Event>, now: Time)
    requires WellFormed(attempts, now) && Timely(events, now) && now > 0
    ensures WellFormed(AfterAll(p, attempts, events, true), if events == [] then now else TimeOf(events[|events| - 1]))
    decreases |events|
  {
    if events != [] {
      RunKeepsWellFormed(p, AfterEvent(p, attempts, events[0], true), events[1..], TimeOf(events[0]));
    }
  }

  // ---------------------------------------------------------------- the lockout bound

  /** Password checks that failed for `key`, as opposed to requests refused without a check. */
  function FailuresOf(p: Policy, attempts: Attempts, events: seq<Event>, key: string): (failures: nat)
    decreases |events|
  {
    if events == [] then 0
    else
      var rest := FailuresOf(p, AfterEvent(p, attempts, events[0], true), events[1..], key);
      if FailsNow(attempts, events[0], key) then 1 + rest else rest
  }

  predicate FailsNow(attempts: Attempts, e: Event, key: string) {
    e.Ask? && e.request.key == key && VerdictOf(attempts, e.request) == Rejected
  }

  predicate NoSuccess(events: seq<Event>, key: string) {
    forall e | e in events :: e.Ask? && e.request.key == key ==> !e.request.correct
  }

  /** The most failures one key can collect in an interval no longer than the window and shorter than
      the lockout: the tail of a window opened earlier, then a whole new window. */
  function MaxFailures(maxAttempts: int): (bound: int)
    requires maxAttempts > 0
    ensures maxAttempts <= bound <= 2 * maxAttempts - 1
  {
    if maxAttempts == 1 then 1 else 2 * maxAttempts - 2
  }

  /** Failures still possible at `now` within an interval that began at `start`. */
  function Budget(p: Policy, attempts: Attempts, key: string, start: Time, now: Time): (budget: int) {
    if key !in attempts then p.maxAttempts
    else
      var row := attempts[key];
      if row.blockedUntil >= start + p.lockout then 0
      else if row.windowStart >= start then if row.count >= p.maxAttempts then 1 else p.maxAttempts - row.count
      else if now - row.windowStart > p.window || row.count >= p.maxAttempts then p.maxAttempts
      else 2 * p.maxAttempts - 1 - row.count
  }

  /** Rows that a failure inside the interval closed are marked as closed. */
  ghost predicate ClosedRowsBlock(p: Policy, attempts: Attempts, start: Time) {
    forall k | k in attempts && attempts[k].windowStart >= start && attempts[k].count >= p.maxAttempts ::
      attempts[k].blockedUntil >= start + p.lockout
  }

  lemma BudgetDropsByFailures(p: Policy, attempts: Attempts, e: Event, key: string, start: Time, now: Time, end: Time)
    requires ValidPolicy(p) && WellFormed(attempts, now) && ClosedRowsBlock(p, attempts, start)
    requires 0 < start <= now <= TimeOf(e) <= end
    requires end - start <= p.window && end - start < p.lockout
    requires e.Ask? && e.request.key == key ==> !e.request.correct
    ensures Budget(p, AfterEvent(p, attempts, e, true), key, start, TimeOf(e))
         <= Budget(p, attempts, key, start, now) - (if FailsNow(attempts, e, key) then 1 else 0)
  {
    if FailsNow(attempts, e, key) {
      var row := Bumped(p, if key in attempts then attempts[key] else NoAttempt, e.request.now);
      assert Recorded(p, attempts, key, e.request.now)[key] == row;
      assert !Stale(p, row, e.request.now);
      assert AfterEvent(p, attempts, e, true)[key] == row;
    }
  }

  lemma {:induction false} FailuresWithinBudget(p: Policy, attempts: Attempts, events: seq<Event>, key: string,
                                                start: Time, now: Time, end: Time)
    requires ValidPolicy(p) && WellFormed(attempts, now) && ClosedRowsBlock(p, attempts, start)
    requires 0 < start <= now && Timely(events, now) && NoSuccess(events, key)
    requires forall e | e in events :: TimeOf(e) <= end
    requires end - start <= p.window && end - start < p.lockout
    ensures FailuresOf(p, attempts, events, key) <= Budget(p, attempts, key, start, now)
    decreases |events|
  {
    if events == [] {
      assert Budget(p, attempts, key, start, now) >= 0;
    } else {
      BudgetDropsByFailures(p, attempts, events[0], key, start, now, end);
      FailuresWithinBudget(p, AfterEvent(p, attempts, events[0], true), events[1..], key, start, TimeOf(events[0]), end);
    }
  }

  /** Lockout bound: in an interval no longer than the window and shorter than the lockout, one key fails at
      most max(1, 2*maxAttempts - 2) password checks without a success in between. */
  lemma LockoutBound(p: Policy, history: seq<Event>, events: seq<Event>, key: string, epoch: Time, start: Time, end: Time)
    requires ValidPolicy(p) && epoch > 0
    requires Timely(history, epoch) && epoch <= start && (history != [] ==> TimeOf(history[|history| - 1]) < start)
    requires Timely(events, start) && NoSuccess(events, key)
    requires forall e | e in events :: TimeOf(e) <= end
    requires end - start <= p.window && end - start < p.lockout
    ensures FailuresOf(p, AfterAll(p, map[], history, true), events, key) <= MaxFailures(p.maxAttempts)
  {
    var attempts := AfterAll(p, map[], history, true);
    RunKeepsWellFormed(p, map[], history, epoch);
    assert forall k | k in attempts :: attempts[k].windowStart < start || history == [];
    FailuresWithinBudget(p, attempts, events, key, start, start, end);
  }

  // ---------------------------------------------------------------- the bound is reached

  function Fail(key: string, now: Time): Event {
    Ask(Request(key, now, false, false))
  }

  function Repeat(e: Event, n: nat): (events: seq<Event>)
    ensures |events| == n && forall x | x in events :: x == e
  {
    if n == 0 then [] else [e] + Repeat(e, n - 1)
  }

  lemma {:induction false} RepeatedFailures(p: Policy, attempts: Attempts, key: string, now: Time, n: nat)
    requires ValidPolicy(p) && now > 0
    requires key in attempts ==> attempts[key].blockedUntil == 0
    requires key in attempts ==> 0 < attempts[key].windowStart <= now && now - attempts[key].windowStart <= p.window
    requires (if key in attempts then attempts[key].count else 0) + n <= p.maxAttempts
    ensures FailuresOf(p, attempts, Repeat(Fail(key, now), n), key) == n
    ensures var c := if key in attempts then attempts[key].count else 0;
      var after := AfterAll(p, attempts, Repeat(Fail(key, now), n), true);
      n > 0 && c + n < p.maxAttempts ==>
        && key in after
        && after[key] == Attempt(c + n, if key in attempts then attempts[key].windowStart else now, 0)
    decreases n
  {
    if n > 0 {
      var events := Repeat(Fail(key, now), n);
      assert events[0] == Fail(key, now) && events[1..] == Repeat(Fail(key, now), n - 1);
      var next := AfterEvent(p, attempts, events[0], true);
      if n > 1 {
        RepeatedFailures(p, next, key, now, n - 1);
      } else {
        assert Repeat(Fail(key, now), 0) == [];
      }
    }
  }

  lemma {:induction false} FailuresOfConcat(p: Policy, attempts: Attempts, a: seq<Event>, b: seq<Event>, key: string)
    ensures FailuresOf(p, attempts, a + b, key)
         == FailuresOf(p, attempts, a, key) + FailuresOf(p, AfterAll(p, attempts, a, true), b, key)
    decreases |a|
  {
    if a == [] {
      assert a + b == b;
    } else {
      assert (a + b)[1..] == a[1..] + b;
      FailuresOfConcat(p, AfterEvent(p, attempts, a[0], true), a[1..], b, key);
    }
  }

  lemma {:induction false} RepeatIsTimely(e: Event, n: nat, rest: seq<Event>, start: Time)
    requires start <= TimeOf(e) && Timely(rest, TimeOf(e))
    ensures Timely(Repeat(e, n) + rest, start)
  {
    if n == 0 {
      assert Repeat(e, n) + rest == rest;
    } else {
      assert (Repeat(e, n) + rest)[1..] == Repeat(e, n - 1) + rest;
      RepeatIsTimely(e, n - 1, rest, TimeOf(e));
    }
  }

  /** The bound is exact for every policy: a window opened by one early failure, its tail and a new window
      fit in an interval of length one. With three attempts or more this exceeds `maxAttempts`, so the
      fixed windows do not give the sliding-window bound. */
  lemma LockoutBoundIsReached(p: Policy, key: string)
    requires ValidPolicy(p) && p.maxAttempts >= 2 && p.lockout > 1
    ensures var history := [Fail(key, 1)];
      var start := 1 + p.window;
      var events := Repeat(Fail(key, start), p.maxAttempts - 2) + Repeat(Fail(key, start + 1), p.maxAttempts);
      && Timely(history, 1) && Timely(events, start) && NoSuccess(events, key)
      && FailuresOf(p, AfterAll(p, map[], history, true), events, key) == MaxFailures(p.maxAttempts)
  {
    var start := 1 + p.window;
    var tail, reopened := Repeat(Fail(key, start), p.maxAttempts - 2), Repeat(Fail(key, start + 1), p.maxAttempts);
    RepeatIsTimely(Fail(key, start + 1), p.maxAttempts, [], start);
    assert reopened + [] == reopened;
    RepeatIsTimely(Fail(key, start), p.maxAttempts - 2, reopened, start);
    FirstFailure(p, key);
    var early := AfterAll(p, map[], [Fail(key, 1)], true);
    assert Repeat(Fail(key, start), 0) == [];
    RepeatedFailures(p, early, key, start, p.maxAttempts - 2);
    FailuresOfConcat(p, early, tail, reopened, key);
    FreshWindow(p, AfterAll(p, early, tail, true), key, start + 1);
  }

  lemma FirstFailure(p: Policy, key: string)
    requires ValidPolicy(p) && p.maxAttempts >= 2
    ensures AfterAll(p, map[], [Fail(key, 1)], true) == map[key := Attempt(1, 1, 0)]
    ensures Timely([Fail(key, 1)], 1)
  {
    var row: Attempts := map[key := Attempt(1, 1, 0)];
    assert AfterEvent(p, map[], Fail(key, 1), true) == row;
    assert [Fail(key, 1)][1..] == [];
    assert AfterAll(p, row, [], true) == row;
  }

  lemma FreshWindow(p: Policy, attempts: Attempts, key: string, now: Time)
    requires ValidPolicy(p) && now > 0 && key in attempts && attempts[key].blockedUntil == 0
    requires attempts[key].windowStart > 0 && now - attempts[key].windowStart > p.window
    ensures FailuresOf(p, attempts, Repeat(Fail(key, now), p.maxAttempts), key) == p.maxAttempts
  {
    var events := Repeat(Fail(key, now), p.maxAttempts);
    assert events[1..] == Repeat(Fail(key, now), p.maxAttempts - 1);
    var next := AfterEvent(p, attempts, events[0], true);
    if p.maxAttempts > 1 {
      RepeatedFailures(p, next, key, now, p.maxAttempts - 1);
    }
  }

  // ---------------------------------------------------------------- when a key is blocked

  /** Failures so far in the window that is open at `now`. */
  function Collected(p: Policy, attempts: Attempts, key: string, now: Time): (failures: nat) {
    if key in attempts && attempts[key].windowStart != 0 && now - attempts[key].windowStart <= p.window
    then attempts[key].count else 0
  }

  /** A request touches no other key. The real service forgets rows after a failure, exactly those whose block has ended
      and whose window began longer ago than window and lockout; one without pruning forgets none. */
  lemma OthersAreOnlyForgotten(p: Policy, attempts: Attempts, r: Request, pruning: bool, key: string)
    requires key != r.key
    ensures var after := After(p, attempts, r, pruning);
      && (key in after ==> key in attempts && after[key] == attempts[key])
      && (key in attempts ==>
            (key !in after <==>
              && pruning && VerdictOf(attempts, r) == Rejected
              && attempts[key].blockedUntil <= r.now && r.now - attempts[key].windowStart > p.window + p.lockout))
  {
  }

  /** A failure blocks its key exactly if it is the last one the window allows, and for exactly the lockout; a success
      makes the next failure the first one. */
  lemma FailureBlocksExactly(p: Policy, attempts: Attempts, key: string, now: Time, r: Request, pruning: bool)
    requires ValidPolicy(p) && now > 0 && r.key == key && r.now >= now
    requires key in attempts ==> attempts[key].blockedUntil <= now
    ensures var failed := After(p, attempts, Request(key, now, false, false), pruning);
      && (VerdictOf(failed, r) == RateLimited <==>
            r.busy || (Collected(p, attempts, key, now) + 1 >= p.maxAttempts && r.now < now + p.lockout))
      && Collected(p, failed, key, now) == Collected(p, attempts, key, now) + 1
    ensures var accepted := After(p, attempts, Request(key, now, false, true), pruning);
      Collected(p, accepted, key, now) == 0 && (VerdictOf(accepted, r) == RateLimited <==> r.busy)
    ensures !r.busy && VerdictOf(attempts, r) != RateLimited ==> (VerdictOf(attempts, r) == Accepted <==> r.correct)
  {
    var row := Bumped(p, if key in attempts then attempts[key] else NoAttempt, now);
    assert Recorded(p, attempts, key, now)[key] == row;
    assert !Stale(p, row, now);
  }

  // ---------------------------------------------------------------- a block holds until it ends

  /** Once `maxAttempts` failures closed a key, every request before the block ends is refused, whether or not
      its password is right, whatever other keys do and however often the table is pruned. */
  lemma {:induction false} BlockHolds(p: Policy, attempts: Attempts, events: seq<Event>, key: string, now: Time, end: Time)
    requires Timely(events, now)
    requires key in attempts && attempts[key].blockedUntil == end
    requires forall e | e in events :: TimeOf(e) < end
    ensures FailuresOf(p, attempts, events, key) == 0
    ensures AfterAll(p, attempts, events, true).Keys >= {key} && AfterAll(p, attempts, events, true)[key] == attempts[key]
    ensures forall r: Request | r.key == key && r.now < end :: VerdictOf(AfterAll(p, attempts, events, true), r) == RateLimited
    decreases |events|
  {
    if events != [] {
      BlockHolds(p, AfterEvent(p, attempts, events[0], true), events[1..], key, TimeOf(events[0]), end);
    }
  }
}
