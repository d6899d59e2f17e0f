// The mkdir lock's wait policy (src/protocol/event-registry/storage.ts:289-378). Times are whole
// milliseconds. The host machine is adversarial: every mkdir may find the directory taken or
// fail, time may pass at any call, and the jitter may be any value the source's range allows.

module LockWait {
  import opened Arithmetic
  import opened Wrappers

  const DEFAULT_MAX_LOCK_ATTEMPTS := 50
  const DEFAULT_LOCK_RETRY_MS := 10
  const DEFAULT_LOCK_BUDGET_MS := 10_000
  const BACKOFF_INITIAL_MS := 5
  const BACKOFF_MAX_MS := 200

  datatype LockOptions = LockOptions(maxLockAttempts: Option<int>, lockRetryMs: Option<int>, lockBudgetMs: Option<int>)

  datatype LockPolicy = Fixed(maxAttempts: int, retryMs: int) | Backoff(budgetMs: int)

  function PolicyFor(o: LockOptions): LockPolicy {
    if o.maxLockAttempts.Some? || o.lockRetryMs.Some? then
      Fixed(Max(1, o.maxLockAttempts.GetOr(DEFAULT_MAX_LOCK_ATTEMPTS)),
            Max(0, o.lockRetryMs.GetOr(DEFAULT_LOCK_RETRY_MS)))
    else
      Backoff(Max(0, o.lockBudgetMs.GetOr(DEFAULT_LOCK_BUDGET_MS)))
  }

  /** Math.round(delay * (0.5 + random * 0.5)), clamped to what is left of the budget. */
  function NextBackoffDelay(delay: int, random: real, elapsed: int, budget: int): int {
    var jittered := (delay as real * (0.5 + random * 0.5) + 0.5).Floor;
    Max(0, Min(jittered, budget - elapsed))
  }

  /** Jitter only ever shortens a delay, and never below half of it. */
  lemma JitterBounds(delay: int, random: real, elapsed: int, budget: int)
    requires 0 <= delay && 0.0 <= random < 1.0 && elapsed < budget
    ensures var d := NextBackoffDelay(delay, random, elapsed, budget);
            && d <= delay && d <= budget - elapsed
            && (d == budget - elapsed || (delay + 1) / 2 <= d)
            && (0 < delay ==> 0 < d)
  {
    var x := delay as real;
    assert 0.0 <= x * random <= x;
    var y := x * (0.5 + random * 0.5);
    assert y == x * 0.5 + (x * random) * 0.5;
    assert x * 0.5 <= y <= x;
  }

  datatype MkdirOutcome = Created | Exists | Failed

  class Host {
    var clockMs: int
    ghost var sleptMs: int
    /** What every mkdir so far has found. */
    ghost var tries: seq<MkdirOutcome>

    method Mkdir() returns (r: MkdirOutcome)
      modifies this
      ensures clockMs >= old(clockMs) && sleptMs == old(sleptMs) && tries == old(tries) + [r]
    {
      var time: int :| 0 <= time;
      clockMs := clockMs + time;
      r := *;
      tries := tries + [r];
    }

    method Sleep(ms: int)
      requires 0 <= ms
      modifies this
      ensures clockMs >= old(clockMs) + ms && sleptMs == old(sleptMs) + ms
      ensures tries == old(tries)
    {
      var late: int :| 0 <= late;
      clockMs := clockMs + ms + late;
      sleptMs := sleptMs + ms;
    }

    method Random() returns (r: real)
      ensures 0.0 <= r < 1.0
    {
      r :| 0.0 <= r < 1.0;
    }
  }

  datatype Acquisition = Acquired(locked: bool, attempts: int, elapsedMs: int) | Threw

  /** The call's own mkdirs: all but the last found the directory taken, and so did the last if the
      call gave up; it created the directory if the call reports locked, and failed if it threw. */
  ghost predicate Told(before: seq<MkdirOutcome>, after: seq<MkdirOutcome>, r: Acquisition) {
    var n := |after| - |before|;
    && before <= after && n >= 1
    && (forall i :: |before| <= i < |after| - 1 ==> after[i] == Exists)
    && match r
       case Threw => after[|after| - 1] == Failed
       case Acquired(locked, attempts, _) =>
         attempts == n && after[|after| - 1] == if locked then Created else Exists
  }

  /** The least total sleep after `n` full backoff delays. */
  ghost function LeastSleep(n: nat): int {
    if n == 0 then 0 else LeastSleep(n - 1) + (DelayAt(n - 1) + 1) / 2
  }

  /** 5, 10, 20, ... capped at 200. */
  ghost function DelayAt(n: nat): int {
    if n == 0 then BACKOFF_INITIAL_MS else Min(BACKOFF_MAX_MS, DelayAt(n - 1) * 2)
  }

  lemma {:induction false} DelayAtCap(n: nat)
    requires n >= 6
    ensures DelayAt(n) == BACKOFF_MAX_MS
  {
    if n > 6 {
      DelayAtCap(n - 1);
    } else {
      assert DelayAt(1) == 10 && DelayAt(2) == 20 && DelayAt(3) == 40 && DelayAt(4) == 80;
      assert DelayAt(5) == 160;
    }
  }

  /** Six doubling delays cost at least 158 ms; every later one at least 100 ms. */
  lemma {:induction false} LeastSleepGrows(n: nat)
    requires n >= 6
    ensures LeastSleep(n) == 158 + 100 * (n - 6)
  {
    if n == 6 {
      assert DelayAt(1) == 10 && DelayAt(2) == 20 && DelayAt(3) == 40 && DelayAt(4) == 80;
      assert LeastSleep(1) == 3 && LeastSleep(2) == 8 && LeastSleep(3) == 18;
      assert LeastSleep(4) == 38 && LeastSleep(5) == 78;
    } else {
      LeastSleepGrows(n - 1);
      DelayAtCap(n - 1);
    }
  }

  lemma AttemptBound(attempts: int, budget: int)
    requires attempts >= 2 ==> LeastSleep(attempts - 2) < budget
    ensures attempts <= 8 || 158 + 100 * (attempts - 8) < budget
    ensures 0 <= budget ==> attempts <= 8 + (budget + 99) / 100
  {
    if attempts > 8 {
      LeastSleepGrows(attempts - 2);
    }
  }

  /** acquireRegistryLock. With attempts or a retry delay given it tries that often at most; else it
      sleeps at most the budget in total, makes at most 8 + ceil(budget / 100) attempts whatever the
      jitter, and gives up only once the budget is spent. It reports `locked` exactly when its own
      mkdir created the directory, and gives up only on a directory found taken every time. */
  method AcquireRegistryLock(host: Host, options: LockOptions) returns (r: Acquisition)
    modifies host
    ensures Told(old(host.tries), host.tries, r)
    ensures r.Acquired? ==> r.elapsedMs == host.clockMs - old(host.clockMs)
    ensures options.maxLockAttempts == None == options.lockRetryMs ==>
              var budget := Max(0, options.lockBudgetMs.GetOr(10_000));
              && host.sleptMs - old(host.sleptMs) <= budget
              && (r.Acquired? ==>
                    && r.attempts <= 8 + (budget + 99) / 100
                    && (r.attempts <= 8 || 158 + 100 * (r.attempts - 8) < budget)
                    && (!r.locked ==> r.elapsedMs >= budget))
    ensures options.maxLockAttempts.Some? || options.lockRetryMs.Some? ==>
              var most, retryMs := Max(1, options.maxLockAttempts.GetOr(50)), Max(0, options.lockRetryMs.GetOr(10));
              && host.sleptMs - old(host.sleptMs) == (|host.tries| - |old(host.tries)| - 1) * retryMs
              && (r.Acquired? ==> r.attempts <= most && (!r.locked ==> r.attempts == most))
  {
    match PolicyFor(options)
    case Fixed(maxAttempts, retryMs) => r := FixedAttempts(host, maxAttempts, retryMs);
    case Backoff(budget) => r := BackoffAttempts(host, budget);
  }

  method FixedAttempts(host: Host, maxAttempts: int, retryMs: int) returns (r: Acquisition)
    requires maxAttempts >= 1 && retryMs >= 0
    modifies host
    ensures Told(old(host.tries), host.tries, r)
    ensures r.Acquired? ==>
              && r.attempts <= maxAttempts && (!r.locked ==> r.attempts == maxAttempts)
              && r.elapsedMs == host.clockMs - old(host.clockMs)
    ensures host.sleptMs - old(host.sleptMs) == (|host.tries| - |old(host.tries)| - 1) * retryMs
  {
    var startedAt, attempts := host.clockMs, 0;
    while attempts < maxAttempts
      invariant 0 <= attempts <= maxAttempts && AllTaken(old(host.tries), host.tries, attempts)
      invariant host.sleptMs - old(host.sleptMs) == Min(attempts, maxAttempts - 1) * retryMs
    {
      attempts := attempts + 1;
      var made := host.Mkdir();
      match made {
        case Created => return Acquired(true, attempts, host.clockMs - startedAt);
        case Failed => return Threw;
        case Exists =>
          if attempts < maxAttempts {
            assert attempts * retryMs == (attempts - 1) * retryMs + retryMs;
            host.Sleep(retryMs);
          }
      }
    }
    return Acquired(false, attempts, host.clockMs - startedAt);
  }

  /** `n` more mkdirs, all of which found the directory taken. */
  ghost predicate AllTaken(before: seq<MkdirOutcome>, after: seq<MkdirOutcome>, n: int) {
    && before <= after && |after| == |before| + n
    && (forall i :: |before| <= i < |after| ==> after[i] == Exists)
  }

  method BackoffAttempts(host: Host, budget: int) returns (r: Acquisition)
    requires 0 <= budget
    modifies host
    ensures Told(old(host.tries), host.tries, r)
    ensures r.Acquired? ==>
              && r.attempts <= 8 + (budget + 99) / 100
              && (r.attempts <= 8 || 158 + 100 * (r.attempts - 8) < budget)
              && r.elapsedMs == host.clockMs - old(host.clockMs)
              && (!r.locked ==> r.elapsedMs >= budget)
    ensures host.sleptMs - old(host.sleptMs) <= budget
  {
    var startedAt, attempts, delay := host.clockMs, 0, BACKOFF_INITIAL_MS;
    while true
      invariant 0 <= attempts && delay == DelayAt(attempts) && 0 < delay
      invariant AllTaken(old(host.tries), host.tries, attempts)
      invariant 0 <= host.sleptMs - old(host.sleptMs) <= Min(budget, host.clockMs - startedAt)
      invariant attempts >= 1 ==> LeastSleep(attempts - 1) < budget
      invariant host.clockMs - startedAt >= budget || host.sleptMs - old(host.sleptMs) >= LeastSleep(attempts)
      decreases budget - (host.clockMs - startedAt)
    {
      attempts := attempts + 1;
      AttemptBound(attempts, budget);
      var made := host.Mkdir();
      match made {
        case Created => return Acquired(true, attempts, host.clockMs - startedAt);
        case Failed => return Threw;
        case Exists =>
      }
      var elapsed := host.clockMs - startedAt;
      if elapsed >= budget {
        return Acquired(false, attempts, elapsed);
      }
      var random := host.Random();
      JitterBounds(delay, random, elapsed, budget);
      host.Sleep(NextBackoffDelay(delay, random, elapsed, budget));
      delay := Min(BACKOFF_MAX_MS, delay * 2);
    }
  }
}
