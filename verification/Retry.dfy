/**
 The retry loop of Run: how often the work function is called, how long the loop waits
 between calls, and which result it ends with. Durations are Go's 64-bit integers, so the
 doubling of the backoff can wrap around.
*/
module Retry {

  const MAX_INT64 := 0x7FFF_FFFF_FFFF_FFFF
  const HALF := 0x4000_0000_0000_0000

  type Duration = d: int | -0x8000_0000_0000_0000 <= d <= MAX_INT64

  datatype Config = Config(retries: int, initial: Duration, max: Duration)

  const MILLISECOND: Duration := 1_000_000

  /** configureRetries. */
  function Configure(retries: int, initial: Duration, max: Duration): Config {
    var r := if retries <= 0 then 3 else retries;
    var i: Duration := if initial <= 0 then 100 * MILLISECOND else initial;
    Config(r, i, if max < i then i else max)
  }

  ghost predicate Proper(c: Config) {
    c.retries >= 1 && 0 < c.initial <= c.max
  }

  /** Positive values are taken as they are; without them there are three attempts and a first wait of 100 ms. The longest wait is at least the first. */
  lemma ConfigureIsProper(retries: int, initial: Duration, max: Duration)
    ensures Proper(Configure(retries, initial, max))
    ensures Configure(retries, initial, max).retries == if retries > 0 then retries else 3
    ensures Configure(retries, initial, max).initial == if initial > 0 then initial else 100_000_000
    ensures max >= Configure(retries, initial, max).initial ==> Configure(retries, initial, max).max == max
    ensures max < Configure(retries, initial, max).initial ==> Configure(retries, initial, max).max == Configure(retries, initial, max).initial
  {
  }

  /** What an attempt's call came back with; the classes are those of NormalizeError. */
  datatype CallResult =
    | Done
    | RateLimited | Timeout | Transient | ProxyFailure | Connectivity
    | Other(code: int)

  predicate Retried(r: CallResult) {
    !r.Done? && !r.Other?
  }

  /** Which case of the select before an attempt was taken. */
  datatype Wait = Elapsed | CallerEnded | RunEnded

  datatype Outcome = Success | ContextError | DeadlineExceeded | WorkError(code: int)

  function Doubled(d: Duration): Duration {
    var e := 2 * d;
    if e > MAX_INT64 then e - 0x1_0000_0000_0000_0000
    else if e < -0x8000_0000_0000_0000 then e + 0x1_0000_0000_0000_0000
    else e
  }

  function NextBackoff(c: Config, d: Duration): Duration {
    if Doubled(d) > c.max then c.max else Doubled(d)
  }

  /** The wait before attempt k + 1, as the loop computes it. */
  function Backoff(c: Config, k: nat): Duration {
    if k == 0 then c.initial else NextBackoff(c, Backoff(c, k - 1))
  }

  /** d * 2^k. */
  function Doublings(d: int, k: nat): int {
    if k == 0 then d else 2 * Doublings(d, k - 1)
  }

  /** The wait the design promises: min(initial * 2^k, max). */
  function CappedDoubling(c: Config, k: nat): int {
    if Doublings(c.initial, k) > c.max then c.max else Doublings(c.initial, k)
  }

  lemma {:induction false} DoublingsGrow(d: int, k: nat)
    requires d > 0
    ensures Doublings(d, k) >= k + 1
  {
    if k > 0 {
      DoublingsGrow(d, k - 1);
    }
  }

  lemma {:induction false} DoublingsMonotone(d: int, j: nat, k: nat)
    requires d > 0 && j <= k
    ensures 0 < Doublings(d, j) <= Doublings(d, k)
  {
    DoublingsGrow(d, j);
    if j < k {
      DoublingsMonotone(d, j, k - 1);
    }
  }

  /** The k-th wait is the promised one if no wait before it can wrap when it doubles. */
  lemma {:induction false} BackoffIsCappedDoubling(c: Config, k: nat)
    requires Proper(c) && (c.max < HALF || k == 0 || Doublings(c.initial, k - 1) < HALF)
    ensures Backoff(c, k) == CappedDoubling(c, k)
  {
    if k > 0 {
      DoublingsMonotone(c.initial, if k == 1 then 0 else k - 2, k - 1);
      BackoffIsCappedDoubling(c, k - 1);
    }
  }

  /** A wait of 2^62 or more doubles to a negative one. */
  lemma LongWaitWraps(c: Config, k: nat)
    requires Proper(c) && Backoff(c, k) >= HALF
    ensures Backoff(c, k + 1) < 0 < CappedDoubling(c, k + 1)
  {
    DoublingsGrow(c.initial, k + 1);
    assert Doubled(Backoff(c, k)) < 0;
  }

  /** The loop makes at most `retries - 1` waits; the doubling after wait `retries - 3` is the last that is slept. */
  predicate NoWaitWraps(c: Config) {
    c.max < HALF || c.retries < 3 || Doublings(c.initial, c.retries - 3) < HALF
  }

  /** All waits that the loop can make are the promised ones exactly when none of them comes from a doubling that wraps. */
  lemma BackoffExact(c: Config)
    requires Proper(c)
    ensures (forall k: nat :: k < c.retries - 1 ==> Backoff(c, k) == CappedDoubling(c, k)) <==> NoWaitWraps(c)
  {
    if NoWaitWraps(c) {
      forall k: nat | k < c.retries - 1 ensures Backoff(c, k) == CappedDoubling(c, k) {
        if 0 < k && c.retries >= 3 {
          DoublingsMonotone(c.initial, k - 1, c.retries - 3);
        }
        BackoffIsCappedDoubling(c, k);
      }
    } else {
      var n := c.retries - 3;
      if Backoff(c, n) == CappedDoubling(c, n) {
        LongWaitWraps(c, n);
        assert Backoff(c, n + 1) != CappedDoubling(c, n + 1);
      }
    }
  }

  /** Three attempts with waits of 2^62 nanoseconds: the second wait is negative. */
  lemma ALongWaitWraps()
    ensures var c := Config(3, HALF, HALF);
            Proper(c) && !NoWaitWraps(c) && Backoff(c, 1) < 0 < CappedDoubling(c, 1)
  {
    LongWaitWraps(Config(3, HALF, HALF), 0);
  }

  /** With the waits that the manager configures nothing wraps, whatever number of retries a policy allows. */
  lemma ConfiguredWaitsAreExact(retries: int, k: nat)
    ensures var c := Configure(retries, 100 * MILLISECOND, 1500 * MILLISECOND);
            NoWaitWraps(c) && Backoff(c, k) == CappedDoubling(c, k)
  {
    BackoffIsCappedDoubling(Configure(retries, 100 * MILLISECOND, 1500 * MILLISECOND), k);
  }

  /** The call of attempt k is made: every wait before it elapsed and every call before it is retried. */
  ghost predicate Reaches(waits: nat -> Wait, calls: nat -> CallResult, k: int) {
    && (forall j: nat :: 1 <= j <= k ==> waits(j) == Elapsed)
    && (forall j: nat :: j < k ==> Retried(calls(j)))
  }

  /** How the loop may end after `called` calls, and why it ends there and not elsewhere. */
  ghost predicate EndsWith(c: Config, waits: nat -> Wait, calls: nat -> CallResult, called: nat, out: Outcome) {
    && 1 <= called <= c.retries
    && Reaches(waits, calls, called - 1)
    && (match calls(called - 1)
        case Done => out == Success
        case Other(code) => out == WorkError(code)
        case _ => if called == c.retries then out == DeadlineExceeded else out == ContextError && waits(called) != Elapsed)
  }

  /** How a loop of so many attempts may end, whatever its environment answers. */
  predicate MayEnd(retries: nat, called: nat, out: Outcome) {
    && 1 <= called <= retries
    && (out == DeadlineExceeded ==> called == retries) && (out == ContextError ==> called < retries)
  }

  lemma EndsAsItMay(c: Config, waits: nat -> Wait, calls: nat -> CallResult, called: nat, out: Outcome)
    requires EndsWith(c, waits, calls, called, out)
    ensures MayEnd(c.retries, called, out)
  {
  }

  /** The answers of the environment leave the loop only one end, so the contract of Attempts fixes its outcome. */
  lemma EndIsUnique(c: Config, waits: nat -> Wait, calls: nat -> CallResult, m: nat, n: nat, out: Outcome, out': Outcome)
    requires EndsWith(c, waits, calls, m, out) && EndsWith(c, waits, calls, n, out')
    ensures m == n && out == out'
  {
  }

  lemma BackoffStep(c: Config, k: nat)
    ensures Backoff(c, 0) == c.initial && Backoff(c, k + 1) == NextBackoff(c, Backoff(c, k))
  {
  }

  /** The loop, run against an environment that answers each select and each call. */
  method Attempts(c: Config, waits: nat -> Wait, calls: nat -> CallResult) returns (out: Outcome, called: nat, slept: seq<Duration>)
    requires Proper(c)
    ensures EndsWith(c, waits, calls, called, out)
    ensures |slept| == (if out == ContextError then called else called - 1)
    ensures forall k :: 0 <= k < |slept| ==> slept[k] == Backoff(c, k)
    ensures NoWaitWraps(c) ==> forall k :: 0 <= k < |slept| ==> slept[k] == CappedDoubling(c, k)
    ensures out == DeadlineExceeded ==>
              ((forall k :: 0 <= k < |slept| ==> slept[k] == CappedDoubling(c, k)) <==> NoWaitWraps(c))
  {
    hide Backoff, CappedDoubling, NoWaitWraps;
    BackoffExact(c);
    BackoffStep(c, 0);
    var backoff := c.initial;
    called, slept := 0, [];
    var attempt := 0;
    while attempt < c.retries
      invariant 0 <= attempt == called <= c.retries
      invariant |slept| == if attempt == 0 then 0 else attempt - 1
      invariant forall k :: 0 <= k < |slept| ==> slept[k] == Backoff(c, k)
      invariant backoff == Backoff(c, |slept|)
      invariant attempt > 0 ==> Reaches(waits, calls, attempt - 1) && Retried(calls(attempt - 1))
    {
      if attempt > 0 {
        slept := slept + [backoff];
        if waits(attempt) != Elapsed {
          out := ContextError;
          return;
        }
        BackoffStep(c, |slept| - 1);
        backoff := Doubled(backoff);
        if backoff > c.max {
          backoff := c.max;
        }
      }
      var r := calls(attempt);
      called := called + 1;
      match r {
        case Done =>
          out := Success;
          return;
        case Other(code) =>
          out := WorkError(code);
          return;
        case _ =>
      }
      attempt := attempt + 1;
    }
    out := DeadlineExceeded;
  }
}
