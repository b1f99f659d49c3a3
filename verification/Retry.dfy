// utils.DoWithRetry with exponential back-off and full jitter, and the alert raised when
// a job's retries end in failure.
module Retry {
  import opened Text
  import opened Reals

  datatype RetryConfig = RetryConfig(maxRetries: int, baseDelayMs: int, maxDelayMs: int)

  // What one call of the operation returns.
  datatype Attempt = Succeeded | FailedRetryable | FailedForGood

  // The error returned in the end: that of a call, or the context's own.
  datatype Failure = OfCall(call: nat) | ContextDone

  function Pow2(n: nat): nat {
    if n == 0 then 1 else 2 * Pow2(n - 1)
  }

  function Min(x: real, y: real): real {
    if x > y then y else x
  }

  function Truncate(x: real): int {
    if x >= 0.0 then x.Floor else -(-x).Floor
  }

  function DelayCap(attempt: nat, cfg: RetryConfig): real {
    Min((cfg.baseDelayMs * Pow2(attempt)) as real, cfg.maxDelayMs as real)
  }

  function Jittered(jitter: real, cap: real): real {
    jitter * cap
  }

  // A random fraction of the capped exponential delay, in whole milliseconds.
  function BackoffMs(attempt: nat, cfg: RetryConfig, jitter: real): int {
    Truncate(Jittered(jitter, DelayCap(attempt, cfg)))
  }

  predicate Sane(cfg: RetryConfig) {
    cfg.maxRetries >= 0 && cfg.baseDelayMs >= 0 && cfg.maxDelayMs >= 0
  }

  lemma ProductBounds(a: real, b: real)
    requires 0.0 <= a < 1.0 && b >= 0.0
    ensures 0.0 <= Jittered(a, b) <= b
  {
    NonNegativeProduct(a, b);
    NonNegativeProduct(1.0 - a, b);
    Distributes(1.0 - a, a, b);
  }

  lemma TruncateBounds(x: real, most: int)
    requires 0.0 <= x <= most as real
    ensures 0 <= Truncate(x) <= most
  {
    assert x.Floor as real <= x;
  }

  lemma BackoffBounds(attempt: nat, cfg: RetryConfig, jitter: real)
    requires cfg.baseDelayMs >= 0 && cfg.maxDelayMs >= 0 && 0.0 <= jitter < 1.0
    ensures 0 <= BackoffMs(attempt, cfg, jitter) <= cfg.maxDelayMs
    ensures BackoffMs(attempt, cfg, jitter) <= cfg.baseDelayMs * Pow2(attempt)
  {
    hide Pow2, Truncate, DelayCap, Jittered;
    CapBounds(attempt, cfg);
    var cap := DelayCap(attempt, cfg);
    ProductBounds(jitter, cap);
    TruncateBounds(Jittered(jitter, cap), cfg.maxDelayMs);
    TruncateBounds(Jittered(jitter, cap), cfg.baseDelayMs * Pow2(attempt));
  }

  lemma CapBounds(attempt: nat, cfg: RetryConfig)
    requires cfg.baseDelayMs >= 0 && cfg.maxDelayMs >= 0
    ensures 0.0 <= DelayCap(attempt, cfg) <= cfg.maxDelayMs as real
    ensures DelayCap(attempt, cfg) <= (cfg.baseDelayMs * Pow2(attempt)) as real
  {
    hide Pow2;
    assert cfg.baseDelayMs * Pow2(attempt) >= 0;
  }

  // The attempts made for a given script of call results and of waits cut short by the
  // context: how many calls there were and what came of them.
  ghost predicate IsOutcome(cfg: RetryConfig, script: nat -> Attempt, cutShort: nat -> bool,
                            calls: nat, err: Option<Failure>)
  {
    if cfg.maxRetries < 0 then calls == 0 && err == None
    else
      && 1 <= calls <= cfg.maxRetries + 1
      && (forall k: nat :: k < calls - 1 ==> script(k) == FailedRetryable)
      && (forall k: nat :: 1 <= k < calls ==> !cutShort(k))
      && match err
         case None => script(calls - 1) == Succeeded
         case Some(OfCall(k)) =>
           k == calls - 1
           && (script(k) == FailedForGood || (script(k) == FailedRetryable && calls == cfg.maxRetries + 1))
         case Some(ContextDone) =>
           script(calls - 1) == FailedRetryable && calls <= cfg.maxRetries && cutShort(calls)
  }

  // Back-off times are bounded by the cap per retry and by the geometric sum of the base.
  ghost predicate WithinBackoffBudget(cfg: RetryConfig, retries: nat, waited: int) {
    && waited <= retries * cfg.maxDelayMs
    && waited <= cfg.baseDelayMs * (Pow2(retries + 1) - 2)
  }

  lemma NoWait(cfg: RetryConfig)
    ensures WithinBackoffBudget(cfg, 0, 0)
  {
    assert Pow2(1) == 2 * Pow2(0);
  }

  lemma OneMoreWait(cfg: RetryConfig, retries: nat, waited: int, jitter: real)
    requires Sane(cfg) && 0.0 <= jitter < 1.0
    requires WithinBackoffBudget(cfg, retries, waited)
    ensures WithinBackoffBudget(cfg, retries + 1, waited + BackoffMs(retries + 1, cfg, jitter))
  {
    BackoffBounds(retries + 1, cfg, jitter);
    var b, p := cfg.baseDelayMs, Pow2(retries + 1);
    assert Pow2(retries + 2) == 2 * p;
    assert b * (2 * p - 2) == b * (p - 2) + b * p;
    assert (retries + 1) * cfg.maxDelayMs == retries * cfg.maxDelayMs + cfg.maxDelayMs;
  }

  lemma BudgetGrows(cfg: RetryConfig, few: nat, many: nat, waited: int)
    requires Sane(cfg) && few <= many && WithinBackoffBudget(cfg, few, waited)
    ensures WithinBackoffBudget(cfg, many, waited)
    decreases many - few
  {
    if few < many {
      OneMoreWait(cfg, few, waited, 0.0);
      ZeroBackoff(few + 1, cfg);
      BudgetGrows(cfg, few + 1, many, waited);
    }
  }

  lemma ZeroBackoff(attempt: nat, cfg: RetryConfig)
    ensures BackoffMs(attempt, cfg, 0.0) == 0
  {
  }

  // Runs the operation until it succeeds, fails for good, or retries or the context run
  // out. A wait that the context cuts short is charged in full.
  method DoWithRetry(cfg: RetryConfig, script: nat -> Attempt, cutShort: nat -> bool, jitter: nat -> real)
    returns (calls: nat, err: Option<Failure>, waited: int)
    requires forall k :: 0.0 <= jitter(k) < 1.0
    ensures IsOutcome(cfg, script, cutShort, calls, err)
    ensures Sane(cfg) ==> WithinBackoffBudget(cfg, cfg.maxRetries, waited)
  {
    hide WithinBackoffBudget, BackoffMs, Pow2;
    calls, err, waited := 0, None, 0;
    NoWait(cfg);
    var attempt := 0;
    while attempt <= cfg.maxRetries
      invariant 0 <= attempt && attempt <= if cfg.maxRetries >= 0 then cfg.maxRetries + 1 else 0
      invariant calls == attempt
      invariant attempt == 0 ==> err == None && waited == 0
      invariant attempt > 0 ==> err == Some(OfCall(attempt - 1))
      invariant forall k: nat :: k < attempt ==> script(k) == FailedRetryable
      invariant forall k: nat :: 1 <= k < attempt ==> !cutShort(k)
      invariant Sane(cfg) ==> WithinBackoffBudget(cfg, if attempt == 0 then 0 else attempt - 1, waited)
      decreases cfg.maxRetries - attempt
    {
      if attempt > 0 {
        var delay := BackoffMs(attempt, cfg, jitter(attempt));
        if Sane(cfg) {
          OneMoreWait(cfg, attempt - 1, waited, jitter(attempt));
          BudgetGrows(cfg, attempt, cfg.maxRetries, waited + delay);
        }
        waited := waited + delay;
        if cutShort(attempt) {
          err := Some(ContextDone);
          return;
        }
      }
      var result := script(attempt);
      calls := calls + 1;
      if result == Succeeded {
        err := None;
        if Sane(cfg) {
          BudgetGrows(cfg, attempt, cfg.maxRetries, waited);
        }
        return;
      }
      err := Some(OfCall(attempt));
      if result == FailedForGood {
        if Sane(cfg) {
          BudgetGrows(cfg, attempt, cfg.maxRetries, waited);
        }
        return;
      }
      attempt := attempt + 1;
    }
    if Sane(cfg) {
      BudgetGrows(cfg, attempt - 1, cfg.maxRetries, waited);
    }
  }

  // The script leaves no freedom: number of calls and error are determined.
  lemma OutcomeIsDetermined(cfg: RetryConfig, script: nat -> Attempt, cutShort: nat -> bool,
                            c1: nat, e1: Option<Failure>, c2: nat, e2: Option<Failure>)
    requires IsOutcome(cfg, script, cutShort, c1, e1) && IsOutcome(cfg, script, cutShort, c2, e2)
    ensures c1 == c2 && e1 == e2
  {
  }

  // With a negative retry limit the operation never runs and success is reported; with any
  // other limit success is reported exactly when the last call succeeded.
  lemma SuccessMeansLastCallSucceeded(cfg: RetryConfig, script: nat -> Attempt, cutShort: nat -> bool,
                                      calls: nat, err: Option<Failure>)
    requires IsOutcome(cfg, script, cutShort, calls, err)
    ensures err == None <==> cfg.maxRetries < 0 || (calls > 0 && script(calls - 1) == Succeeded)
    ensures cfg.maxRetries >= 0 ==> 1 <= calls <= cfg.maxRetries + 1
  {
  }

  // ---- The alert of a failed job ----

  datatype Alert = RetryExhausted | ApiFailure

  // The job counts the calls that failed retryably while they happen.
  function RetryCount(script: nat -> Attempt, calls: nat): nat {
    if calls == 0 then 0 else RetryCount(script, calls - 1) + if script(calls - 1) == FailedRetryable then 1 else 0
  }

  function AlertFor(retryCount: nat, maxRetries: int): Alert {
    if retryCount >= maxRetries then RetryExhausted else ApiFailure
  }

  lemma {:induction false} AllRetryable(script: nat -> Attempt, n: nat)
    requires forall k: nat :: k < n ==> script(k) == FailedRetryable
    ensures RetryCount(script, n) == n
  {
    if n > 0 {
      AllRetryable(script, n - 1);
    }
  }

  // Every retry was really used up: the last permitted call was made and failed retryably.
  ghost predicate ReallyExhausted(cfg: RetryConfig, script: nat -> Attempt, calls: nat) {
    calls == cfg.maxRetries + 1 && calls > 0 && script(calls - 1) == FailedRetryable
  }

  // When the alert says exhausted. Besides real exhaustion it also says so when the last
  // permitted call failed for good, or when the context ended the job after exactly as
  // many retryable failures as there are retries.
  lemma ExhaustedAlert(cfg: RetryConfig, script: nat -> Attempt, cutShort: nat -> bool,
                       calls: nat, failure: Failure)
    requires IsOutcome(cfg, script, cutShort, calls, Some(failure))
    ensures AlertFor(RetryCount(script, calls), cfg.maxRetries) == RetryExhausted
        <==> ReallyExhausted(cfg, script, calls)
             || (script(calls - 1) == FailedForGood && calls == cfg.maxRetries + 1)
             || (failure == ContextDone && calls == cfg.maxRetries)
  {
    AllRetryable(script, calls - 1);
  }

  // ---- The delay itself ----

  // The delay is the whole milliseconds of the random fraction of min(max, base * 2^attempt).
  lemma DelayIsTheFraction(attempt: nat, cfg: RetryConfig, jitter: real)
    requires cfg.baseDelayMs >= 0 && cfg.maxDelayMs >= 0 && 0.0 <= jitter < 1.0
    ensures var doubled := cfg.baseDelayMs * Pow2(attempt);
      var cap := if doubled > cfg.maxDelayMs then cfg.maxDelayMs else doubled;
      var delay := BackoffMs(attempt, cfg, jitter) as real;
      delay <= jitter * cap as real < delay + 1.0
  {
    hide Pow2;
    CapBounds(attempt, cfg);
    ProductBounds(jitter, DelayCap(attempt, cfg));
  }

  lemma PowersDouble(n: nat)
    ensures Pow2(0) == 1 && Pow2(n + 1) == Pow2(n) + Pow2(n)
  {
  }
}
