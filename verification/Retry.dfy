/** Retrying a chain RPC. */
module Retry {
  import opened Wrappers
  import opened Types
  import opened Metrics

  const MAX_ATTEMPTS: nat := 3
  /** Milliseconds. */
  const MAX_BACKOFF: nat := 2000

  type u8 = x: nat | x < 256

  /** Only a failure to retrieve is worth another attempt. */
  predicate Retryable<T>(r: Result<T, AdapterError>) {
    r == Err(RetrievalError)
  }

  function AttemptLimit(maxAttempts: u8): nat {
    if maxAttempts == 0 then 1 else maxAttempts
  }

  /** The number of attempts: up to the first outcome that is not retryable, within the limit. */
  function Attempts<T>(script: nat -> Result<T, AdapterError>, limit: nat): (n: nat)
    requires limit > 0
    ensures 1 <= n <= limit
    ensures forall i :: 0 <= i < n - 1 ==> Retryable(script(i))
    ensures n < limit ==> !Retryable(script(n - 1))
  {
    AttemptsFrom(script, limit, 1)
  }

  function AttemptsFrom<T>(script: nat -> Result<T, AdapterError>, limit: nat, n: nat): (m: nat)
    requires 1 <= n <= limit
    requires forall i :: 0 <= i < n - 1 ==> Retryable(script(i))
    ensures n <= m <= limit
    ensures forall i :: 0 <= i < m - 1 ==> Retryable(script(i))
    ensures m < limit ==> !Retryable(script(m - 1))
    decreases limit - n
  {
    if n < limit && Retryable(script(n - 1)) then AttemptsFrom(script, limit, n + 1) else n
  }

  /** The two conditions leave only one number of attempts. */
  lemma AttemptsUnique<T>(script: nat -> Result<T, AdapterError>, limit: nat, n: nat)
    requires 1 <= n <= limit
    requires forall i :: 0 <= i < n - 1 ==> Retryable(script(i))
    requires n < limit ==> !Retryable(script(n - 1))
    ensures n == Attempts(script, limit)
  {
    var m := Attempts(script, limit);
    var i: nat, j: nat := m - 1, n - 1;
    assert i < j ==> Retryable(script(i));
    assert j < i ==> Retryable(script(j));
  }

  /**
   * `script(i)` is the outcome of attempt `i`, `backoff(i)` the delay the backoff iterator proposes after it.
   * The limit is 3 in the service; the attempt counter is the source's 8-bit atomic.
   */
  method WithRetryBackoff<T>(metrics: Metrics, operation: string, script: nat -> Result<T, AdapterError>,
                             backoff: nat -> nat, maxAttempts: u8)
    returns (result: Result<T, AdapterError>, calls: nat, sleeps: seq<nat>)
    modifies metrics
    ensures calls == Attempts(script, AttemptLimit(maxAttempts))
    ensures result == script(calls - 1)
    ensures |sleeps| == calls - 1
    ensures forall i :: 0 <= i < |sleeps| ==> sleeps[i] == if backoff(i) <= 2000 then backoff(i) else 2000
    ensures metrics.cell ==
            if result.Err? && calls >= maxAttempts
            then Recorded(old(metrics.cell), RetryFailed(Current(old(metrics.cell)), operation))
            else old(metrics.cell)
  {
    var delaysLeft: nat := if maxAttempts == 0 then 0 else maxAttempts - 1;
    var attempts: u8 := 0;
    sleeps := [];
    attempts := (attempts + 1) % 256;
    result := script(0);
    calls := 1;
    while Retryable(result) && delaysLeft > 0
      invariant 1 <= calls && calls + delaysLeft == AttemptLimit(maxAttempts)
      invariant attempts == calls
      invariant result == script(calls - 1)
      invariant forall i :: 0 <= i < calls - 1 ==> Retryable(script(i))
      invariant |sleeps| == calls - 1
      invariant forall i :: 0 <= i < |sleeps| ==> sleeps[i] == if backoff(i) <= 2000 then backoff(i) else 2000
      invariant metrics.cell == old(metrics.cell)
      decreases delaysLeft
    {
      var proposed := backoff(|sleeps|);
      sleeps := sleeps + [if proposed <= MAX_BACKOFF then proposed else MAX_BACKOFF];
      delaysLeft := delaysLeft - 1;
      attempts := (attempts + 1) % 256;
      result := script(attempts - 1);
      calls := calls + 1;
    }
    AttemptsUnique(script, AttemptLimit(maxAttempts), calls);
    if result.Err? {
      if attempts >= maxAttempts {
        metrics.IncRetryFailure(operation);
      }
    }
  }

  /** The number of attempts is the least of the limit, at least one, and the place of the first other outcome. */
  lemma AttemptsAreLeast<T>(script: nat -> Result<T, AdapterError>, maxAttempts: u8)
    ensures var k := Attempts(script, AttemptLimit(maxAttempts));
            && k <= (if maxAttempts <= 1 then 1 else maxAttempts)
            && (forall i :: 0 <= i < k - 1 ==> script(i) == Err(RetrievalError))
            && (k == (if maxAttempts <= 1 then 1 else maxAttempts) || script(k - 1) != Err(RetrievalError))
  {
  }

  /** With the service's limit: at most three attempts, two sleeps, and a counted failure exactly on a third error. */
  lemma AtMostThree<T>(script: nat -> Result<T, AdapterError>)
    ensures var k := Attempts(script, MAX_ATTEMPTS);
            && k <= 3
            && (k == 1 <==> script(0) != Err(RetrievalError))
            && (k == 3 <==> script(0) == Err(RetrievalError) && script(1) == Err(RetrievalError))
            && (script(k - 1).Err? && k >= MAX_ATTEMPTS <==>
                  Retryable(script(0)) && Retryable(script(1)) && script(2).Err?)
  {
    var k := Attempts(script, MAX_ATTEMPTS);
    if Retryable(script(0)) && Retryable(script(1)) {
      assert k == 3;
    }
  }
}
