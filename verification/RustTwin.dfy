/** The Rust worker's failure rule, in 32-bit arithmetic, and when it agrees with the Python worker's. */
module RustTwin {
  import opened Prelude
  import opened TaskTable

  const I32_MIN: int := -0x8000_0000
  const I32_MAX: int := 0x7fff_ffff

  predicate IsI32(n: int) {
    I32_MIN <= n <= I32_MAX
  }

  lemma ThirtyTwoBits(n: int)
    ensures IsI32(n) <==> -2_147_483_648 <= n <= 2_147_483_647
  {
  }

  /** `x as usize` on a 64-bit machine. */
  function AsUsize(x: int): nat
    requires IsI32(x)
  {
    if x < 0 then x + 0x1_0000_0000_0000_0000 else x
  }

  /** What 32-bit arithmetic does on overflow: a debug build panics, a release build, the one shipped, wraps. */
  datatype Build = Debug | Release

  function I32(build: Build, n: int): Option<int> {
    if IsI32(n) then Some(n)
    else if build == Debug then None
    else Some((n - I32_MIN) % 0x1_0000_0000 + I32_MIN)
  }

  /** `attempt - 1` is computed before the sign is tested. */
  function RetryBackoffSecondsI32(build: Build, attempt: int): Option<int>
    requires IsI32(attempt)
  {
    match I32(build, attempt - 1)
    case None => None
    case Some(before) =>
      var idx := AsUsize(before);
      if attempt <= 0 then Some(0)
      else if idx >= |BACKOFF_SECONDS| then Some(BACKOFF_SECONDS[|BACKOFF_SECONDS| - 1])
      else Some(BACKOFF_SECONDS[idx])
  }

  /** The decision from the attempts and limit the task had when it was claimed; None on a panic. */
  function PlanIn(build: Build, attempts: int, maxRetries: int): Option<FailPlan> {
    match I32(build, attempts + 1)
    case None => None
    case Some(newAttempts) =>
      if newAttempts < maxRetries then
        match RetryBackoffSecondsI32(build, newAttempts)
        case None => None
        case Some(backoff) => Some(RetryAfter(newAttempts, backoff as real))
      else Some(GiveUp(newAttempts))
  }

  /** The decision away from overflow; the builds agree on it. */
  function PlanFromClaim(attempts: int, maxRetries: int): Option<FailPlan> {
    PlanIn(Debug, attempts, maxRetries)
  }

  /** The release build's backoff agrees with the Python one everywhere, the debug build's but at the least value. */
  lemma BackoffsAgree(build: Build, attempt: int)
    requires IsI32(attempt)
    ensures RetryBackoffSecondsI32(build, attempt) == Some(RetryBackoffSeconds(attempt))
            <==> build == Release || attempt > I32_MIN
  {
  }

  /**
   * The builds differ only where the attempts overflow: there the debug build writes nothing, and the release
   * build wraps to the least value and, below the limit, tries again at once.
   */
  lemma BuildsAgree(attempts: int, maxRetries: int)
    requires IsI32(attempts) && IsI32(maxRetries)
    ensures PlanIn(Debug, attempts, maxRetries) == PlanIn(Release, attempts, maxRetries) <==> attempts < I32_MAX
    ensures PlanIn(Release, I32_MAX, maxRetries)
         == Some(if I32_MIN < maxRetries then RetryAfter(I32_MIN, 0.0) else GiveUp(I32_MIN))
  {
  }

  lemma PlansAgree(row: Row)
    requires 0 <= row.attempts < I32_MAX && row.retryBackoff
    ensures PlanFromClaim(row.attempts, row.maxRetries) == Some(Plan(row))
  {
    BackoffsAgree(Debug, row.attempts + 1);
  }

  /**
   * On a row whose attempts have not moved since the claim, the two workers write the same row exactly
   * when the failure is final or the row's own delay is the backoff delay. Rust ignores a retry_backoff
   * of false and any retry_delay.
   */
  lemma WritesAgree(row: Row, id: Id, error: string, now: Time)
    requires 0 <= row.attempts < I32_MAX
    ensures PlanFromClaim(row.attempts, row.maxRetries).Some?
    ensures Set(MarkFailure(id, PlanFromClaim(row.attempts, row.maxRetries).value, error), row, now)
         == Set(MarkFailure(id, Plan(row), error), row, now)
        <==> || row.attempts + 1 >= row.maxRetries
             || row.retryBackoff
             || RetryDelay(row, row.attempts + 1) == RetryBackoffSeconds(row.attempts + 1) as real
  {
    var k := row.attempts + 1;
    BackoffsAgree(Debug, k);
    if k < row.maxRetries && !row.retryBackoff {
      var delay := RetryDelay(row, k);
      var rust := PlanFromClaim(row.attempts, row.maxRetries).value;
      assert Set(MarkFailure(id, Plan(row), error), row, now).scheduledAt == now + delay;
      assert Set(MarkFailure(id, rust, error), row, now).scheduledAt == now + RetryBackoffSeconds(k) as real;
    }
  }
}
