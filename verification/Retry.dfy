/** Bounded retries with exponential backoff (retry.go) and the long retry of the background uploader (storage.go),
    with the wrap-around of 64-bit arithmetic. Durations are nanoseconds. */
module Retry {
  import opened Scan

  const TWO_TO_64: int := 0x1_0000_0000_0000_0000
  const MAX_DELAY: int := 30_000_000_000

  // ---------- 64-bit arithmetic ----------

  /** Two's complement reduction to 64 bits. */
  function Wrap64(n: int): (r: int)
    ensures IsInt64(r)
  {
    var m := n % TWO_TO_64;
    if m > MAX_INT64 then m - TWO_TO_64 else m
  }

  function Pow2(k: nat): (p: nat)
    ensures p > 0
  {
    if k == 0 then 1 else 2 * Pow2(k - 1)
  }

  /** int64(1) << a. */
  function Shl1(a: nat): int {
    if a < 63 then Pow2(a) else if a == 63 then MIN_INT64 else 0
  }

  /** base * Duration(1 << uint(attempt)), as the machine computes it. */
  function ShiftedDelay(base: int, attempt: nat): int {
    Wrap64(base * Shl1(attempt))
  }

  lemma {:induction false} Pow2Add(a: nat, b: nat)
    ensures Pow2(a + b) == Pow2(a) * Pow2(b)
  {
    if b > 0 {
      Pow2Add(a, b - 1);
    }
  }

  lemma Pow2At63()
    ensures Pow2(62) <= MAX_INT64 && Pow2(63) == MAX_INT64 + 1
  {
    assert Pow2(7) == 128;
    Pow2Add(7, 7);
    Pow2Add(14, 14);
    Pow2Add(28, 28);
    Pow2Add(56, 7);
    assert Pow2(63) == 2 * Pow2(62);
  }

  lemma {:induction false} Pow2Monotone(a: nat, b: nat)
    requires a <= b
    ensures Pow2(a) <= Pow2(b)
  {
    if a < b {
      Pow2Monotone(a, b - 1);
    }
  }

  lemma TimesPow2Monotone(base: nat, a: nat, b: nat)
    requires a <= b
    ensures base * Pow2(a) <= base * Pow2(b)
  {
    Pow2Monotone(a, b);
    MulMonotone(base, Pow2(a), Pow2(b));
  }

  lemma MulMonotone(x: nat, y: nat, z: nat)
    requires y <= z
    ensures x * y <= x * z
  {
  }

  /** Without overflow the machine computes the mathematical product. */
  lemma ShiftExact(base: int, attempt: nat)
    requires base > 0 && base * Pow2(attempt) <= MAX_INT64
    ensures ShiftedDelay(base, attempt) == base * Pow2(attempt)
  {
    Pow2At63();
    if attempt >= 63 {
      TimesPow2Monotone(base, 63, attempt);
      MulMonotone(Pow2(63), 1, base);
    }
  }

  lemma WrapAtMost(n: nat)
    ensures Wrap64(n) <= n
  {
  }

  /** From 63 on the shifted one is zero or negative. */
  lemma LargeShift(base: int, attempt: nat)
    requires base > 0 && attempt >= 63
    ensures ShiftedDelay(base, attempt) <= MAX_INT64
    ensures MAX_INT64 < base * Pow2(attempt)
  {
    hide Wrap64;
    Pow2At63();
    Pow2Monotone(63, attempt);
    MulMonotone(Pow2(attempt), 1, base);
  }

  /** With overflow, whatever positive value comes out is still no more than the mathematical product. */
  lemma ShiftBounded(base: int, attempt: nat)
    requires base > 0
    ensures ShiftedDelay(base, attempt) <= base * Pow2(attempt)
  {
    hide Wrap64;
    if attempt < 63 {
      MulMonotone(base, 1, Pow2(attempt));
      WrapAtMost(base * Pow2(attempt));
    } else {
      LargeShift(base, attempt);
    }
  }

  // ---------- calcBackoff ----------

  /** The upper end of the jitter range. */
  function ExpDelay(base: int, attempt: nat): int {
    var d := ShiftedDelay(base, attempt);
    if d <= 0 then base else d
  }

  /** The range ends at base * 2^attempt as 64-bit arithmetic computes it, or at base where that is not positive. */
  lemma JitterRange(base: int, attempt: nat)
    requires base > 0 && attempt < 63
    ensures
      var exact, d := base * Pow2(attempt), ExpDelay(base, attempt);
      d == if 0 < exact % TWO_TO_64 <= MAX_INT64 then exact % TWO_TO_64 else base
  {
  }

  /** calcBackoff; rand.Int63n(n) draws from [0, n). */
  function CalcBackoff(base: int, attempt: nat, draw: nat): int
    requires base > 0
  {
    draw % ExpDelay(base, attempt)
  }

  /** For every positive base and every attempt the range drawn from is not empty and the delay lies in [0, base *
      2^attempt), shifts of 63 and more and wrapped products included; without overflow the range is exactly base *
      2^attempt wide. */
  lemma BackoffBound(base: int, attempt: nat, draw: nat)
    requires base > 0
    ensures 0 < ExpDelay(base, attempt) <= base * Pow2(attempt)
    ensures 0 <= CalcBackoff(base, attempt, draw) < base * Pow2(attempt)
    ensures base * Pow2(attempt) <= MAX_INT64 ==> ExpDelay(base, attempt) == base * Pow2(attempt)
  {
    ShiftBounded(base, attempt);
    MulMonotone(base, 1, Pow2(attempt));
    if base * Pow2(attempt) <= MAX_INT64 {
      ShiftExact(base, attempt);
    }
  }

  /** Every delay of the range can be drawn. */
  lemma EveryDelayDrawn(base: int, attempt: nat, delay: nat)
    requires base > 0 && delay < ExpDelay(base, attempt)
    ensures CalcBackoff(base, attempt, delay) == delay
  {
    hide ExpDelay;
  }

  // ---------- WithRetry ----------

  datatype Error =
    | Canceled
    | DeadlineExceeded
    | RetryExhausted
    | Other(code: int)
    | Retryable(inner: Error)   // RetryableError
    | Wrapped(inner: Error)     // fmt.Errorf("...%w", inner)

  /** errors.As(err, *RetryableError): somewhere in the chain of wrapped errors. */
  predicate IsRetryable(e: Error) {
    match e
    case Retryable(_) => true
    case Wrapped(inner) => IsRetryable(inner)
    case _ => false
  }

  /** What the environment does in one round: the context's error before the call, the call's own result,
      the context's error during the sleep, the random draw. */
  datatype Round = Round(ctxErr: Option<Error>, outcome: Option<Error>, sleepErr: Option<Error>, draw: nat)

  datatype Report = Report(err: Option<Error>, calls: nat, slept: nat)

  const EXHAUSTED := Retryable(RetryExhausted)

  /** WithRetry from round i on, with the calls made and the time slept so far. */
  function RetryFrom(env: nat -> Round, maxAttempts: int, base: int, i: nat, slept: nat): Report
    requires base > 0
    decreases maxAttempts - i
  {
    if i >= maxAttempts then Report(Some(EXHAUSTED), i, slept)
    else
      var r := env(i);
      if r.ctxErr.Some? then Report(r.ctxErr, i, slept)
      else if r.outcome.None? then Report(None, i + 1, slept)
      else if !IsRetryable(r.outcome.value) then Report(r.outcome, i + 1, slept)
      else if i < maxAttempts - 1 then
        BackoffBound(base, i, r.draw);
        var delay: nat := CalcBackoff(base, i, r.draw);
        if r.sleepErr.Some? then Report(r.sleepErr, i + 1, slept + delay)
        else RetryFrom(env, maxAttempts, base, i + 1, slept + delay)
      else RetryFrom(env, maxAttempts, base, i + 1, slept)
  }

  /** WithRetry; env(i) is what happens in round i. */
  method WithRetry(maxAttempts: int, base: int, env: nat -> Round) returns (r: Report)
    requires base > 0
    ensures r == RetryFrom(env, maxAttempts, base, 0, 0)
  {
    var attempt: nat := 0;
    var slept: nat := 0;
    while attempt < maxAttempts
      invariant RetryFrom(env, maxAttempts, base, 0, 0) == RetryFrom(env, maxAttempts, base, attempt, slept)
      decreases maxAttempts - attempt
    {
      var round := env(attempt);
      if round.ctxErr.Some? {
        return Report(round.ctxErr, attempt, slept);
      }
      if round.outcome.None? {
        return Report(None, attempt + 1, slept);
      }
      if !IsRetryable(round.outcome.value) {
        return Report(round.outcome, attempt + 1, slept);
      }
      if attempt < maxAttempts - 1 {
        BackoffBound(base, attempt, round.draw);
        slept := slept + CalcBackoff(base, attempt, round.draw);
        if round.sleepErr.Some? {
          return Report(round.sleepErr, attempt + 1, slept);
        }
      }
      attempt := attempt + 1;
    }
    return Report(Some(EXHAUSTED), attempt, slept);
  }

  /** Round i went through: no cancellation before it, a retryable failure, and no cancellation in the sleep
      after it. */
  predicate Retried(env: nat -> Round, maxAttempts: int, i: nat) {
    && env(i).ctxErr.None? && env(i).outcome.Some? && IsRetryable(env(i).outcome.value)
    && (i < maxAttempts - 1 ==> env(i).sleepErr.None?)
  }

  ghost predicate AllRetried(env: nat -> Round, maxAttempts: int, n: nat) {
    forall i: nat :: i < n ==> Retried(env, maxAttempts, i)
  }

  /** Why a run that did not exhaust its attempts stopped after its last call. */
  predicate Stopped(env: nat -> Round, maxAttempts: int, r: Report) {
    || (r.err.None? && r.calls > 0 && env(r.calls - 1).ctxErr.None? && env(r.calls - 1).outcome.None?)
    || (r.err.Some? && r.calls > 0 && env(r.calls - 1).ctxErr.None? && r.err == env(r.calls - 1).outcome
       && !IsRetryable(r.err.value))
    || (r.err.Some? && r.calls < maxAttempts && r.err == env(r.calls).ctxErr
        && (r.calls > 0 ==> Retried(env, maxAttempts, r.calls - 1)))
    || (r.err.Some? && 0 < r.calls < maxAttempts && r.err == env(r.calls - 1).sleepErr
        && env(r.calls - 1).outcome.Some? && IsRetryable(env(r.calls - 1).outcome.value))
  }

  lemma {:induction false} RetryFromMeaning(env: nat -> Round, maxAttempts: int, base: int, i: nat, slept: nat)
    requires base > 0 && AllRetried(env, maxAttempts, i) && (i <= maxAttempts || i == 0)
    ensures
      var r := RetryFrom(env, maxAttempts, base, i, slept);
      && i <= r.calls && (r.calls <= maxAttempts || r.calls == 0)
      && AllRetried(env, maxAttempts, if r.calls == 0 then 0 else r.calls - 1)
      && (Stopped(env, maxAttempts, r)
          || (r.err == Some(EXHAUSTED) && (r.calls == maxAttempts || maxAttempts < 0)
             && AllRetried(env, maxAttempts, r.calls)))
    decreases maxAttempts - i
  {
    if i < maxAttempts {
      var r := env(i);
      if r.ctxErr.None? && r.outcome.Some? && IsRetryable(r.outcome.value) {
        if i < maxAttempts - 1 {
          BackoffBound(base, i, r.draw);
          if r.sleepErr.None? {
            RetryFromMeaning(env, maxAttempts, base, i + 1, slept + CalcBackoff(base, i, r.draw));
          }
        } else {
          RetryFromMeaning(env, maxAttempts, base, i + 1, slept);
        }
      }
    }
  }

  /** What WithRetry means. It calls the function at most maxAttempts times, retrying only after retryable failures with
      no cancellation seen; it returns nil exactly when its last call succeeded; it reports exhaustion exactly when all
      maxAttempts rounds went through, apart from a context whose own error has that form. */
  lemma RetryMeaning(env: nat -> Round, maxAttempts: int, base: int)
    requires base > 0
    ensures
      var r := RetryFrom(env, maxAttempts, base, 0, 0);
      && (r.calls <= maxAttempts || r.calls == 0)
      && AllRetried(env, maxAttempts, if r.calls == 0 then 0 else r.calls - 1)
      && (r.err.None? <==> r.calls > 0 && env(r.calls - 1).outcome.None? && env(r.calls - 1).ctxErr.None?)
      && (maxAttempts >= 0 && AllRetried(env, maxAttempts, maxAttempts) ==>
         r.err == Some(EXHAUSTED) && r.calls == maxAttempts)
      && (r.err == Some(EXHAUSTED) && maxAttempts >= 0 ==>
            || (r.calls == maxAttempts && AllRetried(env, maxAttempts, maxAttempts))
            || (r.calls < maxAttempts && env(r.calls).ctxErr == r.err)
            || (r.calls > 0 && env(r.calls - 1).sleepErr == r.err))
  {
    RetryFromMeaning(env, maxAttempts, base, 0, 0);
    var r := RetryFrom(env, maxAttempts, base, 0, 0);
    if maxAttempts >= 0 && AllRetried(env, maxAttempts, maxAttempts) {
      assert r.calls < maxAttempts ==> Retried(env, maxAttempts, r.calls);
      assert 0 < r.calls <= maxAttempts ==> Retried(env, maxAttempts, r.calls - 1);
    }
    assert IsRetryable(EXHAUSTED);
  }

  /** What is slept after the first n calls: one backoff after each call that failed and may be retried, the last
      allowed call excepted. */
  function SleptAfter(env: nat -> Round, maxAttempts: int, base: int, n: nat): int
    requires base > 0
  {
    if n == 0 then 0
    else
      var o := env(n - 1).outcome;
      SleptAfter(env, maxAttempts, base, n - 1)
      + (if n < maxAttempts && o.Some? && IsRetryable(o.value) then CalcBackoff(base, n - 1, env(n - 1).draw) else 0)
  }

  lemma {:induction false} SleptFrom(env: nat -> Round, maxAttempts: int, base: int, i: nat, slept: nat)
    requires base > 0 && slept == SleptAfter(env, maxAttempts, base, i)
    ensures
      var r := RetryFrom(env, maxAttempts, base, i, slept);
      r.slept == SleptAfter(env, maxAttempts, base, r.calls)
    decreases maxAttempts - i
  {
    hide CalcBackoff;
    if i < maxAttempts {
      var r := env(i);
      if r.ctxErr.None? && r.outcome.Some? && IsRetryable(r.outcome.value) {
        if i < maxAttempts - 1 {
          BackoffBound(base, i, r.draw);
          var delay: nat := CalcBackoff(base, i, r.draw);
          assert SleptAfter(env, maxAttempts, base, i + 1) == slept + delay;
          if r.sleepErr.None? {
            SleptFrom(env, maxAttempts, base, i + 1, slept + delay);
          }
        } else {
          SleptFrom(env, maxAttempts, base, i + 1, slept);
        }
      }
    }
  }

  /** WithRetry sleeps one backoff, drawn for that attempt, between any two of its calls, and after its last one only if
      the context ended it there. */
  lemma SleepsExactly(env: nat -> Round, maxAttempts: int, base: int)
    requires base > 0
    ensures
      var r := RetryFrom(env, maxAttempts, base, 0, 0);
      r.slept == SleptAfter(env, maxAttempts, base, r.calls)
  {
    SleptFrom(env, maxAttempts, base, 0, 0);
  }

  /** The errors of a chain of wrapped ones, outermost first. */
  function Chain(e: Error): seq<Error> {
    match e
    case Wrapped(inner) => [e] + Chain(inner)
    case _ => [e]
  }

  /** An error is retried exactly if some error in its chain is a RetryableError. */
  lemma {:induction false} RetryableInChain(e: Error)
    ensures IsRetryable(e) <==> exists x :: x in Chain(e) && x.Retryable?
  {
    match e
    case Wrapped(inner) =>
      RetryableInChain(inner);
      assert forall x :: x in Chain(e) <==> x == e || x in Chain(inner);
    case _ =>
      assert e in Chain(e);
      assert forall x :: x in Chain(e) ==> x == e;
  }

  /** All the sleeps before round i together, if every draw is as long as it can be. */
  function SleepLimit(base: nat, i: nat): nat {
    base * (Pow2(i) - 1)
  }

  lemma SleepLimitStep(base: nat, i: nat)
    ensures SleepLimit(base, i) + base * Pow2(i) == SleepLimit(base, i + 1)
  {
    Distribute(base, Pow2(i));
  }

  lemma Distribute(x: nat, y: nat)
    requires y > 0
    ensures x * (y - 1) + x * y == x * (2 * y - 1)
  {
  }

  lemma SleepLimitMonotone(base: nat, i: nat, j: nat)
    requires i <= j
    ensures SleepLimit(base, i) <= SleepLimit(base, j)
  {
    Pow2Monotone(i, j);
    MulMonotone(base, Pow2(i) - 1, Pow2(j) - 1);
  }

  lemma {:induction false} SleptWithin(env: nat -> Round, maxAttempts: int, base: int, i: nat, slept: nat)
    requires base > 0 && 1 <= maxAttempts && i <= maxAttempts
    requires if i == 0 then slept == 0 else slept < SleepLimit(base, if i < maxAttempts then i else maxAttempts - 1)
    ensures
      var r := RetryFrom(env, maxAttempts, base, i, slept);
      r.slept == slept || r.slept < SleepLimit(base, maxAttempts - 1)
    decreases maxAttempts - i
  {
    hide Pow2, SleepLimit, CalcBackoff;
    if i < maxAttempts {
      var r := env(i);
      if r.ctxErr.None? && r.outcome.Some? && IsRetryable(r.outcome.value) && i < maxAttempts - 1 {
        BackoffBound(base, i, r.draw);
        SleepLimitStep(base, i);
        SleepLimitMonotone(base, i + 1, maxAttempts - 1);
        var delay: nat := CalcBackoff(base, i, r.draw);
        assert slept <= SleepLimit(base, i) by { SleepLimitMonotone(base, 0, i); }
        assert slept + delay < SleepLimit(base, i + 1);
        if r.sleepErr.None? {
          SleptWithin(env, maxAttempts, base, i + 1, slept + delay);
        }
      } else if r.ctxErr.None? && r.outcome.Some? && IsRetryable(r.outcome.value) {
        assert RetryFrom(env, maxAttempts, base, i + 1, slept).slept == slept;
      }
    }
  }

  /** With N >= 2 attempts the sleeps add up to less than base * (2^(N-1) - 1). */
  lemma SleepsBounded(env: nat -> Round, maxAttempts: int, base: int)
    requires base > 0 && maxAttempts >= 2
    ensures RetryFrom(env, maxAttempts, base, 0, 0).slept < base * (Pow2(maxAttempts - 1) - 1)
  {
    SleptWithin(env, maxAttempts, base, 0, 0);
    Pow2Monotone(1, maxAttempts - 1);
    MulMonotone(Pow2(maxAttempts - 1) - 1, 1, base);
  }

  // ---------- uploadWithInfiniteRetry ----------

  /** The wait after failed attempt number `attempt`, counted from 1; retryMax is RetryMaxAttempts. */
  function LongDelay(base: int, retryMax: int, attempt: nat): int {
    var d := ShiftedDelay(base, attempt);
    if retryMax > 0 && attempt >= retryMax then MAX_DELAY
    else if d > MAX_DELAY then MAX_DELAY
    else d
  }

  /** Below the attempt limit the wait is base * 2^attempt, capped at 30 s, while that fits 64 bits; from the limit on
      it is 30 s. */
  lemma LongDelayExact(base: int, retryMax: int, attempt: nat)
    requires base > 0
    ensures retryMax > 0 && attempt >= retryMax ==> LongDelay(base, retryMax, attempt) == MAX_DELAY
    ensures !(retryMax > 0 && attempt >= retryMax) && base * Pow2(attempt) <= MAX_INT64 ==>
              LongDelay(base, retryMax, attempt) ==
              if base * Pow2(attempt) > MAX_DELAY then MAX_DELAY else base * Pow2(attempt)
  {
    if base * Pow2(attempt) <= MAX_INT64 {
      ShiftExact(base, attempt);
    }
  }

  /** One turn of the loop: what it reads before the attempt, what the attempt gives, whether the wait
      is interrupted. */
  datatype Turn = Turn(stop: bool, lost: bool, elapsed: nat, ok: bool, stopInWait: bool)

  /** The clock never runs backwards and a wait lasts at least as long as asked; a negative wait ends at once. */
  ghost predicate ClockOk(base: int, retryMax: int, turns: nat -> Turn) {
    forall i: nat ::
      turns(i + 1).elapsed >= turns(i).elapsed
          + (if LongDelay(base, retryMax, i + 1) > 0 then LongDelay(base, retryMax, i + 1) else 0)
  }

  datatype LongResult = Uploaded | StopSignal | LockWasLost | TimedOut

  lemma {:induction false} LateTurns(base: int, retryMax: int, turns: nat -> Turn, i: nat)
    requires retryMax > 0 && ClockOk(base, retryMax, turns) && i >= retryMax
    ensures turns(i).elapsed >= MAX_DELAY * (i - retryMax + 1)
    decreases i
  {
    var before: nat := i - 1;
    assert turns(before + 1).elapsed >= turns(before).elapsed + MAX_DELAY;
    if before >= retryMax {
      LateTurns(base, retryMax, turns, before);
    }
  }

  /** The upload succeeds, or the storage is closed or loses its lock. */
  predicate Ends(t: Turn) {
    t.stop || t.lost || t.ok || t.stopInWait
  }

  ghost predicate Limited(base: int, retryMax: int, maxDuration: int, turns: nat -> Turn) {
    retryMax > 0 && maxDuration > 0 && ClockOk(base, retryMax, turns)
  }

  /** uploadWithInfiniteRetry. Every attempt is made after seeing neither a stop signal nor a lost lock, and with time
      left if RetryMaxDuration is positive; success is reported exactly when the last attempt succeeded. With a positive
      attempt count R and a positive duration T it makes at most R + T / 30s attempts. Otherwise - RetryMaxDuration is 0
      by default - nothing bounds it but the environment: it ends in the turn in which the upload succeeds, the storage
      is closed or the lock is lost, and such a turn must come, here the one called end, at the latest. */
  method UploadWithInfiniteRetry(base: int, retryMax: int, maxDuration: int, turns: nat -> Turn, ghost end: nat)
    returns (result: LongResult, attempts: nat)
    requires Limited(base, retryMax, maxDuration, turns) || Ends(turns(end))
    ensures Limited(base, retryMax, maxDuration, turns) ==> attempts <= retryMax + maxDuration / MAX_DELAY
    ensures Ends(turns(end)) ==> attempts <= end + 1
    ensures forall i: nat :: i < attempts ==>
              !turns(i).stop && !turns(i).lost && (maxDuration > 0 ==> turns(i).elapsed <= maxDuration)
    ensures forall i: nat :: i + 1 < attempts ==> !turns(i).ok && !turns(i).stopInWait
    ensures result == Uploaded <==> attempts > 0 && turns(attempts - 1).ok
    ensures result == LockWasLost ==> turns(attempts).lost
    ensures result == TimedOut ==> maxDuration > 0 && turns(attempts).elapsed > maxDuration
    ensures result == StopSignal ==> turns(attempts).stop || (attempts > 0 && turns(attempts - 1).stopInWait)
  {
    attempts := 0;
    while true
      invariant Limited(base, retryMax, maxDuration, turns) ==> attempts <= retryMax + maxDuration / MAX_DELAY
      invariant forall i: nat :: i < attempts ==>
                  !Ends(turns(i)) && (maxDuration > 0 ==> turns(i).elapsed <= maxDuration)
      decreases (if Limited(base, retryMax, maxDuration, turns) then retryMax + maxDuration / MAX_DELAY else end + 1)
                - attempts
    {
      var turn := turns(attempts);
      if turn.stop {
        return StopSignal, attempts;
      }
      if turn.lost {
        return LockWasLost, attempts;
      }
      if maxDuration > 0 && turn.elapsed > maxDuration {
        return TimedOut, attempts;
      }
      if Limited(base, retryMax, maxDuration, turns) && attempts >= retryMax {
        LateTurns(base, retryMax, turns, attempts);
        DivideBound(maxDuration, attempts - retryMax + 1);
      }
      attempts := attempts + 1;
      if turn.ok {
        return Uploaded, attempts;
      }
      if turn.stopInWait {
        return StopSignal, attempts;
      }
    }
  }

  lemma DivideBound(t: int, k: nat)
    requires t >= MAX_DELAY * k
    ensures k <= t / MAX_DELAY
  {
  }

  /** The first attempt whose product leaves the 64-bit range comes out negative. */
  lemma {:induction false} FirstOverflow(base: int, a: nat) returns (k: nat)
    requires 0 < base <= MAX_INT64 && base * Pow2(a) > MAX_INT64
    ensures 1 <= k <= a && ShiftedDelay(base, k) < 0
  {
    assert Pow2(0) == 1;
    if base * Pow2(a - 1) > MAX_INT64 {
      k := FirstOverflow(base, a - 1);
    } else {
      k := a;
      Pow2At63();
      assert base * Pow2(a) == 2 * (base * Pow2(a - 1));
      if a > 63 {
        TimesPow2Monotone(base, 63, a - 1);
        MulMonotone(Pow2(63), 1, base);
        assert false;
      }
      if a == 63 {
        assert base * Pow2(62) <= MAX_INT64;
        assert base == 1;
      }
    }
  }

  /** The waits of the long retry are positive, at most 30 s and never shrink if and only if base * 2^(R-1) fits
      64 bits. */
  lemma LongDelaysOrdered(base: int, retryMax: int)
    requires 0 < base <= MAX_INT64 && retryMax > 0
    ensures
      base * Pow2(retryMax - 1) <= MAX_INT64 <==>
      && (forall a: nat :: a >= 1 ==> 0 < LongDelay(base, retryMax, a) <= MAX_DELAY)
      && (forall a: nat :: a >= 1 ==> LongDelay(base, retryMax, a) <= LongDelay(base, retryMax, a + 1))
  {
    if base * Pow2(retryMax - 1) <= MAX_INT64 {
      forall a: nat | a >= 1
        ensures 0 < LongDelay(base, retryMax, a) <= MAX_DELAY
        ensures LongDelay(base, retryMax, a) <= LongDelay(base, retryMax, a + 1)
      {
        if a < retryMax {
          TimesPow2Monotone(base, a, retryMax - 1);
          ShiftExact(base, a);
          MulMonotone(base, 1, Pow2(a));
          if a + 1 < retryMax {
            TimesPow2Monotone(base, a + 1, retryMax - 1);
            ShiftExact(base, a + 1);
            TimesPow2Monotone(base, a, a + 1);
          }
        }
      }
    } else {
      var k := FirstOverflow(base, retryMax - 1);
      assert LongDelay(base, retryMax, k) < 0;
    }
  }
}
