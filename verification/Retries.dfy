/** Backoff and retry loop of go/vedadb/retry.go in 64-bit arithmetic. */
module Retries {
  import opened Wrappers

  // ---------- 64-bit arithmetic ----------

  const TWO_63: int := 0x8000_0000_0000_0000
  const TWO_64: int := 0x1_0000_0000_0000_0000

  function Wrap64(x: int): (r: int)
    ensures -TWO_63 <= r < TWO_63
  {
    var m := x % TWO_64;
    if m < TWO_63 then m else m - TWO_64
  }

  function Pow2(n: nat): (r: nat)
    ensures r > 0
  {
    if n == 0 then 1 else 2 * Pow2(n - 1)
  }

  lemma {:induction false} Pow2Sum(a: nat, b: nat)
    ensures Pow2(a + b) == Pow2(a) * Pow2(b)
  {
    if a > 0 {
      Pow2Sum(a - 1, b);
      assert Pow2(a + b) == 2 * (Pow2(a - 1) * Pow2(b));
    }
  }

  lemma Pow2Of64()
    ensures Pow2(64) == TWO_64 && Pow2(63) == TWO_63
  {
    assert Pow2(8) == 256;
    Pow2Sum(8, 8);
    Pow2Sum(16, 16);
    Pow2Sum(32, 32);
    assert Pow2(64) == 2 * Pow2(63);
  }

  /** `1 << n` in 64 bits. */
  function Shifted(n: nat): int { if n >= 64 then 0 else Wrap64(Pow2(n)) }

  lemma WrapIs(x: int, y: int, q: int)
    requires x == y + q * TWO_64 && -TWO_63 <= y < TWO_63
    ensures Wrap64(x) == y
  {
    var m := x % TWO_64;
    var t := x / TWO_64;
    assert x == t * TWO_64 + m;
    assert (q - t) * TWO_64 == m - y;
  }

  lemma WrapDiffers(x: int) returns (q: int)
    ensures Wrap64(x) == x + q * TWO_64
  {
    var t := x / TWO_64;
    assert x == t * TWO_64 + x % TWO_64;
    q := if x % TWO_64 < TWO_63 then -t else -t - 1;
  }

  lemma WrapProduct(x: int, y: int)
    ensures Wrap64(x * Wrap64(y)) == Wrap64(x * y)
  {
    var q := WrapDiffers(y);
    var r := WrapDiffers(x * y);
    assert x * Wrap64(y) == x * y + x * q * TWO_64;
    assert x * y == Wrap64(x * y) - r * TWO_64;
    assert x * Wrap64(y) == Wrap64(x * y) + (x * q - r) * TWO_64;
    WrapIs(x * Wrap64(y), Wrap64(x * y), x * q - r);
  }

  lemma ShiftedProduct(x: int, n: nat)
    ensures Wrap64(x * Shifted(n)) == Wrap64(x * Pow2(n))
  {
    if n < 64 {
      WrapProduct(x, Pow2(n));
    } else {
      WrapMultiple(x, n);
    }
  }

  lemma WrapMultiple(x: int, n: nat)
    requires n >= 64
    ensures Wrap64(x * Pow2(n)) == 0
  {
    Pow2Of64();
    Pow2Sum(64, n - 64);
    var q := x * Pow2(n - 64);
    assert x * Pow2(n) == q * TWO_64;
    WrapIs(x * Pow2(n), 0, q);
  }

  // ---------- delays ----------

  datatype ErrorKind = ConnectionError | RateLimitError | OtherError

  /** Errors are compared by identity. */
  datatype Error = Error(kind: ErrorKind, id: int)

  datatype RetryPolicy = RetryPolicy(
    maxRetries: int, baseDelay: int, maxDelay: int, jitter: bool, retryableErrors: seq<Error>)

  const MILLISECOND: int := 1_000_000
  const SECOND: int := 1000 * MILLISECOND
  const DEFAULT := RetryPolicy(3, 250 * MILLISECOND, 30 * SECOND, true, [])
  const AGGRESSIVE := RetryPolicy(5, 100 * MILLISECOND, 5 * SECOND, true, [])
  const CONSERVATIVE := RetryPolicy(10, 1 * SECOND, 60 * SECOND, true, [])

  function Min(x: int, y: int): int { if x <= y then x else y }

  function Product(p: RetryPolicy, attempt: nat): int { Wrap64(p.baseDelay * Shifted(attempt)) }

  /** The delay before jitter. */
  function Delay(p: RetryPolicy, attempt: nat): int {
    var d := Product(p, attempt);
    if d > p.maxDelay || d <= 0 then p.maxDelay else d
  }

  /** Division as in Go, towards zero. */
  function Half(d: int): int { if d >= 0 then d / 2 else -(-d / 2) }

  /** `draw` stands for the random number; drawing from an empty range panics. */
  function ComputeDelay(p: RetryPolicy, attempt: nat, draw: nat): Option<int> {
    var d := Delay(p, attempt);
    if !p.jitter then Some(d)
    else if Half(d) + 1 <= 0 then None
    else Some(Half(d) + draw % (Half(d) + 1))
  }

  /** The policy's delays are positive 64-bit numbers. */
  predicate Positive(p: RetryPolicy) { 0 < p.baseDelay < TWO_63 && 0 < p.maxDelay < TWO_63 }

  predicate Exact(p: RetryPolicy, attempt: nat) {
    Delay(p, attempt) == Min(p.baseDelay * Pow2(attempt), p.maxDelay)
  }

  /** The product overflowed into a number that passes for a delay. */
  predicate PassesForDelay(p: RetryPolicy, attempt: nat) {
    p.baseDelay * Pow2(attempt) >= TWO_63 && 0 < Product(p, attempt) < p.maxDelay
  }

  lemma ExactIff(p: RetryPolicy, attempt: nat)
    requires Positive(p)
    ensures Exact(p, attempt) <==> !PassesForDelay(p, attempt)
  {
    var x := p.baseDelay * Pow2(attempt);
    ShiftedProduct(p.baseDelay, attempt);
    assert x > 0;
    if x < TWO_63 {
      WrapIs(x, x, 0);
    }
  }

  /** Only the first 64 attempts can go wrong. */
  lemma AlwaysExactIff(p: RetryPolicy)
    requires Positive(p)
    ensures (forall attempt: nat :: Exact(p, attempt)) <==> forall attempt: nat :: attempt < 64 ==> !PassesForDelay(p, attempt)
  {
    forall attempt: nat ensures Exact(p, attempt) <==> !PassesForDelay(p, attempt) {
      ExactIff(p, attempt);
    }
    forall attempt: nat | attempt >= 64 ensures !PassesForDelay(p, attempt) {
      ShiftedProduct(p.baseDelay, attempt);
      WrapMultiple(p.baseDelay, attempt);
    }
  }

  /** Without a positive base or a positive maximum, and from attempt 64 on, the delay is the maximum. */
  lemma DelayIsMaximum(p: RetryPolicy, attempt: nat)
    requires p.baseDelay == 0 || p.maxDelay <= 0 || attempt >= 64
    ensures Delay(p, attempt) == p.maxDelay
  {
    ShiftedProduct(p.baseDelay, attempt);
    if attempt >= 64 {
      WrapMultiple(p.baseDelay, attempt);
    } else if p.baseDelay == 0 {
      WrapIs(0, 0, 0);
    }
  }

  lemma MulMono(x: int, y: int, z: int)
    requires z >= 0 && x <= y
    ensures z * x <= z * y && x * z <= y * z
  {
  }

  lemma MultipleIsAtLeast(m: int, unit: int)
    requires unit > 0 && m * unit > 0
    ensures m * unit >= unit
  {
    if m <= 0 {
      MulMono(m, 0, unit);
    } else {
      MulMono(1, m, unit);
    }
  }

  lemma Collect(rest: int, unit: int, q: int, others: int)
    ensures rest * unit + q * (unit * others) == (rest + q * others) * unit
  {
    assert q * (unit * others) == (q * others) * unit;
  }

  /** What is left of a multiple of 2^j is one, so it is at least 2^j if it is positive. */
  lemma WrappedIsMultiple(rest: int, j: nat)
    requires j < 64
    ensures Wrap64(rest * Pow2(j)) > 0 ==> Wrap64(rest * Pow2(j)) >= Pow2(j)
  {
    var q := WrapDiffers(rest * Pow2(j));
    Pow2Sum(j, 64 - j);
    Pow2Of64();
    Collect(rest, Pow2(j), q, Pow2(64 - j));
    var m := rest + q * Pow2(64 - j);
    assert Wrap64(rest * Pow2(j)) == m * Pow2(j);
    if m * Pow2(j) > 0 {
      MultipleIsAtLeast(m, Pow2(j));
    }
  }

  lemma TooLong(rest: int, unit: int, max: int)
    requires rest * max < TWO_63 <= rest * unit && rest >= 0
    ensures unit > max
  {
    if unit <= max {
      MulMono(unit, max, rest);
    }
  }

  lemma Reassociate(rest: int, x: int, y: int)
    ensures (rest * x) * y == rest * (x * y)
  {
  }

  lemma RestPositive(rest: int, unit: int)
    requires rest * unit > 0 && unit > 0
    ensures rest > 0
  {
    if rest <= 0 {
      MulMono(rest, 0, unit);
    }
  }

  lemma NothingPassesForDelay(p: RetryPolicy, k: nat, rest: int, attempt: nat)
    requires Positive(p) && p.baseDelay == rest * Pow2(k) && rest * p.maxDelay < TWO_63
    ensures !PassesForDelay(p, attempt)
  {
    var j := k + attempt;
    ShiftedProduct(p.baseDelay, attempt);
    Pow2Sum(k, attempt);
    Reassociate(rest, Pow2(k), Pow2(attempt));
    RestPositive(rest, Pow2(k));
    if j >= 64 {
      WrapMultiple(rest, j);
    } else if rest * Pow2(j) >= TWO_63 {
      WrappedIsMultiple(rest, j);
      TooLong(rest, Pow2(j), p.maxDelay);
    }
  }

  /** No overflow passes for a delay when Base, without its factor 2^k, times Max stays below 2^63. */
  lemma BackoffExact(p: RetryPolicy, k: nat, rest: int, attempt: nat)
    requires Positive(p) && p.baseDelay == rest * Pow2(k) && rest * p.maxDelay < TWO_63
    ensures Exact(p, attempt)
  {
    NothingPassesForDelay(p, k, rest, attempt);
    ExactIff(p, attempt);
  }

  lemma ProductGrows(x: int, n: nat)
    requires x > 0
    ensures x * Pow2(n + 1) >= x * Pow2(n)
  {
    MulMono(Pow2(n), Pow2(n + 1), x);
  }

  /** The delay before jitter never shrinks from one attempt to the next. */
  lemma BackoffGrows(p: RetryPolicy, k: nat, rest: int, attempt: nat)
    requires Positive(p) && p.baseDelay == rest * Pow2(k) && rest * p.maxDelay < TWO_63
    ensures Delay(p, attempt) <= Delay(p, attempt + 1) <= p.maxDelay
  {
    BackoffExact(p, k, rest, attempt);
    BackoffExact(p, k, rest, attempt + 1);
    ProductGrows(p.baseDelay, attempt);
  }

  /** The three ready-made policies. The conservative one needs the factor 2^9 of a second. */
  lemma PoliciesExact(attempt: nat)
    ensures Exact(DEFAULT, attempt) && Exact(AGGRESSIVE, attempt) && Exact(CONSERVATIVE, attempt)
  {
    BackoffExact(DEFAULT, 0, DEFAULT.baseDelay, attempt);
    BackoffExact(AGGRESSIVE, 0, AGGRESSIVE.baseDelay, attempt);
    assert Pow2(9) == 512;
    BackoffExact(CONSERVATIVE, 9, 1_953_125, attempt);
  }

  /** With a base of 2^62 + 1 the third attempt waits 4 nanoseconds instead of the maximum. */
  lemma OverflowPassesForDelay()
    ensures var base := 0x4000_0000_0000_0001;
            var p := RetryPolicy(3, base, base, false, []);
            Delay(p, 2) == 4 && Delay(p, 1) == base && !Exact(p, 2)
  {
    var base := 0x4000_0000_0000_0001;
    assert Pow2(2) == 4 && Pow2(1) == 2;
    WrapIs(base * 4, 4, 1);
    WrapIs(base * 2, base * 2 - TWO_64, 1);
  }

  /** A jittered delay lies between half the delay and the delay; only a policy with a negative maximum
      panics. */
  lemma JitterStaysWithin(p: RetryPolicy, attempt: nat, draw: nat)
    requires p.jitter
    ensures ComputeDelay(p, attempt, draw).None? <==> Delay(p, attempt) <= -2
    ensures Delay(p, attempt) >= 0 && ComputeDelay(p, attempt, draw).Some? ==>
              Delay(p, attempt) / 2 <= ComputeDelay(p, attempt, draw).value <= Delay(p, attempt)
  {
  }

  /** Every value in the upper half can be drawn. */
  lemma JitterReachesAll(p: RetryPolicy, attempt: nat, d: int)
    requires p.jitter && Delay(p, attempt) >= 0
    requires Delay(p, attempt) / 2 <= d <= 2 * (Delay(p, attempt) / 2)
    ensures ComputeDelay(p, attempt, d - Delay(p, attempt) / 2) == Some(d)
  {
    var half := Delay(p, attempt) / 2;
    SmallModulo(d - half, half + 1);
  }

  lemma SmallModulo(x: int, n: int)
    requires 0 <= x < n
    ensures x % n == x
  {
  }

  // ---------- the loop ----------

  /** The policy's list, or every error when there is none; connection and rate-limit errors always. */
  predicate IsRetryable(p: RetryPolicy, e: Error) {
    e.kind.ConnectionError? || e.kind.RateLimitError? || e in p.retryableErrors || p.retryableErrors == []
  }

  /** What happens around the loop: the outcome of the n-th call, whether the context is cancelled before it
      or while waiting after it, and the random number drawn for the wait. */
  datatype World = World(
    call: nat -> Option<Error>, cancelledBefore: nat -> bool, cancelledDuring: nat -> bool, draw: nat -> nat)

  datatype Outcome = Succeeded | Failed(error: Error) | Cancelled | Panicked

  datatype Trace = Trace(calls: nat, delays: seq<int>, outcome: Outcome)

  /** Attempt `i` failed and another one may follow. */
  predicate Waits(p: RetryPolicy, w: World, i: nat) {
    i < p.maxRetries && w.call(i).Some? && IsRetryable(p, w.call(i).value)
  }

  /** Attempt `i` failed, was waited for, and the loop goes on. */
  predicate Passes(p: RetryPolicy, w: World, i: nat) {
    !w.cancelledBefore(i) && Waits(p, w, i) && ComputeDelay(p, i, w.draw(i)).Some? && !w.cancelledDuring(i)
  }

  predicate AllPass(p: RetryPolicy, w: World, n: nat) { forall i :: 0 <= i < n ==> Passes(p, w, i) }

  function DelayAfter(p: RetryPolicy, w: World, i: nat): (d: int)
    requires Passes(p, w, i)
    ensures ComputeDelay(p, i, w.draw(i)) == Some(d)
  {
    ComputeDelay(p, i, w.draw(i)).value
  }

  function DelayList(p: RetryPolicy, w: World, n: nat): (r: seq<int>)
    requires AllPass(p, w, n)
    ensures |r| == n && forall i :: 0 <= i < n ==> ComputeDelay(p, i, w.draw(i)) == Some(r[i])
  {
    seq(n, i requires 0 <= i < n => DelayAfter(p, w, i))
  }

  /** How the loop ends in round `n`, after all rounds before it passed. */
  predicate EndsAt(p: RetryPolicy, w: World, n: nat, t: Trace)
    requires AllPass(p, w, n)
  {
    var before := DelayList(p, w, n);
    if p.maxRetries < 0 then t == Trace(0, [], Succeeded)
    else if w.cancelledBefore(n) then t == Trace(n, before, Cancelled)
    else if w.call(n).None? then t == Trace(n + 1, before, Succeeded)
    else if !Waits(p, w, n) then t == Trace(n + 1, before, Failed(w.call(n).value))
    else
      var d := ComputeDelay(p, n, w.draw(n));
      if d.None? then t == Trace(n + 1, before, Panicked)
      else w.cancelledDuring(n) && t == Trace(n + 1, before + [d.value], Cancelled)
  }

  ghost predicate IsRun(p: RetryPolicy, w: World, t: Trace) {
    exists n: nat :: AllPass(p, w, n) && EndsAt(p, w, n, t)
  }

  /** `Execute`: the loop of attempts and waits. */
  method Execute(p: RetryPolicy, w: World) returns (t: Trace)
    ensures IsRun(p, w, t)
  {
    var attempt := 0;
    var calls, delays: seq<int>, lastErr: Option<Error> := 0, [], None;
    while attempt <= p.maxRetries
      invariant attempt > 0 ==> attempt <= p.maxRetries
      invariant calls == attempt && (lastErr.None? <==> attempt == 0)
      invariant AllPass(p, w, attempt) && delays == DelayList(p, w, attempt)
      decreases p.maxRetries - attempt
    {
      ghost var start := delays;
      if w.cancelledBefore(attempt) {
        t := Trace(calls, delays, Cancelled);
        assert EndsAt(p, w, attempt, t);
        return;
      }
      var err := w.call(attempt);
      calls := calls + 1;
      if err.Some? {
        lastErr := err;
        if attempt == p.maxRetries {
          break;
        }
        if !IsRetryable(p, err.value) {
          t := Trace(calls, delays, Failed(err.value));
          assert EndsAt(p, w, attempt, t);
          return;
        }
        var delay := ComputeDelay(p, attempt, w.draw(attempt));
        if delay.None? {
          t := Trace(calls, delays, Panicked);
          assert EndsAt(p, w, attempt, t);
          return;
        }
        delays := delays + [delay.value];
        if w.cancelledDuring(attempt) {
          t := Trace(calls, delays, Cancelled);
          assert EndsAt(p, w, attempt, t);
          return;
        }
        assert Passes(p, w, attempt);
        attempt := attempt + 1;
        continue;
      }
      t := Trace(calls, delays, Succeeded);
      assert EndsAt(p, w, attempt, t);
      return;
    }
    t := Trace(calls, delays, match lastErr case Some(e) => Failed(e) case None => Succeeded);
    assert EndsAt(p, w, attempt, t);
  }

  lemma EndDoesNotPass(p: RetryPolicy, w: World, n: nat, t: Trace)
    requires AllPass(p, w, n) && EndsAt(p, w, n, t)
    ensures !Passes(p, w, n)
  {
  }

  lemma EndsOnce(p: RetryPolicy, w: World, m: nat, t: Trace, n: nat, u: Trace)
    requires AllPass(p, w, m) && EndsAt(p, w, m, t) && AllPass(p, w, n) && EndsAt(p, w, n, u)
    ensures m == n
  {
    EndDoesNotPass(p, w, m, t);
    EndDoesNotPass(p, w, n, u);
    assert m < n ==> Passes(p, w, m);
    assert n < m ==> Passes(p, w, n);
  }

  /** What happens around the loop fixes what it does. */
  lemma RunsAgree(p: RetryPolicy, w: World, t: Trace, u: Trace)
    requires IsRun(p, w, t) && IsRun(p, w, u)
    ensures t == u
  {
    var m: nat :| AllPass(p, w, m) && EndsAt(p, w, m, t);
    var n: nat :| AllPass(p, w, n) && EndsAt(p, w, n, u);
    EndsOnce(p, w, m, t, n, u);
  }

  /** The rounds that passed are within MaxRetries. */
  lemma RoundsBounded(p: RetryPolicy, w: World, n: nat)
    requires AllPass(p, w, n)
    ensures n == 0 || n <= p.maxRetries
  {
    assert n > 0 ==> Passes(p, w, n - 1);
  }

  /** `fn` is called at most MaxRetries + 1 times, and every call but the last failed with a retryable error. */
  lemma CallsBounded(p: RetryPolicy, w: World, t: Trace)
    requires IsRun(p, w, t)
    ensures t.calls == 0 || t.calls <= p.maxRetries + 1
    ensures |t.delays| == 0 || |t.delays| <= p.maxRetries
    ensures forall i :: 0 <= i < t.calls - 1 ==> w.call(i).Some?
    ensures forall i :: 0 <= i < t.calls - 1 ==>
              var e := w.call(i).value; e.kind != OtherError || e in p.retryableErrors || p.retryableErrors == []
  {
    var n: nat :| AllPass(p, w, n) && EndsAt(p, w, n, t);
    RoundsBounded(p, w, n);
    forall i | 0 <= i < t.calls - 1
      ensures w.call(i).Some?
      ensures var e := w.call(i).value; e.kind != OtherError || e in p.retryableErrors || p.retryableErrors == []
    {
      assert Passes(p, w, i);
    }
  }

  lemma EndSucceeds(p: RetryPolicy, w: World, n: nat, t: Trace)
    requires AllPass(p, w, n) && EndsAt(p, w, n, t) && p.maxRetries >= 0
    ensures t.outcome.Succeeded? ==> t.calls == n + 1 && w.call(n).None?
    ensures t.calls == n + 1 && w.call(n).None? ==> t.outcome.Succeeded?
    ensures t.calls == n ==> t.outcome.Cancelled?
    ensures t.calls == n || t.calls == n + 1
  {
  }

  /** nil is returned exactly when the last call succeeded; with a negative MaxRetries it is returned although
      nothing was called. */
  lemma SucceededIff(p: RetryPolicy, w: World, t: Trace)
    requires IsRun(p, w, t)
    ensures t.outcome.Succeeded? <==> p.maxRetries < 0 || (t.calls > 0 && w.call(t.calls - 1).None?)
    ensures p.maxRetries < 0 ==> t.calls == 0
  {
    var n: nat :| AllPass(p, w, n) && EndsAt(p, w, n, t);
    if p.maxRetries >= 0 {
      EndSucceeds(p, w, n, t);
      assert n > 0 ==> Passes(p, w, n - 1);
    }
  }

  /** An error is returned for one of two reasons: it was the last attempt, or it is not retryable. */
  lemma FailedIs(p: RetryPolicy, w: World, t: Trace)
    requires IsRun(p, w, t) && t.outcome.Failed?
    ensures t.calls > 0 && w.call(t.calls - 1) == Some(t.outcome.error)
    ensures
      var e := t.outcome.error;
      t.calls == p.maxRetries + 1 || (e.kind == OtherError && e !in p.retryableErrors && p.retryableErrors != [])
  {
    var n: nat :| AllPass(p, w, n) && EndsAt(p, w, n, t);
    RoundsBounded(p, w, n);
  }

  /** What a delay is, and that it is waited for after a call that failed with an error worth a retry. */
  predicate DelayIs(p: RetryPolicy, w: World, i: nat, d: int) {
    var before := Delay(p, i);
    && i < p.maxRetries && w.call(i).Some?
    && (var e := w.call(i).value; e.kind != OtherError || e in p.retryableErrors || p.retryableErrors == [])
    && (!p.jitter ==> d == before)
    && (p.jitter && before >= 0 ==> d == before / 2 + w.draw(i) % (before / 2 + 1))
  }

  lemma WaitsFor(p: RetryPolicy, w: World, i: nat)
    requires Waits(p, w, i)
    ensures
      var d := ComputeDelay(p, i, w.draw(i));
      if d.Some? then DelayIs(p, w, i, d.value) else p.jitter && Delay(p, i) <= -2
  {
    hide Delay;
  }

  /** The whole of a run, in terms of what happens around it: which calls fail with what, when the context is cancelled,
      and how long the waits are. Each ending has its reason, and before it none of them applied. */
  lemma RunIs(p: RetryPolicy, w: World, t: Trace)
    requires IsRun(p, w, t) && p.maxRetries >= 0
    ensures forall i :: 0 <= i < t.calls ==> !w.cancelledBefore(i)
    ensures forall i :: 0 <= i < t.calls - 1 ==> !w.cancelledDuring(i)
    ensures t.calls - 1 <= |t.delays| <= t.calls && forall i :: 0 <= i < |t.delays| ==> DelayIs(p, w, i, t.delays[i])
    ensures
      var last := t.calls - 1;
      match t.outcome
      case Succeeded => last >= 0 && |t.delays| == last && w.call(last) == None
      case Failed(e) =>
        && last >= 0 && |t.delays| == last && w.call(last) == Some(e)
        && (last == p.maxRetries || (e.kind == OtherError && e !in p.retryableErrors && p.retryableErrors != []))
      case Cancelled =>
        && |t.delays| == t.calls
        && ((last >= 0 && w.cancelledDuring(last)) || (w.cancelledBefore(t.calls) && t.calls <= p.maxRetries))
      case Panicked => last >= 0 && |t.delays| == last && p.jitter && Delay(p, last) <= -2
  {
    var n: nat :| AllPass(p, w, n) && EndsAt(p, w, n, t);
    RoundsBounded(p, w, n);
    hide ComputeDelay, Delay, DelayIs;
    forall i | 0 <= i < n
      ensures !w.cancelledBefore(i) && !w.cancelledDuring(i) && DelayIs(p, w, i, DelayList(p, w, n)[i])
    {
      assert Passes(p, w, i);
      WaitsFor(p, w, i);
    }
    if Waits(p, w, n) {
      WaitsFor(p, w, n);
    }
  }

  function Sum(xs: seq<int>): int { if xs == [] then 0 else Sum(xs[..|xs| - 1]) + xs[|xs| - 1] }

  predicate Within(xs: seq<int>, bound: int) { forall i :: 0 <= i < |xs| ==> 0 <= xs[i] <= bound }

  lemma {:induction false} SumBounded(xs: seq<int>, bound: int)
    requires Within(xs, bound)
    ensures 0 <= Sum(xs) <= |xs| * bound
    decreases |xs|
  {
    if xs != [] {
      var n := |xs| - 1;
      SumBounded(xs[..n], bound);
      assert |xs| * bound == n * bound + bound;
    }
  }

  lemma DelayBounded(p: RetryPolicy, attempt: nat, draw: nat)
    requires Positive(p)
    ensures ComputeDelay(p, attempt, draw).Some? && 0 <= ComputeDelay(p, attempt, draw).value <= p.maxDelay
  {
    JitterStaysWithin(p.(jitter := true), attempt, draw);
  }

  lemma DelayListBounded(p: RetryPolicy, w: World, n: nat)
    requires AllPass(p, w, n) && Positive(p)
    ensures Within(DelayList(p, w, n), p.maxDelay)
  {
    forall i | 0 <= i < n ensures 0 <= DelayList(p, w, n)[i] <= p.maxDelay {
      DelayBounded(p, i, w.draw(i));
    }
  }

  lemma EndDelays(p: RetryPolicy, w: World, n: nat, t: Trace)
    requires AllPass(p, w, n) && EndsAt(p, w, n, t) && p.maxRetries >= 0
    ensures t.delays == DelayList(p, w, n) ||
            (n < p.maxRetries && ComputeDelay(p, n, w.draw(n)).Some?
             && t.delays == DelayList(p, w, n) + [ComputeDelay(p, n, w.draw(n)).value])
  {
  }

  /** All the waiting of one call of Execute takes at most MaxRetries times MaxDelay. */
  lemma SleepBounded(p: RetryPolicy, w: World, t: Trace)
    requires IsRun(p, w, t) && Positive(p) && p.maxRetries >= 0
    ensures 0 <= Sum(t.delays) <= p.maxRetries * p.maxDelay
  {
    var n: nat :| AllPass(p, w, n) && EndsAt(p, w, n, t);
    RoundsBounded(p, w, n);
    EndDelays(p, w, n, t);
    DelayListBounded(p, w, n);
    DelayBounded(p, n, w.draw(n));
    SumBounded(t.delays, p.maxDelay);
    MulMono(|t.delays|, p.maxRetries, p.maxDelay);
  }
}
