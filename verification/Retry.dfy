/** `retryableCall`: a remote call repeated, with growing pauses, while its errors say so. */
module Retry {

  /** What one call does: succeed, fail with an error the retry condition matches, or fail otherwise. */
  datatype Answer = Success | Retryable | Fatal

  /** How the loop ends: with the answer of call `i`, or out of attempts, with the count it reports. */
  datatype Ended = Returned(i: nat) | Threw(i: nat) | Exhausted(attempts: int)

  datatype Configuration = Configuration(initial: real, factor: real, limit: real, retriesMax: int)

  const INFINITE := -1

  function Pow(x: real, n: nat): real {
    if n == 0 then 1.0 else x * Pow(x, n - 1)
  }

  function Min(x: real, y: real): (r: real)
    ensures r <= x && r <= y && r in {x, y}
  {
    if x <= y then x else y
  }

  function Delay(c: Configuration, iteration: nat): real {
    Min(c.initial * Pow(c.factor, iteration), c.limit)
  }

  /** The first `n` calls all ask to be retried. */
  ghost predicate AllRetryable(answer: nat -> Answer, n: nat) {
    forall i: nat :: i < n ==> answer(i) == Retryable
  }

  ghost predicate Decides(answer: nat -> Answer, k: nat) {
    AllRetryable(answer, k) && answer(k) != Retryable
  }

  function EndOf(answer: nat -> Answer, k: nat): Ended {
    if answer(k) == Success then Returned(k) else Threw(k)
  }

  /** The attempts a limit allows. */
  function Allowed(c: Configuration): nat {
    if c.retriesMax < 0 then 0 else c.retriesMax + 1
  }

  /** How a run must end: with the decisive call, if there is one within the limit; otherwise after
      every allowed attempt, with a pause behind the last one too. Without a limit the counter never
      advances, so the pause stays what it first was. */
  ghost predicate Ran(c: Configuration, answer: nat -> Answer, end: Ended, calls: nat, delays: seq<real>) {
    && (forall k: nat :: Decides(answer, k) && (c.retriesMax == INFINITE || k <= c.retriesMax) ==>
          end == EndOf(answer, k) && calls == k + 1 && |delays| == k)
    && (c.retriesMax != INFINITE && AllRetryable(answer, Allowed(c)) ==>
          calls == Allowed(c) && end == Exhausted(calls) && |delays| == calls)
    && forall i :: 0 <= i < |delays| ==> delays[i] == Delay(c, if c.retriesMax == INFINITE then 0 else i)
  }

  /** With unlimited retries the loop ends only if some call decides; `bound` is such a call. */
  method RetryableCall(c: Configuration, answer: nat -> Answer, ghost bound: nat)
    returns (end: Ended, calls: nat, delays: seq<real>)
    requires c.retriesMax == INFINITE ==> answer(bound) != Retryable
    ensures Ran(c, answer, end, calls, delays)
  {
    var retries := 0;
    calls, delays := 0, [];
    while c.retriesMax == INFINITE || retries <= c.retriesMax
      invariant AllRetryable(answer, calls)
      invariant retries == if c.retriesMax == INFINITE then 0 else calls
      invariant c.retriesMax == INFINITE ==> calls <= bound
      invariant c.retriesMax != INFINITE ==> calls <= Allowed(c)
      invariant |delays| == calls
      invariant forall i :: 0 <= i < |delays| ==> delays[i] == Delay(c, if c.retriesMax == INFINITE then 0 else i)
      decreases if c.retriesMax == INFINITE then bound - calls else c.retriesMax - retries
    {
      var i := calls;
      calls := calls + 1;
      match answer(i)
      case Success =>
        return Returned(i), calls, delays;
      case Fatal =>
        return Threw(i), calls, delays;
      case Retryable =>
        delays := delays + [Delay(c, retries)];
        if c.retriesMax != INFINITE {
          retries := retries + 1;
        }
    }
    return Exhausted(retries), calls, delays;
  }

  // ---------------------------------------------------------------- the pauses

  function Sum(s: seq<real>): real {
    if s == [] then 0.0 else Sum(s[..|s| - 1]) + s[|s| - 1]
  }

  /** The pauses of a loop that makes `n` failed attempts. */
  ghost predicate Pauses(c: Configuration, delays: seq<real>) {
    forall i :: 0 <= i < |delays| ==> delays[i] == Delay(c, i)
  }

  lemma {:induction false} PowGrows(x: real, i: nat, j: nat)
    requires x >= 1.0 && i <= j
    ensures 1.0 <= Pow(x, i) <= Pow(x, j)
    decreases j
  {
    if j == 0 {
    } else {
      PowGrows(x, if i < j then i else i - 1, j - 1);
      Grows(x, Pow(x, j - 1));
    }
  }

  lemma Grows(x: real, p: real)
    requires x >= 1.0 && p >= 1.0
    ensures x * p >= p
  {
    assert (x - 1.0) * p >= 0.0;
  }

  lemma Scaled(a: real, x: real, y: real)
    requires a >= 0.0 && x <= y
    ensures a * x <= a * y
  {
    assert a * (y - x) >= 0.0;
  }

  /** Pauses never exceed the limit, and never shrink when the factor is at least one. */
  lemma DelaysGrow(c: Configuration, i: nat, j: nat)
    requires i <= j
    ensures Delay(c, j) <= c.limit
    ensures c.initial >= 0.0 && c.factor >= 1.0 ==> Delay(c, i) <= Delay(c, j)
  {
    if c.initial >= 0.0 && c.factor >= 1.0 {
      PowGrows(c.factor, i, j);
      Scaled(c.initial, Pow(c.factor, i), Pow(c.factor, j));
    }
  }

  /** All pauses together stay under one limit per attempt. */
  lemma {:induction false} TotalUnderLimit(c: Configuration, delays: seq<real>)
    requires Pauses(c, delays)
    ensures Sum(delays) <= c.limit * |delays| as real
  {
    if delays == [] {
    } else {
      var n := |delays| - 1;
      TotalUnderLimit(c, delays[..n]);
      assert c.limit * (n as real + 1.0) == c.limit * n as real + c.limit;
    }
  }

  /** initial + initial * factor + ... + initial * factor ^ (n - 1) */
  function Geometric(c: Configuration, n: nat): real {
    if n == 0 then 0.0 else Geometric(c, n - 1) + c.initial * Pow(c.factor, n - 1)
  }

  /** And under the geometric sum. */
  lemma {:induction false} TotalUnderGeometric(c: Configuration, delays: seq<real>)
    requires Pauses(c, delays)
    ensures Sum(delays) <= Geometric(c, |delays|)
  {
    if delays == [] {
    } else {
      TotalUnderGeometric(c, delays[..|delays| - 1]);
    }
  }

  lemma {:induction false} GeometricGrows(c: Configuration, m: nat, n: nat)
    requires c.initial >= 0.0 && c.factor >= 1.0 && m <= n
    ensures Geometric(c, m) <= Geometric(c, n)
  {
    if m >= n {
    } else {
      GeometricGrows(c, m, n - 1);
      PowGrows(c.factor, 0, n - 1);
      Scaled(c.initial, 0.0, Pow(c.factor, n - 1));
    }
  }

  /** The sum in closed form: `(factor - 1) * sum == initial * (factor ^ n - 1)`. */
  lemma {:induction false} GeometricClosed(c: Configuration, n: nat)
    ensures (c.factor - 1.0) * Geometric(c, n) == c.initial * (Pow(c.factor, n) - 1.0)
  {
    if n == 0 {
      Nothing(c.factor - 1.0, c.initial);
    } else {
      GeometricClosed(c, n - 1);
      GeometricStep(c.factor, c.initial, Pow(c.factor, n - 1), Geometric(c, n - 1));
    }
  }

  lemma Nothing(x: real, y: real)
    ensures x * 0.0 == 0.0 == y * (1.0 - 1.0)
  {
  }

  lemma GeometricStep(f: real, a: real, p: real, t: real)
    requires (f - 1.0) * t == a * (p - 1.0)
    ensures (f - 1.0) * (t + a * p) == a * (f * p - 1.0)
  {
    assert (f - 1.0) * (t + a * p) == (f - 1.0) * t + (f - 1.0) * (a * p);
    Expand(f, a, p);
  }

  lemma Expand(f: real, a: real, p: real)
    ensures a * (p - 1.0) + (f - 1.0) * (a * p) == a * (f * p - 1.0)
  {
    assert (f - 1.0) * (a * p) == f * (a * p) - a * p;
    assert f * (a * p) == a * (f * p);
  }

  /** Among the first `n` calls either one decides or all ask to be retried. */
  lemma {:induction false} Finding(answer: nat -> Answer, n: nat)
    ensures AllRetryable(answer, n) || exists k: nat :: k < n && Decides(answer, k)
  {
    if n == 0 {
    } else {
      Finding(answer, n - 1);
      if AllRetryable(answer, n - 1) && answer(n - 1) != Retryable {
        assert Decides(answer, n - 1);
      }
    }
  }

  /** A call under `retriesMax` n >= 0: at most n + 1 attempts, the exact number reported when they
      run out, and capped pauses that do not shrink. */
  lemma RunWithinLimit(c: Configuration, answer: nat -> Answer, end: Ended, calls: nat, delays: seq<real>)
    requires c.retriesMax >= 0 && Ran(c, answer, end, calls, delays)
    ensures 1 <= calls <= c.retriesMax + 1 && calls - 1 <= |delays| <= calls && Pauses(c, delays)
    ensures end.Exhausted? <==> AllRetryable(answer, c.retriesMax + 1)
    ensures end.Exhausted? ==> end.attempts == calls == c.retriesMax + 1
    ensures !end.Exhausted? ==> Decides(answer, calls - 1)
    ensures end.Returned? ==> end.i == calls - 1 && answer(calls - 1) == Success
    ensures end.Threw? ==> end.i == calls - 1 && answer(calls - 1) == Fatal
  {
    Finding(answer, c.retriesMax + 1);
  }

  lemma Reordered(a: real, f: real, p: real)
    ensures a * (f * p) == f * (a * p)
  {
  }

  lemma NextDelay(c: Configuration, i: nat)
    requires Delay(c, i) < c.limit
    ensures Delay(c, i + 1) == Min(c.factor * Delay(c, i), c.limit)
  {
    Reordered(c.initial, c.factor, Pow(c.factor, i));
  }

  lemma FirstDelay(c: Configuration)
    ensures Delay(c, 0) == Min(c.initial, c.limit)
  {
    assert Pow(c.factor, 0) == 1.0;
  }

  lemma DelaysAre(c: Configuration, answer: nat -> Answer, end: Ended, calls: nat, delays: seq<real>)
    requires c.retriesMax >= 0 && Ran(c, answer, end, calls, delays)
    ensures Pauses(c, delays)
  {
  }

  /** Pauses back off: the first is the initial one and each of the others is the factor times the one
      before, until the limit is reached. */
  lemma PausesBackOff(c: Configuration, answer: nat -> Answer, end: Ended, calls: nat, delays: seq<real>, i: nat)
    requires c.retriesMax >= 0 && Ran(c, answer, end, calls, delays) && i < |delays|
    ensures i == 0 ==> delays[i] == Min(c.initial, c.limit)
    ensures i > 0 && delays[i - 1] < c.limit ==> delays[i] == Min(c.factor * delays[i - 1], c.limit)
  {
    DelaysAre(c, answer, end, calls, delays);
    if i == 0 {
      FirstDelay(c);
    } else if delays[i - 1] < c.limit {
      NextDelay(c, i - 1);
    }
  }

  /** Pause i is `initial * factor ^ i` until the limit is reached. */
  lemma PauseIs(c: Configuration, answer: nat -> Answer, end: Ended, calls: nat, delays: seq<real>, i: nat)
    requires c.retriesMax >= 0 && Ran(c, answer, end, calls, delays) && i < |delays|
    ensures delays[i] < c.limit ==> delays[i] == c.initial * Pow(c.factor, i)
    ensures c.initial * Pow(c.factor, i) <= c.limit ==> delays[i] == c.initial * Pow(c.factor, i)
  {
    DelaysAre(c, answer, end, calls, delays);
  }

  lemma PausesBounded(c: Configuration, answer: nat -> Answer, end: Ended, calls: nat, delays: seq<real>,
                      i: nat, j: nat)
    requires c.retriesMax >= 0 && Ran(c, answer, end, calls, delays) && i <= j < |delays|
    ensures delays[j] <= c.limit && (c.initial >= 0.0 && c.factor >= 1.0 ==> delays[i] <= delays[j])
  {
    DelaysGrow(c, i, j);
  }

  lemma Capped(total: real, limit: real, m: real, n: real)
    requires total <= limit * m && limit >= 0.0 && m <= n
    ensures total <= limit * n
  {
    Scaled(limit, m, n);
  }

  lemma UnderLimits(c: Configuration, delays: seq<real>, n: nat)
    requires c.limit >= 0.0 && Pauses(c, delays) && |delays| <= n
    ensures Sum(delays) <= c.limit * n as real
  {
    TotalUnderLimit(c, delays);
    Capped(Sum(delays), c.limit, |delays| as real, n as real);
  }

  lemma TotalPauseUnderLimit(c: Configuration, answer: nat -> Answer, end: Ended, calls: nat, delays: seq<real>)
    requires c.retriesMax >= 0 && c.limit >= 0.0 && Ran(c, answer, end, calls, delays)
    ensures Sum(delays) <= c.limit * (c.retriesMax + 1) as real
  {
    RunWithinLimit(c, answer, end, calls, delays);
    UnderLimits(c, delays, c.retriesMax + 1);
  }

  lemma TotalPauseUnderGeometric(c: Configuration, answer: nat -> Answer, end: Ended, calls: nat, delays: seq<real>)
    requires c.retriesMax >= 0 && c.initial >= 0.0 && c.factor >= 1.0 && Ran(c, answer, end, calls, delays)
    ensures Sum(delays) <= Geometric(c, c.retriesMax + 1)
  {
    RunWithinLimit(c, answer, end, calls, delays);
    TotalUnderGeometric(c, delays);
    GeometricGrows(c, |delays|, c.retriesMax + 1);
  }

  /** Unlimited retries: the call with the first decisive answer is the last, and all pauses are
      equal. */
  lemma UnlimitedRun(c: Configuration, answer: nat -> Answer, end: Ended, calls: nat, delays: seq<real>, k: nat)
    requires c.retriesMax == INFINITE && answer(k) != Retryable && Ran(c, answer, end, calls, delays)
    ensures 1 <= calls <= k + 1 && |delays| == calls - 1 && Decides(answer, calls - 1)
    ensures end == if answer(calls - 1) == Success then Returned(calls - 1) else Threw(calls - 1)
    ensures forall i :: 0 <= i < |delays| ==> delays[i] == Min(c.initial, c.limit)
  {
    Finding(answer, k + 1);
  }

  /** A limit below minus one makes no call at all, and says so. */
  lemma NoCalls(c: Configuration, answer: nat -> Answer, end: Ended, calls: nat, delays: seq<real>)
    requires c.retriesMax < INFINITE && Ran(c, answer, end, calls, delays)
    ensures calls == 0 && end == Exhausted(0) && delays == []
  {
    assert AllRetryable(answer, 0);
  }
}
