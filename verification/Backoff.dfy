/**
 What a failed send becomes: the default policy of a broadcast, and the errors
 it reads. An error's predicates (`retryable`, `mayResend`, `maintenance`) are
 free here: whatever the client's definitions of them answer.
 */
module Backoffs {
  import opened Basics

  datatype Kind =
    | Authentication | Permission | AccountRestricted | ClassificationLimitReached | Payment
    | SpamRateLimited | Registration | MarketingNotAllowed
    | TemplateNotFound | TemplatePaused | TemplateDisabled | TemplateParameterMismatch
    | PairRateLimited | RateLimited | Other(code: int)

  datatype Error = Error(id: int, kind: Kind, retryable: bool, mayResend: bool, maintenance: bool)

  datatype Verdict = Fail | RetryAfter(delay: nat) | Stop

  const STOPS: set<Kind> := {
    Authentication, Permission, AccountRestricted, ClassificationLimitReached, Payment,
    SpamRateLimited, Registration, MarketingNotAllowed }
  const CONTENT_STOPS: set<Kind> := {
    TemplateNotFound, TemplatePaused, TemplateDisabled, TemplateParameterMismatch }
  const MAINTENANCE_RETRY: nat := 20 * NANOS_PER_SECOND

  datatype Backoff = Backoff(maxAttempts: nat, baseDelay: nat, maxDelay: nat, stops: set<Kind>, contentStops: set<Kind>)

  /** The wait before a retry, before the policy's longest one cuts it. */
  function Delay(p: Backoff, e: Error, failures: nat): nat {
    var exponent := if failures == 0 then 0 else failures - 1;
    if e.kind == PairRateLimited then Min(Power(4, exponent), U64_MAX) * NANOS_PER_SECOND
    else if e.maintenance then MAINTENANCE_RETRY
    else p.baseDelay * Min(Power(2, exponent), U32_MAX)
  }

  /** The policy a broadcast has unless it is given one. */
  const DEFAULT: Backoff := Backoff(5, NANOS_PER_SECOND, 64 * NANOS_PER_SECOND, STOPS, CONTENT_STOPS)

  /** Kinds that end the whole run, not just the sends to one recipient. */
  predicate StopsRun(p: Backoff, e: Error, shared: bool) {
    e.kind in p.stops || (shared && e.kind in p.contentStops)
  }

  /** The policy's verdict on a recipient's `failures`-th failure; `shared` says
      that the others would get the very message that failed. */
  function OnFailure(p: Backoff, e: Error, failures: nat, shared: bool): Verdict {
    if StopsRun(p, e, shared) then Stop
    else if failures >= p.maxAttempts || !e.retryable then Fail
    else RetryAfter(Min(Delay(p, e, failures), p.maxDelay))
  }

  /** The three verdicts, each exactly when it should be: kinds the policy stops on
      end the run, and a failure that is one of those, not retryable or the last
      allowed is never retried; a retry waits as long as its delay, unless the
      longest one is shorter. */
  lemma RetriedExactly(p: Backoff, e: Error, failures: nat, shared: bool)
    ensures var v := OnFailure(p, e, failures, shared);
            && (v.Stop? <==> e.kind in p.stops || (shared && e.kind in p.contentStops))
            && (v.RetryAfter? <==> !v.Stop? && failures < p.maxAttempts && e.retryable)
            && (v.RetryAfter? ==>
                  && v.delay <= p.maxDelay && v.delay <= Delay(p, e, failures)
                  && (v.delay == p.maxDelay || v.delay == Delay(p, e, failures)))
  {
  }

  // ─── One recipient's failures, one after the other ──────────────────────

  /** Every one of the failures met so far was to be retried. */
  ghost predicate AllRetried(p: Backoff, es: seq<Error>, shared: bool) {
    forall k :: 0 <= k < |es| ==> OnFailure(p, es[k], k + 1, shared).RetryAfter?
  }

  /** The waits promised on the failures, added up. */
  function Waited(p: Backoff, es: seq<Error>, shared: bool): nat {
    if es == [] then 0 else
      var v := OnFailure(p, es[|es| - 1], |es|, shared);
      Waited(p, es[..|es| - 1], shared) + if v.RetryAfter? then v.delay else 0
  }

  /** A recipient is retried for as long as its failures are fewer than the most
      attempts, each of them retryable and of a kind that stops nothing. */
  lemma RetriedThroughout(p: Backoff, es: seq<Error>, shared: bool)
    ensures AllRetried(p, es, shared) <==>
            && (es != [] ==> |es| < p.maxAttempts)
            && forall k :: 0 <= k < |es| ==> es[k].retryable && !StopsRun(p, es[k], shared)
  {
    forall k | 0 <= k < |es|
      ensures OnFailure(p, es[k], k + 1, shared).RetryAfter? <==>
              k + 1 < p.maxAttempts && es[k].retryable && !StopsRun(p, es[k], shared)
    {
      RetriedExactly(p, es[k], k + 1, shared);
    }
    if AllRetried(p, es, shared) && es != [] {
      assert OnFailure(p, es[|es| - 1], |es|, shared).RetryAfter?;
    }
  }

  /** Whatever a recipient's failures, and however many, what it is made to wait
      is at most the longest delay once for each send but the first. */
  lemma {:induction false} WaitsWithin(p: Backoff, es: seq<Error>, shared: bool)
    requires p.maxAttempts > 0
    ensures Waited(p, es, shared) <= Min(|es|, p.maxAttempts - 1) * p.maxDelay
  {
    if es != [] {
      var n := |es| - 1;
      WaitsWithin(p, es[..n], shared);
      RetriedExactly(p, es[n], n + 1, shared);
      Scaled(Min(n, p.maxAttempts - 1), Min(n + 1, p.maxAttempts - 1), p.maxDelay);
      assert n + 1 < p.maxAttempts ==> (n + 1) * p.maxDelay == n * p.maxDelay + p.maxDelay;
    }
  }

  /** The same failure again and again. */
  function Again(e: Error, n: nat): seq<Error> {
    if n == 0 then [] else Again(e, n - 1) + [e]
  }

  lemma {:induction false} AgainIs(e: Error, n: nat)
    ensures |Again(e, n)| == n && forall k :: 0 <= k < n ==> Again(e, n)[k] == e
  {
    if n > 0 {
      AgainIs(e, n - 1);
    }
  }

  /** The wait promised on the last of `n` equal failures comes on top. */
  lemma WaitedAgain(p: Backoff, e: Error, n: nat, shared: bool)
    requires n > 0
    ensures var v := OnFailure(p, e, n, shared);
            Waited(p, Again(e, n), shared) == Waited(p, Again(e, n - 1), shared) + if v.RetryAfter? then v.delay else 0
  {
    AgainIs(e, n);
    assert Again(e, n)[..n - 1] == Again(e, n - 1);
  }

  /** The base delay doubled `n` times. */
  function Doubling(base: nat, n: nat): nat {
    if n == 0 then base else 2 * Doubling(base, n - 1)
  }

  lemma {:induction false} DoublingIs(base: nat, n: nat)
    ensures Doubling(base, n) == base * Power(2, n)
  {
    if n > 0 {
      DoublingIs(base, n - 1);
      Doubled(base, Power(2, n - 1));
    }
  }

  lemma NthWait(p: Backoff, e: Error, n: nat, shared: bool)
    requires 0 < n < p.maxAttempts && e.retryable && !StopsRun(p, e, shared) && !e.maintenance && e.kind != PairRateLimited
    requires Power(2, n - 1) <= U32_MAX && Doubling(p.baseDelay, n - 1) <= p.maxDelay
    ensures OnFailure(p, e, n, shared) == RetryAfter(Doubling(p.baseDelay, n - 1))
  {
    DoublingIs(p.baseDelay, n - 1);
  }

  /** While neither the attempts nor the longest delay are reached, `n` equal
      failures wait for the base delay `2^n - 1` times, */
  lemma WaitsDouble(p: Backoff, e: Error, n: nat, shared: bool)
    requires n < p.maxAttempts && e.retryable && !StopsRun(p, e, shared) && !e.maintenance && e.kind != PairRateLimited
    requires n > 0 ==> Power(2, n - 1) <= U32_MAX && p.baseDelay * Power(2, n - 1) <= p.maxDelay
    ensures Waited(p, Again(e, n), shared) == p.baseDelay * (Power(2, n) - 1)
  {
    if n > 0 {
      DoublingIs(p.baseDelay, n - 1);
    }
    WaitsDoubling(p, e, n, shared);
    DoublingIs(p.baseDelay, n);
    OneLess(p.baseDelay, Power(2, n));
  }

  lemma OneLess(a: nat, b: nat)
    ensures a * (b - 1) == a * b - a
  {
  }

  lemma {:induction false} WaitsDoubling(p: Backoff, e: Error, n: nat, shared: bool)
    requires n < p.maxAttempts && e.retryable && !StopsRun(p, e, shared) && !e.maintenance && e.kind != PairRateLimited
    requires n > 0 ==> Power(2, n - 1) <= U32_MAX && Doubling(p.baseDelay, n - 1) <= p.maxDelay
    ensures Waited(p, Again(e, n), shared) == Doubling(p.baseDelay, n) - p.baseDelay
  {
    if n > 0 {
      WaitsDoubling(p, e, n - 1, shared);
      WaitedAgain(p, e, n, shared);
      NthWait(p, e, n, shared);
    }
  }

  /** `n` pair-rate refusals for a third of `4^n - 1` seconds, */
  lemma {:induction false} PairWaitsAddUp(p: Backoff, e: Error, n: nat, shared: bool)
    requires n < p.maxAttempts && e.retryable && !StopsRun(p, e, shared) && e.kind == PairRateLimited
    requires n > 0 ==> Power(4, n - 1) <= U64_MAX && Power(4, n - 1) * NANOS_PER_SECOND <= p.maxDelay
    ensures 3 * Waited(p, Again(e, n), shared) == (Power(4, n) - 1) * NANOS_PER_SECOND
  {
    if n > 0 {
      PowerGrows(4, if n == 1 then 0 else n - 2, n - 1);
      PairWaitsAddUp(p, e, n - 1, shared);
      WaitedAgain(p, e, n, shared);
    }
  }

  /** and `n` failures of a number in maintenance for twenty seconds each. */
  lemma {:induction false} MaintenanceWaitsAddUp(p: Backoff, e: Error, n: nat, shared: bool)
    requires n < p.maxAttempts && e.retryable && !StopsRun(p, e, shared) && e.maintenance && e.kind != PairRateLimited
    requires MAINTENANCE_RETRY <= p.maxDelay
    ensures Waited(p, Again(e, n), shared) == n * MAINTENANCE_RETRY
  {
    if n > 0 {
      MaintenanceWaitsAddUp(p, e, n - 1, shared);
      WaitedAgain(p, e, n, shared);
    }
  }

  /** Under the default policy, a recipient whose five sends all meet the same
      retryable failure has waited 85 seconds if it is the pair rate limit, 80 in
      maintenance, and 15 otherwise; kinds that stop the run are not retried. */
  lemma DefaultWaits(e: Error, shared: bool)
    requires e.retryable && e.kind !in STOPS && (shared ==> e.kind !in CONTENT_STOPS)
    ensures Waited(DEFAULT, Again(e, DEFAULT.maxAttempts - 1), shared) ==
            NANOS_PER_SECOND * if e.kind == PairRateLimited then 85 else if e.maintenance then 80 else 15
  {
    assert Power(2, 3) == 8 && Power(2, 4) == 16 && Power(4, 3) == 64 && Power(4, 4) == 256;
    if e.kind == PairRateLimited {
      PairWaitsAddUp(DEFAULT, e, 4, shared);
    } else if e.maintenance {
      MaintenanceWaitsAddUp(DEFAULT, e, 4, shared);
    } else {
      WaitsDouble(DEFAULT, e, 4, shared);
    }
  }

  lemma {:induction false} PowerGrows(base: nat, i: nat, j: nat)
    requires 1 <= base && i <= j
    ensures 1 <= Power(base, i) <= Power(base, j)
  {
    if i < j {
      PowerGrows(base, i, j - 1);
      assert Power(base, j - 1) * 1 <= Power(base, j - 1) * base;
    } else if i > 0 {
      PowerGrows(base, i - 1, i - 1);
      assert Power(base, i - 1) * 1 <= Power(base, i - 1) * base;
    }
  }

  /** A recipient failing the same way again never waits less than before. */
  lemma DelaysNeverShrink(p: Backoff, e: Error, failures: nat, more: nat, shared: bool)
    requires failures <= more
    requires OnFailure(p, e, failures, shared).RetryAfter? && OnFailure(p, e, more, shared).RetryAfter?
    ensures OnFailure(p, e, failures, shared).delay <= OnFailure(p, e, more, shared).delay
  {
    var i, j := if failures == 0 then 0 else failures - 1, if more == 0 then 0 else more - 1;
    PowerGrows(4, i, j);
    PowerGrows(2, i, j);
    Scaled(Min(Power(2, i), U32_MAX), Min(Power(2, j), U32_MAX), p.baseDelay);
  }

  /** A first pair-rate refusal waits a second and each further one four times as
      long, any other failure the base delay and then twice as long, until the
      factor no longer fits; maintenance is waited out in even steps. */
  lemma DelaysMultiply(p: Backoff, e: Error, failures: nat)
    requires failures >= 1
    ensures e.kind == PairRateLimited ==>
              && Delay(p, e, 1) == NANOS_PER_SECOND
              && (Power(4, failures) <= U64_MAX ==> Delay(p, e, failures + 1) == 4 * Delay(p, e, failures))
    ensures e.kind != PairRateLimited && e.maintenance ==> Delay(p, e, failures) == 20 * NANOS_PER_SECOND
    ensures e.kind != PairRateLimited && !e.maintenance ==>
              && Delay(p, e, 1) == p.baseDelay
              && (Power(2, failures) <= U32_MAX ==> Delay(p, e, failures + 1) == 2 * Delay(p, e, failures))
  {
    PowerGrows(4, failures - 1, failures);
    PowerGrows(2, failures - 1, failures);
    assert Power(2, failures) == 2 * Power(2, failures - 1);
    Doubled(p.baseDelay, Power(2, failures - 1));
  }

  lemma Doubled(c: nat, a: nat)
    ensures c * (2 * a) == 2 * (c * a)
  {
  }

  lemma Scaled(a: nat, b: nat, c: nat)
    requires a <= b
    ensures c * a <= c * b
  {
  }
}
