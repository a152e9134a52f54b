/**
 Slow-downs over whole runs: they divide the rate by powers of the factor, never
 too close together, and at the largest 32-bit rate the divisor can wrap around.
 */
module PacerSlowDowns {
  import opened Basics
  import opened Wrappers
  import opened Schedule
  import opened PacerRun
  import opened PacerBounds
  import opened PacerClock

  predicate IsPower(d: nat, f: Factor) {
    d == 1 || (d > 1 && d % f == 0 && IsPower(d / f, f))
  }

  lemma PowerTimes(d: nat, f: Factor)
    requires IsPower(d, f)
    ensures IsPower(d * f, f)
  {
    QuotientIs(d * f, f, d, 0);
    MulMono(1, d, f);
    assert d * f == (d * f / f) * f + d * f % f;
  }

  lemma {:induction false} PowerDivides(d: nat, f: Factor, n: nat)
    requires IsPower(d, f)
    ensures IsPower(Divide(d, f, n), f) && Divide(d, f, n) <= d
    decreases n
  {
    if n > 0 {
      HalvedAtLeast(d, f);
      assert 1 / f == 0;
      PowerDivides(Max(d / f, 1), f, n - 1);
    }
  }

  /** A slow-down that passes its check divides the rate by the factor once
      more, exactly when the product fits 32 bits: only the largest rate lets
      one through that does not, and then the divisor wraps around. */
  lemma SlowDownExactly(s: Settings, rate: Rate, b: Bucket, now: int)
    ensures (SaturatingMul(b.divisor, s.factor) <= rate ==> Slow(s, rate, b, now).divisor == b.divisor * s.factor)
            <==> !(rate == U32_MAX && b.divisor * s.factor > U32_MAX)
  {
    var product := b.divisor * s.factor;
    if product > U32_MAX {
      assert WrappingMul(b.divisor, s.factor) < U32_MODULUS;
    } else {
      QuotientIs(product, U32_MODULUS, 0, product);
    }
  }

  /** Every rate configured in the run is below the largest. */
  ghost predicate RatesBelowMax(s: Settings, ops: seq<Op>) {
    s.rate < U32_MAX && forall i :: 0 <= i < |ops| && ops[i].OpSetRate? ==> ops[i].rate < U32_MAX
  }

  /** What slow-downs keep in every run: the divisor is a power of the factor
      that fits 32 bits, and slow-downs that count are at least the spacing apart. */
  ghost predicate SlowedInv(s: Settings, run: Run) {
    && run.rate < U32_MAX
    && (forall i, j :: 0 <= i < j < |run.slows| ==> run.slows[j] - run.slows[i] >= s.spacing)
    && if run.bucket.None? then run.slows == [] else
         var b := run.bucket.value;
         && IsPower(b.divisor, s.factor) && b.divisor < U32_MODULUS
         && if b.slowed.None? then run.slows == []
            else run.slows != [] && Last(run.slows) == b.slowed.value + run.skew && b.slowed.value <= b.seen
  }

  lemma CatchUpSlowed(s: Settings, b: Bucket, now: int)
    requires IsPower(b.divisor, s.factor) && b.divisor < U32_MODULUS
    ensures var c, back := CatchUp(s, b, now), Elapsed(now, b.seen);
            && IsPower(c.divisor, s.factor) && c.divisor < U32_MODULUS && c.seen == now
            && c.slowed == if b.slowed.Some? then Some(b.slowed.value - back) else None
  {
    PowerDivides(b.divisor, s.factor, Min(Min(Elapsed((if now < b.seen then StepBack(b, now) else b).since, now) / s.recovery, U32_MAX), MAX_STEPS));
  }

  lemma SlowStepKeeps(s: Settings, run: Run, now: int)
    requires SlowedInv(s, run)
    ensures SlowedInv(s, Step(s, run, OpSlowDown(now)))
  {
    if s.adaptive {
      var b := BucketAt(run, now);
      CatchUpSlowed(s, b, now);
      var c := CatchUp(s, b, now);
      if Counts(s, c, now) {
        SlowDownExactly(s, run.rate, c, now);
        PowerTimes(c.divisor, s.factor);
        LastIsLatest(s, run.slows);
      }
    }
  }

  lemma LastIsLatest(s: Settings, slows: seq<int>)
    requires forall i, j :: 0 <= i < j < |slows| ==> slows[j] - slows[i] >= s.spacing
    ensures forall i :: 0 <= i < |slows| ==> slows[i] <= Last(slows)
  {
  }

  lemma {:induction false} SlowDownsKeep(s: Settings, ops: seq<Op>)
    requires RatesBelowMax(s, ops)
    ensures SlowedInv(s, Play(s, ops))
  {
    if ops != [] {
      SlowDownsKeep(s, Front(ops));
      var run := Play(s, Front(ops));
      match Last(ops)
      case OpReserve(now, _) => CatchUpSlowed(s, BucketAt(run, now), now);
      case OpRelease(id) =>
        if run.bucket.Some? {
          UnbookKeepsRest(run.bucket.value.(booked := Mark(run.bucket.value.booked, id)));
        }
      case OpSlowDown(now) => SlowStepKeeps(s, run, now);
      case OpSetRate(rate) =>
    }
  }

  lemma {:induction false} UnbookKeepsRest(b: Bucket)
    ensures Unbook(b) == b.(due := Unbook(b).due, booked := Unbook(b).booked)
    decreases |b.booked|
  {
    if b.booked != [] {
      UnbookKeepsRest(b.(due := Last(b.booked).base, booked := Front(b.booked)));
    }
  }

  // ─── Recovery ───────────────────────────────────────────────────────────

  /** In every run, a slow-down that counts starts the recovery anew, whether it
      could divide the rate or not: the divisor stays for a whole period from then,
      and is divided once when it is over. */
  lemma RestartsRecovery(s: Settings, ops: seq<Op>, now: int, later: int)
    requires |Play(s, ops + [OpSlowDown(now)]).slows| > |Play(s, ops).slows| && now <= later
    ensures var after := Play(s, ops + [OpSlowDown(now)]);
            && after.bucket.Some?
            && var b := after.bucket.value;
               && (later - now < s.recovery ==> CatchUp(s, b, later).divisor == b.divisor)
               && (s.recovery <= later - now < 2 * s.recovery ==> CatchUp(s, b, later).divisor == Max(b.divisor / s.factor, 1))
  {
    assert (ops + [OpSlowDown(now)])[..|ops|] == ops;
    var b := Play(s, ops + [OpSlowDown(now)]).bucket.value;
    assert b.since == b.seen == now;
    if later - now < s.recovery {
      QuotientIs(later - now, s.recovery, 0, later - now);
    } else if later - now < 2 * s.recovery {
      QuotientIs(later - now, s.recovery, 1, later - now - s.recovery);
      QuotientOfOne(s.factor);
      assert Divide(b.divisor, s.factor, 1) == Divide(Max(b.divisor / s.factor, 1), s.factor, 0);
    }
  }

  lemma QuotientOfOne(f: Factor)
    ensures 1 / f == 0
  {
  }

  // ─── The divisor that wraps around ──────────────────────────────────────

  /** A slow-down now that passes its check divides the rate by the factor once
      more, and one that does not leaves it. */
  predicate SlowsTrue(s: Settings, run: Run, now: int) {
    var c := CatchUp(s, BucketAt(run, now), now);
    var after := BucketAt(Step(s, run, OpSlowDown(now)), now);
    s.adaptive && Counts(s, c, now) ==>
      after.divisor == if SaturatingMul(c.divisor, s.factor) <= run.rate then c.divisor * s.factor else c.divisor
  }

  /** Every slow-down of every run at the configured rate does so. */
  ghost predicate AllSlowTrue(s: Settings) {
    forall ops, now :: OneRate(ops) ==> SlowsTrue(s, Play(s, ops), now)
  }

  /** A run at the largest rate, its last slow-down, which counted, come `at`. */
  ghost predicate Slowed(run: Run, at: int, divisor: nat) {
    && run.rate == U32_MAX && run.bucket.Some?
    && var b := run.bucket.value;
       b.divisor == divisor && b.slowed == Some(at) && b.since == b.seen == at
  }

  /** `n` slow-downs, the spacing apart. */
  function Slows(s: Settings, n: nat): seq<Op> {
    if n == 0 then [] else Slows(s, n - 1) + [OpSlowDown(Times(n - 1, s.spacing))]
  }

  lemma NoStepYet(s: Settings, b: Bucket, at: int, now: int)
    requires s.recovery > s.spacing && b.since == b.seen == at && now == at + s.spacing
    ensures CatchUp(s, b, now) == b.(seen := now, booked := DropPast(b.booked, now))
  {
    QuotientIs(s.spacing, s.recovery, 0, s.spacing);
  }

  /** At the largest rate every slow-down that counts passes its check. */
  lemma SlowCounted(s: Settings, b: Bucket, now: int)
    requires Counts(s, b, now)
    ensures Slow(s, U32_MAX, b, now) == b.(divisor := WrappingMul(b.divisor, s.factor), slowed := Some(now), since := now)
  {
  }

  lemma SlowFirst(s: Settings, now: int)
    requires s.adaptive && s.rate == U32_MAX
    ensures Slowed(Step(s, Play(s, []), OpSlowDown(now)), now, WrappingMul(1, s.factor))
  {
    var b := NewBucket(now);
    assert CatchUp(s, b, now) == b;
    SlowCounted(s, b, now);
  }

  lemma SlowOnceMore(s: Settings, run: Run, at: int, divisor: nat)
    requires s.adaptive && s.recovery > s.spacing && Slowed(run, at, divisor)
    ensures Slowed(Step(s, run, OpSlowDown(at + s.spacing)), at + s.spacing, WrappingMul(divisor, s.factor))
  {
    NoStepYet(s, run.bucket.value, at, at + s.spacing);
    SlowCounted(s, CatchUp(s, run.bucket.value, at + s.spacing), at + s.spacing);
  }

  lemma PowerIsPositive(f: Factor, n: nat)
    ensures Power(f, n) > n
  {
    if n > 0 {
      PowerIsPositive(f, n - 1);
      MulMono(2, f, Power(f, n - 1));
    }
  }

  lemma ProductFits(a: nat, b: nat)
    requires a * b <= U32_MAX
    ensures WrappingMul(a, b) == a * b
  {
    QuotientIs(a * b, U32_MODULUS, 0, a * b);
  }

  lemma PowerFits(f: Factor, n: nat)
    requires 1 <= n && Power(f, n) <= U32_MAX
    ensures Power(f, n - 1) <= U32_MAX && WrappingMul(Power(f, n - 1), f) == Power(f, n)
  {
    var d := Power(f, n - 1);
    assert Power(f, n) == d * f;
    PowerIsPositive(f, n - 1);
    MulMono(1, f, d);
    ProductFits(d, f);
  }

  /** With no time to recover in between, each of the slow-downs divides the
      largest rate by the factor once more. */
  lemma {:induction false} SlowsPlay(s: Settings, n: nat)
    requires s.adaptive && s.rate == U32_MAX && s.recovery > s.spacing && 1 <= n
    requires Power(s.factor, n - 1) <= U32_MAX
    ensures OneRate(Slows(s, n))
    ensures Slowed(Play(s, Slows(s, n)), Times(n - 1, s.spacing), WrappingMul(Power(s.factor, n - 1), s.factor))
  {
    if n == 1 {
      SlowFirst(s, Times(0, s.spacing));
    } else {
      PowerFits(s.factor, n - 1);
      SlowsPlay(s, n - 1);
      SlowOnceMore(s, Play(s, Slows(s, n - 1)), Times(n - 2, s.spacing), Power(s.factor, n - 1));
    }
    PlaySnoc(s, Slows(s, n - 1), OpSlowDown(Times(n - 1, s.spacing)));
  }

  /** Thirty-two slow-downs the spacing apart, none recovered from, halve the
      largest rate until no divisor is left at all. */
  lemma WrappedDivisor(s: Settings)
    requires s.adaptive && s.rate == U32_MAX && s.factor == 2 && s.recovery > s.spacing
    ensures OneRate(Slows(s, 32))
    ensures Play(s, Slows(s, 32)).bucket.Some? && Play(s, Slows(s, 32)).bucket.value.divisor == 0
  {
    TwoToThe32();
    SlowsPlay(s, 32);
  }

  /** The last power of the factor that fits 32 bits. */
  lemma LastFit(f: Factor, n: nat) returns (k: nat)
    requires Power(f, n) <= U32_MAX && n <= U32_MAX
    ensures Power(f, k) <= U32_MAX < Power(f, k + 1)
    decreases U32_MAX - n
  {
    if Power(f, n + 1) > U32_MAX {
      k := n;
    } else {
      PowerIsPositive(f, n + 1);
      k := LastFit(f, n + 1);
    }
  }

  lemma WrapIsWrong(s: Settings, run: Run, at: int, divisor: nat)
    requires s.adaptive && s.recovery > s.spacing && Slowed(run, at, divisor) && divisor * s.factor > U32_MAX
    ensures !SlowsTrue(s, run, at + s.spacing)
  {
    NoStepYet(s, run.bucket.value, at, at + s.spacing);
    SlowOnceMore(s, run, at, divisor);
    assert WrappingMul(divisor, s.factor) < U32_MODULUS;
  }

  lemma SomeWrap(s: Settings)
    requires s.adaptive && s.rate == U32_MAX && s.recovery > s.spacing
    ensures !AllSlowTrue(s)
  {
    var n := LastFit(s.factor, 0);
    if n > 0 {
      PowerFits(s.factor, n);
      SlowsPlay(s, n);
      WrapIsWrong(s, Play(s, Slows(s, n)), Times(n - 1, s.spacing), Power(s.factor, n));
    }
  }

  /** When a recovery period is no longer than the spacing, every slow-down but
      the first follows a full recovery: the divisor is one, or the factor ever
      since the last slow-down. */
  ghost predicate Shallow(s: Settings, b: Bucket) {
    b.divisor == 1 || (b.divisor == s.factor && b.slowed == Some(b.since))
  }

  lemma CatchUpShallow(s: Settings, b: Bucket, now: int)
    requires s.recovery <= s.spacing && Shallow(s, b)
    ensures Shallow(s, CatchUp(s, b, now))
    ensures Counts(s, CatchUp(s, b, now), now) ==> CatchUp(s, b, now).divisor == 1
  {
    RecoverShallow(s, (if now < b.seen then StepBack(b, now) else b).(seen := now, booked := CatchUp(s, b, now).booked), now);
  }

  lemma RecoverShallow(s: Settings, b: Bucket, now: int)
    requires Shallow(s, b)
    ensures Shallow(s, Recover(s, b, now))
    ensures b.slowed.None? || Elapsed(b.slowed.value, now) >= s.recovery ==> Recover(s, b, now).divisor == 1
  {
    var elapsed := Elapsed(b.since, now);
    var steps := Min(elapsed / s.recovery, U32_MAX);
    if b.divisor != 1 && elapsed >= s.recovery {
      QuotientMonotone(s.recovery, elapsed, s.recovery);
      QuotientIs(s.factor, s.factor, 1, 0);
      DivideOne(s.factor, Min(steps, MAX_STEPS) - 1);
      assert Divide(s.factor, s.factor, Min(steps, MAX_STEPS)) == 1;
    } else if b.divisor != 1 {
      QuotientIs(elapsed, s.recovery, 0, elapsed);
    }
  }

  lemma {:induction false} StaysShallow(s: Settings, ops: seq<Op>)
    requires s.recovery <= s.spacing && OneRate(ops)
    ensures Play(s, ops).bucket.Some? ==> Shallow(s, Play(s, ops).bucket.value)
  {
    if ops != [] {
      var run, op := Play(s, Front(ops)), Last(ops);
      StaysShallow(s, Front(ops));
      SteadyRun(s, Front(ops));
      match op
      case OpReserve(now, _) => CatchUpShallow(s, BucketAt(run, now), now);
      case OpRelease(id) =>
        if run.bucket.Some? {
          UnbookKeepsRest(run.bucket.value.(booked := Mark(run.bucket.value.booked, id)));
        }
      case OpSlowDown(now) => CatchUpShallow(s, BucketAt(run, now), now);
      case OpSetRate(_) =>
    }
  }

  /** Exactly which numbers never see a wrong divisor at the configured rate:
      those below the largest rate, those that never slow down, and those that
      recover at least as fast as slow-downs can come. */
  lemma WrapsExactly(s: Settings)
    ensures AllSlowTrue(s) <==> !s.adaptive || s.rate < U32_MAX || s.recovery <= s.spacing
  {
    if !s.adaptive {
    } else if s.rate == U32_MAX && s.recovery > s.spacing {
      SomeWrap(s);
    } else {
      forall ops, now | OneRate(ops)
        ensures SlowsTrue(s, Play(s, ops), now)
      {
        SlowsRight(s, ops, now);
      }
    }
  }

  lemma SlowsRight(s: Settings, ops: seq<Op>, now: int)
    requires OneRate(ops) && (s.rate < U32_MAX || s.recovery <= s.spacing)
    ensures SlowsTrue(s, Play(s, ops), now)
  {
    var b := BucketAt(Play(s, ops), now);
    SteadyRun(s, ops);
    SlowDownExactly(s, s.rate, CatchUp(s, b, now), now);
    if s.recovery <= s.spacing {
      StaysShallow(s, ops);
      CatchUpShallow(s, b, now);
    }
  }
}
