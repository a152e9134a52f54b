/**
 The schedule and the clock: a clock that steps back moves the schedule with it
 and changes nothing else, and recovery does not depend on when it is looked at.
 */
module PacerClock {
  import opened Basics
  import opened Wrappers
  import opened Schedule
  import opened PacerRun

  // ─── A clock that steps back ────────────────────────────────────────────

  function ShiftAll(q: seq<Booked>, ahead: int): (r: seq<Booked>)
    ensures |r| == |q|
  {
    if q == [] then [] else [q[0].(base := q[0].base + ahead, end := q[0].end + ahead)] + ShiftAll(q[1..], ahead)
  }

  /** The same schedule on a clock `ahead` of this one. */
  function Shift(b: Bucket, ahead: int): Bucket {
    b.(due := b.due + ahead, seen := b.seen + ahead, since := b.since + ahead,
    slowed := if b.slowed.Some? then Some(b.slowed.value + ahead) else None,
    booked := ShiftAll(b.booked, ahead))
  }

  /** The bucket, its booked slots not to be given back any more. */
  function Forget(b: Bucket): Bucket { b.(booked := []) }

  lemma {:induction false} DropPastShift(q: seq<Booked>, now: int, ahead: int)
    ensures DropPast(ShiftAll(q, ahead), now + ahead) == ShiftAll(DropPast(q, now), ahead)
  {
    if q != [] && q[0].end <= now {
      DropPastShift(q[1..], now, ahead);
    }
  }

  lemma {:induction false} ShiftByNothing(b: Bucket)
    ensures Shift(b, 0) == b
    decreases |b.booked|
  {
    if b.booked != [] {
      ShiftByNothing(b.(booked := b.booked[1..]));
    }
  }

  /** A schedule looks the same on a clock that is ahead. */
  lemma CatchUpAhead(s: Settings, b: Bucket, now: int, ahead: int)
    requires b.seen <= now
    ensures CatchUp(s, Shift(b, ahead), now + ahead) == Shift(CatchUp(s, b, now), ahead)
  {
    DropPastShift(b.booked, now, ahead);
  }

  lemma {:induction false} ShiftAllSnoc(q: seq<Booked>, e: Booked, ahead: int)
    ensures ShiftAll(q + [e], ahead) == ShiftAll(q, ahead) + [e.(base := e.base + ahead, end := e.end + ahead)]
  {
    if q != [] {
      ShiftAllSnoc(q[1..], e, ahead);
      assert (q + [e])[1..] == q[1..] + [e];
    } else {
      assert q + [e] == [e];
    }
  }

  lemma BookShift(s: Settings, rate: Rate, b: Bucket, now: int, cost: Positive, ahead: int)
    ensures Book(s, rate, Shift(b, ahead), now + ahead, cost).1 == Book(s, rate, b, now, cost).1
    ensures Book(s, rate, Shift(b, ahead), now + ahead, cost).0 == Shift(Book(s, rate, b, now, cost).0, ahead)
  {
    ShiftAllSnoc(b.booked, Last(Book(s, rate, b, now, cost).0.booked), ahead);
  }

  lemma {:induction false} MarkShift(q: seq<Booked>, id: nat, ahead: int)
    ensures Mark(ShiftAll(q, ahead), id) == ShiftAll(Mark(q, id), ahead)
  {
    if q != [] && q[0].id != id {
      MarkShift(q[1..], id, ahead);
    }
  }

  lemma {:induction false} ShiftAllEnds(q: seq<Booked>, ahead: int)
    requires q != []
    ensures Front(ShiftAll(q, ahead)) == ShiftAll(Front(q), ahead)
    ensures Last(ShiftAll(q, ahead)) == Last(q).(base := Last(q).base + ahead, end := Last(q).end + ahead)
  {
    assert q == Front(q) + [Last(q)];
    ShiftAllSnoc(Front(q), Last(q), ahead);
  }

  lemma {:induction false} UnbookShift(b: Bucket, ahead: int)
    ensures Unbook(Shift(b, ahead)) == Shift(Unbook(b), ahead)
    decreases |b.booked|
  {
    if b.booked != [] {
      ShiftAllEnds(b.booked, ahead);
      if Last(b.booked).released && Last(b.booked).end == b.due {
        UnbookShift(b.(due := Last(b.booked).base, booked := Front(b.booked)), ahead);
      }
    }
  }

  /** The same operation on the re-based clock, at the reading's re-based time;
      where the clock stepped back, the booked slots are forgotten first. */
  function RebasedStep(s: Settings, plain: Run, re: Run, op: Op): Run {
    if op.OpReserve? || op.OpSlowDown? then
      var skew := SkewAt(plain, op.now);
      var known := if skew > plain.skew && re.bucket.Some? then re.(bucket := Some(Forget(re.bucket.value))) else re;
      if op.OpSlowDown? && !s.adaptive then re else Step(s, known, op.(now := op.now + skew))
    else Step(s, re, op)
  }

  function Rebased(s: Settings, ops: seq<Op>): Run {
    if ops == [] then Fresh(s) else RebasedStep(s, Play(s, Front(ops)), Rebased(s, Front(ops)), Last(ops))
  }

  /** The two runs have booked the same slots, on clocks `run.skew` apart. */
  ghost predicate Agree(run: Run, re: Run) {
    && re == run.(bucket := re.bucket, skew := 0)
    && if run.bucket.None? then re.bucket.None? && run.skew == 0
       else re.bucket == Some(Shift(run.bucket.value, run.skew))
  }

  lemma ShiftTwice(b: Bucket, one: int, two: int)
    ensures Shift(Shift(b, one), two) == Shift(b, one + two)
  {
    ShiftAllTwice(b.booked, one, two);
  }

  lemma {:induction false} ShiftAllTwice(q: seq<Booked>, one: int, two: int)
    ensures ShiftAll(ShiftAll(q, one), two) == ShiftAll(q, one + two)
  {
    if q != [] {
      ShiftAllTwice(q[1..], one, two);
    }
  }

  /** Catching up on a clock that stepped back is catching up on one that stood
      still, the booked slots forgotten. */
  lemma CatchUpBack(s: Settings, b: Bucket, now: int)
    requires now < b.seen
    ensures CatchUp(s, Forget(b), b.seen) == Shift(CatchUp(s, b, now), b.seen - now)
  {
  }

  lemma CatchUpRebased(s: Settings, b: Bucket, now: int, skew: int)
    ensures var back, re := Elapsed(now, b.seen), Shift(b, skew);
            CatchUp(s, if back > 0 then Forget(re) else re, now + skew + back) == Shift(CatchUp(s, b, now), skew + back)
  {
    var back := Elapsed(now, b.seen);
    if back > 0 {
      CatchUpBack(s, b, now);
      CatchUpAhead(s, Forget(b), b.seen, skew);
      assert Forget(Shift(b, skew)) == Shift(Forget(b), skew);
      ShiftTwice(CatchUp(s, b, now), back, skew);
    } else {
      CatchUpAhead(s, b, now, skew);
    }
  }

  lemma CaughtUpAlike(s: Settings, run: Run, re: Run, now: int)
    requires Agree(run, re)
    ensures var skew := SkewAt(run, now);
            var known := if skew > run.skew && re.bucket.Some? then re.(bucket := Some(Forget(re.bucket.value))) else re;
            && CatchUp(s, BucketAt(known, now + skew), now + skew) == Shift(CatchUp(s, BucketAt(run, now), now), skew)
            && SkewAt(known, now + skew) == 0
  {
    if run.bucket.Some? {
      CatchUpRebased(s, run.bucket.value, now, run.skew);
    } else {
      CatchUpAhead(s, NewBucket(now), now, 0);
      ShiftByNothing(NewBucket(now));
    }
  }

  lemma ReserveAgrees(s: Settings, rate: Rate, c: Bucket, now: int, cost: Positive, skew: int)
    ensures Book(s, rate, Shift(c, skew), now + skew, cost).0 == Shift(Book(s, rate, c, now, cost).0, skew)
    ensures SlotOf(s, rate, Shift(c, skew), now + skew, cost, 0) == SlotOf(s, rate, c, now, cost, skew)
  {
    BookShift(s, rate, c, now, cost, skew);
  }

  lemma ReserveStepAgrees(s: Settings, run: Run, re: Run, now: int, cost: Positive)
    requires Agree(run, re)
    ensures Agree(Step(s, run, OpReserve(now, cost)), RebasedStep(s, run, re, OpReserve(now, cost)))
  {
    CaughtUpAlike(s, run, re, now);
    ReserveAgrees(s, run.rate, CatchUp(s, BucketAt(run, now), now), now, cost, SkewAt(run, now));
  }

  lemma SlowStepAgrees(s: Settings, run: Run, re: Run, now: int)
    requires Agree(run, re)
    ensures Agree(Step(s, run, OpSlowDown(now)), RebasedStep(s, run, re, OpSlowDown(now)))
  {
    CaughtUpAlike(s, run, re, now);
  }

  lemma ReleaseStepAgrees(s: Settings, run: Run, re: Run, id: nat)
    requires Agree(run, re)
    ensures Agree(Step(s, run, OpRelease(id)), RebasedStep(s, run, re, OpRelease(id)))
  {
    if run.bucket.Some? {
      MarkShift(run.bucket.value.booked, id, run.skew);
      UnbookShift(run.bucket.value.(booked := Mark(run.bucket.value.booked, id)), run.skew);
    }
  }

  /** On any clock, a run books the very slots (and so answers the very waits)
      of a run fed the re-based clock, which never steps back. */
  lemma {:induction false} RebasedAgrees(s: Settings, ops: seq<Op>)
    ensures Agree(Play(s, ops), Rebased(s, ops))
  {
    if ops != [] {
      RebasedAgrees(s, Front(ops));
      var run, re := Play(s, Front(ops)), Rebased(s, Front(ops));
      match Last(ops)
      case OpReserve(now, cost) => ReserveStepAgrees(s, run, re, now, cost);
      case OpRelease(id) => ReleaseStepAgrees(s, run, re, id);
      case OpSlowDown(now) => SlowStepAgrees(s, run, re, now);
      case OpSetRate(_) =>
    }
  }

  // ─── Recovery ───────────────────────────────────────────────────────────

  lemma {:induction false} DivideTwice(d: nat, f: Factor, i: nat, j: nat)
    ensures Divide(Divide(d, f, i), f, j) == Divide(d, f, i + j)
    decreases i
  {
    if i > 0 {
      DivideTwice(Max(d / f, 1), f, i - 1, j);
    }
  }

  lemma HalvedAtLeast(d: nat, f: Factor)
    ensures d / f <= d / 2
  {
    var q := d / f;
    MulMono(2, f, q);
    assert q * f <= d;
  }

  /** Enough divisions always reach one. */
  lemma {:induction false} DivideReachesOne(d: nat, f: Factor, n: nat)
    requires d < Power(2, n) && 1 <= n
    ensures Divide(d, f, n) == 1
    decreases n
  {
    var next := Max(d / f, 1);
    HalvedAtLeast(d, f);
    if n == 1 {
      assert next == 1 && Divide(next, f, 0) == 1;
    } else {
      assert 1 < Power(2, n - 1);
      assert next < Power(2, n - 1);
      DivideReachesOne(next, f, n - 1);
    }
  }

  lemma {:induction false} DivideOne(f: Factor, n: nat)
    ensures Divide(1, f, n) == 1
    decreases n
  {
    if n > 0 {
      assert 1 / f == 0;
      DivideOne(f, n - 1);
    }
  }

  lemma TwoToThe32()
    ensures Power(2, 32) == U32_MODULUS
  {
    assert Power(2, 8) == 256;
    assert Power(2, 16) == 65536;
    assert Power(2, 24) == 16777216;
  }

  /** Capping the divisions at thirty-two never stops short: a divisor of 32
      bits is at one by then. */
  lemma CapNeverStopsShort(d: nat, f: Factor, steps: nat)
    requires d < U32_MODULUS
    ensures Divide(d, f, Min(Min(steps, U32_MAX), MAX_STEPS)) == Divide(d, f, steps)
    ensures steps >= MAX_STEPS ==> Divide(d, f, steps) == 1
  {
    if steps > MAX_STEPS {
      TwoToThe32();
      DivideReachesOne(d, f, MAX_STEPS);
      DivideTwice(d, f, MAX_STEPS, steps - MAX_STEPS);
      DivideOne(f, steps - MAX_STEPS);
    } else if steps == MAX_STEPS {
      TwoToThe32();
      DivideReachesOne(d, f, MAX_STEPS);
    }
  }

  /** The same bucket, but for the start of a recovery that has nothing left to recover. */
  ghost predicate Alike(b: Bucket, c: Bucket) {
    b == c.(since := b.since) && (b.divisor != 1 ==> b.since == c.since)
  }

  /** Catching up at each of `times`, in turn. */
  function Poll(s: Settings, b: Bucket, times: seq<int>): Bucket {
    if times == [] then b else CatchUp(s, Poll(s, b, Front(times)), Last(times))
  }

  lemma StepsAdd(elapsed: nat, recovery: Positive, n: nat)
    requires n * recovery <= elapsed
    ensures elapsed / recovery == n + (elapsed - n * recovery) / recovery
  {
    var rest := elapsed - n * recovery;
    var q := rest / recovery;
    assert rest == q * recovery + rest % recovery;
    assert elapsed == (n + q) * recovery + rest % recovery;
    QuotientIs(elapsed, recovery, n + q, rest % recovery);
  }

  lemma QuotientIs(a: nat, b: Positive, q: nat, r: nat)
    requires a == q * b + r && r < b
    ensures a / b == q
  {
    var p := a / b;
    assert a == p * b + a % b;
    if p < q {
      MulMono(p + 1, q, b);
    } else if q < p {
      MulMono(q + 1, p, b);
    }
  }

  /** How far a bucket recovers, as one formula. */
  lemma RecoverIs(s: Settings, b: Bucket, now: int)
    requires b.divisor < U32_MODULUS
    ensures var steps := Elapsed(b.since, now) / s.recovery;
            var c := Recover(s, b, now);
            && c == b.(divisor := c.divisor, since := c.since)
            && c.divisor == Divide(b.divisor, s.factor, steps)
            && (c.divisor != 1 ==> c.since == b.since + s.recovery * steps)
  {
    var steps := Elapsed(b.since, now) / s.recovery;
    CapNeverStopsShort(b.divisor, s.factor, steps);
    if b.divisor == 1 {
      DivideOne(s.factor, steps);
    }
  }

  lemma TimeLeft(since: int, one: int, two: int, recovery: Positive)
    requires one <= two
    ensures var n := Elapsed(since, one) / recovery;
            && n <= Elapsed(since, two) / recovery
            && Elapsed(since, two) / recovery == n + Elapsed(since + recovery * n, two) / recovery
  {
    var e := Elapsed(since, one);
    var n := e / recovery;
    assert e == n * recovery + e % recovery;
    QuotientMonotone(e, Elapsed(since, two), recovery);
    StepsAdd(Elapsed(since, two), recovery, n);
    assert Elapsed(since + recovery * n, two) == Elapsed(since, two) - n * recovery;
  }

  lemma DividedStays(d: nat, f: Factor, n: nat, m: nat)
    requires d < U32_MODULUS && n <= m && Divide(d, f, n) == 1
    ensures Divide(d, f, m) == 1
  {
    DivideTwice(d, f, n, m - n);
    DivideOne(f, m - n);
  }

  /** A recovery over by the first look has nothing more to do at the second. */
  lemma RecoverDone(s: Settings, b: Bucket, one: int, two: int)
    requires b.divisor < U32_MODULUS && one <= two && Recover(s, b, one).divisor == 1
    ensures Recover(s, b, two).divisor == 1
  {
    var n, m := Elapsed(b.since, one) / s.recovery, Elapsed(b.since, two) / s.recovery;
    RecoverIs(s, b, one);
    RecoverIs(s, b, two);
    QuotientMonotone(Elapsed(b.since, one), Elapsed(b.since, two), s.recovery);
    DividedStays(b.divisor, s.factor, n, m);
  }

  /** One that is not goes on from there. */
  lemma RecoverOn(s: Settings, b: Bucket, one: int, two: int)
    requires b.divisor < U32_MODULUS && one <= two && Recover(s, b, one).divisor != 1
    ensures var c, d, e := Recover(s, b, one), Recover(s, Recover(s, b, one), two), Recover(s, b, two);
            d.divisor == e.divisor && (d.divisor != 1 ==> d.since == e.since)
  {
    var c := Recover(s, b, one);
    var n, m := Elapsed(b.since, one) / s.recovery, Elapsed(b.since, two) / s.recovery;
    RecoverIs(s, b, one);
    RecoverIs(s, b, two);
    DivideSmaller(b.divisor, s.factor, n);
    RecoverIs(s, c, two);
    TimeLeft(b.since, one, two, s.recovery);
    DivideTwice(b.divisor, s.factor, n, m - n);
    Distribute(s.recovery, n, m - n);
  }

  lemma RecoverTwice(s: Settings, b: Bucket, one: int, two: int)
    requires b.divisor < U32_MODULUS && one <= two
    ensures Alike(Recover(s, Recover(s, b, one), two), Recover(s, b, two))
  {
    if Recover(s, b, one).divisor == 1 {
      RecoverDone(s, b, one, two);
    } else {
      RecoverOn(s, b, one, two);
    }
  }

  lemma Distribute(r: int, n: int, k: int)
    ensures r * (n + k) == r * n + r * k
  {
  }

  lemma QuotientMonotone(a: nat, b: nat, c: Positive)
    requires a <= b
    ensures a / c <= b / c
  {
    if b / c < a / c {
      MulMono(b / c + 1, a / c, c);
    }
  }

  lemma {:induction false} DivideSmaller(d: nat, f: Factor, n: nat)
    requires d < U32_MODULUS
    ensures Divide(d, f, n) < U32_MODULUS
    decreases n
  {
    if n > 0 {
      HalvedAtLeast(d, f);
      DivideSmaller(Max(d / f, 1), f, n - 1);
    }
  }

  lemma {:induction false} DropPastTwice(q: seq<Booked>, one: int, two: int)
    requires one <= two
    ensures DropPast(DropPast(q, one), two) == DropPast(q, two)
  {
    if q != [] && q[0].end <= one {
      DropPastTwice(q[1..], one, two);
    }
  }

  /** Catching up on the way is catching up at the end. */
  lemma CatchUpTwice(s: Settings, b: Bucket, one: int, two: int)
    requires b.divisor < U32_MODULUS && b.seen <= one <= two
    ensures Alike(CatchUp(s, CatchUp(s, b, one), two), CatchUp(s, b, two))
  {
    DropPastTwice(b.booked, one, two);
    RecoverTwice(s, b.(seen := two, booked := DropPast(b.booked, two)), one, two);
    RecoverIs(s, b.(seen := one, booked := DropPast(b.booked, one)), one);
  }

  lemma CatchUpAlike(s: Settings, b: Bucket, c: Bucket, now: int)
    requires Alike(b, c)
    ensures Alike(CatchUp(s, b, now), CatchUp(s, c, now))
  {
  }

  ghost predicate Climbs(from: int, times: seq<int>) {
    forall i :: 0 <= i < |times| ==> from <= times[i] && forall j :: i <= j < |times| ==> times[i] <= times[j]
  }

  /** However often the bucket is looked at meanwhile, it has recovered as far
      as if it had not been: the same schedule, the same divisor, and the same
      time left to the next step while any is left. */
  lemma {:induction false} PollingIsFree(s: Settings, b: Bucket, times: seq<int>)
    requires b.divisor < U32_MODULUS && times != [] && Climbs(b.seen, times)
    ensures Alike(Poll(s, b, times), CatchUp(s, b, Last(times)))
    decreases |times|
  {
    if |times| > 1 {
      var f := Front(times);
      assert forall i :: 0 <= i < |f| ==> f[i] == times[i];
      PollingIsFree(s, b, f);
      CatchUpTwice(s, b, Last(f), Last(times));
      CatchUpAlike(s, Poll(s, b, f), CatchUp(s, b, Last(f)), Last(times));
    }
  }

  /** Buckets alike answer alike, and stay alike. */
  lemma AlikeAnswersAlike(s: Settings, rate: Rate, b: Bucket, c: Bucket, now: int, cost: Positive)
    requires Alike(b, c)
    ensures Reserve(s, rate, b, now, cost).1 == Reserve(s, rate, c, now, cost).1
    ensures Alike(Reserve(s, rate, b, now, cost).0, Reserve(s, rate, c, now, cost).0)
    ensures Alike(SlowDown(s, rate, b, now), SlowDown(s, rate, c, now))
  {
    CatchUpAlike(s, b, c, now);
  }
}
