/**
 The most starts a window can hold at one rate, at any rate: the earliest place
 in the schedule of each further start, slowing down as late as possible, and
 runs that book their slots in just these places.
 */
module PacerMost {
  import opened Basics
  import opened Wrappers
  import opened Schedule
  import opened PacerRun
  import opened PacerBounds
  import opened PacerClock
  import opened PacerSlowDowns

  // ─── How deep a number can be slowed down ───────────────────────────────

  lemma PowerDoubles(f: Factor, k: nat)
    ensures Power(f, k) >= 1 && Power(f, k + 1) >= 2 * Power(f, k) && Power(f, k + 1) == Power(f, k) * f
  {
    PowerIsPositive(f, k);
    MulMono(2, f, Power(f, k));
  }

  /** The last power of the factor, from the `k`-th on, that does not exceed the rate. */
  function LastPower(f: Factor, rate: Rate, k: nat): (n: nat)
    requires Power(f, k) <= rate
    ensures k <= n && Power(f, n) <= rate < Power(f, n + 1)
    decreases rate - Power(f, k)
  {
    PowerDoubles(f, k);
    if Power(f, k + 1) <= rate then LastPower(f, rate, k + 1) else k
  }

  /** How many slow-downs can be in force together: none follows another before a
      recovery if recovering takes no longer than the spacing. */
  function Depth(s: Settings): (n: nat)
    ensures Power(s.factor, n) <= s.rate
  {
    if NeverSlows(s) then 0
    else if s.recovery <= s.spacing then (assert Power(s.factor, 1) == s.factor * Power(s.factor, 0); 1)
    else LastPower(s.factor, s.rate, 0)
  }

  /** The interval after `k` slow-downs. */
  function IntervalAt(s: Settings, k: nat): nat { Interval(s.rate, Power(s.factor, k)) }

  lemma CeilDivMonotone(a: nat, c: nat, b: Positive)
    requires a <= c
    ensures CeilDiv(a, b) <= CeilDiv(c, b)
  {
    CeilDivIsLeast(a, b);
    CeilDivIsLeast(c, b);
  }

  lemma DivisorMonotone(rate: Rate, d: nat, e: nat)
    requires d <= e
    ensures 1 <= Interval(rate, d) <= Interval(rate, e)
  {
    MulMono(Max(1, Min(d, rate)), Max(1, Min(e, rate)), NANOS_PER_SECOND);
    CeilDivMonotone(NANOS_PER_SECOND * Max(1, Min(d, rate)), NANOS_PER_SECOND * Max(1, Min(e, rate)), rate);
    IntervalIsLeast(rate, d);
  }

  lemma {:induction false} IntervalsClimb(s: Settings, k: nat, m: nat)
    requires k <= m
    ensures 1 <= IntervalAt(s, k) <= IntervalAt(s, m)
    decreases m
  {
    if k < m {
      IntervalsClimb(s, k, m - 1);
      PowerDoubles(s.factor, m - 1);
      DivisorMonotone(s.rate, Power(s.factor, m - 1), Power(s.factor, m));
    } else {
      DivisorMonotone(s.rate, Power(s.factor, k), Power(s.factor, k));
    }
  }

  // ─── The earliest places ────────────────────────────────────────────────

  /** A slot booked after `k` slow-downs starts within the window only if its place
      in the schedule is before this, from the window's beginning. */
  function Reach(s: Settings, width: nat, k: nat): int { width + IntervalAt(s, k) * (s.burst - 1) }

  /** The fewest slow-downs, `k` or more but no more than `d`, after which a slot
      placed there starts within the window. */
  function LevelFor(s: Settings, d: nat, width: nat, place: int, k: nat): (n: nat)
    ensures k <= n && (k <= d ==> n <= d)
    decreases d - k
  {
    if k >= d || place < Reach(s, width, k) then k else LevelFor(s, d, width, place, k + 1)
  }

  /** The earliest place, with `d` slow-downs at most, of a window's start that has
      `n` before it. */
  function Place(s: Settings, d: nat, width: nat, n: nat): nat {
    if n == 0 then 0 else
      var before := Place(s, d, width, n - 1);
      before + IntervalAt(s, LevelFor(s, d, width, before, 0))
  }

  /** No deeper slow-down reaches less far. */
  lemma ReachClimbs(s: Settings, width: nat, k: nat, m: nat)
    requires k <= m
    ensures Reach(s, width, k) <= Reach(s, width, m)
  {
    IntervalsClimb(s, k, m);
    MulMono(IntervalAt(s, k), IntervalAt(s, m), s.burst - 1);
  }

  lemma {:induction false} LevelIsLeast(s: Settings, d: nat, width: nat, place: int, k: nat, m: nat)
    requires k <= m <= d && place < Reach(s, width, m)
    ensures LevelFor(s, d, width, place, k) <= m
    ensures place < Reach(s, width, LevelFor(s, d, width, place, k))
    decreases m - k
  {
    if k < m && place >= Reach(s, width, k) {
      LevelIsLeast(s, d, width, place, k + 1, m);
    }
  }

  /** A start placed no earlier, at any depth, ends no earlier either. */
  lemma NoEarlier(s: Settings, d: nat, width: nat, place: int, other: int, k: nat)
    requires place <= other < Reach(s, width, k) && k <= d
    ensures place + IntervalAt(s, LevelFor(s, d, width, place, 0)) <= other + IntervalAt(s, k)
    ensures place < Reach(s, width, d)
  {
    LevelIsLeast(s, d, width, place, 0, k);
    IntervalsClimb(s, LevelFor(s, d, width, place, 0), k);
    ReachClimbs(s, width, k, d);
  }

  // ─── No run does better ─────────────────────────────────────────────────

  ghost predicate OnLevel(s: Settings, interval: nat) {
    exists k: nat :: k <= Depth(s) && interval == IntervalAt(s, k)
  }

  ghost predicate AllOnLevel(s: Settings, slots: seq<Slot>) {
    forall i :: 0 <= i < |slots| ==> OnLevel(s, slots[i].interval)
  }

  ghost predicate Placed(s: Settings, slots: seq<Slot>) {
    AllOk(s, slots) && Apart(slots) && AllOnLevel(s, slots)
  }

  lemma FrontPlaced(s: Settings, slots: seq<Slot>)
    requires Placed(s, slots) && slots != []
    ensures Placed(s, Front(slots)) && SlotOk(s, Last(slots)) && OnLevel(s, Last(slots).interval)
    ensures forall i :: 0 <= i < |slots| - 1 && slots[i].live ==> slots[i].end <= Last(slots).base
  {
  }

  /** The window's starts, in the order of their slots, are placed no earlier. */
  lemma {:induction false} NoneEarlier(s: Settings, slots: seq<Slot>, from: int, width: nat) returns (last: nat)
    requires Placed(s, slots) && Count(slots, from, width) > 0
    ensures last < |slots| && Within(slots[last], from, width)
    ensures slots[last].end >= from + Place(s, Depth(s), width, Count(slots, from, width))
    ensures Place(s, Depth(s), width, Count(slots, from, width) - 1) < Reach(s, width, Depth(s))
  {
    var front, x := Front(slots), Last(slots);
    var c := Count(front, from, width);
    FrontPlaced(s, slots);
    if c > 0 {
      last := NoneEarlier(s, front, from, width);
    }
    if Within(x, from, width) {
      assert x.base >= from + Place(s, Depth(s), width, c);
      PlacedLater(s, x, from, width, c);
      last := |slots| - 1;
    }
  }

  lemma PlacedLater(s: Settings, x: Slot, from: int, width: nat, c: nat)
    requires SlotOk(s, x) && OnLevel(s, x.interval) && Within(x, from, width) && x.base >= from + Place(s, Depth(s), width, c)
    ensures x.end >= from + Place(s, Depth(s), width, c + 1) && Place(s, Depth(s), width, c) < Reach(s, width, Depth(s))
  {
    var k: nat :| k <= Depth(s) && x.interval == IntervalAt(s, k);
    NoEarlier(s, Depth(s), width, Place(s, Depth(s), width, c), x.base - from, k);
    MulMono(1, x.cost, x.interval);
  }

  /** The bucket's divisor is as many slow-downs deep as can be in force together. */
  ghost predicate DivisorOnLevel(s: Settings, d: nat) {
    exists k: nat :: k <= Depth(s) && d == Power(s.factor, k)
  }

  lemma {:induction false} DividePower(f: Factor, k: nat, n: nat)
    ensures Divide(Power(f, k), f, n) == Power(f, if n <= k then k - n else 0)
    decreases n
  {
    if n > 0 {
      if k == 0 {
        DivideOne(f, n);
      } else {
        PowerDoubles(f, k - 1);
        QuotientIs(Power(f, k), f, Power(f, k - 1), 0);
        DividePower(f, k - 1, n - 1);
      }
    }
  }

  lemma CatchUpOnLevel(s: Settings, b: Bucket, now: int)
    requires DivisorOnLevel(s, b.divisor)
    ensures DivisorOnLevel(s, CatchUp(s, b, now).divisor)
  {
    var back := if now < b.seen then StepBack(b, now) else b;
    var steps := Min(Elapsed(back.since, now) / s.recovery, U32_MAX);
    var k: nat :| k <= Depth(s) && b.divisor == Power(s.factor, k);
    DividePower(s.factor, k, Min(steps, MAX_STEPS));
  }

  lemma SlowOnLevel(s: Settings, b: Bucket, now: int)
    requires !NeverSlows(s) && s.recovery > s.spacing && s.rate < U32_MAX && DivisorOnLevel(s, b.divisor)
    ensures DivisorOnLevel(s, Slow(s, s.rate, b, now).divisor)
  {
    var k: nat :| k <= Depth(s) && b.divisor == Power(s.factor, k);
    if SaturatingMul(b.divisor, s.factor) <= s.rate {
      PowerDoubles(s.factor, k);
      ProductFits(b.divisor, s.factor);
      if k == Depth(s) {
        assert false;
      }
      assert Slow(s, s.rate, b, now).divisor == Power(s.factor, k + 1);
    }
  }

  lemma FreshOnLevel(s: Settings)
    ensures DivisorOnLevel(s, 1) && (!NeverSlows(s) && s.recovery <= s.spacing ==> DivisorOnLevel(s, s.factor))
  {
    assert Power(s.factor, 0) == 1;
    assert Power(s.factor, 1) == s.factor * Power(s.factor, 0);
  }

  lemma {:induction false} RunOnLevel(s: Settings, ops: seq<Op>)
    requires OneRate(ops) && (NeverSlows(s) || s.recovery <= s.spacing || s.rate < U32_MAX)
    ensures DivisorOnLevel(s, BucketAt(Play(s, ops), 0).divisor)
  {
    FreshOnLevel(s);
    SteadyRun(s, ops);
    if NeverSlows(s) {
    } else if s.recovery <= s.spacing {
      StaysShallow(s, ops);
    } else if ops != [] {
      var run, op := Play(s, Front(ops)), Last(ops);
      RunOnLevel(s, Front(ops));
      SteadyRun(s, Front(ops));
      match op
      case OpReserve(now, _) => CatchUpOnLevel(s, BucketAt(run, now), now);
      case OpRelease(id) =>
        if run.bucket.Some? {
          UnbookKeepsRest(run.bucket.value.(booked := Mark(run.bucket.value.booked, id)));
        }
      case OpSlowDown(now) =>
        CatchUpOnLevel(s, BucketAt(run, now), now);
        SlowOnLevel(s, CatchUp(s, BucketAt(run, now), now), now);
      case OpSetRate(_) =>
    }
  }

  lemma {:induction false} SlotsOnLevel(s: Settings, ops: seq<Op>)
    requires OneRate(ops) && (NeverSlows(s) || s.recovery <= s.spacing || s.rate < U32_MAX)
    ensures forall i :: 0 <= i < |Play(s, ops).slots| ==> OnLevel(s, Play(s, ops).slots[i].interval)
  {
    if ops != [] {
      var run, op := Play(s, Front(ops)), Last(ops);
      SlotsOnLevel(s, Front(ops));
      if op.OpReserve? {
        RunOnLevel(s, Front(ops));
        SteadyRun(s, Front(ops));
        CatchUpOnLevel(s, BucketAt(run, op.now), op.now);
        IntervalOnLevel(s, CatchUp(s, BucketAt(run, op.now), op.now).divisor);
      }
    }
  }

  lemma IntervalOnLevel(s: Settings, d: nat)
    requires DivisorOnLevel(s, d)
    ensures OnLevel(s, Interval(s.rate, d))
  {
    var k: nat :| k <= Depth(s) && d == Power(s.factor, k);
    assert Interval(s.rate, d) == IntervalAt(s, k);
  }

  /** In every run at the configured rate, a window's last start is placed within
      reach, and so no earlier than the earliest place for it. */
  lemma NoMoreStarts(s: Settings, ops: seq<Op>, from: int, width: nat)
    requires OneRate(ops) && (NeverSlows(s) || s.recovery <= s.spacing || s.rate < U32_MAX)
    requires Count(Play(s, ops).slots, from, width) > 0
    ensures Place(s, Depth(s), width, Count(Play(s, ops).slots, from, width) - 1) < Reach(s, width, Depth(s))
  {
    PlayKeeps(s, ops);
    SlotsOnLevel(s, ops);
    var last := NoneEarlier(s, Play(s, ops).slots, from, width);
  }

  // ─── Some run does as well ──────────────────────────────────────────────

  /** When the `k`-th of slow-downs a spacing apart comes, the first at once. */
  function At(s: Settings, k: nat): nat { if k == 0 then 0 else Times(k - 1, s.spacing) }

  /** So many slow-downs can come within the window. */
  predicate Fast(s: Settings, d: nat, width: nat) { d <= Depth(s) && At(s, d) < width }

  lemma {:induction false} PowersClimb(f: Factor, k: nat, m: nat)
    requires k <= m
    ensures 1 <= Power(f, k) <= Power(f, m)
    decreases m
  {
    if k < m {
      PowersClimb(f, k, m - 1);
      PowerDoubles(f, m - 1);
    } else {
      PowerIsPositive(f, k);
    }
  }

  lemma {:induction false} TimesClimb(k: nat, m: nat, i: nat)
    requires k <= m
    ensures Times(k, i) <= Times(m, i)
    decreases m
  {
    if k < m {
      TimesClimb(k, m - 1, i);
    }
  }

  /** Nothing has recovered meanwhile. */
  lemma QuietCatchUp(s: Settings, b: Bucket, now: int)
    requires b.seen <= now && b.since <= now && (b.divisor == 1 || now - b.since < s.recovery)
    ensures CatchUp(s, b, now) == b.(seen := now, booked := DropPast(b.booked, now))
  {
    if b.divisor != 1 {
      QuotientIs(now - b.since, s.recovery, 0, now - b.since);
    }
  }

  /** The run has booked `n` slots that start within the window, the last of its
      `k` slow-downs has just come, and the next slot's place is `due`. */
  ghost predicate Climbed(s: Settings, width: nat, run: Run, n: nat, k: nat, due: int) {
    && run.rate == s.rate && run.skew == 0 && |run.slots| == n
    && (forall i :: 0 <= i < n ==> Within(run.slots[i], 0, width))
    && var b := BucketAt(run, 0);
       && b.due == due && b.divisor == Power(s.factor, k) && b.seen == b.since == At(s, k)
       && b.slowed == if k == 0 then None else Some(At(s, k))
  }

  lemma BookOneMore(s: Settings, width: nat, run: Run, n: nat, k: nat, due: int)
    requires Climbed(s, width, run, n, k, due) && At(s, k) <= due < Reach(s, width, k) && At(s, k) < width
    ensures Climbed(s, width, Step(s, run, OpReserve(At(s, k), 1)), n + 1, k, due + IntervalAt(s, k))
  {
    var now := At(s, k);
    var b, next := BucketAt(run, now), Step(s, run, OpReserve(now, 1));
    QuietCatchUp(s, b, now);
    assert forall i :: 0 <= i < n ==> next.slots[i] == run.slots[i];
    assert next.slots[n].start == Max(due - IntervalAt(s, k) * (s.burst - 1), now);
  }

  lemma SlowOneMore(s: Settings, width: nat, run: Run, n: nat, k: nat, due: int)
    requires Climbed(s, width, run, n, k, due) && k < Depth(s)
    ensures Climbed(s, width, Step(s, run, OpSlowDown(At(s, k + 1))), n, k + 1, due)
  {
    var now := At(s, k + 1);
    var b := BucketAt(run, 0);
    assert BucketAt(run, now) == b by {
      assert k == 0 || run.bucket.Some?;
    }
    QuietCatchUp(s, b, now);
    PowersClimb(s.factor, k + 1, Depth(s));
    PowerDoubles(s.factor, k);
    ProductFits(b.divisor, s.factor);
  }

  /** What a sequence of operations, no rate change among them, has come to. */
  ghost predicate ClimbedBy(s: Settings, width: nat, ops: seq<Op>, n: nat, k: nat, due: int) {
    OneRate(ops) && Climbed(s, width, Play(s, ops), n, k, due)
  }

  lemma BookAfter(s: Settings, width: nat, ops: seq<Op>, n: nat, k: nat, due: int)
    requires ClimbedBy(s, width, ops, n, k, due) && At(s, k) <= due < Reach(s, width, k) && At(s, k) < width
    ensures ClimbedBy(s, width, ops + [OpReserve(At(s, k), 1)], n + 1, k, due + IntervalAt(s, k))
  {
    PlaySnoc(s, ops, OpReserve(At(s, k), 1));
    BookOneMore(s, width, Play(s, ops), n, k, due);
  }

  lemma SlowAfter(s: Settings, width: nat, ops: seq<Op>, n: nat, k: nat, due: int)
    requires 0 < k <= Depth(s) && ClimbedBy(s, width, ops, n, k - 1, due)
    ensures ClimbedBy(s, width, ops + [OpSlowDown(At(s, k))], n, k, due)
  {
    PlaySnoc(s, ops, OpSlowDown(At(s, k)));
    SlowOneMore(s, width, Play(s, ops), n, k - 1, due);
  }

  /** The operations, and then the slow-downs that lead from `k` to `m`. */
  function Slowing(s: Settings, ops: seq<Op>, k: nat, m: nat): seq<Op> {
    if m <= k then ops else Slowing(s, ops, k, m - 1) + [OpSlowDown(At(s, m))]
  }

  lemma {:induction false} SlowingClimbs(s: Settings, width: nat, ops: seq<Op>, n: nat, k: nat, m: nat, due: int)
    requires ClimbedBy(s, width, ops, n, k, due) && k <= m <= Depth(s)
    ensures ClimbedBy(s, width, Slowing(s, ops, k, m), n, m, due)
    decreases m
  {
    if k < m {
      SlowingClimbs(s, width, ops, n, k, m - 1, due);
      SlowAfter(s, width, Slowing(s, ops, k, m - 1), n, m, due);
    }
  }

  /** How many slow-downs are in force when `n` slots have been booked in the
      earliest places. */
  function LevelAfter(s: Settings, d: nat, width: nat, n: nat): nat {
    if n == 0 then 0 else LevelFor(s, d, width, Place(s, d, width, n - 1), 0)
  }

  /** Reservations in the earliest places, slowed down only where they must be. */
  function Tight(s: Settings, d: nat, width: nat, n: nat): seq<Op> {
    if n == 0 then [] else
      Slowing(s, Tight(s, d, width, n - 1), LevelAfter(s, d, width, n - 1), LevelAfter(s, d, width, n))
      + [OpReserve(At(s, LevelAfter(s, d, width, n)), 1)]
  }

  lemma {:induction false} LevelMonotone(s: Settings, d: nat, width: nat, place: int, other: int, k: nat)
    requires place <= other
    ensures LevelFor(s, d, width, place, k) <= LevelFor(s, d, width, other, k)
    decreases d - k
  {
    if k < d {
      LevelMonotone(s, d, width, place, other, k + 1);
    }
  }

  lemma LevelsRise(s: Settings, d: nat, width: nat, n: nat)
    requires n > 0
    ensures LevelAfter(s, d, width, n - 1) <= LevelAfter(s, d, width, n) <= d
    ensures n > 1 ==> Place(s, d, width, n - 2) <= Place(s, d, width, n - 1)
  {
    if n > 1 {
      LevelMonotone(s, d, width, Place(s, d, width, n - 2), Place(s, d, width, n - 1), 0);
    }
  }

  /** A place that needs a slow-down is past the window's width. */
  lemma PastWidth(s: Settings, d: nat, width: nat, place: nat)
    requires Fast(s, d, width) && place < Reach(s, width, d)
    ensures var k := LevelFor(s, d, width, place, 0);
            At(s, k) <= place < Reach(s, width, k) && At(s, k) < width
  {
    var k := LevelFor(s, d, width, place, 0);
    LevelIsLeast(s, d, width, place, 0, d);
    AtClimbs(s, k, d);
    if k > 0 {
      SlowedPastWidth(s, d, width, place);
    }
  }

  lemma SlowedPastWidth(s: Settings, d: nat, width: nat, place: nat)
    requires LevelFor(s, d, width, place, 0) > 0
    ensures place >= width
  {
    MulMono(0, IntervalAt(s, 0), s.burst - 1);
  }

  lemma AtClimbs(s: Settings, k: nat, d: nat)
    requires k <= d
    ensures At(s, k) <= At(s, d)
  {
    if k > 0 {
      TimesClimb(k - 1, d - 1, s.spacing);
    }
  }

  lemma {:induction false} TightRun(s: Settings, d: nat, width: nat, n: nat)
    requires Fast(s, d, width) && (n > 0 ==> Place(s, d, width, n - 1) < Reach(s, width, d))
    ensures ClimbedBy(s, width, Tight(s, d, width, n), n, LevelAfter(s, d, width, n), Place(s, d, width, n))
  {
    if n > 0 {
      var k, m, place := LevelAfter(s, d, width, n - 1), LevelAfter(s, d, width, n), Place(s, d, width, n - 1);
      LevelsRise(s, d, width, n);
      TightRun(s, d, width, n - 1);
      SlowingClimbs(s, width, Tight(s, d, width, n - 1), n - 1, k, m, place);
      PastWidth(s, d, width, place);
      BookAfter(s, width, Slowing(s, Tight(s, d, width, n - 1), k, m), n - 1, m, place);
    } else {
      NothingBooked(s, width);
    }
  }

  lemma NothingBooked(s: Settings, width: nat)
    ensures ClimbedBy(s, width, [], 0, 0, 0)
  {
  }

  /** When slow-downs can come fast enough, every place within reach is some run's. */
  lemma MostIsReached(s: Settings, d: nat, width: nat, n: nat)
    requires Fast(s, d, width) && (n > 0 ==> Place(s, d, width, n - 1) < Reach(s, width, d))
    ensures OneRate(Tight(s, d, width, n)) && Count(Play(s, Tight(s, d, width, n)).slots, 0, width) == n
  {
    TightRun(s, d, width, n);
    CountAll(Play(s, Tight(s, d, width, n)).slots, 0, width);
  }

  // ─── The promise for one second, at any rate ────────────────────────────

  /** The start that would be one too many is placed out of reach. */
  predicate OutOfReach(s: Settings, d: nat) {
    Place(s, d, NANOS_PER_SECOND, s.rate + s.burst - 1) >= Reach(s, NANOS_PER_SECOND, d)
  }

  lemma {:induction false} PlacesClimb(s: Settings, d: nat, width: nat, k: nat, m: nat)
    requires k <= m
    ensures Place(s, d, width, k) <= Place(s, d, width, m)
    decreases m
  {
    if k < m {
      PlacesClimb(s, d, width, k, m - 1);
    }
  }

  /** With so many slow-downs within the second, the start that would be one too
      many is booked within reach. */
  lemma TooManyWithinReach(s: Settings, d: nat)
    requires Fast(s, d, NANOS_PER_SECOND) && !OutOfReach(s, d)
    ensures !KeepsOneSecond(s)
  {
    MostIsReached(s, d, NANOS_PER_SECOND, s.rate + s.burst);
  }

  /** At any rate, a number whose divisor does not wrap around holds at most
      `burst - 1` starts above its rate in any one second if the start that would
      be one too many is out of reach however deep it is slowed down; and only if
      it is out of reach with as many slow-downs as can come within the second.
      When all can, that is if and only if. */
  lemma OneSecondAtAnyRate(s: Settings, d: nat)
    requires NeverSlows(s) || s.recovery <= s.spacing || s.rate < U32_MAX
    ensures OutOfReach(s, Depth(s)) ==> KeepsOneSecond(s)
    ensures KeepsOneSecond(s) && Fast(s, d, NANOS_PER_SECOND) ==> OutOfReach(s, d)
    ensures Fast(s, Depth(s), NANOS_PER_SECOND) ==> (KeepsOneSecond(s) <==> OutOfReach(s, Depth(s)))
  {
    var n := s.rate + s.burst - 1;
    if OutOfReach(s, Depth(s)) {
      forall ops, from | OneRate(ops)
        ensures Count(Play(s, ops).slots, from, NANOS_PER_SECOND) <= n
      {
        var c := Count(Play(s, ops).slots, from, NANOS_PER_SECOND);
        if c > n {
          NoMoreStarts(s, ops, from, NANOS_PER_SECOND);
          PlacesClimb(s, Depth(s), NANOS_PER_SECOND, n, c - 1);
        }
      }
    } else if Fast(s, Depth(s), NANOS_PER_SECOND) {
      TooManyWithinReach(s, Depth(s));
    }
    if Fast(s, d, NANOS_PER_SECOND) && !OutOfReach(s, d) {
      TooManyWithinReach(s, d);
    }
  }

  // ─── The promise for every window ───────────────────────────────────────

  lemma EarlyStart(i: nat, j: nat, burst: nat)
    requires 0 < i < j && burst > 1
    ensures Times(burst, i) - j * (burst - 1) < i
  {
    TimesAtMost(burst, burst, i);
    MulMono(i + 1, j, burst - 1);
    assert burst * i == i + i * (burst - 1);
  }

  /** After `k - 1` slow-downs and the spacing, `n` slots booked at once that all
      start at once. */
  ghost predicate Gathered(s: Settings, run: Run, k: nat, n: nat) {
    && k > 0 && run.rate == s.rate && run.skew == 0 && |run.slots| == n
    && (forall i :: 0 <= i < n ==> run.slots[i].live && run.slots[i].start == At(s, k))
    && var b := BucketAt(run, 0);
       && Max(b.due, At(s, k)) == At(s, k) + Times(n, IntervalAt(s, k - 1)) && b.divisor == Power(s.factor, k - 1)
       && b.seen <= At(s, k) && b.since == At(s, k - 1)
       && b.slowed == if k == 1 then None else Some(At(s, k - 1))
  }

  lemma GatherFirst(s: Settings, k: nat)
    requires 0 < k <= Depth(s)
    ensures var ops := Slowing(s, [], 0, k - 1); OneRate(ops) && Gathered(s, Play(s, ops), k, 0)
  {
    NothingBooked(s, 1);
    SlowingClimbs(s, 1, [], 0, 0, k - 1, 0);
    AtClimbs(s, k - 1, k);
  }

  lemma QuietAt(s: Settings, b: Bucket, k: nat)
    requires 0 < k <= Depth(s) && b.seen <= At(s, k) && b.since == At(s, k - 1) && b.divisor == Power(s.factor, k - 1)
    ensures CatchUp(s, b, At(s, k)) == b.(seen := At(s, k), booked := DropPast(b.booked, At(s, k)))
  {
    QuietCatchUp(s, b, At(s, k));
  }

  lemma GatherOne(s: Settings, run: Run, k: nat, n: nat)
    requires Gathered(s, run, k, n) && 0 < k <= Depth(s) && n < s.burst
    ensures Gathered(s, Step(s, run, OpReserve(At(s, k), 1)), k, n + 1)
  {
    var now, i := At(s, k), IntervalAt(s, k - 1);
    var b, next := BucketAt(run, 0), Step(s, run, OpReserve(now, 1));
    QuietAt(s, b, k);
    TimesAtMost(n, s.burst - 1, i);
    assert forall j :: 0 <= j < n ==> next.slots[j] == run.slots[j];
    assert next.slots[n].start == Max(now + Times(n, i) - i * (s.burst - 1), now);
  }

  function Gather(s: Settings, k: nat, n: nat): seq<Op>
    requires k > 0
  {
    if n == 0 then Slowing(s, [], 0, k - 1) else Gather(s, k, n - 1) + [OpReserve(At(s, k), 1)]
  }

  lemma {:induction false} GatherAll(s: Settings, k: nat, n: nat)
    requires 0 < k <= Depth(s) && n <= s.burst
    ensures OneRate(Gather(s, k, n)) && Gathered(s, Play(s, Gather(s, k, n)), k, n)
  {
    if n == 0 {
      GatherFirst(s, k);
    } else {
      GatherAll(s, k, n - 1);
      PlaySnoc(s, Gather(s, k, n - 1), OpReserve(At(s, k), 1));
      GatherOne(s, Play(s, Gather(s, k, n - 1)), k, n - 1);
    }
  }

  /** A slow-down then lets one more start before the interval is over. */
  lemma OneMoreStarts(s: Settings, run: Run, k: nat)
    requires Gathered(s, run, k, s.burst) && 0 < k <= Depth(s) && s.burst > 1
    requires IntervalAt(s, k - 1) < IntervalAt(s, k)
    ensures var slots := Step(s, Step(s, run, OpSlowDown(At(s, k))), OpReserve(At(s, k), 1)).slots;
            |slots| == s.burst + 1 && forall j :: 0 <= j <= s.burst ==> Within(slots[j], At(s, k), IntervalAt(s, k - 1))
  {
    var now, i, j := At(s, k), IntervalAt(s, k - 1), IntervalAt(s, k);
    var slowed := Step(s, run, OpSlowDown(now));
    SlowsGathered(s, run, k);
    IntervalsClimb(s, k - 1, k);
    EarlyStart(i, j, s.burst);
    var next := Step(s, slowed, OpReserve(now, 1));
    QuietCatchUp(s, slowed.bucket.value, now);
    assert forall l :: 0 <= l < s.burst ==> next.slots[l] == run.slots[l];
    assert next.slots[s.burst].start == Max(now + Times(s.burst, i) - j * (s.burst - 1), now);
  }

  lemma SlowsGathered(s: Settings, run: Run, k: nat)
    requires Gathered(s, run, k, s.burst) && 0 < k <= Depth(s)
    ensures var next := Step(s, run, OpSlowDown(At(s, k)));
            && next.rate == s.rate && next.skew == 0 && next.slots == run.slots && next.bucket.Some?
            && var b := next.bucket.value;
               && b.due == BucketAt(run, 0).due && b.divisor == Power(s.factor, k) && b.seen == b.since == At(s, k)
  {
    var b := BucketAt(run, 0);
    assert BucketAt(run, At(s, k)) == b by {
      assert k == 1 || run.bucket.Some?;
    }
    QuietAt(s, b, k);
    PowersClimb(s.factor, k, Depth(s));
    PowerDoubles(s.factor, k - 1);
    ProductFits(b.divisor, s.factor);
  }

  /** One start too many within a single interval. */
  lemma BrokenBurst(s: Settings, k: nat)
    requires s.burst > 1 && 0 < k <= Depth(s)
    requires IntervalAt(s, k - 1) == Interval(s.rate, 1) < IntervalAt(s, k)
    ensures !Conforms(s)
  {
    var gather, i, now := Gather(s, k, s.burst), Interval(s.rate, 1), At(s, k);
    var slow := gather + [OpSlowDown(now)];
    var ops := slow + [OpReserve(now, 1)];
    GatherAll(s, k, s.burst);
    PlaySnoc(s, gather, OpSlowDown(now));
    PlaySnoc(s, slow, OpReserve(now, 1));
    OneMoreStarts(s, Play(s, gather), k);
    CountAll(Play(s, ops).slots, now, i);
    IntervalIsLeast(s.rate, 1);
    assert OneRate(ops) && Count(Play(s, ops).slots, now, i) - s.burst == 1;
    assert !((Count(Play(s, ops).slots, now, i) - s.burst) * i < i);
  }

  /** The first slow-down that lengthens the interval, if one does. */
  lemma {:induction false} FirstLonger(s: Settings, m: nat) returns (k: nat)
    requires IntervalAt(s, m) != Interval(s.rate, 1)
    ensures 0 < k <= m && IntervalAt(s, k - 1) == Interval(s.rate, 1) < IntervalAt(s, k)
  {
    IntervalsClimb(s, 0, m);
    assert IntervalAt(s, 0) == Interval(s.rate, 1);
    if IntervalAt(s, m - 1) == Interval(s.rate, 1) {
      k := m;
    } else {
      k := FirstLonger(s, m - 1);
    }
  }

  /** At the largest rate the deepest slow-down before the divisor wraps around
      lengthens the interval. */
  lemma LargestSlows(s: Settings)
    requires !NeverSlows(s) && s.rate == U32_MAX && s.recovery > s.spacing
    ensures IntervalAt(s, Depth(s)) != Interval(s.rate, 1)
  {
    var n := Depth(s);
    assert Power(s.factor, 1) == s.factor * Power(s.factor, 0);
    PowerDoubles(s.factor, n);
    if n > 0 {
      PowersClimb(s.factor, 1, n);
    }
    assert Power(s.factor, n) >= 5 by {
      if Power(s.factor, n) < 5 {
        MulMono(Power(s.factor, n), 4, s.factor);
      }
    }
    DivisorMonotone(s.rate, 5, Power(s.factor, n));
    assert Interval(U32_MAX, 5) == 2 && Interval(U32_MAX, 1) == 1;
  }

  lemma SameIntervals(s: Settings, ops: seq<Op>)
    requires OneRate(ops) && IntervalAt(s, Depth(s)) == Interval(s.rate, 1)
    requires NeverSlows(s) || s.recovery <= s.spacing || s.rate < U32_MAX
    ensures IntervalsIn(Play(s, ops).slots, Interval(s.rate, 1), Interval(s.rate, 1))
  {
    SlotsOnLevel(s, ops);
    forall i | 0 <= i < |Play(s, ops).slots|
      ensures Play(s, ops).slots[i].interval == Interval(s.rate, 1)
    {
      var k: nat :| k <= Depth(s) && Play(s, ops).slots[i].interval == IntervalAt(s, k);
      IntervalsClimb(s, 0, k);
      IntervalsClimb(s, k, Depth(s));
      assert IntervalAt(s, 0) == Interval(s.rate, 1);
    }
  }

  /** Exactly which buckets keep, in windows of every width and at every rate, the
      promise of their burst at the configured rate: those of one, and those whose
      interval no slow-down lengthens. */
  lemma ConformsExactly(s: Settings)
    ensures Conforms(s) <==> s.burst == 1 || IntervalAt(s, Depth(s)) == Interval(s.rate, 1)
  {
    if s.burst > 1 && IntervalAt(s, Depth(s)) != Interval(s.rate, 1) {
      var k := FirstLonger(s, Depth(s));
      BrokenBurst(s, k);
    } else {
      forall ops, from, width | OneRate(ops) && width > 0
        ensures (Count(Play(s, ops).slots, from, width) - s.burst) * Interval(s.rate, 1) < width
      {
        SteadyConforms(s, ops, from, width);
      }
    }
  }

  lemma SteadyConforms(s: Settings, ops: seq<Op>, from: int, width: nat)
    requires OneRate(ops) && width > 0 && (s.burst == 1 || IntervalAt(s, Depth(s)) == Interval(s.rate, 1))
    ensures (Count(Play(s, ops).slots, from, width) - s.burst) * Interval(s.rate, 1) < width
  {
    if s.burst == 1 {
      SteadyWindow(s, ops, from, width);
    } else {
      if !NeverSlows(s) && s.recovery > s.spacing && s.rate >= U32_MAX {
        LargestSlows(s);
      }
      SameIntervals(s, ops);
      WindowCount(s, ops, from, width, Interval(s.rate, 1), Interval(s.rate, 1));
      LessTolerance(Count(Play(s, ops).slots, from, width), Interval(s.rate, 1), Interval(s.rate, 1), s.burst, width);
    }
  }
}
