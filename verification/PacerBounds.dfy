/**
 How many sends any window of a whole run can hold, over every sequence of
 reservations, slots given back, slow-downs and rate changes, on any clock.
 Windows are of re-based time, and hold slot starts: when a caller was told it
 may start, not when it woke.
 */
module PacerBounds {
  import opened Basics
  import opened Schedule
  import opened PacerRun

  /** A slot not given back that starts in the window `[from, from + width)`. */
  predicate Within(t: Slot, from: int, width: nat) {
    t.live && from <= t.start < from + width
  }

  function Count(slots: seq<Slot>, from: int, width: nat): nat {
    if slots == [] then 0 else
      Count(slots[..|slots| - 1], from, width) + if Within(slots[|slots| - 1], from, width) then 1 else 0
  }

  /** The sends those slots cost together. */
  function Load(slots: seq<Slot>, from: int, width: nat): nat {
    if slots == [] then 0 else
      Load(slots[..|slots| - 1], from, width) +
      if Within(slots[|slots| - 1], from, width) then slots[|slots| - 1].cost else 0
  }

  /** No slot of the window comes after that one. */
  ghost predicate IsLastWithin(slots: seq<Slot>, last: nat, from: int, width: nat) {
    && last < |slots| && Within(slots[last], from, width)
    && forall k :: last < k < |slots| ==> !Within(slots[k], from, width)
  }

  ghost predicate IntervalsIn(slots: seq<Slot>, lo: nat, hi: nat) {
    forall i :: 0 <= i < |slots| ==> lo <= slots[i].interval <= hi
  }

  lemma SpanStep(load: nat, cost: nat, lo: nat, interval: nat, gone: int)
    requires cost <= load && lo <= interval && (load - cost) * lo <= gone
    ensures load * lo <= gone + interval * cost
  {
    MulMono(lo, interval, cost);
    assert load * lo == (load - cost) * lo + lo * cost;
  }

  /** The slots of a window, laid end to end, lie between the first and the
      last one's place in the schedule. */
  lemma {:induction false} Span(s: Settings, slots: seq<Slot>, from: int, width: nat, lo: nat, hi: nat)
    returns (first: nat, last: nat)
    requires AllOk(s, slots) && Apart(slots) && IntervalsIn(slots, lo, hi)
    requires Count(slots, from, width) > 0
    ensures first <= last && IsLastWithin(slots, last, from, width) && Within(slots[first], from, width)
    ensures Count(slots, from, width) - 1 <= Load(slots, from, width) - slots[last].cost
    ensures (Load(slots, from, width) - slots[last].cost) * lo <= slots[last].base - slots[first].base
  {
    var front, x := slots[..|slots| - 1], slots[|slots| - 1];
    assert AllOk(s, front);
    if Count(front, from, width) == 0 {
      first, last := |slots| - 1, |slots| - 1;
      NothingWeighsNothing(front, from, width);
    } else {
      first, last := Span(s, front, from, width, lo, hi);
      assert forall k :: last < k < |front| ==> slots[k] == front[k];
      if Within(x, from, width) {
        var y := slots[last];
        assert y.end <= x.base && y.end == y.base + y.interval * y.cost;
        SpanStep(Load(front, from, width), y.cost, lo, y.interval, y.base - slots[first].base);
        last := |slots| - 1;
      }
    }
  }

  lemma {:induction false} NothingWeighsNothing(slots: seq<Slot>, from: int, width: nat)
    requires Count(slots, from, width) == 0
    ensures Load(slots, from, width) == 0
  {
    if slots != [] {
      NothingWeighsNothing(slots[..|slots| - 1], from, width);
    }
  }

  lemma SpanBound(s: Settings, slots: seq<Slot>, from: int, width: nat, lo: nat, hi: nat) returns (last: nat)
    requires AllOk(s, slots) && Apart(slots) && IntervalsIn(slots, lo, hi) && Count(slots, from, width) > 0
    ensures IsLastWithin(slots, last, from, width)
    ensures Count(slots, from, width) - 1 <= Load(slots, from, width) - slots[last].cost
    ensures (Load(slots, from, width) - slots[last].cost) * lo < width + hi * (s.burst - 1)
  {
    var first, l := Span(s, slots, from, width, lo, hi);
    last := l;
    MulMono(slots[last].interval, hi, s.burst - 1);
    assert slots[first].start <= slots[first].base;
    assert slots[last].base <= slots[last].start + slots[last].interval * (s.burst - 1);
  }

  /** The bound of any window of any run: with every interval between `lo` and
      `hi`, the sends the window's slots cost, but for its last slot's, take
      less than the window's width and the burst's tolerance together. */
  lemma WindowBound(s: Settings, ops: seq<Op>, from: int, width: nat, lo: nat, hi: nat) returns (last: nat)
    requires IntervalsIn(Play(s, ops).slots, lo, hi)
    requires Count(Play(s, ops).slots, from, width) > 0
    ensures var slots := Play(s, ops).slots;
            && IsLastWithin(slots, last, from, width)
            && Count(slots, from, width) - 1 <= Load(slots, from, width) - slots[last].cost
            && (Load(slots, from, width) - slots[last].cost) * lo < width + hi * (s.burst - 1)
  {
    PlayKeeps(s, ops);
    last := SpanBound(s, Play(s, ops).slots, from, width, lo, hi);
  }

  lemma FewerThanLoad(n: nat, load: nat, lo: nat, limit: int)
    requires n <= load && load * lo < limit
    ensures n * lo < limit
  {
    MulMono(n, load, lo);
  }

  lemma NoneIsLess(interval: nat, burst: Positive, width: nat)
    requires width > 0
    ensures 0 < width + interval * (burst - 1)
  {
    MulMono(0, interval, burst - 1);
  }

  /** The same bound on how many slots the window holds. */
  lemma WindowCount(s: Settings, ops: seq<Op>, from: int, width: nat, lo: nat, hi: nat)
    requires IntervalsIn(Play(s, ops).slots, lo, hi) && width > 0
    ensures (Count(Play(s, ops).slots, from, width) - 1) * lo < width + hi * (s.burst - 1)
  {
    var n := Count(Play(s, ops).slots, from, width);
    if n > 0 {
      var last := WindowBound(s, ops, from, width, lo, hi);
      FewerThanLoad(n - 1, Load(Play(s, ops).slots, from, width) - Play(s, ops).slots[last].cost, lo, width + hi * (s.burst - 1));
    } else {
      NoneIsLess(hi, s.burst, width);
    }
  }

  // ─── The intervals of a run ─────────────────────────────────────────────

  /** Every rate configured in the run is at most `top`. */
  ghost predicate RatesAtMost(s: Settings, ops: seq<Op>, top: Rate) {
    s.rate <= top && forall i :: 0 <= i < |ops| && ops[i].OpSetRate? ==> ops[i].rate <= top
  }

  lemma {:induction false} IntervalsAtLeast(s: Settings, ops: seq<Op>, top: Rate)
    requires RatesAtMost(s, ops, top)
    ensures Play(s, ops).rate <= top
    ensures forall i :: 0 <= i < |Play(s, ops).slots| ==> Interval(top, 1) <= Play(s, ops).slots[i].interval
  {
    if ops != [] {
      var before, op := ops[..|ops| - 1], ops[|ops| - 1];
      IntervalsAtLeast(s, before, top);
      var run := Play(s, before);
      if op.OpReserve? {
        IntervalMonotone(run.rate, CatchUp(s, BucketAt(run, op.now), op.now).divisor, top);
      }
    }
  }

  function MaxInterval(slots: seq<Slot>): nat {
    if slots == [] then 0 else Max(MaxInterval(slots[1..]), slots[0].interval)
  }

  lemma {:induction false} MaxIntervalIsMost(slots: seq<Slot>)
    ensures forall i :: 0 <= i < |slots| ==> slots[i].interval <= MaxInterval(slots)
  {
    if slots != [] {
      MaxIntervalIsMost(slots[1..]);
      assert forall i :: 1 <= i < |slots| ==> slots[i] == slots[1..][i - 1];
    }
  }

  lemma NoTolerance(interval: nat, burst: nat)
    requires burst == 1
    ensures interval * (burst - 1) == 0
  {
  }

  lemma FewerThanRate(n: int, interval: nat, rate: nat, width: nat)
    requires n * interval < width <= interval * rate
    ensures n < rate
  {
    if n >= rate {
      MulMono(rate, n, interval);
    }
  }

  /** With a burst of one, no one-second window of any run holds more slot
      starts than the highest rate configured, whatever was given back, slowed
      down, recovered or changed meanwhile, and whatever the clock did. */
  lemma RateBound(s: Settings, ops: seq<Op>, top: Rate, from: int)
    requires s.burst == 1 && RatesAtMost(s, ops, top)
    ensures Count(Play(s, ops).slots, from, NANOS_PER_SECOND) <= top
  {
    var slots := Play(s, ops).slots;
    IntervalsAtLeast(s, ops, top);
    MaxIntervalIsMost(slots);
    WindowCount(s, ops, from, NANOS_PER_SECOND, Interval(top, 1), MaxInterval(slots));
    NoTolerance(MaxInterval(slots), s.burst);
    IntervalIsLeast(top, 1);
    FewerThanRate(Count(slots, from, NANOS_PER_SECOND) - 1, Interval(top, 1), top, NANOS_PER_SECOND);
  }

  /** The same bound on the sends those slots cost, but for the last slot's. */
  lemma CostBound(s: Settings, ops: seq<Op>, top: Rate, from: int) returns (last: nat)
    requires s.burst == 1 && RatesAtMost(s, ops, top)
    requires Count(Play(s, ops).slots, from, NANOS_PER_SECOND) > 0
    ensures IsLastWithin(Play(s, ops).slots, last, from, NANOS_PER_SECOND)
    ensures Load(Play(s, ops).slots, from, NANOS_PER_SECOND) - Play(s, ops).slots[last].cost < top
  {
    var slots := Play(s, ops).slots;
    var lo := Interval(top, 1);
    IntervalsAtLeast(s, ops, top);
    MaxIntervalIsMost(slots);
    last := WindowBound(s, ops, from, NANOS_PER_SECOND, lo, MaxInterval(slots));
    NoTolerance(MaxInterval(slots), s.burst);
    IntervalIsLeast(top, 1);
    FewerThanRate(Load(slots, from, NANOS_PER_SECOND) - slots[last].cost, lo, top, NANOS_PER_SECOND);
  }

  // ─── Bursts ─────────────────────────────────────────────────────────────

  /** No rate change in the run. */
  ghost predicate OneRate(ops: seq<Op>) {
    forall i :: 0 <= i < |ops| ==> !ops[i].OpSetRate?
  }

  /** The generic cell rate algorithm's promise, at the configured rate: any
      window holds fewer starts than its width in intervals, and the burst. */
  ghost predicate Conforms(s: Settings) {
    forall ops, from, width ::
      OneRate(ops) && width > 0 ==>
        (Count(Play(s, ops).slots, from, width) - s.burst) * Interval(s.rate, 1) < width
  }

  /** No slow-down can divide the configured rate. */
  predicate NeverSlows(s: Settings) { !s.adaptive || s.factor > s.rate }

  lemma {:induction false} SteadyRun(s: Settings, ops: seq<Op>)
    requires OneRate(ops)
    ensures Play(s, ops).rate == s.rate
    ensures NeverSlows(s) ==> BucketAt(Play(s, ops), 0).divisor == 1
    ensures NeverSlows(s) ==> IntervalsIn(Play(s, ops).slots, Interval(s.rate, 1), Interval(s.rate, 1))
  {
    if ops != [] {
      var before, op := ops[..|ops| - 1], ops[|ops| - 1];
      SteadyRun(s, before);
      if NeverSlows(s) {
        var run := Play(s, before);
        if op.OpReserve? {
          assert CatchUp(s, BucketAt(run, op.now), op.now).divisor == 1;
        } else if op.OpRelease? && run.bucket.Some? {
          UnbookKeepsDivisor(run.bucket.value.(booked := Mark(run.bucket.value.booked, op.id)));
        } else if op.OpSlowDown? {
          assert CatchUp(s, BucketAt(run, op.now), op.now).divisor == 1;
        }
      }
    }
  }

  lemma {:induction false} UnbookKeepsDivisor(b: Bucket)
    ensures Unbook(b).divisor == b.divisor
    decreases |b.booked|
  {
    if b.booked != [] {
      UnbookKeepsDivisor(b.(due := b.booked[|b.booked| - 1].base, booked := b.booked[..|b.booked| - 1]));
    }
  }

  /** At a constant interval, a one-second window holds at most `burst - 1`
      starts more than the rate. */
  lemma BurstBound(s: Settings, ops: seq<Op>, from: int)
    requires OneRate(ops) && (s.burst == 1 || NeverSlows(s))
    ensures Count(Play(s, ops).slots, from, NANOS_PER_SECOND) <= s.rate + s.burst - 1
  {
    SteadyWindow(s, ops, from, NANOS_PER_SECOND);
    IntervalIsLeast(s.rate, 1);
    FewerThanRate(Count(Play(s, ops).slots, from, NANOS_PER_SECOND) - s.burst, Interval(s.rate, 1), s.rate, NANOS_PER_SECOND);
  }

  lemma LessTolerance(n: int, interval: nat, hi: nat, burst: Positive, width: int)
    requires (n - 1) * interval < width + hi * (burst - 1)
    requires burst == 1 || hi == interval
    ensures (n - burst) * interval < width
  {
    if burst > 1 {
      assert (n - burst) * interval == (n - 1) * interval - interval * (burst - 1);
    }
  }

  lemma SteadyWindow(s: Settings, ops: seq<Op>, from: int, width: nat)
    requires OneRate(ops) && (s.burst == 1 || NeverSlows(s)) && width > 0
    ensures (Count(Play(s, ops).slots, from, width) - s.burst) * Interval(s.rate, 1) < width
  {
    var slots := Play(s, ops).slots;
    var n, i := Count(slots, from, width), Interval(s.rate, 1);
    var hi := if NeverSlows(s) then i else MaxInterval(slots);
    SteadyRun(s, ops);
    IntervalsAtLeast(s, ops, s.rate);
    MaxIntervalIsMost(slots);
    WindowCount(s, ops, from, width, i, hi);
    LessTolerance(n, i, hi, s.burst, width);
  }

  // ─── When a burst keeps its promise ─────────────────────────────────────

  /** `n` reservations made at once, at time zero. */
  function Queue(n: nat): seq<Op> {
    if n == 0 then [] else Queue(n - 1) + [OpReserve(0, 1)]
  }

  lemma PlaySnoc(s: Settings, ops: seq<Op>, op: Op)
    ensures Play(s, ops + [op]) == Step(s, Play(s, ops), op)
  {
    assert (ops + [op])[..|ops|] == ops;
  }

  /** What a run of reservations at time zero has booked: `n` slots, the
      schedule `due` nanoseconds ahead. */
  ghost predicate Booked(run: Run, n: nat, due: int, divisor: nat) {
    && run.skew == 0 && |run.slots| == n
    && var b := BucketAt(run, 0);
       b.due == due && b.seen == b.since == 0 && b.divisor == divisor
  }

  lemma ReserveAtZero(s: Settings, run: Run, n: nat, due: nat, divisor: nat)
    requires Booked(run, n, due, divisor)
    ensures var i, next := Interval(run.rate, divisor), Step(s, run, OpReserve(0, 1));
            && Booked(next, n + 1, due + i, divisor) && next.rate == run.rate && next.slots[..n] == run.slots
            && next.bucket.Some? && next.bucket.value.slowed == BucketAt(run, 0).slowed
            && next.slots[n].live && next.slots[n].start == Max(due - i * (s.burst - 1), 0)
  {
    var b := BucketAt(run, 0);
    var c := CatchUp(s, b, 0);
    assert c == b.(booked := c.booked);
  }

  lemma SlowAtZero(s: Settings, run: Run, n: nat, due: int)
    requires !NeverSlows(s) && run.rate == s.rate
    requires Booked(run, n, due, 1) && BucketAt(run, 0).slowed.None?
    ensures var next := Step(s, run, OpSlowDown(0));
            Booked(next, n, due, s.factor) && next.rate == run.rate && next.slots == run.slots
  {
  }

  /** When the reservation that has `k` before it may start: at once, until the
      burst's tolerance is used up. */
  function QueueStart(s: Settings, k: nat): int {
    Max(Times(k, Interval(s.rate, 1)) - Interval(s.rate, 1) * (s.burst - 1), 0)
  }

  /** After `n` reservations at time zero. */
  ghost predicate Queued(s: Settings, run: Run, n: nat) {
    && Booked(run, n, Times(n, Interval(s.rate, 1)), 1) && run.rate == s.rate && BucketAt(run, 0).slowed.None?
    && forall k :: 0 <= k < n ==> run.slots[k].live && run.slots[k].start == QueueStart(s, k)
  }

  lemma QueueOneMore(s: Settings, run: Run, n: nat)
    requires Queued(s, run, n)
    ensures Queued(s, Step(s, run, OpReserve(0, 1)), n + 1)
  {
    var next := Step(s, run, OpReserve(0, 1));
    ReserveAtZero(s, run, n, Times(n, Interval(s.rate, 1)), 1);
    assert forall k :: 0 <= k < n ==> next.slots[k] == next.slots[..n][k] == run.slots[k];
  }

  lemma {:induction false} QueueStarts(s: Settings, n: nat)
    ensures OneRate(Queue(n)) && Queued(s, Play(s, Queue(n)), n)
  {
    if n > 0 {
      QueueStarts(s, n - 1);
      PlaySnoc(s, Queue(n - 1), OpReserve(0, 1));
      QueueOneMore(s, Play(s, Queue(n - 1)), n - 1);
    }
  }

  /** `n` times `i`, added up. */
  function Times(n: nat, i: nat): nat {
    if n == 0 then 0 else Times(n - 1, i) + i
  }

  lemma {:induction false} TimesAtMost(n: nat, m: nat, i: nat)
    requires n <= m
    ensures Times(n, i) <= i * m
    ensures Times(n, i) == i * n
  {
    if n > 0 {
      TimesAtMost(n - 1, m, i);
    } else {
      MulMono(0, m, i);
    }
    MulMono(n, m, i);
  }

  /** A burst's worth of slots booked at once, then a slow-down, then one more. */
  function QueueThenSlow(n: nat): seq<Op> {
    Queue(n) + [OpSlowDown(0)] + [OpReserve(0, 1)]
  }

  /** After a slow-down at time zero, the next slot starts early: the burst's
      tolerance has grown with the interval. */
  lemma SlowThenReserve(s: Settings, run: Run, n: nat, due: nat)
    requires !NeverSlows(s) && run.rate == s.rate
    requires Booked(run, n, due, 1) && BucketAt(run, 0).slowed.None?
    ensures var slots := Step(s, Step(s, run, OpSlowDown(0)), OpReserve(0, 1)).slots;
            && |slots| == n + 1 && slots[..n] == run.slots && slots[n].live
            && slots[n].start == Max(due - Interval(s.rate, s.factor) * (s.burst - 1), 0)
  {
    SlowAtZero(s, run, n, due);
    ReserveAtZero(s, Step(s, run, OpSlowDown(0)), n, due, s.factor);
  }

  lemma PlayQueueThenSlow(s: Settings, n: nat)
    ensures Play(s, QueueThenSlow(n)) == Step(s, Step(s, Play(s, Queue(n)), OpSlowDown(0)), OpReserve(0, 1))
  {
    PlaySnoc(s, Queue(n), OpSlowDown(0));
    PlaySnoc(s, Queue(n) + [OpSlowDown(0)], OpReserve(0, 1));
  }

  lemma SlowedStart(s: Settings, n: nat)
    requires !NeverSlows(s)
    ensures OneRate(QueueThenSlow(n))
    ensures var slots := Play(s, QueueThenSlow(n)).slots;
            && |slots| == n + 1 && slots[n].live
            && (forall k :: 0 <= k < n ==> slots[k].live && slots[k].start == QueueStart(s, k))
            && slots[n].start == Max(Times(n, Interval(s.rate, 1)) - Interval(s.rate, s.factor) * (s.burst - 1), 0)
  {
    var queue := Play(s, Queue(n));
    QueueStarts(s, n);
    PlayQueueThenSlow(s, n);
    SlowThenReserve(s, queue, n, Times(n, Interval(s.rate, 1)));
    var slots := Play(s, QueueThenSlow(n)).slots;
    assert forall k :: 0 <= k < n ==> slots[k] == slots[..n][k] == queue.slots[k];
  }

  /** The configured interval is rounded up by less than one part in the rate,
      and a slow-down at least doubles what it covers. */
  lemma SlowerInterval(s: Settings)
    requires !NeverSlows(s) && s.rate <= NANOS_PER_SECOND
    ensures Interval(s.rate, 1) < Interval(s.rate, s.factor)
    ensures NANOS_PER_SECOND <= Interval(s.rate, 1) * s.rate < NANOS_PER_SECOND + s.rate
    ensures 2 * NANOS_PER_SECOND <= Interval(s.rate, s.factor) * s.rate
  {
    var i, j := Interval(s.rate, 1), Interval(s.rate, s.factor);
    IntervalIsLeast(s.rate, 1);
    IntervalIsLeast(s.rate, s.factor);
    assert (i - 1) * s.rate < NANOS_PER_SECOND;
    assert i * s.rate == (i - 1) * s.rate + s.rate;
    if j <= i {
      MulMono(j, i, s.rate);
    }
  }

  lemma {:induction false} CountAll(slots: seq<Slot>, from: int, width: nat)
    requires forall k :: 0 <= k < |slots| ==> Within(slots[k], from, width)
    ensures Count(slots, from, width) == |slots|
  {
    if slots != [] {
      CountAll(slots[..|slots| - 1], from, width);
    }
  }

  // ─── The promise for one second ─────────────────────────────────────────

  /** No one-second window of a run at the configured rate holds more than
      `burst - 1` starts above that rate. */
  ghost predicate KeepsOneSecond(s: Settings) {
    forall ops, from :: OneRate(ops) ==> Count(Play(s, ops).slots, from, NANOS_PER_SECOND) <= s.rate + s.burst - 1
  }

  lemma QueueWithin(s: Settings, k: nat)
    requires (s.rate - 1) * Interval(s.rate, 1) < NANOS_PER_SECOND && k < s.rate + s.burst - 1
    ensures 0 <= QueueStart(s, k) < NANOS_PER_SECOND
  {
    var i := Interval(s.rate, 1);
    TimesAtMost(k, s.rate + s.burst - 2, i);
    assert i * (s.rate + s.burst - 2) - i * (s.burst - 1) == (s.rate - 1) * i;
  }

  lemma LastBefore(n: nat, interval: nat, tolerance: int, width: nat)
    requires n * interval - tolerance < width && width > 0
    ensures 0 <= Max(Times(n, interval) - tolerance, 0) < width
  {
    TimesAtMost(n, n, interval);
  }

  /** A second's worth of slots and the burst, all booked at once, then a
      slow-down: the next slot starts within the same second when the tolerance
      grows by more than what its place is past the second. */
  lemma OneTooMany(s: Settings)
    requires !NeverSlows(s)
    requires (s.rate - 1) * Interval(s.rate, 1) < NANOS_PER_SECOND
    requires (s.rate + s.burst - 1) * Interval(s.rate, 1) - Interval(s.rate, s.factor) * (s.burst - 1) < NANOS_PER_SECOND
    ensures OneRate(QueueThenSlow(s.rate + s.burst - 1))
    ensures Count(Play(s, QueueThenSlow(s.rate + s.burst - 1)).slots, 0, NANOS_PER_SECOND) == s.rate + s.burst
  {
    var n := s.rate + s.burst - 1;
    var slots := Play(s, QueueThenSlow(n)).slots;
    SlowedStart(s, n);
    LastBefore(n, Interval(s.rate, 1), Interval(s.rate, s.factor) * (s.burst - 1), NANOS_PER_SECOND);
    forall k | 0 <= k < n
      ensures Within(slots[k], 0, NANOS_PER_SECOND)
    {
      QueueWithin(s, k);
    }
    CountAll(slots, 0, NANOS_PER_SECOND);
  }

  lemma FactorAtLeast(a: nat, r: nat)
    requires r * r - r < a * r
    ensures r <= a
  {
    if a < r {
      MulMono(a, r - 1, r);
    }
  }

  /** At rates whose square fits a second's nanoseconds, rounding the interval up
      loses less than a whole interval, and less than the tolerance grows by. */
  lemma TolerancePays(r: nat, i: nat, j: nat, b: nat)
    requires b > 1 && 0 < r && r * r <= NANOS_PER_SECOND
    requires NANOS_PER_SECOND <= i * r < NANOS_PER_SECOND + r && i < j && 2 * NANOS_PER_SECOND <= j * r
    ensures (r - 1) * i < NANOS_PER_SECOND
    ensures (r + b - 1) * i - j * (b - 1) < NANOS_PER_SECOND
  {
    FactorAtLeast(i, r);
    assert (j - i) * r == j * r - i * r;
    FactorAtLeast(j - i, r);
    MulMono(1, b - 1, j - i);
    assert (r + b - 1) * i - j * (b - 1) == i * r - (b - 1) * (j - i);
  }

  /** Exactly which buckets hold at most `burst - 1` starts above the rate in any
      one second, at rates of up to 31622 a second: those with a burst of one,
      and those that never slow down. */
  lemma OneSecondExactly(s: Settings)
    requires s.rate <= 31_622
    ensures KeepsOneSecond(s) <==> s.burst == 1 || NeverSlows(s)
  {
    if s.burst == 1 || NeverSlows(s) {
      forall ops, from | OneRate(ops)
        ensures Count(Play(s, ops).slots, from, NANOS_PER_SECOND) <= s.rate + s.burst - 1
      {
        BurstBound(s, ops, from);
      }
    } else {
      SlowerInterval(s);
      MulMono(s.rate, 31_622, s.rate);
      TolerancePays(s.rate, Interval(s.rate, 1), Interval(s.rate, s.factor), s.burst);
      OneTooMany(s);
    }
  }

  lemma CeilDivAtMost(a: nat, b: Positive, c: nat)
    requires a <= c * b
    ensures CeilDiv(a, b) <= c
  {
    CeilDivIsLeast(a, b);
  }

  lemma IntervalWithinSecond(rate: Rate, divisor: nat)
    ensures Interval(rate, divisor) <= NANOS_PER_SECOND
  {
    CeilDivAtMost(NANOS_PER_SECOND * Max(1, Min(divisor, rate)), rate, NANOS_PER_SECOND);
  }

  lemma {:induction false} IntervalsWithinSecond(s: Settings, ops: seq<Op>)
    ensures forall i :: 0 <= i < |Play(s, ops).slots| ==> Play(s, ops).slots[i].interval <= NANOS_PER_SECOND
  {
    if ops != [] {
      var before, op := ops[..|ops| - 1], ops[|ops| - 1];
      IntervalsWithinSecond(s, before);
      var run := Play(s, before);
      if op.OpReserve? {
        IntervalWithinSecond(run.rate, CatchUp(s, BucketAt(run, op.now), op.now).divisor);
      }
    }
  }

  /** Past those rates the condition is no longer needed: at 999,999,999 a second
      the interval is rounded up to two nanoseconds, so that half the rate is all
      a second ever holds, and a burst of two keeps its promise though it slows
      down. */
  lemma RoundingKeepsOneSecond(s: Settings)
    requires s.rate == 999_999_999 && s.burst == 2 && s.factor == 2 && s.adaptive
    ensures KeepsOneSecond(s) && !(s.burst == 1 || NeverSlows(s))
  {
    forall ops, from | OneRate(ops)
      ensures Count(Play(s, ops).slots, from, NANOS_PER_SECOND) <= s.rate + s.burst - 1
    {
      SteadyRun(s, ops);
      IntervalsAtLeast(s, ops, s.rate);
      IntervalsWithinSecond(s, ops);
      WindowCount(s, ops, from, NANOS_PER_SECOND, 2, NANOS_PER_SECOND);
    }
  }

  /** Two sends a second and a burst of two: three reservations, a slow-down
      and one more put four starts into one second, though `burst - 1` above
      the rate is three. */
  lemma FourInOneSecond(s: Settings)
    requires s.rate == 2 && s.burst == 2 && s.factor == 2 && s.adaptive
    ensures Count(Play(s, QueueThenSlow(3)).slots, 0, NANOS_PER_SECOND) == 4 > s.rate + s.burst - 1
  {
    assert Interval(2, 1) == 500_000_000 && Interval(2, 2) == NANOS_PER_SECOND;
    OneTooMany(s);
  }
}
