/**
 The rate limiter itself: every number's configured rate and bucket, changed in
 place by each call, and the proof that each number's bucket goes through a run
 of its own, whatever the other numbers do.
 */
module TokenBuckets {
  import opened Basics
  import opened Wrappers
  import opened Schedule
  import opened PacerRun
  import opened PacerClock

  type Number = string

  /** What is kept of the numbers: a rate where one was set, a bucket once used. */
  datatype State = State(rates: map<Number, Rate>, buckets: map<Number, Bucket>)

  function RateIn(s: Settings, st: State, number: Number): Rate {
    if number in st.rates then st.rates[number] else s.rate
  }

  function BucketIn(st: State, number: Number, now: int): Bucket {
    if number in st.buckets then st.buckets[number] else NewBucket(now)
  }

  /** What one call for `number` makes of the limiter's state. */
  function Apply(s: Settings, st: State, number: Number, op: Op): State {
    match op
    case OpReserve(now, cost) =>
      st.(buckets := st.buckets[number := Schedule.Reserve(s, RateIn(s, st, number), BucketIn(st, number, now), now, cost).0])
    case OpRelease(id) =>
      if number in st.buckets then st.(buckets := st.buckets[number := Schedule.Release(st.buckets[number], id)]) else st
    case OpSlowDown(now) =>
      if s.adaptive then
        st.(buckets := st.buckets[number := Schedule.SlowDown(s, RateIn(s, st, number), BucketIn(st, number, now), now)])
      else st
    case OpSetRate(rate) => st.(rates := st.rates[number := rate])
  }

  class TokenBucket {
    const settings: Settings
    var rates: map<Number, Rate>
    var buckets: map<Number, Bucket>

    constructor (settings: Settings)
      ensures this.settings == settings && Now() == State(map[], map[])
    {
      this.settings := settings;
      rates, buckets := map[], map[];
    }

    ghost function Now(): State
      reads this
    {
      State(rates, buckets)
    }

    /** The number's rate is that one from now on, higher or lower, and no other
        number's changes. */
    method SetRate(number: Number, rate: Rate)
      modifies this`rates
      ensures RateIn(settings, Now(), number) == rate
      ensures forall n :: n != number ==> RateIn(settings, Now(), n) == RateIn(settings, old(Now()), n)
      ensures Now() == Apply(settings, old(Now()), number, OpSetRate(rate))
    {
      rates := rates[number := rate];
    }

    /** Set `number`'s rate unless it is at or above `rate` already: whether it rose. */
    method RaiseRate(number: Number, rate: Rate) returns (rose: bool)
      modifies this`rates
      ensures rose == (RateIn(settings, old(Now()), number) < rate)
      ensures Now() == if rose then Apply(settings, old(Now()), number, OpSetRate(rate)) else old(Now())
      ensures RateIn(settings, Now(), number) == Max(RateIn(settings, old(Now()), number), rate)
      ensures forall n :: n != number ==> RateIn(settings, Now(), n) == RateIn(settings, old(Now()), n)
    {
      var current := if number in rates then rates[number] else settings.rate;
      if current >= rate {
        return false;
      }
      rates := rates[number := rate];
      return true;
    }

    /** How many leading booked slots have passed by `now`. */
    method CountPast(q: seq<Booked>, now: int) returns (past: nat)
      ensures past <= |q| && DropPast(q, now) == q[past..]
    {
      past := 0;
      while past < |q| && q[past].end <= now
        invariant past <= |q|
        invariant DropPast(q, now) == DropPast(q[past..], now)
      {
        assert q[past..][1..] == q[past + 1..];
        past := past + 1;
      }
    }

    /** `from` divided by the factor up to `turns` times, stopping at one. */
    method DivideDown(from: nat, turns: nat) returns (divisor: nat)
      ensures divisor == Divide(from, settings.factor, turns)
    {
      divisor := from;
      var n: nat := 0;
      while n < turns
        invariant n <= turns
        invariant Divide(divisor, settings.factor, turns - n) == Divide(from, settings.factor, turns)
      {
        divisor := Max(divisor / settings.factor, 1);
        n := n + 1;
        if divisor == 1 {
          DivideOne(settings.factor, turns - n);
          break;
        }
      }
    }

    /** The divisions of the proved recovery, one after the other. */
    method RecoverTo(bucket: Bucket, now: int) returns (b: Bucket)
      ensures b == Recover(settings, bucket, now)
    {
      b := bucket;
      if b.divisor == 1 {
        return;
      }
      var steps := Min(Elapsed(b.since, now) / settings.recovery, U32_MAX);
      if steps > 0 {
        var divisor := DivideDown(b.divisor, Min(steps, MAX_STEPS));
        b := b.(divisor := divisor, since := b.since + settings.recovery * steps);
      }
    }

    /** To `now`, back with the clock if it stepped back; slots whose time has
        passed are not booked any more. */
    method MoveTo(bucket: Bucket, now: int) returns (b: Bucket)
      ensures var back := if now < bucket.seen then StepBack(bucket, now) else bucket;
              b == back.(seen := now, booked := DropPast(back.booked, now))
    {
      b := bucket;
      if now < b.seen {
        var back := b.seen - now;
        var slowed := if b.slowed.Some? then Some(b.slowed.value - back) else None;
        b := b.(due := b.due - back, since := b.since - back, slowed := slowed, booked := []);
        assert b == StepBack(bucket, now);
      }
      var past := CountPast(b.booked, now);
      b := b.(seen := now, booked := b.booked[past..]);
    }

    /** Follow the clock to `now`, and recover. */
    method CatchUpTo(bucket: Bucket, now: int) returns (b: Bucket)
      ensures b == CatchUp(settings, bucket, now)
    {
      var moved := MoveTo(bucket, now);
      b := RecoverTo(moved, now);
    }

    /** The first slot named `id`, marked as given back. */
    method MarkReleased(q: seq<Booked>, id: nat) returns (marked: seq<Booked>)
      ensures marked == Mark(q, id)
    {
      var at := 0;
      while at < |q| && q[at].id != id
        invariant at <= |q|
        invariant Mark(q, id) == q[..at] + Mark(q[at..], id)
      {
        assert q[at..][1..] == q[at + 1..];
        assert q[..at + 1] == q[..at] + [q[at]];
        at := at + 1;
      }
      if at == |q| {
        return q;
      }
      marked := q[at := q[at].(released := true)];
      assert marked == q[..at] + ([marked[at]] + q[at + 1..]);
      assert q[at..][1..] == q[at + 1..];
    }

    /** Puts a slot of the number at the end of its schedule, and answers with the
        wait until it starts. */
    method Reserve(number: Number, now: int, cost: Positive) returns (r: Reservation)
      modifies this`buckets
      ensures r == Schedule.Reserve(settings, RateIn(settings, old(Now()), number), BucketIn(old(Now()), number, now), now, cost).1
      ensures Now() == Apply(settings, old(Now()), number, OpReserve(now, cost))
    {
      var rate := if number in rates then rates[number] else settings.rate;
      var bucket := if number in buckets then buckets[number] else NewBucket(now);
      bucket := CatchUpTo(bucket, now);
      var interval := Interval(rate, bucket.divisor);
      var base := Max(bucket.due, now);
      var tolerance := interval * (settings.burst - 1);
      var start := Max(base - tolerance, now);
      var id := bucket.lastId + 1;
      bucket := bucket.(due := base + interval * cost, lastId := id);
      bucket := bucket.(booked := bucket.booked + [Booked(id, base, bucket.due, false)]);
      buckets := buckets[number := bucket];
      r := Reservation(Elapsed(now, start), id);
    }

    /** Give the slot named `id` back: it is unbooked once nothing live was
        booked after it. */
    method Release(number: Number, id: nat)
      modifies this`buckets
      ensures Now() == Apply(settings, old(Now()), number, OpRelease(id))
    {
      if number !in buckets {
        return;
      }
      var bucket := buckets[number];
      var q := MarkReleased(bucket.booked, id);
      bucket := bucket.(booked := q);
      ghost var marked := bucket;
      while bucket.booked != [] && Last(bucket.booked).released && Last(bucket.booked).end == bucket.due
        invariant Unbook(bucket) == Unbook(marked)
        decreases |bucket.booked|
      {
        bucket := bucket.(due := Last(bucket.booked).base, booked := Front(bucket.booked));
      }
      buckets := buckets[number := bucket];
    }

    /** A send of `number` was refused for going too fast: divide its rate,
        unless a slow-down counted too recently. */
    method SlowDown(number: Number, now: int)
      modifies this`buckets
      ensures Now() == Apply(settings, old(Now()), number, OpSlowDown(now))
    {
      if !settings.adaptive {
        return;
      }
      var rate := if number in rates then rates[number] else settings.rate;
      var bucket := if number in buckets then buckets[number] else NewBucket(now);
      bucket := CatchUpTo(bucket, now);
      if bucket.slowed.None? || Elapsed(bucket.slowed.value, now) >= settings.spacing {
        if SaturatingMul(bucket.divisor, settings.factor) <= rate {
          bucket := bucket.(divisor := WrappingMul(bucket.divisor, settings.factor));
        }
        bucket := bucket.(slowed := Some(now), since := now);
      }
      buckets := buckets[number := bucket];
    }
  }

  // ─── Each number on its own ─────────────────────────────────────────────

  datatype Call = Call(number: Number, op: Op)

  function ApplyAll(s: Settings, calls: seq<Call>): State {
    if calls == [] then State(map[], map[]) else
      Apply(s, ApplyAll(s, calls[..|calls| - 1]), calls[|calls| - 1].number, calls[|calls| - 1].op)
  }

  /** The calls made for `number`, in order. */
  function CallsOf(calls: seq<Call>, number: Number): seq<Op> {
    if calls == [] then [] else
      var last := calls[|calls| - 1];
      CallsOf(calls[..|calls| - 1], number) + if last.number == number then [last.op] else []
  }

  /** The number's rate and bucket are the run's. */
  ghost predicate Follows(s: Settings, st: State, number: Number, run: Run) {
    && RateIn(s, st, number) == run.rate
    && (if number in st.buckets then Some(st.buckets[number]) else None) == run.bucket
  }

  lemma OneCall(s: Settings, st: State, number: Number, run: Run, call: Call)
    requires Follows(s, st, number, run)
    ensures Follows(s, Apply(s, st, call.number, call.op), number, if call.number == number then Step(s, run, call.op) else run)
  {
    match call.op
    case OpReserve(now, cost) =>
    case OpRelease(id) =>
    case OpSlowDown(now) =>
    case OpSetRate(rate) =>
  }

  lemma PlayCallsOf(s: Settings, calls: seq<Call>, number: Number)
    requires calls != []
    ensures var before, last := calls[..|calls| - 1], calls[|calls| - 1];
            var run := Play(s, CallsOf(before, number));
            Play(s, CallsOf(calls, number)) == if last.number == number then Step(s, run, last.op) else run
  {
    var ops, op := CallsOf(calls[..|calls| - 1], number), calls[|calls| - 1].op;
    assert (ops + [op])[..|ops|] == ops;
    assert ops + [] == ops;
  }

  /** Whatever the other numbers do, a number's rate and bucket are those of
      the run of its own calls. */
  lemma {:induction false} NumbersAreApart(s: Settings, calls: seq<Call>, number: Number)
    ensures Follows(s, ApplyAll(s, calls), number, Play(s, CallsOf(calls, number)))
  {
    if calls != [] {
      var before, last := calls[..|calls| - 1], calls[|calls| - 1];
      NumbersAreApart(s, before, number);
      OneCall(s, ApplyAll(s, before), number, Play(s, CallsOf(before, number)), last);
      PlayCallsOf(s, calls, number);
    }
  }
}
