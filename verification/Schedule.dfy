/**
 One business number's send schedule: the generic cell rate algorithm used as a
 reservation scheduler (Annex A of ITU-T I.371, virtual scheduling), with slots
 given back, slow-downs and recovery, and a wall clock that may step back.

 Times and durations are whole nanoseconds. The functions here say what one
 call does to one number's bucket; PacerRun proves what whole runs keep, and
 TokenBucket holds the methods that carry it out in place.
 */
module Schedule {
  import opened Basics
  import opened Wrappers

  const U32_MODULUS: nat := 0x1_0000_0000
  /** The most divisions one catching-up makes. */
  const MAX_STEPS: nat := 32

  type Rate = r: nat | 1 <= r <= U32_MAX witness 1
  type Factor = f: nat | 2 <= f <= U32_MAX witness 2
  type Positive = n: nat | 1 <= n witness 1

  /** What the bucket was built with. */
  datatype Settings = Settings(
    rate: Rate, burst: Positive, recovery: Positive, adaptive: bool, spacing: nat, factor: Factor)

  /** A slot booked that has not started yet. */
  datatype Booked = Booked(id: nat, base: int, end: int, released: bool)

  /** One number's schedule. */
  datatype Bucket = Bucket(
    due: int, seen: int, divisor: nat, since: int, slowed: Option<int>, lastId: nat, booked: seq<Booked>)

  datatype Reservation = Reservation(wait: nat, id: nat)

  /** The time from `from` to `to`, or zero when `to` is not after it. */
  function Elapsed(from: int, to: int): nat { if to <= from then 0 else to - from }

  function CeilDiv(a: nat, b: Positive): nat { (a + b - 1) / b }

  /** The time between two sends at `rate` divided by `divisor`, rounded up. */
  function Interval(rate: Rate, divisor: nat): nat {
    CeilDiv(NANOS_PER_SECOND * Max(1, Min(divisor, rate)), rate)
  }

  /** A 32-bit product that stops at the largest value. */
  function SaturatingMul(a: nat, b: nat): nat { Min(a * b, U32_MAX) }

  /** A 32-bit product that wraps around. */
  function WrappingMul(a: nat, b: nat): nat { a * b % U32_MODULUS }

  function NewBucket(now: int): Bucket {
    Bucket(now, now, 1, now, None, 0, [])
  }

  /** The booked slots without the leading ones whose time has passed. */
  function DropPast(booked: seq<Booked>, now: int): seq<Booked> {
    if |booked| > 0 && booked[0].end <= now then DropPast(booked[1..], now) else booked
  }

  /** `divisor` divided `steps` times, never below one. */
  function Divide(divisor: nat, factor: Factor, steps: nat): nat
    decreases steps
  {
    if steps == 0 then divisor else Divide(Max(divisor / factor, 1), factor, steps - 1)
  }

  /** The clock stepped back: the schedule goes back with it. */
  function StepBack(b: Bucket, now: int): Bucket {
    var back := b.seen - now;
    b.(due := b.due - back, since := b.since - back,
    slowed := if b.slowed.Some? then Some(b.slowed.value - back) else None,
    booked := [])
  }

  /** As many divisions as recovery periods have passed since the last one counted. */
  function Recover(s: Settings, b: Bucket, now: int): Bucket {
    var steps := Min(Elapsed(b.since, now) / s.recovery, U32_MAX);
    if b.divisor == 1 || steps == 0 then b else
      b.(divisor := Divide(b.divisor, s.factor, Min(steps, MAX_STEPS)),
      since := b.since + s.recovery * steps)
  }

  function CatchUp(s: Settings, b: Bucket, now: int): Bucket {
    var back := if now < b.seen then StepBack(b, now) else b;
    Recover(s, back.(seen := now, booked := DropPast(back.booked, now)), now)
  }

  /** Book the next slot in a bucket that has caught up with `now`. */
  function Book(s: Settings, rate: Rate, b: Bucket, now: int, cost: Positive): (Bucket, Reservation) {
    var interval := Interval(rate, b.divisor);
    var base := Max(b.due, now);
    var start := Max(base - interval * (s.burst - 1), now);
    var end := base + interval * cost;
    var id := b.lastId + 1;
    (b.(due := end, lastId := id, booked := b.booked + [Booked(id, base, end, false)]),
     Reservation(Elapsed(now, start), id))
  }

  function Reserve(s: Settings, rate: Rate, b: Bucket, now: int, cost: Positive): (Bucket, Reservation) {
    Book(s, rate, CatchUp(s, b, now), now, cost)
  }

  /** The first booked slot named `id`, marked as given back. */
  function Mark(booked: seq<Booked>, id: nat): seq<Booked> {
    if booked == [] then []
    else if booked[0].id == id then [booked[0].(released := true)] + booked[1..]
    else [booked[0]] + Mark(booked[1..], id)
  }

  /** Unbook given-back slots from the end. */
  function Unbook(b: Bucket): Bucket
    decreases |b.booked|
  {
    if b.booked == [] then b else
      var last := b.booked[|b.booked| - 1];
      if !last.released || last.end != b.due then b
      else Unbook(b.(due := last.base, booked := b.booked[..|b.booked| - 1]))
  }

  function Release(b: Bucket, id: nat): Bucket {
    Unbook(b.(booked := Mark(b.booked, id)))
  }

  /** Whether a slow-down now counts, in a bucket that has caught up. */
  predicate Counts(s: Settings, b: Bucket, now: int) {
    b.slowed.None? || Elapsed(b.slowed.value, now) >= s.spacing
  }

  function Slow(s: Settings, rate: Rate, b: Bucket, now: int): Bucket {
    var divisor := if SaturatingMul(b.divisor, s.factor) <= rate then WrappingMul(b.divisor, s.factor) else b.divisor;
    b.(divisor := divisor, slowed := Some(now), since := now)
  }

  function SlowDown(s: Settings, rate: Rate, b: Bucket, now: int): Bucket {
    var c := CatchUp(s, b, now);
    if Counts(s, c, now) then Slow(s, rate, c, now) else c
  }

  // ─── The interval ───────────────────────────────────────────────────────

  /** The interval is the least one that keeps the divided rate within a second. */
  lemma IntervalIsLeast(rate: Rate, divisor: nat)
    ensures Interval(rate, divisor) * rate >= NANOS_PER_SECOND * Max(1, Min(divisor, rate))
    ensures forall i: nat :: i * rate >= NANOS_PER_SECOND * Max(1, Min(divisor, rate)) ==> Interval(rate, divisor) <= i
    ensures 1 <= Interval(rate, divisor)
  {
    var a := NANOS_PER_SECOND * Max(1, Min(divisor, rate));
    CeilDivIsLeast(a, rate);
  }

  lemma CeilDivIsLeast(a: nat, b: Positive)
    ensures CeilDiv(a, b) * b >= a
    ensures a > 0 ==> CeilDiv(a, b) >= 1
    ensures forall i: nat :: i * b >= a ==> CeilDiv(a, b) <= i
  {
    var q := CeilDiv(a, b);
    assert q * b == (a + b - 1) - (a + b - 1) % b;
    forall i: nat | i * b >= a
      ensures q <= i
    {
      assert (i + 1) * b == i * b + b;
      if q > i {
        MulMono(i + 1, q, b);
      }
    }
  }

  lemma MulMono(a: nat, b: nat, c: nat)
    requires a <= b
    ensures a * c <= b * c
  {
  }

  /** A higher rate, or a lower divisor, never lengthens the interval. */
  lemma IntervalMonotone(rate: Rate, divisor: nat, top: Rate)
    requires rate <= top
    ensures Interval(rate, divisor) >= Interval(top, 1)
  {
    var i := Interval(rate, divisor);
    IntervalIsLeast(rate, divisor);
    IntervalIsLeast(top, 1);
    MulMono(rate, top, i);
    MulMono(1, Max(1, Min(divisor, rate)), NANOS_PER_SECOND);
    assert i * top >= NANOS_PER_SECOND;
  }
}
