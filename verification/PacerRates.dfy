/**
 What one more reservation books in a run, read from the operations: the rate is
 the one set last, whatever was set before.
 */
module PacerRates {
  import opened Basics
  import opened Wrappers
  import opened Schedule
  import opened PacerRun

  /** The rate set last, or the one there was at first. */
  function LastRate(ops: seq<Op>, first: Rate): Rate {
    if ops == [] then first
    else if Last(ops).OpSetRate? then Last(ops).rate
    else LastRate(Front(ops), first)
  }

  /** In every run the rate is the one set last: raised or lowered, at once. */
  lemma {:induction false} RateIsLast(s: Settings, ops: seq<Op>)
    ensures Play(s, ops).rate == LastRate(ops, s.rate)
  {
    if ops != [] {
      RateIsLast(s, Front(ops));
    }
  }

  /** A slot as it was asked for, in the clock's time: at `interval`, for `cost`
      sends, placed where the schedule ended (`due`) or now if that is later, and
      starting before its place by the burst's tolerance, but not before now. */
  ghost predicate AsAsked(s: Settings, t: Slot, skew: int, interval: nat, due: int, now: int, cost: Positive, wait: nat) {
    && t.live && t.cost == cost && t.interval == interval && t.end == t.base + interval * cost
    && t.base == skew + (if due > now then due else now)
    && t.start == skew + now + wait
    && t.start >= t.base - interval * (s.burst - 1)
    && (t.start == t.base - interval * (s.burst - 1) || wait == 0)
  }

  lemma BookedAsAsked(s: Settings, rate: Rate, b: Bucket, now: int, cost: Positive, skew: int)
    ensures var (after, answer) := Book(s, rate, b, now, cost);
            && AsAsked(s, SlotOf(s, rate, b, now, cost, skew), skew, Interval(rate, b.divisor), b.due, now, cost, answer.wait)
            && after.due + skew == SlotOf(s, rate, b, now, cost, skew).end && answer.id == b.lastId + 1
  {
  }

  lemma StepBooks(s: Settings, run: Run, now: int, cost: Positive)
    ensures var b, after := BucketAt(run, now), Step(s, run, OpReserve(now, cost));
            var caught, skew := CatchUp(s, b, now), run.skew + if now < b.seen then b.seen - now else 0;
            && after.skew == skew && after.slots == run.slots + [SlotOf(s, run.rate, caught, now, cost, skew)]
            && Schedule.Reserve(s, run.rate, b, now, cost) == Book(s, run.rate, caught, now, cost)
            && after.bucket == Some(Book(s, run.rate, caught, now, cost).0)
  {
  }

  lemma CatchUpKeepsName(s: Settings, b: Bucket, now: int)
    ensures CatchUp(s, b, now).lastId == b.lastId
  {
  }

  /** In every run a reservation books one slot more, as it was asked for, at the
      interval of the rate set last; it is named by how many slots there are with
      it, and the schedule then ends with it. */
  lemma BooksAsAsked(s: Settings, ops: seq<Op>, now: int, cost: Positive)
    ensures var run, after := Play(s, ops), Play(s, ops + [OpReserve(now, cost)]);
            var b := BucketAt(run, now);
            var caught, answer := CatchUp(s, b, now), Schedule.Reserve(s, run.rate, b, now, cost).1;
            && |after.slots| == |run.slots| + 1 && Front(after.slots) == run.slots && answer.id == |run.slots| + 1
            && after.skew == run.skew + (if now < b.seen then b.seen - now else 0)
            && AsAsked(s, Last(after.slots), after.skew, Interval(LastRate(ops, s.rate), caught.divisor), caught.due, now, cost, answer.wait)
            && after.bucket.Some? && after.bucket.value.due + after.skew == Last(after.slots).end
  {
    var run, all := Play(s, ops), ops + [OpReserve(now, cost)];
    var b := BucketAt(run, now);
    assert all[..|ops|] == ops;
    RateIsLast(s, ops);
    PlayKeeps(s, ops);
    StepBooks(s, run, now, cost);
    BookedAsAsked(s, run.rate, CatchUp(s, b, now), now, cost, run.skew + if now < b.seen then b.seen - now else 0);
    CatchUpKeepsName(s, b, now);
  }
}
