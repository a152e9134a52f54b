/**
 Whole runs of one number's schedule: any sequence of reservations, slots given
 back, slow-downs and rate changes, on a clock that may step back.

 Slots are recorded in re-based time: the clock's reading plus every step back
 it made so far (`skew`). On a clock that never steps back the two are the same.
 */
module PacerRun {
  import opened Basics
  import opened Wrappers
  import opened Schedule

  datatype Op =
    | OpReserve(now: int, cost: Positive)
    | OpRelease(id: nat)
    | OpSlowDown(now: int)
    | OpSetRate(rate: Rate)

  /** A slot reserved: when its caller may start, and the stretch of the schedule it takes. */
  datatype Slot = Slot(start: int, base: int, end: int, interval: nat, cost: Positive, live: bool)

  /** The number's configured rate and bucket, every slot booked so far (slot
      `i` was named `i + 1`), and when each slow-down that counted came. */
  datatype Run = Run(rate: Rate, bucket: Option<Bucket>, skew: int, slots: seq<Slot>, slows: seq<int>)

  function Fresh(s: Settings): Run { Run(s.rate, None, 0, [], []) }

  function BucketAt(run: Run, now: int): Bucket {
    if run.bucket.Some? then run.bucket.value else NewBucket(now)
  }

  function SkewAt(run: Run, now: int): int {
    run.skew + Elapsed(now, BucketAt(run, now).seen)
  }

  function SlotOf(s: Settings, rate: Rate, caught: Bucket, now: int, cost: Positive, skew: int): Slot {
    var (after, r) := Book(s, rate, caught, now, cost);
    Slot(now + r.wait + skew, Max(caught.due, now) + skew, after.due + skew,
         Interval(rate, caught.divisor), cost, true)
  }

  /** The slots, the one named `id` given back. */
  function Kill(slots: seq<Slot>, id: nat): seq<Slot> {
    if 1 <= id <= |slots| then slots[id - 1 := slots[id - 1].(live := false)] else slots
  }

  function Step(s: Settings, run: Run, op: Op): Run {
    match op
    case OpReserve(now, cost) =>
      var b := BucketAt(run, now);
      var skew := SkewAt(run, now);
      run.(bucket := Some(Reserve(s, run.rate, b, now, cost).0), skew := skew,
      slots := run.slots + [SlotOf(s, run.rate, CatchUp(s, b, now), now, cost, skew)])
    case OpRelease(id) =>
      if run.bucket.None? then run else
        run.(bucket := Some(Release(run.bucket.value, id)),
        slots := Kill(run.slots, id))
    case OpSlowDown(now) =>
      if !s.adaptive then run else
        var b := BucketAt(run, now);
        var skew := SkewAt(run, now);
        run.(bucket := Some(SlowDown(s, run.rate, b, now)), skew := skew,
        slows := if Counts(s, CatchUp(s, b, now), now) then run.slows + [now + skew] else run.slows)
    case OpSetRate(rate) => run.(rate := rate)
  }

  function Play(s: Settings, ops: seq<Op>): Run {
    if ops == [] then Fresh(s) else Step(s, Play(s, ops[..|ops| - 1]), ops[|ops| - 1])
  }

  // ─── The schedule chain ─────────────────────────────────────────────────

  ghost predicate Below(q: seq<Booked>, id: nat) {
    forall k :: 0 <= k < |q| ==> q[k].id < id
  }

  /** Every live slot ends by `limit`. */
  ghost predicate AllBefore(slots: seq<Slot>, limit: int) {
    forall i :: 0 <= i < |slots| && slots[i].live ==> slots[i].end <= limit
  }

  /** The slots still booked form a chain without gaps that ends at `due`: each
      is the slot of its name, given back with it, and with that slot out of
      the way everything before it is tied to where it begins. */
  ghost predicate Tied(q: seq<Booked>, due: int, slots: seq<Slot>, skew: int)
    decreases |q|
  {
    if q == [] then AllBefore(slots, due + skew) else
      var e := Last(q);
      && e.base < e.end == due
      && 1 <= e.id <= |slots| && Matches(e, slots[e.id - 1], skew)
      && Below(Front(q), e.id)
      && Tied(Front(q), e.base, Kill(slots, e.id), skew)
  }

  ghost predicate Matches(e: Booked, t: Slot, skew: int) {
    t.base == e.base + skew && t.end == e.end + skew && t.live == !e.released
  }

  /** The last slot booked has not been given back. */
  ghost predicate LastIsLive(q: seq<Booked>) {
    q != [] ==> !Last(q).released
  }

  /** Live slots do not overlap what was booked after them. */
  ghost predicate Apart(slots: seq<Slot>) {
    forall i, j :: 0 <= i < j < |slots| && slots[i].live ==> slots[i].end <= slots[j].base
  }

  ghost predicate SlotOk(s: Settings, t: Slot) {
    && t.end == t.base + t.interval * t.cost
    && 1 <= t.interval
    && t.start <= t.base <= t.start + t.interval * (s.burst - 1)
  }

  ghost predicate AllOk(s: Settings, slots: seq<Slot>) {
    forall i :: 0 <= i < |slots| ==> SlotOk(s, slots[i])
  }

  ghost predicate BucketInv(b: Bucket, slots: seq<Slot>, skew: int) {
    Tied(b.booked, b.due, slots, skew) && LastIsLive(b.booked) && b.lastId == |slots|
  }

  ghost predicate Inv(s: Settings, run: Run) {
    && AllOk(s, run.slots) && Apart(run.slots)
    && if run.bucket.None? then run.slots == [] && run.skew == 0
       else BucketInv(run.bucket.value, run.slots, run.skew)
  }

  /** No live slot ends after the schedule's due time. */
  lemma {:induction false} TiedByDue(q: seq<Booked>, due: int, slots: seq<Slot>, skew: int)
    requires Tied(q, due, slots, skew)
    ensures AllBefore(slots, due + skew)
    ensures forall k :: 0 <= k < |q| ==> q[k].end <= due
    decreases |q|
  {
    if q != [] {
      var e := Last(q);
      TiedByDue(Front(q), e.base, Kill(slots, e.id), skew);
      forall i | 0 <= i < |slots| && slots[i].live
        ensures slots[i].end <= due + skew
      {
        if i != e.id - 1 {
          assert Kill(slots, e.id)[i] == slots[i];
        }
      }
      assert forall k :: 0 <= k < |q| - 1 ==> q[k] == Front(q)[k];
    }
  }

  lemma {:induction false} SuffixKeeps(q: seq<Booked>, due: int, slots: seq<Slot>, skew: int, k: nat)
    requires Tied(q, due, slots, skew) && k <= |q|
    ensures Tied(q[k..], due, slots, skew)
    decreases |q|
  {
    if k == |q| {
      TiedByDue(q, due, slots, skew);
    } else {
      var e := Last(q);
      SuffixKeeps(Front(q), e.base, Kill(slots, e.id), skew, k);
      assert Front(q[k..]) == Front(q)[k..];
      assert Last(q[k..]) == e;
    }
  }

  lemma {:induction false} DropPastIsSuffix(q: seq<Booked>, now: int) returns (k: nat)
    ensures k <= |q| && DropPast(q, now) == q[k..]
    ensures k < |q| ==> q[k].end > now
    ensures forall i :: 0 <= i < k ==> q[i].end <= now
  {
    k := 0;
    if q != [] && q[0].end <= now {
      var j := DropPastIsSuffix(q[1..], now);
      k := j + 1;
      assert q[1..][j..] == q[k..];
      assert forall i :: 1 <= i < |q| ==> q[i] == q[1..][i - 1];
    }
  }

  /** What catching up leaves booked is as tied as before, and ends in the future. */
  lemma CatchUpKeeps(s: Settings, b: Bucket, slots: seq<Slot>, skew: int, now: int)
    requires BucketInv(b, slots, skew)
    ensures var c := CatchUp(s, b, now);
            && BucketInv(c, slots, skew + Elapsed(now, b.seen))
            && (c.booked != [] ==> c.due > now)
  {
    TiedByDue(b.booked, b.due, slots, skew);
    if now >= b.seen {
      var k := DropPastIsSuffix(b.booked, now);
      SuffixKeeps(b.booked, b.due, slots, skew, k);
      if k < |b.booked| {
        assert Last(b.booked[k..]) == Last(b.booked);
      }
    }
  }

  /** A slot booked after everything and dead already changes nothing. */
  lemma {:induction false} DeadSlotKeeps(q: seq<Booked>, due: int, slots: seq<Slot>, skew: int, t: Slot)
    requires Tied(q, due, slots, skew) && !t.live
    ensures Tied(q, due, slots + [t], skew)
    decreases |q|
  {
    if q != [] {
      var e := Last(q);
      DeadSlotKeeps(Front(q), e.base, Kill(slots, e.id), skew, t);
      assert Kill(slots + [t], e.id) == Kill(slots, e.id) + [t];
    }
  }

  /** Names grow along the chain. */
  lemma {:induction false} TiedBelow(q: seq<Booked>, due: int, slots: seq<Slot>, skew: int)
    requires Tied(q, due, slots, skew)
    ensures Below(q, |slots| + 1)
    decreases |q|
  {
    if q != [] {
      TiedBelow(Front(q), Last(q).base, Kill(slots, Last(q).id), skew);
      assert forall k :: 0 <= k < |q| - 1 ==> q[k] == Front(q)[k];
    }
  }

  /** Adding a slot at the end of the schedule keeps everything tied, and the
      slots apart. */
  lemma PushKeeps(q: seq<Booked>, due: int, slots: seq<Slot>, skew: int, e: Booked, t: Slot)
    requires Tied(q, due, slots, skew) && Apart(slots)
    requires due <= e.base < e.end && (q != [] ==> e.base == due)
    requires e.id == |slots| + 1 && !e.released && Matches(e, t, skew)
    ensures Tied(q + [e], e.end, slots + [t], skew) && Apart(slots + [t])
  {
    TiedByDue(q, due, slots, skew);
    TiedBelow(q, due, slots, skew);
    var dead := t.(live := false);
    DeadSlotKeeps(q, due, slots, skew, dead);
    assert Kill(slots + [t], e.id) == slots + [dead];
    assert Front(q + [e]) == q;
    if q == [] {
      assert AllBefore(slots + [dead], e.base + skew);
    }
  }

  lemma {:induction false} MarkSnoc(q: seq<Booked>, id: nat)
    requires q != [] && Below(Front(q), Last(q).id)
    ensures |Mark(q, id)| == |q|
    ensures Front(Mark(q, id)) == if id == Last(q).id then Front(q) else Mark(Front(q), id)
    ensures Last(Mark(q, id)) == if id == Last(q).id then Last(q).(released := true) else Last(q)
    decreases |q|
  {
    if |q| > 1 {
      assert q[0] == Front(q)[0];
      assert Front(q[1..]) == Front(q)[1..];
      if q[0].id != id {
        MarkSnoc(q[1..], id);
      } else {
        MarkLength(q, id);
      }
    }
  }

  lemma {:induction false} MarkLength(q: seq<Booked>, id: nat)
    ensures |Mark(q, id)| == |q|
  {
    if q != [] {
      MarkLength(q[1..], id);
    }
  }

  lemma {:induction false} KillTwice(slots: seq<Slot>, a: nat, b: nat)
    ensures Kill(Kill(slots, a), b) == Kill(Kill(slots, b), a)
    ensures Kill(Kill(slots, a), a) == Kill(slots, a)
  {
  }

  lemma {:induction false} MarkKeeps(q: seq<Booked>, due: int, slots: seq<Slot>, skew: int, id: nat)
    requires Tied(q, due, slots, skew)
    ensures Tied(Mark(q, id), due, Kill(slots, id), skew)
    decreases |q|
  {
    if q != [] {
      var e := Last(q);
      MarkSnoc(q, id);
      KillTwice(slots, e.id, id);
      if id != e.id {
        MarkKeeps(Front(q), e.base, Kill(slots, e.id), skew, id);
        MarkBelow(Front(q), id, e.id);
      }
    }
  }

  lemma {:induction false} MarkBelow(q: seq<Booked>, id: nat, top: nat)
    requires Below(q, top)
    ensures Below(Mark(q, id), top)
  {
    if q != [] {
      MarkBelow(q[1..], id, top);
      assert q[0].id < top;
    }
  }

  lemma {:induction false} UnbookKeeps(b: Bucket, slots: seq<Slot>, skew: int)
    requires Tied(b.booked, b.due, slots, skew)
    ensures Tied(Unbook(b).booked, Unbook(b).due, slots, skew) && LastIsLive(Unbook(b).booked)
    ensures Unbook(b) == b.(due := Unbook(b).due, booked := Unbook(b).booked)
    decreases |b.booked|
  {
    var q := b.booked;
    if q != [] && Last(q).released {
      assert Kill(slots, Last(q).id) == slots;
      UnbookKeeps(b.(due := Last(q).base, booked := Front(q)), slots, skew);
    }
  }

  lemma SlotOfOk(s: Settings, rate: Rate, b: Bucket, now: int, cost: Positive, skew: int)
    ensures SlotOk(s, SlotOf(s, rate, b, now, cost, skew))
    ensures var t := SlotOf(s, rate, b, now, cost, skew); t.base < t.end
  {
    IntervalIsLeast(rate, b.divisor);
    MulMono(1, Interval(rate, b.divisor), cost);
  }

  lemma BookKeeps(s: Settings, rate: Rate, b: Bucket, slots: seq<Slot>, skew: int, now: int, cost: Positive)
    requires BucketInv(b, slots, skew) && Apart(slots) && (b.booked != [] ==> b.due > now)
    ensures var slots' := slots + [SlotOf(s, rate, b, now, cost, skew)];
            BucketInv(Book(s, rate, b, now, cost).0, slots', skew) && Apart(slots')
  {
    var (after, r) := Book(s, rate, b, now, cost);
    var t := SlotOf(s, rate, b, now, cost, skew);
    SlotOfOk(s, rate, b, now, cost, skew);
    PushKeeps(b.booked, b.due, slots, skew, Booked(r.id, t.base - skew, after.due, false), t);
  }

  lemma AllOkPush(s: Settings, slots: seq<Slot>, t: Slot)
    requires AllOk(s, slots) && SlotOk(s, t)
    ensures AllOk(s, slots + [t])
  {
  }

  lemma ReserveKeeps(s: Settings, run: Run, now: int, cost: Positive)
    requires Inv(s, run)
    ensures Inv(s, Step(s, run, OpReserve(now, cost)))
  {
    var b, skew := BucketAt(run, now), SkewAt(run, now);
    var c := CatchUp(s, b, now);
    var t := SlotOf(s, run.rate, c, now, cost, skew);
    assert BucketInv(c, run.slots, skew) && (c.booked != [] ==> c.due > now) by {
      CatchUpKeeps(s, b, run.slots, run.skew, now);
    }
    assert AllOk(s, run.slots + [t]) by {
      SlotOfOk(s, run.rate, c, now, cost, skew);
      AllOkPush(s, run.slots, t);
    }
    BookKeeps(s, run.rate, c, run.slots, skew, now, cost);
  }

  lemma ReleaseKeeps(s: Settings, run: Run, id: nat)
    requires Inv(s, run)
    ensures Inv(s, Step(s, run, OpRelease(id)))
  {
    if run.bucket.Some? {
      var b := run.bucket.value;
      MarkKeeps(b.booked, b.due, run.slots, run.skew, id);
      UnbookKeeps(b.(booked := Mark(b.booked, id)), Kill(run.slots, id), run.skew);
    }
  }

  /** Every operation keeps the slots apart and the schedule tied to them. */
  lemma StepKeeps(s: Settings, run: Run, op: Op)
    requires Inv(s, run)
    ensures Inv(s, Step(s, run, op))
  {
    match op
    case OpReserve(now, cost) => ReserveKeeps(s, run, now, cost);
    case OpRelease(id) => ReleaseKeeps(s, run, id);
    case OpSlowDown(now) =>
      if s.adaptive {
        CatchUpKeeps(s, BucketAt(run, now), run.slots, run.skew, now);
      }
    case OpSetRate(_) =>
  }

  lemma {:induction false} PlayKeeps(s: Settings, ops: seq<Op>)
    ensures Inv(s, Play(s, ops))
  {
    if ops != [] {
      PlayKeeps(s, ops[..|ops| - 1]);
      StepKeeps(s, Play(s, ops[..|ops| - 1]), ops[|ops| - 1]);
    }
  }
}
