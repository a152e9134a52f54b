/**
 What the slots still booked look like in every run: a chain without gaps, and
 what giving slots back does to it, in any order.
 */
module PacerReleases {
  import opened Basics
  import opened Schedule
  import opened PacerRun

  // ─── The chain ──────────────────────────────────────────────────────────

  /** Each slot begins where the one before it ends, under growing names. */
  ghost predicate Linked(q: seq<Booked>)
    decreases |q|
  {
    q != [] ==>
      && Last(q).base < Last(q).end
      && (|q| > 1 ==> q[|q| - 2].end == Last(q).base && q[|q| - 2].id < Last(q).id)
      && Linked(Front(q))
  }

  /** The slots booked are linked, the last ends at the schedule's due time and
      has not been given back. */
  ghost predicate Chained(b: Bucket) {
    Linked(b.booked) && (b.booked != [] ==> Last(b.booked).end == b.due && !Last(b.booked).released)
  }

  lemma {:induction false} TiedIsChained(q: seq<Booked>, due: int, slots: seq<Slot>, skew: int)
    requires Tied(q, due, slots, skew)
    ensures Linked(q) && (q != [] ==> Last(q).end == due)
    decreases |q|
  {
    if q != [] {
      TiedIsChained(Front(q), Last(q).base, Kill(slots, Last(q).id), skew);
      assert |q| > 1 ==> Front(q)[|q| - 2] == q[|q| - 2];
    }
  }

  lemma {:induction false} LinkedAt(q: seq<Booked>, k: nat)
    requires Linked(q) && 0 < k < |q|
    ensures q[k - 1].end == q[k].base && q[k].base < q[k].end
    decreases |q|
  {
    if k < |q| - 1 {
      LinkedAt(Front(q), k);
    }
  }

  lemma {:induction false} LinkedSuffix(q: seq<Booked>, k: nat)
    requires Linked(q) && k <= |q|
    ensures Linked(q[k..])
    decreases |q|
  {
    if k < |q| {
      LinkedSuffix(Front(q), k);
      assert Front(q[k..]) == Front(q)[k..];
    }
  }

  lemma {:induction false} LinkedPrefix(q: seq<Booked>, k: nat)
    requires Linked(q) && k <= |q|
    ensures Linked(q[..k])
    decreases |q|
  {
    if k < |q| {
      LinkedPrefix(Front(q), k);
      assert Front(q)[..k] == q[..k];
    } else {
      assert q[..k] == q;
    }
  }

  lemma {:induction false} LinkedBelow(q: seq<Booked>)
    requires Linked(q) && q != []
    ensures Below(Front(q), Last(q).id)
    decreases |q|
  {
    if |q| > 1 {
      LinkedBelow(Front(q));
      assert forall k :: 0 <= k < |q| - 2 ==> Front(q)[k] == Front(Front(q))[k];
    }
  }

  /** In every run the slots still booked are a chain. */
  lemma ScheduleIsChained(s: Settings, ops: seq<Op>)
    ensures Play(s, ops).bucket.Some? ==> Chained(Play(s, ops).bucket.value)
  {
    PlayKeeps(s, ops);
    var run := Play(s, ops);
    if run.bucket.Some? {
      var b := run.bucket.value;
      TiedIsChained(b.booked, b.due, run.slots, run.skew);
    }
  }

  // ─── Waits ──────────────────────────────────────────────────────────────

  predicate Timed(op: Op) { op.OpReserve? || op.OpSlowDown? }

  /** The clock never steps back in the run. */
  ghost predicate Forward(ops: seq<Op>) {
    forall i, j :: 0 <= i < j < |ops| && Timed(ops[i]) && Timed(ops[j]) ==> ops[i].now <= ops[j].now
  }

  /** What is booked begins by the latest time seen. */
  function Begins(b: Bucket): int {
    if b.booked == [] then b.due else b.booked[0].base
  }

  /** The schedule begins by the latest time seen, which some operation gave. */
  ghost predicate BegunBy(run: Run, ops: seq<Op>) {
    run.bucket.Some? ==>
      && Begins(run.bucket.value) <= run.bucket.value.seen
      && exists i :: 0 <= i < |ops| && Timed(ops[i]) && ops[i].now == run.bucket.value.seen
  }

  lemma {:induction false} UnbookBegins(b: Bucket)
    ensures Begins(Unbook(b)) == Begins(b) && Unbook(b).seen == b.seen
    decreases |b.booked|
  {
    if b.booked != [] && Last(b.booked).released && Last(b.booked).end == b.due {
      UnbookBegins(b.(due := Last(b.booked).base, booked := Front(b.booked)));
    }
  }

  lemma CatchUpBegins(s: Settings, b: Bucket, now: int)
    requires Chained(b) && Begins(b) <= b.seen <= now
    ensures var c := CatchUp(s, b, now); Begins(c) <= c.seen == now && Chained(c)
  {
    var q := b.booked;
    var k := DropPastIsSuffix(q, now);
    LinkedSuffix(q, k);
    if k < |q| {
      assert Last(q[k..]) == Last(q);
      if k > 0 {
        LinkedAt(q, k);
      }
    }
  }

  lemma {:induction false} ForwardBegins(s: Settings, ops: seq<Op>)
    requires Forward(ops)
    ensures BegunBy(Play(s, ops), ops)
  {
    if ops != [] {
      var before, op := Front(ops), Last(ops);
      ForwardBegins(s, before);
      var run := Play(s, before);
      ScheduleIsChained(s, before);
      if Timed(op) {
        if run.bucket.Some? {
          var i :| 0 <= i < |before| && Timed(before[i]) && before[i].now == run.bucket.value.seen;
          assert ops[i] == before[i] && ops[|before|] == op;
        }
        CatchUpBegins(s, BucketAt(run, op.now), op.now);
      } else if op.OpRelease? && run.bucket.Some? {
        UnbookBegins(run.bucket.value.(booked := Mark(run.bucket.value.booked, op.id)));
      }
      if Play(s, ops).bucket.Some? && !(Timed(op) && Play(s, ops).bucket.value.seen == op.now) {
        var i :| 0 <= i < |before| && Timed(before[i]) && before[i].now == run.bucket.value.seen;
        assert ops[i] == before[i];
      }
    }
  }

  lemma ForwardPrefix(ops: seq<Op>, op: Op)
    requires Forward(ops + [op])
    ensures Forward(ops)
    ensures Timed(op) ==> forall i :: 0 <= i < |ops| && Timed(ops[i]) ==> ops[i].now <= op.now
  {
    var all := ops + [op];
    assert all[|ops|] == op;
    assert forall i :: 0 <= i < |ops| ==> all[i] == ops[i];
  }

  /** On such a clock the next operation's time is no earlier than what the
      bucket saw, so nothing is re-based. */
  lemma NoStepBack(s: Settings, ops: seq<Op>, op: Op)
    requires Forward(ops + [op]) && Timed(op)
    ensures SkewAt(Play(s, ops), op.now) == Play(s, ops).skew
  {
    var run := Play(s, ops);
    ForwardPrefix(ops, op);
    ForwardBegins(s, ops);
    if run.bucket.Some? {
      var i :| 0 <= i < |ops| && Timed(ops[i]) && ops[i].now == run.bucket.value.seen;
      assert ops[i].now <= op.now;
    }
  }

  lemma {:induction false} ForwardSkew(s: Settings, ops: seq<Op>)
    requires Forward(ops)
    ensures Play(s, ops).skew == 0
  {
    if ops != [] {
      assert Front(ops) + [Last(ops)] == ops;
      ForwardPrefix(Front(ops), Last(ops));
      ForwardSkew(s, Front(ops));
      if Timed(Last(ops)) {
        NoStepBack(s, Front(ops), Last(ops));
      }
    }
  }

  /** On a clock that never steps back, re-based time is the clock's own: a
      reservation's slot starts when the wait it was told is over. */
  lemma StartsWhenTold(s: Settings, ops: seq<Op>, now: int, cost: Positive)
    requires Forward(ops + [OpReserve(now, cost)])
    ensures var run, after := Play(s, ops), Play(s, ops + [OpReserve(now, cost)]);
            && after.skew == 0 && |after.slots| == |run.slots| + 1
            && Last(after.slots).start == now + Reserve(s, run.rate, BucketAt(run, now), now, cost).1.wait
  {
    var all := ops + [OpReserve(now, cost)];
    assert all[..|ops|] == ops;
    ForwardPrefix(ops, OpReserve(now, cost));
    ForwardSkew(s, ops);
    ForwardSkew(s, all);
    NoStepBack(s, ops, OpReserve(now, cost));
  }

  function TotalLength(q: seq<Booked>): int {
    if q == [] then 0 else TotalLength(Front(q)) + Last(q).end - Last(q).base
  }

  lemma {:induction false} ChainLength(q: seq<Booked>)
    requires Linked(q)
    ensures 0 <= TotalLength(q) && (q != [] ==> TotalLength(q) == Last(q).end - q[0].base)
    decreases |q|
  {
    if |q| > 1 {
      ChainLength(Front(q));
    }
  }

  lemma WaitAtMost(s: Settings, rate: Rate, b: Bucket, now: int, cost: Positive)
    requires Chained(b) && Begins(b) <= b.seen <= now
    ensures Reserve(s, rate, b, now, cost).1.wait <= TotalLength(CatchUp(s, b, now).booked)
  {
    CatchUpBegins(s, b, now);
    var c := CatchUp(s, b, now);
    ChainLength(c.booked);
    StartsByBase(s, rate, c, now, cost);
  }

  /** On a clock that never steps back, no reservation waits longer than the
      slots still booked take together. */
  lemma WaitBound(s: Settings, ops: seq<Op>, now: int, cost: Positive)
    requires Forward(ops + [OpReserve(now, cost)]) && Play(s, ops).bucket.Some?
    ensures var run := Play(s, ops);
            var c := CatchUp(s, run.bucket.value, now);
            Reserve(s, run.rate, run.bucket.value, now, cost).1.wait <= TotalLength(c.booked)
  {
    var run := Play(s, ops);
    ForwardPrefix(ops, OpReserve(now, cost));
    ForwardBegins(s, ops);
    ScheduleIsChained(s, ops);
    WaitAtMost(s, run.rate, run.bucket.value, now, cost);
  }

  lemma StartsByBase(s: Settings, rate: Rate, c: Bucket, now: int, cost: Positive)
    ensures Book(s, rate, c, now, cost).1.wait <= Max(c.due - now, 0)
  {
    MulMono(0, s.burst - 1, Interval(rate, c.divisor));
  }

  // ─── Giving slots back ──────────────────────────────────────────────────

  /** No slot still booked has this name: giving it back changes nothing. */
  lemma ReleaseOfUnknown(b: Bucket, id: nat)
    requires Chained(b) && forall e :: e in b.booked ==> e.id != id
    ensures Release(b, id) == b
  {
    MarkOfUnknown(b.booked, id);
  }

  lemma {:induction false} MarkOfUnknown(q: seq<Booked>, id: nat)
    requires forall e :: e in q ==> e.id != id
    ensures Mark(q, id) == q
  {
    if q != [] {
      MarkOfUnknown(q[1..], id);
    }
  }

  /** Slots given back one by one, in this order. */
  function ReleaseAll(b: Bucket, ids: seq<nat>): Bucket {
    if ids == [] then b else Release(ReleaseAll(b, ids[..|ids| - 1]), ids[|ids| - 1])
  }

  /** The booked slots, those named in `ids` given back. */
  function MarkSet(q: seq<Booked>, ids: set<nat>): (r: seq<Booked>)
    ensures |r| == |q|
    ensures forall k :: 0 <= k < |q| ==> r[k] == if q[k].id in ids then q[k].(released := true) else q[k]
  {
    if q == [] then [] else
      MarkSet(Front(q), ids) + [if Last(q).id in ids then Last(q).(released := true) else Last(q)]
  }

  lemma {:induction false} MarkIsMarkSet(q: seq<Booked>, id: nat)
    requires Linked(q)
    ensures Mark(q, id) == MarkSet(q, {id})
    decreases |q|
  {
    if q != [] {
      LinkedBelow(q);
      MarkSnoc(q, id);
      if id == Last(q).id {
        assert MarkSet(Front(q), {id}) == Front(q);
      } else {
        MarkIsMarkSet(Front(q), id);
      }
      assert Mark(q, id) == Front(Mark(q, id)) + [Last(Mark(q, id))];
    }
  }

  lemma {:induction false} MarkSetLinked(q: seq<Booked>, ids: set<nat>)
    requires Linked(q)
    ensures Linked(MarkSet(q, ids))
    decreases |q|
  {
    if q != [] {
      MarkSetLinked(Front(q), ids);
      assert Front(MarkSet(q, ids)) == MarkSet(Front(q), ids);
    }
  }

  /** Unbooking early loses nothing: the same slots are unbooked in the end. */
  lemma {:induction false} UnbookAbsorbs(b: Bucket, ids: set<nat>)
    ensures var u := Unbook(b);
            Unbook(u.(booked := MarkSet(u.booked, ids))) == Unbook(b.(booked := MarkSet(b.booked, ids)))
    decreases |b.booked|
  {
    var q := b.booked;
    if q != [] && Last(q).released && Last(q).end == b.due {
      var c := b.(due := Last(q).base, booked := Front(q));
      UnbookAbsorbs(c, ids);
      assert Front(MarkSet(q, ids)) == MarkSet(Front(q), ids);
      assert Unbook(b.(booked := MarkSet(q, ids))) == Unbook(c.(booked := MarkSet(c.booked, ids)));
    }
  }

  lemma {:induction false} UnbookIsPrefix(b: Bucket)
    ensures |Unbook(b).booked| <= |b.booked| && Unbook(b).booked == b.booked[..|Unbook(b).booked|]
    decreases |b.booked|
  {
    var q := b.booked;
    if q != [] && Last(q).released && Last(q).end == b.due {
      UnbookIsPrefix(b.(due := Last(q).base, booked := Front(q)));
    }
  }

  function Names(ids: seq<nat>): set<nat> { set id | id in ids }

  lemma NamesSnoc(ids: seq<nat>)
    requires ids != []
    ensures Names(ids) == Names(ids[..|ids| - 1]) + {ids[|ids| - 1]}
  {
    assert ids == ids[..|ids| - 1] + [ids[|ids| - 1]];
  }

  lemma MarkSetTwice(q: seq<Booked>, some: set<nat>, more: set<nat>)
    ensures MarkSet(MarkSet(q, some), more) == MarkSet(q, some + more)
    ensures MarkSet(q, {}) == q
  {
  }

  lemma ReleaseOneMore(b: Bucket, some: set<nat>, id: nat)
    requires Linked(b.booked)
    ensures Release(Unbook(b.(booked := MarkSet(b.booked, some))), id) == Unbook(b.(booked := MarkSet(b.booked, some + {id})))
  {
    var marked := b.(booked := MarkSet(b.booked, some));
    MarkSetLinked(b.booked, some);
    UnbookAbsorbs(marked, {id});
    UnbookIsPrefix(marked);
    LinkedPrefix(marked.booked, |Unbook(marked).booked|);
    MarkIsMarkSet(Unbook(marked).booked, id);
    MarkSetTwice(b.booked, some, {id});
  }

  /** Giving slots back one by one, in any order and however often, comes to
      giving them all back at once. */
  lemma {:induction false} ReleaseAllAtOnce(b: Bucket, ids: seq<nat>)
    requires Chained(b)
    ensures ReleaseAll(b, ids) == Unbook(b.(booked := MarkSet(b.booked, Names(ids))))
  {
    if ids == [] {
      MarkSetTwice(b.booked, {}, {});
    } else {
      var before, id := ids[..|ids| - 1], ids[|ids| - 1];
      ReleaseAllAtOnce(b, before);
      ReleaseOneMore(b, Names(before), id);
      NamesSnoc(ids);
    }
  }

  /** In every run, the order slots are given back in does not matter. */
  lemma ReleaseOrder(s: Settings, ops: seq<Op>, ids: seq<nat>, others: seq<nat>)
    requires Play(s, ops).bucket.Some? && Names(ids) == Names(others)
    ensures ReleaseAll(Play(s, ops).bucket.value, ids) == ReleaseAll(Play(s, ops).bucket.value, others)
  {
    var b := Play(s, ops).bucket.value;
    ScheduleIsChained(s, ops);
    ReleaseAllAtOnce(b, ids);
    ReleaseAllAtOnce(b, others);
  }
}
