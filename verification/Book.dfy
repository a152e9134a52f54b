/**
 What the workers of a broadcast run share: the recipients not reached yet, the
 retries in the order of their times, and a clock of the run's own that only
 goes forward.
 */
module Books {
  import opened Wrappers
  import opened Backoffs

  /** A retry, not to be made before `at`. */
  datatype Deferred = Deferred(at: int, index: nat, error: Error)

  /** The book's contents. The heap of waiting sends is kept as the sequence
      it would be popped in. */
  datatype BookState = BookState(
    next: nat, deferred: seq<Deferred>, attempts: seq<nat>, settled: seq<bool>,
    lastErrors: map<nat, Error>, stoppedBy: Option<nat>, seen: Option<int>, skew: nat)

  datatype Turn = Send(index: nat, retry: Option<Error>) | Wait(duration: nat) | Done

  predicate Sooner(a: Deferred, b: Deferred) {
    a.at < b.at || (a.at == b.at && a.index <= b.index)
  }

  function Insert(q: seq<Deferred>, d: Deferred): seq<Deferred> {
    if q == [] || Sooner(d, q[0]) then [d] + q else [q[0]] + Insert(q[1..], d)
  }

  /** The run's time at a reading of the pacer's clock. */
  function NowOf(b: BookState, wall: int): int {
    var now := wall + b.skew;
    if b.seen.Some? && now < b.seen.value then b.seen.value else now
  }

  /** The book after that reading. */
  function Read(b: BookState, wall: int): BookState {
    var now := wall + b.skew;
    if b.seen.Some? && now < b.seen.value then b.(skew := b.skew + (b.seen.value - now)) else b.(seen := Some(now))
  }

  /** The first recipient at or after `from` that is not settled. */
  function FirstUnsettled(settled: seq<bool>, from: nat): nat
    decreases if from < |settled| then |settled| - from else 0
  {
    if from < |settled| && settled[from] then FirstUnsettled(settled, from + 1) else from
  }

  function Next(b: BookState, wall: int): (r: (BookState, Turn))
    ensures r.1.Send? && r.1.retry.None? ==> r.1.index < |b.settled|
    ensures r.1.Send? && r.1.retry.Some? ==> b.deferred != [] && r.1.index == b.deferred[0].index
  {
    var now, c := NowOf(b, wall), Read(b, wall);
    if c.deferred != [] && c.deferred[0].at <= now then
      (c.(deferred := c.deferred[1..]), Send(c.deferred[0].index, Some(c.deferred[0].error)))
    else
      var next := FirstUnsettled(c.settled, c.next);
      if next < |c.settled| then (c.(next := next + 1), Send(next, None))
      else (c.(next := next), if c.deferred != [] then Wait(c.deferred[0].at - now) else Done)
  }

  function Defer(b: BookState, wall: int, delay: nat, index: nat, error: Error): BookState {
    Read(b, wall).(deferred := Insert(b.deferred, Deferred(NowOf(b, wall) + delay, index, error)))
  }

  /** The book, as the workers share it. */
  class Book {
    var next: nat
    var deferred: seq<Deferred>
    var attempts: seq<nat>
    var settled: seq<bool>
    var lastErrors: map<nat, Error>
    var stoppedBy: Option<nat>
    var seen: Option<int>
    var skew: nat

    constructor (settled: seq<bool>)
      ensures Contents() == BookState(0, [], seq(|settled|, _ => 0), settled, map[], None, None, 0)
    {
      next, deferred, attempts, this.settled := 0, [], seq(|settled|, _ => 0), settled;
      lastErrors, stoppedBy, seen, skew := map[], None, None, 0;
    }

    ghost function Contents(): BookState
      reads this
    {
      BookState(next, deferred, attempts, settled, lastErrors, stoppedBy, seen, skew)
    }

    /** Moves the run's clock to this reading of the pacer's, by as much as the
        latter went forward; a step back goes into the skew instead. */
    method ReadClock(wall: int) returns (now: int)
      modifies this`seen, this`skew
      ensures now == NowOf(old(Contents()), wall) && Contents() == Read(old(Contents()), wall)
    {
      now := wall + skew;
      if seen.Some? && now < seen.value {
        skew := skew + (seen.value - now);
        now := seen.value;
      } else {
        seen := Some(now);
      }
    }

    method NextTurn(wall: int) returns (turn: Turn)
      modifies this`seen, this`skew, this`next, this`deferred
      ensures (Contents(), turn) == Next(old(Contents()), wall)
    {
      var now := ReadClock(wall);
      if deferred != [] && deferred[0].at <= now {
        turn := Send(deferred[0].index, Some(deferred[0].error));
        deferred := deferred[1..];
        return;
      }
      while next < |settled| && settled[next]
        invariant FirstUnsettled(settled, next) == FirstUnsettled(settled, old(next))
        modifies this`next
        decreases |settled| - next
      {
        next := next + 1;
      }
      if next < |settled| {
        next := next + 1;
        return Send(next - 1, None);
      }
      turn := if deferred != [] then Wait(deferred[0].at - now) else Done;
    }

    /** Where the heap would pop `d`. */
    method PlaceOf(q: seq<Deferred>, d: Deferred) returns (at: nat)
      ensures at <= |q| && Insert(q, d) == q[..at] + [d] + q[at..]
    {
      at := 0;
      while at < |q| && !Sooner(d, q[at])
        invariant at <= |q|
        invariant Insert(q, d) == q[..at] + Insert(q[at..], d)
      {
        assert q[at..][1..] == q[at + 1..];
        assert q[..at + 1] == q[..at] + [q[at]];
        at := at + 1;
      }
      assert Insert(q[at..], d) == [d] + q[at..];
    }

    /** Enters a retry into the heap, timed by the run's clock. */
    method DeferSend(wall: int, delay: nat, index: nat, error: Error)
      modifies this`seen, this`skew, this`deferred
      ensures Contents() == Defer(old(Contents()), wall, delay, index, error)
    {
      var now := ReadClock(wall);
      var d := Deferred(now + delay, index, error);
      var at := PlaceOf(deferred, d);
      deferred := deferred[..at] + [d] + deferred[at..];
    }
  }

  // ─── The run's time ─────────────────────────────────────────────────────

  /** What the book answers to a sequence of readings, and where it is then. */
  function Readings(b: BookState, walls: seq<int>): (BookState, seq<int>) {
    if walls == [] then (b, []) else
      var (c, nows) := Readings(b, walls[..|walls| - 1]);
      (Read(c, walls[|walls| - 1]), nows + [NowOf(c, walls[|walls| - 1])])
  }

  /** The run's time is the clock's, each step back cancelled: it goes forward
      by exactly what the clock went forward, and stands still while it steps back. */
  lemma {:induction false} TimeIsRebased(b: BookState, walls: seq<int>)
    requires b.seen.None?
    ensures var (c, nows) := Readings(b, walls);
            && |nows| == |walls|
            && (walls != [] ==> c.seen == Some(nows[|nows| - 1]) && nows[|nows| - 1] == walls[|walls| - 1] + c.skew)
            && (walls == [] ==> c == b)
            && forall i, j :: 0 <= i && j == i + 1 < |walls| ==>
                 nows[j] - nows[i] == if walls[j] >= walls[i] then walls[j] - walls[i] else 0
  {
    if walls != [] {
      var front := walls[..|walls| - 1];
      TimeIsRebased(b, front);
      var nows := Readings(b, front).1;
      assert forall i :: 0 <= i < |front| ==> front[i] == walls[i] && Readings(b, walls).1[i] == nows[i];
    }
  }

  // ─── The heap ───────────────────────────────────────────────────────────

  ghost predicate Sorted(q: seq<Deferred>) {
    q != [] ==> Sorted(q[1..]) && forall d :: d in q[1..] ==> Sooner(q[0], d)
  }

  /** How many waiting sends are to the recipient at `index`. */
  function Waiting(q: seq<Deferred>, index: nat): nat {
    if q == [] then 0 else Waiting(q[1..], index) + if q[0].index == index then 1 else 0
  }

  lemma {:induction false} InsertHolds(q: seq<Deferred>, d: Deferred)
    ensures multiset(Insert(q, d)) == multiset(q) + multiset{d}
    ensures forall i: nat :: Waiting(Insert(q, d), i) == Waiting(q, i) + if d.index == i then 1 else 0
  {
    if q != [] && !Sooner(d, q[0]) {
      InsertHolds(q[1..], d);
      assert q == [q[0]] + q[1..];
      assert Insert(q, d)[1..] == Insert(q[1..], d);
    } else {
      assert Insert(q, d)[1..] == q;
    }
  }

  /** Pushing adds the one send, and keeps the order of popping. */
  lemma {:induction false} InsertKeeps(q: seq<Deferred>, d: Deferred)
    requires Sorted(q)
    ensures Sorted(Insert(q, d)) && multiset(Insert(q, d)) == multiset(q) + multiset{d}
  {
    InsertHolds(q, d);
    if q != [] && !Sooner(d, q[0]) {
      var r := Insert(q[1..], d);
      InsertKeeps(q[1..], d);
      assert Insert(q, d)[1..] == r;
      forall e | e in r
        ensures Sooner(q[0], e)
      {
        assert e in multiset(r);
      }
    } else {
      assert Insert(q, d)[1..] == q;
      forall e | e in q
        ensures Sooner(d, e)
      {
        assert e == q[0] || e in q[1..];
      }
    }
  }

  /** A worker told to wait finds someone due once it has waited that long,
      unless the clock stepped back or the book changed meanwhile. */
  lemma WaitIsEnough(b: BookState, wall: int, later: int)
    requires Next(b, wall).1.Wait? && wall + Next(b, wall).1.duration <= later
    ensures Next(Next(b, wall).0, later).1.Send?
  {
  }

  /** Nobody is sent to again before their time, and the earliest goes first. */
  lemma NeverEarly(b: BookState, wall: int)
    requires Sorted(b.deferred) && Next(b, wall).1.Send? && Next(b, wall).1.retry.Some?
    ensures b.deferred != [] && b.deferred[0].at <= NowOf(b, wall)
    ensures Next(b, wall).1 == Send(b.deferred[0].index, Some(b.deferred[0].error))
    ensures forall d :: d in b.deferred ==> Sooner(b.deferred[0], d)
  {
    assert forall d :: d in b.deferred ==> d == b.deferred[0] || d in b.deferred[1..];
  }
}
