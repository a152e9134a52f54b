/**
 On a clock that does not step back, every broadcast run ends: a worker that
 naps finds somebody due when it wakes, so that naps are few between two events
 that do some work.
 */
module BroadcastNaps {
  import opened Basics
  import opened Wrappers
  import opened Backoffs
  import opened Books
  import opened Broadcasts
  import opened BroadcastSafety
  import opened BroadcastEnd
  import opened BroadcastProgress
  import BroadcastTail

  // ─── A clock that does not step back ────────────────────────────────────

  /** The clock's reading that an event makes. */
  function Wall(e: Event): Option<int> {
    match e
    case Turn(_, wall, _) => Some(wall)
    case Rested(_, wall) => Some(wall)
    case Booked(_, wall, _) => Some(wall)
    case SlotDue(_, wall) => Some(wall)
    case Reacted(_, wall, _) => Some(wall)
    case _ => None
  }

  function Later(clock: int, e: Event): int { if Wall(e).Some? then Wall(e).value else clock }

  /** The last reading, the clock having read `from` at the start. */
  function Clock(from: int, events: seq<Event>): int {
    if events == [] then from else Later(Clock(from, events[..|events| - 1]), events[|events| - 1])
  }

  /** No reading is before the one before it. */
  predicate Steady(from: int, events: seq<Event>) {
    events == [] ||
    var before := events[..|events| - 1];
    Steady(from, before) && Clock(from, before) <= Clock(from, events)
  }

  /** The run's time is the clock's. */
  predicate OnTime(s: State, clock: int) {
    s.book.skew == 0 && (s.book.seen.Some? ==> s.book.seen.value <= clock)
  }

  predicate SameTime(s: State, t: State) { t.book.seen == s.book.seen && t.book.skew == s.book.skew }

  lemma TurnOnTime(c: Config, s: State, w: nat, wall: int, unmade: Option<Error>, clock: int)
    requires Shaped(c, s) && w < |s.workers| && OnTime(s, clock) && clock <= wall
    ensures OnTime(OnTurn(c, s, w, wall, unmade), wall)
  {
  }

  lemma ReactedOnTime(c: Config, s: State, w: nat, wall: int, verdict: Verdict, clock: int)
    requires Shaped(c, s) && w < |s.workers| && s.workers[w].Reacting? && OnTime(s, clock) && clock <= wall
    ensures OnTime(OnReacted(c, s, w, wall, verdict), wall)
  {
  }

  lemma BookedSameTime(c: Config, s: State, w: nat, wall: int, wait: Result<nat, Error>)
    requires Shaped(c, s) && w < |s.workers| && s.workers[w].Reserving?
    ensures SameTime(s, OnBooked(c, s, w, wall, wait))
  {
  }

  lemma AnsweredSameTime(c: Config, s: State, w: nat, answer: Try)
    requires Shaped(c, s) && w < |s.workers| && s.workers[w].Sending?
    ensures SameTime(s, OnAnswered(c, s, w, answer))
  {
  }

  lemma StepOnTime(c: Config, s: State, e: Event, clock: int)
    requires Shaped(c, s) && OnTime(s, clock) && clock <= Later(clock, e)
    ensures OnTime(Step(c, s, e), Later(clock, e))
  {
    if Mover(e).Some? && Announced(c, s) && Mover(e).value < |s.workers| {
      match e
      case Turn(w, wall, unmade) => TurnOnTime(c, s, w, wall, unmade, clock);
      case Booked(w, wall, wait) => if s.workers[w].Reserving? { BookedSameTime(c, s, w, wall, wait); }
      case Answered(w, answer) => if s.workers[w].Sending? { AnsweredSameTime(c, s, w, answer); }
      case Reacted(w, wall, verdict) => if Answers(c, s.workers[w], verdict) { ReactedOnTime(c, s, w, wall, verdict, clock); }
      case _ =>
    }
  }

  // ─── The naps left ──────────────────────────────────────────────────────

  /** By that time nobody waits, or the first who does is due. */
  predicate Due(b: BookState, time: int) { b.deferred == [] || b.deferred[0].at <= time }

  /** The naps a worker can still begin or end before it does some work. */
  function NapsOf(b: BookState, x: Worker, clock: int): int {
    match x
    case Looping => if Due(b, clock) then 0 else 2
    case Napping(until) => if Due(b, until) then 1 else 3
    case _ => 0
  }

  function NapsOfEach(s: State, clock: int): nat -> int {
    (w: nat) => if w < |s.workers| then NapsOf(s.book, s.workers[w], clock) else 0
  }

  function Naps(s: State, clock: int): int { Sum(NapsOfEach(s, clock), |s.workers|) }

  lemma NapsBetween(s: State, clock: int)
    ensures 0 <= Naps(s, clock) <= 3 * |s.workers|
  {
    SumPositive(NapsOfEach(s, clock), |s.workers|);
    SumConstant(NapsOfEach(s, clock), 3, |s.workers|);
  }

  lemma {:induction false} SumLower(f: nat -> int, g: nat -> int, n: nat)
    requires forall j: nat :: j < n ==> g(j) <= f(j)
    ensures Sum(g, n) <= Sum(f, n)
    ensures (exists j: nat :: j < n && g(j) < f(j)) ==> Sum(g, n) < Sum(f, n)
  {
    if n > 0 {
      SumLower(f, g, n - 1);
    }
  }

  /** A nap begun lasts until somebody is due, and one ended finds somebody due,
      or was begun for somebody else. */
  lemma NapMoves(c: Config, s: State, e: Event, clock: int)
    requires Shaped(c, s) && OnTime(s, clock) && clock <= Later(clock, e)
    requires IsNap(c, s, e) && Step(c, s, e) != s
    ensures var t, w := Step(c, s, e), Mover(e).value;
            && t.workers == s.workers[w := t.workers[w]] && t.book.deferred == s.book.deferred
            && NapsOf(t.book, t.workers[w], Later(clock, e)) < NapsOf(s.book, s.workers[w], clock)
  {
  }

  lemma NapsGo(c: Config, s: State, e: Event, clock: int)
    requires Shaped(c, s) && OnTime(s, clock) && clock <= Later(clock, e)
    requires IsNap(c, s, e) && Step(c, s, e) != s
    ensures Naps(Step(c, s, e), Later(clock, e)) < Naps(s, clock)
  {
    var t, w, later := Step(c, s, e), Mover(e).value, Later(clock, e);
    NapMoves(c, s, e, clock);
    var f, g := NapsOfEach(s, clock), NapsOfEach(t, later);
    assert g(w) < f(w);
    forall j: nat | j < |s.workers|
      ensures g(j) <= f(j)
    {
      if j != w {
        assert t.workers[j] == s.workers[j];
      }
    }
    SumLower(f, g, |s.workers|);
  }

  /** As time goes on, and nothing else happens, no more naps are left. */
  lemma NapsStay(s: State, clock: int, later: int)
    requires clock <= later
    ensures Naps(s, later) <= Naps(s, clock)
  {
    SumLower(NapsOfEach(s, clock), NapsOfEach(s, later), |s.workers|);
  }

  // ─── Every run ends ─────────────────────────────────────────────────────

  /** The events left that change anything: each bit of work, and the naps before
      and between them. */
  function EventsLeft(c: Config, s: State, most: nat, clock: int): int {
    Work(c, s, most) * (3 * Workers(c) + 1) + Naps(s, clock)
  }

  lemma LessWork(work: int, less: int, naps: int, more: int, n: nat)
    requires less < work && 0 <= naps && more <= 3 * n
    ensures less * (3 * n + 1) + more < work * (3 * n + 1) + naps
  {
    assert (work - less - 1) * (3 * n + 1) >= 0;
  }

  lemma AsMuchWork(work: int, less: int, n: nat)
    requires less <= work
    ensures less * (3 * n + 1) <= work * (3 * n + 1)
  {
    assert (work - less) * (3 * n + 1) >= 0;
  }

  /** Every event that changes anything leaves fewer to come. */
  lemma StepLeavesFewer(c: Config, s: State, e: Event, most: nat, clock: int)
    requires Inv(c, s) && AllFew(c, s, most) && Bounded(c, most) && |s.workers| == Workers(c)
    requires OnTime(s, clock) && clock <= Later(clock, e)
    ensures Step(c, s, e) != s ==> EventsLeft(c, Step(c, s, e), most, Later(clock, e)) < EventsLeft(c, s, most, clock)
    ensures EventsLeft(c, Step(c, s, e), most, Later(clock, e)) <= EventsLeft(c, s, most, clock)
  {
    var t, later := Step(c, s, e), Later(clock, e);
    StepGoes(c, s, e, most);
    NapsBetween(s, clock);
    BroadcastTail.StepCast(c, s, e);
    NapsBetween(t, later);
    if t == s {
      NapsStay(s, clock, later);
    } else if Work(c, t, most) < Work(c, s, most) {
      LessWork(Work(c, s, most), Work(c, t, most), Naps(s, clock), Naps(t, later), Workers(c));
    } else {
      NapsGo(c, s, e, clock);
      AsMuchWork(Work(c, s, most), Work(c, t, most), Workers(c));
    }
  }

  /** How many of the events changed anything. */
  ghost function Effective(c: Config, events: seq<Event>): nat {
    if events == [] then 0 else
      var before, e := events[..|events| - 1], events[|events| - 1];
      Effective(c, before) + if Step(c, Run(c, before), e) == Run(c, before) then 0 else 1
  }

  lemma {:induction false} RunOnTime(c: Config, from: int, events: seq<Event>)
    requires Steady(from, events)
    ensures OnTime(Run(c, events), Clock(from, events))
  {
    if events != [] {
      var before := events[..|events| - 1];
      RunOnTime(c, from, before);
      StepOnTime(c, Run(c, before), events[|events| - 1], Clock(from, before));
    }
  }

  lemma {:induction false} FewerEachTime(c: Config, from: int, events: seq<Event>, most: nat)
    requires Bounded(c, most) && Steady(from, events)
    ensures Effective(c, events) <= EventsLeft(c, Init(c), most, from) - EventsLeft(c, Run(c, events), most, Clock(from, events))
  {
    if events != [] {
      var before := events[..|events| - 1];
      FewerEachTime(c, from, before, most);
      RunOnTime(c, from, before);
      RunFew(c, before, most);
      BroadcastTail.RunCast(c, before);
      StepLeavesFewer(c, Run(c, before), events[|events| - 1], most, Clock(from, before));
    }
  }

  lemma LeftAtFirst(c: Config, most: nat, from: int)
    ensures EventsLeft(c, Init(c), most, from) <=
            ((10 * most + 5) * c.total + Workers(c) + 1 + |c.duplicates|) * (3 * Workers(c) + 1)
  {
    var s := Init(c);
    WorkAtFirst(c, most);
    AsMuchWork((10 * most + 5) * c.total + Workers(c) + 1 + |c.duplicates|, Work(c, s, most), Workers(c));
    SumConstant(NapsOfEach(s, from), 0, |s.workers|);
  }

  lemma WorkLeft(c: Config, events: seq<Event>, most: nat)
    requires Bounded(c, most)
    ensures Work(c, Run(c, events), most) >= 0
  {
    RunFew(c, events, most);
    RunAnnounced(c, events);
    WorkIsPositive(c, Run(c, events), most);
  }

  lemma SomeLeft(c: Config, s: State, most: nat, clock: int)
    requires Work(c, s, most) >= 0
    ensures EventsLeft(c, s, most, clock) >= 0
  {
    NapsBetween(s, clock);
    NotNegative(Work(c, s, most), 3 * Workers(c) + 1);
  }

  lemma NotNegative(a: int, b: int)
    requires a >= 0 && b >= 0
    ensures a * b >= 0
  {
  }

  /** On a clock that does not step back, whatever it reads and whatever is
      answered, a run has no more events that change anything, naps and all,
      than a number fixed at the start. */
  lemma SteadyRunsEnd(c: Config, from: int, events: seq<Event>, most: nat)
    requires Bounded(c, most) && Steady(from, events)
    ensures Effective(c, events) <= ((10 * most + 5) * c.total + Workers(c) + 1 + |c.duplicates|) * (3 * Workers(c) + 1)
  {
    FewerEachTime(c, from, events, most);
    WorkLeft(c, events, most);
    SomeLeft(c, Run(c, events), most, Clock(from, events));
    LeftAtFirst(c, most, from);
  }

  /** What a worker that has not returned can do next, no earlier than `clock`. */
  ghost function EventFrom(c: Config, s: State, w: nat, clock: int): Event
    requires w < |s.workers| && Responsive(c)
  {
    if !Announced(c, s) then Announce(true) else
    match s.workers[w]
    case Looping => Turn(w, clock, None)
    case Napping(until) => Rested(w, Max(clock, until))
    case Reserving(_, _) => Booked(w, clock, Ok(0))
    case Waiting(_, _, _, until) => SlotDue(w, Max(clock, until))
    case Sending(_, _) => Answered(w, Accepted(0))
    case Reacting(_, e, failures) => Reacted(w, clock, Reply(c, e, failures))
    case Releasing(_, _, _) => Released(w)
    case Recording(_, _) => Recorded(w, true)
    case Returned => Cancel
  }

  lemma EventFromMoves(c: Config, s: State, w: nat, clock: int)
    requires Shaped(c, s) && s.announced <= |c.duplicates| && w < |s.workers| && !s.workers[w].Returned? && Responsive(c)
    ensures Step(c, s, EventFrom(c, s, w, clock)) != s && clock <= Later(clock, EventFrom(c, s, w, clock))
  {
    if Announced(c, s) {
      assert Step(c, s, EventFrom(c, s, w, clock)).workers[w] != s.workers[w];
    }
  }

  /** While a worker has not returned, some event on such a clock changes the
      state, and no cancel is needed for that. */
  lemma CanGoOn(c: Config, from: int, events: seq<Event>, w: nat) returns (e: Event)
    requires Responsive(c) && Steady(from, events)
    requires w < |Run(c, events).workers| && !Run(c, events).workers[w].Returned?
    ensures !e.Cancel? && Steady(from, events + [e]) && Step(c, Run(c, events), e) != Run(c, events)
  {
    e := EventFrom(c, Run(c, events), w, Clock(from, events));
    RunAnnounced(c, events);
    EventFromMoves(c, Run(c, events), w, Clock(from, events));
    assert (events + [e])[..|events|] == events;
  }

  /** Nothing but a cancel could still change the run, on such a clock. */
  ghost predicate Over(c: Config, from: int, events: seq<Event>) {
    forall e: Event :: !e.Cancel? && Steady(from, events + [e]) ==> Step(c, Run(c, events), e) == Run(c, events)
  }

  /** And when no event but a cancel changes anything any more, every worker has
      returned: so every run on such a clock that goes on while it can ends with
      all of them home, cancelled or not. */
  lemma EndsAtHome(c: Config, from: int, events: seq<Event>)
    requires Responsive(c) && Steady(from, events) && Over(c, from, events)
    ensures BroadcastTail.AllReturned(Run(c, events))
  {
    if w :| 0 <= w < |Run(c, events).workers| && !Run(c, events).workers[w].Returned? {
      var e := CanGoOn(c, from, events, w);
    }
  }

  /** When it has, and nothing halted it, everybody has been settled and nobody
      waits for a retry. */
  lemma EndsSettled(c: Config, from: int, events: seq<Event>)
    requires Built(c) && Responsive(c) && Steady(from, events) && Over(c, from, events)
    requires !Halted(Run(c, events))
    ensures Run(c, events).book.deferred == []
    ensures forall i :: 0 <= i < c.total ==> Run(c, events).outcomes[i].Some?
  {
    EndsAtHome(c, from, events);
    RunEnds(c, events);
    BroadcastTail.RunCast(c, events);
    BroadcastTail.NobodyLeft(c, Run(c, events));
  }
}
