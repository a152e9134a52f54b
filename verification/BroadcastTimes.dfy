/**
 When a broadcast run sends, read from its events: never before the wait a slot
 was booked with is over, never again before the delay the policy asked for is,
 and then without putting it off.
 */
module BroadcastTimes {
  import opened Wrappers
  import opened Backoffs
  import opened Books
  import opened Broadcasts
  import opened BroadcastSafety

  /** Until the duplicates have been announced no worker does anything. */
  lemma {:induction false} NobodyBefore(c: Config, events: seq<Event>)
    ensures var s := Run(c, events); Announced(c, s) || forall w :: 0 <= w < |s.workers| ==> s.workers[w].Looping?
  {
    if events != [] {
      NobodyBefore(c, events[..|events| - 1]);
      AnnouncedStays(c, Run(c, events[..|events| - 1]), events[|events| - 1]);
    }
  }

  lemma AnnouncedStays(c: Config, s: State, e: Event)
    requires Shaped(c, s)
    ensures Announced(c, s) ==> Announced(c, Step(c, s, e))
    ensures !Announced(c, s) ==> Step(c, s, e).workers == s.workers
  {
  }

  // ─── What one event moves ───────────────────────────────────────────────

  /** Only worker `w` moved. */
  ghost predicate MovesOnly(s: State, t: State, w: nat) {
    w < |s.workers| == |t.workers| && t.workers == s.workers[w := t.workers[w]]
  }

  /** Nor did any recipient but the one in its hands. */
  ghost predicate TouchesOwn(s: State, t: State, w: nat) {
    && w < |s.workers| && |t.place| == |s.place|
    && forall j :: 0 <= j < |s.place| && Claim(s.workers[w]) != Some(j) ==> t.place[j] == s.place[j]
  }

  /** And neither waits for a slot now nor sends, nor is anyone new in the heap. */
  ghost predicate Quiet(s: State, t: State, w: nat) {
    MovesOnly(s, t, w) && !t.workers[w].Waiting? && !t.workers[w].Sending?
    && forall d :: d in t.book.deferred ==> d in s.book.deferred
  }

  lemma TurnQuiet(c: Config, s: State, w: nat, wall: int, unmade: Option<Error>)
    requires Shaped(c, s) && w < |s.workers|
    ensures Quiet(s, OnTurn(c, s, w, wall, unmade), w)
  {
  }

  lemma AnsweredQuiet(c: Config, s: State, w: nat, answer: Try)
    requires Shaped(c, s) && w < |s.workers| && s.workers[w].Sending?
    ensures Quiet(s, OnAnswered(c, s, w, answer), w) && TouchesOwn(s, OnAnswered(c, s, w, answer), w)
  {
  }

  lemma RecordedQuiet(c: Config, s: State, w: nat, ok: bool)
    requires Shaped(c, s) && w < |s.workers| && s.workers[w].Recording?
    ensures Quiet(s, OnRecorded(c, s, w, ok), w) && TouchesOwn(s, OnRecorded(c, s, w, ok), w)
  {
  }

  lemma ReleasedQuiet(c: Config, s: State, w: nat)
    requires Shaped(c, s) && w < |s.workers| && s.workers[w].Releasing?
    ensures Quiet(s, OnReleased(c, s, w), w) && TouchesOwn(s, OnReleased(c, s, w), w)
  {
  }

  lemma BookedMoves(c: Config, s: State, w: nat, wall: int, wait: Result<nat, Error>)
    requires Shaped(c, s) && w < |s.workers| && s.workers[w].Reserving?
    ensures var t := OnBooked(c, s, w, wall, wait);
            && MovesOnly(s, t, w) && TouchesOwn(s, t, w) && !t.workers[w].Sending? && t.book.deferred == s.book.deferred
            && (t.workers[w].Waiting? ==> wait.Ok? && t.workers[w].until == wall + wait.value)
  {
  }

  lemma SlotDueMoves(c: Config, s: State, w: nat, wall: int)
    requires Shaped(c, s) && w < |s.workers| && s.workers[w].Waiting?
    ensures var t := OnSlotDue(c, s, w, wall);
            && MovesOnly(s, t, w) && TouchesOwn(s, t, w) && t.book.deferred == s.book.deferred
            && (t.workers[w].Waiting? ==> t == s)
            && (t.workers[w].Sending? ==> wall >= s.workers[w].until && t.workers[w].index == s.workers[w].index)
  {
  }

  lemma InsertedOnly(q: seq<Deferred>, n: Deferred, d: Deferred)
    requires d in Insert(q, n) && d !in q
    ensures d == n
  {
    InsertHolds(q, n);
    assert d in multiset(Insert(q, n));
  }

  /** A verdict enters its retry into the heap, and nothing else. */
  lemma ReactedHeap(c: Config, s: State, w: nat, wall: int, verdict: Verdict, d: Deferred)
    requires Shaped(c, s) && w < |s.workers| && s.workers[w].Reacting?
    requires d in OnReacted(c, s, w, wall, verdict).book.deferred && d !in s.book.deferred
    ensures verdict.RetryAfter? && s.workers[w].error.mayResend
    ensures d == Deferred(NowOf(s.book, wall) + verdict.delay, s.workers[w].index, s.workers[w].error)
  {
    var x := s.workers[w];
    if verdict.RetryAfter? && x.error.mayResend {
      InsertedOnly(s.book.deferred, Deferred(NowOf(s.book, wall) + verdict.delay, x.index, x.error), d);
    }
  }

  lemma ReactedMoves(c: Config, s: State, w: nat, wall: int, verdict: Verdict, d: Deferred)
    requires Shaped(c, s) && w < |s.workers| && s.workers[w].Reacting?
    ensures var t := OnReacted(c, s, w, wall, verdict);
            && MovesOnly(s, t, w) && TouchesOwn(s, t, w) && !t.workers[w].Waiting? && !t.workers[w].Sending?
            && (d in t.book.deferred && d !in s.book.deferred ==>
                  && verdict.RetryAfter? && d.index == s.workers[w].index && t.place[d.index].Retrying?
                  && d.at == NowOf(s.book, wall) + verdict.delay)
  {
    if d in OnReacted(c, s, w, wall, verdict).book.deferred && d !in s.book.deferred {
      ReactedHeap(c, s, w, wall, verdict, d);
    }
  }

  /** The event that can make the worker wait for a slot, or send. */
  lemma StepMoves(c: Config, s: State, e: Event, w: nat)
    requires Shaped(c, s) && w < |Step(c, s, e).workers|
    ensures w < |s.workers|
    ensures var t := Step(c, s, e);
            && (t.workers[w].Waiting? && s.workers[w] != t.workers[w] ==>
                  e.Booked? && e.worker == w && e.wait.Ok? && t.workers[w].until == e.wall + e.wait.value)
            && (t.workers[w].Sending? && s.workers[w] != t.workers[w] ==>
                  e.SlotDue? && e.worker == w && s.workers[w].Waiting? && e.wall >= s.workers[w].until)
  {
    if Mover(e).Some? && Announced(c, s) && Mover(e).value < |s.workers| {
      match e
      case Turn(v, wall, unmade) => if s.workers[v].Looping? { TurnQuiet(c, s, v, wall, unmade); }
      case Rested(_, _) =>
      case Booked(v, wall, wait) => if s.workers[v].Reserving? { BookedMoves(c, s, v, wall, wait); }
      case SlotDue(v, wall) => if s.workers[v].Waiting? { SlotDueMoves(c, s, v, wall); }
      case Released(v) => if s.workers[v].Releasing? { ReleasedQuiet(c, s, v); }
      case Answered(v, answer) => if s.workers[v].Sending? { AnsweredQuiet(c, s, v, answer); }
      case Reacted(v, wall, verdict) =>
        if Answers(c, s.workers[v], verdict) { ReactedMoves(c, s, v, wall, verdict, Deferred(0, 0, s.workers[v].error)); }
      case Recorded(v, ok) => if s.workers[v].Recording? { RecordedQuiet(c, s, v, ok); }
    }
  }

  // ─── A slot's wait ──────────────────────────────────────────────────────

  /** The clock's reading at the worker's last booking, and the wait it was told. */
  ghost function LastBooking(c: Config, events: seq<Event>, w: nat): Option<(int, nat)> {
    if events == [] then None else
      var before, e := events[..|events| - 1], events[|events| - 1];
      if e.Booked? && e.worker == w && e.wait.Ok? && Run(c, events) != Run(c, before)
      then Some((e.wall, e.wait.value)) else LastBooking(c, before, w)
  }

  /** A worker that waits already books nothing. */
  lemma BookedNothing(c: Config, s: State, e: Event, w: nat)
    requires Shaped(c, s) && w < |s.workers| && s.workers[w].Waiting?
    ensures e.Booked? && e.worker == w ==> Step(c, s, e) == s
  {
  }

  lemma {:induction false} WaitsAsBooked(c: Config, events: seq<Event>, w: nat)
    requires w < |Run(c, events).workers| && Run(c, events).workers[w].Waiting?
    ensures LastBooking(c, events, w).Some?
    ensures var (wall, wait) := LastBooking(c, events, w).value; Run(c, events).workers[w].until == wall + wait
  {
    var before, e := events[..|events| - 1], events[|events| - 1];
    var s := Run(c, before);
    StepMoves(c, s, e, w);
    if s.workers[w] == Step(c, s, e).workers[w] {
      WaitsAsBooked(c, before, w);
      BookedNothing(c, s, e, w);
    }
  }

  /** In every run, a worker that begins to send does so at a reading no earlier
      than its last booking's and the wait it was told then together. */
  lemma SendsInTime(c: Config, events: seq<Event>, e: Event, w: nat)
    requires w < |Run(c, events).workers| && !Run(c, events).workers[w].Sending?
    requires w < |Step(c, Run(c, events), e).workers| && Step(c, Run(c, events), e).workers[w].Sending?
    ensures e.SlotDue? && e.worker == w && LastBooking(c, events, w).Some?
    ensures var (wall, wait) := LastBooking(c, events, w).value; e.wall >= wall + wait
  {
    StepMoves(c, Run(c, events), e, w);
    WaitsAsBooked(c, events, w);
  }

  /** A worker that waits sends exactly once its slot is due. */
  lemma DueExactly(c: Config, s: State, w: nat, reading: int)
    requires Shaped(c, s) && Announced(c, s) && w < |s.workers| && s.workers[w].Waiting? && !Halted(s)
    ensures var t, x := Step(c, s, SlotDue(w, reading)), s.workers[w];
            && |t.workers| == |s.workers|
            && (reading >= x.until ==> t.workers[w].Sending? && t.workers[w].index == x.index)
            && (reading < x.until ==> t == s)
  {
  }

  /** And while the run is not halted, at such a reading it does, and at no earlier
      one does anything. */
  lemma SendsWhenDue(c: Config, events: seq<Event>, w: nat, reading: int)
    requires var s := Run(c, events); w < |s.workers| && s.workers[w].Waiting? && !Halted(s)
    ensures LastBooking(c, events, w).Some?
    ensures var s, (wall, wait) := Run(c, events), LastBooking(c, events, w).value;
            var t := Step(c, s, SlotDue(w, reading));
            && |t.workers| == |s.workers|
            && (reading >= wall + wait ==> t.workers[w].Sending? && t.workers[w].index == s.workers[w].index)
            && (reading < wall + wait ==> t == s)
  {
    WaitsAsBooked(c, events, w);
    NobodyBefore(c, events);
    DueExactly(c, Run(c, events), w, reading);
  }

  // ─── A retry's delay ────────────────────────────────────────────────────

  /** An event is the policy's verdict to send to the recipient again. */
  predicate PutsOff(s: State, e: Event, t: State, i: nat) {
    && i < |s.place| == |t.place| && e.Reacted? && e.verdict.RetryAfter?
    && s.place[i] == With(e.worker) && t.place[i].Retrying?
  }

  /** The times the recipients are due at, after the event. */
  function DuesAfter(dues: seq<Option<int>>, s: State, e: Event, t: State): (after: seq<Option<int>>)
    ensures |after| == |dues|
  {
    seq(|dues|, i requires 0 <= i < |dues| =>
      if PutsOff(s, e, t, i) then Some(NowOf(s.book, e.wall) + e.verdict.delay) else dues[i])
  }

  ghost function Dues(c: Config, events: seq<Event>): (dues: seq<Option<int>>)
    ensures |dues| == c.total
  {
    if events == [] then seq(c.total, _ => None) else
      var before := events[..|events| - 1];
      DuesAfter(Dues(c, before), Run(c, before), events[|events| - 1], Run(c, events))
  }

  /** The run's time from which the recipient may be sent to again: that of the
      last verdict that put it off, and the delay the verdict asked for. */
  ghost function DueTime(c: Config, events: seq<Event>, i: nat): Option<int>
    requires i < c.total
  {
    Dues(c, events)[i]
  }

  /** The heap's entries are due at those times. */
  ghost predicate HeapDue(s: State, dues: seq<Option<int>>) {
    forall d :: d in s.book.deferred ==> d.index < |dues| && dues[d.index] == Some(d.at)
  }

  /** What an event enters into the heap: nothing, or the retry of a verdict. */
  lemma HeapGrows(c: Config, s: State, e: Event, d: Deferred)
    requires Inv(c, s) && d in Step(c, s, e).book.deferred && d !in s.book.deferred
    ensures e.Reacted? && e.verdict.RetryAfter? && d.index < c.total
    ensures s.place[d.index] == With(e.worker) && Step(c, s, e).place[d.index].Retrying?
    ensures d.at == NowOf(s.book, e.wall) + e.verdict.delay
  {
    if Mover(e).Some? && Announced(c, s) && Mover(e).value < |s.workers| {
      match e
      case Turn(v, wall, unmade) => if s.workers[v].Looping? { TurnQuiet(c, s, v, wall, unmade); }
      case Rested(_, _) =>
      case Booked(v, wall, wait) => if s.workers[v].Reserving? { BookedMoves(c, s, v, wall, wait); }
      case SlotDue(v, wall) => if s.workers[v].Waiting? { SlotDueMoves(c, s, v, wall); }
      case Released(v) => if s.workers[v].Releasing? { ReleasedQuiet(c, s, v); }
      case Answered(v, answer) => if s.workers[v].Sending? { AnsweredQuiet(c, s, v, answer); }
      case Reacted(v, wall, verdict) =>
        if Answers(c, s.workers[v], verdict) { ReactedMoves(c, s, v, wall, verdict, d); }
      case Recorded(v, ok) => if s.workers[v].Recording? { RecordedQuiet(c, s, v, ok); }
    }
  }

  lemma HeapStays(c: Config, s: State, d: Deferred)
    requires Inv(c, s) && d in s.book.deferred
    ensures d.index < c.total && s.place[d.index].Retrying?
  {
    WaitingIsHeld(s.book.deferred, d.index);
  }

  /** Who was waiting is not put off now, and who is in the heap now and was not is. */
  lemma EntryPutOff(c: Config, s: State, e: Event, t: State, d: Deferred)
    requires Inv(c, s) && t == Step(c, s, e) && d in t.book.deferred
    ensures d.index < c.total
    ensures if d in s.book.deferred then !PutsOff(s, e, t, d.index)
            else PutsOff(s, e, t, d.index) && d.at == NowOf(s.book, e.wall) + e.verdict.delay
  {
    if d in s.book.deferred {
      HeapStays(c, s, d);
    } else {
      HeapGrows(c, s, e, d);
      StepKeeps(c, s, e);
    }
  }

  lemma StepDue(c: Config, s: State, e: Event, dues: seq<Option<int>>)
    requires Inv(c, s) && |dues| == c.total && HeapDue(s, dues)
    ensures HeapDue(Step(c, s, e), DuesAfter(dues, s, e, Step(c, s, e)))
  {
    var t := Step(c, s, e);
    forall d | d in t.book.deferred
      ensures d.index < c.total && DuesAfter(dues, s, e, t)[d.index] == Some(d.at)
    {
      EntryPutOff(c, s, e, t, d);
    }
  }

  lemma {:induction false} RunDue(c: Config, events: seq<Event>)
    ensures HeapDue(Run(c, events), Dues(c, events))
  {
    if events != [] {
      var before := events[..|events| - 1];
      RunDue(c, before);
      StepDue(c, Run(c, before), events[|events| - 1], Dues(c, before));
    }
  }

  /** A recipient that waits for a retry is due at its time, and nobody else is
      in the heap. */
  lemma InHeap(c: Config, events: seq<Event>, i: nat) returns (d: Deferred)
    requires i < c.total && Run(c, events).place[i].Retrying?
    ensures d in Run(c, events).book.deferred && d.index == i && DueTime(c, events, i) == Some(d.at)
  {
    WaitingIsHeld(Run(c, events).book.deferred, i);
    RunDue(c, events);
    d :| d in Run(c, events).book.deferred && d.index == i;
  }

  /** A turn takes whoever waits only off the front of the heap. */
  lemma TurnTakesFront(c: Config, s: State, w: nat, wall: int, unmade: Option<Error>, i: nat)
    requires Inv(c, s) && w < |s.workers| && s.workers[w].Looping? && i < c.total && s.place[i].Retrying?
    requires !OnTurn(c, s, w, wall, unmade).place[i].Retrying?
    ensures s.book.deferred != [] && s.book.deferred[0].index == i && s.book.deferred[0].at <= NowOf(s.book, wall)
  {
    FirstUnsettledSkips(s.book.settled, s.book.next);
    assert RecipientOk(s, i);
  }

  /** And nothing else does. */
  lemma OnlyTurnsTake(c: Config, s: State, e: Event, i: nat)
    requires Inv(c, s) && i < c.total && s.place[i].Retrying?
    ensures |Step(c, s, e).place| == c.total
    ensures Step(c, s, e).place[i] == s.place[i]
            || (e.Turn? && e.worker < |s.workers| && s.workers[e.worker].Looping? && Announced(c, s))
  {
    StepKeeps(c, s, e);
    if Mover(e).Some? && Announced(c, s) && Mover(e).value < |s.workers| {
      assert Claim(s.workers[Mover(e).value]) != Some(i);
      match e
      case Turn(_, _, _) =>
      case Rested(_, _) =>
      case Booked(v, wall, wait) => if s.workers[v].Reserving? { BookedMoves(c, s, v, wall, wait); }
      case SlotDue(v, wall) => if s.workers[v].Waiting? { SlotDueMoves(c, s, v, wall); }
      case Released(v) => if s.workers[v].Releasing? { ReleasedQuiet(c, s, v); }
      case Answered(v, answer) => if s.workers[v].Sending? { AnsweredQuiet(c, s, v, answer); }
      case Reacted(v, wall, verdict) =>
        if Answers(c, s.workers[v], verdict) { ReactedMoves(c, s, v, wall, verdict, Deferred(0, 0, s.workers[v].error)); }
      case Recorded(v, ok) => if s.workers[v].Recording? { RecordedQuiet(c, s, v, ok); }
    }
  }

  /** In every run, a recipient is taken for a retry only when the run's time has
      reached that of the verdict that put it off and the delay it asked for. */
  lemma RetriesInTime(c: Config, events: seq<Event>, e: Event, i: nat)
    requires i < c.total && Run(c, events).place[i].Retrying? && !Run(c, events + [e]).place[i].Retrying?
    ensures e.Turn? && DueTime(c, events, i).Some?
    ensures NowOf(Run(c, events).book, e.wall) >= DueTime(c, events, i).value
  {
    var s := Run(c, events);
    assert (events + [e])[..|events|] == events;
    OnlyTurnsTake(c, s, e, i);
    TurnTakesFront(c, s, e.worker, e.wall, e.unmade, i);
    RunDue(c, events);
    assert s.book.deferred[0] in s.book.deferred;
  }

  /** And once somebody's time has come, a worker that looks takes a retry, before
      anyone new: the one whose time came first. */
  lemma DueIsTaken(c: Config, events: seq<Event>, w: nat, wall: int, unmade: Option<Error>, i: nat) returns (j: nat)
    requires var s := Run(c, events);
             && w < |s.workers| && s.workers[w].Looping? && Announced(c, s) && !Halted(s)
             && i < c.total && s.place[i].Retrying?
             && DueTime(c, events, i).Some? && NowOf(s.book, wall) >= DueTime(c, events, i).value
    ensures j < c.total && Run(c, events).place[j].Retrying?
    ensures DueTime(c, events, j).Some? && DueTime(c, events, j).value <= DueTime(c, events, i).value
    ensures var t := Step(c, Run(c, events), Turn(w, wall, unmade));
            && t.place == Run(c, events).place[j := With(w)]
            && w < |t.workers| && t.workers[w] == Reserving(j, LastError(Run(c, events).tries[j]))
  {
    var s := Run(c, events);
    var d := InHeap(c, events, i);
    var first := s.book.deferred[0];
    assert d == first || d in s.book.deferred[1..];
    assert first in s.book.deferred;
    RunDue(c, events);
    HeapStays(c, s, first);
    j := first.index;
  }

  /** What a turn that leads to a nap comes to. */
  lemma NapIs(c: Config, s: State, w: nat, wall: int, unmade: Option<Error>)
    requires Shaped(c, s) && w < |s.workers| && s.workers[w].Looping? && OnTurn(c, s, w, wall, unmade).workers[w].Napping?
    ensures var t := OnTurn(c, s, w, wall, unmade);
            && s.book.deferred != [] && !Halted(t) && t.announced == s.announced && |t.workers| == |s.workers|
            && t.workers[w].until == wall + s.book.deferred[0].at - NowOf(s.book, wall)
  {
  }

  lemma RestedWakes(c: Config, t: State, w: nat, later: int)
    requires Shaped(c, t) && Announced(c, t) && w < |t.workers| && t.workers[w].Napping? && !Halted(t)
    ensures |Step(c, t, Rested(w, later)).workers| == |t.workers|
    ensures Step(c, t, Rested(w, later)).workers[w].Looping? <==> later >= t.workers[w].until
  {
  }

  /** A worker told to wait sleeps exactly until somebody's time has come, by the
      clock it looked at: unless the run halts it wakes then, and not before. */
  lemma NapsUntilDue(c: Config, events: seq<Event>, w: nat, wall: int, unmade: Option<Error>, later: int) returns (i: nat)
    requires var s := Run(c, events);
             && w < |s.workers| && s.workers[w].Looping? && Announced(c, s)
             && var t := Run(c, events + [Turn(w, wall, unmade)]); w < |t.workers| && t.workers[w].Napping?
    ensures i < c.total && Run(c, events).place[i].Retrying? && DueTime(c, events, i).Some?
    ensures forall j :: 0 <= j < c.total && Run(c, events).place[j].Retrying? ==>
              DueTime(c, events, j).Some? && DueTime(c, events, i).value <= DueTime(c, events, j).value
    ensures var t := Run(c, events + [Turn(w, wall, unmade)]);
            && w < |t.workers| && t.workers[w].Napping? && w < |Step(c, t, Rested(w, later)).workers|
            && (Step(c, t, Rested(w, later)).workers[w].Looping? <==>
                later - wall >= DueTime(c, events, i).value - NowOf(Run(c, events).book, wall))
  {
    var s := Run(c, events);
    assert (events + [Turn(w, wall, unmade)])[..|events|] == events;
    NapIs(c, s, w, wall, unmade);
    var first := s.book.deferred[0];
    assert first in s.book.deferred;
    RunDue(c, events);
    HeapStays(c, s, first);
    i := first.index;
    RestedWakes(c, Run(c, events + [Turn(w, wall, unmade)]), w, later);
    forall j | 0 <= j < c.total && s.place[j].Retrying?
      ensures DueTime(c, events, j).Some? && DueTime(c, events, i).value <= DueTime(c, events, j).value
    {
      var d := InHeap(c, events, j);
      assert d == first || d in s.book.deferred[1..];
    }
  }
}
