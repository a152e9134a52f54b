/**
 A broadcast run comes to an end: under a policy that promises a retry only
 below a number of attempts, nobody is sent to more often than that, every
 event but a nap uses up part of a fixed amount of work, and as long as a
 worker has not returned some of it can be done.
 */
module BroadcastProgress {
  import opened Wrappers
  import opened Backoffs
  import opened Books
  import opened Broadcasts
  import opened BroadcastSafety

  /** The policy promises a retry only below `most` failed sends. */
  ghost predicate Bounded(c: Config, most: nat) {
    most > 0 && forall e, failures: nat, v :: c.policy(e, failures, v) && v.RetryAfter? ==> failures < most
  }

  ghost predicate Replies(c: Config, e: Error, failures: nat) {
    exists v :: c.policy(e, failures, v)
  }

  /** The policy always answers. */
  ghost predicate Responsive(c: Config) {
    forall e, failures: nat :: Replies(c, e, failures)
  }

  /** The default policy does. */
  lemma BackoffIsBounded(c: Config, p: Backoff, shared: bool)
    requires forall e, failures: nat, v :: c.policy(e, failures, v) <==> v == OnFailure(p, e, failures, shared)
    ensures Bounded(c, if p.maxAttempts == 0 then 1 else p.maxAttempts) && Responsive(c)
  {
    forall e, failures: nat
      ensures Replies(c, e, failures)
    {
      assert c.policy(e, failures, OnFailure(p, e, failures, shared));
    }
  }

  // ─── How often a recipient is sent to ───────────────────────────────────

  /** The recipient has been sent to at most `most` times, and fewer while it
      may be sent to again. */
  ghost predicate Few(s: State, most: nat, i: nat) {
    && i < |s.tries| == |s.place| && |s.tries[i]| <= most
    && (s.place[i].Untaken? || s.place[i].Retrying? || s.place[i].Abandoned? ==> |s.tries[i]| < most)
    && (s.place[i].With? ==> s.place[i].worker < |s.workers| && (s.workers[s.place[i].worker].Reacting? || |s.tries[i]| < most))
  }

  ghost predicate AllFew(c: Config, s: State, most: nat) {
    forall i :: 0 <= i < c.total ==> Few(s, most, i)
  }

  /** Only worker `w` and recipient `i` moved. */
  lemma FewKeep(c: Config, s: State, t: State, w: nat, i: nat, most: nat)
    requires Claims(s) && Recipients(s) && Apart(s, t, w, i) && AllFew(c, s, most) && |s.place| == c.total
    requires Claim(s.workers[w]).None? || Claim(s.workers[w]) == Some(i)
    requires i < c.total ==> Few(t, most, i)
    ensures AllFew(c, t, most)
  {
    forall j | 0 <= j < c.total
      ensures Few(t, most, j)
    {
      assert RecipientOk(s, j);
      assert Few(s, most, j);
    }
  }

  // ─── The work left ──────────────────────────────────────────────────────

  function Sum(f: nat -> int, n: nat): int {
    if n == 0 then 0 else Sum(f, n - 1) + f(n - 1)
  }

  lemma {:induction false} SumMoves(f: nat -> int, g: nat -> int, i: nat, n: nat)
    requires forall j: nat :: j < n && j != i ==> f(j) == g(j)
    ensures Sum(g, n) == Sum(f, n) + if i < n then g(i) - f(i) else 0
  {
    if n > 0 {
      SumMoves(f, g, i, n - 1);
    }
  }

  lemma {:induction false} SumPositive(f: nat -> int, n: nat)
    requires forall j: nat :: j < n ==> f(j) >= 0
    ensures Sum(f, n) >= 0
  {
    if n > 0 {
      SumPositive(f, n - 1);
    }
  }

  /** The events a recipient can still take, by where it is. */
  function LeftOf(place: Place, tried: nat, hand: Worker, most: nat): int {
    var left := 10 * (most - tried);
    match place
    case Untaken => left + 5
    case Retrying => left + 5
    case Settled => 0
    case Abandoned => 0
    case With(_) =>
      match hand
      case Reserving(_, _) => left + 4
      case Waiting(_, _, _, _) => left + 3
      case Reacting(_, _, _) => left + 11
      case _ => left + 2
  }

  function Left(s: State, most: nat, i: nat): int {
    if i < |s.place| && i < |s.tries| then
      LeftOf(
        s.place[i], |s.tries[i]|,
        if s.place[i].With? && s.place[i].worker < |s.workers| then s.workers[s.place[i].worker] else Returned, most)
    else 0
  }

  /** And a worker with nobody in hand. */
  function Steps(x: Worker): int {
    match x
    case Recording(_, _) => 2
    case Looping => 1
    case Napping(_) => 1
    case _ => 0
  }

  function StepsOf(s: State, w: nat): int { if w < |s.workers| then Steps(s.workers[w]) else 0 }

  function LeftOfEach(s: State, most: nat): nat -> int { (i: nat) => Left(s, most, i) }

  function StepsOfEach(s: State): nat -> int { (w: nat) => StepsOf(s, w) }

  function Work(c: Config, s: State, most: nat): int {
    Sum(LeftOfEach(s, most), c.total) + Sum(StepsOfEach(s), |s.workers|)
    + (if Halted(s) then 0 else 1) + |c.duplicates| - s.announced
  }

  /** Only worker `w` and recipient `i` moved: the work changed by what theirs did. */
  lemma WorkMoves(c: Config, s: State, t: State, w: nat, i: nat, most: nat)
    requires Claims(s) && Recipients(s) && Apart(s, t, w, i) && |s.place| == c.total && i < c.total
    requires Claim(s.workers[w]).None? || Claim(s.workers[w]) == Some(i)
    requires t.announced == s.announced
    ensures Work(c, t, most) <= Work(c, s, most) + Left(t, most, i) - Left(s, most, i) + Steps(t.workers[w]) - Steps(s.workers[w])
  {
    forall j: nat | j < c.total && j != i
      ensures Left(s, most, j) == Left(t, most, j)
    {
      assert RecipientOk(s, j);
    }
    SumMoves(LeftOfEach(s, most), LeftOfEach(t, most), i, c.total);
    SumMoves(StepsOfEach(s), StepsOfEach(t), w, |s.workers|);
  }

  /** Only worker `w` moved, with nobody in hand before or after. */
  lemma IdleWork(c: Config, s: State, t: State, w: nat, most: nat)
    requires Recipients(s) && |s.place| == c.total && w < |s.workers| == |t.workers|
    requires Claim(s.workers[w]).None? && t.workers == s.workers[w := t.workers[w]]
    requires t.place == s.place && t.tries == s.tries && t.announced == s.announced && (Halted(s) ==> Halted(t))
    ensures Work(c, t, most) <= Work(c, s, most) + Steps(t.workers[w]) - Steps(s.workers[w])
    ensures AllFew(c, s, most) ==> AllFew(c, t, most)
  {
    forall j: nat | j < c.total
      ensures Left(s, most, j) == Left(t, most, j) && (Few(s, most, j) ==> Few(t, most, j))
    {
      assert RecipientOk(s, j);
    }
    SumMoves(LeftOfEach(s, most), LeftOfEach(t, most), c.total, c.total);
    SumMoves(StepsOfEach(s), StepsOfEach(t), w, |s.workers|);
  }

  // ─── The events ─────────────────────────────────────────────────────────

  /** The work went down, and the bound on attempts is kept. */
  ghost predicate Goes(c: Config, s: State, t: State, most: nat) {
    AllFew(c, t, most) && Work(c, t, most) < Work(c, s, most)
  }

  lemma Moved(c: Config, s: State, t: State, w: nat, i: nat, most: nat)
    requires Claims(s) && Recipients(s) && Apart(s, t, w, i) && |s.place| == c.total && i < c.total
    requires Claim(s.workers[w]).None? || Claim(s.workers[w]) == Some(i)
    requires t.announced == s.announced && AllFew(c, s, most) && Few(t, most, i)
    requires Left(t, most, i) + Steps(t.workers[w]) < Left(s, most, i) + Steps(s.workers[w])
    ensures Goes(c, s, t, most)
  {
    WorkMoves(c, s, t, w, i, most);
    FewKeep(c, s, t, w, i, most);
  }

  lemma SettleGoes(c: Config, s: State, m: State, w: nat, i: nat, outcome: Outcome, why: Option<Halt>, most: nat)
    requires Settling(c, s, m, w, i) && AllFew(c, s, most) && |m.tries[i]| <= most
    ensures Goes(c, s, Settle(c, m, w, i, outcome, why), most)
  {
    var t := Settle(c, m, w, i, outcome, why);
    SettleIs(c, m, w, i, outcome, why);
    assert RecipientOk(s, i) && Few(s, most, i);
    assert i !in s.book.lastErrors;
    Moved(c, s, t, w, i, most);
  }

  lemma TakenGoes(c: Config, s: State, t: State, w: nat, i: nat, last: Option<Error>, most: nat)
    requires Inv(c, s) && AllFew(c, s, most) && w < |s.workers| && s.workers[w].Looping? && i < c.total
    requires s.place[i].Untaken? || s.place[i].Retrying?
    requires t == s.(book := t.book, place := s.place[i := With(w)], workers := s.workers[w := Reserving(i, last)])
    requires t.book.lastErrors == s.book.lastErrors
    ensures Goes(c, s, t, most)
  {
    assert Few(s, most, i);
    Moved(c, s, t, w, i, most);
  }

  lemma FirstIsUntaken(c: Config, s: State, wall: int)
    requires Inv(c, s) && Next(s.book, wall).1.Send? && Next(s.book, wall).1.retry.None?
    ensures var i := Next(s.book, wall).1.index; i < c.total && s.place[i].Untaken? && i !in s.book.lastErrors
  {
    FirstUnsettledSkips(s.book.settled, s.book.next);
  }

  /** A recipient taken for the first time and settled at once. */
  lemma TakenAndSettled(c: Config, s: State, m: State, w: nat, i: nat, outcome: Outcome, most: nat)
    requires Inv(c, s) && AllFew(c, s, most) && w < |s.workers| && s.workers[w].Looping?
    requires i < c.total && s.place[i].Untaken? && i !in s.book.lastErrors
    requires m == s.(book := m.book, place := s.place[i := With(w)])
    requires m.book.lastErrors == s.book.lastErrors && |m.book.settled| == |s.place|
    ensures Goes(c, s, Settle(c, m, w, i, outcome, None), most)
  {
    SettleIs(c, m, w, i, outcome, None);
    assert Few(s, most, i);
    Moved(c, s, Settle(c, m, w, i, outcome, None), w, i, most);
  }

  lemma UnmadeGoes(c: Config, s: State, w: nat, wall: int, unmade: Error, most: nat)
    requires Inv(c, s) && AllFew(c, s, most) && w < |s.workers| && s.workers[w].Looping?
    requires Next(s.book, wall).1.Send? && Next(s.book, wall).1.retry.None?
    ensures var i := Next(s.book, wall).1.index;
            Goes(c, s, Settle(c, s.(book := Next(s.book, wall).0, place := s.place[i := With(w)]), w, i, Failed(unmade), None), most)
  {
    var i := Next(s.book, wall).1.index;
    FirstIsUntaken(c, s, wall);
    TakenAndSettled(c, s, s.(book := Next(s.book, wall).0, place := s.place[i := With(w)]), w, i, Failed(unmade), most);
  }

  /** A turn does some work, unless it is told to wait. */
  lemma TurnGoes(c: Config, s: State, w: nat, wall: int, unmade: Option<Error>, most: nat)
    requires Inv(c, s) && AllFew(c, s, most) && w < |s.workers| && s.workers[w].Looping?
    ensures var t := OnTurn(c, s, w, wall, unmade);
            Goes(c, s, t, most)
            || (!Halted(s) && Next(s.book, wall).1.Wait? && AllFew(c, t, most) && Work(c, t, most) <= Work(c, s, most))
  {
    var t := OnTurn(c, s, w, wall, unmade);
    var turn := Next(s.book, wall).1;
    if Halted(s) || !turn.Send? {
      IdleWork(c, s, t, w, most);
    } else if turn.retry.Some? {
      WaitingIsHeld(s.book.deferred, turn.index);
      assert s.book.deferred[0] in s.book.deferred;
      TakenGoes(c, s, t, w, turn.index, turn.retry, most);
    } else if unmade.Some? {
      UnmadeGoes(c, s, w, wall, unmade.value, most);
    } else {
      FirstIsUntaken(c, s, wall);
      TakenGoes(c, s, t, w, turn.index, None, most);
    }
  }

  lemma BookedGoes(c: Config, s: State, w: nat, wall: int, wait: Result<nat, Error>, most: nat)
    requires Inv(c, s) && AllFew(c, s, most) && w < |s.workers| && s.workers[w].Reserving?
    ensures Goes(c, s, OnBooked(c, s, w, wall, wait), most)
  {
    var i := s.workers[w].index;
    assert RecipientOk(s, i) && Few(s, most, i);
    match wait
    case Ok(_) => Moved(c, s, OnBooked(c, s, w, wall, wait), w, i, most);
    case Err(e) => SettleGoes(c, s, s, w, i, Failed(e), Some(LimiterFailed), most);
  }

  lemma SlotDueGoes(c: Config, s: State, w: nat, wall: int, most: nat)
    requires Inv(c, s) && AllFew(c, s, most) && w < |s.workers| && s.workers[w].Waiting?
    requires Halted(s) || wall >= s.workers[w].until
    ensures Goes(c, s, OnSlotDue(c, s, w, wall), most)
  {
    var i := s.workers[w].index;
    assert RecipientOk(s, i) && Few(s, most, i);
    Moved(c, s, OnSlotDue(c, s, w, wall), w, i, most);
  }

  lemma ReleasedGoes(c: Config, s: State, w: nat, most: nat)
    requires Inv(c, s) && AllFew(c, s, most) && w < |s.workers| && s.workers[w].Releasing?
    ensures Goes(c, s, OnReleased(c, s, w), most)
  {
    var i := s.workers[w].index;
    assert RecipientOk(s, i) && Few(s, most, i);
    Moved(c, s, OnReleased(c, s, w), w, i, most);
  }

  lemma AnsweredGoes(c: Config, s: State, w: nat, answer: Try, most: nat)
    requires Inv(c, s) && AllFew(c, s, most) && w < |s.workers| && s.workers[w].Sending?
    ensures Goes(c, s, OnAnswered(c, s, w, answer), most)
  {
    var i := s.workers[w].index;
    var failures := s.book.attempts[i] + 1;
    var m := s.(book := s.book.(attempts := s.book.attempts[i := failures]), tries := s.tries[i := s.tries[i] + [answer]]);
    assert RecipientOk(s, i) && Few(s, most, i);
    match answer
    case Accepted(response) => SettleGoes(c, s, m, w, i, Sent(response), None, most);
    case Refused(_) => Moved(c, s, OnAnswered(c, s, w, answer), w, i, most);
  }

  lemma ReactedGoes(c: Config, s: State, w: nat, wall: int, verdict: Verdict, most: nat)
    requires Inv(c, s) && AllFew(c, s, most) && w < |s.workers| && s.workers[w].Reacting?
    requires verdict.RetryAfter? ==> s.workers[w].failures < most
    ensures Goes(c, s, OnReacted(c, s, w, wall, verdict), most)
  {
    var x := s.workers[w];
    assert RecipientOk(s, x.index) && Few(s, most, x.index);
    if verdict.RetryAfter? && x.error.mayResend {
      Moved(c, s, OnReacted(c, s, w, wall, verdict), w, x.index, most);
    } else {
      SettleGoes(c, s, s, w, x.index, Failed(x.error), if verdict.Stop? then Some(Stopped) else None, most);
    }
  }

  /** Only the run's flags changed. */
  lemma FlagsGo(c: Config, s: State, t: State, most: nat)
    requires AllFew(c, s, most) && t.place == s.place && t.tries == s.tries && t.workers == s.workers
    requires s.announced <= t.announced && (Halted(s) ==> Halted(t))
    requires t.announced > s.announced || (Halted(t) && !Halted(s))
    ensures Goes(c, s, t, most)
  {
    SumMoves(LeftOfEach(s, most), LeftOfEach(t, most), c.total, c.total);
    SumMoves(StepsOfEach(s), StepsOfEach(t), |s.workers|, |s.workers|);
    assert forall j :: 0 <= j < c.total && Few(s, most, j) ==> Few(t, most, j);
  }

  /** A worker told to wait, or waking up: the only events that do no work. */
  predicate IsNap(c: Config, s: State, e: Event)
  {
    Mover(e).Some? && Mover(e).value < |s.workers| && !Halted(s) &&
    match e
    case Turn(w, wall, _) => s.workers[w].Looping? && Next(s.book, wall).1.Wait?
    case Rested(w, _) => s.workers[w].Napping?
    case _ => false
  }

  /** Every event that changes anything does some of the work left, but a nap,
      which undoes none. */
  lemma StepGoes(c: Config, s: State, e: Event, most: nat)
    requires Inv(c, s) && AllFew(c, s, most) && Bounded(c, most)
    ensures AllFew(c, Step(c, s, e), most)
    ensures Step(c, s, e) == s || Goes(c, s, Step(c, s, e), most)
            || (IsNap(c, s, e) && Work(c, Step(c, s, e), most) <= Work(c, s, most))
  {
    var t := Step(c, s, e);
    if t != s {
      match e
      case Cancel => FlagsGo(c, s, t, most);
      case Announce(_) => FlagsGo(c, s, t, most);
      case Turn(w, wall, unmade) => TurnGoes(c, s, w, wall, unmade, most);
      case Rested(w, _) => IdleWork(c, s, t, w, most);
      case Booked(w, wall, wait) => BookedGoes(c, s, w, wall, wait, most);
      case SlotDue(w, wall) => SlotDueGoes(c, s, w, wall, most);
      case Released(w) => ReleasedGoes(c, s, w, most);
      case Answered(w, answer) => AnsweredGoes(c, s, w, answer, most);
      case Reacted(w, wall, verdict) => ReactedGoes(c, s, w, wall, verdict, most);
      case Recorded(w, ok) => IdleWork(c, s, t, w, most);
    }
  }

  // ─── Whole runs ─────────────────────────────────────────────────────────

  /** How many of the events changed anything and were not naps. */
  ghost function Worked(c: Config, events: seq<Event>): nat {
    if events == [] then 0 else
      var before, e := events[..|events| - 1], events[|events| - 1];
      var s := Run(c, before);
      Worked(c, before) + if Step(c, s, e) == s || IsNap(c, s, e) then 0 else 1
  }

  lemma InitFew(c: Config, most: nat)
    requires most > 0
    ensures AllFew(c, Init(c), most)
  {
  }

  lemma AnnouncedAtMost(c: Config, s: State, e: Event)
    requires Shaped(c, s) && s.announced <= |c.duplicates|
    ensures Step(c, s, e).announced <= |c.duplicates|
  {
  }

  lemma WorkIsPositive(c: Config, s: State, most: nat)
    requires Recipients(s) && |s.place| == c.total && AllFew(c, s, most) && s.announced <= |c.duplicates|
    ensures Work(c, s, most) >= 0
  {
    assert forall j :: 0 <= j < c.total && Few(s, most, j) ==> Left(s, most, j) >= 0;
    SumPositive(LeftOfEach(s, most), c.total);
    SumPositive(StepsOfEach(s), |s.workers|);
  }

  lemma {:induction false} RunAnnounced(c: Config, events: seq<Event>)
    ensures Run(c, events).announced <= |c.duplicates|
  {
    if events != [] {
      RunAnnounced(c, events[..|events| - 1]);
      AnnouncedAtMost(c, Run(c, events[..|events| - 1]), events[|events| - 1]);
    }
  }

  /** In every run nobody is sent to more than `most` times, whatever the
      sends answer. */
  lemma {:induction false} RunFew(c: Config, events: seq<Event>, most: nat)
    requires Bounded(c, most)
    ensures AllFew(c, Run(c, events), most)
    ensures forall i :: 0 <= i < c.total ==> |Run(c, events).tries[i]| <= most
  {
    if events == [] {
      InitFew(c, most);
    } else {
      RunFew(c, events[..|events| - 1], most);
      StepGoes(c, Run(c, events[..|events| - 1]), events[|events| - 1], most);
    }
    forall i | 0 <= i < c.total
      ensures |Run(c, events).tries[i]| <= most
    {
      assert Few(Run(c, events), most, i);
    }
  }

  /** However long the run, its events but naps are at most the work there was
      at the start. */
  lemma {:induction false} RunsEnd(c: Config, events: seq<Event>, most: nat)
    requires Bounded(c, most)
    ensures Worked(c, events) <= Work(c, Init(c), most) - Work(c, Run(c, events), most)
    ensures Worked(c, events) <= (10 * most + 5) * c.total + Workers(c) + 1 + |c.duplicates|
  {
    if events != [] {
      var before := events[..|events| - 1];
      RunsEnd(c, before, most);
      RunFew(c, before, most);
      StepGoes(c, Run(c, before), events[|events| - 1], most);
    }
    RunFew(c, events, most);
    RunAnnounced(c, events);
    WorkIsPositive(c, Run(c, events), most);
    WorkAtFirst(c, most);
  }

  lemma WorkAtFirst(c: Config, most: nat)
    ensures Work(c, Init(c), most) <= (10 * most + 5) * c.total + Workers(c) + 1 + |c.duplicates|
  {
    var s := Init(c);
    SumConstant(LeftOfEach(s, most), 10 * most + 5, c.total);
    SumConstant(StepsOfEach(s), 1, |s.workers|);
  }

  // ─── Never stuck ────────────────────────────────────────────────────────

  /** The state some events later. */
  ghost function After(c: Config, s: State, events: seq<Event>): (t: State)
    requires Inv(c, s)
    ensures Inv(c, t)
    decreases |events|
  {
    if events == [] then s else
      StepKeeps(c, s, events[0]);
      After(c, Step(c, s, events[0]), events[1..])
  }

  /** A clock reading late enough for the earliest waiting send. */
  function LateEnough(b: BookState): int {
    if b.deferred == [] then 0 else b.deferred[0].at - b.skew
  }

  lemma LateEnoughIsDue(b: BookState)
    ensures !Next(b, LateEnough(b)).1.Wait?
  {
  }

  /** A verdict the policy may give. */
  ghost function Reply(c: Config, e: Error, failures: nat): (v: Verdict)
    requires Replies(c, e, failures)
    ensures c.policy(e, failures, v)
  {
    var v :| c.policy(e, failures, v);
    v
  }

  /** The event a worker at work can take. */
  ghost function NextEvent(c: Config, s: State, w: nat): Event
    requires w < |s.workers| && Responsive(c)
  {
    if !Announced(c, s) then Announce(true) else
    match s.workers[w]
    case Looping => Turn(w, LateEnough(s.book), None)
    case Napping(until) => Rested(w, until)
    case Reserving(_, _) => Booked(w, 0, Ok(0))
    case Waiting(_, _, _, until) => SlotDue(w, until)
    case Sending(_, _) => Answered(w, Accepted(0))
    case Reacting(_, e, failures) => Reacted(w, 0, Reply(c, e, failures))
    case Releasing(_, _, _) => Released(w)
    case Recording(_, _) => Recorded(w, true)
    case Returned => Cancel
  }

  /** That event moves the worker on, or announces a duplicate. */
  lemma NextMoves(c: Config, s: State, w: nat)
    requires Responsive(c) && Shaped(c, s) && s.announced <= |c.duplicates| && w < |s.workers|
    requires !s.workers[w].Returned? && !s.workers[w].Napping?
    ensures Step(c, s, NextEvent(c, s, w)) != s && !IsNap(c, s, NextEvent(c, s, w))
  {
    LateEnoughIsDue(s.book);
    var t := Step(c, s, NextEvent(c, s, w));
    if Announced(c, s) {
      assert t.workers[w] != s.workers[w];
    }
  }

  lemma NextGoes(c: Config, s: State, w: nat, most: nat)
    requires Inv(c, s) && AllFew(c, s, most) && Bounded(c, most) && Responsive(c) && s.announced <= |c.duplicates|
    requires w < |s.workers| && !s.workers[w].Returned? && !s.workers[w].Napping?
    ensures Goes(c, s, Step(c, s, NextEvent(c, s, w)), most)
  {
    NextMoves(c, s, w);
    StepGoes(c, s, NextEvent(c, s, w), most);
  }

  lemma NapGoes(c: Config, s: State, w: nat, most: nat)
    requires Inv(c, s) && AllFew(c, s, most) && Bounded(c, most) && Responsive(c) && s.announced <= |c.duplicates|
    requires w < |s.workers| && s.workers[w].Napping? && (!Announced(c, s) || Halted(s))
    ensures Goes(c, s, Step(c, s, NextEvent(c, s, w)), most)
  {
    var t := Step(c, s, NextEvent(c, s, w));
    if !Announced(c, s) {
      FlagsGo(c, s, t, most);
    } else {
      IdleWork(c, s, t, w, most);
    }
  }

  lemma AfterOne(c: Config, s: State, e: Event)
    requires Inv(c, s)
    ensures Inv(c, Step(c, s, e)) && After(c, s, [e]) == Step(c, s, e)
  {
    StepKeeps(c, s, e);
    assert [e][1..] == [];
  }

  /** Waking costs no work, and leaves the worker awake. */
  lemma WakesUp(c: Config, s: State, w: nat, most: nat)
    requires Inv(c, s) && AllFew(c, s, most) && Bounded(c, most) && Responsive(c) && s.announced <= |c.duplicates|
    requires w < |s.workers| && s.workers[w].Napping? && Announced(c, s) && !Halted(s)
    ensures var t := Step(c, s, NextEvent(c, s, w));
            && Inv(c, t) && AllFew(c, t, most) && Work(c, t, most) <= Work(c, s, most)
            && t.announced <= |c.duplicates| && w < |t.workers| && t.workers[w].Looping?
  {
    var e := NextEvent(c, s, w);
    StepKeeps(c, s, e);
    StepGoes(c, s, e, most);
    AnnouncedAtMost(c, s, e);
  }

  lemma AfterTwo(c: Config, s: State, e: Event, f: Event)
    requires Inv(c, s)
    ensures Inv(c, Step(c, s, e)) && After(c, s, [e, f]) == Step(c, Step(c, s, e), f)
  {
    AfterOne(c, s, e);
    AfterOne(c, Step(c, s, e), f);
    assert [e, f][1..] == [f];
  }

  /** The worker wakes, and then does some work. */
  lemma WakesToWork(c: Config, s: State, w: nat, most: nat) returns (events: seq<Event>)
    requires Inv(c, s) && AllFew(c, s, most) && Bounded(c, most) && Responsive(c) && s.announced <= |c.duplicates|
    requires w < |s.workers| && s.workers[w].Napping? && Announced(c, s) && !Halted(s)
    ensures |events| == 2 && ByWorker(w, events) && Goes(c, s, After(c, s, events), most)
    ensures After(c, s, events).announced <= |c.duplicates|
  {
    var e := NextEvent(c, s, w);
    var t := Step(c, s, e);
    WakesUp(c, s, w, most);
    var f := NextEvent(c, t, w);
    NextGoes(c, t, w, most);
    AnnouncedAtMost(c, t, f);
    AfterTwo(c, s, e, f);
    events := [e, f];
  }

  /** Only that worker takes them, or the sink the next duplicate's line. */
  predicate ByWorker(w: nat, events: seq<Event>) {
    forall k :: 0 <= k < |events| ==> events[k].Announce? || Mover(events[k]) == Some(w)
  }

  /** As long as a worker has not returned, there is an event, or a nap to wake
      from and then an event, that does some of the work left: the worker's own,
      or the announcing that comes before it, and never a cancel. */
  lemma NeverStuck(c: Config, s: State, w: nat, most: nat) returns (events: seq<Event>)
    requires Inv(c, s) && AllFew(c, s, most) && Bounded(c, most) && Responsive(c) && s.announced <= |c.duplicates|
    requires w < |s.workers| && !s.workers[w].Returned?
    ensures 1 <= |events| <= 2 && ByWorker(w, events) && Goes(c, s, After(c, s, events), most)
    ensures After(c, s, events).announced <= |c.duplicates|
  {
    if s.workers[w].Napping? && Announced(c, s) && !Halted(s) {
      events := WakesToWork(c, s, w, most);
    } else {
      var e := NextEvent(c, s, w);
      if s.workers[w].Napping? {
        NapGoes(c, s, w, most);
      } else {
        NextGoes(c, s, w, most);
      }
      AfterOne(c, s, e);
      AnnouncedAtMost(c, s, e);
      events := [e];
    }
  }

  /** From every reachable state some schedule brings every worker home, without
      a cancel. */
  lemma {:induction false} CanFinish(c: Config, s: State, most: nat) returns (events: seq<Event>)
    requires Inv(c, s) && AllFew(c, s, most) && Bounded(c, most) && Responsive(c) && s.announced <= |c.duplicates|
    ensures Cancel !in events
    ensures forall w :: 0 <= w < |After(c, s, events).workers| ==> After(c, s, events).workers[w].Returned?
    decreases if Work(c, s, most) > 0 then Work(c, s, most) else 0
  {
    if w :| 0 <= w < |s.workers| && !s.workers[w].Returned? {
      var first := NeverStuck(c, s, w, most);
      var t := After(c, s, first);
      WorkIsPositive(c, t, most);
      var rest := CanFinish(c, t, most);
      AfterMore(c, s, first, rest);
      events := first + rest;
    } else {
      events := [];
    }
  }

  lemma {:induction false} AfterMore(c: Config, s: State, first: seq<Event>, rest: seq<Event>)
    requires Inv(c, s)
    ensures After(c, s, first + rest) == After(c, After(c, s, first), rest)
    decreases |first|
  {
    if first == [] {
      assert first + rest == rest;
    } else {
      StepKeeps(c, s, first[0]);
      assert (first + rest)[1..] == first[1..] + rest;
      AfterMore(c, Step(c, s, first[0]), first[1..], rest);
    }
  }

  lemma {:induction false} SumConstant(f: nat -> int, k: int, n: nat)
    requires forall j: nat :: j < n ==> f(j) <= k
    ensures Sum(f, n) <= k * n
  {
    if n > 0 {
      SumConstant(f, k, n - 1);
    }
  }
}
