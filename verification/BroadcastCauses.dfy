/**
 What a broadcast run does about what it is told, read from its events: a stop, a
 cancel, a limiter or a sink that fails halt it, a verdict is followed, and a
 recipient fails only for a reason somebody gave.
 */
module BroadcastCauses {
  import opened Wrappers
  import opened Backoffs
  import opened Books
  import opened Broadcasts
  import opened BroadcastSafety
  import opened BroadcastTimes
  import opened BroadcastEnd
  import opened BroadcastReport
  import BroadcastTail

  // ─── What halts a run ───────────────────────────────────────────────────

  lemma HaltSticks(c: Config, s: State, e: Event)
    requires Shaped(c, s) && Halted(s)
    ensures Halted(Step(c, s, e))
  {
  }

  /** A cancelled run is halted, from then on. */
  lemma {:induction false} CancelHalts(c: Config, events: seq<Event>)
    requires Cancel in events
    ensures Halted(Run(c, events))
  {
    var before, e := events[..|events| - 1], events[|events| - 1];
    if Cancel in before {
      CancelHalts(c, before);
      HaltSticks(c, Run(c, before), e);
    } else {
      assert e == Cancel;
    }
  }

  /** The worker was told to stop the run: by the policy, or by the limiter that
      refused it a slot. */
  predicate ToldToStop(s: State, e: Event, t: State, w: nat) {
    && w < |s.workers| && t != s
    && ((e.Reacted? && e.worker == w && e.verdict.Stop?) || (e.Booked? && e.worker == w && e.wait.Err?))
  }

  function StopsAfter(stops: seq<bool>, s: State, e: Event, t: State): (after: seq<bool>)
    ensures |after| == |stops|
  {
    seq(|stops|, w requires 0 <= w < |stops| => stops[w] || ToldToStop(s, e, t, w))
  }

  /** Which workers have been told to stop the run. */
  ghost function Stops(c: Config, events: seq<Event>): (stops: seq<bool>)
    ensures |stops| == Workers(c)
  {
    if events == [] then seq(Workers(c), _ => false) else
      var before := events[..|events| - 1];
      StopsAfter(Stops(c, before), Run(c, before), events[|events| - 1], Run(c, events))
  }

  /** The run has halted, or is about to when worker `w` has handed its line over. */
  predicate Stopping(s: State, w: nat) {
    Halted(s) || (w < |s.workers| && s.workers[w].Recording? && s.workers[w].why.Some?)
  }

  ghost predicate AllStopping(s: State, stops: seq<bool>) {
    forall w :: 0 <= w < |stops| && stops[w] ==> Stopping(s, w)
  }

  lemma SettleStops(c: Config, s: State, w: nat, i: nat, outcome: Outcome, why: Option<Halt>)
    requires w < |s.workers| && i < |s.place| == |s.outcomes| == |s.book.settled| && why.Some? && why.value != Running
    ensures Stopping(Settle(c, s, w, i, outcome, why), w)
  {
  }

  lemma ToldStops(c: Config, s: State, e: Event, w: nat)
    requires Inv(c, s) && ToldToStop(s, e, Step(c, s, e), w)
    ensures Stopping(Step(c, s, e), w)
  {
    var x := s.workers[w];
    if e.Reacted? {
      SettleStops(c, s, w, x.index, Failed(x.error), Some(Stopped));
    } else {
      SettleStops(c, s, w, x.index, Failed(e.wait.error), Some(LimiterFailed));
    }
  }

  lemma RecordedStops(c: Config, s: State, w: nat, ok: bool)
    requires Shaped(c, s) && w < |s.workers| && s.workers[w].Recording? && s.workers[w].why.Some? && s.workers[w].why.value != Running
    ensures Halted(OnRecorded(c, s, w, ok))
  {
  }

  /** A worker handing a line over goes on with it. */
  lemma RecordingStays(c: Config, s: State, e: Event, w: nat)
    requires Shaped(c, s) && w < |s.workers| && s.workers[w].Recording? && !(e.Recorded? && e.worker == w)
    ensures w < |Step(c, s, e).workers| && Step(c, s, e).workers[w] == s.workers[w]
  {
    if Mover(e).Some? && Announced(c, s) && Mover(e).value < |s.workers| {
      match e
      case Turn(v, wall, unmade) => if s.workers[v].Looping? { TurnQuiet(c, s, v, wall, unmade); }
      case Rested(_, _) =>
      case Booked(v, wall, wait) => if s.workers[v].Reserving? { BookedMoves(c, s, v, wall, wait); }
      case SlotDue(v, wall) => if s.workers[v].Waiting? { SlotDueMoves(c, s, v, wall); }
      case Released(v) => if s.workers[v].Releasing? { ReleasedQuiet(c, s, v); }
      case Answered(v, answer) => if s.workers[v].Sending? { AnsweredQuiet(c, s, v, answer); }
      case Reacted(v, wall, verdict) =>
        if Answers(c, s.workers[v], verdict) { ReactedMoves(c, s, v, wall, verdict, Deferred(0, 0, s.workers[v].error)); }
      case Recorded(v, ok) => if s.workers[v].Recording? { RecordedQuiet(c, s, v, ok); }
    }
  }

  lemma StaysStopping(c: Config, s: State, e: Event, w: nat)
    requires EndInv(c, s) && Stopping(s, w)
    ensures Stopping(Step(c, s, e), w)
  {
    if Halted(s) {
      HaltSticks(c, s, e);
    } else if !(e.Recorded? && e.worker == w) {
      RecordingStays(c, s, e, w);
    } else if Announced(c, s) {
      RecordedStops(c, s, w, e.ok);
    }
  }

  lemma StepStops(c: Config, s: State, e: Event, stops: seq<bool>)
    requires EndInv(c, s) && AllStopping(s, stops)
    ensures AllStopping(Step(c, s, e), StopsAfter(stops, s, e, Step(c, s, e)))
  {
    var t := Step(c, s, e);
    forall w | 0 <= w < |stops| && StopsAfter(stops, s, e, t)[w]
      ensures Stopping(t, w)
    {
      if ToldToStop(s, e, t, w) {
        ToldStops(c, s, e, w);
      } else {
        StaysStopping(c, s, e, w);
      }
    }
  }

  /** In every run, a worker told to stop the run has halted it, unless it is still
      handing over its recipient's line. */
  lemma {:induction false} StopsHalt(c: Config, events: seq<Event>)
    requires Built(c)
    ensures AllStopping(Run(c, events), Stops(c, events))
  {
    if events != [] {
      var before := events[..|events| - 1];
      StopsHalt(c, before);
      RunEnds(c, before);
      StepStops(c, Run(c, before), events[|events| - 1], Stops(c, before));
    }
  }

  /** So a run in which a worker was told to stop ends halted. */
  lemma StoppedRunEndsHalted(c: Config, events: seq<Event>, w: nat)
    requires Built(c) && w < Workers(c) && Stops(c, events)[w] && BroadcastTail.AllReturned(Run(c, events))
    ensures Halted(Run(c, events))
  {
    StopsHalt(c, events);
    BroadcastTail.RunCast(c, events);
  }

  /** A line the sink refuses halts the run at once. */
  lemma RefusalHalts(c: Config, events: seq<Event>, e: Event)
    requires var s := Run(c, events);
             (e.Recorded? && !e.ok && e.worker < |s.workers| && s.workers[e.worker].Recording?)
             || (e == Announce(false) && !s.sinkFailed && !Announced(c, s) && s.announced < |c.duplicates|)
    ensures Halted(Step(c, Run(c, events), e))
  {
    NobodyBefore(c, events);
  }

  // ─── How many at once ───────────────────────────────────────────────────

  /** Every run has as many workers as it may have at once, or as there are
      recipients if those are fewer, and one at least; a recipient in hand is with
      one of them, and nobody else is: so no more sends than that are in flight. */
  lemma InHandAtOnce(c: Config, events: seq<Event>)
    ensures var n := |Run(c, events).workers|;
            && 1 <= n && (c.concurrency > 0 ==> n <= c.concurrency) && (c.total > 0 ==> n <= c.total)
            && (n == c.concurrency || n == c.total || n == 1)
            && (n < c.concurrency ==> c.total <= n) && (n < c.total ==> c.concurrency <= n)
    ensures var s := Run(c, events);
            && |s.place| == c.total
            && (forall i :: 0 <= i < c.total && s.place[i].With? ==> s.place[i].worker < |s.workers|)
            && (forall i, j :: 0 <= i < j < c.total && s.place[i].With? && s.place[j].With? ==> s.place[i].worker != s.place[j].worker)
  {
    var s := Run(c, events);
    BroadcastTail.RunCast(c, events);
    forall i | 0 <= i < c.total && s.place[i].With?
      ensures s.place[i].worker < |s.workers| && Claim(s.workers[s.place[i].worker]) == Some(i)
    {
      assert RecipientOk(s, i);
    }
  }

  // ─── What a recipient fails for ─────────────────────────────────────────

  /** What the run was told of each recipient: the answers to its sends, and an
      error that kept it from being sent to, from composing or from the limiter. */
  datatype Told = Told(answers: seq<Try>, unsent: Option<Error>)

  /** The answer to a send to the recipient. */
  predicate AnswersTo(s: State, e: Event, t: State, i: nat) {
    && e.Answered? && t != s && e.worker < |s.workers| && s.workers[e.worker].Sending? && s.workers[e.worker].index == i
  }

  /** The limiter refused the recipient a slot. */
  predicate RefusesSlot(s: State, e: Event, t: State, i: nat) {
    && e.Booked? && e.wait.Err? && t != s
    && e.worker < |s.workers| && s.workers[e.worker].Reserving? && s.workers[e.worker].index == i
  }

  /** Its message could not be composed. */
  predicate Uncomposed(s: State, e: Event, t: State, i: nat) {
    && e.Turn? && e.unmade.Some?
    && i < |s.place| == |t.place| && s.place[i].Untaken? && t.place[i].Settled?
  }

  function ToldAfter(told: seq<Told>, s: State, e: Event, t: State): (after: seq<Told>)
    ensures |after| == |told|
  {
    seq(|told|, i requires 0 <= i < |told| =>
      if AnswersTo(s, e, t, i) then told[i].(answers := told[i].answers + [e.answer])
      else if RefusesSlot(s, e, t, i) then told[i].(unsent := Some(e.wait.error))
      else if Uncomposed(s, e, t, i) then told[i].(unsent := e.unmade)
      else told[i])
  }

  ghost function Heard(c: Config, events: seq<Event>): (told: seq<Told>)
    ensures |told| == c.total
  {
    if events == [] then seq(c.total, _ => Told([], None)) else
      var before := events[..|events| - 1];
      ToldAfter(Heard(c, before), Run(c, before), events[|events| - 1], Run(c, events))
  }

  /** The record of the recipient is what was heard of it: every answer, and if it
      failed, the error told, or else its last answer's. */
  ghost predicate RecordTrue(s: State, i: nat, told: Told) {
    && i < |s.tries| == |s.outcomes| && s.tries[i] == told.answers
    && match s.outcomes[i]
       case None => told.unsent.None?
       case Some(Failed(e)) => if told.unsent.Some? then told.unsent == Some(e) else LastError(told.answers) == Some(e)
       case Some(Sent(response)) => told.unsent.None? && told.answers != [] && told.answers[|told.answers| - 1] == Accepted(response)
       case Some(_) => told == Told([], None)
  }

  lemma Untouched(s: State, t: State, e: Event, i: nat, told: seq<Told>)
    requires i < |told| && RecordTrue(s, i, told[i]) && SameRecord(s, t, i)
    requires !AnswersTo(s, e, t, i) && !RefusesSlot(s, e, t, i) && !Uncomposed(s, e, t, i)
    ensures RecordTrue(t, i, ToldAfter(told, s, e, t)[i])
  {
  }

  lemma TurnHeard(c: Config, s: State, w: nat, wall: int, unmade: Option<Error>, i: nat, told: seq<Told>)
    requires Inv(c, s) && w < |s.workers| && s.workers[w].Looping? && i < c.total == |told| && RecordTrue(s, i, told[i])
    ensures var t := OnTurn(c, s, w, wall, unmade); RecordTrue(t, i, ToldAfter(told, s, Turn(w, wall, unmade), t)[i])
  {
    var t, turn := OnTurn(c, s, w, wall, unmade), Next(s.book, wall).1;
    assert RecipientOk(s, i);
    if Halted(s) || !turn.Send? || turn.index != i {
      TurnTouches(c, s, w, wall, unmade, i);
      TurnPlaces(c, s, w, wall, unmade, i);
      Untouched(s, t, Turn(w, wall, unmade), i, told);
    } else {
      FirstUnsettledSkips(s.book.settled, s.book.next);
      TurnTakes(c, s, wall);
      if turn.retry.Some? {
        WaitingIsHeld(s.book.deferred, i);
        assert s.book.deferred[0] in s.book.deferred;
      }
    }
  }

  lemma TurnPlaces(c: Config, s: State, w: nat, wall: int, unmade: Option<Error>, i: nat)
    requires Shaped(c, s) && w < |s.workers| && i < c.total
    requires Halted(s) || !Next(s.book, wall).1.Send? || Next(s.book, wall).1.index != i
    ensures |OnTurn(c, s, w, wall, unmade).place| == c.total && OnTurn(c, s, w, wall, unmade).place[i] == s.place[i]
  {
  }

  lemma BookedHeard(c: Config, s: State, w: nat, wall: int, wait: Result<nat, Error>, i: nat, told: seq<Told>)
    requires Inv(c, s) && w < |s.workers| && s.workers[w].Reserving? && s.workers[w].index == i
    requires i < c.total == |told| && RecordTrue(s, i, told[i])
    ensures var t := OnBooked(c, s, w, wall, wait); RecordTrue(t, i, ToldAfter(told, s, Booked(w, wall, wait), t)[i])
  {
    assert RecipientOk(s, i);
  }

  lemma AnsweredHeard(c: Config, s: State, w: nat, answer: Try, i: nat, told: seq<Told>)
    requires Inv(c, s) && w < |s.workers| && s.workers[w].Sending? && s.workers[w].index == i
    requires i < c.total == |told| && RecordTrue(s, i, told[i])
    ensures var t := OnAnswered(c, s, w, answer); RecordTrue(t, i, ToldAfter(told, s, Answered(w, answer), t)[i])
  {
    assert RecipientOk(s, i);
    assert OnAnswered(c, s, w, answer).workers[w] != s.workers[w];
  }

  lemma ReactedHeard(c: Config, s: State, w: nat, wall: int, verdict: Verdict, i: nat, told: seq<Told>)
    requires Inv(c, s) && w < |s.workers| && s.workers[w].Reacting? && s.workers[w].index == i
    requires i < c.total == |told| && RecordTrue(s, i, told[i])
    ensures var t := OnReacted(c, s, w, wall, verdict); RecordTrue(t, i, ToldAfter(told, s, Reacted(w, wall, verdict), t)[i])
  {
    assert RecipientOk(s, i);
  }

  /** The worker has the recipient in hand. */
  lemma OwnHeard(c: Config, s: State, e: Event, i: nat, told: seq<Told>)
    requires Inv(c, s) && i < c.total == |told| && RecordTrue(s, i, told[i])
    requires Mover(e).Some? && Announced(c, s) && Mover(e).value < |s.workers| && Claim(s.workers[Mover(e).value]) == Some(i)
    ensures RecordTrue(Step(c, s, e), i, ToldAfter(told, s, e, Step(c, s, e))[i])
  {
    match e
    case Turn(_, _, _) =>
    case Rested(_, _) =>
    case Booked(w, wall, wait) => if s.workers[w].Reserving? { BookedHeard(c, s, w, wall, wait, i, told); }
    case SlotDue(w, wall) =>
    case Released(w) =>
    case Answered(w, answer) => if s.workers[w].Sending? { AnsweredHeard(c, s, w, answer, i, told); }
    case Reacted(w, wall, verdict) => if Answers(c, s.workers[w], verdict) { ReactedHeard(c, s, w, wall, verdict, i, told); }
    case Recorded(w, ok) =>
  }

  lemma StepHeard(c: Config, s: State, e: Event, i: nat, told: seq<Told>)
    requires Inv(c, s) && i < c.total == |told| && RecordTrue(s, i, told[i])
    ensures RecordTrue(Step(c, s, e), i, ToldAfter(told, s, e, Step(c, s, e))[i])
  {
    if Mover(e).Some? && Announced(c, s) && Mover(e).value < |s.workers| {
      if e.Turn? {
        if s.workers[e.worker].Looping? { TurnHeard(c, s, e.worker, e.wall, e.unmade, i, told); }
      } else if Claim(s.workers[Mover(e).value]) == Some(i) {
        OwnHeard(c, s, e, i, told);
      } else {
        WorkTouches(c, s, e, i);
        Untouched(s, Step(c, s, e), e, i, told);
      }
    }
  }

  /** In every run, each recipient's record is what was heard of it: its sends'
      answers are those given, in order, and if it failed it was with the error of
      its last send, or the one that kept it from being sent to. */
  lemma {:induction false} RecordsAreTrue(c: Config, events: seq<Event>, i: nat)
    requires i < c.total
    ensures RecordTrue(Run(c, events), i, Heard(c, events)[i])
  {
    if events != [] {
      var before := events[..|events| - 1];
      RecordsAreTrue(c, before, i);
      StepHeard(c, Run(c, before), events[|events| - 1], i, Heard(c, before));
    }
  }

  // ─── What becomes of a failed send ──────────────────────────────────────

  /** In every run, the policy is asked about the recipient's last failure and how
      many there were, and its verdict is followed: a retry it promises is entered
      if the error proves nothing was sent, and anything else settles the recipient
      as failed with that error. */
  lemma VerdictIsFollowed(c: Config, events: seq<Event>, w: nat, wall: int, verdict: Verdict)
    requires w < |Run(c, events).workers| && Run(c, events).workers[w].Reacting?
    ensures var s := Run(c, events);
            var i := s.workers[w].index;
            && i < c.total && LastError(s.tries[i]).Some?
            && var e, t := LastError(s.tries[i]).value, Step(c, s, Reacted(w, wall, verdict));
               && |t.place| == |t.outcomes| == c.total
               && (!c.policy(e, |s.tries[i]|, verdict) ==> t == s)
               && (c.policy(e, |s.tries[i]|, verdict) && verdict.RetryAfter? && e.mayResend ==>
                     t.place[i].Retrying? && t.outcomes == s.outcomes)
               && (c.policy(e, |s.tries[i]|, verdict) && !(verdict.RetryAfter? && e.mayResend) ==>
                     t.place[i].Settled? && t.outcomes == s.outcomes[i := Some(Failed(e))])
  {
    var s := Run(c, events);
    NobodyBefore(c, events);
    assert RecipientOk(s, s.workers[w].index);
  }
}
