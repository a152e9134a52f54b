/**
 The end of a broadcast run, once every worker has returned: the lines of
 those never sent to, the end it comes to, and its report.
 */
module BroadcastTail {
  import opened Wrappers
  import opened Backoffs
  import opened Broadcasts
  import opened BroadcastSafety
  import opened BroadcastEnd

  datatype Line = Line(index: nat, attempts: nat, outcome: Outcome, lastError: Option<Error>)

  datatype Ended =
    | Completed | CancelledEarly
    | StoppedOn(recipient: nat) | LimiterFailedOn(recipient: nat) | SinkFailedOn(recipient: nat)

  datatype Report = Report(lines: seq<Line>, ended: Ended, sent: nat, failed: nat, skipped: nat, duplicates: nat)

  predicate AllReturned(s: State) { forall w :: 0 <= w < |s.workers| ==> s.workers[w].Returned? }

  // ─── What is known when every worker has returned ───────────────────────

  ghost predicate SameCast(s: State, t: State) { |t.workers| == |s.workers| && t.duplicates == s.duplicates }

  lemma TurnCast(c: Config, s: State, w: nat, wall: int, unmade: Option<Error>)
    requires Shaped(c, s) && w < |s.workers|
    ensures SameCast(s, OnTurn(c, s, w, wall, unmade))
  {
  }

  lemma BookedCast(c: Config, s: State, w: nat, wall: int, wait: Result<nat, Error>)
    requires Shaped(c, s) && w < |s.workers| && s.workers[w].Reserving?
    ensures SameCast(s, OnBooked(c, s, w, wall, wait))
  {
  }

  lemma AnsweredCast(c: Config, s: State, w: nat, answer: Try)
    requires Shaped(c, s) && w < |s.workers| && s.workers[w].Sending?
    ensures SameCast(s, OnAnswered(c, s, w, answer))
  {
  }

  lemma ReactedCast(c: Config, s: State, w: nat, wall: int, verdict: Verdict)
    requires Shaped(c, s) && w < |s.workers| && s.workers[w].Reacting?
    ensures SameCast(s, OnReacted(c, s, w, wall, verdict))
  {
  }

  lemma StepCast(c: Config, s: State, e: Event)
    requires Shaped(c, s)
    ensures SameCast(s, Step(c, s, e))
  {
    if Mover(e).Some? && Announced(c, s) && Mover(e).value < |s.workers| {
      match e
      case Turn(w, wall, unmade) => TurnCast(c, s, w, wall, unmade);
      case Booked(w, wall, wait) => if s.workers[w].Reserving? { BookedCast(c, s, w, wall, wait); }
      case Answered(w, answer) => if s.workers[w].Sending? { AnsweredCast(c, s, w, answer); }
      case Reacted(w, wall, verdict) => if Answers(c, s.workers[w], verdict) { ReactedCast(c, s, w, wall, verdict); }
      case _ =>
    }
  }

  /** The workers, and the duplicates known at the start, are the same to the end. */
  lemma {:induction false} RunCast(c: Config, events: seq<Event>)
    ensures |Run(c, events).workers| == Workers(c) > 0 && Run(c, events).duplicates == |c.duplicates|
  {
    if events != [] {
      RunCast(c, events[..|events| - 1]);
      StepCast(c, Run(c, events[..|events| - 1]), events[|events| - 1]);
    }
  }

  /** Nobody is in the hands of a worker any more. */
  lemma NobodyInHand(c: Config, s: State)
    requires EndInv(c, s) && AllReturned(s)
    ensures forall i :: 0 <= i < c.total ==> !s.place[i].With? && (s.place[i].Settled? <==> s.outcomes[i].Some?)
  {
    forall i | 0 <= i < c.total
      ensures !s.place[i].With? && (s.place[i].Settled? <==> s.outcomes[i].Some?)
    {
      assert RecipientOk(s, i);
    }
  }

  /** A run nothing halted ends with the heap empty and everyone settled. */
  lemma NobodyLeft(c: Config, s: State)
    requires EndInv(c, s) && AllReturned(s) && |s.workers| > 0 && !Halted(s)
    ensures s.book.deferred == [] && forall i :: 0 <= i < c.total ==> s.outcomes[i].Some?
  {
    NobodyInHand(c, s);
    assert s.workers[0].Returned?;
    assert !Up(s);
    forall i | 0 <= i < c.total
      ensures s.place[i].Settled?
    {
      assert RecipientOk(s, i);
      assert Books.Waiting(s.book.deferred, i) == 0;
    }
  }

  /** The records agree: who is settled, how often each was sent to, and that
      those left over may be sent to again. */
  ghost predicate Closed(c: Config, s: State) {
    && |s.outcomes| == |s.tries| == |s.book.attempts| == |s.book.settled| == c.total
    && forall i :: 0 <= i < c.total ==>
         && (s.book.settled[i] <==> s.outcomes[i].Some?) && s.book.attempts[i] == |s.tries[i]|
         && (s.outcomes[i].None? ==> Resendable(s.tries[i]))
  }

  lemma RunCloses(c: Config, s: State)
    requires EndInv(c, s) && AllReturned(s)
    ensures Closed(c, s)
  {
    NobodyInHand(c, s);
    forall i | 0 <= i < c.total
      ensures s.outcomes[i].None? ==> Resendable(s.tries[i])
    {
      assert RecipientOk(s, i);
    }
  }

  /** What a line says of the recipient at `i` that was never settled. */
  function LastSaid(errors: map<nat, Error>, i: nat): Option<Error> {
    if i in errors then Some(errors[i]) else None
  }

  /** The errors kept, once those of the waiting retries are: exactly the last
      error of each recipient left over that had one. */
  ghost predicate ErrorsOk(c: Config, s: State, errors: map<nat, Error>) {
    |s.outcomes| == |s.tries| == c.total &&
    forall i :: 0 <= i < c.total ==>
      LastSaid(errors, i) == if s.outcomes[i].Some? then None else LastError(s.tries[i])
  }

  lemma ErrorsGathered(c: Config, s: State, errors: map<nat, Error>)
    requires EndInv(c, s) && AllReturned(s)
    requires forall i :: i in errors ==>
               i < c.total && (s.place[i].Abandoned? || s.place[i].Retrying?) && LastError(s.tries[i]) == Some(errors[i])
    requires forall i :: i in s.book.lastErrors ==> i in errors
    requires forall d :: d in s.book.deferred ==> d.index in errors
    ensures ErrorsOk(c, s, errors)
  {
    NobodyInHand(c, s);
    forall i | 0 <= i < c.total
      ensures LastSaid(errors, i) == if s.outcomes[i].Some? then None else LastError(s.tries[i])
    {
      assert RecipientOk(s, i);
      WaitingIsHeld(s.book.deferred, i);
    }
  }

  /** The retries still waiting were never sent: their errors are kept. */
  method KeepErrors(c: Config, s: State) returns (errors: map<nat, Error>)
    requires EndInv(c, s) && AllReturned(s)
    ensures ErrorsOk(c, s, errors)
  {
    errors := s.book.lastErrors;
    var q, k := s.book.deferred, 0;
    LeftBehind(c, s);
    while k < |q|
      invariant 0 <= k <= |q|
      invariant forall i :: i in errors ==>
                  i < c.total && (s.place[i].Abandoned? || s.place[i].Retrying?) && LastError(s.tries[i]) == Some(errors[i])
      invariant forall i :: i in s.book.lastErrors ==> i in errors
      invariant forall j :: 0 <= j < k ==> q[j].index in errors
    {
      assert q[k] in q;
      WaitingIsHeld(q, q[k].index);
      errors := errors[q[k].index := q[k].error];
      k := k + 1;
    }
    ErrorsGathered(c, s, errors);
  }

  lemma LeftBehind(c: Config, s: State)
    requires EndInv(c, s)
    ensures forall i :: i in s.book.lastErrors ==>
              i < c.total && s.place[i].Abandoned? && LastError(s.tries[i]) == Some(s.book.lastErrors[i])
  {
    forall i | i in s.book.lastErrors
      ensures i < c.total && s.place[i].Abandoned? && LastError(s.tries[i]) == Some(s.book.lastErrors[i])
    {
      assert RecipientOk(s, i);
    }
  }

  // ─── The lines ──────────────────────────────────────────────────────────

  /** A line tells the truth of its recipient: as many attempts as sends, the
      outcome it was settled as, or that it was skipped with the error its
      last send met. */
  ghost predicate LineOk(s: State, l: Line) {
    && l.index < |s.outcomes| == |s.tries|
    && var t := s.tries[l.index];
       && l.attempts == |t|
       && (s.outcomes[l.index].Some? ==> l.outcome == s.outcomes[l.index].value && l.lastError.None?)
       && (s.outcomes[l.index].None? ==> l.outcome.Skipped? && l.lastError == LastError(t) && Resendable(t))
  }

  function LineOf(s: State, errors: map<nat, Error>, i: nat): Line
    requires i < |s.outcomes| == |s.book.attempts|
  {
    Line(i, s.book.attempts[i], if s.outcomes[i].Some? then s.outcomes[i].value else Skipped, LastSaid(errors, i))
  }

  lemma LineIsTrue(c: Config, s: State, errors: map<nat, Error>, i: nat)
    requires Closed(c, s) && i < c.total
    requires LastSaid(errors, i) == if s.outcomes[i].Some? then None else LastError(s.tries[i])
    ensures LineOk(s, LineOf(s, errors, i))
  {
  }

  /** The lines handed to the sink at the end: of those skipped, in order, up to
      the first it refuses. */
  ghost predicate StreamedOk(s: State, takes: nat -> bool, streamed: seq<Line>, upTo: nat)
    requires upTo <= |s.outcomes|
  {
    && (forall k :: 0 <= k < |streamed| ==> streamed[k].index < upTo && LineOk(s, streamed[k]) && streamed[k].outcome.Skipped?)
    && (forall j, k :: 0 <= j < k < |streamed| ==> streamed[j].index < streamed[k].index && takes(streamed[j].index))
    && forall i :: 0 <= i < upTo && s.outcomes[i].None? ==>
         Names(streamed, i) || Refused(takes, streamed)
  }

  /** The sink refused the last line handed to it. */
  predicate Refused(takes: nat -> bool, streamed: seq<Line>) {
    streamed != [] && !takes(streamed[|streamed| - 1].index)
  }

  ghost predicate Names(ls: seq<Line>, i: nat) {
    exists k :: 0 <= k < |ls| && ls[k].index == i
  }

  lemma StreamOn(s: State, takes: nat -> bool, streamed: seq<Line>, l: Line, i: nat)
    requires i < |s.outcomes| && StreamedOk(s, takes, streamed, i) && LineOk(s, l) && l.outcome.Skipped? && l.index == i
    requires !Refused(takes, streamed)
    ensures StreamedOk(s, takes, streamed + [l], i + 1)
  {
    var more := streamed + [l];
    forall j | 0 <= j < i + 1 && s.outcomes[j].None?
      ensures Names(more, j)
    {
      if j == i {
        assert more[|streamed|].index == i;
      } else {
        assert Names(streamed, j);
        var k :| 0 <= k < |streamed| && streamed[k].index == j;
        assert more[k].index == j;
      }
    }
  }

  /** A recipient passed over: settled, or after the sink has failed. */
  lemma StreamStays(s: State, takes: nat -> bool, streamed: seq<Line>, i: nat)
    requires i < |s.outcomes| && (s.outcomes[i].Some? || Refused(takes, streamed))
    ensures StreamedOk(s, takes, streamed, i) ==> StreamedOk(s, takes, streamed, i + 1)
  {
  }

  lemma OneMore(os: seq<Option<Outcome>>, i: nat)
    requires i < |os|
    ensures Tally(os[..i + 1], IsOpen) == Tally(os[..i], IsOpen) + if os[i].None? then 1 else 0
  {
    assert os[..i + 1][..i] == os[..i];
  }

  /** Hand the line of one never sent to to the sink; one that has failed gets
      nothing more. */
  method HandOver(c: Config, s: State, errors: map<nat, Error>, takes: nat -> bool, streamed: seq<Line>, i: nat)
    returns (more: seq<Line>)
    requires Closed(c, s) && i < c.total && s.outcomes[i].None? && LastSaid(errors, i) == LastError(s.tries[i])
    requires StreamedOk(s, takes, streamed, i)
    ensures StreamedOk(s, takes, more, i + 1)
  {
    var line := LineOf(s, errors, i);
    LineIsTrue(c, s, errors, i);
    if Refused(takes, streamed) {
      StreamStays(s, takes, streamed, i);
      more := streamed;
    } else {
      StreamOn(s, takes, streamed, line, i);
      more := streamed + [line];
    }
  }

  /** Those never sent to are counted, and their lines handed to the sink. */
  method SkipTheRest(c: Config, s: State, kept: map<nat, Error>, takes: nat -> bool)
    returns (skipped: nat, streamed: seq<Line>)
    requires Closed(c, s) && ErrorsOk(c, s, kept)
    ensures skipped == Tally(s.outcomes, IsOpen)
    ensures if c.sink && !s.sinkFailed then StreamedOk(s, takes, streamed, c.total) else streamed == []
  {
    skipped, streamed := 0, [];
    var errors, index := kept, 0;
    var streaming := c.sink && !s.sinkFailed;
    while index < c.total
      invariant 0 <= index <= c.total
      invariant skipped == Tally(s.outcomes[..index], IsOpen)
      invariant forall i :: index <= i < c.total ==> LastSaid(errors, i) == LastSaid(kept, i)
      invariant if streaming then StreamedOk(s, takes, streamed, index) else streamed == []
    {
      OneMore(s.outcomes, index);
      if !s.book.settled[index] {
        skipped := skipped + 1;
        if streaming {
          streamed := HandOver(c, s, errors, takes, streamed, index);
          errors := errors - {index};
        }
      } else if streaming {
        StreamStays(s, takes, streamed, index);
      }
      index := index + 1;
    }
    assert s.outcomes[..c.total] == s.outcomes;
  }

  /** The lines the report holds when there is no sink. */
  method LinesOf(c: Config, s: State, errors: map<nat, Error>) returns (lines: seq<Line>)
    requires Closed(c, s) && ErrorsOk(c, s, errors)
    ensures |lines| == c.total && forall i :: 0 <= i < c.total ==> lines[i].index == i && LineOk(s, lines[i])
  {
    lines := [];
    while |lines| < c.total
      invariant |lines| <= c.total
      invariant forall i :: 0 <= i < |lines| ==> lines[i].index == i && LineOk(s, lines[i])
      decreases c.total - |lines|
    {
      LineIsTrue(c, s, errors, |lines|);
      lines := lines + [LineOf(s, errors, |lines|)];
    }
  }

  /** The end to report: a cancel only counts if somebody was left over. */
  function EndOf(halt: Halt, stoppedBy: Option<nat>, unsettled: nat): Ended {
    var recipient := if stoppedBy.Some? then stoppedBy.value else 0;
    match halt
    case Running => Completed
    case Finished => Completed
    case Cancelled => if unsettled == 0 then Completed else CancelledEarly
    case Stopped => StoppedOn(recipient)
    case LimiterFailed => LimiterFailedOn(recipient)
    case SinkFailed => SinkFailedOn(recipient)
  }

  /** What the end says, and whom it names, is so. */
  lemma EndIsTrue(c: Config, s: State, skipped: nat)
    requires EndInv(c, s) && AllReturned(s) && |s.workers| > 0 && skipped == Tally(s.outcomes, IsOpen)
    ensures var ended := EndOf(s.halt, s.book.stoppedBy, skipped);
            && (ended.Completed? ==> skipped == 0)
            && (ended.CancelledEarly? ==> skipped > 0 && s.halt == Cancelled)
            && (ended.StoppedOn? || ended.LimiterFailedOn? ==> ended.recipient < c.total == |s.outcomes| && IsFailure(s.outcomes[ended.recipient]))
            && (ended.SinkFailedOn? <==> s.halt == SinkFailed)
            && (!Halted(s) ==> ended.Completed? && s.book.deferred == [])
  {
    if !Halted(s) {
      NobodyLeft(c, s);
      TallyNone(s.outcomes, IsOpen);
    }
  }

  lemma SumsUp(c: Config, s: State)
    requires EndInv(c, s)
    ensures s.sent + s.failed + Tally(s.outcomes, IsOpen) + s.duplicates == c.total
    ensures s.sent == Tally(s.outcomes, IsSent) && s.failed == Tally(s.outcomes, IsFailed) && s.halt != Finished
  {
    TallyTotal(s.outcomes);
    forall i | 0 <= i < |s.outcomes|
      ensures MarkOf(s.outcomes[i]) != IsSkipped
    {
      assert RecipientOk(s, i);
    }
    TallyNone(s.outcomes, IsSkipped);
  }

  /** The end of a run: every recipient is in exactly one of its counters, the
      report's lines are true, a run that completed skipped nobody, one that
      was cancelled skipped somebody, and one that stopped names a recipient
      that failed. `takes` is what the sink answers to each line. */
  method Finish(c: Config, s: State, takes: nat -> bool, ghost events: seq<Event>) returns (r: Report, streamed: seq<Line>)
    requires Built(c) && s == Run(c, events) && AllReturned(s)
    ensures r.sent + r.failed + r.skipped + r.duplicates == c.total
    ensures r.sent == Tally(s.outcomes, IsSent) && r.failed == Tally(s.outcomes, IsFailed)
    ensures r.skipped == Tally(s.outcomes, IsOpen) && r.duplicates == |c.duplicates|
    ensures r.ended.Completed? ==> r.skipped == 0
    ensures r.ended.CancelledEarly? ==> r.skipped > 0 && s.halt == Cancelled
    ensures r.ended.StoppedOn? || r.ended.LimiterFailedOn? ==> r.ended.recipient < c.total && IsFailure(s.outcomes[r.ended.recipient])
    ensures r.ended.SinkFailedOn? <==> s.halt == SinkFailed
    ensures !Halted(s) ==> r.ended.Completed? && s.book.deferred == []
    ensures !c.sink ==> |r.lines| == c.total && streamed == []
    ensures !c.sink ==> forall i :: 0 <= i < c.total ==> r.lines[i].index == i && LineOk(s, r.lines[i])
    ensures c.sink ==> r.lines == [] && if s.sinkFailed then streamed == [] else StreamedOk(s, takes, streamed, c.total)
  {
    RunEnds(c, events);
    RunCast(c, events);
    RunCloses(c, s);
    var halt := if Halted(s) then s.halt else Finished;
    var errors := KeepErrors(c, s);
    var skipped: nat;
    skipped, streamed := SkipTheRest(c, s, errors, takes);
    var lines := [];
    if !c.sink {
      lines := LinesOf(c, s, errors);
    }
    r := Report(lines, EndOf(halt, s.book.stoppedBy, skipped), s.sent, s.failed, skipped, s.duplicates);
    SumsUp(c, s);
    EndIsTrue(c, s, skipped);
  }
}
