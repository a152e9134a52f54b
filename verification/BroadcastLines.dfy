/**
 The lines a report sink gets over a whole run and at its end: true of their
 recipients, never two of one, and one each when the sink refuses nothing, the
 duplicates' first.
 */
module BroadcastLines {
  import opened Wrappers
  import opened Backoffs
  import opened Books
  import opened Broadcasts
  import opened BroadcastSafety
  import opened BroadcastEnd
  import opened BroadcastReport
  import opened BroadcastTail

  /** The line an event hands to the sink, if it takes it. A worker that records
      hands over the line made when it settled its recipient, whose record has
      not changed since. */
  ghost function Given(c: Config, s: State, e: Event): seq<Line>
    requires Shaped(c, s)
  {
    match e
    case Announce(true) =>
      if Announced(c, s) || s.announced >= |c.duplicates| || s.sinkFailed || c.duplicates[s.announced].0 >= c.total then []
      else [LineOf(s, map[], c.duplicates[s.announced].0)]
    case Recorded(w, true) =>
      if Announced(c, s) && w < |s.workers| && s.workers[w].Recording? then [LineOf(s, map[], s.workers[w].index)] else []
    case _ => []
  }

  /** The lines the sink took while the run went on. */
  ghost function Taken(c: Config, events: seq<Event>): seq<Line> {
    if events == [] then [] else
      var before := events[..|events| - 1];
      Taken(c, before) + Given(c, Run(c, before), events[|events| - 1])
  }

  /** How many of the lines are the recipient's. */
  function Told(ls: seq<Line>, i: nat): nat {
    if ls == [] then 0 else Told(ls[..|ls| - 1], i) + One(ls[|ls| - 1].index == i)
  }

  function IsRecording(x: Worker, i: nat): nat { One(x.Recording? && x.index == i) }

  /** How many workers are handing over the recipient's line. */
  function Recordings(workers: seq<Worker>, i: nat): nat {
    if workers == [] then 0 else Recordings(workers[..|workers| - 1], i) + IsRecording(workers[|workers| - 1], i)
  }

  lemma {:induction false} RecordingsUpdate(workers: seq<Worker>, w: nat, x: Worker, i: nat)
    requires w < |workers|
    ensures Recordings(workers[w := x], i) == Recordings(workers, i) - IsRecording(workers[w], i) + IsRecording(x, i)
  {
    var last := |workers| - 1;
    if w < last {
      RecordingsUpdate(workers[..last], w, x, i);
      assert workers[w := x][..last] == workers[..last][w := x];
    } else {
      assert workers[w := x][..last] == workers[..last];
    }
  }

  lemma {:induction false} NoRecordings(workers: seq<Worker>, i: nat)
    requires forall w :: 0 <= w < |workers| ==> !workers[w].Recording?
    ensures Recordings(workers, i) == 0
  {
    if workers != [] {
      NoRecordings(workers[..|workers| - 1], i);
    }
  }

  lemma {:induction false} ToldMore(ls: seq<Line>, more: seq<Line>, i: nat)
    ensures Told(ls + more, i) == Told(ls, i) + Told(more, i)
  {
    if more == [] {
      assert ls + more == ls;
    } else {
      var n := |more| - 1;
      assert (ls + more)[..|ls| + n] == ls + more[..n];
      ToldMore(ls, more[..n], i);
    }
  }

  // ─── What every event keeps ─────────────────────────────────────────────

  /** Each line is true, of a recipient settled. */
  ghost predicate AllTrue(c: Config, s: State, ls: seq<Line>) {
    |s.outcomes| == c.total &&
    forall k :: 0 <= k < |ls| ==> ls[k].index < c.total && s.outcomes[ls[k].index].Some? && LineOk(s, ls[k])
  }

  /** The recipient's line has been taken, or is on its way, if it is settled:
      exactly once, unless the sink has failed. */
  ghost predicate ToldOf(s: State, ls: seq<Line>, i: nat) {
    && i < |s.outcomes|
    && Told(ls, i) + Recordings(s.workers, i) <= One(s.outcomes[i].Some?)
    && (!s.sinkFailed ==> Told(ls, i) + Recordings(s.workers, i) == One(s.outcomes[i].Some?))
  }

  /** The lines are the first duplicates', in order: all announced, unless the
      sink has failed. */
  ghost predicate Announcing(c: Config, s: State, ls: seq<Line>) {
    && |ls| <= s.announced <= |c.duplicates| && (!s.sinkFailed ==> |ls| == s.announced)
    && (forall k :: 0 <= k < |ls| ==> ls[k].index == c.duplicates[k].0)
    && s.outcomes == Init(c).outcomes
    && (forall w :: 0 <= w < |s.workers| ==> s.workers[w].Looping?)
  }

  ghost predicate DuplicatesFirst(c: Config, s: State, ls: seq<Line>) {
    s.announced <= |c.duplicates| &&
    (!s.sinkFailed ==> s.announced <= |ls| && forall k :: 0 <= k < s.announced ==> ls[k].index == c.duplicates[k].0)
  }

  ghost predicate LinesInv(c: Config, s: State, ls: seq<Line>) {
    && AllTrue(c, s, ls) && DuplicatesFirst(c, s, ls)
    && if Announced(c, s) then forall i :: 0 <= i < c.total ==> ToldOf(s, ls, i) else Announcing(c, s, ls)
  }

  lemma SettledIsSome(c: Config, s: State, i: nat)
    requires Inv(c, s) && i < c.total && s.outcomes[i].Some?
    ensures s.book.settled[i] && s.book.attempts[i] == |s.tries[i]|
  {
    assert RecipientOk(s, i);
  }

  /** Lines already true stay true. */
  lemma StaysTrue(c: Config, s: State, e: Event, ls: seq<Line>)
    requires Inv(c, s) && AllTrue(c, s, ls)
    ensures AllTrue(c, Step(c, s, e), ls)
  {
    StepKeeps(c, s, e);
    forall k | 0 <= k < |ls|
      ensures Step(c, s, e).outcomes[ls[k].index].Some? && LineOk(Step(c, s, e), ls[k])
    {
      SettledIsSome(c, s, ls[k].index);
      SettledForGood(c, s, e, ls[k].index);
    }
  }

  /** A duplicate's line, and the one of a recipient a worker settled. */
  lemma GivenTrue(c: Config, s: State, e: Event, ls: seq<Line>)
    requires EndInv(c, s) && Built(c) && (!Announced(c, s) ==> s.outcomes == Init(c).outcomes)
    ensures AllTrue(c, s, Given(c, s, e))
  {
    if Given(c, s, e) != [] {
      var i := Given(c, s, e)[0].index;
      if e.Announce? {
        assert c.duplicates[s.announced] in c.duplicates;
        DuplicateOfListed(c.duplicates, c.duplicates[s.announced]);
      }
      SettledIsSome(c, s, i);
    }
  }

  /** Worker `w` settled nobody. */
  lemma IdleTold(s: State, t: State, w: nat, ls: seq<Line>, i: nat)
    requires ToldOf(s, ls, i) && w < |s.workers| && |t.workers| == |s.workers| && t.workers == s.workers[w := t.workers[w]]
    requires !s.workers[w].Recording? && !t.workers[w].Recording?
    requires t.outcomes == s.outcomes && t.sinkFailed == s.sinkFailed
    ensures ToldOf(t, ls, i)
  {
    RecordingsUpdate(s.workers, w, t.workers[w], i);
  }

  /** Worker `w` settled the recipient at `j`: its line is on its way. */
  lemma SettleTold(c: Config, s: State, m: State, w: nat, j: nat, outcome: Outcome, why: Option<Halt>, ls: seq<Line>, i: nat)
    requires c.sink && ToldOf(s, ls, i) && w < |s.workers| && !s.workers[w].Recording?
    requires j < |m.place| == |m.outcomes| == |m.book.settled| && m.outcomes[j].None?
    requires m.workers == s.workers && m.outcomes == s.outcomes && m.sinkFailed == s.sinkFailed
    ensures ToldOf(Settle(c, m, w, j, outcome, why), ls, i)
  {
    RecordingsUpdate(s.workers, w, Settle(c, m, w, j, outcome, why).workers[w], i);
  }

  lemma TurnTold(c: Config, s: State, w: nat, wall: int, unmade: Option<Error>, ls: seq<Line>, i: nat)
    requires Inv(c, s) && c.sink && w < |s.workers| && s.workers[w].Looping? && ToldOf(s, ls, i)
    ensures ToldOf(OnTurn(c, s, w, wall, unmade), ls, i) && OnTurn(c, s, w, wall, unmade).announced == s.announced
  {
    var turn := Next(s.book, wall).1;
    if !Halted(s) && turn.Send? && turn.retry.None? && unmade.Some? {
      FirstUnsettledSkips(s.book.settled, s.book.next);
      assert RecipientOk(s, turn.index);
      var m := s.(book := Next(s.book, wall).0, place := s.place[turn.index := With(w)]);
      SettleTold(c, s, m, w, turn.index, Failed(unmade.value), None, ls, i);
    } else {
      IdleTold(s, OnTurn(c, s, w, wall, unmade), w, ls, i);
    }
  }

  lemma BookedTold(c: Config, s: State, w: nat, wall: int, wait: Result<nat, Error>, ls: seq<Line>, i: nat)
    requires Inv(c, s) && c.sink && w < |s.workers| && s.workers[w].Reserving? && ToldOf(s, ls, i)
    ensures ToldOf(OnBooked(c, s, w, wall, wait), ls, i) && OnBooked(c, s, w, wall, wait).announced == s.announced
  {
    assert RecipientOk(s, s.workers[w].index);
    match wait
    case Ok(_) => IdleTold(s, OnBooked(c, s, w, wall, wait), w, ls, i);
    case Err(e) => SettleTold(c, s, s, w, s.workers[w].index, Failed(e), Some(LimiterFailed), ls, i);
  }

  lemma AnsweredTold(c: Config, s: State, w: nat, answer: Try, ls: seq<Line>, i: nat)
    requires Inv(c, s) && c.sink && w < |s.workers| && s.workers[w].Sending? && ToldOf(s, ls, i)
    ensures ToldOf(OnAnswered(c, s, w, answer), ls, i) && OnAnswered(c, s, w, answer).announced == s.announced
  {
    var j := s.workers[w].index;
    assert RecipientOk(s, j);
    match answer
    case Accepted(response) =>
      var m := s.(book := s.book.(attempts := s.book.attempts[j := s.book.attempts[j] + 1]), tries := s.tries[j := s.tries[j] + [answer]]);
      SettleTold(c, s, m, w, j, Sent(response), None, ls, i);
    case Refused(_) => IdleTold(s, OnAnswered(c, s, w, answer), w, ls, i);
  }

  lemma ReactedTold(c: Config, s: State, w: nat, wall: int, verdict: Verdict, ls: seq<Line>, i: nat)
    requires Inv(c, s) && c.sink && w < |s.workers| && s.workers[w].Reacting? && ToldOf(s, ls, i)
    ensures ToldOf(OnReacted(c, s, w, wall, verdict), ls, i) && OnReacted(c, s, w, wall, verdict).announced == s.announced
  {
    var x := s.workers[w];
    assert RecipientOk(s, x.index);
    if verdict.RetryAfter? && x.error.mayResend {
      IdleTold(s, OnReacted(c, s, w, wall, verdict), w, ls, i);
    } else {
      SettleTold(c, s, s, w, x.index, Failed(x.error), if verdict.Stop? then Some(Stopped) else None, ls, i);
    }
  }

  lemma RecordedTold(c: Config, s: State, w: nat, ok: bool, ls: seq<Line>, i: nat)
    requires Inv(c, s) && Announced(c, s) && w < |s.workers| && s.workers[w].Recording? && ToldOf(s, ls, i)
    ensures ToldOf(OnRecorded(c, s, w, ok), ls + Given(c, s, Recorded(w, ok)), i)
    ensures OnRecorded(c, s, w, ok).announced == s.announced
  {
    RecordingsUpdate(s.workers, w, OnRecorded(c, s, w, ok).workers[w], i);
    ToldMore(ls, Given(c, s, Recorded(w, ok)), i);
  }

  /** Once the duplicates are announced, every event keeps one line a recipient. */
  lemma StepTold(c: Config, s: State, e: Event, ls: seq<Line>, i: nat)
    requires Inv(c, s) && c.sink && Announced(c, s) && ToldOf(s, ls, i)
    ensures ToldOf(Step(c, s, e), ls + Given(c, s, e), i) && Step(c, s, e).announced == s.announced
  {
    var t := Step(c, s, e);
    assert !e.Recorded? ==> Given(c, s, e) == [] && ls + [] == ls;
    if Mover(e).Some? && Mover(e).value < |s.workers| {
      match e
      case Turn(w, wall, unmade) => if s.workers[w].Looping? { TurnTold(c, s, w, wall, unmade, ls, i); }
      case Rested(w, _) => if t != s { IdleTold(s, t, w, ls, i); }
      case Booked(w, wall, wait) => if s.workers[w].Reserving? { BookedTold(c, s, w, wall, wait, ls, i); }
      case SlotDue(w, _) => if t != s { IdleTold(s, t, w, ls, i); }
      case Released(w) => if t != s { IdleTold(s, t, w, ls, i); }
      case Answered(w, answer) => if s.workers[w].Sending? { AnsweredTold(c, s, w, answer, ls, i); }
      case Reacted(w, wall, verdict) => if Answers(c, s.workers[w], verdict) { ReactedTold(c, s, w, wall, verdict, ls, i); }
      case Recorded(w, ok) =>
        if s.workers[w].Recording? {
          RecordedTold(c, s, w, ok, ls, i);
        } else {
          assert ls + Given(c, s, e) == ls;
        }
    } else {
      assert ls + Given(c, s, e) == ls;
    }
  }

  // ─── The duplicates ─────────────────────────────────────────────────────

  /** Lines of the first duplicates name each at most once, and nobody else. */
  lemma {:induction false} ToldOfFirst(duplicates: seq<(nat, nat)>, total: nat, ls: seq<Line>, i: nat)
    requires Listed(duplicates, total) && |ls| <= |duplicates|
    requires forall k :: 0 <= k < |ls| ==> ls[k].index == duplicates[k].0
    ensures Told(ls, i) == One(exists k :: 0 <= k < |ls| && duplicates[k].0 == i)
  {
    if ls != [] {
      var n := |ls| - 1;
      ToldOfFirst(duplicates, total, ls[..n], i);
    }
  }

  lemma AnnouncedTold(c: Config, s: State, ls: seq<Line>, i: nat)
    requires Built(c) && Announcing(c, s, ls) && s.announced == |c.duplicates| && i < c.total
    ensures ToldOf(s, ls, i)
  {
    NoRecordings(s.workers, i);
    ToldOfFirst(c.duplicates, c.total, ls, i);
    if k :| 0 <= k < |c.duplicates| && c.duplicates[k].0 == i {
      assert c.duplicates[k] in c.duplicates;
      DuplicateOfListed(c.duplicates, c.duplicates[k]);
    } else {
      DuplicateOfNone(c.duplicates, i);
    }
  }

  lemma AnnounceTells(c: Config, s: State, e: Event, ls: seq<Line>)
    requires EndInv(c, s) && Built(c) && c.sink && !Announced(c, s) && Announcing(c, s, ls)
    ensures Announcing(c, Step(c, s, e), ls + Given(c, s, e))
  {
  }

  // ─── Whole runs ─────────────────────────────────────────────────────────

  lemma StepLines(c: Config, s: State, e: Event, ls: seq<Line>)
    requires EndInv(c, s) && Built(c) && c.sink && LinesInv(c, s, ls)
    ensures LinesInv(c, Step(c, s, e), ls + Given(c, s, e))
  {
    var t, more := Step(c, s, e), ls + Given(c, s, e);
    GivenTrue(c, s, e, ls);
    StaysTrue(c, s, e, more);
    if Announced(c, s) {
      forall i | 0 <= i < c.total
        ensures ToldOf(t, more, i) && t.announced == s.announced
      {
        StepTold(c, s, e, ls, i);
      }
      Sticks(c, s, e);
    } else {
      AnnounceTells(c, s, e, ls);
      if Announced(c, t) {
        forall i | 0 <= i < c.total
          ensures ToldOf(t, more, i)
        {
          AnnouncedTold(c, t, more, i);
        }
      }
    }
  }

  /** What has been announced stays so, and a sink that has failed. */
  lemma Sticks(c: Config, s: State, e: Event)
    requires Shaped(c, s) && Announced(c, s)
    ensures Step(c, s, e).announced == s.announced && (s.sinkFailed ==> Step(c, s, e).sinkFailed)
  {
  }

  lemma {:induction false} RunLines(c: Config, events: seq<Event>)
    requires Built(c) && c.sink
    ensures LinesInv(c, Run(c, events), Taken(c, events))
  {
    if events == [] {
      if Announced(c, Init(c)) {
        forall i | 0 <= i < c.total
          ensures ToldOf(Init(c), [], i)
        {
          AnnouncedTold(c, Init(c), [], i);
        }
      }
    } else {
      var before := events[..|events| - 1];
      RunLines(c, before);
      RunEnds(c, before);
      StepLines(c, Run(c, before), events[|events| - 1], Taken(c, before));
    }
  }

  /** Lines in order name nobody twice. */
  lemma {:induction false} ToldInOrder(ls: seq<Line>, i: nat)
    requires forall j, k :: 0 <= j < k < |ls| ==> ls[j].index < ls[k].index
    ensures Told(ls, i) == One(Names(ls, i))
  {
    if ls != [] {
      var n := |ls| - 1;
      ToldInOrder(ls[..n], i);
      if Names(ls[..n], i) {
        var k :| 0 <= k < n && ls[..n][k].index == i;
        assert ls[k].index == i;
      }
      if Names(ls, i) && ls[n].index != i {
        var k :| 0 <= k < |ls| && ls[k].index == i;
        assert ls[..n][k].index == i;
      }
      assert ls[n].index == i ==> Names(ls, i);
    }
  }

  /** A line handed over at the end is of a recipient never settled. */
  lemma SkippedIsOpen(c: Config, s: State, l: Line)
    requires Inv(c, s) && LineOk(s, l) && l.outcome.Skipped?
    ensures s.outcomes[l.index].None?
  {
    assert RecipientOk(s, l.index);
  }

  lemma StreamedTold(c: Config, s: State, takes: nat -> bool, streamed: seq<Line>, i: nat)
    requires Inv(c, s) && StreamedOk(s, takes, streamed, c.total) && i < c.total
    ensures Told(streamed, i) <= One(s.outcomes[i].None?)
    ensures (forall j :: takes(j)) ==> Told(streamed, i) == One(s.outcomes[i].None?)
  {
    ToldInOrder(streamed, i);
    if Names(streamed, i) {
      var k :| 0 <= k < |streamed| && streamed[k].index == i;
      SkippedIsOpen(c, s, streamed[k]);
    }
  }

  /** In every run, whatever the sink answers, the lines handed to it are true of
      their recipients and no recipient has two; and one that refuses nothing,
      to the end, gets exactly one a recipient, the duplicates' first. */
  lemma OneLineEach(c: Config, events: seq<Event>, takes: nat -> bool, streamed: seq<Line>)
    requires Built(c) && c.sink && AllReturned(Run(c, events))
    requires var s := Run(c, events); if s.sinkFailed then streamed == [] else StreamedOk(s, takes, streamed, c.total)
    ensures var s, lines := Run(c, events), Taken(c, events) + streamed;
            && (forall k :: 0 <= k < |lines| ==> lines[k].index < c.total && LineOk(s, lines[k]))
            && (forall i :: 0 <= i < c.total ==> Told(lines, i) <= 1)
            && (!s.sinkFailed && (forall j :: takes(j)) ==>
                  && (forall i :: 0 <= i < c.total ==> Told(lines, i) == 1)
                  && |c.duplicates| <= |lines|
                  && forall k :: 0 <= k < |c.duplicates| ==> lines[k].index == c.duplicates[k].0)
  {
    var s, lines := Run(c, events), Taken(c, events) + streamed;
    RunLines(c, events);
    RunCast(c, events);
    assert s.workers[0].Returned?;
    forall i | 0 <= i < c.total
      ensures Told(lines, i) <= 1 && (!s.sinkFailed && (forall j :: takes(j)) ==> Told(lines, i) == 1)
    {
      assert ToldOf(s, Taken(c, events), i);
      NoRecordings(s.workers, i);
      ToldMore(Taken(c, events), streamed, i);
      if !s.sinkFailed {
        StreamedTold(c, s, takes, streamed, i);
      }
    }
  }
}
