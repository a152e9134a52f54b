/**
 Halting, slots, and the end of a broadcast run: the report.
 */
module BroadcastFinish {
  import opened Wrappers
  import opened Backoffs
  import opened Broadcasts
  import opened BroadcastSafety
  import opened BroadcastEnd
  import opened BroadcastReport

  // ─── Halting ────────────────────────────────────────────────────────────

  /** Once a run has halted, no event changes why, or whom that names. */
  lemma FirstReasonSticks(c: Config, s: State, e: Event)
    requires Shaped(c, s) && Halted(s)
    ensures Step(c, s, e).halt == s.halt && Step(c, s, e).book.stoppedBy == s.book.stoppedBy
  {
  }

  /** A turn, an answer or a settling leaves a worker that is not sending. */
  lemma TurnSendsNot(c: Config, s: State, w: nat, wall: int, unmade: Option<Error>)
    requires Shaped(c, s) && w < |s.workers|
    ensures var t := OnTurn(c, s, w, wall, unmade);
            |t.workers| == |s.workers| && t.workers == s.workers[w := t.workers[w]] && !t.workers[w].Sending?
            && t.tries == s.tries && t.slots == s.slots
  {
  }

  lemma ReactedSendsNot(c: Config, s: State, w: nat, wall: int, verdict: Verdict)
    requires Shaped(c, s) && w < |s.workers| && s.workers[w].Reacting?
    ensures var t := OnReacted(c, s, w, wall, verdict);
            |t.workers| == |s.workers| && t.workers == s.workers[w := t.workers[w]] && !t.workers[w].Sending?
            && t.tries == s.tries && t.slots == s.slots
  {
  }

  lemma BookedSendsNot(c: Config, s: State, w: nat, wall: int, wait: Result<nat, Error>)
    requires Shaped(c, s) && w < |s.workers| && s.workers[w].Reserving?
    ensures var t := OnBooked(c, s, w, wall, wait);
            |t.workers| == |s.workers| && t.workers == s.workers[w := t.workers[w]] && !t.workers[w].Sending?
            && t.tries == s.tries && (t.slots == s.slots || t.slots == s.slots + [Held(w)])
  {
  }

  lemma AnsweredSendsNot(c: Config, s: State, w: nat, answer: Try)
    requires Shaped(c, s) && w < |s.workers| && s.workers[w].Sending?
    ensures var t := OnAnswered(c, s, w, answer);
            |t.workers| == |s.workers| && t.workers == s.workers[w := t.workers[w]] && !t.workers[w].Sending?
            && t.slots == s.slots
  {
  }

  lemma RecordedSendsNot(c: Config, s: State, w: nat, ok: bool)
    requires Shaped(c, s) && w < |s.workers| && s.workers[w].Recording?
    ensures var t := OnRecorded(c, s, w, ok);
            |t.workers| == |s.workers| && t.workers == s.workers[w := t.workers[w]] && !t.workers[w].Sending?
            && t.tries == s.tries && t.slots == s.slots
  {
  }

  /** Only the coming of a slot makes a worker send. */
  lemma OnlyDueSends(c: Config, s: State, e: Event, w: nat)
    requires Shaped(c, s) && w < |s.workers| == |Step(c, s, e).workers|
    requires Step(c, s, e).workers[w].Sending? && !s.workers[w].Sending?
    ensures e.SlotDue? && e.worker == w
  {
    if Mover(e).Some? && Announced(c, s) && Mover(e).value < |s.workers| {
      match e
      case Turn(v, wall, unmade) => TurnSendsNot(c, s, v, wall, unmade);
      case Booked(v, wall, wait) => if s.workers[v].Reserving? { BookedSendsNot(c, s, v, wall, wait); }
      case Answered(v, answer) => if s.workers[v].Sending? { AnsweredSendsNot(c, s, v, answer); }
      case Reacted(v, wall, verdict) => if Answers(c, s.workers[v], verdict) { ReactedSendsNot(c, s, v, wall, verdict); }
      case Recorded(v, ok) => if s.workers[v].Recording? { RecordedSendsNot(c, s, v, ok); }
      case _ =>
    }
  }

  /** No send starts once the run is halted, and each takes a slot of its own. */
  lemma NoSendOnceHalted(c: Config, s: State, e: Event, w: nat)
    requires Shaped(c, s) && SlotsOk(s) && w < |s.workers| == |Step(c, s, e).workers|
    requires Step(c, s, e).workers[w].Sending? && !s.workers[w].Sending?
    ensures var t := Step(c, s, e);
            var x := t.workers[w];
            && !Halted(s) && x.slot < |s.slots| && s.slots[x.slot] == Held(w)
            && t.slots == s.slots[x.slot := SentIn(x.index)]
  {
    OnlyDueSends(c, s, e, w);
    assert Holding(s.workers[w]).Some?;
  }

  // ─── Slots ──────────────────────────────────────────────────────────────

  /** How many slots went to sends to the recipient. */
  function SlotsFor(slots: seq<Fate>, i: nat): nat {
    if slots == [] then 0 else SlotsFor(slots[..|slots| - 1], i) + One(slots[|slots| - 1] == SentIn(i))
  }

  function IsSendingTo(x: Worker, i: nat): nat { One(x.Sending? && x.index == i) }

  /** How many workers have a send to the recipient in flight. */
  function InFlight(workers: seq<Worker>, i: nat): nat {
    if workers == [] then 0 else InFlight(workers[..|workers| - 1], i) + IsSendingTo(workers[|workers| - 1], i)
  }

  lemma {:induction false} SlotsForUpdate(slots: seq<Fate>, k: nat, f: Fate, i: nat)
    requires k < |slots|
    ensures SlotsFor(slots[k := f], i) == SlotsFor(slots, i) - One(slots[k] == SentIn(i)) + One(f == SentIn(i))
  {
    var last := |slots| - 1;
    if k < last {
      SlotsForUpdate(slots[..last], k, f, i);
      assert slots[k := f][..last] == slots[..last][k := f];
    } else {
      assert slots[k := f][..last] == slots[..last];
    }
  }

  lemma {:induction false} InFlightUpdate(workers: seq<Worker>, w: nat, x: Worker, i: nat)
    requires w < |workers|
    ensures InFlight(workers[w := x], i) == InFlight(workers, i) - IsSendingTo(workers[w], i) + IsSendingTo(x, i)
  {
    var last := |workers| - 1;
    if w < last {
      InFlightUpdate(workers[..last], w, x, i);
      assert workers[w := x][..last] == workers[..last][w := x];
    } else {
      assert workers[w := x][..last] == workers[..last];
    }
  }

  /** The recipient's sends, answered or in flight, are as many as the slots
      spent on it. */
  ghost predicate PacedFor(s: State, i: nat) {
    i < |s.tries| && SlotsFor(s.slots, i) == |s.tries[i]| + InFlight(s.workers, i)
  }

  lemma AnsweredPaced(c: Config, s: State, w: nat, answer: Try, i: nat)
    requires Shaped(c, s) && w < |s.workers| && s.workers[w].Sending? && PacedFor(s, i)
    ensures PacedFor(OnAnswered(c, s, w, answer), i)
  {
    InFlightUpdate(s.workers, w, OnAnswered(c, s, w, answer).workers[w], i);
  }

  /** A worker that neither starts nor ends a send. */
  lemma OtherwisePaced(s: State, t: State, w: nat, i: nat)
    requires PacedFor(s, i) && w < |s.workers| == |t.workers| && t.workers == s.workers[w := t.workers[w]]
    requires !s.workers[w].Sending? && !t.workers[w].Sending?
    requires t.tries == s.tries && SlotsFor(t.slots, i) == SlotsFor(s.slots, i)
    ensures PacedFor(t, i)
  {
    InFlightUpdate(s.workers, w, t.workers[w], i);
  }

  lemma SlotDuePaced(c: Config, s: State, w: nat, wall: int, i: nat)
    requires Shaped(c, s) && SlotsOk(s) && w < |s.workers| && s.workers[w].Waiting? && PacedFor(s, i)
    ensures PacedFor(OnSlotDue(c, s, w, wall), i)
  {
    var t, x := OnSlotDue(c, s, w, wall), s.workers[w];
    assert Holding(x) == Some(x.slot);
    if t != s {
      SlotsForUpdate(s.slots, x.slot, SentIn(x.index), i);
      InFlightUpdate(s.workers, w, t.workers[w], i);
    }
  }

  lemma ReleasedPaced(c: Config, s: State, w: nat, i: nat)
    requires Shaped(c, s) && SlotsOk(s) && w < |s.workers| && s.workers[w].Releasing? && PacedFor(s, i)
    ensures PacedFor(OnReleased(c, s, w), i)
  {
    assert Holding(s.workers[w]) == Some(s.workers[w].slot);
    SlotsForUpdate(s.slots, s.workers[w].slot, GivenBack, i);
    OtherwisePaced(s, OnReleased(c, s, w), w, i);
  }

  lemma StepPaced(c: Config, s: State, e: Event, i: nat)
    requires Shaped(c, s) && SlotsOk(s) && PacedFor(s, i)
    ensures PacedFor(Step(c, s, e), i)
  {
    var t := Step(c, s, e);
    if Mover(e).Some? && Announced(c, s) && Mover(e).value < |s.workers| {
      match e
      case Turn(w, wall, unmade) =>
        if s.workers[w].Looping? { TurnSendsNot(c, s, w, wall, unmade); OtherwisePaced(s, t, w, i); }
      case Rested(w, _) => if s.workers[w].Napping? && t != s { OtherwisePaced(s, t, w, i); }
      case Booked(w, wall, wait) =>
        if s.workers[w].Reserving? {
          BookedSendsNot(c, s, w, wall, wait);
          assert (s.slots + [Held(w)])[..|s.slots|] == s.slots;
          OtherwisePaced(s, t, w, i);
        }
      case SlotDue(w, wall) => if s.workers[w].Waiting? { SlotDuePaced(c, s, w, wall, i); }
      case Released(w) => if s.workers[w].Releasing? { ReleasedPaced(c, s, w, i); }
      case Answered(w, answer) => if s.workers[w].Sending? { AnsweredPaced(c, s, w, answer, i); }
      case Reacted(w, wall, verdict) => if Answers(c, s.workers[w], verdict) { ReactedSendsNot(c, s, w, wall, verdict); OtherwisePaced(s, t, w, i); }
      case Recorded(w, ok) => if s.workers[w].Recording? { RecordedSendsNot(c, s, w, ok); OtherwisePaced(s, t, w, i); }
    }
  }

  /** In every run, a recipient has been sent to exactly as often as slots were
      spent on it: a retry takes a slot of its own. */
  lemma {:induction false} SlotPerSend(c: Config, events: seq<Event>, i: nat)
    requires Built(c) && i < c.total
    ensures PacedFor(Run(c, events), i)
  {
    if events == [] {
      NoneInFlight(Init(c).workers, i);
    } else {
      var before := events[..|events| - 1];
      SlotPerSend(c, before, i);
      RunEnds(c, before);
      StepPaced(c, Run(c, before), events[|events| - 1], i);
    }
  }

  lemma {:induction false} NoneInFlight(workers: seq<Worker>, i: nat)
    requires forall w :: 0 <= w < |workers| ==> !workers[w].Sending?
    ensures InFlight(workers, i) == 0
  {
    if workers != [] {
      NoneInFlight(workers[..|workers| - 1], i);
    }
  }

  lemma HeldFateMoves(c: Config, s: State, e: Event, k: nat)
    requires Shaped(c, s) && SlotsOk(s) && k < |s.slots| && !s.slots[k].Held?
    requires e.SlotDue? || e.Released?
    ensures k < |Step(c, s, e).slots| && Step(c, s, e).slots[k] == s.slots[k]
  {
    if e.worker < |s.workers| {
      assert Holding(s.workers[e.worker]).Some? ==> s.slots[Holding(s.workers[e.worker]).value] == Held(e.worker);
    }
  }

  lemma FateStays(c: Config, s: State, e: Event, k: nat)
    requires Shaped(c, s) && SlotsOk(s) && k < |s.slots|
    ensures k < |Step(c, s, e).slots| && (!s.slots[k].Held? ==> Step(c, s, e).slots[k] == s.slots[k])
  {
    if Mover(e).Some? && Announced(c, s) && Mover(e).value < |s.workers| {
      match e
      case Turn(w, wall, unmade) => if s.workers[w].Looping? { TurnSendsNot(c, s, w, wall, unmade); }
      case Rested(_, _) =>
      case Booked(w, wall, wait) => if s.workers[w].Reserving? { BookedSendsNot(c, s, w, wall, wait); }
      case SlotDue(_, _) => if !s.slots[k].Held? { HeldFateMoves(c, s, e, k); }
      case Released(_) => if !s.slots[k].Held? { HeldFateMoves(c, s, e, k); }
      case Answered(w, answer) => if s.workers[w].Sending? { AnsweredSendsNot(c, s, w, answer); }
      case Reacted(w, wall, verdict) => if Answers(c, s.workers[w], verdict) { ReactedSendsNot(c, s, w, wall, verdict); }
      case Recorded(w, ok) => if s.workers[w].Recording? { RecordedSendsNot(c, s, w, ok); }
    }
  }

  /** A slot's fate is sealed once it is sent in or given back; when every
      worker has returned, every slot's is. */
  lemma FatesAreSealed(c: Config, s: State, e: Event, k: nat)
    requires Shaped(c, s) && SlotsOk(s) && k < |s.slots|
    ensures k < |Step(c, s, e).slots| && (!s.slots[k].Held? ==> Step(c, s, e).slots[k] == s.slots[k])
    ensures (forall w :: 0 <= w < |s.workers| ==> s.workers[w].Returned?) ==> !s.slots[k].Held?
  {
    FateStays(c, s, e, k);
  }
}
