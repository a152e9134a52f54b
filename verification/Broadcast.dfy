/**
 A broadcast run as a transition system: cooperative workers that share a book
 of recipients, a pacer, and a flag that halts the run and may be raised at any
 time. A run is any sequence of events: which worker goes on, what the clock
 reads, what the outside answers.

 `place`, `tries`, `outcomes` and `slots` record where each recipient is, what
 each of its sends answered, what it was settled as, and what became of each
 slot booked.
 */
module Broadcasts {
  import opened Basics
  import opened Wrappers
  import opened Backoffs
  import opened Books

  datatype Halt = Running | Cancelled | Stopped | LimiterFailed | SinkFailed | Finished

  datatype Outcome = Sent(response: nat) | Failed(error: Error) | Skipped | Duplicate(of: nat)

  /** What one send answered. */
  datatype Try = Accepted(response: nat) | Refused(error: Error)

  /** What the run was built with. `policy` is asked about each failed send: it
      says which verdicts it may give on that error after so many failures, more
      than one if it keeps a state of its own. */
  datatype Config = Config(
    total: nat, duplicates: seq<(nat, nat)>, concurrency: nat, sink: bool, policy: (Error, nat, Verdict) -> bool)

  /** Where a worker is: each constructor is a point it waits at. */
  datatype Worker =
    | Looping
    | Napping(until: int)
    | Reserving(index: nat, last: Option<Error>)
    | Waiting(index: nat, last: Option<Error>, slot: nat, until: int)
    | Sending(index: nat, slot: nat)
    | Reacting(index: nat, error: Error, failures: nat)
    | Releasing(index: nat, last: Option<Error>, slot: nat)
    | Recording(index: nat, why: Option<Halt>)
    | Returned

  /** Where a recipient is. */
  datatype Place = Untaken | With(worker: nat) | Retrying | Settled | Abandoned

  /** What became of a slot booked. */
  datatype Fate = Held(worker: nat) | SentIn(index: nat) | GivenBack

  datatype State = State(
    book: BookState, halt: Halt, sent: nat, failed: nat, duplicates: nat, announced: nat, sinkFailed: bool,
    workers: seq<Worker>, place: seq<Place>, tries: seq<seq<Try>>, outcomes: seq<Option<Outcome>>, slots: seq<Fate>)

  datatype Event =
    | Cancel
    /** The sink took, or refused, the next duplicate's line. */
    | Announce(ok: bool)
    /** The worker looks for its next turn; `unmade` is why the message of a
        recipient taken for the first time could not be composed. */
    | Turn(worker: nat, wall: int, unmade: Option<Error>)
    | Rested(worker: nat, wall: int)
    | Booked(worker: nat, wall: int, wait: Result<nat, Error>)
    | SlotDue(worker: nat, wall: int)
    | Released(worker: nat)
    | Answered(worker: nat, answer: Try)
    /** The policy gave its verdict on the failed send. */
    | Reacted(worker: nat, wall: int, verdict: Verdict)
    | Recorded(worker: nat, ok: bool)

  function DuplicateOf(duplicates: seq<(nat, nat)>, index: nat): Option<nat> {
    if duplicates == [] then None
    else if duplicates[0].0 == index then Some(duplicates[0].1)
    else DuplicateOf(duplicates[1..], index)
  }

  function Workers(c: Config): nat {
    var n := Min(c.concurrency, c.total);
    if n == 0 then 1 else n
  }

  function Init(c: Config): State {
    var of := (i: nat) => DuplicateOf(c.duplicates, i);
    State(
      BookState(0, [], seq(c.total, _ => 0), seq(c.total, i requires i >= 0 => of(i).Some?), map[], None, None, 0),
      Running, 0, 0, |c.duplicates|, 0, false,
      seq(Workers(c), _ => Looping),
      seq(c.total, i requires i >= 0 => if of(i).Some? then Settled else Untaken),
      seq(c.total, _ => []),
      seq(c.total, i requires i >= 0 => if of(i).Some? then Some(Duplicate(of(i).value)) else None),
      [])
  }

  predicate Halted(s: State) { s.halt != Running }

  /** Every duplicate's line has been handed to the sink, if there is one. */
  predicate Announced(c: Config, s: State) { !c.sink || s.announced == |c.duplicates| }

  /** The run halted for `why`, unless it was before: the first reason stands. */
  function StopRun(s: State, index: nat, why: Halt): State {
    if Halted(s) then s else s.(halt := why, book := s.book.(stoppedBy := Some(index)))
  }

  function Put(s: State, w: nat, x: Worker): State
    requires w < |s.workers|
  {
    s.(workers := s.workers[w := x])
  }

  /** The recipient at `index` is settled by worker `w`: counted, and its line
      handed to the sink if there is one; then the run stops if it must. */
  function Settle(c: Config, s: State, w: nat, index: nat, outcome: Outcome, why: Option<Halt>): State
    requires w < |s.workers| && index < |s.place| == |s.outcomes| == |s.book.settled|
  {
    var t := s.(
      book := s.book.(settled := s.book.settled[index := true], lastErrors := if c.sink then s.book.lastErrors - {index} else s.book.lastErrors),
      place := s.place[index := Settled],
      outcomes := s.outcomes[index := Some(outcome)],
      sent := if outcome.Sent? then s.sent + 1 else s.sent,
      failed := if outcome.Failed? then s.failed + 1 else s.failed);
    if c.sink && !s.sinkFailed then Put(t, w, Recording(index, why))
    else Put(if why.Some? then StopRun(t, index, why.value) else t, w, Looping)
  }

  /** The recipient a worker has in hand. */
  function Claim(x: Worker): Option<nat> {
    match x
    case Reserving(i, _) => Some(i)
    case Waiting(i, _, _, _) => Some(i)
    case Sending(i, _) => Some(i)
    case Reacting(i, _, _) => Some(i)
    case Releasing(i, _, _) => Some(i)
    case _ => None
  }

  /** The slot a worker holds and has not used. */
  function Holding(x: Worker): Option<nat> {
    match x
    case Waiting(_, _, k, _) => Some(k)
    case Releasing(_, _, k) => Some(k)
    case _ => None
  }

  predicate WorkerShaped(total: nat, slots: nat, x: Worker) {
    && (Claim(x).Some? ==> Claim(x).value < total)
    && (Holding(x).Some? ==> Holding(x).value < slots)
    && (x.Recording? ==> x.index < total)
  }

  /** The state's shape: one entry a recipient, everywhere. */
  predicate Shaped(c: Config, s: State) {
    && |s.place| == |s.tries| == |s.outcomes| == |s.book.settled| == |s.book.attempts| == c.total
    && (forall w :: 0 <= w < |s.workers| ==> WorkerShaped(c.total, |s.slots|, s.workers[w]))
    && (forall d :: d in s.book.deferred ==> d.index < c.total)
  }

  function OnTurn(c: Config, s: State, w: nat, wall: int, unmade: Option<Error>): State
    requires Shaped(c, s) && w < |s.workers|
  {
    if Halted(s) then Put(s, w, Returned) else
      var (book, turn) := Next(s.book, wall);
      var t := s.(book := book);
      match turn
      case Send(i, retry) =>
        if retry.None? && unmade.Some? then Settle(c, t.(place := s.place[i := With(w)]), w, i, Failed(unmade.value), None)
        else Put(t.(place := s.place[i := With(w)]), w, Reserving(i, retry))
      case Wait(duration) => Put(t, w, Napping(wall + duration))
      case Done => Put(t, w, Returned)
  }

  function OnBooked(c: Config, s: State, w: nat, wall: int, wait: Result<nat, Error>): State
    requires Shaped(c, s) && w < |s.workers| && s.workers[w].Reserving?
  {
    var x := s.workers[w];
    match wait
    case Ok(d) => Put(s.(slots := s.slots + [Held(w)]), w, Waiting(x.index, x.last, |s.slots|, wall + d))
    case Err(e) => Settle(c, s, w, x.index, Failed(e), Some(LimiterFailed))
  }

  function OnSlotDue(c: Config, s: State, w: nat, wall: int): State
    requires Shaped(c, s) && w < |s.workers| && s.workers[w].Waiting?
  {
    var x := s.workers[w];
    if Halted(s) then Put(s, w, Releasing(x.index, x.last, x.slot))
    else if wall >= x.until then Put(s.(slots := s.slots[x.slot := SentIn(x.index)]), w, Sending(x.index, x.slot))
    else s
  }

  function OnReleased(c: Config, s: State, w: nat): State
    requires Shaped(c, s) && w < |s.workers| && s.workers[w].Releasing?
  {
    var x := s.workers[w];
    var book := if x.last.Some? then s.book.(lastErrors := s.book.lastErrors[x.index := x.last.value]) else s.book;
    Put(s.(book := book, slots := s.slots[x.slot := GivenBack], place := s.place[x.index := Abandoned]), w, Looping)
  }

  function OnAnswered(c: Config, s: State, w: nat, answer: Try): State
    requires Shaped(c, s) && w < |s.workers| && s.workers[w].Sending?
  {
    var i := s.workers[w].index;
    var failures := s.book.attempts[i] + 1;
    var t := s.(book := s.book.(attempts := s.book.attempts[i := failures]), tries := s.tries[i := s.tries[i] + [answer]]);
    match answer
    case Accepted(response) => Settle(c, t, w, i, Sent(response), None)
    case Refused(e) => Put(t, w, Reacting(i, e, failures))
  }

  function OnReacted(c: Config, s: State, w: nat, wall: int, verdict: Verdict): State
    requires Shaped(c, s) && w < |s.workers| && s.workers[w].Reacting?
  {
    var x := s.workers[w];
    if verdict.RetryAfter? && x.error.mayResend then
      Put(s.(book := Defer(s.book, wall, verdict.delay, x.index, x.error), place := s.place[x.index := Retrying]), w, Looping)
    else Settle(c, s, w, x.index, Failed(x.error), if verdict.Stop? then Some(Stopped) else None)
  }

  function OnRecorded(c: Config, s: State, w: nat, ok: bool): State
    requires Shaped(c, s) && w < |s.workers| && s.workers[w].Recording?
  {
    var x := s.workers[w];
    var t := if ok then s else StopRun(s.(sinkFailed := true), x.index, SinkFailed);
    Put(if x.why.Some? then StopRun(t, x.index, x.why.value) else t, w, Looping)
  }

  /** The worker asked the policy, which may answer so. */
  predicate Answers(c: Config, x: Worker, verdict: Verdict) {
    x.Reacting? && c.policy(x.error, x.failures, verdict)
  }

  /** The worker an event moves, if it does. */
  function Mover(e: Event): Option<nat> {
    match e
    case Cancel => None
    case Announce(_) => None
    case Turn(w, _, _) => Some(w)
    case Rested(w, _) => Some(w)
    case Booked(w, _, _) => Some(w)
    case SlotDue(w, _) => Some(w)
    case Released(w) => Some(w)
    case Answered(w, _) => Some(w)
    case Reacted(w, _, _) => Some(w)
    case Recorded(w, _) => Some(w)
  }

  /** One event; one that cannot happen here changes nothing. */
  function Step(c: Config, s: State, e: Event): State
    requires Shaped(c, s)
  {
    if Mover(e).Some? && !(Announced(c, s) && Mover(e).value < |s.workers|) then s else
    match e
    case Cancel => if Halted(s) then s else s.(halt := Cancelled)
    case Announce(ok) =>
      if Announced(c, s) || s.announced >= |c.duplicates| then s else
        var t := s.(announced := s.announced + 1);
        if s.sinkFailed || ok then t
        else StopRun(t.(sinkFailed := true), c.duplicates[s.announced].0, SinkFailed)
    case Turn(w, wall, unmade) => if s.workers[w].Looping? then OnTurn(c, s, w, wall, unmade) else s
    case Rested(w, wall) =>
      if !s.workers[w].Napping? then s
      else if Halted(s) then Put(s, w, Returned)
      else if wall >= s.workers[w].until then Put(s, w, Looping)
      else s
    case Booked(w, wall, wait) => if s.workers[w].Reserving? then OnBooked(c, s, w, wall, wait) else s
    case SlotDue(w, wall) => if s.workers[w].Waiting? then OnSlotDue(c, s, w, wall) else s
    case Released(w) => if s.workers[w].Releasing? then OnReleased(c, s, w) else s
    case Answered(w, answer) => if s.workers[w].Sending? then OnAnswered(c, s, w, answer) else s
    case Reacted(w, wall, verdict) => if Answers(c, s.workers[w], verdict) then OnReacted(c, s, w, wall, verdict) else s
    case Recorded(w, ok) => if s.workers[w].Recording? then OnRecorded(c, s, w, ok) else s
  }
}
