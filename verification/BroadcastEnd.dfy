/**
 How a broadcast run halts and ends: what its counters, its slots and its halt
 reason say, and the report it comes back with.
 */
module BroadcastEnd {
  import opened Wrappers
  import opened Backoffs
  import opened Books
  import opened Broadcasts
  import opened BroadcastSafety

  // ─── Counting ───────────────────────────────────────────────────────────

  datatype Mark = IsOpen | IsSent | IsFailed | IsSkipped | IsDuplicate

  function MarkOf(o: Option<Outcome>): Mark {
    match o
    case None => IsOpen
    case Some(Sent(_)) => IsSent
    case Some(Failed(_)) => IsFailed
    case Some(Skipped) => IsSkipped
    case Some(Duplicate(_)) => IsDuplicate
  }

  function Tally(os: seq<Option<Outcome>>, m: Mark): nat {
    if os == [] then 0 else Tally(os[..|os| - 1], m) + if MarkOf(os[|os| - 1]) == m then 1 else 0
  }

  lemma {:induction false} TallyUpdate(os: seq<Option<Outcome>>, i: nat, o: Option<Outcome>, m: Mark)
    requires i < |os|
    ensures Tally(os[i := o], m) ==
            Tally(os, m) - (if MarkOf(os[i]) == m then 1 else 0) + if MarkOf(o) == m then 1 else 0
  {
    var last := |os| - 1;
    if i < last {
      TallyUpdate(os[..last], i, o, m);
      assert os[i := o][..last] == os[..last][i := o];
    } else {
      assert os[i := o][..last] == os[..last];
    }
  }

  lemma {:induction false} TallyTotal(os: seq<Option<Outcome>>)
    ensures Tally(os, IsOpen) + Tally(os, IsSent) + Tally(os, IsFailed) + Tally(os, IsSkipped) + Tally(os, IsDuplicate) == |os|
  {
    if os != [] {
      TallyTotal(os[..|os| - 1]);
    }
  }

  lemma {:induction false} TallyNone(os: seq<Option<Outcome>>, m: Mark)
    requires forall i :: 0 <= i < |os| ==> MarkOf(os[i]) != m
    ensures Tally(os, m) == 0
  {
    if os != [] {
      TallyNone(os[..|os| - 1], m);
    }
  }

  /** The counters are the numbers of recipients settled each way. */
  ghost predicate Counted(s: State) {
    s.sent == Tally(s.outcomes, IsSent) && s.failed == Tally(s.outcomes, IsFailed) && s.duplicates == Tally(s.outcomes, IsDuplicate)
  }

  /** The duplicates are listed in order, each once. */
  ghost predicate Listed(duplicates: seq<(nat, nat)>, total: nat) {
    && (forall a, b :: 0 <= a < b < |duplicates| ==> duplicates[a].0 < duplicates[b].0)
    && (forall a :: 0 <= a < |duplicates| ==> duplicates[a].0 < total)
  }

  lemma {:induction false} DuplicateOfNone(duplicates: seq<(nat, nat)>, index: nat)
    requires forall a :: 0 <= a < |duplicates| ==> duplicates[a].0 != index
    ensures DuplicateOf(duplicates, index).None?
  {
    if duplicates != [] {
      DuplicateOfNone(duplicates[1..], index);
    }
  }

  lemma {:induction false} DuplicateOfSnoc(duplicates: seq<(nat, nat)>, last: (nat, nat), index: nat)
    ensures DuplicateOf(duplicates + [last], index) ==
            if DuplicateOf(duplicates, index).Some? then DuplicateOf(duplicates, index)
            else if last.0 == index then Some(last.1) else None
  {
    if duplicates != [] {
      assert (duplicates + [last])[1..] == duplicates[1..] + [last];
      DuplicateOfSnoc(duplicates[1..], last, index);
    }
  }

  /** As many outcomes start out settled as there are duplicates. */
  lemma {:induction false} TallyInit(duplicates: seq<(nat, nat)>, total: nat, os: seq<Option<Outcome>>)
    requires Listed(duplicates, total) && |os| == total
    requires forall i :: 0 <= i < total ==>
               os[i] == var of := DuplicateOf(duplicates, i); if of.Some? then Some(Duplicate(of.value)) else None
    ensures Tally(os, IsDuplicate) == |duplicates|
    decreases total
  {
    if total > 0 {
      var n := total - 1;
      if duplicates != [] && duplicates[|duplicates| - 1].0 == n {
        var front, last := duplicates[..|duplicates| - 1], duplicates[|duplicates| - 1];
        assert duplicates == front + [last];
        forall i | 0 <= i < n
          ensures DuplicateOf(duplicates, i) == DuplicateOf(front, i)
        {
          DuplicateOfSnoc(front, last, i);
        }
        DuplicateOfSnoc(front, last, n);
        TallyInit(front, n, os[..n]);
      } else {
        DuplicateOfNone(duplicates, n);
        TallyInit(duplicates, n, os[..n]);
      }
    }
  }

  // ─── Halting ────────────────────────────────────────────────────────────

  predicate IsFailure(o: Option<Outcome>) { o.Some? && o.value.Failed? }

  /** The halt reason, who it names, and what it may name. */
  ghost predicate HaltOk(c: Config, s: State) {
    && |s.outcomes| == c.total
    && s.halt != Finished
    && (s.book.stoppedBy.Some? <==> s.halt in {Stopped, LimiterFailed, SinkFailed})
    && (s.halt in {Stopped, LimiterFailed} ==>
          s.book.stoppedBy.value < c.total && IsFailure(s.outcomes[s.book.stoppedBy.value]))
    && (s.sinkFailed ==> Halted(s)) && (s.halt == SinkFailed ==> s.sinkFailed)
  }

  /** A worker about to stop the run has settled its recipient as failed. */
  ghost predicate RecordingOk(c: Config, s: State) {
    && |s.outcomes| == c.total
    && forall w :: 0 <= w < |s.workers| && s.workers[w].Recording? ==>
         var x := s.workers[w];
         x.index < c.total && s.outcomes[x.index].Some?
         && (x.why.Some? ==> x.why.value in {Stopped, LimiterFailed} && IsFailure(s.outcomes[x.index]))
  }

  ghost predicate Up(s: State) {
    exists w :: 0 <= w < |s.workers| && !s.workers[w].Returned?
  }

  /** Until the run halts, workers return only when nobody is left to take,
      and never all of them while someone waits for a retry. */
  ghost predicate NobodyLost(c: Config, s: State) {
    !Halted(s) ==>
      && (s.book.deferred != [] ==> Up(s))
      && forall w :: 0 <= w < |s.workers| && s.workers[w].Returned? ==> s.book.next == c.total
  }

  // ─── Slots ──────────────────────────────────────────────────────────────

  /** A slot is held exactly by the worker that waits on it or gives it back;
      a send is in the slot it took. */
  ghost predicate SlotsOk(s: State) {
    && (forall w :: 0 <= w < |s.workers| && Holding(s.workers[w]).Some? ==>
          Holding(s.workers[w]).value < |s.slots| && s.slots[Holding(s.workers[w]).value] == Held(w))
    && (forall k :: 0 <= k < |s.slots| && s.slots[k].Held? ==>
          var w := s.slots[k].worker;
          w < |s.workers| && Holding(s.workers[w]) == Some(k))
  }

  ghost predicate EndInv(c: Config, s: State) {
    Inv(c, s) && Counted(s) && HaltOk(c, s) && RecordingOk(c, s) && NobodyLost(c, s) && SlotsOk(s)
  }

  lemma UpIfNot(s: State, w: nat)
    requires w < |s.workers| && !s.workers[w].Returned?
    ensures Up(s)
  {
  }

  /** Only worker `w` and its slot, if any, changed. */
  lemma SlotsKeep(s: State, t: State, w: nat)
    requires SlotsOk(s) && w < |s.workers| == |t.workers| && t.workers == s.workers[w := t.workers[w]]
    requires |s.slots| <= |t.slots|
    requires forall k :: 0 <= k < |s.slots| && Holding(s.workers[w]) != Some(k) ==> t.slots[k] == s.slots[k]
    requires forall k :: |s.slots| <= k < |t.slots| ==> t.slots[k] == Held(w) && Holding(t.workers[w]) == Some(k)
    requires Holding(s.workers[w]).Some? && Holding(t.workers[w]).None? ==> !t.slots[Holding(s.workers[w]).value].Held?
    requires Holding(s.workers[w]).Some? && Holding(t.workers[w]).Some? ==> Holding(t.workers[w]) == Holding(s.workers[w]) && t.slots == s.slots
    requires Holding(s.workers[w]).None? && Holding(t.workers[w]).Some? ==> |t.slots| > |s.slots|
    ensures SlotsOk(t)
  {
    forall k | 0 <= k < |t.slots| && t.slots[k].Held?
      ensures t.slots[k].worker < |t.workers| && Holding(t.workers[t.slots[k].worker]) == Some(k)
    {
      if k < |s.slots| && Holding(s.workers[w]) != Some(k) {
        assert t.slots[k] == s.slots[k];
        assert s.slots[k].worker != w;
      }
    }
    forall v | 0 <= v < |t.workers| && Holding(t.workers[v]).Some?
      ensures Holding(t.workers[v]).value < |t.slots| && t.slots[Holding(t.workers[v]).value] == Held(v)
    {
      if v != w {
        assert t.workers[v] == s.workers[v];
      } else if Holding(s.workers[w]).None? {
        assert t.slots[|s.slots|] == Held(w) && Holding(t.workers[w]) == Some(|s.slots|);
      }
    }
  }

  // ─── The events ─────────────────────────────────────────────────────────

  /** The part of the invariant that looks at counters, reasons and slots. */
  ghost predicate Accounts(c: Config, s: State) {
    Counted(s) && HaltOk(c, s) && RecordingOk(c, s) && SlotsOk(s)
  }

  /** A worker that goes on, whatever it does, loses nobody. */
  lemma Lively(c: Config, s: State, t: State, w: nat)
    requires NobodyLost(c, s) && w < |s.workers| == |t.workers| && t.workers == s.workers[w := t.workers[w]]
    requires !t.workers[w].Returned? && (Halted(s) ==> Halted(t))
    requires s.book.next == c.total ==> t.book.next == c.total
    ensures NobodyLost(c, t)
  {
    UpIfNot(t, w);
    assert forall v :: 0 <= v < |t.workers| && t.workers[v].Returned? ==> s.workers[v].Returned?;
  }

  lemma SettleCounts(c: Config, m: State, w: nat, i: nat, outcome: Outcome, why: Option<Halt>)
    requires w < |m.workers| && i < c.total == |m.place| == |m.outcomes| == |m.book.settled|
    requires Counted(m) && m.outcomes[i].None? && (outcome.Sent? || outcome.Failed?)
    ensures Counted(Settle(c, m, w, i, outcome, why))
  {
    TallyUpdate(m.outcomes, i, Some(outcome), IsSent);
    TallyUpdate(m.outcomes, i, Some(outcome), IsFailed);
    TallyUpdate(m.outcomes, i, Some(outcome), IsDuplicate);
  }

  lemma SettleAccounts(c: Config, m: State, w: nat, i: nat, outcome: Outcome, why: Option<Halt>)
    requires Accounts(c, m) && w < |m.workers| && i < c.total == |m.place| == |m.book.settled|
    requires m.outcomes[i].None? && (outcome.Sent? || outcome.Failed?) && Holding(m.workers[w]).None?
    requires why.Some? ==> why.value in {Stopped, LimiterFailed} && outcome.Failed?
    ensures Accounts(c, Settle(c, m, w, i, outcome, why))
  {
    var t := Settle(c, m, w, i, outcome, why);
    SettleCounts(c, m, w, i, outcome, why);
    SlotsKeep(m, t, w);
    forall v | 0 <= v < |t.workers| && t.workers[v].Recording?
      ensures var x := t.workers[v];
              x.index < c.total && t.outcomes[x.index].Some?
              && (x.why.Some? ==> x.why.value in {Stopped, LimiterFailed} && IsFailure(t.outcomes[x.index]))
    {
      if v != w {
        assert t.workers[v] == m.workers[v];
      }
    }
  }

  /** Only worker `w` and the slots moved. */
  lemma WorkerAccounts(c: Config, s: State, t: State, w: nat)
    requires Accounts(c, s) && w < |s.workers| == |t.workers| && t.workers == s.workers[w := t.workers[w]]
    requires t.outcomes == s.outcomes && t.sent == s.sent && t.failed == s.failed && t.duplicates == s.duplicates
    requires !t.workers[w].Recording? && HaltOk(c, t) && SlotsOk(t)
    ensures Accounts(c, t)
  {
    forall v | 0 <= v < |t.workers| && t.workers[v].Recording?
      ensures t.workers[v] == s.workers[v]
    {
    }
  }

  /** A recipient whose message could not be made is counted as failed. */
  lemma UnmadeEnds(c: Config, s: State, w: nat, wall: int, unmade: Error)
    requires EndInv(c, s) && w < |s.workers| && s.workers[w].Looping?
    requires Next(s.book, wall).1.Send? && Next(s.book, wall).1.retry.None?
    ensures var i := Next(s.book, wall).1.index;
            Accounts(c, Settle(c, s.(book := Next(s.book, wall).0, place := s.place[i := With(w)]), w, i, Failed(unmade), None))
  {
    var i := Next(s.book, wall).1.index;
    FirstUnsettledSkips(s.book.settled, s.book.next);
    assert s.place[i].Untaken?;
    assert RecipientOk(s, i);
    SettleAccounts(c, s.(book := Next(s.book, wall).0, place := s.place[i := With(w)]), w, i, Failed(unmade), None);
  }

  /** Moving on never goes back. */
  lemma NextOn(c: Config, s: State, wall: int)
    requires Shaped(c, s)
    ensures s.book.next == c.total ==> Next(s.book, wall).0.next == c.total
    ensures Next(s.book, wall).1.Done? && s.book.next <= c.total ==>
              Next(s.book, wall).0.next == c.total && Next(s.book, wall).0.deferred == []
  {
    FirstUnsettledSkips(s.book.settled, s.book.next);
  }

  lemma TurnAccounts(c: Config, s: State, w: nat, wall: int, unmade: Option<Error>)
    requires EndInv(c, s) && w < |s.workers| && s.workers[w].Looping?
    ensures Accounts(c, OnTurn(c, s, w, wall, unmade))
  {
    var t, turn := OnTurn(c, s, w, wall, unmade), Next(s.book, wall).1;
    if !Halted(s) && turn.Send? && turn.retry.None? && unmade.Some? {
      UnmadeEnds(c, s, w, wall, unmade.value);
    } else {
      SlotsKeep(s, t, w);
      WorkerAccounts(c, s, t, w);
    }
  }

  lemma TurnEnds(c: Config, s: State, w: nat, wall: int, unmade: Option<Error>)
    requires EndInv(c, s) && w < |s.workers| && s.workers[w].Looping?
    ensures Accounts(c, OnTurn(c, s, w, wall, unmade)) && NobodyLost(c, OnTurn(c, s, w, wall, unmade))
  {
    var t := OnTurn(c, s, w, wall, unmade);
    TurnAccounts(c, s, w, wall, unmade);
    NextOn(c, s, wall);
    if !t.workers[w].Returned? {
      Lively(c, s, t, w);
    } else if !Halted(s) {
      assert t.book.deferred == [] && t.book.next == c.total;
    }
  }

  lemma BookedEnds(c: Config, s: State, w: nat, wall: int, wait: Result<nat, Error>)
    requires EndInv(c, s) && w < |s.workers| && s.workers[w].Reserving?
    ensures Accounts(c, OnBooked(c, s, w, wall, wait)) && NobodyLost(c, OnBooked(c, s, w, wall, wait))
  {
    var t := OnBooked(c, s, w, wall, wait);
    assert RecipientOk(s, s.workers[w].index);
    match wait
    case Ok(_) => SlotsKeep(s, t, w); WorkerAccounts(c, s, t, w); Lively(c, s, t, w);
    case Err(e) =>
      SettleAccounts(c, s, w, s.workers[w].index, Failed(e), Some(LimiterFailed));
      Lively(c, s, t, w);
  }

  lemma SlotDueEnds(c: Config, s: State, w: nat, wall: int)
    requires EndInv(c, s) && w < |s.workers| && s.workers[w].Waiting?
    ensures Accounts(c, OnSlotDue(c, s, w, wall)) && NobodyLost(c, OnSlotDue(c, s, w, wall))
  {
    var t := OnSlotDue(c, s, w, wall);
    if t != s {
      SlotsKeep(s, t, w);
      WorkerAccounts(c, s, t, w);
      Lively(c, s, t, w);
    }
  }

  lemma ReleasedEnds(c: Config, s: State, w: nat)
    requires EndInv(c, s) && w < |s.workers| && s.workers[w].Releasing?
    ensures Accounts(c, OnReleased(c, s, w)) && NobodyLost(c, OnReleased(c, s, w))
  {
    var t := OnReleased(c, s, w);
    SlotsKeep(s, t, w);
    WorkerAccounts(c, s, t, w);
    Lively(c, s, t, w);
  }

  lemma AnsweredEnds(c: Config, s: State, w: nat, answer: Try)
    requires EndInv(c, s) && w < |s.workers| && s.workers[w].Sending?
    ensures Accounts(c, OnAnswered(c, s, w, answer)) && NobodyLost(c, OnAnswered(c, s, w, answer))
  {
    var t, i := OnAnswered(c, s, w, answer), s.workers[w].index;
    assert RecipientOk(s, i);
    match answer
    case Accepted(response) =>
      var failures := s.book.attempts[i] + 1;
      var m := s.(book := s.book.(attempts := s.book.attempts[i := failures]), tries := s.tries[i := s.tries[i] + [answer]]);
      SettleAccounts(c, m, w, i, Sent(response), None);
      Lively(c, s, t, w);
    case Refused(_) =>
      SlotsKeep(s, t, w);
      WorkerAccounts(c, s, t, w);
      Lively(c, s, t, w);
  }

  lemma ReactedEnds(c: Config, s: State, w: nat, wall: int, verdict: Verdict)
    requires EndInv(c, s) && w < |s.workers| && s.workers[w].Reacting?
    ensures Accounts(c, OnReacted(c, s, w, wall, verdict)) && NobodyLost(c, OnReacted(c, s, w, wall, verdict))
  {
    var t, x := OnReacted(c, s, w, wall, verdict), s.workers[w];
    assert RecipientOk(s, x.index);
    if verdict.RetryAfter? && x.error.mayResend {
      SlotsKeep(s, t, w);
      WorkerAccounts(c, s, t, w);
    } else {
      SettleAccounts(c, s, w, x.index, Failed(x.error), if verdict.Stop? then Some(Stopped) else None);
    }
    Lively(c, s, t, w);
  }

  lemma RecordedEnds(c: Config, s: State, w: nat, ok: bool)
    requires EndInv(c, s) && w < |s.workers| && s.workers[w].Recording?
    ensures Accounts(c, OnRecorded(c, s, w, ok)) && NobodyLost(c, OnRecorded(c, s, w, ok))
  {
    var t := OnRecorded(c, s, w, ok);
    SlotsKeep(s, t, w);
    WorkerAccounts(c, s, t, w);
    Lively(c, s, t, w);
  }

  lemma RestedEnds(c: Config, s: State, w: nat, wall: int)
    requires EndInv(c, s)
    ensures Accounts(c, Step(c, s, Rested(w, wall))) && NobodyLost(c, Step(c, s, Rested(w, wall)))
  {
    var t := Step(c, s, Rested(w, wall));
    if t != s {
      SlotsKeep(s, t, w);
      WorkerAccounts(c, s, t, w);
      if !Halted(s) {
        Lively(c, s, t, w);
      }
    }
  }

  lemma FlagsEnd(c: Config, s: State, ok: bool)
    requires EndInv(c, s)
    ensures Accounts(c, Step(c, s, Cancel)) && NobodyLost(c, Step(c, s, Cancel))
    ensures Accounts(c, Step(c, s, Announce(ok))) && NobodyLost(c, Step(c, s, Announce(ok)))
  {
    assert Up(s) ==> Up(Step(c, s, Announce(ok)));
  }

  /** Every event keeps the accounts, and loses nobody. */
  lemma StepEnds(c: Config, s: State, e: Event)
    requires EndInv(c, s)
    ensures EndInv(c, Step(c, s, e))
  {
    StepKeeps(c, s, e);
    if Mover(e).None? || (Announced(c, s) && Mover(e).value < |s.workers|) {
      match e
      case Cancel => FlagsEnd(c, s, true);
      case Announce(ok) => FlagsEnd(c, s, ok);
      case Turn(w, wall, unmade) => if s.workers[w].Looping? { TurnEnds(c, s, w, wall, unmade); }
      case Rested(w, wall) => RestedEnds(c, s, w, wall);
      case Booked(w, wall, wait) => if s.workers[w].Reserving? { BookedEnds(c, s, w, wall, wait); }
      case SlotDue(w, wall) => if s.workers[w].Waiting? { SlotDueEnds(c, s, w, wall); }
      case Released(w) => if s.workers[w].Releasing? { ReleasedEnds(c, s, w); }
      case Answered(w, answer) => if s.workers[w].Sending? { AnsweredEnds(c, s, w, answer); }
      case Reacted(w, wall, verdict) => if Answers(c, s.workers[w], verdict) { ReactedEnds(c, s, w, wall, verdict); }
      case Recorded(w, ok) => if s.workers[w].Recording? { RecordedEnds(c, s, w, ok); }
    }
  }

  /** The builder's duplicates: listed in order, each once. */
  ghost predicate Built(c: Config) { Listed(c.duplicates, c.total) }

  lemma InitEnds(c: Config)
    requires Built(c)
    ensures EndInv(c, Init(c))
  {
    var s := Init(c);
    InitKeeps(c);
    TallyInit(c.duplicates, c.total, s.outcomes);
    TallyNone(s.outcomes, IsSent);
    TallyNone(s.outcomes, IsFailed);
  }

  lemma {:induction false} RunEnds(c: Config, events: seq<Event>)
    requires Built(c)
    ensures EndInv(c, Run(c, events))
  {
    if events == [] {
      InitEnds(c);
    } else {
      RunEnds(c, events[..|events| - 1]);
      StepEnds(c, Run(c, events[..|events| - 1]), events[|events| - 1]);
    }
  }
}
