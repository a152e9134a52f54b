/**
 What every event of a broadcast run keeps, whatever the schedule of its
 workers, the answers of the outside and the moment of a cancel.
 */
module BroadcastSafety {
  import opened Wrappers
  import opened Backoffs
  import opened Books
  import opened Broadcasts

  // ─── Sends to one recipient ─────────────────────────────────────────────

  /** Every send was refused with an error that proves nothing was sent. */
  ghost predicate Resendable(t: seq<Try>) {
    forall k :: 0 <= k < |t| ==> t[k].Refused? && t[k].error.mayResend
  }

  function LastError(t: seq<Try>): Option<Error> {
    if t != [] && t[|t| - 1].Refused? then Some(t[|t| - 1].error) else None
  }

  /** Every send but the last was refused with an error that proves nothing was sent. */
  ghost predicate NeverBlind(t: seq<Try>) {
    t != [] ==> Resendable(t[..|t| - 1])
  }

  // ─── The invariant, piece by piece ──────────────────────────────────────

  /** What a worker has in hand, and how it came by it. */
  ghost predicate InHand(x: Worker, i: nat, t: seq<Try>, halted: bool) {
    match x
    case Reserving(j, last) => j == i && Resendable(t) && last == LastError(t)
    case Waiting(j, last, _, _) => j == i && Resendable(t) && last == LastError(t)
    case Sending(j, _) => j == i && Resendable(t)
    case Reacting(j, e, failures) => j == i && NeverBlind(t) && LastError(t) == Some(e) && failures == |t|
    case Releasing(j, last, _) => j == i && Resendable(t) && last == LastError(t) && halted
    case _ => false
  }

  /** What a recipient was settled as agrees with what its sends answered. */
  ghost predicate SettledAs(o: Option<Outcome>, t: seq<Try>) {
    && o.Some? && NeverBlind(t)
    && match o.value
       case Sent(response) => t != [] && t[|t| - 1] == Accepted(response)
       case Failed(_) => t != [] ==> t[|t| - 1].Refused?
       case Duplicate(_) => t == []
       case Skipped => false
  }

  /** Each recipient is in one place, and its record fits it. */
  ghost predicate RecipientOk(s: State, i: nat)
    requires i < |s.place| == |s.tries| == |s.outcomes|
  {
    var t := s.tries[i];
    match s.place[i]
    case Untaken => t == [] && s.outcomes[i].None?
    case With(w) => w < |s.workers| && InHand(s.workers[w], i, t, Halted(s)) && s.outcomes[i].None?
    case Retrying => t != [] && Resendable(t) && s.outcomes[i].None?
    case Settled => SettledAs(s.outcomes[i], t)
    case Abandoned =>
      && Resendable(t) && Halted(s) && s.outcomes[i].None?
      && (if i in s.book.lastErrors then Some(s.book.lastErrors[i]) else None) == LastError(t)
  }

  /** A worker has in hand only what is with it. */
  ghost predicate Claims(s: State) {
    forall w :: 0 <= w < |s.workers| && Claim(s.workers[w]).Some? ==>
                  Claim(s.workers[w]).value < |s.place| && s.place[Claim(s.workers[w]).value] == With(w)
  }

  ghost predicate Recipients(s: State) {
    && |s.place| == |s.tries| == |s.outcomes|
    && (forall i :: 0 <= i < |s.place| ==> RecipientOk(s, i))
    && (forall i :: i in s.book.lastErrors ==> i < |s.place| && s.place[i].Abandoned?)
  }

  /** The book's own fields say where each recipient is. */
  ghost predicate BookOk(s: State) {
    && |s.place| == |s.tries| == |s.book.settled| == |s.book.attempts| && s.book.next <= |s.place|
    && (forall i :: 0 <= i < |s.place| ==> (s.book.settled[i] <==> s.place[i].Settled?))
    && (forall i :: 0 <= i < |s.place| ==> s.book.attempts[i] == |s.tries[i]|)
    && (forall i :: 0 <= i < |s.place| ==> (s.place[i].Untaken? <==> s.book.next <= i && !s.book.settled[i]))
  }

  /** Each recipient waiting for a retry is in the heap once, with its last
      error; nobody else is. */
  ghost predicate HeapOk(s: State) {
    && |s.place| == |s.tries|
    && Sorted(s.book.deferred)
    && (forall i :: 0 <= i < |s.place| ==> Books.Waiting(s.book.deferred, i) == if s.place[i].Retrying? then 1 else 0)
    && (forall d :: d in s.book.deferred ==> d.index < |s.place| && LastError(s.tries[d.index]) == Some(d.error))
  }

  ghost predicate Inv(c: Config, s: State) {
    Shaped(c, s) && Claims(s) && Recipients(s) && BookOk(s) && HeapOk(s)
  }

  // ─── Small steps ────────────────────────────────────────────────────────

  lemma ResendableMore(t: seq<Try>, e: Error)
    requires NeverBlind(t) && LastError(t) == Some(e) && e.mayResend
    ensures Resendable(t)
  {
    forall k | 0 <= k < |t|
      ensures t[k].Refused? && t[k].error.mayResend
    {
      if k < |t| - 1 {
        assert t[k] == t[..|t| - 1][k];
      }
    }
  }

  lemma TriedOnce(t: seq<Try>, answer: Try)
    requires Resendable(t)
    ensures NeverBlind(t + [answer])
  {
    assert (t + [answer])[..|t|] == t;
  }

  /** Everything but worker `w` and recipient `i` is untouched. */
  ghost predicate Apart(s: State, t: State, w: nat, i: nat) {
    && w < |s.workers| == |t.workers| && |s.place| == |t.place| == |s.tries| == |t.tries| == |s.outcomes| == |t.outcomes|
    && t.workers == s.workers[w := t.workers[w]]
    && (forall j :: 0 <= j < |s.place| && j != i ==>
          t.place[j] == s.place[j] && t.tries[j] == s.tries[j] && t.outcomes[j] == s.outcomes[j])
    && (forall j :: j != i ==>
          (j in t.book.lastErrors <==> j in s.book.lastErrors) &&
          (j in s.book.lastErrors ==> t.book.lastErrors[j] == s.book.lastErrors[j]))
    && (Halted(s) ==> Halted(t))
  }

  /** The others are as they were. */
  lemma OthersKeep(s: State, t: State, w: nat, i: nat)
    requires Claims(s) && Recipients(s) && Apart(s, t, w, i)
    requires Claim(s.workers[w]).None? || Claim(s.workers[w]) == Some(i)
    ensures forall j :: 0 <= j < |t.place| && j != i ==> RecipientOk(t, j)
  {
    forall j | 0 <= j < |t.place| && j != i
      ensures RecipientOk(t, j)
    {
      assert RecipientOk(s, j);
      assert s.place[j] != With(w);
    }
  }

  /** One worker and one recipient moved: what must hold of them alone. */
  lemma MoveKeeps(s: State, t: State, w: nat, i: nat)
    requires Claims(s) && Recipients(s) && Apart(s, t, w, i)
    requires Claim(s.workers[w]).None? || Claim(s.workers[w]) == Some(i)
    requires i < |s.place| && (s.place[i].With? ==> s.place[i] == With(w))
    requires RecipientOk(t, i)
    requires i in t.book.lastErrors ==> t.place[i].Abandoned?
    requires Claim(t.workers[w]).Some? ==> Claim(t.workers[w]) == Some(i) && t.place[i] == With(w)
    ensures Claims(t) && Recipients(t)
  {
    OthersKeep(s, t, w, i);
    forall v | 0 <= v < |t.workers| && Claim(t.workers[v]).Some?
      ensures Claim(t.workers[v]).value < |t.place| && t.place[Claim(t.workers[v]).value] == With(v)
    {
      if v != w {
        assert t.workers[v] == s.workers[v];
      }
    }
  }

  /** Only worker `w` moved, with nobody in hand before or after. */
  lemma IdleKeeps(c: Config, s: State, t: State, w: nat)
    requires Inv(c, s) && w < |s.workers| == |t.workers|
    requires t.workers == s.workers[w := t.workers[w]] && Claim(s.workers[w]).None? && Claim(t.workers[w]).None?
    requires WorkerShaped(c.total, |t.slots|, t.workers[w]) && |t.slots| == |s.slots|
    requires t.place == s.place && t.tries == s.tries && t.outcomes == s.outcomes && (Halted(s) ==> Halted(t))
    requires t.book == s.book.(next := t.book.next, stoppedBy := t.book.stoppedBy, seen := t.book.seen, skew := t.book.skew)
    requires BookOk(t)
    ensures Inv(c, t)
  {
    forall i | 0 <= i < |t.place|
      ensures RecipientOk(t, i)
    {
      assert RecipientOk(s, i);
      assert s.place[i] != With(w);
    }
    forall v | 0 <= v < |t.workers| && Claim(t.workers[v]).Some?
      ensures Claim(t.workers[v]).value < |t.place| && t.place[Claim(t.workers[v]).value] == With(v)
    {
      assert t.workers[v] == s.workers[v];
    }
  }

  lemma {:induction false} WaitingIsHeld(q: seq<Deferred>, i: nat)
    ensures Books.Waiting(q, i) > 0 <==> exists d :: d in q && d.index == i
  {
    if q != [] {
      WaitingIsHeld(q[1..], i);
      assert q == [q[0]] + q[1..];
    }
  }

  /** A recipient not waiting for a retry may change its record without
      touching the heap. */
  lemma HeapKeeps(s: State, t: State, i: nat)
    requires HeapOk(s) && t.book.deferred == s.book.deferred && i < |s.place| == |t.place| == |t.tries|
    requires !s.place[i].Retrying? && !t.place[i].Retrying?
    requires forall j :: 0 <= j < |s.place| && j != i ==> t.place[j] == s.place[j] && t.tries[j] == s.tries[j]
    ensures HeapOk(t)
  {
    WaitingIsHeld(s.book.deferred, i);
  }

  /** Sending to a recipient in hand, or settling it, keeps the book in step. */
  lemma BookKeeps(s: State, t: State, i: nat)
    requires BookOk(s) && i < |s.place| == |t.place| == |t.tries| == |t.book.settled| == |t.book.attempts|
    requires s.place[i].With? && !t.place[i].Untaken? && t.book.next == s.book.next
    requires forall j :: 0 <= j < |s.place| && j != i ==>
               t.place[j] == s.place[j] && t.tries[j] == s.tries[j]
               && t.book.settled[j] == s.book.settled[j] && t.book.attempts[j] == s.book.attempts[j]
    requires t.book.settled[i] == t.place[i].Settled? && t.book.attempts[i] == |t.tries[i]|
    ensures BookOk(t)
  {
  }

  // ─── The events ─────────────────────────────────────────────────────────

  /** The state a recipient in hand is settled from: its sends may just have
      grown by one. */
  ghost predicate Settling(c: Config, s: State, m: State, w: nat, i: nat) {
    && Inv(c, s) && w < |s.workers| && i < c.total
    && s.place[i] == With(w) && Claim(s.workers[w]) == Some(i)
    && |m.tries| == |s.tries| && |m.book.attempts| == |s.book.attempts|
    && m == s.(book := s.book.(attempts := m.book.attempts), tries := m.tries)
    && m.book.attempts[i] == |m.tries[i]|
    && forall j :: 0 <= j < c.total && j != i ==> m.tries[j] == s.tries[j] && m.book.attempts[j] == s.book.attempts[j]
  }

  /** What settling makes of the recipient, and that it touches nobody else. */
  lemma SettleIs(c: Config, m: State, w: nat, i: nat, outcome: Outcome, why: Option<Halt>)
    requires w < |m.workers| && i < |m.place| == |m.tries| == |m.outcomes| == |m.book.settled|
    ensures var t := Settle(c, m, w, i, outcome, why);
            && t.place == m.place[i := Settled] && t.outcomes == m.outcomes[i := Some(outcome)] && t.tries == m.tries
            && |t.workers| == |m.workers| && t.workers == m.workers[w := t.workers[w]] && Claim(t.workers[w]).None?
            && (forall j :: j in t.book.lastErrors <==> j in m.book.lastErrors && (c.sink ==> j != i))
            && (forall j :: j in t.book.lastErrors ==> t.book.lastErrors[j] == m.book.lastErrors[j])
            && (Halted(m) ==> Halted(t))
  {
  }

  lemma SettleMoves(c: Config, s: State, m: State, w: nat, i: nat, outcome: Outcome, why: Option<Halt>)
    requires Settling(c, s, m, w, i) && SettledAs(Some(outcome), m.tries[i])
    ensures Claims(Settle(c, m, w, i, outcome, why)) && Recipients(Settle(c, m, w, i, outcome, why))
  {
    var t := Settle(c, m, w, i, outcome, why);
    SettleIs(c, m, w, i, outcome, why);
    assert RecipientOk(s, i);
    assert i !in s.book.lastErrors;
    MoveKeeps(s, t, w, i);
  }

  lemma SettleBook(c: Config, s: State, m: State, w: nat, i: nat, outcome: Outcome, why: Option<Halt>)
    requires Settling(c, s, m, w, i)
    ensures BookOk(Settle(c, m, w, i, outcome, why)) && HeapOk(Settle(c, m, w, i, outcome, why))
  {
    var t := Settle(c, m, w, i, outcome, why);
    HeapKeeps(s, t, i);
    BookKeeps(s, t, i);
  }

  lemma SettleKeeps(c: Config, s: State, m: State, w: nat, i: nat, outcome: Outcome, why: Option<Halt>)
    requires Settling(c, s, m, w, i) && SettledAs(Some(outcome), m.tries[i])
    ensures Inv(c, Settle(c, m, w, i, outcome, why))
  {
    SettleMoves(c, s, m, w, i, outcome, why);
    SettleBook(c, s, m, w, i, outcome, why);
  }

  /** A worker with a recipient in hand goes on with it, nothing else changing
      but the slots. */
  lemma GoesOn(c: Config, s: State, t: State, w: nat, i: nat)
    requires Inv(c, s) && w < |s.workers| && Claim(s.workers[w]) == Some(i)
    requires |t.workers| == |s.workers| && t == s.(workers := s.workers[w := t.workers[w]], slots := t.slots)
    requires InHand(t.workers[w], i, s.tries[i], Halted(s))
    requires |s.slots| <= |t.slots| && WorkerShaped(c.total, |t.slots|, t.workers[w])
    ensures Inv(c, t)
  {
    assert RecipientOk(s, i);
    assert i !in s.book.lastErrors;
    MoveKeeps(s, t, w, i);
  }

  lemma {:induction false} FirstUnsettledSkips(settled: seq<bool>, from: nat)
    ensures var first := FirstUnsettled(settled, from);
            && from <= first && (first < |settled| ==> !settled[first])
            && (forall j :: from <= j < first ==> j < |settled| && settled[j])
            && (from <= |settled| ==> first <= |settled|)
    decreases if from < |settled| then |settled| - from else 0
  {
    if from < |settled| && settled[from] {
      FirstUnsettledSkips(settled, from + 1);
    }
  }

  /** Moving on to the first recipient not settled leaves nobody behind. */
  lemma NextSkipsSettled(s: State, t: State)
    requires BookOk(s) && t.place == s.place && t.tries == s.tries
    requires t.book == s.book.(next := FirstUnsettled(s.book.settled, s.book.next), seen := t.book.seen, skew := t.book.skew)
    ensures BookOk(t)
  {
    FirstUnsettledSkips(s.book.settled, s.book.next);
  }

  /** A free worker takes a recipient nobody has in hand. */
  lemma TakenMoves(s: State, t: State, w: nat, i: nat, last: Option<Error>)
    requires Claims(s) && Recipients(s) && w < |s.workers| && Claim(s.workers[w]).None? && i < |s.place|
    requires s.place[i].Untaken? || s.place[i].Retrying?
    requires last == LastError(s.tries[i])
    requires t == s.(book := t.book, place := s.place[i := With(w)], workers := s.workers[w := Reserving(i, last)])
    requires t.book.lastErrors == s.book.lastErrors
    ensures Claims(t) && Recipients(t)
  {
    assert RecipientOk(s, i);
    assert i !in s.book.lastErrors;
    MoveKeeps(s, t, w, i);
  }

  /** A recipient taken for the first time. */
  lemma TakenFirst(c: Config, s: State, w: nat, wall: int)
    requires Inv(c, s) && w < |s.workers| && s.workers[w].Looping?
    requires Next(s.book, wall).1.Send? && Next(s.book, wall).1.retry.None?
    ensures var i := Next(s.book, wall).1.index;
            && s.place[i] == Untaken && s.tries[i] == []
            && Inv(c, Put(s.(book := Next(s.book, wall).0, place := s.place[i := With(w)]), w, Reserving(i, None)))
  {
    var i := Next(s.book, wall).1.index;
    var t := Put(s.(book := Next(s.book, wall).0, place := s.place[i := With(w)]), w, Reserving(i, None));
    FirstUnsettledSkips(s.book.settled, s.book.next);
    assert RecipientOk(s, i);
    assert s.place[i] == Untaken;
    TakenMoves(s, t, w, i, None);
    HeapKeeps(s, t, i);
  }

  /** The earliest waiting send taken out of the heap. */
  lemma HeapPop(s: State, t: State, w: nat)
    requires HeapOk(s) && s.book.deferred != [] && s.book.deferred[0].index < |s.place|
    requires t.book.deferred == s.book.deferred[1..] && t.tries == s.tries
    requires t.place == s.place[s.book.deferred[0].index := With(w)]
    ensures HeapOk(t) && s.place[s.book.deferred[0].index] == Retrying
    ensures LastError(s.tries[s.book.deferred[0].index]) == Some(s.book.deferred[0].error)
  {
    var q := s.book.deferred;
    WaitingIsHeld(q, q[0].index);
    assert q[0] in q;
    assert forall d :: d in q[1..] ==> d in q;
  }

  /** A recipient in hand put into the heap. */
  lemma HeapPush(s: State, t: State, d: Deferred)
    requires HeapOk(s) && d.index < |s.place| && s.place[d.index].With?
    requires t.book.deferred == Insert(s.book.deferred, d) && t.tries == s.tries
    requires t.place == s.place[d.index := Retrying] && LastError(s.tries[d.index]) == Some(d.error)
    ensures HeapOk(t)
  {
    InsertHolds(s.book.deferred, d);
    InsertKeeps(s.book.deferred, d);
    forall e | e in t.book.deferred
      ensures e == d || e in s.book.deferred
    {
      assert e in multiset(t.book.deferred);
    }
  }

  /** A recipient taken out of the heap to be sent to again. */
  lemma TakenAgain(c: Config, s: State, w: nat, wall: int)
    requires Inv(c, s) && w < |s.workers| && s.workers[w].Looping?
    requires Next(s.book, wall).1.Send? && Next(s.book, wall).1.retry.Some?
    ensures var i := Next(s.book, wall).1.index;
            Inv(c, Put(s.(book := Next(s.book, wall).0, place := s.place[i := With(w)]), w, Reserving(i, Next(s.book, wall).1.retry)))
  {
    var d := s.book.deferred[0];
    var i := d.index;
    assert d in s.book.deferred;
    var t := Put(s.(book := Next(s.book, wall).0, place := s.place[i := With(w)]), w, Reserving(i, Some(d.error)));
    HeapPop(s, t, w);
    TakenMoves(s, t, w, i, Some(d.error));
    assert t.book.deferred == s.book.deferred[1..];
  }

  lemma TurnKeeps(c: Config, s: State, w: nat, wall: int, unmade: Option<Error>)
    requires Inv(c, s) && w < |s.workers| && s.workers[w].Looping?
    ensures Inv(c, OnTurn(c, s, w, wall, unmade))
  {
    var t := OnTurn(c, s, w, wall, unmade);
    if Halted(s) {
      IdleKeeps(c, s, t, w);
    } else {
      var (book, turn) := Next(s.book, wall);
      match turn
      case Send(i, retry) =>
        if retry.Some? {
          TakenAgain(c, s, w, wall);
        } else {
          TakenFirst(c, s, w, wall);
          if unmade.Some? {
            UnmadeKeeps(c, s, w, wall, unmade.value);
          }
        }
      case Wait(_) => NextSkipsSettled(s, t); IdleKeeps(c, s, t, w);
      case Done => NextSkipsSettled(s, t); IdleKeeps(c, s, t, w);
    }
  }

  /** A recipient whose message could not be made is settled unsent. */
  lemma UnmadeKeeps(c: Config, s: State, w: nat, wall: int, unmade: Error)
    requires Inv(c, s) && w < |s.workers| && s.workers[w].Looping?
    requires Next(s.book, wall).1.Send? && Next(s.book, wall).1.retry.None?
    ensures var i := Next(s.book, wall).1.index;
            Inv(c, Settle(c, s.(book := Next(s.book, wall).0, place := s.place[i := With(w)]), w, i, Failed(unmade), None))
  {
    var i := Next(s.book, wall).1.index;
    var m := s.(book := Next(s.book, wall).0, place := s.place[i := With(w)]);
    var taken := Put(m, w, Reserving(i, None));
    TakenFirst(c, s, w, wall);
    SettleKeeps(c, taken, taken, w, i, Failed(unmade), None);
    assert taken.workers[w := Looping] == m.workers[w := Looping];
    assert taken.workers[w := Recording(i, None)] == m.workers[w := Recording(i, None)];
    assert Settle(c, taken, w, i, Failed(unmade), None) == Settle(c, m, w, i, Failed(unmade), None);
  }

  lemma BookedKeeps(c: Config, s: State, w: nat, wall: int, wait: Result<nat, Error>)
    requires Inv(c, s) && w < |s.workers| && s.workers[w].Reserving?
    ensures Inv(c, OnBooked(c, s, w, wall, wait))
  {
    var i := s.workers[w].index;
    assert RecipientOk(s, i);
    match wait
    case Ok(d) => GoesOn(c, s, OnBooked(c, s, w, wall, wait), w, i);
    case Err(e) =>
      assert NeverBlind(s.tries[i]);
      SettleKeeps(c, s, s, w, i, Failed(e), Some(LimiterFailed));
  }

  lemma SlotDueKeeps(c: Config, s: State, w: nat, wall: int)
    requires Inv(c, s) && w < |s.workers| && s.workers[w].Waiting?
    ensures Inv(c, OnSlotDue(c, s, w, wall))
  {
    assert RecipientOk(s, s.workers[w].index);
    if Halted(s) || wall >= s.workers[w].until {
      GoesOn(c, s, OnSlotDue(c, s, w, wall), w, s.workers[w].index);
    }
  }

  lemma ReleasedKeeps(c: Config, s: State, w: nat)
    requires Inv(c, s) && w < |s.workers| && s.workers[w].Releasing?
    ensures Inv(c, OnReleased(c, s, w))
  {
    var i, t := s.workers[w].index, OnReleased(c, s, w);
    assert RecipientOk(s, i);
    assert i !in s.book.lastErrors;
    MoveKeeps(s, t, w, i);
    HeapKeeps(s, t, i);
    BookKeeps(s, t, i);
  }

  lemma AnsweredKeeps(c: Config, s: State, w: nat, answer: Try)
    requires Inv(c, s) && w < |s.workers| && s.workers[w].Sending?
    ensures Inv(c, OnAnswered(c, s, w, answer))
  {
    var i := s.workers[w].index;
    var failures := s.book.attempts[i] + 1;
    var m := s.(book := s.book.(attempts := s.book.attempts[i := failures]), tries := s.tries[i := s.tries[i] + [answer]]);
    assert RecipientOk(s, i);
    assert s.book.attempts[i] == |s.tries[i]|;
    TriedOnce(s.tries[i], answer);
    match answer
    case Accepted(response) => SettleKeeps(c, s, m, w, i, Sent(response), None);
    case Refused(e) =>
      var t := OnAnswered(c, s, w, answer);
      assert i !in s.book.lastErrors;
      MoveKeeps(s, t, w, i);
      HeapKeeps(s, t, i);
      BookKeeps(s, t, i);
  }

  lemma DeferKeeps(c: Config, s: State, w: nat, wall: int, delay: nat)
    requires Inv(c, s) && w < |s.workers| && s.workers[w].Reacting? && s.workers[w].error.mayResend
    ensures var x := s.workers[w];
            Inv(c, Put(s.(book := Defer(s.book, wall, delay, x.index, x.error), place := s.place[x.index := Retrying]), w, Looping))
  {
    var x := s.workers[w];
    var i := x.index;
    var t := Put(s.(book := Defer(s.book, wall, delay, i, x.error), place := s.place[i := Retrying]), w, Looping);
    var d := Deferred(NowOf(s.book, wall) + delay, i, x.error);
    assert RecipientOk(s, i);
    assert i !in s.book.lastErrors;
    ResendableMore(s.tries[i], x.error);
    MoveKeeps(s, t, w, i);
    HeapPush(s, t, d);
    BookKeeps(s, t, i);
  }

  lemma ReactedKeeps(c: Config, s: State, w: nat, wall: int, verdict: Verdict)
    requires Inv(c, s) && w < |s.workers| && s.workers[w].Reacting?
    ensures Inv(c, OnReacted(c, s, w, wall, verdict))
  {
    var x := s.workers[w];
    if verdict.RetryAfter? && x.error.mayResend {
      DeferKeeps(c, s, w, wall, verdict.delay);
    } else {
      assert RecipientOk(s, x.index);
      SettleKeeps(c, s, s, w, x.index, Failed(x.error), if verdict.Stop? then Some(Stopped) else None);
    }
  }

  /** Only the run's flags changed. */
  lemma FlagsKeep(c: Config, s: State, t: State)
    requires Inv(c, s) && (Halted(s) ==> Halted(t))
    requires t == s.(halt := t.halt, announced := t.announced, sinkFailed := t.sinkFailed, book := s.book.(stoppedBy := t.book.stoppedBy))
    ensures Inv(c, t)
  {
    forall i | 0 <= i < |t.place|
      ensures RecipientOk(t, i)
    {
      assert RecipientOk(s, i);
    }
  }

  lemma AnnounceKeeps(c: Config, s: State, ok: bool)
    requires Inv(c, s)
    ensures Inv(c, Step(c, s, Announce(ok))) && Inv(c, Step(c, s, Cancel))
  {
    FlagsKeep(c, s, Step(c, s, Announce(ok)));
    FlagsKeep(c, s, Step(c, s, Cancel));
  }

  lemma RestedKeeps(c: Config, s: State, w: nat, wall: int)
    requires Inv(c, s)
    ensures Inv(c, Step(c, s, Rested(w, wall)))
  {
    var t := Step(c, s, Rested(w, wall));
    if t != s {
      IdleKeeps(c, s, t, w);
    }
  }

  lemma RecordedKeeps(c: Config, s: State, w: nat, ok: bool)
    requires Inv(c, s) && w < |s.workers| && s.workers[w].Recording?
    ensures Inv(c, OnRecorded(c, s, w, ok))
  {
    IdleKeeps(c, s, OnRecorded(c, s, w, ok), w);
  }

  /** Every event keeps every recipient in one place, and its record true. */
  lemma StepKeeps(c: Config, s: State, e: Event)
    requires Inv(c, s)
    ensures Inv(c, Step(c, s, e))
  {
    if Mover(e).None? || (Announced(c, s) && Mover(e).value < |s.workers|) {
      match e
      case Cancel => AnnounceKeeps(c, s, true);
      case Announce(ok) => AnnounceKeeps(c, s, ok);
      case Turn(w, wall, unmade) => if s.workers[w].Looping? { TurnKeeps(c, s, w, wall, unmade); }
      case Rested(w, wall) => RestedKeeps(c, s, w, wall);
      case Booked(w, wall, wait) => if s.workers[w].Reserving? { BookedKeeps(c, s, w, wall, wait); }
      case SlotDue(w, wall) => if s.workers[w].Waiting? { SlotDueKeeps(c, s, w, wall); }
      case Released(w) => if s.workers[w].Releasing? { ReleasedKeeps(c, s, w); }
      case Answered(w, answer) => if s.workers[w].Sending? { AnsweredKeeps(c, s, w, answer); }
      case Reacted(w, wall, verdict) => if Answers(c, s.workers[w], verdict) { ReactedKeeps(c, s, w, wall, verdict); }
      case Recorded(w, ok) => if s.workers[w].Recording? { RecordedKeeps(c, s, w, ok); }
    }
  }

  lemma InitKeeps(c: Config)
    ensures Inv(c, Init(c))
  {
  }

  /** The state after any sequence of events. */
  ghost function Run(c: Config, events: seq<Event>): (s: State)
    ensures Inv(c, s)
  {
    if events == [] then
      InitKeeps(c);
      Init(c)
    else
      StepKeeps(c, Run(c, events[..|events| - 1]), events[|events| - 1]);
      Step(c, Run(c, events[..|events| - 1]), events[|events| - 1])
  }
}
