/**
 Why a recipient is sent to again: in every run, only after failures on which
 the policy promised a retry and which prove that nothing was sent.
 */
module BroadcastRetries {
  import opened Wrappers
  import opened Backoffs
  import opened Books
  import opened Broadcasts
  import opened BroadcastSafety

  /** The failure may be followed by another send: the policy may promise one,
      and the error proves nothing was sent. */
  ghost predicate Retriable(c: Config, e: Error, failures: nat) {
    e.mayResend && exists delay :: c.policy(e, failures, RetryAfter(delay))
  }

  /** The first `n` sends were all such failures. */
  ghost predicate FirstRetriable(c: Config, t: seq<Try>, n: nat) {
    n <= |t| && forall k :: 0 <= k < n ==> t[k].Refused? && Retriable(c, t[k].error, k + 1)
  }

  /** The sends of the recipient that were followed by another, or will be unless
      the run halts: all of them, but for the last while the policy is being asked
      about it and once it has been settled. */
  ghost predicate Ruled(c: Config, s: State, i: nat) {
    && i < |s.tries| == |s.place|
    && var t, place := s.tries[i], s.place[i];
       if t != [] && (place.Settled? || (place.With? && place.worker < |s.workers| && s.workers[place.worker].Reacting?))
       then FirstRetriable(c, t, |t| - 1) else FirstRetriable(c, t, |t|)
  }

  /** Worker `w` moved, and the recipient was not in its hands. */
  ghost predicate Elsewhere(s: State, t: State, w: nat, i: nat) {
    && w < |s.workers| == |t.workers| && t.workers == s.workers[w := t.workers[w]]
    && i < |s.place| == |t.place| == |s.tries| == |t.tries|
    && t.place[i] == s.place[i] && t.tries[i] == s.tries[i] && s.place[i] != With(w)
  }

  lemma ElsewhereRuled(c: Config, s: State, t: State, w: nat, i: nat)
    requires Ruled(c, s, i) && Elsewhere(s, t, w, i)
    ensures Ruled(c, t, i)
  {
  }

  /** The recipient is in the hands of worker `w`, which goes on with it. */
  lemma HeldRuled(c: Config, s: State, t: State, w: nat, i: nat)
    requires Ruled(c, s, i) && w < |s.workers| == |t.workers| && i < |t.place| == |t.tries|
    requires s.place[i] == With(w) && !s.workers[w].Reacting?
    requires t.tries[i] == s.tries[i] && (t.place[i] == With(w) || t.place[i].Settled? || t.place[i].Abandoned?)
    ensures Ruled(c, t, i)
  {
  }

  /** Whoever is taken was untaken, with nothing sent, or waiting for a retry. */
  lemma TakenFrom(c: Config, s: State, wall: int)
    requires Inv(c, s) && Next(s.book, wall).1.Send?
    ensures var turn := Next(s.book, wall).1;
            && turn.index < c.total
            && if turn.retry.Some? then s.place[turn.index].Retrying?
               else s.place[turn.index].Untaken? && s.tries[turn.index] == []
  {
    var turn := Next(s.book, wall).1;
    FirstUnsettledSkips(s.book.settled, s.book.next);
    if turn.retry.Some? {
      WaitingIsHeld(s.book.deferred, turn.index);
      assert s.book.deferred[0] in s.book.deferred;
    } else {
      assert RecipientOk(s, turn.index);
    }
  }

  lemma TurnRuled(c: Config, s: State, w: nat, wall: int, unmade: Option<Error>, i: nat)
    requires Inv(c, s) && w < |s.workers| && s.workers[w].Looping? && i < c.total && Ruled(c, s, i)
    ensures Ruled(c, OnTurn(c, s, w, wall, unmade), i)
  {
    var turn := Next(s.book, wall).1;
    if Halted(s) || !turn.Send? || turn.index != i {
      assert RecipientOk(s, i);
      ElsewhereRuled(c, s, OnTurn(c, s, w, wall, unmade), w, i);
    } else {
      TakenFrom(c, s, wall);
      TakenRuled(c, s, w, wall, unmade);
    }
  }

  lemma TakenRuled(c: Config, s: State, w: nat, wall: int, unmade: Option<Error>)
    requires Shaped(c, s) && w < |s.workers| && !Halted(s) && Next(s.book, wall).1.Send?
    requires var turn := Next(s.book, wall).1;
             && turn.index < c.total && Ruled(c, s, turn.index)
             && if turn.retry.Some? then s.place[turn.index].Retrying?
                else s.place[turn.index].Untaken? && s.tries[turn.index] == []
    ensures Ruled(c, OnTurn(c, s, w, wall, unmade), Next(s.book, wall).1.index)
  {
  }

  lemma BookedRuled(c: Config, s: State, w: nat, wall: int, wait: Result<nat, Error>, i: nat)
    requires Inv(c, s) && w < |s.workers| && s.workers[w].Reserving? && i < c.total && Ruled(c, s, i)
    ensures Ruled(c, OnBooked(c, s, w, wall, wait), i)
  {
    var t := OnBooked(c, s, w, wall, wait);
    assert RecipientOk(s, i);
    if s.workers[w].index == i {
      HeldRuled(c, s, t, w, i);
    } else {
      ElsewhereRuled(c, s, t, w, i);
    }
  }

  lemma SlotDueRuled(c: Config, s: State, w: nat, wall: int, i: nat)
    requires Inv(c, s) && w < |s.workers| && s.workers[w].Waiting? && i < c.total && Ruled(c, s, i)
    ensures Ruled(c, OnSlotDue(c, s, w, wall), i)
  {
    var t := OnSlotDue(c, s, w, wall);
    assert RecipientOk(s, i);
    if s.workers[w].index == i {
      HeldRuled(c, s, t, w, i);
    } else {
      ElsewhereRuled(c, s, t, w, i);
    }
  }

  lemma ReleasedRuled(c: Config, s: State, w: nat, i: nat)
    requires Inv(c, s) && w < |s.workers| && s.workers[w].Releasing? && i < c.total && Ruled(c, s, i)
    ensures Ruled(c, OnReleased(c, s, w), i)
  {
    var t := OnReleased(c, s, w);
    assert RecipientOk(s, i);
    if s.workers[w].index == i {
      HeldRuled(c, s, t, w, i);
    } else {
      ElsewhereRuled(c, s, t, w, i);
    }
  }

  lemma AnsweredRuled(c: Config, s: State, w: nat, answer: Try, i: nat)
    requires Inv(c, s) && w < |s.workers| && s.workers[w].Sending? && i < c.total && Ruled(c, s, i)
    ensures Ruled(c, OnAnswered(c, s, w, answer), i)
  {
    var t := OnAnswered(c, s, w, answer);
    assert RecipientOk(s, i);
    if s.workers[w].index == i {
      assert t.tries[i] == s.tries[i] + [answer];
      assert FirstRetriable(c, t.tries[i], |t.tries[i]| - 1);
    } else {
      ElsewhereRuled(c, s, t, w, i);
    }
  }

  lemma ReactedRuled(c: Config, s: State, w: nat, wall: int, verdict: Verdict, i: nat)
    requires Inv(c, s) && w < |s.workers| && Answers(c, s.workers[w], verdict) && i < c.total && Ruled(c, s, i)
    ensures Ruled(c, OnReacted(c, s, w, wall, verdict), i)
  {
    var t, x := OnReacted(c, s, w, wall, verdict), s.workers[w];
    assert RecipientOk(s, i);
    if x.index != i {
      ElsewhereRuled(c, s, t, w, i);
    } else if verdict.RetryAfter? && x.error.mayResend {
      assert c.policy(x.error, x.failures, RetryAfter(verdict.delay));
      assert Retriable(c, x.error, |s.tries[i]|);
    }
  }

  lemma IdleRuled(c: Config, s: State, e: Event, w: nat, i: nat)
    requires Inv(c, s) && Mover(e) == Some(w) && w < |s.workers| && i < c.total && Ruled(c, s, i)
    requires e.Rested? || e.Recorded?
    ensures Ruled(c, Step(c, s, e), i)
  {
    assert RecipientOk(s, i);
    if Step(c, s, e) != s {
      ElsewhereRuled(c, s, Step(c, s, e), w, i);
    }
  }

  lemma StepRuled(c: Config, s: State, e: Event, i: nat)
    requires Inv(c, s) && i < c.total && Ruled(c, s, i)
    ensures Ruled(c, Step(c, s, e), i)
  {
    if Mover(e).Some? && Announced(c, s) && Mover(e).value < |s.workers| {
      var w := Mover(e).value;
      match e
      case Turn(_, wall, unmade) => if s.workers[w].Looping? { TurnRuled(c, s, w, wall, unmade, i); }
      case Rested(_, _) => IdleRuled(c, s, e, w, i);
      case Booked(_, wall, wait) => if s.workers[w].Reserving? { BookedRuled(c, s, w, wall, wait, i); }
      case SlotDue(_, wall) => if s.workers[w].Waiting? { SlotDueRuled(c, s, w, wall, i); }
      case Released(_) => if s.workers[w].Releasing? { ReleasedRuled(c, s, w, i); }
      case Answered(_, answer) => if s.workers[w].Sending? { AnsweredRuled(c, s, w, answer, i); }
      case Reacted(_, wall, verdict) => if Answers(c, s.workers[w], verdict) { ReactedRuled(c, s, w, wall, verdict, i); }
      case Recorded(_, _) => IdleRuled(c, s, e, w, i);
    }
  }

  lemma {:induction false} RunRuled(c: Config, events: seq<Event>, i: nat)
    requires i < c.total
    ensures Ruled(c, Run(c, events), i)
  {
    if events != [] {
      RunRuled(c, events[..|events| - 1], i);
      StepRuled(c, Run(c, events[..|events| - 1]), events[|events| - 1], i);
    }
  }

  /** In every run, under any policy, each send to a recipient but its last was a
      failure on which the policy may promise a retry, with an error that proves
      nothing was sent; and so was the last one of a recipient left over. */
  lemma RetriedByRule(c: Config, events: seq<Event>, i: nat)
    requires i < c.total
    ensures var s := Run(c, events);
            && FirstRetriable(c, s.tries[i], if s.tries[i] == [] then 0 else |s.tries[i]| - 1)
            && (s.place[i].Retrying? || s.place[i].Abandoned? ==> FirstRetriable(c, s.tries[i], |s.tries[i]|))
  {
    RunRuled(c, events, i);
  }

  /** The errors of the first `n` sends, all refused. */
  function ErrorsOf(t: seq<Try>, n: nat): (es: seq<Error>)
    requires n <= |t| && forall k :: 0 <= k < n ==> t[k].Refused?
    ensures |es| == n && forall k :: 0 <= k < n ==> es[k] == t[k].error
  {
    if n == 0 then [] else ErrorsOf(t, n - 1) + [t[n - 1].error]
  }

  /** Under the default kind of policy, a recipient sent to `n + 1` times failed
      `n` times before, each time retryably, with a kind that stops nothing and an
      error that proves nothing was sent; `n + 1` is at most the most attempts, and
      the waits promised in between are within the longest delay each. */
  lemma RetriedWithinPolicy(c: Config, p: Backoff, shared: bool, events: seq<Event>, i: nat, n: nat)
    requires forall e, failures: nat, v :: c.policy(e, failures, v) <==> v == OnFailure(p, e, failures, shared)
    requires i < c.total && |Run(c, events).tries[i]| == n + 1 && p.maxAttempts > 0
    ensures var t := Run(c, events).tries[i];
            && n + 1 <= p.maxAttempts
            && (forall k :: 0 <= k < n ==> t[k].Refused?)
            && (forall k :: 0 <= k < n ==> t[k].error.retryable && t[k].error.mayResend && !StopsRun(p, t[k].error, shared))
            && AllRetried(p, ErrorsOf(t, n), shared) && Waited(p, ErrorsOf(t, n), shared) <= n * p.maxDelay
  {
    var t := Run(c, events).tries[i];
    RetriedByRule(c, events, i);
    var es := ErrorsOf(t, n);
    forall k | 0 <= k < n
      ensures t[k].error.mayResend && OnFailure(p, es[k], k + 1, shared).RetryAfter?
    {
      assert Retriable(c, t[k].error, k + 1);
    }
    RetriedThroughout(p, es, shared);
    WaitsWithin(p, es, shared);
    assert forall k :: 0 <= k < n ==> t[k].error == es[k];
  }
}
