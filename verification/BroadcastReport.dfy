/**
 What a broadcast run promises: each recipient settled at most once and never
 sent to again blindly, each send in a slot of its own, nothing started once
 the run halted, and a report that accounts for everyone.
 */
module BroadcastReport {
  import opened Wrappers
  import opened Backoffs
  import opened Books
  import opened Broadcasts
  import opened BroadcastSafety
  import opened BroadcastEnd
  import Dedupe

  // ─── Each recipient in one place ────────────────────────────────────────

  /** How many of the workers have the recipient in hand. */
  function Holders(workers: seq<Worker>, i: nat): nat {
    if workers == [] then 0 else
      Holders(workers[..|workers| - 1], i) + if Claim(workers[|workers| - 1]) == Some(i) then 1 else 0
  }

  lemma {:induction false} HoldersNone(workers: seq<Worker>, i: nat)
    requires forall w :: 0 <= w < |workers| ==> Claim(workers[w]) != Some(i)
    ensures Holders(workers, i) == 0
  {
    if workers != [] {
      HoldersNone(workers[..|workers| - 1], i);
    }
  }

  lemma {:induction false} HoldersOne(workers: seq<Worker>, i: nat, w: nat)
    requires w < |workers| && Claim(workers[w]) == Some(i)
    requires forall v :: 0 <= v < |workers| && v != w ==> Claim(workers[v]) != Some(i)
    ensures Holders(workers, i) == 1
  {
    var last := |workers| - 1;
    if w == last {
      HoldersNone(workers[..last], i);
    } else {
      HoldersOne(workers[..last], i, w);
    }
  }

  function One(b: bool): nat { if b then 1 else 0 }

  /** In every interleaving each recipient is in exactly one place: not taken
      yet, in the hands of one worker, in the heap once, settled, or left
      behind by a halt. */
  lemma InOnePlace(c: Config, events: seq<Event>, i: nat)
    requires i < c.total
    ensures var s := Run(c, events);
            One(s.book.next <= i && !s.book.settled[i]) + Holders(s.workers, i) + Books.Waiting(s.book.deferred, i)
            + One(s.book.settled[i]) + One(s.place[i].Abandoned?) == 1
    ensures Run(c, events).place[i].Abandoned? ==> Halted(Run(c, events))
  {
    var s := Run(c, events);
    assert RecipientOk(s, i);
    if s.place[i].With? {
      HoldersOne(s.workers, i, s.place[i].worker);
    } else {
      HoldersNone(s.workers, i);
    }
  }

  /** The recipient's settling, and what its sends answered, are the same. */
  ghost predicate SameRecord(s: State, t: State, i: nat) {
    && i < |s.book.settled| == |t.book.settled| && i < |s.outcomes| == |t.outcomes| && i < |s.tries| == |t.tries|
    && t.book.settled[i] == s.book.settled[i] && t.outcomes[i] == s.outcomes[i] && t.tries[i] == s.tries[i]
  }

  /** Whoever is taken was not settled. */
  lemma TurnTakes(c: Config, s: State, wall: int)
    requires Inv(c, s) && Next(s.book, wall).1.Send?
    ensures var i := Next(s.book, wall).1.index; i < c.total && !s.place[i].Settled?
  {
    FirstUnsettledSkips(s.book.settled, s.book.next);
    if Next(s.book, wall).1.retry.Some? {
      WaitingIsHeld(s.book.deferred, s.book.deferred[0].index);
      assert s.book.deferred[0] in s.book.deferred;
    }
  }

  lemma TurnTouches(c: Config, s: State, w: nat, wall: int, unmade: Option<Error>, i: nat)
    requires Shaped(c, s) && w < |s.workers| && i < c.total
    requires !Halted(s) && Next(s.book, wall).1.Send? ==> Next(s.book, wall).1.index != i
    ensures SameRecord(s, OnTurn(c, s, w, wall, unmade), i)
  {
  }

  lemma AnsweredTouches(c: Config, s: State, w: nat, answer: Try, i: nat)
    requires Shaped(c, s) && w < |s.workers| && s.workers[w].Sending? && i < c.total && i != s.workers[w].index
    ensures SameRecord(s, OnAnswered(c, s, w, answer), i)
  {
  }

  lemma ReactedTouches(c: Config, s: State, w: nat, wall: int, verdict: Verdict, i: nat)
    requires Shaped(c, s) && w < |s.workers| && s.workers[w].Reacting? && i < c.total && i != s.workers[w].index
    ensures SameRecord(s, OnReacted(c, s, w, wall, verdict), i)
  {
  }

  lemma BookedTouches(c: Config, s: State, w: nat, wall: int, wait: Result<nat, Error>, i: nat)
    requires Shaped(c, s) && w < |s.workers| && s.workers[w].Reserving? && i < c.total && i != s.workers[w].index
    ensures SameRecord(s, OnBooked(c, s, w, wall, wait), i)
  {
  }

  /** A worker touches the records of nobody but the one in its hands. */
  lemma WorkTouches(c: Config, s: State, e: Event, i: nat)
    requires Shaped(c, s) && i < c.total && Mover(e).Some? && !e.Turn? && Announced(c, s) && Mover(e).value < |s.workers|
    requires Claim(s.workers[Mover(e).value]) != Some(i)
    ensures SameRecord(s, Step(c, s, e), i)
  {
    match e
    case Rested(w, _) =>
    case Booked(w, wall, wait) => if s.workers[w].Reserving? { BookedTouches(c, s, w, wall, wait, i); }
    case SlotDue(w, wall) =>
    case Released(w) =>
    case Answered(w, answer) => if s.workers[w].Sending? { AnsweredTouches(c, s, w, answer, i); }
    case Reacted(w, wall, verdict) => if Answers(c, s.workers[w], verdict) { ReactedTouches(c, s, w, wall, verdict, i); }
    case Recorded(w, ok) =>
  }

  /** A recipient settled stays settled, as it was, and is never sent to again. */
  lemma SettledForGood(c: Config, s: State, e: Event, i: nat)
    requires Inv(c, s) && i < c.total && s.book.settled[i]
    ensures SameRecord(s, Step(c, s, e), i)
  {
    assert s.place[i].Settled?;
    if Mover(e).Some? && Announced(c, s) && Mover(e).value < |s.workers| {
      if e.Turn? {
        if s.workers[e.worker].Looping? {
          if !Halted(s) && Next(s.book, e.wall).1.Send? {
            TurnTakes(c, s, e.wall);
          }
          TurnTouches(c, s, e.worker, e.wall, e.unmade, i);
        }
      } else {
        assert Claim(s.workers[Mover(e).value]) != Some(i);
        WorkTouches(c, s, e, i);
      }
    }
  }

  // ─── Never resent blindly ───────────────────────────────────────────────

  /** In every run, a recipient was sent to again only after an error that
      proves nothing was sent, and its attempts count its sends. */
  lemma NeverResentBlindly(c: Config, events: seq<Event>, i: nat)
    requires i < c.total
    ensures var t := Run(c, events).tries[i];
            && (forall k :: 0 <= k < |t| - 1 ==> t[k].Refused? && t[k].error.mayResend)
            && Run(c, events).book.attempts[i] == |t|
  {
    var s := Run(c, events);
    assert RecipientOk(s, i);
    NotLastRefused(s.tries[i]);
  }

  lemma NotLastRefused(t: seq<Try>)
    requires NeverBlind(t) || Resendable(t)
    ensures forall k :: 0 <= k < |t| - 1 ==> t[k].Refused? && t[k].error.mayResend
  {
    if t != [] {
      assert forall k :: 0 <= k < |t| - 1 ==> t[k] == t[..|t| - 1][k];
    }
  }

  /** In every run, a recipient taken for a retry is one whose time has come, and
      nobody waiting is due before it. */
  lemma RetriesWhenDue(c: Config, events: seq<Event>, wall: int)
    requires Next(Run(c, events).book, wall).1.Send? && Next(Run(c, events).book, wall).1.retry.Some?
    ensures var b := Run(c, events).book;
            && b.deferred != [] && b.deferred[0].at <= NowOf(b, wall)
            && Next(b, wall).1 == Send(b.deferred[0].index, Some(b.deferred[0].error))
            && forall d :: d in b.deferred ==> Sooner(b.deferred[0], d)
  {
    NeverEarly(Run(c, events).book, wall);
  }

  /** A deduped run sends to no identity under two listings. */
  lemma EachPersonOnce(c: Config, events: seq<Event>, rs: seq<Dedupe.Recipient>, i: nat, j: nat)
    requires c.total == |rs| && c.duplicates == Dedupe.Repeats(rs, |rs|) && i < j < |rs|
    requires Run(c, events).tries[i] != [] && Run(c, events).tries[j] != []
    ensures !Dedupe.Shares(rs[i], rs[j])
  {
    Dedupe.RepeatsExactly(rs, |rs|);
    BuiltFromList(c, rs);
    DuplicatesUntried(c, events, j);
    if Dedupe.Repeated(rs, j) {
      DuplicateOfListed(c.duplicates, (j, Dedupe.Owner(rs, j)));
    }
    Dedupe.KeptAreApart(rs, i, j);
  }

  lemma BuiltFromList(c: Config, rs: seq<Dedupe.Recipient>)
    requires c.total == |rs| && c.duplicates == Dedupe.Repeats(rs, |rs|)
    ensures Built(c)
  {
    Dedupe.RepeatsExactly(rs, |rs|);
    assert forall a :: 0 <= a < |c.duplicates| ==> c.duplicates[a] in c.duplicates;
  }

  lemma {:induction false} DuplicateOfListed(duplicates: seq<(nat, nat)>, d: (nat, nat))
    requires d in duplicates
    ensures DuplicateOf(duplicates, d.0).Some?
  {
    if duplicates[0].0 != d.0 {
      DuplicateOfListed(duplicates[1..], d);
    }
  }

  /** A duplicate starts out settled, so is never sent to. */
  lemma {:induction false} DuplicatesUntried(c: Config, events: seq<Event>, i: nat)
    requires i < c.total
    ensures DuplicateOf(c.duplicates, i).Some? ==> Run(c, events).tries[i] == [] && Run(c, events).book.settled[i]
  {
    if events != [] && DuplicateOf(c.duplicates, i).Some? {
      var before := events[..|events| - 1];
      DuplicatesUntried(c, before, i);
      SettledForGood(c, Run(c, before), events[|events| - 1], i);
    }
  }
}
