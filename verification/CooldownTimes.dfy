/**
 What callers of a cooldown are promised, read from the events alone: when a
 cooldown starts, how long it lasts, and how much time left is told.
 */
module CooldownTimes {
  import opened Basics
  import opened Wrappers
  import opened Cooldowns

  /** A cooldown that began, by the call that was answered so. */
  datatype Began = Began(at: int, period: nat)

  /** A read that found a cooldown running: when that ends, and the reader's clock. */
  datatype Found = Found(end: int, clock: int)

  /** What happened to a caller: the period it asked for, how often a create of its
      was refused, and what it found. */
  datatype Past = Past(period: nat, refused: nat, found: Option<Found>)

  datatype Seen = Seen(callers: seq<Past>, begun: seq<Began>)

  function End(b: Began): int { b.at + b.period }

  /** When the last cooldown that began ends, if it still runs. */
  function RunningEnd(begun: seq<Began>, now: int): Option<int> {
    if begun != [] && End(Last(begun)) > now then Some(End(Last(begun))) else None
  }

  predicate HasStarted(x: Caller) { x.Answered? && x.outcome.Started? }

  predicate IsRefused(x: Caller) { x.Answered? && x.outcome.CoolingDown? }

  /** What is seen of one event, which takes `s` to `t`. */
  function SeenAfter(seen: Seen, s: State, e: Event, t: State): Seen
    requires |s.callers| == |seen.callers| <= |t.callers|
  {
    match e
    case Arrive(period) => seen.(callers := seen.callers + [Past(period, 0, None)])
    case Purge(_) => seen
    case Go(i, now, clock) =>
      if now < s.now || i >= |s.callers| then seen else
        var past := seen.callers[i];
        if s.callers[i].Creating? then
          if HasStarted(t.callers[i]) then seen.(begun := seen.begun + [Began(now, past.period)])
          else seen.(callers := seen.callers[i := past.(refused := past.refused + 1)])
        else if s.callers[i].Reading? && RunningEnd(seen.begun, now).Some? then
          seen.(callers := seen.callers[i := past.(found := Some(Found(RunningEnd(seen.begun, now).value, clock)))])
        else seen
  }

  lemma StepCounts(s: State, e: Event)
    ensures |Step(s, e).callers| == |s.callers| + if e.Arrive? then 1 else 0
  {
  }

  function SeenOf(from: int, events: seq<Event>): (seen: Seen)
    ensures |seen.callers| == |Run(from, events).callers|
  {
    if events == [] then Seen([], []) else
      var before := events[..|events| - 1];
      StepCounts(Run(from, before), events[|events| - 1]);
      SeenAfter(SeenOf(from, before), Run(from, before), events[|events| - 1], Run(from, events))
  }

  /** As long as is left, but no longer than the caller's own period. */
  ghost predicate TellsTimeLeft(retryAfter: nat, found: Found, period: nat) {
    && retryAfter <= period && (retryAfter == period || found.clock + retryAfter >= found.end)
    && (retryAfter == 0 || found.clock + retryAfter <= found.end)
  }

  ghost predicate PastOk(x: Caller, past: Past) {
    match x
    case Creating(period, round) => period == past.period && round == past.refused && round < 2 && past.found.None?
    case Reading(period, round, _) => period == past.period && round + 1 == past.refused && round < 2 && past.found.None?
    case Marking(retryAfter, expires, _) =>
      past.found.Some? && expires == past.found.value.end && TellsTimeLeft(retryAfter, past.found.value, past.period)
    case Answered(Started, _) => true
    case Answered(CoolingDown(retryAfter, notify), _) =>
      if past.found.Some? then TellsTimeLeft(retryAfter, past.found.value, past.period)
      else past.refused == 2 && retryAfter == past.period && notify
  }

  ghost predicate PastsOk(callers: seq<Caller>, pasts: seq<Past>) {
    |callers| == |pasts| && forall i :: 0 <= i < |callers| ==> PastOk(callers[i], pasts[i])
  }

  ghost predicate BegunOk(starts: seq<Start>, begun: seq<Began>) {
    |starts| == |begun| && forall k :: 0 <= k < |begun| ==> starts[k].at == begun[k].at && starts[k].period == begun[k].period
  }

  ghost predicate Agrees(s: State, seen: Seen) { PastsOk(s.callers, seen.callers) && BegunOk(s.starts, seen.begun) }

  /** The record is live exactly while the last cooldown that began runs. */
  lemma LiveExactly(s: State, seen: Seen, now: int)
    requires Inv(s) && Agrees(s, seen) && now >= s.now
    ensures Live(s.records.cooldown, now) <==> RunningEnd(seen.begun, now).Some?
    ensures Live(s.records.cooldown, now) ==> s.records.cooldown == RunningEnd(seen.begun, now)
  {
  }

  lemma TimeLeft(expires: int, clock: int, period: nat)
    ensures TellsTimeLeft(RetryAfter(expires, clock, period), Found(expires, clock), period)
  {
  }

  lemma CreateAgrees(s: State, seen: Seen, i: nat, now: int, clock: int)
    requires Inv(s) && Agrees(s, seen) && i < |s.callers| && now >= s.now && s.callers[i].Creating?
    ensures var t := Step(s, Go(i, now, clock)); Agrees(t, SeenAfter(seen, s, Go(i, now, clock), t))
  {
    assert PastOk(s.callers[i], seen.callers[i]);
  }

  lemma ReadAgrees(s: State, seen: Seen, i: nat, now: int, clock: int)
    requires Inv(s) && Agrees(s, seen) && i < |s.callers| && now >= s.now && s.callers[i].Reading?
    ensures var t := Step(s, Go(i, now, clock)); Agrees(t, SeenAfter(seen, s, Go(i, now, clock), t))
  {
    assert PastOk(s.callers[i], seen.callers[i]);
    LiveExactly(s, seen, now);
    if Live(s.records.cooldown, now) {
      TimeLeft(s.records.cooldown.value, clock, s.callers[i].period);
    }
  }

  lemma MarkAgrees(s: State, seen: Seen, i: nat, now: int, clock: int)
    requires Agrees(s, seen) && i < |s.callers| && now >= s.now && s.callers[i].Marking?
    ensures var t := Step(s, Go(i, now, clock)); Agrees(t, SeenAfter(seen, s, Go(i, now, clock), t))
  {
    assert PastOk(s.callers[i], seen.callers[i]);
  }

  lemma StepAgrees(s: State, seen: Seen, e: Event)
    requires Inv(s) && Agrees(s, seen)
    ensures |s.callers| == |seen.callers| <= |Step(s, e).callers|
    ensures Agrees(Step(s, e), SeenAfter(seen, s, e, Step(s, e)))
  {
    match e
    case Arrive(_) =>
    case Purge(_) =>
    case Go(i, now, clock) =>
      if now >= s.now && i < |s.callers| {
        match s.callers[i]
        case Creating(_, _) => CreateAgrees(s, seen, i, now, clock);
        case Reading(_, _, _) => ReadAgrees(s, seen, i, now, clock);
        case Marking(_, _, _) => MarkAgrees(s, seen, i, now, clock);
        case Answered(_, _) =>
      }
  }

  lemma {:induction false} RunAgrees(from: int, events: seq<Event>)
    ensures Agrees(Run(from, events), SeenOf(from, events))
  {
    if events != [] {
      var before := events[..|events| - 1];
      RunAgrees(from, before);
      RunKeeps(from, before);
      StepAgrees(Run(from, before), SeenOf(from, before), events[|events| - 1]);
    }
  }

  /** Cooldowns never overlap: each begins when the one before has lasted as long
      as its own caller asked. */
  lemma BeganApart(from: int, events: seq<Event>, j: nat, k: nat)
    requires j < k < |SeenOf(from, events).begun|
    ensures var begun := SeenOf(from, events).begun; End(begun[j]) <= begun[k].at
  {
    var s := Run(from, events);
    RunKeeps(from, events);
    RunAgrees(from, events);
    AnyApart(s.starts, s.now, j, k);
  }

  /** Some cooldown that began still runs. */
  ghost predicate SomeRuns(begun: seq<Began>, now: int) { exists k :: 0 <= k < |begun| && End(begun[k]) > now }

  lemma LastRuns(from: int, events: seq<Event>, now: int)
    ensures SomeRuns(SeenOf(from, events).begun, now) ==> RunningEnd(SeenOf(from, events).begun, now).Some? || now < Run(from, events).now
    ensures RunningEnd(SeenOf(from, events).begun, now).Some? ==> SomeRuns(SeenOf(from, events).begun, now)
  {
    var s, begun := Run(from, events), SeenOf(from, events).begun;
    RunKeeps(from, events);
    RunAgrees(from, events);
    if SomeRuns(begun, now) {
      var k :| 0 <= k < |begun| && End(begun[k]) > now;
      StartsInPast(s.starts, s.now, |begun| - 1);
      if k < |begun| - 1 {
        BeganApart(from, events, k, |begun| - 1);
      }
    }
    if RunningEnd(begun, now).Some? {
      assert End(begun[|begun| - 1]) > now;
    }
  }

  /** What each step of a caller comes to: it starts a cooldown exactly if none that
      began still runs; refused, it reads, and goes on to its marker exactly if one
      runs then; if none does it tries once more, and the second time gives up. */
  lemma GoesOn(from: int, events: seq<Event>, i: nat, now: int, clock: int)
    requires i < |Run(from, events).callers| && now >= Run(from, events).now
    ensures var seen := SeenOf(from, events);
            var x, y := Run(from, events).callers[i], Step(Run(from, events), Go(i, now, clock)).callers[i];
            && (x.Creating? ==> if SomeRuns(seen.begun, now) then y.Reading? else HasStarted(y))
            && (x.Reading? ==> if SomeRuns(seen.begun, now) then y.Marking? else if seen.callers[i].refused < 2 then y.Creating? else IsRefused(y))
            && (x.Marking? ==> IsRefused(y))
            && (x.Answered? ==> y == x)
  {
    var s, seen := Run(from, events), SeenOf(from, events);
    RunKeeps(from, events);
    RunAgrees(from, events);
    LastRuns(from, events, now);
    LiveExactly(s, seen, now);
    assert PastOk(s.callers[i], seen.callers[i]);
  }

  /** A refused caller that found a cooldown running is told the time left, within
      its period; one that found none twice is told its period, and to notify. */
  lemma ToldTimeLeft(from: int, events: seq<Event>, i: nat)
    requires i < |Run(from, events).callers| && IsRefused(Run(from, events).callers[i])
    ensures var past, outcome := SeenOf(from, events).callers[i], Run(from, events).callers[i].outcome;
            if past.found.Some? then TellsTimeLeft(outcome.retryAfter, past.found.value, past.period)
            else past.refused == 2 && outcome == CoolingDown(past.period, true)
  {
    RunAgrees(from, events);
    assert PastOk(Run(from, events).callers[i], SeenOf(from, events).callers[i]);
  }
}
