/**
 What callers of a cooldown are promised over any interleaving: cooldowns never
 overlap, and how often one can notify.
 */
module CooldownResults {
  import opened Wrappers
  import opened Cooldowns

  /** Over any interleaving, two callers answered that they started a cooldown
      did so at least the earlier one's period apart. */
  lemma StartedApart(from: int, events: seq<Event>, i: nat, j: nat)
    requires var s := Run(from, events);
             i < |s.callers| && j < |s.callers| && i != j
             && s.callers[i].Answered? && s.callers[i].outcome.Started? && s.callers[j].Answered? && s.callers[j].outcome.Started?
    ensures var s := Run(from, events);
            && s.callers[i].entry < |s.starts| && s.callers[j].entry < |s.starts|
            && var a, b := s.starts[s.callers[i].entry], s.starts[s.callers[j].entry];
               a.at + a.period <= b.at || b.at + b.period <= a.at
  {
    var s := Run(from, events);
    RunKeeps(from, events);
    assert CallerOk(s, i, s.callers[i]) && CallerOk(s, j, s.callers[j]);
    var k, l := s.callers[i].entry, s.callers[j].entry;
    if k < l {
      AnyApart(s.starts, s.now, k, l);
    } else {
      AnyApart(s.starts, s.now, l, k);
    }
  }

  /** A refused caller was told to notify as its own refusal says, which is about
      a cooldown that had started by then and, if the caller gave up, was over. */
  lemma ToldAsLogged(from: int, events: seq<Event>, i: nat)
    requires var s := Run(from, events);
             i < |s.callers| && s.callers[i].Answered? && s.callers[i].outcome.CoolingDown?
    ensures var s := Run(from, events);
            var x := s.callers[i];
            && x.entry < |s.refusals|
            && var r := s.refusals[x.entry];
               && r.caller == i && r.notify == x.outcome.notify && r.of < |s.starts| && s.starts[r.of].at <= r.at
               && (!r.marked ==> Expires(s.starts[r.of]) <= r.at)
  {
    var s := Run(from, events);
    RunKeeps(from, events);
    assert CallerOk(s, i, s.callers[i]);
    assert RefusalOk(s.starts, s.refusals[s.callers[i].entry], s.now);
  }

  lemma {:induction false} NotifiesAt(starts: seq<Start>, refusals: seq<Refusal>, k: nat)
    requires NotifiesOk(starts, refusals) && k < |refusals|
    ensures refusals[k].notify <==> !refusals[k].marked || !MarkedRunning(starts, refusals[..k], refusals[k].at)
    decreases |refusals|
  {
    var n := |refusals| - 1;
    if k < n {
      NotifiesAt(starts, refusals[..n], k);
      assert refusals[..n][..k] == refusals[..k];
    }
  }

  /** A refusal notifies exactly if its caller gave up, or no refusal marked
      before it was about a cooldown still running at that time. */
  lemma NotifiesExactly(from: int, events: seq<Event>, k: nat)
    requires k < |Run(from, events).refusals|
    ensures var s := Run(from, events);
            s.refusals[k].notify <==>
            !s.refusals[k].marked || !MarkedRunning(s.starts, s.refusals[..k], s.refusals[k].at)
  {
    RunKeeps(from, events);
    NotifiesAt(Run(from, events).starts, Run(from, events).refusals, k);
  }

  // ─── How often one cooldown notifies ────────────────────────────────────

  /** The refusal came while the cooldown it is about was still running. */
  predicate InTime(starts: seq<Start>, r: Refusal) {
    r.of < |starts| && r.at < Expires(starts[r.of])
  }

  /** How many callers were told to notify about cooldown `k`. */
  function Notices(refusals: seq<Refusal>, k: nat): nat {
    if refusals == [] then 0 else
      var n := |refusals| - 1;
      Notices(refusals[..n], k) + if refusals[n].of == k && refusals[n].notify then 1 else 0
  }

  /** How many refusals about cooldown `k` came when it was over, from a caller
      that gave up or with nothing marked still running then. */
  ghost function Late(starts: seq<Start>, refusals: seq<Refusal>, k: nat): nat {
    if refusals == [] then 0 else
      var n := |refusals| - 1;
      var r := refusals[n];
      Late(starts, refusals[..n], k) +
      if r.of == k && !InTime(starts, r) && (!r.marked || !MarkedRunning(starts, refusals[..n], r.at)) then 1 else 0
  }

  /** Some refusal marked cooldown `k` while it was running. */
  ghost predicate MarkedInTime(starts: seq<Start>, refusals: seq<Refusal>, k: nat) {
    exists j :: 0 <= j < |refusals| && refusals[j].marked && refusals[j].of == k && InTime(starts, refusals[j])
  }

  /** Refusals are logged in the order of their times, each about a cooldown as
      it should be. */
  ghost predicate Logged(starts: seq<Start>, refusals: seq<Refusal>, now: int) {
    && StartsApart(starts, now) && NotifiesOk(starts, refusals)
    && (forall j :: 0 <= j < |refusals| ==> RefusalOk(starts, refusals[j], now))
    && InOrder(refusals, now)
  }

  ghost predicate InOrder(refusals: seq<Refusal>, now: int) {
    forall j, k :: 0 <= j <= k < |refusals| ==> refusals[j].at <= refusals[k].at <= now
  }

  lemma {:induction false} RefusalsInOrder(from: int, events: seq<Event>)
    ensures InOrder(Run(from, events).refusals, Run(from, events).now)
  {
    if events != [] {
      RefusalsInOrder(from, events[..|events| - 1]);
    }
  }

  lemma AllLogged(from: int, events: seq<Event>)
    ensures var s := Run(from, events); Logged(s.starts, s.refusals, s.now)
  {
    RunKeeps(from, events);
    RefusalsInOrder(from, events);
  }

  lemma {:induction false} NotifiesPrefix(starts: seq<Start>, refusals: seq<Refusal>, n: nat)
    requires NotifiesOk(starts, refusals) && n <= |refusals|
    ensures NotifiesOk(starts, refusals[..n])
    decreases |refusals|
  {
    if n < |refusals| {
      NotifiesPrefix(starts, refusals[..|refusals| - 1], n);
      assert refusals[..|refusals| - 1][..n] == refusals[..n];
    } else {
      assert refusals[..n] == refusals;
    }
  }

  lemma LoggedPrefix(starts: seq<Start>, refusals: seq<Refusal>, now: int, n: nat)
    requires Logged(starts, refusals, now) && n <= |refusals|
    ensures Logged(starts, refusals[..n], now)
  {
    NotifiesPrefix(starts, refusals, n);
  }

  /** Among refusals that mark in time, exactly the first about its cooldown
      notifies. */
  lemma InTimeNotifies(starts: seq<Start>, refusals: seq<Refusal>, now: int)
    requires Logged(starts, refusals, now) && refusals != []
    requires var r := refusals[|refusals| - 1]; r.marked && InTime(starts, r)
    ensures var n := |refusals| - 1;
            refusals[n].notify <==> !MarkedInTime(starts, refusals[..n], refusals[n].of)
  {
    var n := |refusals| - 1;
    var before, r := refusals[..n], refusals[n];
    if MarkedRunning(starts, before, r.at) {
      var j :| 0 <= j < |before| && before[j].marked && before[j].of < |starts| && Expires(starts[before[j].of]) > r.at;
      assert before[j] == refusals[j];
      OneRunning(starts, now, r, before[j]);
      assert InTime(starts, before[j]);
    }
    if MarkedInTime(starts, before, r.of) {
      var j :| 0 <= j < |before| && before[j].marked && before[j].of == r.of && InTime(starts, before[j]);
      assert MarkedRunning(starts, before, r.at);
    }
  }

  /** A cooldown marked before, and still running, is the one of the refusal. */
  lemma OneRunning(starts: seq<Start>, now: int, r: Refusal, earlier: Refusal)
    requires StartsApart(starts, now) && RefusalOk(starts, r, now) && RefusalOk(starts, earlier, now)
    requires earlier.at <= r.at && InTime(starts, r) && Expires(starts[earlier.of]) > r.at
    ensures earlier.of == r.of
  {
    if earlier.of < r.of {
      AnyApart(starts, now, earlier.of, r.of);
    } else if r.of < earlier.of {
      AnyApart(starts, now, r.of, earlier.of);
    }
  }

  /** So, of the refusals about one cooldown that mark while it is running,
      exactly the first notifies. */
  lemma FirstInTimeNotifies(from: int, events: seq<Event>, k: nat)
    requires k < |Run(from, events).refusals|
    requires var s := Run(from, events); s.refusals[k].marked && InTime(s.starts, s.refusals[k])
    ensures var s := Run(from, events);
            s.refusals[k].notify <==> !MarkedInTime(s.starts, s.refusals[..k], s.refusals[k].of)
  {
    var s := Run(from, events);
    AllLogged(from, events);
    LoggedPrefix(s.starts, s.refusals, s.now, k + 1);
    InTimeNotifies(s.starts, s.refusals[..k + 1], s.now);
    assert s.refusals[..k + 1][..k] == s.refusals[..k];
  }

  lemma {:induction false} NoticesCount(starts: seq<Start>, refusals: seq<Refusal>, now: int, k: nat)
    requires Logged(starts, refusals, now)
    ensures Notices(refusals, k) == Late(starts, refusals, k) + if MarkedInTime(starts, refusals, k) then 1 else 0
  {
    if refusals != [] {
      var n := |refusals| - 1;
      var before, r := refusals[..n], refusals[n];
      LoggedPrefix(starts, refusals, now, n);
      NoticesCount(starts, before, now, k);
      MarkedMore(starts, before, r, k);
      assert before + [r] == refusals;
      if r.marked && InTime(starts, r) {
        InTimeNotifies(starts, refusals, now);
      }
    }
  }

  lemma MarkedMore(starts: seq<Start>, refusals: seq<Refusal>, r: Refusal, k: nat)
    ensures MarkedInTime(starts, refusals + [r], k) <==>
            MarkedInTime(starts, refusals, k) || (r.marked && r.of == k && InTime(starts, r))
  {
    var more := refusals + [r];
    assert more[|refusals|] == r;
    if MarkedInTime(starts, refusals, k) {
      var j :| 0 <= j < |refusals| && refusals[j].marked && refusals[j].of == k && InTime(starts, refusals[j]);
      assert more[j] == refusals[j];
    }
  }

  /** In every run the notices about one cooldown are: one if some refusal marked
      it while it was running, and one for each refusal about it that came when
      it was over and whose caller gave up or found nothing marked still running.
      So it notifies at most once exactly if there is no such late refusal, or
      one alone. */
  lemma OneNoticeExactly(from: int, events: seq<Event>, k: nat)
    ensures var s := Run(from, events);
            var inTime, late := MarkedInTime(s.starts, s.refusals, k), Late(s.starts, s.refusals, k);
            && Notices(s.refusals, k) == late + (if inTime then 1 else 0)
            && (Notices(s.refusals, k) <= 1 <==> late == 0 || (late == 1 && !inTime))
  {
    var s := Run(from, events);
    AllLogged(from, events);
    NoticesCount(s.starts, s.refusals, s.now, k);
  }

  // ─── A cooldown that notifies twice ─────────────────────────────────────

  lemma More(from: int, events: seq<Event>, s: State, e: Event) returns (events': seq<Event>, s': State)
    requires Run(from, events) == s
    ensures events' == events + [e] && s' == Step(s, e) && Run(from, events') == s'
  {
    events', s' := events + [e], Step(s, e);
    assert events'[..|events|] == events;
  }

  /** Two callers refused in time that both mark when the cooldown is over. */
  lemma LateMarksNotifyTwice()
    ensures exists events :: var s := Run(0, events);
              && |s.refusals| == 2 && s.refusals[0].marked && s.refusals[1].marked
              && s.refusals[0].of == s.refusals[1].of && s.refusals[0].notify && s.refusals[1].notify
  {
    var es, s := [], Init(0);
    es, s := More(0, es, s, Arrive(5));
    es, s := More(0, es, s, Go(0, 0, 0));
    assert s == State(0, Records(Some(5), None), [Answered(Started, 0)], [Start(0, 5, 0)], []);
    es, s := More(0, es, s, Arrive(5));
    es, s := More(0, es, s, Go(1, 1, 1));
    es, s := More(0, es, s, Go(1, 1, 1));
    assert s.callers == [Answered(Started, 0), Marking(4, 5, 0)];
    es, s := More(0, es, s, Arrive(5));
    es, s := More(0, es, s, Go(2, 1, 1));
    es, s := More(0, es, s, Go(2, 1, 1));
    assert s == State(1, Records(Some(5), None), [Answered(Started, 0), Marking(4, 5, 0), Marking(4, 5, 0)], [Start(0, 5, 0)], []);
    es, s := More(0, es, s, Go(1, 6, 6));
    es, s := More(0, es, s, Go(2, 6, 6));
    assert s.refusals == [Refusal(0, 6, true, true, 1), Refusal(0, 6, true, true, 2)];
  }

  /** Caller 1 was refused by the first cooldown and found it over; caller 2 has
      started a second one. */
  lemma TurnedAwayOnce() returns (es: seq<Event>, s: State)
    ensures Run(0, es) == s
    ensures s == State(6, Records(Some(11), None), [Answered(Started, 0), Creating(5, 1), Answered(Started, 1)],
                       [Start(0, 5, 0), Start(6, 5, 2)], [])
  {
    es, s := [], Init(0);
    es, s := More(0, es, s, Arrive(5));
    es, s := More(0, es, s, Go(0, 0, 0));
    es, s := More(0, es, s, Arrive(5));
    es, s := More(0, es, s, Go(1, 1, 1));
    assert s == State(1, Records(Some(5), None), [Answered(Started, 0), Reading(5, 0, 0)], [Start(0, 5, 0)], []);
    es, s := More(0, es, s, Go(1, 6, 6));
    es, s := More(0, es, s, Arrive(5));
    es, s := More(0, es, s, Go(2, 6, 6));
  }

  /** One caller marks in time, and another, refused by two cooldowns in turn and
      finding each over when it reads, gives up: both are told to notify about
      the second. */
  lemma GivingUpNotifiesTwice()
    ensures exists events :: var s := Run(0, events);
              && |s.refusals| == 2 && s.refusals[0].of == s.refusals[1].of
              && s.refusals[0].marked && InTime(s.starts, s.refusals[0]) && s.refusals[0].notify
              && !s.refusals[1].marked && s.refusals[1].notify
  {
    var es, s := TurnedAwayOnce();
    es, s := More(0, es, s, Arrive(5));
    es, s := More(0, es, s, Go(3, 7, 7));
    es, s := More(0, es, s, Go(3, 7, 7));
    var starts, first := [Start(0, 5, 0), Start(6, 5, 2)], Refusal(1, 7, true, true, 3);
    assert s == State(7, Records(Some(11), None),
                      [Answered(Started, 0), Creating(5, 1), Answered(Started, 1), Marking(4, 11, 1)], starts, []);
    es, s := More(0, es, s, Go(3, 7, 7));
    assert s == State(7, Records(Some(11), Some(11)),
                      [Answered(Started, 0), Creating(5, 1), Answered(Started, 1), Answered(CoolingDown(4, true), 0)],
                      starts, [first]);
    es, s := More(0, es, s, Go(1, 8, 8));
    es, s := More(0, es, s, Go(1, 12, 12));
    assert s.refusals == [first, Refusal(1, 12, false, true, 1)] && s.starts == starts;
  }
}
