/**
 Cooldowns on an expiring key/value store: callers interleaved at each store
 operation, the store's own time never going back.
 */
module Cooldowns {
  import opened Wrappers

  /** The two records of one key: when the cooldown and its notice expire. */
  datatype Records = Records(cooldown: Option<int>, notice: Option<int>)

  /** An expired record is invisible. */
  predicate Live(record: Option<int>, now: int) { record.Some? && record.value > now }

  datatype Outcome = Started | CoolingDown(retryAfter: nat, notify: bool)

  /** Where a caller is: before a create, before a read, before its marker, or
      answered. `round` counts the rounds so far; `of` is a cooldown, by its place
      among all that started: the one that refused the caller's create, and then
      the one the caller read. */
  datatype Caller =
    | Creating(period: nat, round: nat)
    | Reading(period: nat, round: nat, of: nat)
    | Marking(retryAfter: nat, expires: int, of: nat)
    | Answered(outcome: Outcome, entry: nat)

  /** A cooldown started, and a refusal answered, with the caller it was. An
      answer's `entry` is its place among the ones or the others. A refusal is
      about the cooldown its caller read and marked, or, for a caller that gave
      up without reading any, the last one that refused it. */
  datatype Start = Start(at: int, period: nat, caller: nat)
  datatype Refusal = Refusal(of: nat, at: int, marked: bool, notify: bool, caller: nat)

  datatype State = State(now: int, records: Records, callers: seq<Caller>, starts: seq<Start>, refusals: seq<Refusal>)

  datatype Event =
    | Arrive(period: nat)
    /** The caller takes its next step: `now` is the store's time, `clock` its own. */
    | Go(caller: nat, now: int, clock: int)
    /** Expired records are removed from the store. */
    | Purge(now: int)

  const ROUNDS: nat := 2

  function Expires(s: Start): int { s.at + s.period }

  function Purged(record: Option<int>, now: int): Option<int> { if Live(record, now) then record else None }

  /** What a caller is told of the time left. */
  function RetryAfter(expires: int, clock: int, period: nat): nat {
    if expires <= clock then 0 else if expires - clock < period then expires - clock else period
  }

  /** The last cooldown that started. */
  function LastOf(s: State): nat { if s.starts == [] then 0 else |s.starts| - 1 }

  function OnCreate(s: State, i: nat, period: nat, round: nat, now: int): State
    requires i < |s.callers|
  {
    if Live(s.records.cooldown, now) then s.(callers := s.callers[i := Reading(period, round, LastOf(s))])
    else s.(
      callers := s.callers[i := Answered(Started, |s.starts|)],
      records := s.records.(cooldown := Some(now + period)), starts := s.starts + [Start(now, period, i)])
  }

  /** The caller `i` refused, which the answer logs. */
  function Refuse(s: State, i: nat, retryAfter: nat, r: Refusal): State
    requires i < |s.callers|
  {
    s.(callers := s.callers[i := Answered(CoolingDown(retryAfter, r.notify), |s.refusals|)], refusals := s.refusals + [r])
  }

  /** A read that found nothing leads to one more create, or to giving up. */
  function OnRead(s: State, i: nat, period: nat, round: nat, of: nat, now: int, clock: int): State
    requires i < |s.callers|
  {
    if Live(s.records.cooldown, now) then
      var expires := s.records.cooldown.value;
      s.(callers := s.callers[i := Marking(RetryAfter(expires, clock, period), expires, LastOf(s))])
    else if round + 1 < ROUNDS then s.(callers := s.callers[i := Creating(period, round + 1)])
    else Refuse(s, i, period, Refusal(of, now, false, true, i))
  }

  function OnMark(s: State, i: nat, retryAfter: nat, expires: int, of: nat, now: int): State
    requires i < |s.callers|
  {
    var notify := !Live(s.records.notice, now);
    var records := if notify then s.records.(notice := Some(expires)) else s.records;
    Refuse(s.(records := records), i, retryAfter, Refusal(of, now, true, notify, i))
  }

  /** One event; the store's time does not go back. */
  function Step(s: State, e: Event): State {
    match e
    case Arrive(period) => s.(callers := s.callers + [Creating(period, 0)])
    case Purge(now) =>
      if now < s.now then s
      else s.(now := now, records := Records(Purged(s.records.cooldown, now), Purged(s.records.notice, now)))
    case Go(i, now, clock) =>
      if now < s.now || i >= |s.callers| then s else
        var t := s.(now := now);
        match s.callers[i]
        case Creating(period, round) => OnCreate(t, i, period, round, now)
        case Reading(period, round, of) => OnRead(t, i, period, round, of, now, clock)
        case Marking(retryAfter, expires, of) => OnMark(t, i, retryAfter, expires, of, now)
        case Answered(_, _) => t
  }

  function Init(now: int): State { State(now, Records(None, None), [], [], []) }

  function Run(from: int, events: seq<Event>): State {
    if events == [] then Init(from) else Step(Run(from, events[..|events| - 1]), events[|events| - 1])
  }

  // ─── What every step keeps ──────────────────────────────────────────────

  /** Each cooldown starts when the one before is over. */
  ghost predicate StartsApart(starts: seq<Start>, now: int) {
    starts != [] ==>
      var n := |starts| - 1;
      starts[n].at <= now && StartsApart(starts[..n], starts[n].at) && (n > 0 ==> Expires(starts[n - 1]) <= starts[n].at)
  }

  /** The record is the last cooldown's, unless that is over and it was removed. */
  ghost predicate RecordOk(s: State) {
    && (s.starts == [] ==> s.records.cooldown.None?)
    && (s.starts != [] ==>
          var last := s.starts[|s.starts| - 1];
          s.records.cooldown == Some(Expires(last)) || (s.records.cooldown.None? && Expires(last) <= s.now))
  }

  /** A caller's answer is the entry made for it. */
  ghost predicate CallerOk(s: State, i: nat, x: Caller) {
    match x
    case Creating(_, _) => true
    case Reading(_, _, of) => of < |s.starts|
    case Marking(_, expires, of) => of < |s.starts| && expires == Expires(s.starts[of])
    case Answered(Started, entry) => entry < |s.starts| && s.starts[entry].caller == i
    case Answered(CoolingDown(_, notify), entry) =>
      entry < |s.refusals| && s.refusals[entry].caller == i && s.refusals[entry].notify == notify
  }

  /** Some refusal marked before is about a cooldown that still runs at `now`. */
  ghost predicate MarkedRunning(starts: seq<Start>, refusals: seq<Refusal>, now: int) {
    exists j :: 0 <= j < |refusals| && refusals[j].marked && refusals[j].of < |starts| && Expires(starts[refusals[j].of]) > now
  }

  /** A refusal comes after its cooldown's start; one that gave up, after its end. */
  ghost predicate RefusalOk(starts: seq<Start>, r: Refusal, now: int) {
    && r.of < |starts| && starts[r.of].at <= r.at <= now
    && (!r.marked ==> Expires(starts[r.of]) <= r.at)
  }

  ghost predicate RefusalsOk(s: State) {
    && (forall j :: 0 <= j < |s.refusals| ==> RefusalOk(s.starts, s.refusals[j], s.now))
    && (forall now :: now >= s.now ==> (Live(s.records.notice, now) <==> MarkedRunning(s.starts, s.refusals, now)))
  }

  /** A refusal notifies exactly when it gave up, or no refusal marked before it
      is about a cooldown that still runs then. */
  ghost predicate NotifiesOk(starts: seq<Start>, refusals: seq<Refusal>) {
    refusals != [] ==>
      var n := |refusals| - 1;
      var r := refusals[n];
      NotifiesOk(starts, refusals[..n]) && (r.notify <==> !r.marked || !MarkedRunning(starts, refusals[..n], r.at))
  }

  ghost predicate Inv(s: State) {
    && StartsApart(s.starts, s.now) && RecordOk(s) && RefusalsOk(s) && NotifiesOk(s.starts, s.refusals)
    && forall i :: 0 <= i < |s.callers| ==> CallerOk(s, i, s.callers[i])
  }

  lemma {:induction false} ApartLater(starts: seq<Start>, now: int, later: int)
    requires StartsApart(starts, now) && now <= later
    ensures StartsApart(starts, later)
  {
  }

  lemma {:induction false} StartsInPast(starts: seq<Start>, now: int, j: nat)
    requires StartsApart(starts, now) && j < |starts|
    ensures starts[j].at <= now
  {
    if j < |starts| - 1 {
      StartsInPast(starts[..|starts| - 1], starts[|starts| - 1].at, j);
    }
  }

  /** Any two cooldowns are apart: the later starts when the earlier is over. */
  lemma {:induction false} AnyApart(starts: seq<Start>, now: int, j: nat, k: nat)
    requires StartsApart(starts, now) && j < k < |starts|
    ensures Expires(starts[j]) <= starts[k].at
    decreases |starts|
  {
    var n := |starts| - 1;
    if k < n {
      AnyApart(starts[..n], starts[n].at, j, k);
    } else if j < n - 1 {
      AnyApart(starts[..n], starts[n].at, j, n - 1);
    }
  }

  /** One more cooldown changes nothing about the refusals there are. */
  lemma MarkedStays(starts: seq<Start>, more: Start, refusals: seq<Refusal>, now: int)
    requires forall j :: 0 <= j < |refusals| ==> refusals[j].of < |starts|
    ensures MarkedRunning(starts + [more], refusals, now) == MarkedRunning(starts, refusals, now)
  {
    assert forall j :: 0 <= j < |refusals| ==> (starts + [more])[refusals[j].of] == starts[refusals[j].of];
  }

  lemma {:induction false} NotifiesStay(starts: seq<Start>, more: Start, refusals: seq<Refusal>)
    requires NotifiesOk(starts, refusals) && forall j :: 0 <= j < |refusals| ==> refusals[j].of < |starts|
    ensures NotifiesOk(starts + [more], refusals)
  {
    if refusals != [] {
      var n := |refusals| - 1;
      NotifiesStay(starts, more, refusals[..n]);
      MarkedStays(starts, more, refusals[..n], refusals[n].at);
    }
  }

  lemma CreateKeeps(s: State, i: nat, period: nat, round: nat, now: int)
    requires Inv(s) && i < |s.callers| && now == s.now
    ensures Inv(OnCreate(s, i, period, round, now))
  {
    if !Live(s.records.cooldown, now) {
      var t, more := OnCreate(s, i, period, round, now), Start(now, period, i);
      assert t.starts[..|s.starts|] == s.starts;
      ApartLater(s.starts, s.now, now);
      NotifiesStay(s.starts, more, s.refusals);
      forall later | later >= t.now
        ensures Live(t.records.notice, later) <==> MarkedRunning(t.starts, t.refusals, later)
      {
        MarkedStays(s.starts, more, s.refusals, later);
      }
    }
  }

  /** One more refusal, logged with its caller's answer, when the notice is live
      exactly while something marked runs, that refusal included. */
  lemma RefuseKeeps(s: State, i: nat, retryAfter: nat, r: Refusal, notice: Option<int>)
    requires Inv(s) && i < |s.callers| && r.caller == i && RefusalOk(s.starts, r, s.now)
    requires r.notify <==> !r.marked || !MarkedRunning(s.starts, s.refusals, r.at)
    requires forall now :: now >= s.now ==> (Live(notice, now) <==> MarkedRunning(s.starts, s.refusals + [r], now))
    ensures Inv(Refuse(s.(records := s.records.(notice := notice)), i, retryAfter, r))
  {
    var t := Refuse(s.(records := s.records.(notice := notice)), i, retryAfter, r);
    assert t.refusals[..|s.refusals|] == s.refusals;
    forall j | 0 <= j < |t.callers|
      ensures CallerOk(t, j, t.callers[j])
    {
      assert CallerOk(s, j, s.callers[j]);
    }
  }

  lemma ReadKeeps(s: State, i: nat, period: nat, round: nat, of: nat, now: int, clock: int)
    requires Inv(s) && i < |s.callers| && s.callers[i] == Reading(period, round, of) && now == s.now
    ensures Inv(OnRead(s, i, period, round, of, now, clock))
  {
    assert CallerOk(s, i, s.callers[i]);
    if !Live(s.records.cooldown, now) && round + 1 >= ROUNDS {
      GivesUpLate(s, of, now);
      var r := Refusal(of, now, false, true, i);
      forall later | later >= now
        ensures Live(s.records.notice, later) <==> MarkedRunning(s.starts, s.refusals + [r], later)
      {
        MarkMore(s, r, later);
      }
      RefuseKeeps(s, i, period, r, s.records.notice);
    } else {
      var t := OnRead(s, i, period, round, of, now, clock);
      assert t == s.(callers := s.callers[i := t.callers[i]]);
      assert CallerOk(s, i, t.callers[i]);
      forall j | 0 <= j < |t.callers|
        ensures CallerOk(t, j, t.callers[j])
      {
        assert CallerOk(s, j, s.callers[j]);
      }
    }
  }

  /** When no cooldown is live, every one that started is over. */
  lemma GivesUpLate(s: State, of: nat, now: int)
    requires Inv(s) && of < |s.starts| && !Live(s.records.cooldown, now) && now == s.now
    ensures s.starts[of].at <= now && Expires(s.starts[of]) <= now
  {
    StartsInPast(s.starts, now, of);
    var n := |s.starts| - 1;
    if of < n {
      AnyApart(s.starts, now, of, n);
    }
  }

  lemma MarkKeeps(s: State, i: nat, retryAfter: nat, expires: int, of: nat, now: int)
    requires Inv(s) && i < |s.callers| && s.callers[i] == Marking(retryAfter, expires, of) && now == s.now
    ensures Inv(OnMark(s, i, retryAfter, expires, of, now))
  {
    var t := OnMark(s, i, retryAfter, expires, of, now);
    var r := t.refusals[|s.refusals|];
    assert CallerOk(s, i, s.callers[i]);
    StartsInPast(s.starts, s.now, of);
    forall later | later >= s.now
      ensures Live(t.records.notice, later) <==> MarkedRunning(s.starts, s.refusals + [r], later)
    {
      MarkMore(s, r, later);
      if Live(s.records.notice, now) {
        NoticeOutlasts(s, of, later);
      } else {
        assert !MarkedRunning(s.starts, s.refusals, now);
        assert !MarkedRunning(s.starts, s.refusals, later);
      }
    }
    RefuseKeeps(s, i, retryAfter, r, t.records.notice);
  }

  lemma MarkMore(s: State, r: Refusal, later: int)
    requires r.of < |s.starts|
    ensures MarkedRunning(s.starts, s.refusals + [r], later) <==>
            MarkedRunning(s.starts, s.refusals, later) || (r.marked && Expires(s.starts[r.of]) > later)
  {
    var more := s.refusals + [r];
    assert more[|s.refusals|] == r;
    if MarkedRunning(s.starts, s.refusals, later) {
      var j :| 0 <= j < |s.refusals| && s.refusals[j].marked && s.refusals[j].of < |s.starts|
               && Expires(s.starts[s.refusals[j].of]) > later;
      assert more[j] == s.refusals[j];
    }
    if MarkedRunning(s.starts, more, later) {
      var j :| 0 <= j < |more| && more[j].marked && more[j].of < |s.starts| && Expires(s.starts[more[j].of]) > later;
      assert j < |s.refusals| ==> more[j] == s.refusals[j];
    }
  }

  /** While a notice is live, every cooldown marked so far is over with it. */
  lemma NoticeOutlasts(s: State, of: nat, later: int)
    requires Inv(s) && of < |s.starts| && Live(s.records.notice, s.now) && later >= s.now
    ensures Expires(s.starts[of]) > later ==> Live(s.records.notice, later)
  {
    assert MarkedRunning(s.starts, s.refusals, s.now);
    var j :| 0 <= j < |s.refusals| && s.refusals[j].marked && s.refusals[j].of < |s.starts|
             && Expires(s.starts[s.refusals[j].of]) > s.now;
    var k := s.refusals[j].of;
    RunningIsOne(s.starts, s.now, k, of);
    if Expires(s.starts[of]) > later {
      assert k == of;
      assert MarkedRunning(s.starts, s.refusals, later);
    }
  }

  /** No two cooldowns run at once. */
  lemma RunningIsOne(starts: seq<Start>, now: int, j: nat, k: nat)
    requires StartsApart(starts, now) && j < |starts| && k < |starts|
    ensures Expires(starts[j]) > now && Expires(starts[k]) > now ==> j == k
  {
    StartsInPast(starts, now, j);
    StartsInPast(starts, now, k);
    if j < k {
      AnyApart(starts, now, j, k);
    } else if k < j {
      AnyApart(starts, now, k, j);
    }
  }

  lemma PurgeKeeps(s: State, now: int)
    requires Inv(s) && s.now <= now
    ensures Inv(Step(s, Purge(now))) && Inv(s.(now := now))
  {
    ApartLater(s.starts, s.now, now);
    var t := Step(s, Purge(now));
    assert forall later :: later >= now ==> Live(t.records.notice, later) == Live(s.records.notice, later);
  }

  lemma StepKeeps(s: State, e: Event)
    requires Inv(s)
    ensures Inv(Step(s, e))
  {
    match e
    case Arrive(_) =>
    case Purge(now) => if s.now <= now { PurgeKeeps(s, now); }
    case Go(i, now, clock) =>
      if s.now <= now && i < |s.callers| {
        PurgeKeeps(s, now);
        match s.callers[i]
        case Creating(period, round) => CreateKeeps(s.(now := now), i, period, round, now);
        case Reading(period, round, of) => ReadKeeps(s.(now := now), i, period, round, of, now, clock);
        case Marking(retryAfter, expires, of) => MarkKeeps(s.(now := now), i, retryAfter, expires, of, now);
        case Answered(_, _) =>
      }
  }

  lemma {:induction false} RunKeeps(from: int, events: seq<Event>)
    ensures Inv(Run(from, events))
  {
    if events != [] {
      RunKeeps(from, events[..|events| - 1]);
      StepKeeps(Run(from, events[..|events| - 1]), events[|events| - 1]);
    }
  }

  // ─── One caller, on the store ───────────────────────────────────────────

  /** The store's records of one key. */
  class Store {
    var records: Records

    constructor ()
      ensures records == Records(None, None)
    {
      records := Records(None, None);
    }

    /** Create the cooldown's record unless a live one is there. */
    method CreateCooldown(now: int, expires: int) returns (created: bool)
      modifies this
      ensures created == !Live(old(records).cooldown, now)
      ensures records == if created then old(records).(cooldown := Some(expires)) else old(records)
    {
      created := !Live(records.cooldown, now);
      if created {
        records := records.(cooldown := Some(expires));
      }
    }

    /** Create the notice's record unless a live one is there. */
    method CreateNotice(now: int, expires: int) returns (created: bool)
      modifies this
      ensures created == !Live(old(records).notice, now)
      ensures records == if created then old(records).(notice := Some(expires)) else old(records)
    {
      created := !Live(records.notice, now);
      if created {
        records := records.(notice := Some(expires));
      }
    }

    /** When the live cooldown expires, if one is there. */
    method Get(now: int) returns (expires: Option<int>)
      ensures expires == if Live(records.cooldown, now) then records.cooldown else None
    {
      expires := if Live(records.cooldown, now) then records.cooldown else None;
    }

    /** Start a cooldown unless one is running. With nobody else at the store a
        caller starts one exactly if none is live when it first tries or when
        it reads, is never left without an answer from the store, and a refusal
        notifies exactly if no notice is live. `times` are the store's, `clock`
        the caller's own. */
    method TryStart(period: nat, times: nat -> int, clock: int) returns (outcome: Outcome)
      requires forall i: nat :: times(i) <= times(i + 1)
      modifies this
      ensures outcome.Started? <==> !Live(old(records).cooldown, times(0)) || !Live(old(records).cooldown, times(1))
      ensures outcome.Started? && !Live(old(records).cooldown, times(0)) ==>
                records == old(records).(cooldown := Some(times(0) + period))
      ensures outcome.Started? && Live(old(records).cooldown, times(0)) ==>
                records == old(records).(cooldown := Some(times(2) + period))
      ensures outcome.CoolingDown? ==>
                && outcome.retryAfter == RetryAfter(old(records).cooldown.value, clock, period) <= period
                && outcome.notify == !Live(old(records).notice, times(2))
                && records == if outcome.notify then old(records).(notice := old(records).cooldown) else old(records)
    {
      var round, at: nat := 0, 0;
      while round < ROUNDS
        invariant round == 0 ==> at == 0
        invariant round > 0 ==> round == 1 && at == 2 && Live(old(records).cooldown, times(0)) && !Live(old(records).cooldown, times(1))
        invariant records == old(records)
      {
        assert times(at) <= times(at + 1);
        var created := CreateCooldown(times(at), times(at) + period);
        if created {
          return Started;
        }
        var read := Get(times(at + 1));
        if read.Some? {
          var notify := CreateNotice(times(at + 2), read.value);
          return CoolingDown(RetryAfter(read.value, clock, period), notify);
        }
        round, at := round + 1, at + 2;
        assert times(1) <= times(2);
      }
      return CoolingDown(period, true);
    }
  }
}
