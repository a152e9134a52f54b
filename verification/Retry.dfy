/**
 The two retry loops beside a broadcast's: a Graph request's own, and the paced
 outbound's. What each send answers is free.
 */
module Retries {
  import opened Basics
  import opened Wrappers
  import opened Backoffs

  datatype RetryPolicy = RetryPolicy(maxRetries: nat, baseDelay: nat, maxDelay: nat)

  /** Whether the attempt that just failed should be followed by another. */
  predicate ShouldRetry(p: RetryPolicy, attempt: nat, error: Error, idempotent: bool) {
    attempt < p.maxRetries && error.retryable && (idempotent || error.mayResend)
  }

  /** The longest the wait before the next attempt may be. */
  function Cap(p: RetryPolicy, attempt: nat): nat {
    Min(p.baseDelay * Min(Power(2, attempt), U32_MAX), p.maxDelay)
  }

  /** The wait before the next attempt: the server's if it gave one, else a
      random part of a doubling cap. `random` is what the generator gives, if
      it works. */
  function WaitFor(p: RetryPolicy, attempt: nat, retryAfter: Option<nat>, random: Option<nat>): nat
    requires p.maxDelay < U64_MAX
  {
    if retryAfter.Some? then Min(retryAfter.value, p.maxDelay)
    else if Cap(p, attempt) == 0 then 0
    else if random.None? then Cap(p, attempt)
    else random.value % (Cap(p, attempt) + 1)
  }

  /** A wait as it should be: within the longest delay; what the server asked for,
      cut only by that; and without its word within the attempt's cap, or the whole
      of it when the generator does not work. */
  ghost predicate WaitOk(p: RetryPolicy, attempt: nat, retryAfter: Option<nat>, random: Option<nat>, wait: nat) {
    && wait <= p.maxDelay
    && (retryAfter.Some? ==> wait <= retryAfter.value && (wait >= retryAfter.value || wait == p.maxDelay))
    && (retryAfter.None? ==> wait <= Cap(p, attempt) && (random.None? ==> wait == Cap(p, attempt)))
  }

  /** Every wait is as it should be, and the caps never shrink from one attempt to
      the next. */
  lemma DelayWithinCaps(p: RetryPolicy, attempt: nat, retryAfter: Option<nat>, random: Option<nat>)
    requires p.maxDelay < U64_MAX
    ensures WaitOk(p, attempt, retryAfter, random, WaitFor(p, attempt, retryAfter, random))
    ensures Cap(p, attempt) <= Cap(p, attempt + 1) <= p.maxDelay
  {
    PowerGrows(2, attempt, attempt + 1);
    Scaled(Min(Power(2, attempt), U32_MAX), Min(Power(2, attempt + 1), U32_MAX), p.baseDelay);
  }

  /** The cap starts at the base delay and doubles, up to the longest delay. */
  lemma CapsDouble(p: RetryPolicy, attempt: nat)
    ensures Cap(p, 0) == Min(p.baseDelay, p.maxDelay)
    ensures Power(2, attempt + 1) <= U32_MAX ==> Cap(p, attempt + 1) == Min(2 * Cap(p, attempt), p.maxDelay)
  {
    PowerGrows(2, attempt, attempt + 1);
    Doubled(p.baseDelay, Power(2, attempt));
  }

  /** The jitter is full: without a server's word, every wait up to the cap can
      come, and no other. */
  lemma JitterIsFull(p: RetryPolicy, attempt: nat, wait: nat)
    requires p.maxDelay < U64_MAX
    ensures (exists random :: WaitFor(p, attempt, None, random) == wait) <==> wait <= Cap(p, attempt)
  {
    var cap := Cap(p, attempt);
    if wait <= cap {
      Remainder(wait, cap + 1);
      assert WaitFor(p, attempt, None, Some(wait)) == wait;
    }
    if random :| WaitFor(p, attempt, None, random) == wait {
      DelayWithinCaps(p, attempt, None, random);
    }
  }

  lemma Remainder(a: nat, b: nat)
    requires a < b
    ensures a % b == a
  {
  }

  /** What one send answered. */
  datatype Answer = Success(response: nat) | Failure(error: Error, retryAfter: Option<nat>)

  predicate Again(p: RetryPolicy, attempt: nat, answer: Answer, idempotent: bool) {
    answer.Failure? && ShouldRetry(p, attempt, answer.error, idempotent)
  }

  /** The sends so far are each followed by another: all were refused with errors
      that allow it. */
  ghost predicate AllAgain(p: RetryPolicy, answers: seq<Answer>, idempotent: bool) {
    forall k :: 0 <= k < |answers| ==> Again(p, k, answers[k], idempotent)
  }

  /** The sends of one call: each but the last is followed by another exactly
      because its error allows it, and the call ends with the last's answer. */
  ghost predicate CallOk(p: RetryPolicy, answers: seq<Answer>, idempotent: bool, replayable: bool, result: Result<nat, Error>) {
    && answers != []
    && var n := |answers| - 1;
       && AllAgain(p, answers[..n], idempotent) && (n > 0 ==> replayable)
       && !(replayable && Again(p, n, answers[n], idempotent))
       && result == match answers[n] { case Success(r) => Ok(r) case Failure(e, _) => Err(e) }
  }

  /** The waits of one call, one after each send but the last. */
  ghost predicate WaitsOk(p: RetryPolicy, answers: seq<Answer>, waits: seq<nat>, random: nat -> Option<nat>) {
    |waits| <= |answers| &&
    forall k :: 0 <= k < |waits| ==> answers[k].Failure? && WaitOk(p, k, answers[k].retryAfter, random(k), waits[k])
  }

  lemma WaitsMore(p: RetryPolicy, before: seq<Answer>, last: Answer, waits: seq<nat>, random: nat -> Option<nat>)
    requires p.maxDelay < U64_MAX && WaitsOk(p, before, waits, random) && |waits| == |before| && last.Failure?
    ensures WaitsOk(p, before + [last], waits, random)
    ensures WaitsOk(p, before + [last], waits + [WaitFor(p, |before|, last.retryAfter, random(|before|))], random)
  {
    DelayWithinCaps(p, |before|, last.retryAfter, random(|before|));
  }

  lemma CallEnds(p: RetryPolicy, before: seq<Answer>, last: Answer, idempotent: bool, replayable: bool)
    requires AllAgain(p, before, idempotent) && (before != [] ==> replayable)
    requires !(replayable && Again(p, |before|, last, idempotent))
    ensures CallOk(p, before + [last], idempotent, replayable, if last.Success? then Ok(last.response) else Err(last.error))
  {
    assert (before + [last])[..|before|] == before;
  }

  // ─── A Graph request ────────────────────────────────────────────────────

  datatype Content = Nothing | Bytes(kind: int, data: seq<int>) | Multipart(parts: seq<int>) | Streamed(stream: int)

  /** A body made ready once per attempt; a stream can be taken once. */
  datatype BodySpec = Fixed(content: Content) | Stream(left: Option<Content>)

  class GraphRequest {
    var body: BodySpec
    /** The first error met while building the request. */
    var error: Option<Error>
    const policy: RetryPolicy
    const idempotent: bool

    constructor (body: BodySpec, error: Option<Error>, policy: RetryPolicy, idempotent: bool)
      ensures this.body == body && this.error == error && this.policy == policy && this.idempotent == idempotent
    {
      this.body, this.error, this.policy, this.idempotent := body, error, policy, idempotent;
    }

    /** The body for one attempt; a stream already taken cannot be sent again. */
    method Materialize(spent: Error) returns (r: Result<Content, Error>)
      modifies this`body
      ensures old(body).Fixed? ==> r == Ok(old(body).content) && body == old(body)
      ensures old(body).Stream? ==>
                body == Stream(None) && r == if old(body).left.Some? then Ok(old(body).left.value) else Err(spent)
    {
      match body
      case Fixed(content) => r := Ok(content);
      case Stream(left) =>
        body := Stream(None);
        r := if left.Some? then Ok(left.value) else Err(spent);
    }

    /** What `Materialize` gives the first time. */
    ghost function FirstBody(): Option<Content>
      reads this`body
    {
      match body
      case Fixed(content) => Some(content)
      case Stream(left) => left
    }

    /** Send, and send again as the policy allows: a stream is sent once at most,
        every attempt carries the same body, an attempt is made again exactly
        when the policy allows it, after the wait the server asked for if it gave
        one, and never after more waits, or longer ones, than the policy has. `refusal` is what checking the URL and its
        credentials comes to. */
    method SendRaw(refusal: Option<Error>, spent: Error, transport: nat -> Answer, random: nat -> Option<nat>)
      returns (result: Result<nat, Error>, sent: seq<Content>, answers: seq<Answer>, waits: seq<nat>)
      requires policy.maxDelay < U64_MAX
      modifies this
      ensures old(error).Some? ==> result == Err(old(error).value) && sent == []
      ensures old(error).None? && refusal.Some? ==> result == Err(refusal.value) && sent == []
      ensures old(error).None? && refusal.None? && old(FirstBody()).None? ==> result == Err(spent) && sent == []
      ensures old(error).None? && refusal.None? && old(FirstBody()).Some? ==>
                && (forall k :: 0 <= k < |sent| ==> sent[k] == old(FirstBody()).value)
                && |sent| == |answers| == |waits| + 1 <= policy.maxRetries + 1
                && (forall k :: 0 <= k < |answers| ==> answers[k] == transport(k))
                && CallOk(policy, answers, idempotent, old(body).Fixed?, result)
                && WaitsOk(policy, answers, waits, random)
      ensures old(body).Stream? ==> |sent| <= 1
    {
      sent, answers, waits := [], [], [];
      var replayable := body.Fixed?;
      if error.Some? {
        result := Err(error.value);
        error := None;
        return;
      }
      if refusal.Some? {
        return Err(refusal.value), [], [], [];
      }
      ghost var first := FirstBody();
      while true
        invariant |sent| == |answers| == |waits| <= policy.maxRetries && replayable == old(body).Fixed?
        invariant forall k :: 0 <= k < |sent| ==> first == Some(sent[k])
        invariant forall k :: 0 <= k < |answers| ==> answers[k] == transport(k)
        invariant AllAgain(policy, answers, idempotent)
        invariant WaitsOk(policy, answers, waits, random)
        invariant if sent == [] then body == old(body) else replayable && body == old(body)
        invariant first == old(FirstBody())
        decreases policy.maxRetries - |sent|
      {
        var attempt := |sent|;
        var content := Materialize(spent);
        if content.Err? {
          return Err(content.error), sent, answers, waits;
        }
        var answer := transport(attempt);
        ghost var before := answers;
        sent, answers := sent + [content.value], answers + [answer];
        assert forall k :: 0 <= k < |waits| ==> answers[k] == before[k];
        match answer
        case Success(response) =>
          CallEnds(policy, before, answer, idempotent, replayable);
          return Ok(response), sent, answers, waits;
        case Failure(e, retryAfter) =>
          if !replayable || !ShouldRetry(policy, attempt, e, idempotent) {
            CallEnds(policy, before, answer, idempotent, replayable);
            return Err(e), sent, answers, waits;
          }
          WaitsMore(policy, before, answer, waits, random);
          waits := waits + [WaitFor(policy, attempt, retryAfter, random(attempt))];
      }
    }
  }

  /** A call's sends go on exactly as long as they should: one is followed by
      another if and only if it failed retryably within the retries, with a body
      that can be sent again, and either again does no harm or nothing was done. */
  lemma RepeatedExactly(p: RetryPolicy, answers: seq<Answer>, idempotent: bool, replayable: bool, result: Result<nat, Error>, k: nat)
    requires CallOk(p, answers, idempotent, replayable, result) && k < |answers|
    ensures k < |answers| - 1 <==>
            answers[k].Failure? && replayable && k < p.maxRetries && answers[k].error.retryable
            && (idempotent || answers[k].error.mayResend)
  {
    var before := answers[..|answers| - 1];
    if k < |before| {
      assert Again(p, k, before[k], idempotent);
    }
  }

  /** So a request that is not idempotent is sent again only after an error that
      proves nothing was done. */
  lemma NeverBlindlyAgain(p: RetryPolicy, answers: seq<Answer>, replayable: bool, result: Result<nat, Error>, k: nat)
    requires CallOk(p, answers, false, replayable, result) && k < |answers| - 1
    ensures answers[k].Failure? && answers[k].error.mayResend && answers[k].error.retryable
    ensures |answers| <= p.maxRetries + 1
  {
    var before := answers[..|answers| - 1];
    assert Again(p, k, before[k], false);
    assert Again(p, |before| - 1, before[|before| - 1], false);
  }

  // ─── The paced outbound ─────────────────────────────────────────────────

  /** One call on the paced outbound: a slot for every send; a slot refused ends
      the call with that error, after sends that were all to be made again. */
  ghost predicate PacedOk(p: RetryPolicy, answers: seq<Answer>, idempotent: bool, slots: nat, refused: Option<Error>, result: Result<nat, Error>) {
    && slots == |answers|
    && if refused.Some? then AllAgain(p, answers, idempotent) && result == Err(refused.value)
       else CallOk(p, answers, idempotent, true, result)
  }

  /** The wait before a failed call is repeated, or nothing if it is given up. */
  function AfterFailure(p: RetryPolicy, error: Error, attempt: nat, idempotent: bool, random: Option<nat>): (r: Option<nat>)
    requires p.maxDelay < U64_MAX
    ensures r.Some? <==> ShouldRetry(p, attempt, error, idempotent)
    ensures r.Some? ==> WaitOk(p, attempt, None, random, r.value)
  {
    if ShouldRetry(p, attempt, error, idempotent) then
      DelayWithinCaps(p, attempt, None, random);
      Some(WaitFor(p, attempt, None, random))
    else None
  }

  /** Send a message: never idempotent. `slot` is what each reservation answers,
      `inner` each send. */
  method Send(p: RetryPolicy, slot: nat -> Option<Error>, inner: nat -> Answer, random: nat -> Option<nat>)
    returns (result: Result<nat, Error>, answers: seq<Answer>, slots: nat, refused: Option<Error>, waits: seq<nat>)
    requires p.maxDelay < U64_MAX
    ensures PacedOk(p, answers, false, slots, refused, result)
    ensures forall k :: 0 <= k < |answers| ==> answers[k] == inner(k)
    ensures |answers| <= p.maxRetries + 1 && |waits| == if refused.Some? then |answers| else |answers| - 1
    ensures forall k :: 0 <= k < |waits| ==> WaitOk(p, k, None, random(k), waits[k])
  {
    answers, slots, refused, waits := [], 0, None, [];
    while true
      invariant slots == |answers| <= p.maxRetries && AllAgain(p, answers, false)
      invariant forall k :: 0 <= k < |answers| ==> answers[k] == inner(k)
      invariant |waits| == |answers| && forall k :: 0 <= k < |waits| ==> WaitOk(p, k, None, random(k), waits[k])
      decreases p.maxRetries - slots
    {
      var attempt := slots;
      refused := slot(attempt);
      if refused.Some? {
        return Err(refused.value), answers, slots, refused, waits;
      }
      slots := slots + 1;
      var answer := inner(attempt);
      ghost var before := answers;
      answers := answers + [answer];
      if answer.Success? {
        CallEnds(p, before, answer, false, true);
        return Ok(answer.response), answers, slots, None, waits;
      }
      var delay := AfterFailure(p, answer.error, attempt, false, random(attempt));
      if delay.None? {
        CallEnds(p, before, answer, false, true);
        return Err(answer.error), answers, slots, None, waits;
      }
      waits := waits + [delay.value];
    }
  }

  /** Mark a message as read: idempotent unless it shows a typing indicator. */
  method MarkRead(p: RetryPolicy, typing: bool, slot: nat -> Option<Error>, inner: nat -> Answer, random: nat -> Option<nat>)
    returns (result: Result<nat, Error>, answers: seq<Answer>, slots: nat, refused: Option<Error>, waits: seq<nat>)
    requires p.maxDelay < U64_MAX
    ensures PacedOk(p, answers, !typing, slots, refused, result)
    ensures forall k :: 0 <= k < |answers| ==> answers[k] == inner(k)
    ensures |answers| <= p.maxRetries + 1 && |waits| == if refused.Some? then |answers| else |answers| - 1
    ensures forall k :: 0 <= k < |waits| ==> WaitOk(p, k, None, random(k), waits[k])
  {
    var idempotent := !typing;
    answers, slots, refused, waits := [], 0, None, [];
    while true
      invariant slots == |answers| <= p.maxRetries && AllAgain(p, answers, idempotent)
      invariant forall k :: 0 <= k < |answers| ==> answers[k] == inner(k)
      invariant |waits| == |answers| && forall k :: 0 <= k < |waits| ==> WaitOk(p, k, None, random(k), waits[k])
      decreases p.maxRetries - slots
    {
      var attempt := slots;
      refused := slot(attempt);
      if refused.Some? {
        return Err(refused.value), answers, slots, refused, waits;
      }
      slots := slots + 1;
      var answer := inner(attempt);
      ghost var before := answers;
      answers := answers + [answer];
      if answer.Success? {
        CallEnds(p, before, answer, idempotent, true);
        return Ok(answer.response), answers, slots, None, waits;
      }
      var delay := AfterFailure(p, answer.error, attempt, idempotent, random(attempt));
      if delay.None? {
        CallEnds(p, before, answer, idempotent, true);
        return Err(answer.error), answers, slots, None, waits;
      }
      waits := waits + [delay.value];
    }
  }
}
