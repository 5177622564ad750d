/** The retry loop around one upstream request (internal/clockify/client.go).
    The transport, the deadline and the sleep are arbitrary functions of the
    attempt, so a statement about all of them covers every behaviour. */
module UpstreamClient {
  import opened JsonValue
  import opened CircuitBreaker

  datatype ApiError = ApiError(status: int, retryAfter: int)

  /** What `errors.Is` and `errors.As` find in an error's chain; `direct` says
      that the API error is the error itself and not wrapped. */
  datatype Failure = Failure(
    cancelled: bool, deadline: bool, breakerOpen: bool, api: Option<ApiError>, direct: bool, net: bool)

  type Reply = Option<Failure>

  /** `reply(n)` is the result of attempt `n`, and `others(n)` are the events that
      requests running at the same time cause at the shared breaker during that
      attempt and the wait after it; before attempt `n > 0` with wait `w`,
      `late(n, w)` says that the deadline is nearer than `w`, and
      `interrupted(n, w)` is the error of the sleep, if any. */
  datatype World = World(
    reply: nat -> Reply,
    others: nat -> seq<Event>,
    backoff: nat -> int,
    late: (nat, int) -> bool,
    interrupted: (nat, int) -> Option<Failure>)

  datatype Outcome = Refused(retryAfter: int) | Success | Failed(error: Failure)

  function Upper(c: char): char {
    if 'a' <= c <= 'z' then c - 'a' + 'A'
    else if c == '\U{131}' then 'I'  // the two letters outside ASCII whose upper case is inside
    else if c == '\U{17F}' then 'S'
    else c
  }

  function ToUpper(s: string): string {
    seq(|s|, i requires 0 <= i < |s| => Upper(s[i]))
  }

  predicate IsIdempotentMethod(verb: string) {
    ToUpper(verb) in {"GET", "HEAD", "OPTIONS", "PUT"}
  }

  predicate IsRetryableStatus(code: int) {
    code in {429, 502, 503, 504}
  }

  predicate IsRetryable(verb: string, e: Failure) {
    if !IsIdempotentMethod(verb) then false
    else if e.cancelled || e.deadline then false
    else if e.api.Some? then IsRetryableStatus(e.api.value.status)
    else e.net
  }

  predicate IsUpstreamFailure(r: Reply) {
    if r.None? then false
    else
      var e := r.value;
      if e.cancelled || e.deadline || e.breakerOpen then false
      else if e.api.Some? then 500 <= e.api.value.status <= 599
      else e.net
  }

  // ---------------------------------------------------------------------
  // The classifiers, letter by letter
  // ---------------------------------------------------------------------

  /** `c` is the capital letter `u` or a letter whose upper case it is. */
  ghost predicate CountsAs(c: char, u: char) {
    || c == u
    || ('a' <= c <= 'z' && c as int - u as int == 32)
    || (c == '\U{131}' && u == 'I')
    || (c == '\U{17F}' && u == 'S')
  }

  ghost predicate Spells(verb: string, word: string) {
    |verb| == |word| && forall i :: 0 <= i < |word| ==> CountsAs(verb[i], word[i])
  }

  ghost predicate IsCapitals(word: string) {
    forall i :: 0 <= i < |word| ==> 'A' <= word[i] <= 'Z'
  }

  ghost predicate Repeatable(verb: string) {
    Spells(verb, "GET") || Spells(verb, "HEAD") || Spells(verb, "OPTIONS") || Spells(verb, "PUT")
  }

  lemma UpperExactly(c: char, u: char)
    requires 'A' <= u <= 'Z'
    ensures Upper(c) == u <==> CountsAs(c, u)
  {
  }

  lemma SpelledExactly(verb: string, word: string)
    requires IsCapitals(word)
    ensures ToUpper(verb) == word <==> Spells(verb, word)
  {
    forall i | 0 <= i < |verb| && i < |word|
      ensures ToUpper(verb)[i] == word[i] <==> CountsAs(verb[i], word[i])
    {
      UpperExactly(verb[i], word[i]);
    }
    hide CountsAs;
    if Spells(verb, word) {
      assert ToUpper(verb) == word;
    }
  }

  /** Only four words, in any mix of cases, name a method that may be repeated. */
  lemma RepeatableExactly(verb: string)
    ensures IsIdempotentMethod(verb) <==> Repeatable(verb)
  {
    SpelledExactly(verb, "GET");
    SpelledExactly(verb, "HEAD");
    SpelledExactly(verb, "OPTIONS");
    SpelledExactly(verb, "PUT");
    hide Spells;
    hide ToUpper;
  }

  /** So these are not, and neither is a missing method. */
  lemma MutationsAreNotRepeatable(verb: string)
    requires Spells(verb, "POST") || Spells(verb, "PATCH") || Spells(verb, "DELETE") || verb == ""
    ensures !Repeatable(verb)
  {
    // lengths differ, or for POST the second letter differs from that of HEAD
    assert Spells(verb, "POST") ==> CountsAs(verb[1], "POST"[1]);
    assert Spells(verb, "HEAD") ==> CountsAs(verb[1], "HEAD"[1]);
  }

  /** The wait before attempt `n + 1`, given what attempt `n` returned. */
  ghost function Wait(w: World, n: nat): int {
    var r := w.reply(n);
    if r.Some? && r.value.direct && r.value.api.Some? && r.value.api.value.retryAfter > 0
    then r.value.api.value.retryAfter
    else w.backoff(n + 1)
  }

  /** Attempt `n` is followed by another one. */
  ghost predicate TriesAgain(w: World, verb: string, maxRetries: nat, n: nat) {
    && w.reply(n).Some?
    && IsRetryable(verb, w.reply(n).value)
    && n < maxRetries
    && !w.late(n + 1, Wait(w, n))
    && w.interrupted(n + 1, Wait(w, n)) == None
  }

  /** Attempt `n` is followed by another one exactly if the method may be repeated,
      the request was neither cancelled nor past its deadline, the error is one of
      four statuses or a network error, and there is budget and time. */
  lemma FollowedExactly(w: World, verb: string, maxRetries: nat, n: nat)
    ensures TriesAgain(w, verb, maxRetries, n) <==>
            && w.reply(n).Some?
            && var e := w.reply(n).value;
               && Repeatable(verb)
               && !e.cancelled && !e.deadline
               && (if e.api.Some?
                   then e.api.value.status == 429 || e.api.value.status == 502
                        || e.api.value.status == 503 || e.api.value.status == 504
                   else e.net)
               && n < maxRetries
               && var wait := if e.direct && e.api.Some? && e.api.value.retryAfter > 0
                              then e.api.value.retryAfter else w.backoff(n + 1);
                  !w.late(n + 1, wait) && w.interrupted(n + 1, wait) == None
  {
    RepeatableExactly(verb);
    hide Repeatable;
    hide IsIdempotentMethod;
  }

  ghost predicate LastAttempt(w: World, verb: string, maxRetries: nat, last: nat) {
    && (forall n: nat :: n < last ==> TriesAgain(w, verb, maxRetries, n))
    && !TriesAgain(w, verb, maxRetries, last)
  }

  /** What the caller sees when `last` was the last attempt. */
  ghost function Result(w: World, verb: string, maxRetries: nat, last: nat): Outcome {
    var r := w.reply(last);
    if r == None then Success
    else if IsRetryable(verb, r.value) && last < maxRetries && !w.late(last + 1, Wait(w, last))
            && w.interrupted(last + 1, Wait(w, last)).Some?
    then Failed(w.interrupted(last + 1, Wait(w, last)).value)
    else Failed(r.value)
  }

  ghost function OthersDuring(w: World, attempts: nat): seq<Event> {
    if attempts == 0 then [] else OthersDuring(w, attempts - 1) + w.others(attempts - 1)
  }

  /** What the breaker sees while an admitted request sends `sent` attempts: one
      event at the start, one at the end, and in between those of others only. */
  ghost function Episode(w: World, key: Key, startedAt: int, sent: nat, finishedAt: int): seq<Event>
    requires sent > 0
  {
    [BeforeCall(key, startedAt)]
    + OthersDuring(w, sent)
    + [AfterCall(key, IsUpstreamFailure(w.reply(sent - 1)), finishedAt)]
  }

  /** The error of the last attempt asks for another one, and there is budget and
      time to wait for it. */
  ghost predicate WouldWait(w: World, verb: string, maxRetries: nat, last: nat, wait: int) {
    && w.reply(last).Some?
    && var e := w.reply(last).value;
       && Repeatable(verb)
       && !e.cancelled && !e.deadline
       && (if e.api.Some? then e.api.value.status in {429, 502, 503, 504} else e.net)
       && last < maxRetries
       && wait == (if e.direct && e.api.Some? && e.api.value.retryAfter > 0
                   then e.api.value.retryAfter else w.backoff(last + 1))
       && !w.late(last + 1, wait)
  }

  /** What the caller sees: a success exactly if the last attempt succeeded, and
      otherwise its error, unless a wait for one more attempt was interrupted. */
  lemma ResultExactly(w: World, verb: string, maxRetries: nat, last: nat, wait: int)
    requires LastAttempt(w, verb, maxRetries, last)
    ensures var out := Result(w, verb, maxRetries, last);
            && (out == Success <==> w.reply(last) == None)
            && (out.Failed? <==> w.reply(last).Some?)
            && (WouldWait(w, verb, maxRetries, last, wait) ==>
                  w.interrupted(last + 1, wait).Some? && out == Failed(w.interrupted(last + 1, wait).value))
            && (w.reply(last).Some? && (forall t :: !WouldWait(w, verb, maxRetries, last, t)) ==>
                  out == Failed(w.reply(last).value))
  {
    RepeatableExactly(verb);
    hide Repeatable;
    hide IsIdempotentMethod;
    if w.reply(last).Some? {
      var waits := WouldWait(w, verb, maxRetries, last, Wait(w, last));
    }
  }

  class Client {
    const breaker: Breaker?
    const maxRetries: nat

    ghost predicate Valid()
      reads breaker
    {
      breaker != null ==> breaker.Valid()
    }

    ghost predicate Recording() {
      breaker != null && breaker.enabled
    }

    constructor (breaker: Breaker?, maxRetries: int)
      ensures this.breaker == breaker
      ensures this.maxRetries == if maxRetries < 0 then 0 else maxRetries
    {
      this.breaker := breaker;
      this.maxRetries := if maxRetries < 0 then 0 else maxRetries;
    }

    method Record(key: Key, reply: Reply, now: int)
      requires Valid()
      modifies breaker
      ensures Valid()
      ensures Recording() ==>
                && breaker.log == old(breaker.log) + [AfterCall(key, IsUpstreamFailure(reply), now)]
                && breaker.states == Run(breaker.config, old(breaker.states),
                                         [AfterCall(key, IsUpstreamFailure(reply), now)])
      ensures breaker != null && !breaker.enabled ==> breaker.states == old(breaker.states)
    {
      if breaker != null {
        breaker.After(key, IsUpstreamFailure(reply), now);
      }
    }

    /** The calls that other requests make on the breaker meanwhile. */
    method Meanwhile(events: seq<Event>)
      requires Valid()
      modifies breaker
      ensures Valid()
      ensures Recording() ==> breaker.log == old(breaker.log) + events
      ensures breaker != null && !breaker.enabled ==> breaker.states == old(breaker.states)
    {
      if breaker == null {
        return;
      }
      for i := 0 to |events|
        invariant Valid()
        invariant Recording() ==> breaker.log == old(breaker.log) + events[..i]
        invariant !breaker.enabled ==> breaker.states == old(breaker.states)
      {
        match events[i] {
          case BeforeCall(key, at) => var v := breaker.Before(key, at);
          case AfterCall(key, failed, at) => breaker.After(key, failed, at);
        }
        assert events[..i + 1] == events[..i] + [events[i]];
      }
      assert events[..|events|] == events;
    }

    /** The wait before attempt `attempt`: either it passes and the attempt may be
        made, or the request ends here with its one record. */
    method Pause(w: World, key: Key, attempt: nat, lastErr: Failure, explicitRetryAfter: int, finishedAt: int)
        returns (stop: Option<Outcome>)
      requires Valid()
      requires 0 < attempt <= maxRetries && w.reply(attempt - 1) == Some(lastErr) && IsRetryable(key.verb, lastErr)
      requires Wait(w, attempt - 1) == if explicitRetryAfter <= 0 then w.backoff(attempt) else explicitRetryAfter
      modifies breaker
      ensures Valid()
      ensures stop.None? <==> TriesAgain(w, key.verb, maxRetries, attempt - 1)
      ensures stop.None? ==> Recording() ==> breaker.log == old(breaker.log)
      ensures stop.Some? ==>
                && stop.value == Result(w, key.verb, maxRetries, attempt - 1)
                && (Recording() ==>
                      breaker.log == old(breaker.log) + [AfterCall(key, IsUpstreamFailure(Some(lastErr)), finishedAt)])
      ensures breaker != null && !breaker.enabled ==> breaker.states == old(breaker.states)
    {
      hide Run;
      hide IsUpstreamFailure;
      hide IsRetryable;
      hide Breaker.Valid;
      var waitDur := explicitRetryAfter;
      if waitDur <= 0 {
        waitDur := w.backoff(attempt);
      }
      if w.late(attempt, waitDur) {
        Record(key, Some(lastErr), finishedAt);
        return Some(Failed(lastErr));
      }
      var err := w.interrupted(attempt, waitDur);
      if err.Some? {
        Record(key, Some(lastErr), finishedAt);
        return Some(Failed(err.value));
      }
      stop := None;
    }

    /** One attempt: a success or an error that is not retryable ends the request
        with its one record, a retryable error leaves the wait that it asks for. */
    method Attempt(w: World, key: Key, attempt: nat, finishedAt: int)
        returns (stop: Option<Outcome>, lastErr: Reply, explicitRetryAfter: int)
      requires Valid()
      modifies breaker
      ensures Valid()
      ensures lastErr == w.reply(attempt)
      ensures stop.None? ==> lastErr.Some? && IsRetryable(key.verb, lastErr.value)
      ensures stop.None? ==>
                Wait(w, attempt) == if explicitRetryAfter <= 0 then w.backoff(attempt + 1) else explicitRetryAfter
      ensures stop.None? && Recording() ==> breaker.log == old(breaker.log) + w.others(attempt)
      ensures stop.Some? ==>
                && !TriesAgain(w, key.verb, maxRetries, attempt)
                && stop.value == Result(w, key.verb, maxRetries, attempt)
                && (Recording() ==>
                      breaker.log == old(breaker.log) + w.others(attempt)
                                     + [AfterCall(key, IsUpstreamFailure(w.reply(attempt)), finishedAt)])
      ensures breaker != null && !breaker.enabled ==> breaker.states == old(breaker.states)
    {
      hide Run;
      hide IsUpstreamFailure;
      hide IsRetryable;
      hide Breaker.Valid;
      stop, lastErr, explicitRetryAfter := None, w.reply(attempt), 0;
      Meanwhile(w.others(attempt));
      if lastErr == None {
        Record(key, None, finishedAt);
        return Some(Success), None, 0;
      }
      if !IsRetryable(key.verb, lastErr.value) {
        Record(key, lastErr, finishedAt);
        return Some(Failed(lastErr.value)), lastErr, 0;
      }
      if lastErr.value.direct && lastErr.value.api.Some? {
        explicitRetryAfter := lastErr.value.api.value.retryAfter;
      }
    }

    /** The retry loop of an admitted request. */
    method SendAttempts(w: World, key: Key, finishedAt: int) returns (out: Outcome, sent: nat)
      requires Valid()
      modifies breaker
      ensures Valid()
      ensures sent > 0 && LastAttempt(w, key.verb, maxRetries, sent - 1)
      ensures sent <= maxRetries + 1
      ensures out == Result(w, key.verb, maxRetries, sent - 1)
      ensures Recording() ==>
                breaker.log == old(breaker.log) + OthersDuring(w, sent)
                               + [AfterCall(key, IsUpstreamFailure(w.reply(sent - 1)), finishedAt)]
      ensures breaker != null && !breaker.enabled ==> breaker.states == old(breaker.states)
    {
      hide Run;
      hide IsUpstreamFailure;
      hide IsRetryable;
      hide Wait;
      hide Breaker.Valid;
      sent := 0;
      var lastErr: Reply := None;
      var explicitRetryAfter := 0;
      while sent <= maxRetries
        invariant Valid()
        invariant sent <= maxRetries + 1
        invariant Recording() ==> breaker.log == old(breaker.log) + OthersDuring(w, sent)
        invariant breaker != null && !breaker.enabled ==> breaker.states == old(breaker.states)
        invariant sent > 0 ==> lastErr == w.reply(sent - 1) && lastErr.Some? && IsRetryable(key.verb, lastErr.value)
        invariant sent > 0 ==>
                    Wait(w, sent - 1) == if explicitRetryAfter <= 0 then w.backoff(sent) else explicitRetryAfter
        invariant forall n: nat :: n < sent - 1 ==> TriesAgain(w, key.verb, maxRetries, n)
      {
        var stop: Option<Outcome> := None;
        if sent > 0 {
          stop := Pause(w, key, sent, lastErr.value, explicitRetryAfter, finishedAt);
          if stop.Some? {
            return stop.value, sent;
          }
        }
        stop, lastErr, explicitRetryAfter := Attempt(w, key, sent, finishedAt);
        sent := sent + 1;
        if stop.Some? {
          return stop.value, sent;
        }
      }
      Record(key, lastErr, finishedAt);
      out := Failed(lastErr.value);
    }

    /** A rejected request sends nothing and records nothing. An admitted one
        sends attempts 0 to `sent - 1` and makes exactly two calls on the breaker,
        whatever others do to it in between: the one that admits it, and one that
        records the class of the last attempt. */
    method DoRequestValues(w: World, key: Key, startedAt: int, finishedAt: int) returns (out: Outcome, sent: nat)
      requires Valid()
      modifies breaker
      ensures Valid()
      ensures out.Refused? <==>
              Recording() && VerdictOf(breaker.config, StateOf(old(breaker.states), key), startedAt).Rejected?
      ensures out.Refused? ==>
                && sent == 0
                && breaker.log == old(breaker.log) + [BeforeCall(key, startedAt)]
                && breaker.states == Run(breaker.config, old(breaker.states), [BeforeCall(key, startedAt)])
                && out.retryAfter == VerdictOf(breaker.config, StateOf(old(breaker.states), key), startedAt).retryAfter
      ensures !out.Refused? ==> sent > 0 && LastAttempt(w, key.verb, maxRetries, sent - 1)
      ensures !out.Refused? ==> out == Result(w, key.verb, maxRetries, sent - 1)
      ensures !out.Refused? && Recording() ==>
                && breaker.log == old(breaker.log) + Episode(w, key, startedAt, sent, finishedAt)
                && breaker.states == Run(breaker.config, old(breaker.states),
                                         Episode(w, key, startedAt, sent, finishedAt))
      ensures breaker != null && !breaker.enabled ==> breaker.states == old(breaker.states)
      ensures sent <= maxRetries + 1
      ensures !IsIdempotentMethod(key.verb) ==> sent <= 1
      ensures !Repeatable(key.verb) ==> sent <= 1
      ensures Spells(key.verb, "POST") || Spells(key.verb, "PATCH") || Spells(key.verb, "DELETE") || key.verb == "" ==>
                sent <= 1
    {
      RepeatableExactly(key.verb);
      if Spells(key.verb, "POST") || Spells(key.verb, "PATCH") || Spells(key.verb, "DELETE") || key.verb == "" {
        MutationsAreNotRepeatable(key.verb);
      }
      hide Spells;
      hide Repeatable;
      hide IsIdempotentMethod;
      ghost var log0 := if breaker == null then [] else breaker.log;
      if breaker != null {
        var v := breaker.Before(key, startedAt);
        if v.Rejected? {
          return Refused(v.retryAfter), 0;
        }
      }
      out, sent := SendAttempts(w, key, finishedAt);
      hide Run;
      hide IsUpstreamFailure;
      assert !out.Refused?;
      assert sent > 1 ==> TriesAgain(w, key.verb, maxRetries, 0);
      EpisodeComplete(w, key, startedAt, sent, finishedAt, log0);
    }

    lemma EpisodeComplete(w: World, key: Key, startedAt: int, sent: nat, finishedAt: int, log0: seq<Event>)
      requires sent > 0 && Valid()
      requires Recording() ==>
                 breaker.log == log0 + [BeforeCall(key, startedAt)] + OthersDuring(w, sent)
                                + [AfterCall(key, IsUpstreamFailure(w.reply(sent - 1)), finishedAt)]
      ensures Recording() ==> breaker.log == log0 + Episode(w, key, startedAt, sent, finishedAt)
      ensures Recording() ==>
                breaker.states == Run(breaker.config, Run(breaker.config, map[], log0),
                                      Episode(w, key, startedAt, sent, finishedAt))
    {
      if Recording() {
        var episode := Episode(w, key, startedAt, sent, finishedAt);
        assert breaker.log == log0 + episode;
        RunInParts(breaker.config, map[], log0, episode);
      }
    }
  }

  /** A reply that is neither a success nor counted against the endpoint. */
  ghost predicate IsExcused(r: Reply) {
    && r.Some?
    && var e := r.value;
       || e.cancelled
       || e.deadline
       || e.breakerOpen
       || (e.api.Some? && !(500 <= e.api.value.status <= 599))
       || (e.api.None? && !e.net)
  }

  /** The comment on the breaker has a tripped endpoint close on a successful
      probe. It closes on that and exactly on these replies besides. */
  lemma ReplyCloses(c: Config, h: seq<Event>, key: Key, reply: Reply, at: int)
    requires c.Valid() && !StateAfter(c, h, key).mode.Closed?
    ensures StateAfter(c, h + [AfterCall(key, IsUpstreamFailure(reply), at)], key).mode.Closed?
            <==> reply == None || IsExcused(reply)
  {
    OutcomeCloses(c, h, key, IsUpstreamFailure(reply), at);
    hide StateAfter;
  }

  /** A probe whose caller gives up closes the endpoint without any success. */
  lemma CancelledProbeCloses(c: Config, key: Key) returns (h: seq<Event>, reply: Reply)
    requires c.Valid() && c.threshold == 1
    ensures StateAfter(c, h, key).mode.HalfOpen? && reply.Some? && reply.value.cancelled
    ensures StateAfter(c, h + [AfterCall(key, IsUpstreamFailure(reply), c.openDuration)], key).mode.Closed?
  {
    var failure, probe := AfterCall(key, true, 0), BeforeCall(key, c.openDuration);
    RunOne(c, map[], [], failure);
    RunOne(c, map[], [failure], probe);
    h := [failure] + [probe];
    assert [] + [failure] == [failure];
    assert StateAfter(c, [failure], key) == Endpoint(Open, 0, 0, 0);
    assert StateAfter(c, h, key) == Endpoint(HalfOpen, 0, 0, 1);
    hide StateAfter;
    reply := Some(Failure(true, false, false, None, false, true));
    ReplyCloses(c, h, key, reply, c.openDuration);
  }
}
