/** The per-endpoint circuit breaker (internal/clockify/circuit_breaker.go).
    Times and durations are integers on one clock. */
module CircuitBreaker {
  import opened JsonValue

  datatype Mode = Closed | Open | HalfOpen

  datatype Endpoint = Endpoint(mode: Mode, failures: int, openedAt: int, halfOpenInFlight: int)

  datatype Key = Key(endpoint: string, verb: string)

  datatype Config = Config(threshold: int, openDuration: int, probes: int) {
    ghost predicate Valid() {
      threshold > 0 && openDuration > 0 && probes > 0
    }
  }

  datatype Verdict = Admitted | Rejected(retryAfter: int)

  const FRESH := Endpoint(Closed, 0, 0, 0)

  // ---------------------------------------------------------------------
  // One endpoint
  // ---------------------------------------------------------------------

  ghost function Enter(s: Endpoint, next: Mode, now: int): Endpoint {
    if s.mode == next then s
    else Endpoint(next, 0, if next.Open? then now else s.openedAt, if next.HalfOpen? then s.halfOpenInFlight else 0)
  }

  /** The state in which `Before` takes its decision. */
  ghost function Woken(c: Config, s: Endpoint, now: int): Endpoint {
    if s.mode.Open? && now - s.openedAt >= c.openDuration then Enter(s, HalfOpen, now) else s
  }

  ghost function VerdictOf(c: Config, s: Endpoint, now: int): Verdict {
    var w := Woken(c, s, now);
    match w.mode
    case Open => Rejected(c.openDuration - (now - s.openedAt))
    case HalfOpen => if w.halfOpenInFlight >= c.probes then Rejected(c.openDuration) else Admitted
    case Closed => Admitted
  }

  ghost function AfterBefore(c: Config, s: Endpoint, now: int): Endpoint {
    var w := Woken(c, s, now);
    if w.mode.HalfOpen? && w.halfOpenInFlight < c.probes then w.(halfOpenInFlight := w.halfOpenInFlight + 1) else w
  }

  ghost function AfterOutcome(c: Config, s: Endpoint, failed: bool, now: int): Endpoint {
    var s := if s.mode.HalfOpen? && s.halfOpenInFlight > 0 then s.(halfOpenInFlight := s.halfOpenInFlight - 1) else s;
    if !failed then Enter(s.(failures := 0), Closed, now)
    else match s.mode
      case HalfOpen => Enter(s, Open, now)
      case Open => s.(openedAt := now)
      case Closed =>
        var s := s.(failures := s.failures + 1);
        if s.failures >= c.threshold then Enter(s, Open, now) else s
  }

  // ---------------------------------------------------------------------
  // Many endpoints: events and runs
  // ---------------------------------------------------------------------

  datatype Event =
    | BeforeCall(key: Key, at: int)
    | AfterCall(key: Key, failed: bool, at: int)

  type States = map<Key, Endpoint>

  ghost function StateOf(states: States, key: Key): Endpoint {
    if key in states then states[key] else FRESH
  }

  ghost function Next(c: Config, s: Endpoint, e: Event): Endpoint {
    match e
    case BeforeCall(_, at) => AfterBefore(c, s, at)
    case AfterCall(_, failed, at) => AfterOutcome(c, s, failed, at)
  }

  ghost function Step(c: Config, states: States, e: Event): States {
    states[e.key := Next(c, StateOf(states, e.key), e)]
  }

  ghost function Run(c: Config, states: States, h: seq<Event>): States {
    if h == [] then states else Step(c, Run(c, states, h[..|h| - 1]), h[|h| - 1])
  }

  lemma {:induction false} RunInParts(c: Config, states: States, a: seq<Event>, b: seq<Event>)
    ensures Run(c, states, a + b) == Run(c, Run(c, states, a), b)
    decreases |b|
  {
    if b == [] {
      assert a + b == a;
    } else {
      RunInParts(c, states, a, b[..|b| - 1]);
      assert (a + b)[..|a + b| - 1] == a + b[..|b| - 1];
    }
  }

  lemma RunOne(c: Config, states: States, h: seq<Event>, e: Event)
    ensures Run(c, states, h + [e]) == Step(c, Run(c, states, h), e)
    ensures Run(c, states, [e]) == Step(c, states, e)
  {
    assert (h + [e])[..|h|] == h;
    assert [e][..0] == [];
  }

  /** A breaker object; a disabled one lets everything pass and records nothing.
      `log` lists the calls made on it, and the stored states are what the log
      leads to. */
  class Breaker {
    const enabled: bool
    const config: Config
    var states: States
    ghost var log: seq<Event>

    ghost predicate Valid()
      reads this
    {
      config.Valid() && states == Run(config, map[], log) && (!enabled ==> log == [])
    }

    constructor (enabled: bool, threshold: int, openDuration: int, probes: int)
      ensures this.enabled == enabled && states == map[] && config.Valid()
      ensures Valid() && log == []
      ensures threshold > 0 ==> config.threshold == threshold
      ensures openDuration > 0 ==> config.openDuration == openDuration
      ensures probes > 0 ==> config.probes == probes
      ensures threshold <= 0 ==> config.threshold == 5
      ensures openDuration <= 0 ==> config.openDuration == 45_000_000_000
      ensures probes <= 0 ==> config.probes == 1
    {
      this.enabled := enabled;
      config := Config(
        if threshold <= 0 then 5 else threshold,
        if openDuration <= 0 then 45_000_000_000 else openDuration,
        if probes <= 0 then 1 else probes);
      states := map[];
      log := [];
    }

    method Ensure(key: Key) returns (s: Endpoint)
      modifies `states
      ensures s == StateOf(old(states), key)
      ensures states == old(states)[key := s]
    {
      if key in states {
        return states[key];
      }
      s := FRESH;
      states := states[key := s];
    }

    method Transition(key: Key, next: Mode, now: int)
      requires key in states
      modifies `states
      ensures states == old(states)[key := Enter(old(states)[key], next, now)]
    {
      var s := states[key];
      if s.mode == next {
        return;
      }
      s := s.(mode := next, failures := 0);
      if next == Open {
        s := s.(openedAt := now);
      }
      if next != HalfOpen {
        s := s.(halfOpenInFlight := 0);
      }
      states := states[key := s];
    }

    method Before(key: Key, now: int) returns (v: Verdict)
      requires Valid()
      modifies this
      ensures Valid() && log == old(log) + if enabled then [BeforeCall(key, now)] else []
      ensures !enabled ==> states == old(states) && v == Admitted
      ensures enabled ==> states == Run(config, old(states), [BeforeCall(key, now)])
      ensures enabled ==> v == VerdictOf(config, StateOf(old(states), key), now)
    {
      if !enabled {
        return Admitted;
      }
      RunOne(config, map[], log, BeforeCall(key, now));
      RunOne(config, states, [], BeforeCall(key, now));
      hide Run;
      log := log + [BeforeCall(key, now)];
      v := Admit(key, now);
    }

    /** The verdict, and what asking does to the stored states. */
    method Admit(key: Key, now: int) returns (v: Verdict)
      modifies `states
      ensures states == Step(config, old(states), BeforeCall(key, now))
      ensures v == VerdictOf(config, StateOf(old(states), key), now)
    {
      var s := Ensure(key);
      if s.mode == Open {
        var elapsed := now - s.openedAt;
        if elapsed < config.openDuration {
          return Rejected(config.openDuration - elapsed);
        }
        Transition(key, HalfOpen, now);
        s := states[key];
      }
      if s.mode == HalfOpen {
        if s.halfOpenInFlight >= config.probes {
          return Rejected(config.openDuration);
        }
        states := states[key := s.(halfOpenInFlight := s.halfOpenInFlight + 1)];
      }
      v := Admitted;
    }

    method After(key: Key, failed: bool, now: int)
      requires Valid()
      modifies this
      ensures Valid() && log == old(log) + if enabled then [AfterCall(key, failed, now)] else []
      ensures !enabled ==> states == old(states)
      ensures enabled ==> states == Run(config, old(states), [AfterCall(key, failed, now)])
    {
      if !enabled {
        return;
      }
      RunOne(config, map[], log, AfterCall(key, failed, now));
      RunOne(config, states, [], AfterCall(key, failed, now));
      hide Run;
      log := log + [AfterCall(key, failed, now)];
      Settle(key, failed, now);
    }

    /** What an outcome does to the stored states. */
    method Settle(key: Key, failed: bool, now: int)
      modifies `states
      ensures states == Step(config, old(states), AfterCall(key, failed, now))
    {
      var s := Ensure(key);
      if s.mode == HalfOpen && s.halfOpenInFlight > 0 {
        s := s.(halfOpenInFlight := s.halfOpenInFlight - 1);
        states := states[key := s];
      }
      if !failed {
        s := s.(failures := 0);
        states := states[key := s];
        if s.mode != Closed {
          Transition(key, Closed, now);
        }
        return;
      }
      match s.mode {
        case HalfOpen =>
          Transition(key, Open, now);
        case Open =>
          states := states[key := s.(openedAt := now)];
        case Closed =>
          s := s.(failures := s.failures + 1);
          states := states[key := s];
          if s.failures >= config.threshold {
            Transition(key, Open, now);
          }
      }
    }
  }

  /** The events of one key, in order. */
  ghost function Own(h: seq<Event>, key: Key): seq<Event> {
    if h == [] then [] else
      var before := Own(h[..|h| - 1], key);
      if h[|h| - 1].key == key then before + [h[|h| - 1]] else before
  }

  ghost function Fold(c: Config, h: seq<Event>): Endpoint {
    if h == [] then FRESH else Next(c, Fold(c, h[..|h| - 1]), h[|h| - 1])
  }

  /** Interleaving does not matter: a key's state is the fold of its own events. */
  lemma {:induction false} KeysAreIndependent(c: Config, h: seq<Event>, key: Key)
    ensures StateOf(Run(c, map[], h), key) == Fold(c, Own(h, key))
  {
    if h != [] {
      KeysAreIndependent(c, h[..|h| - 1], key);
      var before := Own(h[..|h| - 1], key);
      assert (before + [h[|h| - 1]])[..|before|] == before;
    }
  }

  // ---------------------------------------------------------------------
  // The state, read off the history alone
  // ---------------------------------------------------------------------

  /** The failures recorded since the last non-failure. */
  ghost function FailureRun(h: seq<Event>): nat {
    if h == [] then 0 else
      var before := FailureRun(h[..|h| - 1]);
      match h[|h| - 1]
      case BeforeCall(_, _) => before
      case AfterCall(_, failed, _) => if failed then before + 1 else 0
  }

  /** The time of the latest failure in that run. */
  ghost function LastFailure(h: seq<Event>): int
    requires FailureRun(h) > 0
  {
    var last := h[|h| - 1];
    if last.AfterCall? then last.at else LastFailure(h[..|h| - 1])
  }

  /** The times at which `Before` was called since the last recorded outcome. */
  ghost function Asked(h: seq<Event>): seq<int> {
    if h == [] then [] else
      match h[|h| - 1]
      case BeforeCall(_, at) => Asked(h[..|h| - 1]) + [at]
      case AfterCall(_, _, _) => []
  }

  /** How many of `times` count from the first one that is not before `due`. */
  ghost function FromDue(times: seq<int>, due: int): nat {
    if times == [] then 0 else
      var before := FromDue(times[..|times| - 1], due);
      if before > 0 || times[|times| - 1] >= due then before + 1 else 0
  }

  /** What the history `h` of one key says its state must be. */
  ghost predicate Explains(c: Config, h: seq<Event>, s: Endpoint)
    requires c.Valid()
  {
    if FailureRun(h) < c.threshold then
      s.mode == Closed && s.failures == FailureRun(h) && s.halfOpenInFlight == 0
    else
      var probing := FromDue(Asked(h), LastFailure(h) + c.openDuration);
      && s.openedAt == LastFailure(h)
      && s.failures == 0
      && s.mode == (if probing == 0 then Open else HalfOpen)
      && s.halfOpenInFlight == Min(probing, c.probes)
  }

  lemma {:induction false} HistoryExplainsState(c: Config, h: seq<Event>)
    requires c.Valid()
    ensures Explains(c, h, Fold(c, h))
  {
    if h != [] {
      var before := h[..|h| - 1];
      HistoryExplainsState(c, before);
      if h[|h| - 1].BeforeCall? && FailureRun(h) >= c.threshold {
        assert Asked(h)[..|Asked(before)|] == Asked(before);
      }
    }
  }

  /** Every interleaving over many keys: the stored state of each key is the one
      its own history explains. */
  lemma {:induction false} EveryKeyExplained(c: Config, h: seq<Event>, key: Key)
    requires c.Valid()
    ensures Explains(c, Own(h, key), StateOf(Run(c, map[], h), key))
  {
    KeysAreIndependent(c, h, key);
    HistoryExplainsState(c, Own(h, key));
  }

  // ---------------------------------------------------------------------
  // Admission
  // ---------------------------------------------------------------------

  ghost predicate Monotone(h: seq<Event>) {
    forall i, j :: 0 <= i < j < |h| ==> h[i].at <= h[j].at
  }

  lemma {:induction false} OwnInParts(a: seq<Event>, b: seq<Event>, key: Key)
    ensures Own(a + b, key) == Own(a, key) + Own(b, key)
    decreases |b|
  {
    if b == [] {
      assert a + b == a;
    } else {
      OwnInParts(a, b[..|b| - 1], key);
      assert (a + b)[..|a + b| - 1] == a + b[..|b| - 1];
    }
  }

  lemma OwnOne(e: Event, key: Key)
    ensures Own([e], key) == if e.key == key then [e] else []
  {
    assert [e][..0] == [];
  }

  lemma {:induction false} OwnIsPart(h: seq<Event>, key: Key)
    ensures forall e :: e in Own(h, key) <==> e in h && e.key == key
  {
    if h != [] {
      OwnIsPart(h[..|h| - 1], key);
      assert h == h[..|h| - 1] + [h[|h| - 1]];
    }
  }

  lemma {:induction false} OwnKeepsOrder(h: seq<Event>, key: Key)
    requires Monotone(h)
    ensures Monotone(Own(h, key))
  {
    if h != [] {
      OwnKeepsOrder(h[..|h| - 1], key);
      OwnIsPart(h[..|h| - 1], key);
    }
  }

  ghost function StateAfter(c: Config, h: seq<Event>, key: Key): Endpoint {
    StateOf(Run(c, map[], h), key)
  }

  lemma {:induction false} DueTimeSeen(times: seq<int>, due: int, now: int)
    requires FromDue(times, due) > 0
    requires forall i :: 0 <= i < |times| ==> times[i] <= now
    ensures due <= now
  {
    var before := times[..|times| - 1];
    if FromDue(before, due) > 0 {
      DueTimeSeen(before, due, now);
    }
  }

  lemma {:induction false} AskedNoLaterThan(h: seq<Event>, now: int)
    requires forall i :: 0 <= i < |h| ==> h[i].at <= now
    ensures forall i :: 0 <= i < |Asked(h)| ==> Asked(h)[i] <= now
  {
    if h != [] {
      AskedNoLaterThan(h[..|h| - 1], now);
    }
  }

  lemma {:induction false} FailuresKeepRunning(pre: seq<Event>, post: seq<Event>)
    requires forall e :: e in post && e.AfterCall? ==> e.failed
    ensures FailureRun(pre + post) >= FailureRun(pre)
    decreases |post|
  {
    if post == [] {
      assert pre + post == pre;
    } else {
      var last := |post| - 1;
      FailuresKeepRunning(pre, post[..last]);
      assert (pre + post)[..|pre + post| - 1] == pre + post[..last];
    }
  }

  lemma {:induction false} LastFailureAfter(pre: seq<Event>, failure: Event, post: seq<Event>)
    requires failure.AfterCall? && failure.failed && forall e :: e in post ==> e.at >= failure.at
    ensures var h := pre + [failure] + post;
            FailureRun(h) > 0 ==> LastFailure(h) >= failure.at
    decreases |post|
  {
    var h := pre + [failure] + post;
    if post == [] {
      assert h[..|h| - 1] == pre;
    } else {
      var before := post[..|post| - 1];
      LastFailureAfter(pre, failure, before);
      assert h[..|h| - 1] == pre + [failure] + before;
    }
  }

  lemma EarlyAdmissionAtOneEndpoint(c: Config, pre: seq<Event>, failure: Event, post: seq<Event>, ask: Event)
    requires c.Valid()
    requires failure.AfterCall? && failure.failed && ask.BeforeCall?
    requires Monotone(pre + [failure] + post + [ask])
    requires ask.at - failure.at < c.openDuration
    ensures var h := pre + [failure] + post;
            VerdictOf(c, Fold(c, h), ask.at) == Admitted <==> FailureRun(h) < c.threshold
  {
    var h := pre + [failure] + post;
    var all := h + [ask];
    forall e | e in post
      ensures e.at >= failure.at
    {
      var i :| 0 <= i < |post| && post[i] == e;
      assert all[|pre|] == failure && all[|pre| + 1 + i] == e;
    }
    forall i | 0 <= i < |h|
      ensures h[i].at <= ask.at
    {
      assert all[i] == h[i] && all[|h|] == ask;
    }
    HistoryExplainsState(c, h);
    LastFailureAfter(pre, failure, post);
    AskedNoLaterThan(h, ask.at);
    if Fold(c, h).mode == HalfOpen {
      DueTimeSeen(Asked(h), LastFailure(h) + c.openDuration, ask.at);
      assert false;
    }
  }

  /** Within the open duration of a failure a request is admitted if and only if
      fewer failures than the threshold have been recorded there since the last
      non-failure, whatever happens at other endpoints. So when the failure left
      the endpoint Open, the only way in is a late non-failure. */
  lemma {:induction false} EarlyAdmissionExactly(
      c: Config, pre: seq<Event>, failure: Event, post: seq<Event>, ask: Event)
    requires c.Valid()
    requires failure.AfterCall? && failure.failed && ask.BeforeCall? && ask.key == failure.key
    requires Monotone(pre + [failure] + post + [ask])
    requires ask.at - failure.at < c.openDuration
    ensures var h := pre + [failure] + post;
            VerdictOf(c, StateAfter(c, h, ask.key), ask.at) == Admitted <==> FailureRun(Own(h, ask.key)) < c.threshold
  {
    var key := failure.key;
    KeysAreIndependent(c, pre + [failure] + post, key);
    OwnInParts(pre, [failure], key);
    OwnInParts(pre + [failure], post, key);
    OwnInParts(pre + [failure] + post, [ask], key);
    OwnOne(failure, key);
    OwnOne(ask, key);
    OwnKeepsOrder(pre + [failure] + post + [ask], key);
    EarlyAdmissionAtOneEndpoint(c, Own(pre, key), failure, Own(post, key), ask);
  }

  /** Once a failure has left an endpoint Open, nothing is admitted there within
      the open duration unless a non-failure was recorded there in between,
      whatever happens at other endpoints. */
  lemma {:induction false} NoEarlyAdmission(c: Config, pre: seq<Event>, failure: Event, post: seq<Event>, ask: Event)
    requires c.Valid()
    requires failure.AfterCall? && failure.failed && ask.BeforeCall? && ask.key == failure.key
    requires StateAfter(c, pre + [failure], failure.key).mode == Open
    requires forall e :: e in post && e.AfterCall? && e.key == failure.key ==> e.failed
    requires Monotone(pre + [failure] + post + [ask])
    requires VerdictOf(c, StateAfter(c, pre + [failure] + post, ask.key), ask.at) == Admitted
    ensures ask.at - failure.at >= c.openDuration
  {
    var key := failure.key;
    if ask.at - failure.at < c.openDuration {
      EarlyAdmissionExactly(c, pre, failure, post, ask);
      EveryKeyExplained(c, pre + [failure], key);
      OwnInParts(pre + [failure], post, key);
      OwnIsPart(post, key);
      FailuresKeepRunning(Own(pre + [failure], key), Own(post, key));
      assert false;
    }
  }

  /** The failing input: the outcome of a slow request, successful or not the
      endpoint's fault, arrives one tick after the failure that opened the endpoint
      and lets the next request through at once. */
  lemma LateNonFailureReadmits(c: Config, key: Key)
    requires c.Valid() && c.threshold == 1 && c.openDuration > 2
    ensures StateAfter(c, [AfterCall(key, true, 0)], key).mode == Open
    ensures VerdictOf(c, StateAfter(c, [AfterCall(key, true, 0)], key), 2).Rejected?
    ensures VerdictOf(c, StateAfter(c, [AfterCall(key, true, 0), AfterCall(key, false, 1)], key), 2) == Admitted
  {
    RunOne(c, map[], [], AfterCall(key, true, 0));
    RunOne(c, map[], [AfterCall(key, true, 0)], AfterCall(key, false, 1));
    assert [AfterCall(key, true, 0)] + [AfterCall(key, false, 1)]
        == [AfterCall(key, true, 0), AfterCall(key, false, 1)];
  }

  /** The outcome of one request closes a tripped endpoint, probing or not, if and
      only if it is not a failure. */
  lemma OutcomeCloses(c: Config, h: seq<Event>, key: Key, failed: bool, at: int)
    requires c.Valid() && !StateAfter(c, h, key).mode.Closed?
    ensures StateAfter(c, h + [AfterCall(key, failed, at)], key).mode.Closed? <==> !failed
  {
    RunOne(c, map[], h, AfterCall(key, failed, at));
    hide Run;
  }

  /** How many calls for `key` are admitted during `later`, after `h`. */
  ghost function Admissions(c: Config, h: seq<Event>, later: seq<Event>, key: Key): nat
    decreases |later|
  {
    if later == [] then 0 else
      var before, last := later[..|later| - 1], later[|later| - 1];
      var admitted :=
        && last.BeforeCall? && last.key == key
        && VerdictOf(c, StateAfter(c, h + before, key), last.at) == Admitted;
      Admissions(c, h, before, key) + if admitted then 1 else 0
  }

  /** In a tripped endpoint every admission until the next outcome is in flight. */
  lemma {:induction false} AdmissionsAreInFlight(c: Config, h: seq<Event>, later: seq<Event>, key: Key)
    requires c.Valid() && !StateAfter(c, h, key).mode.Closed?
    requires forall e :: e in later && e.AfterCall? ==> e.key != key
    ensures var s := StateAfter(c, h + later, key);
            && !s.mode.Closed?
            && Admissions(c, h, later, key) + StateAfter(c, h, key).halfOpenInFlight == s.halfOpenInFlight
    decreases |later|
  {
    if later == [] {
      assert h + later == h;
    } else {
      var before, last := later[..|later| - 1], later[|later| - 1];
      AdmissionsAreInFlight(c, h, before, key);
      EveryKeyExplained(c, h + before, key);
      RunOne(c, map[], h + before, last);
      assert h + later == h + before + [last];
    }
  }

  /** After any history that has tripped an endpoint, the calls made there before
      its next outcome (an outcome ends a half-open episode) are admitted at most
      `probes` times, the admissions already in flight included, whatever happens
      at other endpoints. */
  lemma {:induction false} EpisodeBound(c: Config, h: seq<Event>, later: seq<Event>, key: Key)
    requires c.Valid() && !StateAfter(c, h, key).mode.Closed?
    requires forall e :: e in later && e.AfterCall? ==> e.key != key
    ensures Admissions(c, h, later, key) + StateAfter(c, h, key).halfOpenInFlight <= c.probes
  {
    AdmissionsAreInFlight(c, h, later, key);
    EveryKeyExplained(c, h + later, key);
  }

  lemma {:induction false} LastFailureSeen(h: seq<Event>, now: int)
    requires FailureRun(h) > 0 && forall i :: 0 <= i < |h| ==> h[i].at <= now
    ensures LastFailure(h) <= now
  {
    if h[|h| - 1].BeforeCall? {
      LastFailureSeen(h[..|h| - 1], now);
    }
  }

  lemma {:induction false} OthersChangeNothing(c: Config, h: seq<Event>, others: seq<Event>, key: Key)
    requires forall e :: e in others ==> e.key != key
    ensures StateAfter(c, h + others, key) == StateAfter(c, h, key)
    decreases |others|
  {
    if others == [] {
      assert h + others == h;
    } else {
      var before := others[..|others| - 1];
      OthersChangeNothing(c, h, before, key);
      RunOne(c, map[], h + before, others[|others| - 1]);
      assert h + others == h + before + [others[|others| - 1]];
    }
  }

  /** After any history, a rejection by an Open endpoint names the least wait
      after which the next request there is let through, whatever happens at
      other endpoints meanwhile. */
  lemma {:induction false} RetryAfterIsExact(c: Config, h: seq<Event>, key: Key, now: int, others: seq<Event>)
    requires c.Valid() && (forall i :: 0 <= i < |h| ==> h[i].at <= now)
    requires StateAfter(c, h, key).mode.Open? && VerdictOf(c, StateAfter(c, h, key), now).Rejected?
    requires forall e :: e in others ==> e.key != key
    ensures var wait := VerdictOf(c, StateAfter(c, h, key), now).retryAfter;
            var next := StateAfter(c, h + [BeforeCall(key, now)] + others, key);
            && 0 < wait <= c.openDuration
            && VerdictOf(c, next, now + wait) == Admitted
            && forall t :: now <= t < now + wait ==> VerdictOf(c, next, t).Rejected?
  {
    EveryKeyExplained(c, h, key);
    OwnIsPart(h, key);
    assert forall e :: e in Own(h, key) ==> e.at <= now;
    LastFailureSeen(Own(h, key), now);
    RunOne(c, map[], h, BeforeCall(key, now));
    OthersChangeNothing(c, h + [BeforeCall(key, now)], others, key);
  }

  /** For every rejection the wait is in (0, openDuration], but waiting that long
      helps if and only if the endpoint was Open: a half-open endpoint with all its
      probes out names a wait too, and stays saturated until an outcome arrives. */
  lemma {:induction false} RetryAfterHelpsExactly(c: Config, h: seq<Event>, key: Key, now: int, others: seq<Event>)
    requires c.Valid() && (forall i :: 0 <= i < |h| ==> h[i].at <= now)
    requires VerdictOf(c, StateAfter(c, h, key), now).Rejected?
    requires forall e :: e in others ==> e.key != key
    ensures var wait := VerdictOf(c, StateAfter(c, h, key), now).retryAfter;
            var next := StateAfter(c, h + [BeforeCall(key, now)] + others, key);
            && 0 < wait <= c.openDuration
            && (!StateAfter(c, h, key).mode.Open? ==> wait == c.openDuration)
            && (VerdictOf(c, next, now + wait) == Admitted <==> StateAfter(c, h, key).mode.Open?)
            && (!StateAfter(c, h, key).mode.Open? ==> forall t :: VerdictOf(c, next, t).Rejected?)
  {
    if StateAfter(c, h, key).mode.Open? {
      RetryAfterIsExact(c, h, key, now, others);
    } else {
      RunOne(c, map[], h, BeforeCall(key, now));
      OthersChangeNothing(c, h + [BeforeCall(key, now)], others, key);
    }
  }

  /** Every verdict, read off the history of the endpoint alone. Below the threshold
      of failures in a row everything is admitted. From there on nothing is before
      the open duration since the latest failure has passed, and the rejection names
      what is left of it; then `probes` requests are, until an outcome arrives, and
      the others are told to wait the whole duration. */
  lemma {:induction false} VerdictExactly(c: Config, h: seq<Event>, key: Key, now: int)
    requires c.Valid() && forall i :: 0 <= i < |h| ==> h[i].at <= now
    ensures var own := Own(h, key);
            VerdictOf(c, StateAfter(c, h, key), now) ==
            if FailureRun(own) < c.threshold then Admitted
            else
              var due := LastFailure(own) + c.openDuration;
              if now < due then Rejected(due - now)
              else if FromDue(Asked(own), due) < c.probes then Admitted
              else Rejected(c.openDuration)
  {
    var own := Own(h, key);
    EveryKeyExplained(c, h, key);
    OwnIsPart(h, key);
    forall i | 0 <= i < |own|
      ensures own[i].at <= now
    {
      assert own[i] in own;
    }
    AskedNoLaterThan(own, now);
    if FailureRun(own) >= c.threshold {
      var due := LastFailure(own) + c.openDuration;
      if FromDue(Asked(own), due) > 0 {
        DueTimeSeen(Asked(own), due, now);
      }
    }
  }

  /** Such an endpoint can be reached: its only probe is out and never reports. */
  lemma SaturatedProbe(c: Config, key: Key)
    requires c.Valid() && c.threshold == 1 && c.probes == 1
    ensures var h := [AfterCall(key, true, 0), BeforeCall(key, c.openDuration)];
            && StateAfter(c, h, key).mode.HalfOpen?
            && VerdictOf(c, StateAfter(c, h, key), c.openDuration).Rejected?
  {
    RunOne(c, map[], [], AfterCall(key, true, 0));
    RunOne(c, map[], [AfterCall(key, true, 0)], BeforeCall(key, c.openDuration));
    assert [AfterCall(key, true, 0)] + [BeforeCall(key, c.openDuration)]
        == [AfterCall(key, true, 0), BeforeCall(key, c.openDuration)];
  }
}
