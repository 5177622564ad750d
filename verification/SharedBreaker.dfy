/** Many requests on one breaker, each taking the steps of the retry loop at any
    time (internal/clockify/client.go, internal/clockify/circuit_breaker.go). */
module SharedBreaker {
  import opened JsonValue
  import opened CircuitBreaker
  import opened UpstreamClient

  /** A request that was admitted and has sent `sent` attempts, the last of which
      returned `last`. */
  datatype Request = Request(key: Key, sent: nat, last: Reply)

  datatype Entry =
    | Started(request: nat, key: Key, verdict: Verdict, at: int)
    | Sent(request: nat, reply: Reply)
    | Recorded(request: nat, key: Key, failed: bool, at: int)

  datatype State = State(states: States, active: map<nat, Request>, seen: set<nat>, log: seq<Entry>)

  datatype Action =
    | Ask(request: nat, key: Key, at: int)
    | Send(request: nat, reply: Reply)
    | Finish(request: nat, at: int)          // success, an error, a deadline or an interrupted wait

  /** The loop goes on to the next attempt only after a retryable failure. */
  ghost predicate MaySend(maxRetries: nat, q: Request) {
    q.sent == 0 || (q.sent <= maxRetries && q.last.Some? && IsRetryable(q.key.verb, q.last.value))
  }

  ghost predicate Enabled(maxRetries: nat, s: State, a: Action) {
    match a
    case Ask(r, _, _) => r !in s.seen
    case Send(r, _) => r in s.active && MaySend(maxRetries, s.active[r])
    case Finish(r, _) => r in s.active && s.active[r].sent > 0
  }

  ghost function Do(c: Config, maxRetries: nat, s: State, a: Action): State
    requires Enabled(maxRetries, s, a)
  {
    match a
    case Ask(r, key, at) =>
      var verdict := VerdictOf(c, StateOf(s.states, key), at);
      State(Step(c, s.states, BeforeCall(key, at)),
            if verdict == Admitted then s.active[r := Request(key, 0, None)] else s.active,
            s.seen + {r},
            s.log + [Started(r, key, verdict, at)])
    case Send(r, reply) =>
      s.(active := s.active[r := Request(s.active[r].key, s.active[r].sent + 1, reply)],
         log := s.log + [Sent(r, reply)])
    case Finish(r, at) =>
      var q := s.active[r];
      State(Step(c, s.states, AfterCall(q.key, IsUpstreamFailure(q.last), at)),
            s.active - {r},
            s.seen,
            s.log + [Recorded(r, q.key, IsUpstreamFailure(q.last), at)])
  }

  ghost function RunOf(c: Config, maxRetries: nat, run: seq<Action>): Option<State> {
    if run == [] then Some(State(map[], map[], {}, [])) else
      var before, last := RunOf(c, maxRetries, run[..|run| - 1]), run[|run| - 1];
      if before.Some? && Enabled(maxRetries, before.value, last)
      then Some(Do(c, maxRetries, before.value, last))
      else None
  }

  ghost function CallOf(e: Entry): seq<Event> {
    match e
    case Started(_, key, _, at) => [BeforeCall(key, at)]
    case Recorded(_, key, failed, at) => [AfterCall(key, failed, at)]
    case Sent(_, _) => []
  }

  /** What the breaker was called with. */
  ghost function Calls(log: seq<Entry>): seq<Event> {
    if log == [] then [] else Calls(log[..|log| - 1]) + CallOf(log[|log| - 1])
  }

  /** What one request did. */
  ghost function Life(log: seq<Entry>, r: nat): seq<Entry> {
    if log == [] then [] else
      var before := Life(log[..|log| - 1], r);
      if log[|log| - 1].request == r then before + [log[|log| - 1]] else before
  }

  ghost predicate IsRefused(life: seq<Entry>) {
    |life| == 1 && life[0].Started? && life[0].verdict.Rejected?
  }

  /** Admitted, then one or more attempts (each but the last a retryable failure)
      and no more than the budget allows; nothing recorded yet. */
  ghost predicate IsSending(maxRetries: nat, life: seq<Entry>) {
    && 1 <= |life| <= maxRetries + 2
    && life[0].Started? && life[0].verdict == Admitted
    && (forall i :: 1 <= i < |life| ==> life[i].Sent?)
    && (forall i :: 1 <= i < |life| - 1 ==> life[i].reply.Some? && IsRetryable(life[0].key.verb, life[i].reply.value))
  }

  /** The same, with at least one attempt, and then the only record: the class of
      the last attempt, for the key that was asked about. */
  ghost predicate IsFinished(maxRetries: nat, life: seq<Entry>) {
    var n := |life| - 1;
    && n >= 2
    && IsSending(maxRetries, life[..n])
    && life[n].Recorded? && life[n].key == life[0].key
    && life[n].failed == IsUpstreamFailure(life[n - 1].reply)
  }

  ghost predicate RequestIsRight(maxRetries: nat, s: State, r: nat) {
    var life := Life(s.log, r);
    if r !in s.seen then r !in s.active && life == []
    else if r in s.active then
      && IsSending(maxRetries, life)
      && s.active[r].key == life[0].key && s.active[r].sent == |life| - 1
      && (|life| > 1 ==> s.active[r].last == life[|life| - 1].reply)
    else IsRefused(life) || IsFinished(maxRetries, life)
  }

  lemma LifeAppend(log: seq<Entry>, e: Entry, r: nat)
    ensures Life(log + [e], r) == if e.request == r then Life(log, r) + [e] else Life(log, r)
  {
    assert (log + [e])[..|log|] == log;
  }

  lemma CallsAppend(log: seq<Entry>, e: Entry)
    ensures Calls(log + [e]) == Calls(log) + CallOf(e)
  {
    assert (log + [e])[..|log|] == log;
  }

  lemma SendingGrows(maxRetries: nat, life: seq<Entry>, q: Request, e: Entry)
    requires IsSending(maxRetries, life) && q.key == life[0].key && q.sent == |life| - 1
    requires |life| > 1 ==> q.last == life[|life| - 1].reply
    requires e.Sent? && MaySend(maxRetries, q)
    ensures IsSending(maxRetries, life + [e])
  {
    hide IsRetryable;
  }

  lemma OtherActionKeepsRequest(c: Config, maxRetries: nat, s: State, a: Action, r: nat)
    requires Enabled(maxRetries, s, a) && RequestIsRight(maxRetries, s, r) && a.request != r
    ensures RequestIsRight(maxRetries, Do(c, maxRetries, s, a), r)
  {
    LifeAppend(s.log, Do(c, maxRetries, s, a).log[|s.log|], r);
    hide Life;
    hide Step;
    hide VerdictOf;
    hide IsSending;
    hide IsFinished;
    hide IsRefused;
  }

  lemma AskKeepsRequest(c: Config, maxRetries: nat, s: State, r: nat, key: Key, at: int)
    requires Enabled(maxRetries, s, Ask(r, key, at)) && RequestIsRight(maxRetries, s, r)
    ensures RequestIsRight(maxRetries, Do(c, maxRetries, s, Ask(r, key, at)), r)
  {
    var verdict := VerdictOf(c, StateOf(s.states, key), at);
    hide Step;
    hide VerdictOf;
    hide StateOf;
    var asked := Started(r, key, verdict, at);
    LifeAppend(s.log, asked, r);
    hide Life;
    assert Life(s.log + [asked], r) == [asked];
    if verdict == Admitted {
      assert IsSending(maxRetries, [asked]);
    } else {
      assert IsRefused([asked]);
    }
    hide IsSending;
    hide IsFinished;
    hide IsRefused;
  }

  lemma SendKeepsRequest(c: Config, maxRetries: nat, s: State, r: nat, reply: Reply)
    requires Enabled(maxRetries, s, Send(r, reply)) && RequestIsRight(maxRetries, s, r)
    ensures RequestIsRight(maxRetries, Do(c, maxRetries, s, Send(r, reply)), r)
  {
    LifeAppend(s.log, Sent(r, reply), r);
    hide Life;
    SendingGrows(maxRetries, Life(s.log, r), s.active[r], Sent(r, reply));
    hide IsSending;
  }

  lemma FinishKeepsRequest(c: Config, maxRetries: nat, s: State, r: nat, at: int)
    requires Enabled(maxRetries, s, Finish(r, at)) && RequestIsRight(maxRetries, s, r)
    ensures RequestIsRight(maxRetries, Do(c, maxRetries, s, Finish(r, at)), r)
  {
    hide Step;
    hide IsUpstreamFailure;
    var life, e := Life(s.log, r), Do(c, maxRetries, s, Finish(r, at)).log[|s.log|];
    LifeAppend(s.log, e, r);
    hide Life;
    assert (life + [e])[..|life|] == life;
    assert IsFinished(maxRetries, life + [e]);
  }

  lemma ActionKeepsRequest(c: Config, maxRetries: nat, s: State, a: Action, r: nat)
    requires Enabled(maxRetries, s, a) && RequestIsRight(maxRetries, s, r)
    ensures RequestIsRight(maxRetries, Do(c, maxRetries, s, a), r)
  {
    hide RequestIsRight;
    hide Do;
    if a.request != r {
      OtherActionKeepsRequest(c, maxRetries, s, a, r);
    } else {
      match a
      case Ask(_, key, at) => AskKeepsRequest(c, maxRetries, s, r, key, at);
      case Send(_, reply) => SendKeepsRequest(c, maxRetries, s, r, reply);
      case Finish(_, at) => FinishKeepsRequest(c, maxRetries, s, r, at);
    }
  }

  /** In every interleaving each request has been refused and has recorded
      nothing, or is under way and has recorded nothing yet, or has recorded one
      outcome: the class of its last attempt, after all its attempts. It never
      sends more than `maxRetries + 1` attempts. The breaker's state is the one
      that the calls made on it lead to. */
  lemma {:induction false} EveryRunReportsOnce(c: Config, maxRetries: nat, run: seq<Action>, r: nat)
    requires RunOf(c, maxRetries, run).Some?
    ensures var s := RunOf(c, maxRetries, run).value;
            && RequestIsRight(maxRetries, s, r)
            && s.states == Run(c, map[], Calls(s.log))
  {
    if run != [] {
      var before, a := run[..|run| - 1], run[|run| - 1];
      EveryRunReportsOnce(c, maxRetries, before, r);
      var s := RunOf(c, maxRetries, before).value;
      ActionKeepsRequest(c, maxRetries, s, a, r);
      var e := Do(c, maxRetries, s, a).log[|s.log|];
      CallsAppend(s.log, e);
      match e {
        case Started(_, key, _, at) => RunOne(c, map[], Calls(s.log), BeforeCall(key, at));
        case Recorded(_, key, failed, at) => RunOne(c, map[], Calls(s.log), AfterCall(key, failed, at));
        case Sent(_, _) => assert Calls(s.log) + [] == Calls(s.log);
      }
    }
  }

  ghost function Records(life: seq<Entry>): nat {
    if life == [] then 0 else Records(life[..|life| - 1]) + if life[|life| - 1].Recorded? then 1 else 0
  }

  ghost function Attempts(life: seq<Entry>): nat {
    if life == [] then 0 else Attempts(life[..|life| - 1]) + if life[|life| - 1].Sent? then 1 else 0
  }

  lemma {:induction false} SendingCounts(maxRetries: nat, life: seq<Entry>)
    requires IsSending(maxRetries, life)
    ensures Records(life) == 0 && Attempts(life) == |life| - 1
  {
    var before := life[..|life| - 1];
    if |life| > 1 {
      SendingCounts(maxRetries, before);
    } else {
      assert before == [];
    }
  }

  lemma RepeatedMeansIdempotent(maxRetries: nat, life: seq<Entry>)
    requires IsSending(maxRetries, life) && |life| > 2
    ensures IsIdempotentMethod(life[0].key.verb)
  {
    hide IsIdempotentMethod;
    assert IsRetryable(life[0].key.verb, life[1].reply.value);
  }

  lemma CountsOfSending(maxRetries: nat, life: seq<Entry>)
    requires IsSending(maxRetries, life)
    ensures life != [] && life[0].Started? && life[0].verdict == Admitted
    ensures Records(life) == 0 && Attempts(life) <= maxRetries + 1
    ensures !IsIdempotentMethod(life[0].key.verb) ==> Attempts(life) <= 1
  {
    SendingCounts(maxRetries, life);
    if |life| > 2 {
      RepeatedMeansIdempotent(maxRetries, life);
    }
  }

  /** The count that the promise is about: a request that is not under way has
      recorded exactly one outcome if it was admitted and none if it was refused;
      and only methods that may be repeated are sent more than once. */
  lemma {:induction false} OneOutcomePerAdmission(c: Config, maxRetries: nat, run: seq<Action>, r: nat)
    requires RunOf(c, maxRetries, run).Some? && r in RunOf(c, maxRetries, run).value.seen
    ensures var s := RunOf(c, maxRetries, run).value;
            var life := Life(s.log, r);
            && life != [] && life[0].Started?
            && Records(life) == (if life[0].verdict == Admitted && r !in s.active then 1 else 0)
            && Attempts(life) <= (if life[0].verdict == Admitted then maxRetries + 1 else 0)
            && (!IsIdempotentMethod(life[0].key.verb) ==> Attempts(life) <= 1)
            && var verb := life[0].key.verb;
               (|| !Repeatable(verb)
                || Spells(verb, "POST") || Spells(verb, "PATCH") || Spells(verb, "DELETE") || verb == ""
                ==> Attempts(life) <= 1)
  {
    EveryRunReportsOnce(c, maxRetries, run, r);
    var s := RunOf(c, maxRetries, run).value;
    var life := Life(s.log, r);
    hide Life;
    hide RunOf;
    hide IsSending;
    hide IsIdempotentMethod;
    forall verb
      ensures IsIdempotentMethod(verb) <==> Repeatable(verb)
      ensures (|| Spells(verb, "POST") || Spells(verb, "PATCH") || Spells(verb, "DELETE") || verb == ""
               ==> !Repeatable(verb))
    {
      RepeatableExactly(verb);
      if Spells(verb, "POST") || Spells(verb, "PATCH") || Spells(verb, "DELETE") || verb == "" {
        MutationsAreNotRepeatable(verb);
      }
    }
    hide Spells;
    hide Repeatable;
    if r in s.active {
      CountsOfSending(maxRetries, life);
    } else if IsFinished(maxRetries, life) {
      CountsOfSending(maxRetries, life[..|life| - 1]);
    } else {
      assert life[..0] == [];
    }
  }

  // ---------------------------------------------------------------------
  // The retry loop takes these actions
  // ---------------------------------------------------------------------

  /** The actions of the loop up to its attempt `k`, with `gaps(i)` in between: the
      actions that other requests take after the loop's action `i`. */
  ghost function Upto(
      run: seq<Action>, gaps: nat -> seq<Action>, w: World, key: Key, r: nat, at: int, k: nat): seq<Action>
  {
    if k == 0 then run + [Ask(r, key, at)]
    else Upto(run, gaps, w, key, r, at, k - 1) + gaps(k - 1) + [Send(r, w.reply(k - 1))]
  }

  ghost predicate OnlyOthers(actions: seq<Action>, r: nat) {
    forall a :: a in actions ==> a.request != r
  }

  /** The entries of `r` among these are attempts, so the calls on the breaker
      among them are those of others. */
  ghost predicate OnlyAttempts(entries: seq<Entry>, r: nat) {
    forall e :: e in entries && e.request == r ==> e.Sent?
  }

  /** The state in which the request, asked about after `before`, has sent `n`
      attempts. */
  ghost predicate HasSent(w: World, key: Key, r: nat, at: int, before: seq<Entry>, s: State, n: nat) {
    && r in s.active && s.active[r] == Request(key, n, if n == 0 then None else w.reply(n - 1))
    && before + [Started(r, key, Admitted, at)] <= s.log
    && OnlyAttempts(s.log[|before| + 1..], r)
  }

  lemma RunOneMore(c: Config, maxRetries: nat, run: seq<Action>, a: Action)
    ensures RunOf(c, maxRetries, run + [a]) ==
            if RunOf(c, maxRetries, run).Some? && Enabled(maxRetries, RunOf(c, maxRetries, run).value, a)
            then Some(Do(c, maxRetries, RunOf(c, maxRetries, run).value, a)) else None
  {
    assert (run + [a])[..|run|] == run;
  }

  lemma AskFirst(c: Config, maxRetries: nat, w: World, key: Key, r: nat, at: int, s: State)
    requires r !in s.seen && VerdictOf(c, StateOf(s.states, key), at) == Admitted
    ensures HasSent(w, key, r, at, s.log, Do(c, maxRetries, s, Ask(r, key, at)), 0)
  {
    hide Step;
    hide VerdictOf;
  }

  lemma StillHasSent(
      c: Config, maxRetries: nat, w: World, key: Key, r: nat, at: int, before: seq<Entry>, s: State, n: nat, a: Action)
    requires HasSent(w, key, r, at, before, s, n) && Enabled(maxRetries, s, a) && a.request != r
    ensures HasSent(w, key, r, at, before, Do(c, maxRetries, s, a), n)
  {
    hide Step;
    hide VerdictOf;
    var s' := Do(c, maxRetries, s, a);
    assert s'.log[|before| + 1..] == s.log[|before| + 1..] + [s'.log[|s.log|]];
  }

  lemma {:induction false} GapKeepsSent(
      c: Config, maxRetries: nat, w: World, key: Key, r: nat, at: int, before: seq<Entry>, n: nat,
      run: seq<Action>, gap: seq<Action>)
    requires RunOf(c, maxRetries, run).Some? && HasSent(w, key, r, at, before, RunOf(c, maxRetries, run).value, n)
    requires RunOf(c, maxRetries, run + gap).Some? && OnlyOthers(gap, r)
    ensures HasSent(w, key, r, at, before, RunOf(c, maxRetries, run + gap).value, n)
    decreases |gap|
  {
    if gap == [] {
      assert run + gap == run;
    } else {
      var shorter, a := gap[..|gap| - 1], gap[|gap| - 1];
      assert run + gap == run + shorter + [a];
      RunOneMore(c, maxRetries, run + shorter, a);
      hide RunOf;
      hide HasSent;
      hide Do;
      GapKeepsSent(c, maxRetries, w, key, r, at, before, n, run, shorter);
      StillHasSent(c, maxRetries, w, key, r, at, before, RunOf(c, maxRetries, run + shorter).value, n, a);
    }
  }

  lemma SendNext(
      c: Config, maxRetries: nat, w: World, key: Key, r: nat, at: int, before: seq<Entry>, s: State, n: nat)
    requires 0 < n <= maxRetries + 1 && HasSent(w, key, r, at, before, s, n - 1)
    requires n > 1 ==> TriesAgain(w, key.verb, maxRetries, n - 2)
    ensures Enabled(maxRetries, s, Send(r, w.reply(n - 1)))
    ensures HasSent(w, key, r, at, before, Do(c, maxRetries, s, Send(r, w.reply(n - 1))), n)
  {
    hide IsRetryable;
    var s' := Do(c, maxRetries, s, Send(r, w.reply(n - 1)));
    assert s'.log[|before| + 1..] == s.log[|before| + 1..] + [Sent(r, w.reply(n - 1))];
  }

  /** Others act only when their actions are enabled, and on their own requests. */
  ghost predicate GapsFit(
      c: Config, maxRetries: nat, run: seq<Action>, gaps: nat -> seq<Action>, w: World, key: Key, r: nat, at: int)
  {
    forall k: nat ::
      && OnlyOthers(gaps(k), r)
      && (RunOf(c, maxRetries, Upto(run, gaps, w, key, r, at, k)).Some? ==>
            RunOf(c, maxRetries, Upto(run, gaps, w, key, r, at, k) + gaps(k)).Some?)
  }

  lemma GapFits(
      c: Config, maxRetries: nat, run: seq<Action>, gaps: nat -> seq<Action>, w: World, key: Key, r: nat, at: int,
      k: nat)
    requires GapsFit(c, maxRetries, run, gaps, w, key, r, at)
    requires RunOf(c, maxRetries, Upto(run, gaps, w, key, r, at, k)).Some?
    ensures OnlyOthers(gaps(k), r)
    ensures RunOf(c, maxRetries, Upto(run, gaps, w, key, r, at, k) + gaps(k)).Some?
  {
  }

  lemma {:induction false} LoopSends(
      c: Config, maxRetries: nat, run: seq<Action>, gaps: nat -> seq<Action>, w: World, key: Key, r: nat, at: int,
      before: State, n: nat)
    requires RunOf(c, maxRetries, run) == Some(before) && r !in before.seen
    requires VerdictOf(c, StateOf(before.states, key), at) == Admitted
    requires GapsFit(c, maxRetries, run, gaps, w, key, r, at)
    requires n <= maxRetries + 1 && forall k: nat :: k + 1 < n ==> TriesAgain(w, key.verb, maxRetries, k)
    ensures var s := RunOf(c, maxRetries, Upto(run, gaps, w, key, r, at, n) + gaps(n));
            s.Some? && HasSent(w, key, r, at, before.log, s.value, n)
  {
    hide VerdictOf;
    hide HasSent;
    hide Do;
    hide RunOf;
    hide TriesAgain;
    hide GapsFit;
    hide OnlyOthers;
    if n == 0 {
      RunOneMore(c, maxRetries, run, Ask(r, key, at));
      AskFirst(c, maxRetries, w, key, r, at, before);
    } else {
      LoopSends(c, maxRetries, run, gaps, w, key, r, at, before, n - 1);
      var shorter := Upto(run, gaps, w, key, r, at, n - 1) + gaps(n - 1);
      assert n > 1 ==> n - 2 + 1 < n;
      SendNext(c, maxRetries, w, key, r, at, before.log, RunOf(c, maxRetries, shorter).value, n);
      RunOneMore(c, maxRetries, shorter, Send(r, w.reply(n - 1)));
    }
    GapFits(c, maxRetries, run, gaps, w, key, r, at, n);
    GapKeepsSent(c, maxRetries, w, key, r, at, before.log, n, Upto(run, gaps, w, key, r, at, n), gaps(n));
  }

  lemma {:induction false} CallsInParts(a: seq<Entry>, b: seq<Entry>)
    ensures Calls(a + b) == Calls(a) + Calls(b)
    decreases |b|
  {
    if b == [] {
      assert a + b == a;
    } else {
      CallsInParts(a, b[..|b| - 1]);
      assert (a + b)[..|a + b| - 1] == a + b[..|b| - 1];
    }
  }

  lemma CallsAround(before: seq<Entry>, first: Entry, others: seq<Entry>, last: Entry)
    ensures Calls(before + [first] + others + [last]) == Calls(before) + CallOf(first) + Calls(others) + CallOf(last)
  {
    CallsAppend(before, first);
    CallsInParts(before + [first], others);
    CallsAppend(before + [first] + others, last);
  }

  lemma FinishLoop(
      c: Config, maxRetries: nat, w: World, key: Key, r: nat, startedAt: int, before: seq<Entry>, s: State, sent: nat,
      finishedAt: int) returns (others: seq<Entry>)
    requires sent > 0 && HasSent(w, key, r, startedAt, before, s, sent)
    ensures OnlyAttempts(others, r) && Enabled(maxRetries, s, Finish(r, finishedAt))
    ensures var failed := IsUpstreamFailure(w.reply(sent - 1));
            var log := Do(c, maxRetries, s, Finish(r, finishedAt)).log;
            && log == before + [Started(r, key, Admitted, startedAt)] + others + [Recorded(r, key, failed, finishedAt)]
            && Calls(log) == Calls(before) + [BeforeCall(key, startedAt)] + Calls(others)
                             + [AfterCall(key, failed, finishedAt)]
  {
    hide IsUpstreamFailure;
    hide Step;
    hide Calls;
    hide OnlyAttempts;
    var failed := IsUpstreamFailure(w.reply(sent - 1));
    others := s.log[|before| + 1..];
    assert s.log == before + [Started(r, key, Admitted, startedAt)] + others;
    CallsAround(before, Started(r, key, Admitted, startedAt), others, Recorded(r, key, failed, finishedAt));
  }

  /** What the retry loop does after being admitted in any reachable state, with any
      actions of other requests between its own, is a run of this model. It adds
      the two calls on the breaker that its contract names, around those that the
      others make. */
  lemma {:induction false} LoopIsARun(
      c: Config, maxRetries: nat, run: seq<Action>, gaps: nat -> seq<Action>, w: World, key: Key, r: nat,
      startedAt: int, sent: nat, finishedAt: int) returns (others: seq<Entry>)
    requires RunOf(c, maxRetries, run).Some? && r !in RunOf(c, maxRetries, run).value.seen
    requires VerdictOf(c, StateOf(RunOf(c, maxRetries, run).value.states, key), startedAt) == Admitted
    requires GapsFit(c, maxRetries, run, gaps, w, key, r, startedAt)
    requires 0 < sent <= maxRetries + 1 && LastAttempt(w, key.verb, maxRetries, sent - 1)
    ensures OnlyAttempts(others, r)
    ensures var before := RunOf(c, maxRetries, run).value;
            var s := RunOf(c, maxRetries,
                           Upto(run, gaps, w, key, r, startedAt, sent) + gaps(sent) + [Finish(r, finishedAt)]);
            var failed := IsUpstreamFailure(w.reply(sent - 1));
            && s.Some?
            && s.value.log == before.log + [Started(r, key, Admitted, startedAt)] + others
                              + [Recorded(r, key, failed, finishedAt)]
            && Calls(s.value.log) == Calls(before.log) + [BeforeCall(key, startedAt)] + Calls(others)
                                     + [AfterCall(key, failed, finishedAt)]
  {
    var before := RunOf(c, maxRetries, run).value;
    var shorter := Upto(run, gaps, w, key, r, startedAt, sent) + gaps(sent);
    assert forall k: nat :: k + 1 < sent ==> TriesAgain(w, key.verb, maxRetries, k);
    hide *;
    LoopSends(c, maxRetries, run, gaps, w, key, r, startedAt, before, sent);
    var s := RunOf(c, maxRetries, shorter).value;
    others := FinishLoop(c, maxRetries, w, key, r, startedAt, before.log, s, sent, finishedAt);
    RunOneMore(c, maxRetries, shorter, Finish(r, finishedAt));
  }
}
