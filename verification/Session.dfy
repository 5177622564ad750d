/** Calls in flight, their cancellation, and which replies are suppressed
    (internal/mcp/server.go). */
module Session {
  import opened JsonValue

  datatype RpcId = NumberId(text: string) | StringId(text: string)

  /** A number and a string with the same text share a key. */
  function RpcIdKey(id: RpcId): string {
    id.text
  }

  /** Ids share a key exactly if they share their text. */
  lemma RpcIdKeyExactly(a: RpcId, b: RpcId)
    ensures RpcIdKey(a) == RpcIdKey(b) <==> a.text == b.text
  {
  }

  datatype ProgressToken = StringToken(text: string) | NumberToken(text: string)

  function ProgressTokenKey(token: ProgressToken): string {
    match token
    case StringToken(text) => "s:" + text
    case NumberToken(text) => "n:" + text
  }

  lemma ProgressTokenKeyInjective(a: ProgressToken, b: ProgressToken)
    ensures ProgressTokenKey(a) == ProgressTokenKey(b) <==> a == b
  {
    var ka, kb := ProgressTokenKey(a), ProgressTokenKey(b);
    assert ka[0] == 's' <==> a.StringToken?;
    assert kb[0] == 's' <==> b.StringToken?;
    assert ka[2..] == a.text && kb[2..] == b.text;
  }

  // ---------------------------------------------------------------------
  // The in-flight map
  // ---------------------------------------------------------------------

  /** Which call's cancel function is stored under a key. */
  type Cancels = map<string, nat>

  ghost function Registered(m: Cancels, id: Option<RpcId>, call: nat): Cancels {
    if id.None? then m else m[RpcIdKey(id.value) := call]
  }

  ghost function Unregistered(m: Cancels, id: Option<RpcId>): Cancels {
    if id.None? then m else m - {RpcIdKey(id.value)}
  }

  class Inflight {
    var cancels: Cancels

    constructor ()
      ensures cancels == map[]
    {
      cancels := map[];
    }

    method Register(id: Option<RpcId>, call: nat)
      modifies this
      ensures cancels == Registered(old(cancels), id, call)
      ensures cancels == if id.None? then old(cancels) else old(cancels)[id.value.text := call]
    {
      if id.None? {
        return;
      }
      cancels := cancels[RpcIdKey(id.value) := call];
    }

    method Unregister(id: Option<RpcId>)
      modifies this
      ensures cancels == Unregistered(old(cancels), id)
      ensures cancels == if id.None? then old(cancels) else old(cancels) - {id.value.text}
    {
      if id.None? {
        return;
      }
      cancels := cancels - {RpcIdKey(id.value)};
    }

    /** The cancel function to fire, which is then no longer stored. */
    method Cancel(id: Option<RpcId>) returns (hit: Option<nat>)
      modifies this
      ensures hit == if id.None? then None else Get(old(cancels), RpcIdKey(id.value))
      ensures hit.Some? <==> id.Some? && id.value.text in old(cancels)
      ensures hit.Some? ==> hit.value == old(cancels)[id.value.text] && id.value.text !in cancels
      ensures cancels == Unregistered(old(cancels), id)
    {
      if id.None? {
        return None;
      }
      hit := Get(cancels, RpcIdKey(id.value));
      cancels := cancels - {RpcIdKey(id.value)};
    }

    /** All of them, for a repeat initialize; `keys` is the order in which the
        map yields them. */
    method CancelAll() returns (hits: seq<nat>, ghost keys: seq<string>)
      modifies this
      ensures cancels == map[]
      ensures |hits| == |keys| == |old(cancels)|
      ensures forall i, j :: 0 <= i < j < |keys| ==> keys[i] != keys[j]
      ensures forall i :: 0 <= i < |keys| ==> keys[i] in old(cancels) && hits[i] == old(cancels)[keys[i]]
      ensures forall call :: call in hits <==> call in old(cancels).Values
    {
      hits, keys := [], [];
      while cancels != map[]
        invariant cancels.Keys <= old(cancels).Keys
        invariant forall k :: k in cancels ==> cancels[k] == old(cancels)[k]
        invariant forall k :: k in old(cancels) ==> (k in keys <==> k !in cancels)
        invariant |hits| == |keys| && |keys| + |cancels| == |old(cancels)|
        invariant forall i, j :: 0 <= i < j < |keys| ==> keys[i] != keys[j]
        invariant forall i :: 0 <= i < |keys| ==> keys[i] in old(cancels) && hits[i] == old(cancels)[keys[i]]
        decreases |cancels|
      {
        var k :| k in cancels;
        hits := hits + [cancels[k]];
        keys := keys + [k];
        assert |cancels - {k}| == |cancels| - 1 by {
          assert (cancels - {k}).Keys == cancels.Keys - {k};
        }
        cancels := cancels - {k};
      }
      forall call | call in old(cancels).Values
        ensures call in hits
      {
        var k :| k in old(cancels) && old(cancels)[k] == call;
        assert k in keys;
      }
    }
  }

  // ---------------------------------------------------------------------
  // Runs: any interleaving of calls, cancellations and initializes
  // ---------------------------------------------------------------------

  /** Why a call's context ended: `notifications/cancelled`, a repeat initialize,
      or anything else. The first cause stays. */
  datatype Cause = Explicit | Reset | Other

  datatype Stage = Admitted | Running | Returned(failed: bool) | Answered | Ended | Unlisted

  datatype Call = Call(id: Option<RpcId>, token: Option<ProgressToken>, stage: Stage, cause: Option<Cause>)

  datatype Event =
    | Began(call: nat, id: Option<RpcId>)
    | CancelSeen(target: RpcId, call: nat)           // cancelInflight took this call's cancel function
    | Fired(call: nat, cause: Cause)
    | HandlerReturned(call: nat, failed: bool)
    | Reply(call: nat, suppressed: bool)

  datatype State = State(
    cancels: Cancels,
    active: set<string>,
    calls: map<nat, Call>,
    begun: set<nat>,
    firing: set<(nat, Cause)>,
    log: seq<Event>)

  datatype Step =
    | Begin(call: nat, id: Option<RpcId>, token: Option<ProgressToken>)
    | Enter(call: nat)
    | Return(call: nat, failed: bool)
    | Answer(call: nat)
    | End(call: nat)                               // the three deferred actions
    | Unlist(call: nat)
    | Release(call: nat)
    | CancelMessage(target: RpcId)
    | Initialize
    | Fire(call: nat, cause: Cause)
    | OutsideEnd(call: nat)                        // the session's context or a timeout

  ghost predicate AtStage(s: State, call: nat, stage: Stage) {
    call in s.calls && s.calls[call].stage == stage
  }

  ghost predicate Enabled(s: State, step: Step) {
    match step
    case Begin(call, _, _) => call !in s.begun
    case Enter(call) => AtStage(s, call, Admitted)
    case Return(call, _) => AtStage(s, call, Running)
    case Answer(call) => call in s.calls && s.calls[call].stage.Returned?
    case End(call) => AtStage(s, call, Answered)
    case Unlist(call) => AtStage(s, call, Ended)
    case Release(call) => AtStage(s, call, Unlisted)
    case CancelMessage(_) => true
    case Initialize => true
    case Fire(call, cause) => (call, cause) in s.firing
    case OutsideEnd(call) => call in s.calls
  }

  ghost function Cancelled(s: State, call: nat, cause: Cause): map<nat, Call> {
    if call in s.calls && s.calls[call].cause.None?
    then s.calls[call := s.calls[call].(cause := Some(cause))]
    else s.calls
  }

  ghost function Next(s: State, step: Step): State
    requires Enabled(s, step)
  {
    match step
    case Begin(call, id, token) =>
      if token.Some? && ProgressTokenKey(token.value) in s.active then s.(begun := s.begun + {call})  // invalid params
      else s.(begun := s.begun + {call},
              active := if token.Some? then s.active + {ProgressTokenKey(token.value)} else s.active,
              calls := s.calls[call := Call(id, token, Admitted, None)],
              log := s.log + [Began(call, id)])
    case Enter(call) =>
      s.(cancels := Registered(s.cancels, s.calls[call].id, call),
         calls := s.calls[call := s.calls[call].(stage := Running)])
    case Return(call, failed) =>
      s.(calls := s.calls[call := s.calls[call].(stage := Returned(failed))],
         log := s.log + [HandlerReturned(call, failed)])
    case Answer(call) =>
      var suppressed := s.calls[call].stage.failed && s.calls[call].cause == Some(Explicit);
      s.(calls := s.calls[call := s.calls[call].(stage := Answered)], log := s.log + [Reply(call, suppressed)])
    case End(call) =>
      s.(calls := Cancelled(s, call, Other)[call := Cancelled(s, call, Other)[call].(stage := Ended)],
         log := s.log + [Fired(call, Other)])
    case Unlist(call) =>
      s.(cancels := Unregistered(s.cancels, s.calls[call].id),
         calls := s.calls[call := s.calls[call].(stage := Unlisted)])
    case Release(call) =>
      s.(calls := s.calls - {call},
         active :=
           if s.calls[call].token.Some? then s.active - {ProgressTokenKey(s.calls[call].token.value)} else s.active)
    case CancelMessage(id) =>
      var hit := Get(s.cancels, RpcIdKey(id));
      if hit.None? then s
      else s.(cancels := s.cancels - {RpcIdKey(id)},
              firing := s.firing + {(hit.value, Explicit)},
              log := s.log + [CancelSeen(id, hit.value)])
    case Initialize =>
      s.(cancels := map[], firing := s.firing + set c | c in s.cancels.Values :: (c, Reset))
    case Fire(call, cause) =>
      s.(firing := s.firing - {(call, cause)}, calls := Cancelled(s, call, cause), log := s.log + [Fired(call, cause)])
    case OutsideEnd(call) =>
      s.(calls := Cancelled(s, call, Other), log := s.log + [Fired(call, Other)])
  }

  ghost function RunOf(run: seq<Step>): Option<State> {
    if run == [] then Some(State(map[], {}, map[], {}, {}, [])) else
      var before := RunOf(run[..|run| - 1]);
      if before.Some? && Enabled(before.value, run[|run| - 1]) then Some(Next(before.value, run[|run| - 1])) else None
  }

  // ---------------------------------------------------------------------
  // What the log says
  // ---------------------------------------------------------------------

  ghost function FirstCause(log: seq<Event>, call: nat): Option<Cause> {
    if log == [] then None else
      var before := FirstCause(log[..|log| - 1], call);
      var last := log[|log| - 1];
      if before.None? && last.Fired? && last.call == call then Some(last.cause) else before
  }

  /** The call began with an id, and a cancellation for that id took the call's
      own cancel function. */
  ghost predicate OwnCancel(log: seq<Event>, call: nat) {
    exists id, id' :: Began(call, Some(id)) in log && CancelSeen(id', call) in log && RpcIdKey(id) == RpcIdKey(id')
  }

  ghost predicate NotReturned(log: seq<Event>, call: nat) {
    forall failed :: HandlerReturned(call, failed) !in log
  }

  ghost predicate Unanswered(log: seq<Event>, call: nat) {
    forall suppressed :: Reply(call, suppressed) !in log
  }

  /** The reply at `i` follows the rule: it is the call's first, the handler has
      returned once, and the reply is suppressed exactly when the handler failed
      and the call's first cause was its own explicit cancellation. */
  ghost predicate ReplyIsRight(log: seq<Event>, i: nat)
    requires i < |log| && log[i].Reply?
  {
    var call, past := log[i].call, log[..i];
    && Unanswered(past, call)
    && (HandlerReturned(call, true) in past <==> HandlerReturned(call, false) !in past)
    && (log[i].suppressed <==> HandlerReturned(call, true) in past && FirstCause(past, call) == Some(Explicit))
    && (log[i].suppressed ==> OwnCancel(past, call))
  }

  ghost predicate CallsMatchLog(s: State) {
    CallsAreKnown(s) && forall c :: c in s.calls ==> s.calls[c].cause == FirstCause(s.log, c)
  }

  /** What the log has about a call at its stage. */
  ghost predicate IsListed(log: seq<Event>, c: nat, call: Call) {
    && Began(c, call.id) in log
    && (call.stage.Admitted? || call.stage.Running? ==> NotReturned(log, c))
    && (call.stage.Returned? ==>
          HandlerReturned(c, call.stage.failed) in log && HandlerReturned(c, !call.stage.failed) !in log)
    && (call.stage.Admitted? || call.stage.Running? || call.stage.Returned? ==> Unanswered(log, c))
  }

  ghost predicate CallsAreKnown(s: State) {
    && (forall c :: c in s.calls ==> c in s.begun && IsListed(s.log, c, s.calls[c]))
    && (forall e :: e in s.log ==> e.call in s.begun)
    && (forall c, cause :: (c, cause) in s.firing ==> c in s.begun)
    && (forall key :: key in s.cancels ==> s.cancels[key] in s.begun)
  }

  ghost predicate IsIdOf(log: seq<Event>, call: nat, key: string) {
    exists id :: Began(call, Some(id)) in log && RpcIdKey(id) == key
  }

  ghost predicate CancelsAreOwn(s: State) {
    && (forall key :: key in s.cancels ==> IsIdOf(s.log, s.cancels[key], key))
    && (forall c :: (c, Explicit) in s.firing ==> OwnCancel(s.log, c))
    && (forall c :: FirstCause(s.log, c) == Some(Explicit) ==> OwnCancel(s.log, c))
  }

  ghost predicate RepliesAreRight(log: seq<Event>) {
    forall i :: 0 <= i < |log| && log[i].Reply? ==> ReplyIsRight(log, i)
  }

  ghost predicate TokensAreDistinct(s: State) {
    && (forall c :: c in s.calls && s.calls[c].token.Some? ==> ProgressTokenKey(s.calls[c].token.value) in s.active)
    && (forall key :: key in s.active ==>
          exists c :: c in s.calls && s.calls[c].token.Some? && ProgressTokenKey(s.calls[c].token.value) == key)
    && (forall c, c' ::
          c in s.calls && c' in s.calls && s.calls[c].token.Some? && s.calls[c].token == s.calls[c'].token ==> c == c')
  }

  lemma FirstCauseAppend(log: seq<Event>, e: Event, call: nat)
    ensures FirstCause(log + [e], call) ==
            if FirstCause(log, call).None? && e.Fired? && e.call == call then Some(e.cause) else FirstCause(log, call)
  {
    assert (log + [e])[..|log|] == log;
  }

  lemma {:induction false} FirstCauseIsLogged(log: seq<Event>, call: nat)
    ensures FirstCause(log, call).Some? ==> Fired(call, FirstCause(log, call).value) in log
  {
    if log != [] {
      FirstCauseIsLogged(log[..|log| - 1], call);
    }
  }

  /** The entry that a step adds to the log. */
  ghost function Entry(s: State, step: Step): Option<Event>
    requires Enabled(s, step)
  {
    var log := Next(s, step).log;
    if log == s.log then None else Some(log[|log| - 1])
  }

  lemma LogGrows(s: State, step: Step)
    requires Enabled(s, step)
    ensures Next(s, step).log == s.log + (if Entry(s, step).Some? then [Entry(s, step).value] else [])
    ensures Entry(s, step).Some? && Entry(s, step).value.Fired? <==> step.End? || step.Fire? || step.OutsideEnd?
    ensures step.End? || step.OutsideEnd? ==> Entry(s, step) == Some(Fired(step.call, Other))
    ensures step.Fire? ==> Entry(s, step) == Some(Fired(step.call, step.cause))
  {
  }

  /** An entry that is neither a return nor a reply of `c` says nothing new about
      the stage of `c`. */
  lemma ListedLater(log: seq<Event>, e: Option<Event>, c: nat, call: Call)
    requires IsListed(log, c, call)
    requires e.Some? && e.value.call == c ==> !e.value.HandlerReturned? && !e.value.Reply?
    ensures IsListed(log + (if e.Some? then [e.value] else []), c, call)
  {
  }

  /** A step of the call itself. */
  lemma OwnStepListed(s: State, step: Step, c: nat)
    requires CallsAreKnown(s) && Enabled(s, step) && c in Next(s, step).calls
    requires !step.CancelMessage? && !step.Initialize? && step.call == c
    ensures IsListed(Next(s, step).log, c, Next(s, step).calls[c])
  {
    hide ProgressTokenKey;
    hide RpcIdKey;
    hide Registered;
    hide Unregistered;
  }

  lemma ListedKept(s: State, step: Step)
    requires CallsAreKnown(s) && Enabled(s, step)
    ensures forall c :: c in Next(s, step).calls ==> IsListed(Next(s, step).log, c, Next(s, step).calls[c])
  {
    var s' := Next(s, step);
    LogGrows(s, step);
    forall c | c in s'.calls
      ensures IsListed(s'.log, c, s'.calls[c])
    {
      if !step.CancelMessage? && !step.Initialize? && step.call == c {
        OwnStepListed(s, step, c);
      } else {
        OthersUntouched(s, step, c);
        ListedLater(s.log, Entry(s, step), c, s.calls[c]);
      }
    }
  }

  lemma OthersUntouched(s: State, step: Step, c: nat)
    requires Enabled(s, step) && c in Next(s, step).calls
    requires step.CancelMessage? || step.Initialize? || step.call != c
    ensures c in s.calls && Next(s, step).calls[c] == s.calls[c]
    ensures Entry(s, step).Some? && (Entry(s, step).value.HandlerReturned? || Entry(s, step).value.Reply?) ==>
              Entry(s, step).value.call != c
  {
  }

  lemma KnownKept(s: State, step: Step)
    requires CallsAreKnown(s) && Enabled(s, step)
    ensures CallsAreKnown(Next(s, step))
  {
    hide ProgressTokenKey;
    hide RpcIdKey;
    hide IsListed;
    var s' := Next(s, step);
    ListedKept(s, step);
    LogGrows(s, step);
    assert forall e :: e in s'.log ==> e in s.log || Some(e) == Entry(s, step);
  }

  lemma FirstCauseAfter(s: State, step: Step, c: nat)
    requires Enabled(s, step)
    ensures var fires := step.End? || step.Fire? || step.OutsideEnd?;
            FirstCause(Next(s, step).log, c) ==
            if FirstCause(s.log, c).None? && fires && step.call == c
            then Some(if step.Fire? then step.cause else Other)
            else FirstCause(s.log, c)
  {
    hide Next;
    hide FirstCause;
    LogGrows(s, step);
    if Entry(s, step).Some? {
      FirstCauseAppend(s.log, Entry(s, step).value, c);
    } else {
      assert s.log + [] == s.log;
    }
  }

  lemma CausesKept(s: State, step: Step)
    requires CallsMatchLog(s) && Enabled(s, step)
    ensures CallsMatchLog(Next(s, step))
  {
    hide FirstCause;
    hide CallsAreKnown;
    var s' := Next(s, step);
    KnownKept(s, step);
    if step.Begin? {
      FreshCall(s, step);
    }
    forall c | c in s'.calls
      ensures s'.calls[c].cause == FirstCause(s'.log, c)
    {
      FirstCauseAfter(s, step, c);
    }
  }

  lemma FreshCall(s: State, step: Step)
    requires CallsAreKnown(s) && Enabled(s, step) && step.Begin?
    ensures FirstCause(s.log, step.call) == None && step.call !in s.calls
  {
    FirstCauseIsLogged(s.log, step.call);
  }

  lemma OwnCancelLater(log: seq<Event>, more: seq<Event>, c: nat)
    requires OwnCancel(log, c)
    ensures OwnCancel(log + more, c)
  {
    var id, id' :| Began(c, Some(id)) in log && CancelSeen(id', c) in log && RpcIdKey(id) == RpcIdKey(id');
    assert Began(c, Some(id)) in log + more && CancelSeen(id', c) in log + more;
  }

  lemma StoredCancelsKept(s: State, step: Step)
    requires CallsAreKnown(s) && CancelsAreOwn(s) && Enabled(s, step)
    ensures forall key :: key in Next(s, step).cancels ==> IsIdOf(Next(s, step).log, Next(s, step).cancels[key], key)
  {
    hide OwnCancel;
    hide FirstCause;
    var s' := Next(s, step);
    LogGrows(s, step);
    forall key | key in s'.cancels
      ensures IsIdOf(s'.log, s'.cancels[key], key)
    {
      if key in s.cancels && s.cancels[key] == s'.cancels[key] {
        var id :| Began(s.cancels[key], Some(id)) in s.log && RpcIdKey(id) == key;
        assert Began(s'.cancels[key], Some(id)) in s'.log;
      } else {
        assert Began(step.call, s.calls[step.call].id) in s'.log;
      }
    }
  }

  lemma SeenCancelIsOwn(s: State, target: RpcId)
    requires CancelsAreOwn(s) && RpcIdKey(target) in s.cancels
    ensures OwnCancel(s.log + [CancelSeen(target, s.cancels[RpcIdKey(target)])], s.cancels[RpcIdKey(target)])
  {
    var c := s.cancels[RpcIdKey(target)];
    var id :| Began(c, Some(id)) in s.log && RpcIdKey(id) == RpcIdKey(target);
    var longer := s.log + [CancelSeen(target, c)];
    assert Began(c, Some(id)) in longer && CancelSeen(target, c) in longer;
  }

  lemma CancelsKept(s: State, step: Step)
    requires CallsMatchLog(s) && CancelsAreOwn(s) && Enabled(s, step)
    ensures CancelsAreOwn(Next(s, step))
  {
    hide OwnCancel;
    hide FirstCause;
    hide RpcIdKey;
    hide IsIdOf;
    var s' := Next(s, step);
    StoredCancelsKept(s, step);
    LogGrows(s, step);
    forall c | OwnCancel(s.log, c)
      ensures OwnCancel(s'.log, c)
    {
      OwnCancelLater(s.log, if Entry(s, step).Some? then [Entry(s, step).value] else [], c);
    }
    if step.CancelMessage? && RpcIdKey(step.target) in s.cancels {
      SeenCancelIsOwn(s, step.target);
    }
    forall c | FirstCause(s'.log, c) == Some(Explicit)
      ensures OwnCancel(s'.log, c)
    {
      FirstCauseAfter(s, step, c);
    }
  }

  lemma RepliesKept(s: State, step: Step)
    requires CallsMatchLog(s) && CancelsAreOwn(s) && RepliesAreRight(s.log) && Enabled(s, step)
    ensures RepliesAreRight(Next(s, step).log)
  {
    hide OwnCancel;
    var s' := Next(s, step);
    forall i | 0 <= i < |s'.log| && s'.log[i].Reply?
      ensures ReplyIsRight(s'.log, i)
    {
      if i < |s.log| {
        assert s'.log[..i] == s.log[..i];
        assert ReplyIsRight(s.log, i);
      } else {
        assert s'.log[..i] == s.log;
        assert HandlerReturned(step.call, s.calls[step.call].stage.failed) in s'.log[..i];
      }
    }
  }

  lemma TokensKept(s: State, step: Step)
    requires TokensAreDistinct(s) && Enabled(s, step)
    requires forall c :: c in s.calls ==> c in s.begun
    ensures TokensAreDistinct(Next(s, step))
  {
    hide TokensAreDistinct;
    hide Next;
    match step
    case Begin(call, id, token) => BeginKeepsTokens(s, call, id, token);
    case Release(call) => ReleaseKeepsTokens(s, call);
    case _ =>
      OtherStepsKeepTokens(s, step);
      SameTokens(s, Next(s, step));
  }

  lemma OtherStepsKeepTokens(s: State, step: Step)
    requires Enabled(s, step) && !step.Begin? && !step.Release?
    ensures Next(s, step).active == s.active && Next(s, step).calls.Keys == s.calls.Keys
    ensures forall c :: c in s.calls ==> Next(s, step).calls[c].token == s.calls[c].token
  {
    hide RpcIdKey;
  }

  lemma SameTokens(s: State, s': State)
    requires TokensAreDistinct(s)
    requires s'.active == s.active && s'.calls.Keys == s.calls.Keys
    requires forall c :: c in s.calls ==> s'.calls[c].token == s.calls[c].token
    ensures TokensAreDistinct(s')
  {
    forall key | key in s'.active
      ensures exists c :: c in s'.calls && s'.calls[c].token.Some? && ProgressTokenKey(s'.calls[c].token.value) == key
    {
      var c :| c in s.calls && s.calls[c].token.Some? && ProgressTokenKey(s.calls[c].token.value) == key;
      assert c in s'.calls;
    }
  }

  lemma BeginKeepsTokens(s: State, call: nat, id: Option<RpcId>, token: Option<ProgressToken>)
    requires TokensAreDistinct(s) && Enabled(s, Begin(call, id, token))
    requires forall c :: c in s.calls ==> c in s.begun
    ensures TokensAreDistinct(Next(s, Begin(call, id, token)))
  {
    hide ProgressTokenKey;
    var s' := Next(s, Begin(call, id, token));
    forall key | key in s'.active
      ensures exists c :: c in s'.calls && s'.calls[c].token.Some? && ProgressTokenKey(s'.calls[c].token.value) == key
    {
      if key in s.active {
        var c :| c in s.calls && s.calls[c].token.Some? && ProgressTokenKey(s.calls[c].token.value) == key;
        assert c in s'.calls;
      } else {
        assert call in s'.calls;
      }
    }
  }

  lemma ReleaseKeepsTokens(s: State, call: nat)
    requires TokensAreDistinct(s) && Enabled(s, Release(call))
    ensures TokensAreDistinct(Next(s, Release(call)))
  {
    hide ProgressTokenKey;
    var s' := Next(s, Release(call));
    forall c | c in s'.calls && s'.calls[c].token.Some?
      ensures ProgressTokenKey(s'.calls[c].token.value) in s'.active
    {
      if s.calls[call].token.Some? {
        ProgressTokenKeyInjective(s.calls[c].token.value, s.calls[call].token.value);
      }
    }
    forall key | key in s'.active
      ensures exists c :: c in s'.calls && s'.calls[c].token.Some? && ProgressTokenKey(s'.calls[c].token.value) == key
    {
      var c :| c in s.calls && s.calls[c].token.Some? && ProgressTokenKey(s.calls[c].token.value) == key;
      assert c in s'.calls;
    }
  }

  lemma {:induction false} EveryRunIsSound(run: seq<Step>)
    requires RunOf(run).Some?
    ensures var s := RunOf(run).value;
            CallsMatchLog(s) && CancelsAreOwn(s) && RepliesAreRight(s.log) && TokensAreDistinct(s)
  {
    if run != [] {
      hide CallsMatchLog;
      hide TokensAreDistinct;
      hide RepliesAreRight;
      var before, step := run[..|run| - 1], run[|run| - 1];
      EveryRunIsSound(before);
      var s := RunOf(before).value;
      BegunCalls(s);
      CausesKept(s, step);
      CancelsKept(s, step);
      RepliesKept(s, step);
      TokensKept(s, step);
    }
  }

  lemma BegunCalls(s: State)
    requires CallsMatchLog(s)
    ensures forall c :: c in s.calls ==> c in s.begun
  {
  }

  /** In every run a tools/call reply is suppressed if and only if the handler
      failed and the first thing to end the call's own context was a cancellation
      that took its own cancel function by its own key. So a repeat initialize,
      or a cancellation meant for an earlier user of the id, suppresses nothing. */
  lemma SuppressionIsExact(run: seq<Step>, i: nat)
    requires RunOf(run).Some? && i < |RunOf(run).value.log| && RunOf(run).value.log[i].Reply?
    ensures ReplyIsRight(RunOf(run).value.log, i)
  {
    EveryRunIsSound(run);
  }

  /** A call is refused for its progress token if and only if another call in flight
      holds that token; otherwise it is in flight afterwards. */
  lemma TokenRefusedExactly(run: seq<Step>, call: nat, id: Option<RpcId>, token: Option<ProgressToken>)
    requires RunOf(run).Some? && Enabled(RunOf(run).value, Begin(call, id, token))
    ensures var s := RunOf(run).value;
            call !in Next(s, Begin(call, id, token)).calls <==>
            token.Some? && exists c :: c in s.calls && s.calls[c].token == token
    ensures var next := Next(RunOf(run).value, Begin(call, id, token));
            call in next.calls ==> next.calls[call] == Call(id, token, Admitted, None)
  {
    EveryRunIsSound(run);
    var s := RunOf(run).value;
    BegunCalls(s);
    hide RunOf;
    hide CallsMatchLog;
    hide CancelsAreOwn;
    hide RepliesAreRight;
    hide ProgressTokenKey;
    if token.Some? && ProgressTokenKey(token.value) in s.active {
      var c :| c in s.calls && s.calls[c].token.Some? &&
               ProgressTokenKey(s.calls[c].token.value) == ProgressTokenKey(token.value);
      ProgressTokenKeyInjective(s.calls[c].token.value, token.value);
    }
  }

  /** No two calls in flight hold the same progress token. */
  lemma ProgressTokensAreExclusive(run: seq<Step>, c: nat, c': nat)
    requires RunOf(run).Some?
    requires var calls := RunOf(run).value.calls;
             c in calls && c' in calls && calls[c].token.Some? && calls[c].token == calls[c'].token
    ensures c == c'
  {
    EveryRunIsSound(run);
  }

  // ---------------------------------------------------------------------
  // Which call an id stands for
  // ---------------------------------------------------------------------

  ghost function StateAt(run: seq<Step>, k: nat): State
    requires k <= |run|
  {
    match RunOf(run[..k])
    case Some(s) => s
    case None => State(map[], {}, map[], {}, {}, [])
  }

  ghost function KeyOf(s: State, call: nat): Option<string> {
    if call in s.calls && s.calls[call].id.Some? then Some(RpcIdKey(s.calls[call].id.value)) else None
  }

  /** The step stores or removes what is under `key`. */
  ghost predicate Touches(s: State, step: Step, key: string) {
    match step
    case Enter(call) => KeyOf(s, call) == Some(key)
    case Unlist(call) => KeyOf(s, call) == Some(key)
    case CancelMessage(target) => RpcIdKey(target) == key
    case Initialize => true
    case _ => false
  }

  /** At step `k` the call entered under `key`, and nothing touched it since. */
  ghost predicate HoldsKeySince(run: seq<Step>, call: nat, key: string, k: nat)
    requires k < |run|
  {
    && run[k] == Enter(call) && KeyOf(StateAt(run, k), call) == Some(key)
    && forall j :: k < j < |run| ==> !Touches(StateAt(run, j), run[j], key)
  }

  ghost predicate HoldsKey(run: seq<Step>, call: nat, key: string) {
    exists k: nat :: k < |run| && HoldsKeySince(run, call, key, k)
  }

  lemma HoldsKeyStep(run: seq<Step>, step: Step, call: nat, key: string)
    requires RunOf(run).Some?
    ensures HoldsKey(run + [step], call, key) <==>
            if Touches(RunOf(run).value, step, key) then step == Enter(call) else HoldsKey(run, call, key)
  {
    hide RunOf;
    var longer, n := run + [step], |run|;
    assert longer[..n] == run;
    assert forall k: nat :: k < n ==> longer[..k] == run[..k];
    assert forall k: nat :: k < n && HoldsKeySince(longer, call, key, k) ==> HoldsKeySince(run, call, key, k);
    if Touches(StateAt(longer, n), step, key) {
      if step == Enter(call) {
        assert HoldsKeySince(longer, call, key, n);
      }
    } else {
      assert forall k: nat :: k < n && HoldsKeySince(run, call, key, k) ==> HoldsKeySince(longer, call, key, k);
    }
  }

  lemma EntryAfter(s: State, step: Step, key: string)
    requires Enabled(s, step)
    ensures Get(Next(s, step).cancels, key) ==
            if !Touches(s, step, key) then Get(s.cancels, key) else if step.Enter? then Some(step.call) else None
  {
    hide RpcIdKey;
  }

  /** In every run a call can be cancelled under `key` if and only if it entered
      under that key and since then no call with the key has entered or been
      unlisted, no cancellation named the key and no initialize came: a later call
      with the same key takes the entry over, and an earlier one that ends drops it. */
  lemma {:induction false} CancellableExactly(run: seq<Step>, call: nat, key: string)
    requires RunOf(run).Some?
    ensures Get(RunOf(run).value.cancels, key) == Some(call) <==> HoldsKey(run, call, key)
  {
    if run != [] {
      var before, step := run[..|run| - 1], run[|run| - 1];
      CancellableExactly(before, call, key);
      assert run == before + [step];
      HoldsKeyStep(before, step, call, key);
      EntryAfter(RunOf(before).value, step, key);
      hide HoldsKey;
      hide Next;
      hide Touches;
    }
  }

  lemma RunOneMore(run: seq<Step>, step: Step)
    requires RunOf(run).Some? && Enabled(RunOf(run).value, step)
    ensures RunOf(run + [step]) == Some(Next(RunOf(run).value, step))
  {
    assert (run + [step])[..|run|] == run;
  }

  /** The number 1 and the string "1" are different ids with one key: after both
      calls have entered, a cancellation of the first one takes the cancel function
      of the second, and the first can no longer be cancelled. */
  lemma IdsWithTheSameText() returns (run: seq<Step>)
    ensures RunOf(run).Some?
    ensures var s := RunOf(run).value;
            && AtStage(s, 0, Running) && s.calls[0].id == Some(NumberId("1"))
            && AtStage(s, 1, Running) && s.calls[1].id == Some(StringId("1"))
            && CancelSeen(NumberId("1"), 1) in s.log && s.cancels == map[]
  {
    run := [];
    var steps := [Begin(0, Some(NumberId("1")), None), Enter(0), Begin(1, Some(StringId("1")), None), Enter(1)];
    RunOneMore(run, steps[0]);
    run := run + [steps[0]];
    RunOneMore(run, steps[1]);
    run := run + [steps[1]];
    RunOneMore(run, steps[2]);
    run := run + [steps[2]];
    RunOneMore(run, steps[3]);
    run := run + [steps[3]];
    RunOneMore(run, CancelMessage(NumberId("1")));
    run := run + [CancelMessage(NumberId("1"))];
  }
}
