/** Concurrency caps: the dispatch slots and the per-family slots of tool calls
    (internal/mcp/rate_limit.go, internal/mcp/tools.go, internal/mcp/server.go). */
module Dispatch {
  import opened JsonValue
  import opened RiskClass

  datatype Family = High | Ordinary | Unlimited

  function FamilyOf(risks: set<Risk>): Family {
    if Destructive in risks || IsSensitiveWrite(risks) then High
    else if Write in risks then Ordinary
    else Unlimited
  }

  /** By the bits of the mask: any of these five makes a tool high-risk. */
  ghost predicate IsHighRisk(risks: set<Risk>) {
    || Destructive in risks
    || Billing in risks
    || Admin in risks
    || PermissionChange in risks
    || ExternalSideEffect in risks
  }

  ghost predicate IsOrdinaryWrite(risks: set<Risk>) {
    Write in risks && !IsHighRisk(risks)
  }

  lemma FamilyExactly(risks: set<Risk>)
    ensures FamilyOf(risks) == High <==> IsHighRisk(risks)
    ensures FamilyOf(risks) == Ordinary <==> IsOrdinaryWrite(risks)
  {
  }

  const HIGH_CAP := 1
  const WRITE_CAP := 2

  /** The family channels: how many of their slots are taken. */
  datatype Slots = Slots(high: nat, write: nat)

  ghost predicate Free(f: Slots, family: Family) {
    match family
    case High => f.high < HIGH_CAP
    case Ordinary => f.write < WRITE_CAP
    case Unlimited => true
  }

  ghost function Taken(f: Slots, family: Family): Slots {
    match family
    case High => f.(high := f.high + 1)
    case Ordinary => f.(write := f.write + 1)
    case Unlimited => f
  }

  ghost function Given(f: Slots, family: Family): Slots
    requires family.High? ==> f.high > 0
    requires family.Ordinary? ==> f.write > 0
  {
    match family
    case High => f.(high := f.high - 1)
    case Ordinary => f.(write := f.write - 1)
    case Unlimited => f
  }

  class FamilyLimiter {
    var slots: Slots

    constructor ()
      ensures slots == Slots(0, 0)
    {
      slots := Slots(0, 0);
    }

    /** One turn of the select: `done` says that the context has ended. A send on
        a full channel does not proceed, and with both cases ready either may. */
    method TryAcquire(risks: set<Risk>, done: bool, preferDone: bool) returns (acquired: bool)
      modifies this
      ensures acquired ==> Free(old(slots), FamilyOf(risks)) && slots == Taken(old(slots), FamilyOf(risks))
      ensures !acquired ==> slots == old(slots) && (done || !Free(old(slots), FamilyOf(risks)))
      ensures FamilyOf(risks).Unlimited? ==> acquired
      ensures acquired && IsHighRisk(risks) ==> old(slots).high < 1 && slots == old(slots).(high := old(slots).high + 1)
      ensures acquired && IsOrdinaryWrite(risks) ==>
                old(slots).write < 2 && slots == old(slots).(write := old(slots).write + 1)
      ensures !IsHighRisk(risks) && Write !in risks ==> acquired && slots == old(slots)
      ensures !done && IsHighRisk(risks) && old(slots).high < 1 ==> acquired
      ensures !done && IsOrdinaryWrite(risks) && old(slots).write < 2 ==> acquired
    {
      FamilyExactly(risks);
      var family := FamilyOf(risks);
      if family == Unlimited {
        return true;
      }
      var room := if family == High then slots.high < HIGH_CAP else slots.write < WRITE_CAP;
      if !room || (done && preferDone) {
        return false;
      }
      slots := if family == High then slots.(high := slots.high + 1) else slots.(write := slots.write + 1);
      acquired := true;
    }

    method Release(risks: set<Risk>)
      requires FamilyOf(risks).High? ==> slots.high > 0
      requires FamilyOf(risks).Ordinary? ==> slots.write > 0
      modifies this
      ensures slots == Given(old(slots), FamilyOf(risks))
      ensures IsHighRisk(risks) ==> slots == old(slots).(high := old(slots).high - 1)
      ensures IsOrdinaryWrite(risks) ==> slots == old(slots).(write := old(slots).write - 1)
      ensures !IsHighRisk(risks) && Write !in risks ==> slots == old(slots)
    {
      FamilyExactly(risks);
      match FamilyOf(risks) {
        case High => slots := slots.(high := slots.high - 1);
        case Ordinary => slots := slots.(write := slots.write - 1);
        case Unlimited =>
      }
    }
  }

  // ---------------------------------------------------------------------
  // Runs: any interleaving of any number of calls
  // ---------------------------------------------------------------------

  /** A call waits for a dispatch slot, then (with one) for its family, then its
      handler runs, then it is leaving and still has its dispatch slot. */
  datatype Stage = Queued | Dispatched | Running | Leaving

  datatype Call = Call(risks: set<Risk>, stage: Stage) {
    function Family(): Family {
      FamilyOf(risks)
    }
  }

  /** `dispatched` counts the taken dispatch slots. */
  datatype State = State(dispatched: nat, slots: Slots, calls: map<nat, Call>)

  datatype Step =
    | Arrive(call: nat, risks: set<Risk>)
    | TakeDispatch(call: nat)
    | TakeFamily(call: nat)
    | Timeout(call: nat)           // the context ends while waiting for the family
    | Return(call: nat)            // the handler returns
    | Leave(call: nat)

  /** `cap` is the number of dispatch slots; none means no limit. */
  ghost predicate Enabled(cap: Option<nat>, s: State, step: Step) {
    match step
    case Arrive(c, _) => c !in s.calls
    case TakeDispatch(c) => Is(s, c, Queued) && (cap.Some? ==> s.dispatched < cap.value)
    case TakeFamily(c) => Is(s, c, Dispatched) && Free(s.slots, s.calls[c].Family())
    case Timeout(c) => Is(s, c, Dispatched)
    case Return(c) =>
      && Is(s, c, Running)
      && (s.calls[c].Family().High? ==> s.slots.high > 0)
      && (s.calls[c].Family().Ordinary? ==> s.slots.write > 0)
    case Leave(c) => Is(s, c, Leaving) && s.dispatched > 0
  }

  ghost predicate Is(s: State, c: nat, stage: Stage) {
    c in s.calls && s.calls[c].stage == stage
  }

  ghost function Moved(s: State, c: nat, stage: Stage): map<nat, Call>
    requires c in s.calls
  {
    s.calls[c := s.calls[c].(stage := stage)]
  }

  ghost function Next(cap: Option<nat>, s: State, step: Step): State
    requires Enabled(cap, s, step)
  {
    match step
    case Arrive(c, risks) => s.(calls := s.calls[c := Call(risks, Queued)])
    case TakeDispatch(c) => s.(calls := Moved(s, c, Dispatched), dispatched := s.dispatched + 1)
    case TakeFamily(c) => s.(calls := Moved(s, c, Running), slots := Taken(s.slots, s.calls[c].Family()))
    case Timeout(c) => s.(calls := Moved(s, c, Leaving))
    case Return(c) => s.(calls := Moved(s, c, Leaving), slots := Given(s.slots, s.calls[c].Family()))
    case Leave(c) => s.(calls := s.calls - {c}, dispatched := s.dispatched - 1)
  }

  ghost function RunOf(cap: Option<nat>, run: seq<Step>): Option<State> {
    if run == [] then Some(State(0, Slots(0, 0), map[])) else
      var before := RunOf(cap, run[..|run| - 1]);
      var last := run[|run| - 1];
      if before.Some? && Enabled(cap, before.value, last) then Some(Next(cap, before.value, last)) else None
  }

  type Calls = map<nat, Call>

  ghost function In(calls: Calls, stage: Stage): set<nat> {
    set c | c in calls && calls[c].stage == stage
  }

  ghost function Handlers(calls: Calls, family: Family): set<nat> {
    set c | c in calls && calls[c].stage == Running && calls[c].Family() == family
  }

  ghost function Holders(calls: Calls): set<nat> {
    set c | c in calls && calls[c].stage != Queued
  }

  ghost function With(s: set<nat>, c: nat, present: bool): set<nat> {
    if present then s + {c} else s - {c}
  }

  lemma SetsAfterUpdate(calls: Calls, c: nat, call: Call)
    ensures Holders(calls[c := call]) == With(Holders(calls), c, call.stage != Queued)
    ensures forall f ::
              Handlers(calls[c := call], f) == With(Handlers(calls, f), c, call.stage == Running && call.Family() == f)
    ensures forall st :: In(calls[c := call], st) == With(In(calls, st), c, st == call.stage)
  {
  }

  lemma SetsAfterRemoval(calls: Calls, c: nat)
    ensures Holders(calls - {c}) == With(Holders(calls), c, false)
    ensures forall f :: Handlers(calls - {c}, f) == With(Handlers(calls, f), c, false)
    ensures forall st :: In(calls - {c}, st) == With(In(calls, st), c, false)
  {
  }

  lemma SizeOfWith(s: set<nat>, c: nat, present: bool)
    ensures |With(s, c, present)| == |s| + (if present && c !in s then 1 else if !present && c in s then -1 else 0)
  {
  }

  /** Every taken slot belongs to exactly one call, and none is over capacity. */
  ghost predicate SlotsAccounted(cap: Option<nat>, s: State) {
    && s.dispatched == |Holders(s.calls)|
    && (cap.Some? ==> s.dispatched <= cap.value)
    && s.slots.high == |Handlers(s.calls, High)| <= HIGH_CAP
    && s.slots.write == |Handlers(s.calls, Ordinary)| <= WRITE_CAP
  }

  lemma StepKeepsSlots(cap: Option<nat>, s: State, step: Step)
    requires SlotsAccounted(cap, s) && Enabled(cap, s, step)
    ensures SlotsAccounted(cap, Next(cap, s, step))
  {
    hide In;
    var calls, c := s.calls, step.call;
    MembershipBefore(s, c);
    if step.Leave? {
      SetsAfterRemoval(calls, c);
      SizeOfWith(Holders(calls), c, false);
      SizeOfWith(Handlers(calls, High), c, false);
      SizeOfWith(Handlers(calls, Ordinary), c, false);
    } else {
      var call := Next(cap, s, step).calls[c];
      SetsAfterUpdate(calls, c, call);
      SizeOfWith(Holders(calls), c, call.stage != Queued);
      SizeOfWith(Handlers(calls, High), c, call.stage == Running && call.Family() == High);
      SizeOfWith(Handlers(calls, Ordinary), c, call.stage == Running && call.Family() == Ordinary);
    }
  }

  lemma MembershipBefore(s: State, c: nat)
    ensures c in Holders(s.calls) <==> c in s.calls && s.calls[c].stage != Queued
    ensures forall f ::
              c in Handlers(s.calls, f) <==> c in s.calls && s.calls[c].stage == Running && s.calls[c].Family() == f
    ensures forall st :: c in In(s.calls, st) <==> c in s.calls && s.calls[c].stage == st
  {
  }

  /** In every reachable state at most one high-risk and two ordinary-write
      handlers run, and the taken slots are those of the calls that hold them. */
  lemma {:induction false} EveryRunRespectsCaps(cap: Option<nat>, run: seq<Step>)
    requires RunOf(cap, run).Some?
    ensures SlotsAccounted(cap, RunOf(cap, run).value)
  {
    if run == [] {
      var s := RunOf(cap, run).value;
      assert Holders(s.calls) == Handlers(s.calls, High) == Handlers(s.calls, Ordinary) == {};
    } else {
      EveryRunRespectsCaps(cap, run[..|run| - 1]);
      StepKeepsSlots(cap, RunOf(cap, run[..|run| - 1]).value, run[|run| - 1]);
    }
  }

  ghost predicate Runs(s: State, c: nat) {
    c in s.calls && s.calls[c].stage == Running
  }

  /** The same by the bits of the tools: no two high-risk handlers run at once, no
      three ordinary writes do, and a call without any of the six bits can always go
      on from the family limiter to its handler. */
  lemma {:induction false} CapsByBits(cap: Option<nat>, run: seq<Step>, a: nat, b: nat, c: nat)
    requires RunOf(cap, run).Some?
    ensures var s := RunOf(cap, run).value;
            && (Runs(s, a) && Runs(s, b) && IsHighRisk(s.calls[a].risks) && IsHighRisk(s.calls[b].risks) ==> a == b)
            && (Runs(s, a) && Runs(s, b) && Runs(s, c) && IsOrdinaryWrite(s.calls[a].risks)
                && IsOrdinaryWrite(s.calls[b].risks) && IsOrdinaryWrite(s.calls[c].risks) ==>
                  a == b || a == c || b == c)
            && (Is(s, a, Dispatched) && !IsHighRisk(s.calls[a].risks) && Write !in s.calls[a].risks ==>
                  Enabled(cap, s, TakeFamily(a)))
  {
    EveryRunRespectsCaps(cap, run);
    var s := RunOf(cap, run).value;
    hide RunOf;
    forall risks
      ensures FamilyOf(risks) == High <==> IsHighRisk(risks)
      ensures FamilyOf(risks) == Ordinary <==> IsOrdinaryWrite(risks)
    {
      FamilyExactly(risks);
    }
    var high := Handlers(s.calls, High);
    var ordinary := Handlers(s.calls, Ordinary);
    assert forall x :: x in high <==> Runs(s, x) && IsHighRisk(s.calls[x].risks);
    assert forall x :: x in ordinary <==> Runs(s, x) && IsOrdinaryWrite(s.calls[x].risks);
    AtMostOne(high, a, b);
    AtMostTwo(ordinary, a, b, c);
  }

  /** The same from the other side: what a waiting call waits for. Nothing but a full
      house keeps it from its slot. */
  lemma {:induction false} WaitsExactly(cap: Option<nat>, run: seq<Step>, c: nat)
    requires RunOf(cap, run).Some?
    ensures var s := RunOf(cap, run).value;
            && (Is(s, c, Queued) && !Enabled(cap, s, TakeDispatch(c)) ==>
                  cap.Some? && |Holders(s.calls)| == cap.value)
            && (Is(s, c, Dispatched) && !Enabled(cap, s, TakeFamily(c)) ==>
                  || (IsHighRisk(s.calls[c].risks) &&
                        exists a :: Runs(s, a) && IsHighRisk(s.calls[a].risks))
                  || (IsOrdinaryWrite(s.calls[c].risks) &&
                        exists a, b :: a != b && Runs(s, a) && Runs(s, b)
                                       && IsOrdinaryWrite(s.calls[a].risks) && IsOrdinaryWrite(s.calls[b].risks)))
  {
    EveryRunRespectsCaps(cap, run);
    var s := RunOf(cap, run).value;
    hide RunOf;
    forall risks
      ensures FamilyOf(risks) == High <==> IsHighRisk(risks)
      ensures FamilyOf(risks) == Ordinary <==> IsOrdinaryWrite(risks)
    {
      FamilyExactly(risks);
    }
    if Is(s, c, Dispatched) && !Enabled(cap, s, TakeFamily(c)) {
      var members := Handlers(s.calls, s.calls[c].Family());
      var a :| a in members;
      if |members| == 2 {
        assert |members - {a}| == 1;
        var b :| b in members - {a};
      }
    }
  }

  lemma AtMostOne(s: set<nat>, a: nat, b: nat)
    requires |s| <= 1
    ensures a in s && b in s ==> a == b
  {
    if a in s {
      assert |s - {a}| == |s| - 1;
    }
  }

  lemma AtMostTwo(s: set<nat>, a: nat, b: nat, c: nat)
    requires |s| <= 2
    ensures a in s && b in s && c in s ==> a == b || a == c || b == c
  {
    if a in s {
      assert |s - {a}| == |s| - 1;
      AtMostOne(s - {a}, b, c);
    }
  }

  // ---------------------------------------------------------------------
  // Progress
  // ---------------------------------------------------------------------

  /** A step of the server itself: neither a new call nor a timeout. */
  ghost predicate Serves(step: Step) {
    !step.Arrive? && !step.Timeout?
  }

  /** The steps that the calls in the system still have to take. */
  ghost function Work(s: State): nat {
    4 * |In(s.calls, Queued)| + 3 * |In(s.calls, Dispatched)| + 2 * |In(s.calls, Running)| + |In(s.calls, Leaving)|
  }

  /** Some call can always move on without a timeout. */
  lemma SomeoneMoves(cap: Option<nat>, s: State) returns (step: Step)
    requires SlotsAccounted(cap, s) && s.calls != map[]
    requires cap.Some? ==> cap.value > 0
    ensures Serves(step) && Enabled(cap, s, step)
  {
    if In(s.calls, Leaving) != {} {
      var c :| c in In(s.calls, Leaving);
      assert c in Holders(s.calls);
      step := Leave(c);
    } else if In(s.calls, Running) != {} {
      var c :| c in In(s.calls, Running);
      assert c in Handlers(s.calls, s.calls[c].Family());
      step := Return(c);
    } else if In(s.calls, Dispatched) != {} {
      var c :| c in In(s.calls, Dispatched);
      forall f: Family
        ensures Handlers(s.calls, f) == {}
      {
        assert Handlers(s.calls, f) <= In(s.calls, Running);
      }
      step := TakeFamily(c);
    } else {
      var c :| c in s.calls;
      assert c in In(s.calls, s.calls[c].stage);
      assert forall h :: h in Holders(s.calls) ==> h in In(s.calls, s.calls[h].stage);
      assert Holders(s.calls) == {};
      step := TakeDispatch(c);
    }
  }

  /** Every step but an arrival uses up work, so calls cannot pass each other
      slots for ever. */
  lemma StepsUseWork(cap: Option<nat>, s: State, step: Step)
    requires Enabled(cap, s, step) && !step.Arrive?
    ensures Work(Next(cap, s, step)) == Work(s) - if step.Timeout? then 2 else 1
  {
    hide In;
    hide Handlers;
    hide Holders;
    var calls, c := s.calls, step.call;
    MembershipBefore(s, c);
    if step.Leave? {
      SetsAfterRemoval(calls, c);
    } else {
      SetsAfterUpdate(calls, c, Next(cap, s, step).calls[c]);
    }
    forall stage: Stage, present
      ensures |With(In(calls, stage), c, present)| == |In(calls, stage)|
              + (if present && c !in In(calls, stage) then 1 else if !present && c in In(calls, stage) then -1 else 0)
    {
      SizeOfWith(In(calls, stage), c, present);
    }
  }

  ghost function Serve(cap: Option<nat>, s: State, run: seq<Step>): Option<State>
    decreases run
  {
    if run == [] then Some(s)
    else if Serves(run[0]) && Enabled(cap, s, run[0]) then Serve(cap, Next(cap, s, run[0]), run[1..])
    else None
  }

  /** From every reachable state the calls in the system can all be finished
      without a single timeout, in exactly `Work` steps. */
  lemma {:induction false} EverythingDrains(cap: Option<nat>, s: State) returns (run: seq<Step>)
    requires SlotsAccounted(cap, s) && (cap.Some? ==> cap.value > 0)
    ensures |run| == Work(s)
    ensures Serve(cap, s, run).Some? && Serve(cap, s, run).value.calls == map[]
    decreases Work(s)
  {
    if s.calls == map[] {
      assert In(s.calls, Queued) == In(s.calls, Dispatched) == In(s.calls, Running) == In(s.calls, Leaving) == {};
      return [];
    }
    var step := SomeoneMoves(cap, s);
    StepsUseWork(cap, s, step);
    StepKeepsSlots(cap, s, step);
    var rest := EverythingDrains(cap, Next(cap, s, step));
    run := [step] + rest;
    assert run[1..] == rest;
  }

  /** While a call waits for a dispatch or a family slot, some step other than a
      timeout is enabled, in every reachable state. */
  lemma NoDeadlock(cap: Option<nat>, run: seq<Step>, waiting: nat)
    requires RunOf(cap, run).Some? && (cap.Some? ==> cap.value > 0)
    requires Is(RunOf(cap, run).value, waiting, Queued) || Is(RunOf(cap, run).value, waiting, Dispatched)
    ensures exists step :: Serves(step) && Enabled(cap, RunOf(cap, run).value, step)
  {
    EveryRunRespectsCaps(cap, run);
    var step := SomeoneMoves(cap, RunOf(cap, run).value);
  }
}
