/** The emitter of resource updates and its cache of baselines, and when a client
    that follows its deltas stays in sync (internal/tools/resources.go,
    internal/tools/resource_cache.go). */
module ResourceFeed {
  import opened JsonValue
  import opened MergePatch

  /** What the emitter gets when it reads the resource again. */
  datatype Reading = Unreadable | Empty | Body(doc: Json)

  /** The formats "none", "merge" or "full", and "deleted". */
  datatype Delta = Refetch | Send(message: Message) | Gone

  ghost function BaselineAfter(baseline: Option<Json>, reading: Reading): Option<Json> {
    match reading
    case Unreadable => None
    case Empty => baseline
    case Body(doc) => Some(doc)
  }

  ghost function DeltaFor(baseline: Option<Json>, reading: Reading): Delta {
    if reading.Body? && baseline.Some? then Send(MessageFor(baseline.value, reading.doc)) else Refetch
  }

  class Emitter {
    var cache: map<string, Json>

    constructor ()
      ensures cache == map[]
    {
      cache := map[];
    }

    /** `wanted` is the answer of the subscription gate. Nothing is emitted, and no
        baseline moves, while nobody is subscribed. */
    method EmitResourceUpdate(uri: string, wanted: bool, reading: Reading) returns (delta: Option<Delta>)
      modifies this
      ensures uri == "" || !wanted ==> delta == None && cache == old(cache)
      ensures uri != "" && wanted ==>
                && delta == Some(DeltaFor(Get(old(cache), uri), reading))
                && Get(cache, uri) == BaselineAfter(Get(old(cache), uri), reading)
      ensures uri != "" && wanted && reading.Body? ==>
                && uri in cache && cache[uri] == reading.doc
                && delta == Some(if uri in old(cache) then Send(MessageFor(old(cache)[uri], reading.doc)) else Refetch)
      ensures uri != "" && wanted && reading.Unreadable? ==> uri !in cache && delta == Some(Refetch)
      ensures uri != "" && wanted && reading.Empty? ==> cache == old(cache) && delta == Some(Refetch)
      ensures cache - {uri} == old(cache) - {uri}
    {
      if uri == "" || !wanted {
        return None;
      }
      match reading {
        case Unreadable =>
          cache := cache - {uri};
          return Some(Refetch);
        case Empty =>
          return Some(Refetch);
        case Body(doc) =>
          var prev := Get(cache, uri);
          cache := cache[uri := doc];
          assert cache - {uri} == old(cache) - {uri};
          if prev == None {
            return Some(Refetch);
          }
          var message := DiffOrFull(prev.value, doc);
          return Some(Send(message));
      }
    }

    /** The baseline goes even while nobody is subscribed. */
    method EmitResourceDeleted(uri: string) returns (delta: Option<Delta>)
      modifies this
      ensures uri == "" ==> delta == None && cache == old(cache)
      ensures uri != "" ==> delta == Some(Gone) && cache == old(cache) - {uri}
    {
      if uri == "" {
        return None;
      }
      cache := cache - {uri};
      delta := Some(Gone);
    }
  }

  // ---------------------------------------------------------------------
  // Which copies a baseline serves
  // ---------------------------------------------------------------------

  ghost function Held(j: Json): Members {
    if j.Obj? then j.members else map[]
  }

  /** The copy can be told from the baseline by no merge: they agree wherever a
      merge may leave something as it is. A place whose baseline contains a null is
      always written anew, since a document with a null is sent whole. */
  ghost predicate StandsFor(copy: Json, baseline: Json)
    decreases baseline
  {
    if !baseline.Obj? then Held(copy) == map[]
    else
      && Held(copy).Keys <= baseline.members.Keys
      && forall k :: k in baseline.members ==>
           if ContainsNull(baseline.members[k]) then StandsFor(Child(copy, k), baseline.members[k])
           else Get(Held(copy), k) == Some(baseline.members[k])
  }

  lemma {:induction false} EqualStandsFor(baseline: Json)
    ensures StandsFor(baseline, baseline)
    decreases baseline
  {
    if baseline.Obj? {
      forall k | k in baseline.members
        ensures StandsFor(Child(baseline, k), baseline.members[k])
      {
        EqualStandsFor(baseline.members[k]);
      }
    }
  }

  lemma NullFreeMember(doc: Json, k: string)
    requires doc.Obj? && k in doc.members && !ContainsNull(doc)
    ensures !ContainsNull(doc.members[k])
  {
  }

  lemma {:induction false} NullFreeRoundTrip(prev: Json, doc: Json)
    requires !ContainsNull(doc)
    ensures Merge(prev, DiffOf(prev, doc)) == doc
  {
    forall path
      ensures At(doc, path) != Some(Null)
    {
      NoNullsMeansKept(doc, path);
    }
    RoundTrip(prev, doc);
  }

  lemma {:induction false} MergeServes(copy: Json, baseline: Json, doc: Json)
    requires StandsFor(copy, baseline) && !ContainsNull(doc)
    ensures Merge(copy, DiffOf(baseline, doc)) == doc
    decreases doc
  {
    if doc.Obj? {
      var out := Merge(copy, DiffOf(baseline, doc)).members;
      forall k
        ensures Get(out, k) == Get(doc.members, k)
      {
        MemberServed(copy, baseline, doc, k);
      }
      SameMembers(out, doc.members);
    }
  }

  lemma {:induction false} MemberServed(copy: Json, baseline: Json, doc: Json, k: string)
    requires StandsFor(copy, baseline) && !ContainsNull(doc) && doc.Obj?
    ensures Get(Merge(copy, DiffOf(baseline, doc)).members, k) == Get(doc.members, k)
    decreases doc, 0
  {
    if k in doc.members {
      var v := doc.members[k];
      NullFreeMember(doc, k);
      if baseline.Obj? && k in baseline.members {
        EntryIsChildDiff(baseline.members, doc.members, k);
        if ContainsNull(baseline.members[k]) {
          MergeServes(Child(copy, k), baseline.members[k], v);
        } else {
          NullFreeRoundTrip(baseline.members[k], v);
        }
      } else {
        if baseline.Obj? {
          EntryIsChildDiff(baseline.members, doc.members, k);
        }
        NullFreeRoundTrip(Null, v);
      }
    } else if baseline.Obj? {
      DiffHasEntry(baseline.members, doc.members, k);
    }
  }

  /** A document at which a copy that does not stand for the baseline goes wrong. */
  lemma {:induction false} MergeFails(copy: Json, baseline: Json) returns (doc: Json)
    requires !StandsFor(copy, baseline)
    ensures !ContainsNull(doc) && Merge(copy, DiffOf(baseline, doc)) != doc
    decreases baseline
  {
    doc := Obj(map[]);
    if baseline.Obj? && Held(copy).Keys <= baseline.members.Keys {
      var k :| k in baseline.members &&
               !(if ContainsNull(baseline.members[k]) then StandsFor(Child(copy, k), baseline.members[k])
                 else Get(Held(copy), k) == Some(baseline.members[k]));
      var v := baseline.members[k];
      if ContainsNull(v) {
        v := MergeFails(Child(copy, k), v);
      }
      doc := Obj(map[k := v]);
      EntryIsChildDiff(baseline.members, doc.members, k);
    } else if baseline.Obj? {
      var k :| k in Held(copy) && k !in baseline.members;
      DiffHasEntry(baseline.members, doc.members, k);
      assert k in Merge(copy, DiffOf(baseline, doc)).members;
    } else {
      var k :| k in Held(copy);
      assert k in Merge(copy, DiffOf(baseline, doc)).members;
    }
  }

  /** Exactly those copies are brought to every next document. */
  lemma {:induction false} ServedExactly(copy: Json, baseline: Json)
    ensures (forall doc :: Receive(copy, MessageFor(baseline, doc)) == doc) <==> StandsFor(copy, baseline)
  {
    if StandsFor(copy, baseline) {
      forall doc
        ensures Receive(copy, MessageFor(baseline, doc)) == doc
      {
        if !ContainsNull(doc) {
          MergeServes(copy, baseline, doc);
        }
      }
    } else {
      var doc := MergeFails(copy, baseline);
      assert Receive(copy, MessageFor(baseline, doc)) != doc;
    }
  }

  /** For objects without nulls that is: the copy equals the baseline. */
  lemma {:induction false} NullFreeCopiesAreEqual(copy: Json, baseline: Json)
    requires copy.Obj? && baseline.Obj? && !ContainsNull(baseline)
    ensures StandsFor(copy, baseline) <==> copy == baseline
  {
    forall k | k in baseline.members
      ensures !ContainsNull(baseline.members[k])
    {
      NullFreeMember(baseline, k);
    }
    if StandsFor(copy, baseline) {
      SameMembers(copy.members, baseline.members);
    }
  }

  // ---------------------------------------------------------------------
  // Runs: one resource and one client, among other subscribers
  // ---------------------------------------------------------------------

  /** `doc` is the resource itself, `copy` what the client takes it to be. */
  datatype State = State(doc: Json, baseline: Option<Json>, subscribed: bool, others: bool, copy: Option<Json>)

  datatype Outcome = Reads | Fails | Nothing

  datatype Step =
    | Change(doc: Json)
    | Emit(outcome: Outcome)
    | Delete
    | Evict                       // the cache makes room for other resources
    | Subscribe
    | Unsubscribe
    | Others(subscribed: bool)    // whether anybody else is subscribed
    | Fetch                       // the client reads the resource
    | Forget                      // the client drops its copy

  ghost function Received(copy: Option<Json>, delta: Delta): Option<Json> {
    match delta
    case Refetch => None
    case Gone => None
    case Send(FullMessage(doc)) => Some(doc)
    case Send(MergeMessage(patch)) => if copy.Some? then Some(Merge(copy.value, patch)) else None
  }

  ghost function ReadingOf(s: State, outcome: Outcome): Reading {
    match outcome
    case Reads => Body(s.doc)
    case Fails => Unreadable
    case Nothing => Empty
  }

  ghost function Next(s: State, step: Step): State {
    match step
    case Change(doc) => s.(doc := doc)
    case Emit(outcome) =>
      if !s.subscribed && !s.others then s
      else
        s.(baseline := BaselineAfter(s.baseline, ReadingOf(s, outcome)),
           copy := if s.subscribed then Received(s.copy, DeltaFor(s.baseline, ReadingOf(s, outcome))) else s.copy)
    case Delete => s.(baseline := None, copy := if s.subscribed then Received(s.copy, Gone) else s.copy)
    case Evict => s.(baseline := None)
    case Subscribe => s.(subscribed := true)
    case Unsubscribe => s.(subscribed := false)
    case Others(subscribed) => s.(others := subscribed)
    case Fetch => s.(copy := Some(s.doc))
    case Forget => s.(copy := None)
  }

  ghost function Run(start: State, steps: seq<Step>): State {
    if steps == [] then start else Next(Run(start, steps[..|steps| - 1]), steps[|steps| - 1])
  }

  ghost function Start(doc: Json): State {
    State(doc, None, false, false, None)
  }

  /** From any state, the client is right after the next update, whatever the
      update is, if and only if its copy stands for the baseline. */
  lemma {:induction false} NextUpdateServedExactly(s: State)
    requires s.subscribed && s.baseline.Some? && s.copy.Some?
    ensures (forall doc :: Next(Next(s, Change(doc)), Emit(Reads)).copy == Some(doc))
            <==> StandsFor(s.copy.value, s.baseline.value)
  {
    ServedExactly(s.copy.value, s.baseline.value);
    forall doc
      ensures Next(Next(s, Change(doc)), Emit(Reads)).copy ==
              Some(Receive(s.copy.value, MessageFor(s.baseline.value, doc)))
    {
    }
  }

  /** No change has gone past the baseline. */
  ghost predicate Settled(s: State) {
    s.baseline.Some? ==> s.baseline.value == s.doc
  }

  /** What the client and the server owe each other: a subscription starts without
      a copy, and a subscribed client reads only while nothing is unobserved. */
  ghost predicate InOrder(s: State, step: Step) {
    && (step.Subscribe? ==> s.copy == None)
    && (step.Fetch? && s.subscribed ==> Settled(s))
  }

  ghost predicate AllInOrder(start: State, steps: seq<Step>) {
    forall i :: 0 <= i < |steps| ==> InOrder(Run(start, steps[..i]), steps[i])
  }

  ghost predicate InSync(s: State) {
    s.subscribed && s.copy.Some? && s.baseline.Some? ==> s.copy == s.baseline
  }

  lemma StepKeepsSync(s: State, step: Step)
    requires InSync(s) && InOrder(s, step)
    ensures InSync(Next(s, step))
    ensures step == Emit(Reads) && s.subscribed ==> Next(s, step).copy.None? || Next(s, step).copy == Some(s.doc)
  {
    if step == Emit(Reads) && s.subscribed && s.copy.Some? && s.baseline.Some? {
      if !ContainsNull(s.doc) {
        NullFreeRoundTrip(s.baseline.value, s.doc);
      }
    }
  }

  /** In every such run the copy is the baseline, and after every delivery it is
      the document or the client knows that it has to read. */
  lemma {:induction false} RunsInOrderStayInSync(doc: Json, steps: seq<Step>)
    requires AllInOrder(Start(doc), steps)
    ensures InSync(Run(Start(doc), steps))
    ensures steps != [] && steps[|steps| - 1] == Emit(Reads) && Run(Start(doc), steps).subscribed ==>
              Run(Start(doc), steps).copy.None? || Run(Start(doc), steps).copy == Some(Run(Start(doc), steps).doc)
  {
    if steps != [] {
      var before, step := steps[..|steps| - 1], steps[|steps| - 1];
      forall i | 0 <= i < |before|
        ensures InOrder(Run(Start(doc), before[..i]), before[i])
      {
        assert before[..i] == steps[..i];
      }
      RunsInOrderStayInSync(doc, before);
      assert steps[..|before|] == before;
      StepKeepsSync(Run(Start(doc), before), step);
    }
  }

  /** Only a change unsettles, and an emission settles exactly if somebody is
      subscribed: this is how an unobserved change between two subscriptions
      breaks the order. */
  lemma SettledExactly(s: State, step: Step)
    ensures Settled(s) && !step.Change? ==> Settled(Next(s, step))
    ensures step.Change? && s.baseline.Some? ==> (Settled(Next(s, step)) <==> s.baseline.value == step.doc)
    ensures step == Emit(Reads) ==> (Settled(Next(s, step)) <==> s.subscribed || s.others || Settled(s))
  {
  }

  lemma RunOne(start: State, steps: seq<Step>, step: Step)
    ensures Run(start, steps + [step]) == Next(Run(start, steps), step)
  {
    assert (steps + [step])[..|steps|] == steps;
  }

  /** A client that subscribes again and reads holds a document that the emitter has
      never cached, and the next merge leaves it with a member that is gone. */
  lemma {:induction false} StaleBaseline(first: Json, extended: Json, last: Json, gone: string)
      returns (steps: seq<Step>)
    requires first.Obj? && extended.Obj? && last.Obj? && !ContainsNull(last)
    requires gone !in first.members && gone in extended.members && gone !in last.members
    ensures var s := Run(Start(first), steps);
            && s.subscribed && s.doc == last
            && s.copy.Some? && s.copy.value.Obj? && gone in s.copy.value.members && s.copy != Some(s.doc)
  {
    steps := [];
    var s := Start(first);
    steps, s := Take(first, steps, s, Subscribe);
    steps, s := Take(first, steps, s, Emit(Reads));
    steps, s := Take(first, steps, s, Fetch);
    steps, s := Take(first, steps, s, Unsubscribe);
    steps, s := Take(first, steps, s, Change(extended));
    steps, s := Take(first, steps, s, Emit(Reads));
    steps, s := Take(first, steps, s, Forget);
    steps, s := Take(first, steps, s, Subscribe);
    steps, s := Take(first, steps, s, Fetch);
    steps, s := Take(first, steps, s, Change(last));
    assert s == State(last, Some(first), true, false, Some(extended));
    steps, s := Take(first, steps, s, Emit(Reads));
    DiffHasEntry(first.members, last.members, gone);
    assert gone in Merge(extended, DiffOf(first, last)).members;
  }

  lemma Take(doc: Json, steps: seq<Step>, s: State, step: Step) returns (longer: seq<Step>, next: State)
    requires s == Run(Start(doc), steps)
    ensures longer == steps + [step] && next == Next(s, step) == Run(Start(doc), longer)
  {
    longer, next := steps + [step], Next(s, step);
    RunOne(Start(doc), steps, step);
  }
}
