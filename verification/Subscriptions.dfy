/** Resource subscriptions, counted per URI, and the hub of notifiers
    (internal/mcp/resources.go, internal/mcp/notifier_hub.go). */
module Subscriptions {
  import opened JsonValue

  /** A peer, or the sentinel that stands for every registered peer. */
  datatype Notifier = Broadcast | Peer(id: nat)

  function OrBroadcast(n: Option<Notifier>): (subscriber: Notifier)
    ensures n.Some? ==> subscriber == n.value
    ensures n.None? ==> subscriber == Broadcast
  {
    if n.Some? then n.value else Broadcast
  }

  datatype Index = Index(byNotifier: map<Notifier, set<string>>, refcount: map<string, nat>)

  const EMPTY := Index(map[], map[])

  ghost predicate Subscribed(ix: Index, n: Notifier, uri: string) {
    n in ix.byNotifier && uri in ix.byNotifier[n]
  }

  ghost function Subscribers(ix: Index, uri: string): set<Notifier> {
    set n | n in ix.byNotifier && uri in ix.byNotifier[n]
  }

  /** The count is the number of subscribers, and a zero is not stored. */
  ghost predicate CountIsRight(ix: Index, uri: string) {
    && (uri in ix.refcount ==> 0 < ix.refcount[uri] == |Subscribers(ix, uri)|)
    && (uri !in ix.refcount ==> Subscribers(ix, uri) == {})
  }

  ghost predicate Consistent(ix: Index) {
    && (forall n :: n in ix.byNotifier ==> ix.byNotifier[n] != {})
    && (forall uri :: CountIsRight(ix, uri))
  }

  function SetOf(ix: Index, n: Notifier): set<string> {
    if n in ix.byNotifier then ix.byNotifier[n] else {}
  }

  function CountOf(ix: Index, uri: string): nat {
    if uri in ix.refcount then ix.refcount[uri] else 0
  }

  // What the three updates do to the maps.

  ghost function Added(ix: Index, n: Notifier, uri: string): Index {
    if Subscribed(ix, n, uri) then ix
    else Index(ix.byNotifier[n := SetOf(ix, n) + {uri}], ix.refcount[uri := CountOf(ix, uri) + 1])
  }

  ghost function Fewer(refcount: map<string, nat>, uris: set<string>): map<string, nat> {
    map u | u in refcount && !(u in uris && refcount[u] == 1) ::
      if u in uris && refcount[u] > 0 then refcount[u] - 1 else refcount[u]
  }

  ghost function Without(ix: Index, n: Notifier, uris: set<string>): Index {
    var left := SetOf(ix, n) - uris;
    Index(if left == {} then ix.byNotifier - {n} else ix.byNotifier[n := left], Fewer(ix.refcount, uris))
  }

  ghost function Removed(ix: Index, n: Notifier, uri: string): Index {
    if Subscribed(ix, n, uri) then Without(ix, n, {uri}) else ix
  }

  ghost function Dropped(ix: Index, n: Notifier): Index {
    if n in ix.byNotifier then Without(ix, n, ix.byNotifier[n]) else ix
  }

  class ResourceSubscriptions {
    var index: Index

    constructor ()
      ensures index == EMPTY
    {
      index := EMPTY;
    }

    method Add(peer: Option<Notifier>, uri: string)
      modifies this
      ensures index == Added(old(index), OrBroadcast(peer), uri)
    {
      var n := OrBroadcast(peer);
      var uris := SetOf(index, n);
      if uri in uris {
        return;
      }
      index := index.(byNotifier := index.byNotifier[n := uris + {uri}]);
      index := index.(refcount := index.refcount[uri := CountOf(index, uri) + 1]);
    }

    method Decrement(uri: string)
      modifies this
      ensures index == old(index).(refcount := Fewer(old(index).refcount, {uri}))
    {
      ghost var before := index.refcount;
      if CountOf(index, uri) > 0 {
        index := index.(refcount := index.refcount[uri := index.refcount[uri] - 1]);
        if index.refcount[uri] == 0 {
          index := index.(refcount := index.refcount - {uri});
        }
      }
      assert index.refcount == Fewer(before, {uri});
    }

    method Remove(peer: Option<Notifier>, uri: string)
      modifies this
      ensures index == Removed(old(index), OrBroadcast(peer), uri)
    {
      var n := OrBroadcast(peer);
      if n !in index.byNotifier || uri !in index.byNotifier[n] {
        return;
      }
      var left := index.byNotifier[n] - {uri};
      index := index.(byNotifier := index.byNotifier[n := left]);
      if left == {} {
        assert index.byNotifier - {n} == old(index).byNotifier - {n};
        index := index.(byNotifier := index.byNotifier - {n});
      }
      Decrement(uri);
    }

    method DropNotifier(peer: Option<Notifier>)
      modifies this
      ensures index == if peer.None? then old(index) else Dropped(old(index), peer.value)
    {
      if peer.None? || peer.value !in index.byNotifier {
        return;
      }
      var n := peer.value;
      var rest := index.byNotifier[n];
      ghost var before := index;
      while rest != {}
        invariant rest <= before.byNotifier[n]
        invariant index == before.(refcount := Fewer(before.refcount, before.byNotifier[n] - rest))
        decreases rest
      {
        var uri :| uri in rest;
        FewerOneMore(before.refcount, before.byNotifier[n] - rest, uri);
        Decrement(uri);
        assert before.byNotifier[n] - rest + {uri} == before.byNotifier[n] - (rest - {uri});
        rest := rest - {uri};
      }
      assert before.byNotifier[n] - {} == before.byNotifier[n];
      index := index.(byNotifier := index.byNotifier - {n});
    }

    method HasAnyUri(uri: string) returns (any: bool)
      requires Consistent(index)
      ensures any <==> exists n :: Subscribed(index, n, uri)
    {
      any := CountOf(index, uri) > 0;
      assert CountIsRight(index, uri);
      assert any ==> exists n :: n in Subscribers(index, uri);
      assert forall n :: Subscribed(index, n, uri) <==> n in Subscribers(index, uri);
    }

    /** The subscribed peers, each once, and whether the sentinel subscribed. */
    method TargetsFor(uri: string) returns (targets: seq<Notifier>, broadcast: bool)
      requires Consistent(index)
      ensures forall n :: n in targets <==> Subscribed(index, n, uri) && n != Broadcast
      ensures forall i, j :: 0 <= i < j < |targets| ==> targets[i] != targets[j]
      ensures broadcast <==> Subscribed(index, Broadcast, uri)
    {
      targets, broadcast := [], false;
      if CountOf(index, uri) == 0 {
        assert CountIsRight(index, uri);
        assert forall n :: Subscribed(index, n, uri) <==> n in Subscribers(index, uri);
        return;
      }
      var rest := index.byNotifier.Keys;
      while rest != {}
        invariant rest <= index.byNotifier.Keys
        invariant forall n :: n in targets <==> n !in rest && Subscribed(index, n, uri) && n != Broadcast
        invariant forall i, j :: 0 <= i < j < |targets| ==> targets[i] != targets[j]
        invariant broadcast <==> Broadcast !in rest && Subscribed(index, Broadcast, uri)
        decreases rest
      {
        var n :| n in rest;
        rest := rest - {n};
        if uri in index.byNotifier[n] {
          if n == Broadcast {
            broadcast := true;
          } else {
            targets := targets + [n];
          }
        }
      }
    }
  }

  lemma FewerOneMore(refcount: map<string, nat>, uris: set<string>, uri: string)
    requires uri !in uris
    ensures Fewer(Fewer(refcount, uris), {uri}) == Fewer(refcount, uris + {uri})
  {
  }

  // ---------------------------------------------------------------------
  // Every update keeps the counts right
  // ---------------------------------------------------------------------

  lemma AddedSubscribers(ix: Index, n: Notifier, uri: string, u: string)
    requires !Subscribed(ix, n, uri)
    ensures Subscribers(Added(ix, n, uri), u) == if u == uri then Subscribers(ix, u) + {n} else Subscribers(ix, u)
  {
  }

  lemma AddedCount(ix: Index, n: Notifier, uri: string, u: string)
    requires CountIsRight(ix, u) && !Subscribed(ix, n, uri)
    ensures CountIsRight(Added(ix, n, uri), u)
  {
    AddedSubscribers(ix, n, uri, u);
    assert u == uri ==> n !in Subscribers(ix, u);
    hide Subscribers;
    var before := Subscribers(ix, u);
    assert n !in before ==> |before + {n}| == |before| + 1;
  }

  lemma AddedKeepsCounts(ix: Index, n: Notifier, uri: string)
    requires Consistent(ix)
    ensures Consistent(Added(ix, n, uri))
    ensures forall m, u :: Subscribed(Added(ix, n, uri), m, u) <==> Subscribed(ix, m, u) || (m == n && u == uri)
  {
    hide CountIsRight;
    if !Subscribed(ix, n, uri) {
      forall u
        ensures CountIsRight(Added(ix, n, uri), u)
      {
        AddedCount(ix, n, uri, u);
      }
    }
  }

  lemma WithoutPair(ix: Index, n: Notifier, uris: set<string>, m: Notifier, u: string)
    requires n in ix.byNotifier && uris <= ix.byNotifier[n]
    ensures Subscribed(Without(ix, n, uris), m, u) <==> Subscribed(ix, m, u) && !(m == n && u in uris)
  {
    assert u in ix.byNotifier[n] && u !in uris <==> u in SetOf(ix, n) - uris;
  }

  lemma WithoutSubscribers(ix: Index, n: Notifier, uris: set<string>, u: string)
    requires n in ix.byNotifier && uris <= ix.byNotifier[n]
    ensures Subscribers(Without(ix, n, uris), u) == if u in uris then Subscribers(ix, u) - {n} else Subscribers(ix, u)
    ensures u in uris ==> n in Subscribers(ix, u)
  {
    forall m
      ensures m in Subscribers(Without(ix, n, uris), u) <==> m in Subscribers(ix, u) && !(m == n && u in uris)
    {
      WithoutPair(ix, n, uris, m, u);
    }
  }

  lemma WithoutCount(ix: Index, n: Notifier, uris: set<string>, u: string)
    requires n in ix.byNotifier && uris <= ix.byNotifier[n] && CountIsRight(ix, u)
    ensures CountIsRight(Without(ix, n, uris), u)
  {
    WithoutSubscribers(ix, n, uris, u);
    hide Subscribers;
    if u in uris {
      var before := Subscribers(ix, u);
      assert |before - {n}| == |before| - 1;
      assert |before - {n}| == 0 <==> before - {n} == {};
    }
  }

  lemma WithoutKeepsCounts(ix: Index, n: Notifier, uris: set<string>)
    requires Consistent(ix) && n in ix.byNotifier && uris <= ix.byNotifier[n]
    ensures Consistent(Without(ix, n, uris))
    ensures forall m, u :: Subscribed(Without(ix, n, uris), m, u) <==> Subscribed(ix, m, u) && !(m == n && u in uris)
  {
    hide CountIsRight;
    forall u
      ensures CountIsRight(Without(ix, n, uris), u)
    {
      WithoutCount(ix, n, uris, u);
    }
    forall m, u
      ensures Subscribed(Without(ix, n, uris), m, u) <==> Subscribed(ix, m, u) && !(m == n && u in uris)
    {
      WithoutPair(ix, n, uris, m, u);
    }
  }

  // ---------------------------------------------------------------------
  // The hub
  // ---------------------------------------------------------------------

  class NotifierHub {
    var notifiers: map<nat, Notifier>
    var nextId: nat
    const subscriptions: ResourceSubscriptions

    constructor (subscriptions: ResourceSubscriptions)
      ensures this.subscriptions == subscriptions && notifiers == map[] && nextId == 0
    {
      this.subscriptions := subscriptions;
      notifiers := map[];
      nextId := 0;
    }

    /** Returns the number that the removal closure captures. */
    method Add(n: Notifier) returns (id: nat)
      modifies this
      ensures id == old(nextId) && nextId == old(nextId) + 1
      ensures notifiers == old(notifiers)[id := n]
    {
      id := nextId;
      nextId := nextId + 1;
      notifiers := notifiers[id := n];
    }

    /** The removal closure of `n`, added as `id`. */
    method Close(id: nat, n: Notifier)
      modifies this, subscriptions
      ensures nextId == old(nextId)
      ensures notifiers == old(notifiers) - {id}
      ensures subscriptions.index ==
              if id in old(notifiers) then Dropped(old(subscriptions.index), n) else old(subscriptions.index)
    {
      var present := id in notifiers;
      notifiers := notifiers - {id};
      if present {
        subscriptions.DropNotifier(Some(n));
      }
    }

    /** No notifier is registered under two numbers. */
    ghost predicate EachOnce()
      reads this
    {
      forall id, id' :: id in notifiers && id' in notifiers && notifiers[id] == notifiers[id'] ==> id == id'
    }

    /** Every registered notifier, once per registration. */
    method Notify() returns (sent: seq<Notifier>)
      ensures forall n :: n in sent <==> n in notifiers.Values
      ensures |sent| == |notifiers|
      ensures NoRepeats(sent) <==> EachOnce()
    {
      sent := [];
      ghost var ids: seq<nat> := [];
      var rest := notifiers.Keys;
      while rest != {}
        invariant rest <= notifiers.Keys
        invariant |sent| == |ids| && |sent| + |rest| == |notifiers|
        invariant forall id :: id in ids <==> id in notifiers && id !in rest
        invariant forall i, j :: 0 <= i < j < |ids| ==> ids[i] != ids[j]
        invariant forall i :: 0 <= i < |ids| ==> ids[i] in notifiers && sent[i] == notifiers[ids[i]]
        decreases rest
      {
        var id :| id in rest;
        rest := rest - {id};
        sent := sent + [notifiers[id]];
        ids := ids + [id];
      }
      SentOncePerId(notifiers, ids, sent);
    }

    /** The peers that are sent an update of `uri`: the subscribed ones, each
        once, or every registered one when the sentinel subscribed. The comment on
        that branch promises at most one delivery to each and none missed: it is
        right about the first exactly when no notifier is registered twice, and
        about the second exactly when every subscribed peer is registered. */
    method NotifyResourceUpdated(uri: string) returns (sent: seq<Notifier>)
      requires Consistent(subscriptions.index)
      ensures uri == "" ==> sent == []
      ensures uri != "" && !Subscribed(subscriptions.index, Broadcast, uri) ==>
                && (forall n :: n in sent <==> Subscribed(subscriptions.index, n, uri))
                && NoRepeats(sent)
      ensures uri != "" && Subscribed(subscriptions.index, Broadcast, uri) ==>
                && (forall n :: n in sent <==> n in notifiers.Values)
                && |sent| == |notifiers|
                && (NoRepeats(sent) <==> EachOnce())
                && (ReachesAll(sent, subscriptions.index, uri) <==>
                      Subscribers(subscriptions.index, uri) - {Broadcast} <= notifiers.Values)
    {
      sent := [];
      if uri == "" {
        return;
      }
      var targets, broadcast := subscriptions.TargetsFor(uri);
      if |targets| == 0 && !broadcast {
        return;
      }
      if broadcast {
        sent := Notify();
        ReachesAllExactly(sent, subscriptions.index, uri, notifiers.Values);
        return;
      }
      sent := targets;
    }
  }

  ghost predicate NoRepeats(sent: seq<Notifier>) {
    forall i, j :: 0 <= i < j < |sent| ==> sent[i] != sent[j]
  }

  /** Every peer subscribed to `uri` is among those that are sent to. */
  ghost predicate ReachesAll(sent: seq<Notifier>, ix: Index, uri: string) {
    forall n :: Subscribed(ix, n, uri) && n != Broadcast ==> n in sent
  }

  lemma ReachesAllExactly(sent: seq<Notifier>, ix: Index, uri: string, registered: set<Notifier>)
    requires forall n :: n in sent <==> n in registered
    ensures ReachesAll(sent, ix, uri) <==> Subscribers(ix, uri) - {Broadcast} <= registered
  {
    assert forall n :: Subscribed(ix, n, uri) <==> n in Subscribers(ix, uri);
  }

  lemma SentOncePerId(notifiers: map<nat, Notifier>, ids: seq<nat>, sent: seq<Notifier>)
    requires |sent| == |ids| && (forall id :: id in ids <==> id in notifiers)
    requires forall i, j :: 0 <= i < j < |ids| ==> ids[i] != ids[j]
    requires forall i :: 0 <= i < |ids| ==> ids[i] in notifiers && sent[i] == notifiers[ids[i]]
    ensures forall n :: n in sent <==> n in notifiers.Values
    ensures NoRepeats(sent) <==>
              forall id, id' :: id in notifiers && id' in notifiers && notifiers[id] == notifiers[id'] ==> id == id'
  {
    forall n | n in notifiers.Values
      ensures n in sent
    {
      var id :| id in notifiers && notifiers[id] == n;
      var i :| 0 <= i < |ids| && ids[i] == id;
    }
    if NoRepeats(sent) {
      forall id, id' | id in notifiers && id' in notifiers && notifiers[id] == notifiers[id']
        ensures id == id'
      {
        assert id in ids && id' in ids;
        var i :| 0 <= i < |ids| && ids[i] == id;
        var j :| 0 <= j < |ids| && ids[j] == id';
        assert sent[i] == sent[j];
      }
    }
  }

  // ---------------------------------------------------------------------
  // Runs
  // ---------------------------------------------------------------------

  datatype Op =
    | Subscribe(peer: Option<Notifier>, uri: string)
    | Unsubscribe(peer: Option<Notifier>, uri: string)
    | Open(n: Notifier)
    | Close(id: nat)

  /** `given` are the notifiers by the number they were added under. */
  datatype State = State(index: Index, notifiers: map<nat, Notifier>, given: seq<Notifier>)

  ghost function Next(s: State, op: Op): State {
    match op
    case Subscribe(peer, uri) => s.(index := Added(s.index, OrBroadcast(peer), uri))
    case Unsubscribe(peer, uri) => s.(index := Removed(s.index, OrBroadcast(peer), uri))
    case Open(n) => s.(notifiers := s.notifiers[|s.given| := n], given := s.given + [n])
    case Close(id) =>
      if id < |s.given| && id in s.notifiers
      then s.(notifiers := s.notifiers - {id}, index := Dropped(s.index, s.given[id]))
      else s
  }

  ghost function Run(ops: seq<Op>): State {
    if ops == [] then State(EMPTY, map[], []) else Next(Run(ops[..|ops| - 1]), ops[|ops| - 1])
  }

  /** Whether the last operation about `n` and `uri` left them subscribed. */
  ghost predicate LastWord(ops: seq<Op>, n: Notifier, uri: string) {
    ops != [] &&
    var before, last := ops[..|ops| - 1], ops[|ops| - 1];
    match last
    case Subscribe(peer, u) => (OrBroadcast(peer) == n && u == uri) || LastWord(before, n, uri)
    case Unsubscribe(peer, u) => !(OrBroadcast(peer) == n && u == uri) && LastWord(before, n, uri)
    case Open(_) => LastWord(before, n, uri)
    case Close(id) =>
      && !(id < |Run(before).given| && id in Run(before).notifiers && Run(before).given[id] == n)
      && LastWord(before, n, uri)
  }

  /** After any run the counts match the relation, and the relation is what the
      history of each pair says. */
  lemma {:induction false} EveryRunIsConsistent(ops: seq<Op>)
    ensures Consistent(Run(ops).index)
    ensures forall n, uri :: Subscribed(Run(ops).index, n, uri) <==> LastWord(ops, n, uri)
    ensures forall id :: id in Run(ops).notifiers ==> id < |Run(ops).given|
  {
    if ops != [] {
      hide Consistent;
      hide Added;
      hide Without;
      var before := ops[..|ops| - 1];
      var s := Run(before);
      EveryRunIsConsistent(before);
      match ops[|ops| - 1]
      case Subscribe(peer, uri) => AddedKeepsCounts(s.index, OrBroadcast(peer), uri);
      case Unsubscribe(peer, uri) =>
        if Subscribed(s.index, OrBroadcast(peer), uri) {
          WithoutKeepsCounts(s.index, OrBroadcast(peer), {uri});
        }
      case Open(_) =>
      case Close(id) =>
        if id in s.notifiers && s.given[id] in s.index.byNotifier {
          WithoutKeepsCounts(s.index, s.given[id], s.index.byNotifier[s.given[id]]);
        }
    } else {
      assert forall uri :: Subscribers(EMPTY, uri) == {};
    }
  }

  /** Once a removal closure has run, its notifier is gone and has no
      subscriptions, and running it again at any later time changes nothing. */
  lemma {:induction false} CloseWorksOnce(ops: seq<Op>, id: nat, later: seq<Op>)
    requires id < |Run(ops).given|
    ensures forall uri :: id in Run(ops).notifiers ==>
              !Subscribed(Run(ops + [Close(id)]).index, Run(ops).given[id], uri)
    ensures id !in Run(ops + [Close(id)] + later).notifiers && id < |Run(ops + [Close(id)] + later).given|
    ensures Next(Run(ops + [Close(id)] + later), Close(id)) == Run(ops + [Close(id)] + later)
    decreases |later|
  {
    var closed := ops + [Close(id)];
    assert closed[..|ops|] == ops;
    if later == [] {
      assert closed + [] == closed;
    } else {
      var shorter := later[..|later| - 1];
      CloseWorksOnce(ops, id, shorter);
      assert (closed + later)[..|closed + later| - 1] == closed + shorter;
    }
  }

  lemma RunOne(ops: seq<Op>, op: Op)
    ensures Run(ops + [op]) == Next(Run(ops), op)
  {
    assert (ops + [op])[..|ops|] == ops;
  }

  /** Both halves of that promise can fail next to a subscription of the sentinel:
      with a notifier that was registered twice ... */
  lemma BroadcastMayRepeat(n: Notifier, uri: string)
    ensures var s := Run([Subscribe(None, uri), Open(n), Open(n)]);
            && Subscribed(s.index, Broadcast, uri)
            && 0 in s.notifiers && 1 in s.notifiers && s.notifiers[0] == s.notifiers[1] == n
  {
    var ops: seq<Op> := [];
    RunOne(ops, Subscribe(None, uri));
    RunOne(ops + [Subscribe(None, uri)], Open(n));
    RunOne(ops + [Subscribe(None, uri)] + [Open(n)], Open(n));
    assert ops + [Subscribe(None, uri)] + [Open(n)] + [Open(n)] == [Subscribe(None, uri), Open(n), Open(n)];
  }

  /** ... and with a peer that subscribed without being registered. */
  lemma BroadcastMayMiss(n: nat, uri: string)
    ensures var s := Run([Subscribe(None, uri), Subscribe(Some(Peer(n)), uri)]);
            && Subscribed(s.index, Broadcast, uri)
            && Peer(n) in Subscribers(s.index, uri) - {Broadcast} && Peer(n) !in s.notifiers.Values
  {
    var ops: seq<Op> := [];
    RunOne(ops, Subscribe(None, uri));
    RunOne(ops + [Subscribe(None, uri)], Subscribe(Some(Peer(n)), uri));
    assert ops + [Subscribe(None, uri)] + [Subscribe(Some(Peer(n)), uri)]
        == [Subscribe(None, uri), Subscribe(Some(Peer(n)), uri)];
  }
}
