/** JSON Merge Patch: the diff that is sent to subscribers and the apply that a
    client runs (internal/jsonmergepatch/merge_patch.go). */
module MergePatch {
  import opened JsonValue

  // ---------------------------------------------------------------------
  // What the two walks compute
  // ---------------------------------------------------------------------

  /** The patch member that the diff emits for `k`, if any. */
  ghost function Entry(prev: Members, curr: Members, k: string): Option<Json>
    decreases Obj(curr), 0
  {
    if k !in curr then
      if k in prev then Some(Null) else None
    else if k !in prev then Some(curr[k])
    else if prev[k] == curr[k] then None
    else if prev[k].Obj? && curr[k].Obj? then
      var sub := DiffMembers(prev[k].members, curr[k].members);
      if sub == map[] then None else Some(Obj(sub))
    else Some(curr[k])
  }

  ghost function DiffMembers(prev: Members, curr: Members): Members
    decreases Obj(curr), 1
  {
    map k | k in prev.Keys + curr.Keys && Entry(prev, curr, k).Some? :: Entry(prev, curr, k).value
  }

  ghost function DiffOf(prev: Json, curr: Json): Json {
    if prev.Obj? && curr.Obj? then Obj(DiffMembers(prev.members, curr.members)) else curr
  }

  lemma {:induction false} DiffHasEntry(prev: Members, curr: Members, k: string)
    ensures Get(DiffMembers(prev, curr), k) == Entry(prev, curr, k)
  {
    assert Entry(prev, curr, k).Some? ==> k in prev.Keys + curr.Keys;
  }

  /** MergePatch(target, patch) of section 2 of RFC 7396. */
  ghost function Merge(target: Json, patch: Json): Json
    decreases patch
  {
    if !patch.Obj? then patch else
      var base := if target.Obj? then target.members else map[];
      var p := patch.members;
      Obj(map k | k in base.Keys + p.Keys && (k in p ==> p[k] != Null) ::
            if k in p then Merge(if k in base then base[k] else Null, p[k]) else base[k])
  }

  ghost predicate ContainsNull(j: Json) {
    match j
    case Null => true
    case Arr(items) => exists i :: 0 <= i < |items| && ContainsNull(items[i])
    case Obj(m) => exists k :: k in m && ContainsNull(m[k])
    case _ => false
  }

  /** One step into a document: a member or an item. */
  datatype Hop = Name(name: string) | Index(index: nat)

  ghost function Lookup(j: Json, hops: seq<Hop>): Option<Json>
    decreases hops
  {
    if hops == [] then Some(j)
    else
      match hops[0]
      case Name(k) => if j.Obj? && k in j.members then Lookup(j.members[k], hops[1..]) else None
      case Index(i) => if j.Arr? && i < |j.items| then Lookup(j.items[i], hops[1..]) else None
  }

  /** Somewhere in the document, at any depth, there is a null. */
  ghost predicate NullSomewhere(j: Json) {
    exists hops :: Lookup(j, hops) == Some(Null)
  }

  lemma {:induction false} NullIsSomewhere(j: Json) returns (hops: seq<Hop>)
    requires ContainsNull(j)
    ensures Lookup(j, hops) == Some(Null)
    decreases j
  {
    match j
    case Null => hops := [];
    case Arr(items) =>
      var i :| 0 <= i < |items| && ContainsNull(items[i]);
      var inner := NullIsSomewhere(items[i]);
      hops := [Index(i)] + inner;
      assert hops[1..] == inner;
    case Obj(m) =>
      var k :| k in m && ContainsNull(m[k]);
      var inner := NullIsSomewhere(m[k]);
      hops := [Name(k)] + inner;
      assert hops[1..] == inner;
  }

  lemma {:induction false} SomewhereIsContained(j: Json, hops: seq<Hop>)
    requires Lookup(j, hops) == Some(Null)
    ensures ContainsNull(j)
    decreases hops
  {
    if hops != [] {
      match hops[0]
      case Name(k) => SomewhereIsContained(j.members[k], hops[1..]);
      case Index(i) => SomewhereIsContained(j.items[i], hops[1..]);
    }
  }

  lemma {:induction false} ContainsNullExactly(j: Json)
    ensures ContainsNull(j) <==> NullSomewhere(j)
  {
    if ContainsNull(j) {
      var hops := NullIsSomewhere(j);
    } else {
      forall hops | Lookup(j, hops) == Some(Null)
        ensures false
      {
        SomewhereIsContained(j, hops);
      }
    }
  }

  // ---------------------------------------------------------------------
  // The code
  // ---------------------------------------------------------------------

  /** The two loops visit the members in whatever order the map yields them. */
  method DiffObjects(prev: Members, curr: Members) returns (patch: Members)
    ensures patch == DiffMembers(prev, curr)
    decreases Obj(curr)
  {
    patch := map[];
    var rest := curr.Keys;
    while rest != {}
      invariant rest <= curr.Keys
      invariant forall k :: Get(patch, k) == if k in curr.Keys - rest then Entry(prev, curr, k) else None
      decreases rest
    {
      var key :| key in rest;
      rest := rest - {key};
      ghost var before := patch;
      if key !in prev {
        patch := patch[key := curr[key]];
      } else if prev[key] != curr[key] {
        if prev[key].Obj? && curr[key].Obj? {
          var sub := DiffObjects(prev[key].members, curr[key].members);
          if sub != map[] {
            patch := patch[key := Obj(sub)];
          }
        } else {
          patch := patch[key := curr[key]];
        }
      }
      assert forall k :: Get(patch, k) == if k == key then Entry(prev, curr, k) else Get(before, k);
    }
    var unseen := prev.Keys;
    while unseen != {}
      invariant unseen <= prev.Keys
      invariant forall k ::
        Get(patch, k) == if k in curr.Keys + (prev.Keys - unseen) then Entry(prev, curr, k) else None
      decreases unseen
    {
      var key :| key in unseen;
      unseen := unseen - {key};
      ghost var before := patch;
      if key !in curr {
        patch := patch[key := Null];
      }
      assert forall k :: Get(patch, k) == if k == key then Entry(prev, curr, k) else Get(before, k);
    }
    forall k
      ensures Get(patch, k) == Get(DiffMembers(prev, curr), k)
    {
      DiffHasEntry(prev, curr, k);
    }
    SameMembers(patch, DiffMembers(prev, curr));
  }

  method Diff(prev: Json, curr: Json) returns (patch: Json)
    ensures patch == DiffOf(prev, curr)
  {
    if !prev.Obj? || !curr.Obj? {
      return curr;
    }
    var members := DiffObjects(prev.members, curr.members);
    patch := Obj(members);
  }

  method Apply(prev: Json, patch: Json) returns (out: Json)
    ensures out == Merge(prev, patch)
    decreases patch
  {
    if !patch.Obj? {
      return patch;
    }
    var base := if prev.Obj? then prev.members else map[];
    var p := patch.members;
    var result := base;
    var rest := p.Keys;
    while rest != {}
      invariant rest <= p.Keys
      invariant forall k :: k in rest || k !in p ==> Get(result, k) == Get(base, k)
      invariant forall k :: k in p.Keys - rest ==> Get(result, k) == Get(Merge(prev, patch).members, k)
      decreases rest
    {
      var k :| k in rest;
      rest := rest - {k};
      if p[k] == Null {
        result := result - {k};
      } else if k in result {
        var merged := Apply(result[k], p[k]);
        result := result[k := merged];
      } else {
        var merged := Apply(Null, p[k]);
        result := result[k := merged];
      }
    }
    SameMembers(result, Merge(prev, patch).members);
    out := Obj(result);
  }

  lemma SameMembers(a: Members, b: Members)
    requires forall k :: Get(a, k) == Get(b, k)
    ensures a == b
  {
    forall k
      ensures k in a <==> k in b
      ensures k in a ==> a[k] == b[k]
    {
      assert Get(a, k) == Get(b, k);
    }
  }

  method HasNull(v: Json) returns (found: bool)
    ensures found == ContainsNull(v)
    ensures found <==> NullSomewhere(v)
    decreases v
  {
    ContainsNullExactly(v);
    hide NullSomewhere;
    match v
    case Null => return true;
    case Obj(m) =>
      var rest := m.Keys;
      while rest != {}
        invariant rest <= m.Keys
        invariant forall k :: k in m.Keys - rest ==> !ContainsNull(m[k])
        decreases rest
      {
        var k :| k in rest;
        var inner := HasNull(m[k]);
        if inner {
          return true;
        }
        rest := rest - {k};
      }
      return false;
    case Arr(items) =>
      for i := 0 to |items|
        invariant forall j :: 0 <= j < i ==> !ContainsNull(items[j])
      {
        var inner := HasNull(items[i]);
        if inner {
          return true;
        }
      }
      return false;
    case _ => return false;
  }

  /** The wire message: the patch and whether its format code is "full" or "merge". */
  datatype Message = MergeMessage(patch: Json) | FullMessage(doc: Json)

  ghost function MessageFor(prev: Json, curr: Json): Message {
    if ContainsNull(curr) then FullMessage(curr) else MergeMessage(DiffOf(prev, curr))
  }

  method DiffOrFull(prev: Json, curr: Json) returns (m: Message)
    ensures m == MessageFor(prev, curr)
    ensures m == if NullSomewhere(curr) then FullMessage(curr) else MergeMessage(DiffOf(prev, curr))
  {
    hide NullSomewhere;
    ContainsNullExactly(curr);
    var lossy := HasNull(curr);
    if lossy {
      return FullMessage(curr);
    }
    var patch := Diff(prev, curr);
    m := MergeMessage(patch);
  }

  // ---------------------------------------------------------------------
  // Exact round trip
  // ---------------------------------------------------------------------

  /** Every null member of `curr` that objects alone lead to is already null at
      the same place in `prev`. */
  ghost predicate NullsKept(prev: Json, curr: Json) {
    forall path | path != [] && At(curr, path) == Some(Null) :: At(prev, path) == Some(Null)
  }

  ghost function Child(j: Json, k: string): Json {
    if j.Obj? && k in j.members then j.members[k] else Null
  }

  lemma {:induction false} EmptyDiffMeansEqual(prev: Members, curr: Members)
    requires DiffMembers(prev, curr) == map[]
    ensures prev == curr
    decreases Obj(curr)
  {
    forall k
      ensures Get(prev, k) == Get(curr, k)
    {
      DiffHasEntry(prev, curr, k);
      if k in prev && k in curr && prev[k].Obj? && curr[k].Obj? {
        if DiffMembers(prev[k].members, curr[k].members) == map[] {
          EmptyDiffMeansEqual(prev[k].members, curr[k].members);
        }
      }
    }
    SameMembers(prev, curr);
  }

  /** Every emitted member is the diff of that member's two values. */
  lemma {:induction false} EntryIsChildDiff(prev: Members, curr: Members, k: string)
    requires k in curr
    ensures Get(DiffMembers(prev, curr), k) ==
            if Get(prev, k) == Some(curr[k]) then None else Some(DiffOf(Child(Obj(prev), k), curr[k]))
  {
    DiffHasEntry(prev, curr, k);
    if k in prev && prev[k] != curr[k] && prev[k].Obj? && curr[k].Obj? {
      if DiffMembers(prev[k].members, curr[k].members) == map[] {
        EmptyDiffMeansEqual(prev[k].members, curr[k].members);
      }
    }
  }

  lemma {:induction false} NullsKeptBelow(prev: Json, curr: Json, k: string)
    requires curr.Obj? && k in curr.members && NullsKept(prev, curr)
    ensures NullsKept(Child(prev, k), curr.members[k])
    ensures curr.members[k] == Null ==> At(prev, [k]) == Some(Null)
  {
    forall path | path != [] && At(curr.members[k], path) == Some(Null)
      ensures At(Child(prev, k), path) == Some(Null)
    {
      assert ([k] + path)[1..] == path;
      assert At(curr, [k] + path) == Some(Null);
    }
    assert At(curr, [k]) == Some(curr.members[k]);
  }

  lemma {:induction false} RoundTrip(prev: Json, curr: Json)
    requires NullsKept(prev, curr)
    ensures Merge(prev, DiffOf(prev, curr)) == curr
    decreases curr
  {
    if curr.Obj? {
      var c := curr.members;
      var out := Merge(prev, DiffOf(prev, curr)).members;
      forall k
        ensures Get(out, k) == Get(c, k)
      {
        if k in c {
          NullsKeptBelow(prev, curr, k);
          RoundTrip(Child(prev, k), c[k]);
          if prev.Obj? {
            EntryIsChildDiff(prev.members, c, k);
          } else {
            assert At(prev, [k]) == None;
          }
        } else if prev.Obj? {
          DiffHasEntry(prev.members, c, k);
        }
      }
      SameMembers(out, c);
    }
  }

  /** No patch at all reaches a document with a null that was not kept. */
  lemma {:induction false} PatchedNullsWereThere(prev: Json, patch: Json, path: seq<string>)
    requires path != [] && At(Merge(prev, patch), path) == Some(Null)
    ensures At(prev, path) == Some(Null)
    decreases path
  {
    var k := path[0];
    var out := Merge(prev, patch);
    if k in patch.members {
      var below := Merge(Child(prev, k), patch.members[k]);
      assert out.members[k] == below;
      if path[1..] != [] {
        PatchedNullsWereThere(Child(prev, k), patch.members[k], path[1..]);
      }
    }
  }

  /** The exact round trip, and that no other patch does better: the target can
      be reached at all exactly when the diff reaches it. */
  lemma RoundTripExactly(prev: Json, curr: Json)
    ensures Merge(prev, DiffOf(prev, curr)) == curr <==> NullsKept(prev, curr)
    ensures (exists patch :: Merge(prev, patch) == curr) <==> NullsKept(prev, curr)
  {
    if NullsKept(prev, curr) {
      RoundTrip(prev, curr);
    }
    forall patch, path | Merge(prev, patch) == curr && path != [] && At(curr, path) == Some(Null)
      ensures At(prev, path) == Some(Null)
    {
      PatchedNullsWereThere(prev, patch, path);
    }
  }

  /** The documented fallback is needed: `{"a": null}` cannot be reached from `{}`. */
  lemma NullCannotBeAdded()
    ensures Merge(Obj(map[]), DiffOf(Obj(map[]), Obj(map["a" := Null]))) != Obj(map["a" := Null])
  {
    assert At(Obj(map["a" := Null]), ["a"]) == Some(Null);
    assert At(Obj(map[]), ["a"]) == None;
    assert !NullsKept(Obj(map[]), Obj(map["a" := Null]));
    RoundTripExactly(Obj(map[]), Obj(map["a" := Null]));
  }

  // ---------------------------------------------------------------------
  // Minimality
  // ---------------------------------------------------------------------

  ghost function Nodes(j: Json): nat {
    match j
    case Arr(items) => 1 + NodesOfAll(items)
    case Obj(m) => 1 + Sum(map k | k in m :: Nodes(m[k]))
    case _ => 1
  }

  ghost function NodesOfAll(items: seq<Json>): nat {
    if items == [] then 0 else Nodes(items[0]) + NodesOfAll(items[1..])
  }

  /** No patch that produces `curr` from `prev` has fewer nodes than the diff. */
  lemma {:induction false} DiffIsMinimal(prev: Json, curr: Json, patch: Json)
    requires Merge(prev, patch) == curr
    ensures Nodes(DiffOf(prev, curr)) <= Nodes(patch)
    decreases patch
  {
    if curr.Obj? {
      var d := DiffOf(prev, curr).members;
      var p := patch.members;
      var small := map k | k in d :: Nodes(d[k]);
      var large := map k | k in p :: Nodes(p[k]);
      forall k | k in small
        ensures k in large && small[k] <= large[k]
      {
        if prev.Obj? {
          DiffHasEntry(prev.members, curr.members, k);
        }
        if k in curr.members {
          if prev.Obj? {
            EntryIsChildDiff(prev.members, curr.members, k);
          }
          assert k in p && p[k] != Null;
          DiffIsMinimal(Child(prev, k), curr.members[k], p[k]);
        }
      }
      SumMonotone(small, large);
    }
  }

  /** The diff has a member only at a place where the two documents differ ... */
  lemma {:induction false} DiffMentionsOnlyDifferences(prev: Json, curr: Json, path: seq<string>)
    requires path != [] && At(DiffOf(prev, curr), path).Some?
    ensures At(prev, path) != At(curr, path)
    decreases path
  {
    if prev.Obj? && curr.Obj? {
      var k := path[0];
      if k in curr.members {
        EntryIsChildDiff(prev.members, curr.members, k);
        if path[1..] != [] {
          DiffMentionsOnlyDifferences(Child(prev, k), curr.members[k], path[1..]);
        }
      } else {
        DiffHasEntry(prev.members, curr.members, k);
        assert path[1..] == [];
      }
    }
  }

  /** ... and it has one at every member of two objects that differ there. */
  lemma {:induction false} DiffMentionsEveryDifference(prev: Json, curr: Json, path: seq<string>, k: string)
    requires At(prev, path).Some? && At(prev, path).value.Obj?
    requires At(curr, path).Some? && At(curr, path).value.Obj?
    requires At(prev, path + [k]) != At(curr, path + [k])
    ensures At(DiffOf(prev, curr), path + [k]).Some?
    decreases path
  {
    var h := (path + [k])[0];
    if path == [] {
      DiffHasEntry(prev.members, curr.members, k);
      if k in curr.members {
        EntryIsChildDiff(prev.members, curr.members, k);
      }
    } else {
      assert (path + [k])[1..] == path[1..] + [k];
      EntryIsChildDiff(prev.members, curr.members, h);
      DiffMentionsEveryDifference(prev.members[h], curr.members[h], path[1..], k);
    }
  }

  // ---------------------------------------------------------------------
  // Delta sync over whole runs
  // ---------------------------------------------------------------------

  lemma {:induction false} MergeIdempotent(target: Json, patch: Json)
    ensures Merge(Merge(target, patch), patch) == Merge(target, patch)
    decreases patch
  {
    if patch.Obj? {
      var once := Merge(target, patch).members;
      var twice := Merge(Obj(once), patch).members;
      forall k
        ensures Get(twice, k) == Get(once, k)
      {
        if k in patch.members && patch.members[k] != Null {
          MergeIdempotent(Child(target, k), patch.members[k]);
        }
      }
      SameMembers(twice, once);
    }
  }

  ghost function Receive(doc: Json, m: Message): Json {
    match m
    case MergeMessage(patch) => Merge(doc, patch)
    case FullMessage(full) => full
  }

  ghost function ReceiveAgain(doc: Json, m: Message, times: nat): Json {
    if times == 0 then doc else Receive(ReceiveAgain(doc, m, times - 1), m)
  }

  /** One update: the server's new document, and how often its message is
      redelivered right after the first delivery. */
  datatype Update = Update(doc: Json, redelivered: nat)

  ghost function Server(start: Json, run: seq<Update>): Json {
    if run == [] then start else run[|run| - 1].doc
  }

  ghost function Client(start: Json, run: seq<Update>): Json {
    if run == [] then start else
      var before := run[..|run| - 1];
      var last := run[|run| - 1];
      ReceiveAgain(Client(start, before), MessageFor(Server(start, before), last.doc), 1 + last.redelivered)
  }

  lemma {:induction false} NoNullsMeansKept(curr: Json, path: seq<string>)
    requires !ContainsNull(curr)
    ensures At(curr, path) != Some(Null)
    decreases path
  {
    if path != [] && curr.Obj? && path[0] in curr.members {
      NoNullsMeansKept(curr.members[path[0]], path[1..]);
    }
  }

  lemma {:induction false} MessageDelivers(prev: Json, curr: Json, times: nat)
    ensures ReceiveAgain(prev, MessageFor(prev, curr), 1 + times) == curr
    decreases times
  {
    if times == 0 {
      assert ReceiveAgain(prev, MessageFor(prev, curr), 0) == prev;
      if !ContainsNull(curr) {
        forall path
          ensures At(curr, path) != Some(Null)
        {
          NoNullsMeansKept(curr, path);
        }
        RoundTrip(prev, curr);
      }
    } else {
      MessageDelivers(prev, curr, times - 1);
      MessageDelivers(prev, curr, 0);
      assert ReceiveAgain(prev, MessageFor(prev, curr), 0) == prev;
      MergeIdempotent(prev, DiffOf(prev, curr));
    }
  }

  /** A client that starts in sync holds the server's latest document after any
      run of updates, however often each message is redelivered. */
  lemma {:induction false} DeltaSync(start: Json, run: seq<Update>)
    ensures Client(start, run) == Server(start, run)
  {
    if run != [] {
      var before := run[..|run| - 1];
      DeltaSync(start, before);
      MessageDelivers(Server(start, before), run[|run| - 1].doc, run[|run| - 1].redelivered);
    }
  }
}
