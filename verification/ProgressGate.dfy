/** The gate in front of progress notifications (internal/mcp/server.go): values
    of a token strictly increase and bursts are cut. Times are nanoseconds. */
module ProgressGate {
  import opened JsonValue

  const SECOND := 1_000_000_000
  const MAX_PER_SECOND := 10

  datatype Gate = Gate(lastProgress: real, hasProgress: bool, windowStart: Option<int>, windowCount: nat)

  const OPEN_GATE := Gate(0.0, false, None, 0)

  datatype Attempt = Attempt(progress: real, at: int)

  /** The window that counts an attempt at `now`. */
  function Rolled(g: Gate, now: int): Gate {
    if g.windowStart.None? || now - g.windowStart.value >= SECOND
    then g.(windowStart := Some(now), windowCount := 0)
    else g
  }

  function Stale(g: Gate, progress: real): bool {
    g.hasProgress && progress <= g.lastProgress
  }

  ghost predicate Allows(g: Gate, a: Attempt) {
    !Stale(g, a.progress) && Rolled(g, a.at).windowCount < MAX_PER_SECOND
  }

  ghost function After(g: Gate, a: Attempt): Gate {
    if Stale(g, a.progress) then g
    else if !Allows(g, a) then Rolled(g, a.at)
    else Gate(a.progress, true, Rolled(g, a.at).windowStart, Rolled(g, a.at).windowCount + 1)
  }

  /** The tokens of the calls in flight, each with its own gate. */
  class Tokens {
    var active: map<string, Gate>

    constructor ()
      ensures active == map[]
    {
      active := map[];
    }

    /** False when another call in flight uses the token. */
    method Register(key: string) returns (ok: bool)
      modifies this
      ensures ok <==> key !in old(active)
      ensures active == if ok then old(active)[key := OPEN_GATE] else old(active)
    {
      if key in active {
        return false;
      }
      active := active[key := OPEN_GATE];
      ok := true;
    }

    method Release(key: string)
      modifies this
      ensures active == old(active) - {key}
    {
      active := active - {key};
    }

    method AllowProgress(key: string, a: Attempt) returns (ok: bool)
      modifies this
      ensures ok <==> key in old(active) && Allows(old(active)[key], a)
      ensures active == if key in old(active) then old(active)[key := After(old(active)[key], a)] else old(active)
    {
      if key !in active {
        return false;
      }
      var g := active[key];
      if g.hasProgress && a.progress <= g.lastProgress {
        assert active == active[key := g];
        return false;
      }
      if g.windowStart.None? || a.at - g.windowStart.value >= SECOND {
        g := g.(windowStart := Some(a.at), windowCount := 0);
        active := active[key := g];
      }
      if g.windowCount >= MAX_PER_SECOND {
        assert active == active[key := g];
        return false;
      }
      active := active[key := Gate(a.progress, true, g.windowStart, g.windowCount + 1)];
      ok := true;
    }
  }

  // ---------------------------------------------------------------------
  // One registration
  // ---------------------------------------------------------------------

  ghost function GateAfter(h: seq<Attempt>): Gate {
    if h == [] then OPEN_GATE else After(GateAfter(h[..|h| - 1]), h[|h| - 1])
  }

  ghost function Allowed(h: seq<Attempt>): seq<Attempt> {
    if h == [] then [] else
      var before := h[..|h| - 1];
      if Allows(GateAfter(before), h[|h| - 1]) then Allowed(before) + [h[|h| - 1]] else Allowed(before)
  }

  ghost predicate Monotone(h: seq<Attempt>) {
    forall i, j :: 0 <= i < j < |h| ==> h[i].at <= h[j].at
  }

  /** How many of `as` fall into the half-open second from `from`. */
  ghost function InSecond(attempts: seq<Attempt>, from: int): nat {
    if attempts == [] then 0 else
      InSecond(attempts[..|attempts| - 1], from)
      + (if from <= attempts[|attempts| - 1].at < from + SECOND then 1 else 0)
  }

  lemma InSecondAppend(attempts: seq<Attempt>, a: Attempt, from: int)
    ensures InSecond(attempts + [a], from) == InSecond(attempts, from) + (if from <= a.at < from + SECOND then 1 else 0)
  {
    assert (attempts + [a])[..|attempts|] == attempts;
  }

  lemma {:induction false} AllowedIncrease(h: seq<Attempt>)
    ensures forall i, j :: 0 <= i < j < |Allowed(h)| ==> Allowed(h)[i].progress < Allowed(h)[j].progress
    ensures GateAfter(h).hasProgress <==> Allowed(h) != []
    ensures Allowed(h) != [] ==> GateAfter(h).lastProgress == Allowed(h)[|Allowed(h)| - 1].progress
  {
    if h != [] {
      AllowedIncrease(h[..|h| - 1]);
    }
  }

  /** What the gate's window says about any half-open second from `from`. The
      attempt that opens a window is always allowed, so a second that begins later
      than the window misses at least that one. */
  lemma {:induction false} WindowExplainsSecond(h: seq<Attempt>, from: int)
    requires Monotone(h)
    ensures var g, n := GateAfter(h), InSecond(Allowed(h), from);
            && g.windowCount <= MAX_PER_SECOND
            && (g.windowStart.None? ==> n == 0)
            && (g.windowStart.Some? ==>
                  var w := g.windowStart.value;
                  && h != [] && w <= h[|h| - 1].at && g.windowCount > 0
                  && (w + SECOND <= from ==> n == 0)
                  && (w < from ==> n <= g.windowCount - 1)
                  && (w == from ==> n <= g.windowCount)
                  && (from < w < from + SECOND ==> n <= MAX_PER_SECOND - 1 + g.windowCount)
                  && (w >= from + SECOND ==> n <= 2 * MAX_PER_SECOND - 1))
  {
    if h != [] {
      var before, a := h[..|h| - 1], h[|h| - 1];
      WindowExplainsSecond(before, from);
      InSecondAppend(Allowed(before), a, from);
    }
  }

  /** The attempt opens a new window. */
  ghost predicate Opens(g: Gate, a: Attempt) {
    !Stale(g, a.progress) && (g.windowStart.None? || a.at - g.windowStart.value >= SECOND)
  }

  /** The times at which windows opened. */
  ghost function WindowStarts(h: seq<Attempt>): set<int> {
    if h == [] then {} else
      var before, a := h[..|h| - 1], h[|h| - 1];
      WindowStarts(before) + if Opens(GateAfter(before), a) then {a.at} else {}
  }

  lemma {:induction false} CurrentWindowOpened(h: seq<Attempt>)
    ensures GateAfter(h).windowStart.Some? ==> GateAfter(h).windowStart.value in WindowStarts(h)
  {
    if h != [] {
      CurrentWindowOpened(h[..|h| - 1]);
    }
  }

  /** A second into which no window opens after its start contains at most ten. */
  lemma {:induction false} QuietSecond(h: seq<Attempt>, from: int)
    requires Monotone(h) && forall w :: w in WindowStarts(h) ==> !(from < w < from + SECOND)
    ensures InSecond(Allowed(h), from) <= MAX_PER_SECOND
  {
    WindowExplainsSecond(h, from);
    CurrentWindowOpened(h);
    var g := GateAfter(h);
    if h != [] && g.windowStart.Some? && g.windowStart.value >= from + SECOND {
      var before, a := h[..|h| - 1], h[|h| - 1];
      QuietSecond(before, from);
      InSecondAppend(Allowed(before), a, from);
    }
  }

  /** Over the whole life of a registration the allowed values strictly increase;
      any half-open second contains at most nineteen of them, and at most ten
      unless a window opens within it after its start. */
  lemma ProgressIsOrderedAndBounded(h: seq<Attempt>, from: int)
    requires Monotone(h)
    ensures forall i, j :: 0 <= i < j < |Allowed(h)| ==> Allowed(h)[i].progress < Allowed(h)[j].progress
    ensures InSecond(Allowed(h), from) <= 2 * MAX_PER_SECOND - 1 == 19
    ensures (forall w :: w in WindowStarts(h) ==> !(from < w < from + SECOND)) ==>
              InSecond(Allowed(h), from) <= MAX_PER_SECOND
    ensures GateAfter(h).windowStart == Some(from) ==> InSecond(Allowed(h), from) <= MAX_PER_SECOND
  {
    if forall w :: w in WindowStarts(h) ==> !(from < w < from + SECOND) {
      QuietSecond(h, from);
    }
    AllowedIncrease(h);
    WindowExplainsSecond(h, from);
  }

  /** The windows, read off the notifications alone: one opens with the first and with
      each that comes a second or more after the last opening. */
  ghost function WindowOf(sent: seq<Attempt>): Option<int> {
    if sent == [] then None else
      var before, a := WindowOf(sent[..|sent| - 1]), sent[|sent| - 1];
      if before.None? || a.at >= before.value + 1_000_000_000 then Some(a.at) else before
  }

  /** How many notifications the latest window has. */
  ghost function InWindow(sent: seq<Attempt>): nat {
    if sent == [] then 0 else
      var before := sent[..|sent| - 1];
      if WindowOf(sent) != WindowOf(before) then 1 else InWindow(before) + 1
  }

  lemma {:induction false} GateRemembersSent(h: seq<Attempt>)
    requires Monotone(h)
    ensures GateAfter(h).windowStart == WindowOf(Allowed(h)) && GateAfter(h).windowCount == InWindow(Allowed(h))
  {
    if h != [] {
      var before, a := h[..|h| - 1], h[|h| - 1];
      GateRemembersSent(before);
      SentGrows(Allowed(before), a);
    }
  }

  lemma SentGrows(sent: seq<Attempt>, a: Attempt)
    ensures var w := WindowOf(sent);
            WindowOf(sent + [a]) == if w.None? || a.at >= w.value + 1_000_000_000 then Some(a.at) else w
    ensures InWindow(sent + [a]) == if WindowOf(sent + [a]) != WindowOf(sent) then 1 else InWindow(sent) + 1
  {
    assert (sent + [a])[..|sent|] == sent;
  }

  /** A notification passes if and only if its value is above all that passed before,
      and either it opens a window or the latest one has fewer than ten. */
  lemma {:induction false} AllowedExactly(h: seq<Attempt>, a: Attempt)
    requires Monotone(h + [a])
    ensures var sent := Allowed(h);
            Allows(GateAfter(h), a) <==>
            && (forall b :: b in sent ==> b.progress < a.progress)
            && (WindowOf(sent).None? || a.at >= WindowOf(sent).value + 1_000_000_000 || InWindow(sent) < 10)
  {
    var sent := Allowed(h);
    LastIsLatest(h, a);
    GateRemembersSent(h);
    AllowedIncrease(h);
    if sent != [] {
      assert sent[|sent| - 1] in sent;
    }
  }

  lemma OneMore(h: seq<Attempt>, now: int) returns (a: Attempt)
    requires Rolled(GateAfter(h), now).windowCount < MAX_PER_SECOND
    ensures a.at == now && Allowed(h + [a]) == Allowed(h) + [a]
    ensures GateAfter(h + [a]).windowStart == Rolled(GateAfter(h), now).windowStart
    ensures GateAfter(h + [a]).windowCount == Rolled(GateAfter(h), now).windowCount + 1
    ensures Rolled(GateAfter(h + [a]), now) == GateAfter(h + [a])
  {
    a := Attempt(GateAfter(h).lastProgress + 1.0, now);
    assert (h + [a])[..|h|] == h;
  }

  ghost predicate EndsBy(h: seq<Attempt>, now: int) {
    Monotone(h) && (h != [] ==> h[|h| - 1].at <= now)
  }

  /** `more` attempts at `now` that all pass, while the window has room. */
  lemma {:induction false} Burst(h: seq<Attempt>, more: nat, now: int) returns (longer: seq<Attempt>)
    requires EndsBy(h, now)
    requires more > 0 && Rolled(GateAfter(h), now).windowCount + more <= MAX_PER_SECOND
    ensures EndsBy(longer, now)
    ensures GateAfter(longer).windowStart == Rolled(GateAfter(h), now).windowStart
    ensures GateAfter(longer).windowCount == Rolled(GateAfter(h), now).windowCount + more
    ensures Rolled(GateAfter(longer), now) == GateAfter(longer)
    ensures |longer| == |h| + more && h <= longer && forall i :: |h| <= i < |longer| ==> longer[i].at == now
    ensures forall from :: InSecond(Allowed(longer), from) ==
                           InSecond(Allowed(h), from) + if from <= now < from + SECOND then more else 0
  {
    hide GateAfter;
    hide Rolled;
    hide Allowed;
    hide InSecond;
    var shorter := h;
    if more > 1 {
      shorter := Burst(h, more - 1, now);
    }
    var a := OneMore(shorter, now);
    longer := shorter + [a];
    forall from
      ensures InSecond(Allowed(longer), from) ==
              InSecond(Allowed(shorter), from) + if from <= now < from + SECOND then 1 else 0
    {
      InSecondAppend(Allowed(shorter), a, from);
    }
  }

  /** The bound is exact, so "ten per second" is a limit on windows only: one
      attempt opens a window, nine follow, and ten more open the next. */
  lemma NineteenInOneSecond() returns (h: seq<Attempt>, from: int)
    ensures Monotone(h) && InSecond(Allowed(h), from) == 2 * MAX_PER_SECOND - 1
  {
    h := Burst([], 1, 0);
    h := Burst(h, MAX_PER_SECOND - 1, 1);
    h := Burst(h, MAX_PER_SECOND, SECOND);
    from := 1;
  }

  /** What the window in force just before `from` has counted after `pre`. */
  ghost function CountedBefore(pre: seq<Attempt>, from: int): nat {
    var g := GateAfter(pre);
    if g.windowStart.Some? && from - g.windowStart.value < SECOND then g.windowCount else 0
  }

  /** How many the second from `from` can hold after that. */
  ghost function Room(counted: nat): int {
    if counted == 0 then MAX_PER_SECOND else 2 * MAX_PER_SECOND - counted
  }

  lemma {:induction false} NoneYet(pre: seq<Attempt>, from: int)
    requires forall a :: a in pre ==> a.at < from
    ensures InSecond(Allowed(pre), from) == 0
  {
    if pre != [] {
      NoneYet(pre[..|pre| - 1], from);
      InSecondAppend(Allowed(pre[..|pre| - 1]), pre[|pre| - 1], from);
    }
  }

  /** The notifications `n` in the second so far, by the window that counts now:
      still the one from `w0` that had counted `c` before, one that opened during
      the second, or a later one. */
  ghost predicate SoFar(w0: Option<int>, c: nat, g: Gate, n: nat, from: int) {
    && g.windowCount <= MAX_PER_SECOND
    && (g.windowStart == w0 ==> n == if c == 0 then 0 else g.windowCount - c)
    && (g.windowStart != w0 ==>
          && g.windowStart.Some? && g.windowStart.value >= from
          && (w0.Some? ==> g.windowStart.value >= w0.value + SECOND)
          && (g.windowStart.value < from + SECOND ==> n <= Room(c) - MAX_PER_SECOND + g.windowCount)
          && (g.windowStart.value >= from + SECOND ==> n <= Room(c)))
  }

  lemma SoFarStep(w0: Option<int>, c: nat, g: Gate, n: nat, from: int, a: Attempt)
    requires SoFar(w0, c, g, n, from) && a.at >= from && c <= MAX_PER_SECOND
    requires g.windowStart.Some? ==> g.windowStart.value <= a.at
    requires w0.Some? ==> w0.value < from && (c == 0 <==> from - w0.value >= SECOND)
    requires w0.None? ==> c == 0
    ensures SoFar(w0, c, After(g, a), n + (if Allows(g, a) && a.at < from + SECOND then 1 else 0), from)
  {
  }

  /** The window in force before the second opened before it. */
  lemma Beforehand(pre: seq<Attempt>, from: int)
    requires Monotone(pre) && forall a :: a in pre ==> a.at < from
    ensures var g, c := GateAfter(pre), CountedBefore(pre, from);
            && c <= MAX_PER_SECOND
            && (g.windowStart.Some? ==>
                  g.windowStart.value < from && (c == 0 <==> from - g.windowStart.value >= SECOND))
            && (g.windowStart.None? ==> c == 0)
            && SoFar(g.windowStart, c, g, InSecond(Allowed(pre), from), from)
  {
    WindowExplainsSecond(pre, from);
    NoneYet(pre, from);
  }

  lemma StartedBy(h: seq<Attempt>, now: int)
    requires Monotone(h) && forall a :: a in h ==> a.at <= now
    ensures GateAfter(h).windowStart.Some? ==> GateAfter(h).windowStart.value <= now
  {
    WindowExplainsSecond(h, now);
  }

  lemma OneAttempt(h: seq<Attempt>, a: Attempt, from: int)
    ensures GateAfter(h + [a]) == After(GateAfter(h), a)
    ensures InSecond(Allowed(h + [a]), from) ==
            InSecond(Allowed(h), from)
            + (if Allows(GateAfter(h), a) && from <= a.at < from + SECOND then 1 else 0)
  {
    assert (h + [a])[..|h|] == h;
    InSecondAppend(Allowed(h), a, from);
  }

  lemma LastIsLatest(h: seq<Attempt>, a: Attempt)
    requires Monotone(h + [a])
    ensures Monotone(h) && forall x :: x in h ==> x.at <= a.at
  {
    forall x | x in h
      ensures x.at <= a.at
    {
      var i :| 0 <= i < |h| && h[i] == x;
      assert (h + [a])[i] == x && (h + [a])[|h|] == a;
    }
    assert forall i :: 0 <= i < |h| ==> h[i] == (h + [a])[i];
  }

  lemma {:induction false} SecondAfterWindow(pre: seq<Attempt>, post: seq<Attempt>, from: int)
    requires Monotone(pre + post) && Monotone(pre)
    requires (forall a :: a in pre ==> a.at < from) && forall a :: a in post ==> a.at >= from
    ensures SoFar(GateAfter(pre).windowStart, CountedBefore(pre, from), GateAfter(pre + post),
                  InSecond(Allowed(pre + post), from), from)
    decreases |post|
  {
    hide *;
    if post == [] {
      assert pre + post == pre;
      Beforehand(pre, from);
    } else {
      var before, a := post[..|post| - 1], post[|post| - 1];
      var h := pre + before;
      WithoutLast(pre, post, from);
      SecondAfterWindow(pre, before, from);
      Beforehand(pre, from);
      StartedBy(h, a.at);
      OneAttempt(h, a, from);
      SoFarStep(GateAfter(pre).windowStart, CountedBefore(pre, from),
                GateAfter(h), InSecond(Allowed(h), from), from, a);
    }
  }

  lemma WithoutLast(pre: seq<Attempt>, post: seq<Attempt>, from: int)
    requires Monotone(pre + post) && post != [] && forall x :: x in post ==> x.at >= from
    ensures var before, a := post[..|post| - 1], post[|post| - 1];
            && pre + post == pre + before + [a]
            && Monotone(pre + before)
            && (forall x :: x in pre + before ==> x.at <= a.at)
            && (forall x :: x in before ==> x.at >= from) && a.at >= from
  {
    var before, a := post[..|post| - 1], post[|post| - 1];
    assert pre + post == pre + before + [a];
    LastIsLatest(pre + before, a);
  }

  /** The exact limit for a second: what the window in force just before it has
      counted is taken off twenty; ten if there is none. */
  lemma RoomInSecond(pre: seq<Attempt>, post: seq<Attempt>, from: int)
    requires Monotone(pre + post)
    requires (forall a :: a in pre ==> a.at < from) && forall a :: a in post ==> a.at >= from
    ensures InSecond(Allowed(pre + post), from) <= Room(CountedBefore(pre, from))
  {
    assert forall i :: 0 <= i < |pre| ==> pre[i] == (pre + post)[i];
    Beforehand(pre, from);
    SecondAfterWindow(pre, post, from);
  }

  lemma BurstSplit(pre: seq<Attempt>, h: seq<Attempt>, from: int)
    requires pre <= h && (forall a :: a in pre ==> a.at < from) && forall i :: |pre| <= i < |h| ==> h[i].at >= from
    ensures pre + h[|pre|..] == h && forall a :: a in h[|pre|..] ==> a.at >= from
  {
  }

  lemma NothingYet()
    ensures GateAfter([]) == OPEN_GATE && Monotone([]) && forall from :: InSecond(Allowed([]), from) == 0
  {
  }

  /** The limit is reached, whatever was counted before. */
  lemma RoomCanBeFilled(counted: nat) returns (pre: seq<Attempt>, post: seq<Attempt>, from: int)
    requires counted <= MAX_PER_SECOND
    ensures Monotone(pre + post)
    ensures (forall a :: a in pre ==> a.at < from) && forall a :: a in post ==> a.at >= from
    ensures CountedBefore(pre, from) == counted && InSecond(Allowed(pre + post), from) == Room(counted)
  {
    hide Allowed;
    hide InSecond;
    hide GateAfter;
    hide Monotone;
    NothingYet();
    from := 1;
    if counted == 0 {
      pre := [];
      post := Burst(pre, MAX_PER_SECOND, 1);
      assert pre + post == post;
    } else {
      pre := Burst([], counted, 0);
      var h := pre;
      if counted < MAX_PER_SECOND {
        h := Burst(pre, MAX_PER_SECOND - counted, 1);
      }
      h := Burst(h, MAX_PER_SECOND, SECOND);
      BurstSplit(pre, h, from);
      post := h[|pre|..];
    }
  }

  // ---------------------------------------------------------------------
  // Many tokens, registered and released in any order
  // ---------------------------------------------------------------------

  datatype Event =
    | Registered(key: string)
    | Released(key: string)
    | Tried(key: string, attempt: Attempt)

  ghost function ActiveAfter(events: seq<Event>): map<string, Gate> {
    if events == [] then map[] else
      var active := ActiveAfter(events[..|events| - 1]);
      match events[|events| - 1]
      case Registered(key) => if key in active then active else active[key := OPEN_GATE]
      case Released(key) => active - {key}
      case Tried(key, a) => if key in active then active[key := After(active[key], a)] else active
  }

  /** The attempts of `key` since the registration that is still in force. */
  ghost function Attempts(events: seq<Event>, key: string): Option<seq<Attempt>> {
    if events == [] then None else
      var before := Attempts(events[..|events| - 1], key);
      match events[|events| - 1]
      case Registered(k) => if k == key && before.None? then Some([]) else before
      case Released(k) => if k == key then None else before
      case Tried(k, a) => if k == key && before.Some? then Some(before.value + [a]) else before
  }

  /** Each registration has a gate of its own. */
  lemma {:induction false} RegistrationsAreIndependent(events: seq<Event>, key: string)
    ensures key in ActiveAfter(events) <==> Attempts(events, key).Some?
    ensures key in ActiveAfter(events) ==> ActiveAfter(events)[key] == GateAfter(Attempts(events, key).value)
  {
    if events != [] {
      var before := events[..|events| - 1];
      RegistrationsAreIndependent(before, key);
      match events[|events| - 1]
      case Tried(k, a) =>
        if k == key && key in ActiveAfter(before) {
          var h := Attempts(before, key).value;
          assert (h + [a])[..|h|] == h;
        }
      case _ =>
    }
  }
}
