/** The per-risk rate limiter (internal/mcp/rate_limit.go). Times are seconds,
    and the source's floating-point numbers are reals. */
module TokenBucket {
  import opened RiskClass

  datatype Bucket = Bucket(capacity: real, tokens: real, refillRate: real, last: real)

  ghost function Full(perMinute: int, now: real): Bucket {
    Bucket(perMinute as real, perMinute as real, perMinute as real / 60.0, now)
  }

  ghost function Earned(rate: real, from: real, to: real): real {
    (to - from) * rate
  }

  ghost function Refilled(b: Bucket, now: real): Bucket {
    var tokens := b.tokens + Earned(b.refillRate, b.last, now);
    b.(tokens := if tokens > b.capacity then b.capacity else tokens, last := now)
  }

  ghost predicate Allows(b: Bucket, now: real) {
    Refilled(b, now).tokens >= 1.0
  }

  ghost function After(b: Bucket, now: real): Bucket {
    var r := Refilled(b, now);
    if Allows(b, now) then r.(tokens := r.tokens - 1.0) else r
  }

  function Ceil(x: real): int {
    -((-x).Floor)
  }

  ghost function Later(now: real, seconds: int): real {
    now + seconds as real
  }

  /** With no other call in between, a retry after `seconds` succeeds and one
      after fewer whole seconds does not. */
  ghost predicate LeastWait(b: Bucket, now: real, seconds: int) {
    && seconds >= 1
    && Allows(b, Later(now, seconds))
    && (forall s: int :: 0 <= s < seconds ==> !Allows(b, Later(now, s)))
  }

  class Limiter {
    var bucket: Bucket

    constructor (perMinute: int, now: real)
      requires perMinute > 0
      ensures bucket == Full(perMinute, now)
      ensures bucket.capacity == bucket.tokens == perMinute as real
      ensures bucket.refillRate == perMinute as real / 60.0 && bucket.last == now
    {
      bucket := Bucket(perMinute as real, perMinute as real, perMinute as real / 60.0, now);
    }

    method AllowWithRetry(now: real) returns (ok: bool, retrySeconds: int)
      requires bucket.refillRate > 0.0 && bucket.capacity >= 1.0
      modifies this
      ensures bucket == After(old(bucket), now)
      ensures ok <==> Allows(old(bucket), now)
      ensures ok ==> retrySeconds == 0
      ensures !ok ==> LeastWait(bucket, now, retrySeconds)
    {
      bucket := bucket.(tokens := bucket.tokens + (now - bucket.last) * bucket.refillRate);
      bucket := bucket.(last := now);
      if bucket.tokens > bucket.capacity {
        bucket := bucket.(tokens := bucket.capacity);
      }
      if bucket.tokens < 1.0 {
        var seconds := Ceil((1.0 - bucket.tokens) / bucket.refillRate);
        if seconds < 1 {
          seconds := 1;
        }
        CeilIsLeast(bucket, now, seconds);
        return false, seconds;
      }
      bucket := bucket.(tokens := bucket.tokens - 1.0);
      return true, 0;
    }
  }

  /** A rate that is not positive means no limit, so no bucket. */
  method NewTokenBucket(perMinute: int, now: real) returns (limiter: Limiter?)
    ensures limiter == null <==> perMinute <= 0
    ensures limiter != null ==> fresh(limiter) && limiter.bucket == Full(perMinute, now)
  {
    if perMinute <= 0 {
      return null;
    }
    limiter := new Limiter(perMinute, now);
  }

  /** One limiter per risk tier; a tier without a limit has none. */
  class RiskRateLimiter {
    const read: Limiter?
    const write: Limiter?
    const billingAdmin: Limiter?
    const destructive: Limiter?

    constructor (read: Limiter?, write: Limiter?, billingAdmin: Limiter?, destructive: Limiter?)
      ensures this.read == read && this.write == write
      ensures this.billingAdmin == billingAdmin && this.destructive == destructive
    {
      this.read, this.write, this.billingAdmin, this.destructive := read, write, billingAdmin, destructive;
    }

    function BucketFor(risks: set<Risk>): (limiter: Limiter?)
      ensures Destructive in risks ==> limiter == destructive
      ensures Destructive !in risks &&
              (Billing in risks || Admin in risks || PermissionChange in risks || ExternalSideEffect in risks) ==>
                limiter == billingAdmin
      ensures !(Destructive in risks || Billing in risks || Admin in risks || PermissionChange in risks
                || ExternalSideEffect in risks) ==>
                limiter == if Write in risks then write else read
    {
      if Destructive in risks then destructive
      else if IsSensitiveWrite(risks) then billingAdmin
      else if Write in risks then write
      else read
    }

    /** A call draws on the bucket of its own tier and on no other. */
    method Allow(risks: set<Risk>, now: real) returns (ok: bool, retrySeconds: int)
      requires BucketFor(risks) != null ==>
                 BucketFor(risks).bucket.refillRate > 0.0 && BucketFor(risks).bucket.capacity >= 1.0
      modifies BucketFor(risks)
      ensures BucketFor(risks) == null ==> ok
      ensures BucketFor(risks) != null ==>
                && BucketFor(risks).bucket == After(old(BucketFor(risks).bucket), now)
                && (ok <==> Allows(old(BucketFor(risks).bucket), now))
                && (!ok ==> LeastWait(BucketFor(risks).bucket, now, retrySeconds))
    {
      var limiter := BucketFor(risks);
      if limiter == null {
        return true, 0;
      }
      ok, retrySeconds := limiter.AllowWithRetry(now);
    }
  }

  lemma QuotientBounds(x: real, rate: real, n: int)
    requires rate > 0.0 && n == Ceil(x / rate)
    ensures (n - 1) as real * rate < x <= n as real * rate
  {
    var q := x / rate;
    assert q * rate == x;
    assert (n - 1) as real < q <= n as real;
    assert (n as real - q) * rate >= 0.0;
    assert (q - (n - 1) as real) * rate > 0.0;
  }

  lemma FewerSecondsEarnLess(rate: real, a: int, b: int)
    requires rate > 0.0 && a <= b
    ensures a as real * rate <= b as real * rate
  {
    assert (b - a) as real * rate >= 0.0;
  }

  lemma AllowedAfter(b: Bucket, now: real, s: int)
    requires b.last == now && 1.0 <= b.capacity
    ensures Allows(b, Later(now, s)) <==> b.tokens + s as real * b.refillRate >= 1.0
  {
    EarnedOver(b.refillRate, now, s as real);
    hide Earned;
  }

  lemma TooEarly(b: Bucket, n: int, s: int)
    requires b.refillRate > 0.0 && s < n && (n - 1) as real * b.refillRate < 1.0 - b.tokens
    ensures b.tokens + s as real * b.refillRate < 1.0
  {
    FewerSecondsEarnLess(b.refillRate, s, n - 1);
  }

  lemma CeilIsLeast(b: Bucket, now: real, seconds: int)
    requires b.last == now && b.refillRate > 0.0 && b.tokens < 1.0 <= b.capacity
    requires var n := Ceil((1.0 - b.tokens) / b.refillRate); seconds == if n < 1 then 1 else n
    ensures LeastWait(b, now, seconds)
  {
    hide Allows;
    hide Later;
    var n := Ceil((1.0 - b.tokens) / b.refillRate);
    QuotientBounds(1.0 - b.tokens, b.refillRate, n);
    hide Ceil;
    if n < 1 {
      FewerSecondsEarnLess(b.refillRate, n, 0);
    }
    AllowedAfter(b, now, n);
    forall s: int | 0 <= s < n
      ensures !Allows(b, Later(now, s))
    {
      AllowedAfter(b, now, s);
      TooEarly(b, n, s);
    }
  }

  // ---------------------------------------------------------------------
  // Whole histories
  // ---------------------------------------------------------------------

  ghost predicate Monotone(start: real, times: seq<real>) {
    && (forall i :: 0 <= i < |times| ==> start <= times[i])
    && (forall i, j :: 0 <= i < j < |times| ==> times[i] <= times[j])
  }

  ghost function Run(b: Bucket, times: seq<real>): Bucket {
    if times == [] then b else After(Run(b, times[..|times| - 1]), times[|times| - 1])
  }

  /** How many of the calls at `times` are admitted, starting from `b`. */
  ghost function Admitted(b: Bucket, times: seq<real>): nat {
    if times == [] then 0 else
      var before := times[..|times| - 1];
      Admitted(b, before) + if Allows(Run(b, before), times[|times| - 1]) then 1 else 0
  }

  ghost predicate Sound(b: Bucket) {
    0.0 <= b.tokens <= b.capacity && b.refillRate >= 0.0
  }

  lemma NonNegativeProduct(x: real, y: real)
    requires x >= 0.0 && y >= 0.0
    ensures x * y >= 0.0
  {
  }

  lemma Distribute(x: real, y: real, rate: real)
    ensures (x + y) * rate == x * rate + y * rate
  {
  }

  lemma EarnedGrows(rate: real, from: real, mid: real, to: real)
    requires rate >= 0.0 && from <= mid <= to
    ensures 0.0 <= Earned(rate, from, mid) <= Earned(rate, from, to)
    ensures Earned(rate, from, mid) + Earned(rate, mid, to) == Earned(rate, from, to)
  {
    NonNegativeProduct(mid - from, rate);
    NonNegativeProduct(to - mid, rate);
    Distribute(mid - from, to - mid, rate);
    assert (mid - from) + (to - mid) == to - from;
  }

  lemma EarnedOver(rate: real, start: real, length: real)
    ensures Earned(rate, start, start + length) == length * rate
  {
    assert start + length - start == length;
  }

  /** Tokens stay within the capacity, and each admitted call is paid for: with
      what was there at the start or with what has been refilled since. */
  lemma {:induction false} TokensPayForCalls(b: Bucket, times: seq<real>)
    requires Sound(b) && Monotone(b.last, times)
    ensures var r := Run(b, times);
            && Sound(r) && r.capacity == b.capacity && r.refillRate == b.refillRate
            && r.last == (if times == [] then b.last else times[|times| - 1])
            && Admitted(b, times) as real + r.tokens <= b.tokens + Earned(b.refillRate, b.last, r.last)
  {
    if times == [] {
      EarnedGrows(b.refillRate, b.last, b.last, b.last);
    } else {
      hide Earned;
      var before, now := times[..|times| - 1], times[|times| - 1];
      TokensPayForCalls(b, before);
      EarnedGrows(b.refillRate, b.last, Run(b, before).last, now);
      EarnedGrows(b.refillRate, Run(b, before).last, now, now);
    }
  }

  lemma {:induction false} RunInParts(b: Bucket, first: seq<real>, second: seq<real>)
    ensures Run(b, first + second) == Run(Run(b, first), second)
    ensures Admitted(b, first + second) == Admitted(b, first) + Admitted(Run(b, first), second)
    decreases |second|
  {
    if second == [] {
      assert first + second == first;
    } else {
      var before := second[..|second| - 1];
      assert (first + second)[..|first + second| - 1] == first + before;
      RunInParts(b, first, before);
    }
  }

  /** The calls of an interval can be counted from the bucket as it is refilled
      at the first of them. */
  lemma {:induction false} RefillingFirstChangesNothing(b: Bucket, times: seq<real>)
    requires times != [] && b.tokens <= b.capacity
    ensures Admitted(Refilled(b, times[0]), times) == Admitted(b, times)
    ensures Run(Refilled(b, times[0]), times) == Run(b, times)
    decreases |times|
  {
    var before := times[..|times| - 1];
    if before == [] {
      assert Refilled(Refilled(b, times[0]), times[0]) == Refilled(b, times[0]);
    } else {
      RefillingFirstChangesNothing(b, before);
    }
  }

  lemma FirstCallsOfHistory(b: Bucket, before: seq<real>, within: seq<real>)
    requires Sound(b) && Monotone(b.last, before + within)
    ensures Sound(Run(b, before)) && Run(b, before).capacity == b.capacity && Run(b, before).refillRate == b.refillRate
    ensures Monotone(Run(b, before).last, within)
  {
    hide Earned;
    var times := before + within;
    assert forall i :: 0 <= i < |before| ==> before[i] == times[i];
    assert forall i :: 0 <= i < |within| ==> within[i] == times[|before| + i];
    TokensPayForCalls(b, before);
  }

  lemma RefilledIsSound(b: Bucket, now: real)
    requires Sound(b) && b.last <= now
    ensures var r := Refilled(b, now);
            Sound(r) && r.capacity == b.capacity && r.refillRate == b.refillRate && r.last == now
  {
    EarnedGrows(b.refillRate, b.last, now, now);
    hide Earned;
  }

  lemma IntervalAfterRefill(r: Bucket, within: seq<real>, length: real)
    requires Sound(r) && within != [] && r.last == within[0] && Monotone(within[0], within)
    requires within[|within| - 1] - within[0] <= length
    ensures Admitted(r, within) as real <= r.capacity + Earned(r.refillRate, within[0], within[0] + length)
  {
    hide Earned;
    hide Admitted;
    hide Run;
    TokensPayForCalls(r, within);
    EarnedGrows(r.refillRate, within[0], within[|within| - 1], within[0] + length);
  }

  lemma IntervalFrom(b: Bucket, within: seq<real>, length: real)
    requires Sound(b) && within != [] && Monotone(b.last, within) && within[|within| - 1] - within[0] <= length
    ensures Admitted(b, within) as real <= b.capacity + Earned(b.refillRate, within[0], within[0] + length)
  {
    RefillingFirstChangesNothing(b, within);
    RefilledIsSound(b, within[0]);
    hide Earned;
    hide Refilled;
    hide Admitted;
    hide Run;
    IntervalAfterRefill(Refilled(b, within[0]), within, length);
  }

  lemma FullIsSound(perMinute: int, now: real)
    requires perMinute > 0
    ensures Sound(Full(perMinute, now))
  {
  }

  /** In every history of calls under a monotone clock the tokens stay within the
      capacity, and the calls made within any `length` seconds are admitted at
      most `perMinute + length * perMinute / 60` times. */
  lemma AnyIntervalIsBounded(perMinute: int, start: real, before: seq<real>, within: seq<real>, length: real)
    requires perMinute > 0 && Monotone(start, before + within) && length >= 0.0
    requires within != [] ==> within[|within| - 1] - within[0] <= length
    ensures var b := Full(perMinute, start);
            && 0.0 <= Run(b, before).tokens <= perMinute as real
            && Admitted(b, before) <= Admitted(b, before + within)
            && (Admitted(b, before + within) - Admitted(b, before)) as real
               <= perMinute as real + length * (perMinute as real / 60.0)
  {
    hide Admitted;
    hide Run;
    hide Monotone;
    var b := Full(perMinute, start);
    FullIsSound(perMinute, start);
    FirstCallsOfHistory(b, before, within);
    RunInParts(b, before, within);
    if within == [] {
      assert before + within == before;
      NonNegativeProduct(length, perMinute as real / 60.0);
    } else {
      IntervalFrom(Run(b, before), within, length);
      EarnedOver(b.refillRate, within[0], length);
    }
  }

  // ---------------------------------------------------------------------
  // Which calls are admitted
  // ---------------------------------------------------------------------

  /** How many of the calls from the `i`-th on are admitted. */
  ghost function AdmittedSince(b: Bucket, times: seq<real>, i: nat): int
    requires i <= |times|
  {
    Admitted(b, times) - Admitted(b, times[..i])
  }

  /** What the calls from the `i`-th on have left at `now` of a full bucket and what
      has been refilled meanwhile. */
  ghost function Room(b: Bucket, times: seq<real>, i: nat, now: real): real
    requires i < |times|
  {
    b.capacity + Earned(b.refillRate, times[i], now) - AdmittedSince(b, times, i) as real
  }

  ghost predicate FitsEverywhere(b: Bucket, times: seq<real>, now: real, x: real) {
    x <= b.capacity && forall i: nat :: i < |times| ==> x <= Room(b, times, i, now)
  }

  lemma RunKeepsRate(b: Bucket, times: seq<real>)
    requires Sound(b) && Monotone(b.last, times)
    ensures var r := Run(b, times);
            && Sound(r) && r.capacity == b.capacity && r.refillRate == b.refillRate
            && r.last == if times == [] then b.last else times[|times| - 1]
  {
    TokensPayForCalls(b, times);
  }

  lemma RoomOneMore(b: Bucket, before: seq<real>, t: real, i: nat, now: real)
    requires Sound(b) && i <= |before| && Monotone(b.last, before + [t]) && t <= now
    ensures var paid := if Allows(Run(b, before), t) then 1.0 else 0.0;
            Room(b, before + [t], i, now) ==
            (if i < |before| then Room(b, before, i, t) else b.capacity) + Earned(b.refillRate, t, now) - paid
  {
    var times := before + [t];
    assert times[..|before|] == before && times[..i] == before[..i];
    EarnedGrows(b.refillRate, times[i], t, now);
    hide Earned;
    hide Allows;
    hide Run;
  }

  lemma AfterOneMore(r: Bucket, t: real, now: real)
    requires Sound(r) && r.last <= t <= now
    ensures var paid := if Allows(r, t) then 1.0 else 0.0;
            var left := Refilled(r, t).tokens - paid + Earned(r.refillRate, t, now);
            Refilled(After(r, t), now).tokens == if left > r.capacity then r.capacity else left
  {
    hide Earned;
  }

  lemma UntouchedIsFull(b: Bucket, now: real, x: real)
    requires Sound(b) && b.tokens == b.capacity && b.last <= now
    ensures x <= Refilled(Run(b, []), now).tokens <==> FitsEverywhere(b, [], now, x)
  {
    EarnedGrows(b.refillRate, b.last, b.last, now);
    hide Earned;
  }

  lemma RunOneMore(b: Bucket, before: seq<real>, t: real)
    ensures Run(b, before + [t]) == After(Run(b, before), t)
  {
    assert (before + [t])[..|before|] == before;
  }

  lemma {:induction false} TokensExactly(b: Bucket, times: seq<real>, now: real, x: real)
    requires Sound(b) && b.tokens == b.capacity && Monotone(b.last, times + [now])
    ensures x <= Refilled(Run(b, times), now).tokens <==> FitsEverywhere(b, times, now, x)
    decreases |times|
  {
    hide *;
    OrderOf(b.last, times, now);
    if times == [] {
      UntouchedIsFull(b, now, x);
    } else {
      var before, t := times[..|times| - 1], times[|times| - 1];
      assert times == before + [t];
      OrderOf(b.last, before, t);
      RunKeepsRate(b, before);
      var r := Run(b, before);
      var paid := if Allows(r, t) then 1.0 else 0.0;
      var y := x + paid - Earned(b.refillRate, t, now);
      AfterOneMore(r, t, now);
      RunOneMore(b, before, t);
      TokensExactly(b, before, t, y);
      FitsOneMore(b, before, t, now, x, y, paid);
      LastOf(b.last, before, t);
    }
  }

  lemma LastOf(start: real, before: seq<real>, t: real)
    requires Monotone(start, before + [t])
    ensures start <= t && (before != [] ==> before[|before| - 1] <= t)
  {
    OrderOf(start, before, t);
  }

  lemma FitsOneMore(b: Bucket, before: seq<real>, t: real, now: real, x: real, y: real, paid: real)
    requires Sound(b) && Monotone(b.last, before + [t]) && t <= now
    requires paid == (if Allows(Run(b, before), t) then 1.0 else 0.0) && y == x + paid - Earned(b.refillRate, t, now)
    ensures FitsEverywhere(b, before + [t], now, x) <==> x <= b.capacity && FitsEverywhere(b, before, t, y)
  {
    var times := before + [t];
    forall i: nat | i < |times|
      ensures x <= Room(b, times, i, now) <==> if i < |before| then y <= Room(b, before, i, t) else y <= b.capacity
    {
      RoomOneMore(b, before, t, i, now);
    }
    hide Room;
    hide Earned;
    hide Allows;
    if FitsEverywhere(b, times, now, x) {
      assert x <= Room(b, times, |before|, now);
    }
  }

  lemma OrderOf(start: real, times: seq<real>, now: real)
    requires Monotone(start, times + [now])
    ensures Monotone(start, times) && start <= now && (times != [] ==> times[|times| - 1] <= now)
    ensures times != [] ==> Monotone(start, times[..|times| - 1] + [times[|times| - 1]])
  {
    var all := times + [now];
    assert forall i :: 0 <= i < |times| ==> times[i] == all[i];
    assert all[|times|] == now;
    if times != [] {
      assert times[..|times| - 1] + [times[|times| - 1]] == times;
    }
  }

  /** One more call after `since` admitted ones is too many for a stretch of
      `elapsed` seconds: it has room for `perMinute` calls and for those refilled. */
  ghost predicate Overfills(perMinute: int, since: int, elapsed: real) {
    (since + 1) as real > perMinute as real + elapsed * (perMinute as real / 60.0)
  }

  lemma RoomInWords(perMinute: int, start: real, times: seq<real>, i: nat, now: real)
    requires i < |times|
    ensures var b := Full(perMinute, start);
            1.0 <= Room(b, times, i, now) <==> !Overfills(perMinute, AdmittedSince(b, times, i), now - times[i])
  {
    hide AdmittedSince;
    hide Admitted;
  }

  /** At any time, after any history, a call is let through if and only if it
      overfills no stretch of time from an earlier call to itself. Nothing is refused
      without such a reason. */
  lemma {:induction false} AdmittedExactly(perMinute: int, start: real, times: seq<real>, now: real)
    requires perMinute > 0 && Monotone(start, times + [now])
    ensures var b := Full(perMinute, start);
            Allows(Run(b, times), now) <==>
            forall i: nat :: i < |times| ==> !Overfills(perMinute, AdmittedSince(b, times, i), now - times[i])
  {
    var b := Full(perMinute, start);
    FullIsSound(perMinute, start);
    TokensExactly(b, times, now, 1.0);
    assert 1.0 <= b.capacity;
    forall i: nat | i < |times|
      ensures 1.0 <= Room(b, times, i, now) <==> !Overfills(perMinute, AdmittedSince(b, times, i), now - times[i])
    {
      RoomInWords(perMinute, start, times, i, now);
    }
    assert Allows(Run(b, times), now) <==> 1.0 <= Refilled(Run(b, times), now).tokens;
    hide Run;
    hide Refilled;
    hide Allows;
    hide Monotone;
    hide Room;
    hide AdmittedSince;
    hide Overfills;
    assert FitsEverywhere(b, times, now, 1.0) <==> forall i: nat :: i < |times| ==> 1.0 <= Room(b, times, i, now);
  }
}
