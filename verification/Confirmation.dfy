/** Confirmation of high-risk calls: canonical arguments, the token store, the
    gate in front of the handlers, and runs of many interleaved calls
    (internal/safety/canonical.go, internal/safety/token.go, internal/mcp/tools.go). */
module Confirmation {
  import opened JsonValue
  import Text

  // ---------------------------------------------------------------------
  // Canonical arguments
  // ---------------------------------------------------------------------

  const DROPPED := {"confirm_token", "dry_run"}

  ghost function Normal(v: Json): Json {
    match v
    case Obj(m) => Obj(map k | k in m && k !in DROPPED :: Normal(m[k]))
    case Arr(items) => Arr(seq(|items|, i requires 0 <= i < |items| => Normal(items[i])))
    case _ => v
  }

  method NormalizeJsonValue(v: Json) returns (out: Json)
    ensures out == Normal(v)
    decreases v
  {
    match v {
      case Obj(m) =>
        var members: Members := map[];
        var rest := m.Keys;
        while rest != {}
          invariant rest <= m.Keys
          invariant members == map k | k in m.Keys - rest && k !in DROPPED :: Normal(m[k])
          decreases rest
        {
          var key :| key in rest;
          rest := rest - {key};
          if key !in DROPPED {
            var value := NormalizeJsonValue(m[key]);
            members := members[key := value];
          }
        }
        out := Obj(members);
      case Arr(items) =>
        var done: seq<Json> := [];
        for i := 0 to |items|
          invariant |done| == i
          invariant forall j :: 0 <= j < i ==> done[j] == Normal(items[j])
        {
          var item := NormalizeJsonValue(items[i]);
          done := done + [item];
        }
        out := Arr(done);
      case _ =>
        out := v;
    }
  }

  /** No object at any depth has one of the two volatile members. */
  ghost predicate Clean(v: Json) {
    match v
    case Obj(m) => m.Keys !! DROPPED && forall k :: k in m ==> Clean(m[k])
    case Arr(items) => forall i :: 0 <= i < |items| ==> Clean(items[i])
    case _ => true
  }

  /** Normalising drops the volatile members everywhere and nothing else: its
      results are clean, and a clean value is left alone. */
  lemma {:induction false} NormalIsClean(v: Json)
    ensures Clean(Normal(v))
    ensures Clean(v) <==> Normal(v) == v
  {
    match v
    case Obj(m) =>
      forall k | k in m
        ensures Clean(Normal(m[k])) && (Clean(m[k]) <==> Normal(m[k]) == m[k])
      {
        NormalIsClean(m[k]);
      }
      var n := Normal(v).members;
      if Clean(v) {
        assert n == m;
      }
      if n == m {
        assert forall k :: k in m ==> n[k] == m[k];
      }
    case Arr(items) =>
      forall i | 0 <= i < |items|
        ensures Clean(Normal(items[i])) && (Clean(items[i]) <==> Normal(items[i]) == items[i])
      {
        NormalIsClean(items[i]);
      }
      var n := Normal(v).items;
      if Clean(v) {
        assert n == items;
      }
      if n == items {
        assert forall i :: 0 <= i < |items| ==> n[i] == items[i];
      }
    case _ =>
  }

  lemma {:induction false} NormalIdempotent(v: Json)
    ensures Normal(Normal(v)) == Normal(v)
  {
    NormalIsClean(v);
    NormalIsClean(Normal(v));
  }

  /** The same arguments as far as a confirmation goes: objects that agree on every
      name but the two volatile ones, arrays that agree item by item, and otherwise
      equal values. */
  ghost predicate Alike(a: Json, b: Json)
    decreases a
  {
    if a.Obj? && b.Obj? then
      forall k | k != "confirm_token" && k != "dry_run" ::
        && (k in a.members <==> k in b.members)
        && (k in a.members && k in b.members ==> Alike(a.members[k], b.members[k]))
    else if a.Arr? && b.Arr? then
      |a.items| == |b.items| && forall i :: 0 <= i < |a.items| ==> Alike(a.items[i], b.items[i])
    else a == b
  }

  lemma DroppedNames(k: string)
    ensures k in DROPPED <==> k == "confirm_token" || k == "dry_run"
  {
  }

  /** Two values have one canonical form exactly when they are alike. */
  lemma {:induction false} NormalMeansAlike(a: Json, b: Json)
    ensures Normal(a) == Normal(b) <==> Alike(a, b)
    decreases a
  {
    if a.Obj? && b.Obj? {
      var m, n := Normal(a).members, Normal(b).members;
      forall k
        ensures k !in DROPPED ==> (Get(m, k) == Get(n, k) <==>
                  (k in a.members <==> k in b.members)
                  && (k in a.members && k in b.members ==> Alike(a.members[k], b.members[k])))
        ensures k in DROPPED ==> Get(m, k) == Get(n, k)
        ensures k in DROPPED <==> k == "confirm_token" || k == "dry_run"
      {
        DroppedNames(k);
        hide DROPPED;
        if k in a.members && k in b.members {
          NormalMeansAlike(a.members[k], b.members[k]);
        }
      }
      hide DROPPED;
      SameMap(m, n);
    } else if a.Arr? && b.Arr? {
      var x, y := Normal(a).items, Normal(b).items;
      if |x| == |y| {
        forall i | 0 <= i < |x|
          ensures x[i] == y[i] <==> Alike(a.items[i], b.items[i])
        {
          NormalMeansAlike(a.items[i], b.items[i]);
        }
        assert x == y <==> forall i :: 0 <= i < |x| ==> x[i] == y[i];
      }
    }
  }

  lemma SameMap(m: Members, n: Members)
    ensures m == n <==> forall k :: Get(m, k) == Get(n, k)
  {
    if forall k :: Get(m, k) == Get(n, k) {
      forall k
        ensures k in m <==> k in n
        ensures k in m ==> m[k] == n[k]
      {
        assert Get(m, k) == Get(n, k);
      }
    }
  }

  /** SHA-256 of the canonical text, taken to be injective. */
  datatype Digest = Digest(canonical: Json)

  // ---------------------------------------------------------------------
  // The token store
  // ---------------------------------------------------------------------

  type Token = string

  datatype Payload = Payload(toolName: string, workspaceId: string, riskClass: string, argsHash: Digest)

  datatype Issued = Issued(payload: Payload, expiresAt: int)

  type Tokens = map<Token, Issued>

  datatype Check = Valid | Unknown | Expired | OtherPayload

  ghost function CheckOf(tokens: Tokens, token: Token, payload: Payload, now: int): Check {
    if token !in tokens then Unknown
    else if now >= tokens[token].expiresAt then Expired
    else if tokens[token].payload != payload then OtherPayload
    else Valid
  }

  class TokenStore {
    const ttl: int
    var tokens: Tokens

    constructor (ttl: int)
      ensures tokens == map[] && this.ttl > 0
      ensures this.ttl == if ttl <= 0 then 300_000_000_000 else ttl
    {
      this.ttl := if ttl <= 0 then 300_000_000_000 else ttl;
      tokens := map[];
    }

    /** `token` is what the random source returned. */
    method Issue(token: Token, payload: Payload, now: int) returns (expiresAt: int)
      modifies this
      ensures expiresAt == now + ttl
      ensures tokens == old(tokens)[token := Issued(payload, now + ttl)]
    {
      expiresAt := now + ttl;
      tokens := tokens[token := Issued(payload, expiresAt)];
    }

    /** The first check of a token consumes it, whatever the outcome. */
    method Validate(token: Token, payload: Payload, now: int) returns (check: Check)
      modifies this
      ensures check == CheckOf(old(tokens), token, payload, now)
      ensures check == Valid <==>
              token in old(tokens) && now < old(tokens)[token].expiresAt && old(tokens)[token].payload == payload
      ensures check == Unknown <==> token !in old(tokens)
      ensures check == Expired <==> token in old(tokens) && old(tokens)[token].expiresAt <= now
      ensures tokens == old(tokens) - {token}
    {
      if token !in tokens {
        assert tokens == tokens - {token};
        return Unknown;
      }
      var issued := tokens[token];
      tokens := tokens - {token};
      if now >= issued.expiresAt {
        return Expired;
      }
      if issued.payload != payload {
        return OtherPayload;
      }
      check := Valid;
    }
  }

  // ---------------------------------------------------------------------
  // The gate
  // ---------------------------------------------------------------------

  datatype Tool = Tool(name: string, riskClass: string, centralPreview: bool)

  datatype Call = Call(tool: Tool, args: Members)

  /** `required` is the policy: an arbitrary predicate of tool and arguments. */
  datatype Policy = Policy(enabled: bool, workspaceId: string, required: Call -> bool)

  predicate BoolArg(args: Members, key: string) {
    key in args && args[key] == Bool(true)
  }

  function TokenArg(args: Members): Token {
    if "confirm_token" in args && args["confirm_token"].Str? then Text.TrimSpace(args["confirm_token"].s) else ""
  }

  function StripConfirmationToken(args: Members): Members {
    args - {"confirm_token"}
  }

  ghost function PayloadOf(p: Policy, c: Call): Payload {
    Payload(c.tool.name, p.workspaceId, c.tool.riskClass, Digest(Normal(Obj(StripConfirmationToken(c.args)))))
  }

  /** Two calls bind the same payload exactly when they agree on the workspace and
      the tool and their arguments are alike. */
  lemma {:induction false} SamePayload(p: Policy, a: Call, q: Policy, b: Call)
    ensures PayloadOf(p, a) == PayloadOf(q, b) <==>
            && p.workspaceId == q.workspaceId
            && a.tool.name == b.tool.name
            && a.tool.riskClass == b.tool.riskClass
            && Alike(Obj(a.args), Obj(b.args))
  {
    NormalMeansAlike(Obj(a.args), Obj(b.args));
    assert Normal(Obj(StripConfirmationToken(a.args))).members == Normal(Obj(a.args)).members;
    assert Normal(Obj(StripConfirmationToken(b.args))).members == Normal(Obj(b.args)).members;
  }

  datatype Decision =
    | Preview                          // dry run answered centrally: issue a token
    | DryRun                           // dry run by the handler: issue a token for its result
    | Execute(token: Option<Token>)    // live handler call, after consuming `token`
    | Ask                              // confirmation_required
    | Refuse(check: Check)             // confirmation_mismatch

  ghost function DecisionOf(p: Policy, tokens: Tokens, c: Call, now: int): Decision {
    if !p.enabled || !p.required(c) then Execute(None)
    else if BoolArg(c.args, "dry_run") then (if c.tool.centralPreview then Preview else DryRun)
    else if TokenArg(c.args) == "" then Ask
    else
      var check := CheckOf(tokens, TokenArg(c.args), PayloadOf(p, c), now);
      if check == Valid then Execute(Some(TokenArg(c.args))) else Refuse(check)
  }

  ghost function TokensAfter(p: Policy, tokens: Tokens, c: Call, now: int): Tokens {
    var d := DecisionOf(p, tokens, c, now);
    if d.Refuse? || (d.Execute? && d.token.Some?) then tokens - {TokenArg(c.args)}
    else tokens
  }

  /** The token that a live call presents: its text, if there is any, without white
      space at the ends. */
  ghost predicate Presents(args: Members, token: Token) {
    && token != "" && "confirm_token" in args && args["confirm_token"].Str?
    && token == Text.TrimSpace(args["confirm_token"].s)
  }

  ghost predicate IsDryRun(args: Members) {
    "dry_run" in args && args["dry_run"] == Bool(true)
  }

  /** The gate, decision by decision. A call that needs confirmation reaches its
      handler exactly if it is no dry run and presents a token that is stored for an
      identical payload and has not expired; that token is then gone, as is one that
      was refused, and no other. */
  lemma {:induction false} DecisionExactly(p: Policy, tokens: Tokens, c: Call, now: int, token: Token)
    ensures var d, needed := DecisionOf(p, tokens, c, now), p.enabled && p.required(c);
            && (d == Execute(None) <==> !needed)
            && (d == Preview <==> needed && IsDryRun(c.args) && c.tool.centralPreview)
            && (d == DryRun <==> needed && IsDryRun(c.args) && !c.tool.centralPreview)
            && (d == Ask <==> needed && !IsDryRun(c.args) && forall t :: !Presents(c.args, t))
            && (d == Execute(Some(token)) <==>
                  && needed && !IsDryRun(c.args) && Presents(c.args, token)
                  && token in tokens && now < tokens[token].expiresAt && tokens[token].payload == PayloadOf(p, c))
            && (d == Refuse(Unknown) <==>
                  needed && !IsDryRun(c.args) && exists t :: Presents(c.args, t) && t !in tokens)
            && (d == Refuse(Expired) <==>
                  && needed && !IsDryRun(c.args)
                  && exists t :: Presents(c.args, t) && t in tokens && tokens[t].expiresAt <= now)
    ensures var asks := p.enabled && p.required(c) && !IsDryRun(c.args);
            && (asks && Presents(c.args, token) ==> TokensAfter(p, tokens, c, now) == tokens - {token})
            && (!(asks && exists t :: Presents(c.args, t)) ==> TokensAfter(p, tokens, c, now) == tokens)
  {
    hide PayloadOf;
    var text := TokenArg(c.args);
    assert text != "" ==> Presents(c.args, text);
    assert forall t :: Presents(c.args, t) ==> t == text;
  }

  /** A call alike to its dry run, with the dry run's token while that is stored and
      unexpired, runs. */
  lemma {:induction false} ConfirmedCallRuns(p: Policy, tokens: Tokens, dry: Call, live: Call, token: Token, now: int)
    requires p.enabled && p.required(live) && !IsDryRun(live.args) && Presents(live.args, token)
    requires live.tool == dry.tool && Alike(Obj(dry.args), Obj(live.args))
    requires token in tokens && tokens[token].payload == PayloadOf(p, dry) && now < tokens[token].expiresAt
    ensures DecisionOf(p, tokens, live, now) == Execute(Some(token))
    ensures TokensAfter(p, tokens, live, now) == tokens - {token}
  {
    SamePayload(p, dry, p, live);
    DecisionExactly(p, tokens, live, now, token);
    hide *;
  }

  class Gate {
    const policy: Policy
    const store: TokenStore

    constructor (policy: Policy, store: TokenStore)
      ensures this.policy == policy && this.store == store
    {
      this.policy := policy;
      this.store := store;
    }

    method ConfirmationPayload(c: Call) returns (payload: Payload)
      ensures payload == PayloadOf(policy, c)
    {
      var canonical := NormalizeJsonValue(Obj(StripConfirmationToken(c.args)));
      payload := Payload(c.tool.name, policy.workspaceId, c.tool.riskClass, Digest(canonical));
    }

    /** Everything before the handler. */
    method Decide(c: Call, now: int) returns (d: Decision)
      modifies store
      ensures d == DecisionOf(policy, old(store.tokens), c, now)
      ensures store.tokens == TokensAfter(policy, old(store.tokens), c, now)
    {
      d := Execute(None);
      if policy.enabled && policy.required(c) {
        if BoolArg(c.args, "dry_run") {
          return if c.tool.centralPreview then Preview else DryRun;
        }
        var token := TokenArg(c.args);
        if token == "" {
          return Ask;
        }
        var payload := ConfirmationPayload(c);
        var check := store.Validate(token, payload, now);
        if check != Valid {
          return Refuse(check);
        }
        d := Execute(Some(token));
      }
    }

    /** The end of a dry run. */
    method IssueForResult(c: Call, token: Token, now: int) returns (expiresAt: int)
      modifies store
      ensures expiresAt == now + store.ttl
      ensures store.tokens == old(store.tokens)[token := Issued(PayloadOf(policy, c), now + store.ttl)]
    {
      var payload := ConfirmationPayload(c);
      expiresAt := store.Issue(token, payload, now);
    }
  }

  // ---------------------------------------------------------------------
  // Runs: any interleaving of the steps of many calls
  // ---------------------------------------------------------------------

  datatype Event =
    | Previewed(call: Call, token: Token, at: int)                       // a dry run handed out `token`
    | Ran(call: Call, spent: Option<Token>, decidedAt: int)              // a live handler call

  datatype Phase = Arrived | Previewing | Cleared(token: Option<Token>, at: int)

  /** `pending` are the calls being served, by call number. */
  datatype State = State(tokens: Tokens, pending: map<nat, (Call, Phase)>, log: seq<Event>)

  datatype Step =
    | Arrive(id: nat, call: Call)
    | DecideStep(id: nat, now: int)
    | IssueStep(id: nat, token: Token, now: int)
    | RunHandler(id: nat)
    | Abandon(id: nat)                                                   // an error or a timeout

  ghost predicate IssuedIn(log: seq<Event>, token: Token) {
    exists i :: 0 <= i < |log| && log[i].Previewed? && log[i].token == token
  }

  ghost predicate Enabled(s: State, step: Step) {
    match step
    case Arrive(id, _) => id !in s.pending
    case DecideStep(id, _) => id in s.pending && s.pending[id].1.Arrived?
    case IssueStep(id, token, _) => id in s.pending && s.pending[id].1.Previewing? && !IssuedIn(s.log, token)
    case RunHandler(id) => id in s.pending && s.pending[id].1.Cleared?
    case Abandon(id) => id in s.pending
  }

  ghost function Next(p: Policy, ttl: int, s: State, step: Step): State
    requires Enabled(s, step)
  {
    match step
    case Arrive(id, call) => s.(pending := s.pending[id := (call, Arrived)])
    case DecideStep(id, now) =>
      var call := s.pending[id].0;
      var d := DecisionOf(p, s.tokens, call, now);
      s.(tokens := TokensAfter(p, s.tokens, call, now),
         pending :=
           match d
           case Preview => s.pending[id := (call, Previewing)]
           case DryRun => s.pending[id := (call, Previewing)]
           case Execute(token) => s.pending[id := (call, Cleared(token, now))]
           case _ => s.pending - {id})
    case IssueStep(id, token, now) =>
      var call := s.pending[id].0;
      State(s.tokens[token := Issued(PayloadOf(p, call), now + ttl)],
            s.pending - {id},
            s.log + [Previewed(call, token, now)])
    case RunHandler(id) =>
      s.(pending := s.pending - {id},
         log := s.log + [Ran(s.pending[id].0, s.pending[id].1.token, s.pending[id].1.at)])
    case Abandon(id) => s.(pending := s.pending - {id})
  }

  /** The state after a run of steps, each of them enabled when it is taken. */
  ghost function RunOf(p: Policy, ttl: int, run: seq<Step>): Option<State> {
    if run == [] then Some(State(map[], map[], [])) else
      var before := RunOf(p, ttl, run[..|run| - 1]);
      var last := run[|run| - 1];
      if before.Some? && Enabled(before.value, last) then Some(Next(p, ttl, before.value, last)) else None
  }

  /** Before position `n` of the log, a dry run that matches the call handed out
      `token`, less than the TTL before `at`. */
  ghost predicate Backed(p: Policy, ttl: int, log: seq<Event>, n: nat, call: Call, token: Token, at: int) {
    exists i :: 0 <= i < n && i < |log| && Backs(p, ttl, log[i], call, token, at)
  }

  ghost predicate Backs(p: Policy, ttl: int, e: Event, call: Call, token: Token, at: int) {
    && e.Previewed? && e.token == token
    && PayloadOf(p, e.call) == PayloadOf(p, call)
    && at < e.at + ttl
  }

  ghost predicate Held(s: State, id: nat, token: Token) {
    id in s.pending && s.pending[id].1.Cleared? && s.pending[id].1.token == Some(token)
  }

  ghost predicate Used(s: State, i: nat, token: Token) {
    i < |s.log| && s.log[i].Ran? && s.log[i].spent == Some(token)
  }

  ghost predicate NeedsToken(p: Policy, call: Call) {
    p.enabled && p.required(call)
  }

  /** Stored tokens come from the dry runs, which never repeat a token. */
  ghost predicate StoreMatchesLog(p: Policy, ttl: int, s: State) {
    && (forall t :: t in s.tokens ==>
          exists i :: 0 <= i < |s.log| && s.log[i].Previewed? && s.log[i].token == t
                      && s.tokens[t] == Issued(PayloadOf(p, s.log[i].call), s.log[i].at + ttl))
    && (forall i, j :: 0 <= i < j < |s.log| && s.log[i].Previewed? && s.log[j].Previewed? ==>
          s.log[i].token != s.log[j].token)
    && (forall i :: 0 <= i < |s.log| && s.log[i].Previewed? ==> BoolArg(s.log[i].call.args, "dry_run"))
    && (forall id :: id in s.pending && s.pending[id].1.Previewing? ==> BoolArg(s.pending[id].0.args, "dry_run"))
  }

  /** A token is stored, or held by one cleared call, or used by one handler call. */
  ghost predicate OneOwner(p: Policy, ttl: int, s: State) {
    && (forall id: nat, t :: Held(s, id, t) ==>
          t !in s.tokens && Backed(p, ttl, s.log, |s.log|, s.pending[id].0, t, s.pending[id].1.at))
    && (forall i: nat, t :: Used(s, i, t) ==>
          t !in s.tokens && Backed(p, ttl, s.log, i, s.log[i].call, t, s.log[i].decidedAt))
    && (forall id: nat, id': nat, t :: Held(s, id, t) && Held(s, id', t) ==> id == id')
    && (forall i: nat, j: nat, t :: Used(s, i, t) && Used(s, j, t) ==> i == j)
    && (forall id: nat, i: nat, t :: Held(s, id, t) ==> !Used(s, i, t))
  }

  /** Nothing that needs a token is cleared, or run, without one. */
  ghost predicate NoBypass(p: Policy, s: State) {
    && (forall id :: id in s.pending && s.pending[id].1.Cleared? && NeedsToken(p, s.pending[id].0) ==>
          s.pending[id].1.token.Some?)
    && (forall i :: 0 <= i < |s.log| && s.log[i].Ran? && NeedsToken(p, s.log[i].call) ==> s.log[i].spent.Some?)
  }

  ghost predicate Invariant(p: Policy, ttl: int, s: State) {
    StoreMatchesLog(p, ttl, s) && OneOwner(p, ttl, s) && NoBypass(p, s)
  }

  lemma BackedLater(p: Policy, ttl: int, log: seq<Event>, e: Event, n: nat, call: Call, token: Token, at: int)
    requires Backed(p, ttl, log, n, call, token, at)
    ensures Backed(p, ttl, log + [e], n, call, token, at)
    ensures n <= |log| ==> Backed(p, ttl, log + [e], |log| + 1, call, token, at)
    ensures IssuedIn(log, token)
  {
    hide Backs;
    var i :| 0 <= i < n && i < |log| && Backs(p, ttl, log[i], call, token, at);
    assert (log + [e])[i] == log[i];
    assert log[i].Previewed? && log[i].token == token by {
      BacksFacts(p, ttl, log[i], call, token, at);
    }
  }

  lemma BacksFacts(p: Policy, ttl: int, e: Event, call: Call, token: Token, at: int)
    requires Backs(p, ttl, e, call, token, at)
    ensures e.Previewed? && e.token == token
  {
  }

  /** A longer log serves the owners of the shorter one. */
  lemma LongerLog(p: Policy, ttl: int, s: State, e: Event)
    requires OneOwner(p, ttl, s)
    ensures forall id: nat, t :: Held(s, id, t) ==>
              IssuedIn(s.log, t) && Backed(p, ttl, s.log + [e], |s.log| + 1, s.pending[id].0, t, s.pending[id].1.at)
    ensures forall i: nat, t :: Used(s, i, t) ==>
              IssuedIn(s.log, t) && Backed(p, ttl, s.log + [e], i, s.log[i].call, t, s.log[i].decidedAt)
  {
    hide Backed;
    forall id: nat, t | Held(s, id, t)
      ensures IssuedIn(s.log, t) && Backed(p, ttl, s.log + [e], |s.log| + 1, s.pending[id].0, t, s.pending[id].1.at)
    {
      BackedLater(p, ttl, s.log, e, |s.log|, s.pending[id].0, t, s.pending[id].1.at);
    }
    forall i: nat, t | Used(s, i, t)
      ensures IssuedIn(s.log, t) && Backed(p, ttl, s.log + [e], i, s.log[i].call, t, s.log[i].decidedAt)
    {
      BackedLater(p, ttl, s.log, e, i, s.log[i].call, t, s.log[i].decidedAt);
    }
  }

  lemma DecisionFacts(p: Policy, tokens: Tokens, call: Call, now: int)
    ensures var d, after := DecisionOf(p, tokens, call, now), TokensAfter(p, tokens, call, now);
            && (forall t :: t in after ==> t in tokens && after[t] == tokens[t])
            && (d.Preview? || d.DryRun? ==> BoolArg(call.args, "dry_run"))
            && (d.Execute? && NeedsToken(p, call) ==> d.token.Some?)
            && (d.Execute? && d.token.Some? ==>
                  && d.token.value in tokens && d.token.value !in after
                  && tokens[d.token.value].payload == PayloadOf(p, call)
                  && now < tokens[d.token.value].expiresAt)
  {
    hide PayloadOf;
  }

  lemma StoredIsBacked(p: Policy, ttl: int, s: State, call: Call, token: Token, now: int)
    requires StoreMatchesLog(p, ttl, s) && CheckOf(s.tokens, token, PayloadOf(p, call), now) == Valid
    ensures Backed(p, ttl, s.log, |s.log|, call, token, now)
  {
    hide PayloadOf;
    var i :| 0 <= i < |s.log| && s.log[i].Previewed? && s.log[i].token == token
             && s.tokens[token] == Issued(PayloadOf(p, s.log[i].call), s.log[i].at + ttl);
    assert Backs(p, ttl, s.log[i], call, token, now);
  }

  lemma DecideKeepsStore(p: Policy, ttl: int, s: State, id: nat, now: int)
    requires Invariant(p, ttl, s) && Enabled(s, DecideStep(id, now))
    ensures StoreMatchesLog(p, ttl, Next(p, ttl, s, DecideStep(id, now)))
  {
    hide PayloadOf;
    hide DecisionOf;
    hide TokensAfter;
    hide BoolArg;
    hide OneOwner;
    hide NoBypass;
    DecisionFacts(p, s.tokens, s.pending[id].0, now);
  }

  lemma DecideKeepsOwners(p: Policy, ttl: int, s: State, id: nat, now: int)
    requires Invariant(p, ttl, s) && Enabled(s, DecideStep(id, now))
    ensures OneOwner(p, ttl, Next(p, ttl, s, DecideStep(id, now)))
    ensures NoBypass(p, Next(p, ttl, s, DecideStep(id, now)))
  {
    hide PayloadOf;
    hide DecisionOf;
    hide TokensAfter;
    hide BoolArg;
    hide StoreMatchesLog;
    hide Backed;
    var s' := Next(p, ttl, s, DecideStep(id, now));
    var call := s.pending[id].0;
    DecisionFacts(p, s.tokens, call, now);
    assert forall i: nat, t :: Used(s', i, t) ==> Used(s, i, t);
    assert forall k: nat, t :: Held(s', k, t) && k != id ==> Held(s, k, t);
    var d := DecisionOf(p, s.tokens, call, now);
    if d.Execute? && d.token.Some? {
      StoredIsBacked(p, ttl, s, call, d.token.value, now);
      assert forall k: nat :: !Held(s, k, d.token.value);
    }
  }

  lemma StoreAfterLog(p: Policy, ttl: int, s: State, e: Event, t: Token)
    requires StoreMatchesLog(p, ttl, s) && t in s.tokens
    ensures exists i :: 0 <= i < |s.log + [e]| && (s.log + [e])[i].Previewed? && (s.log + [e])[i].token == t
                        && s.tokens[t] == Issued(PayloadOf(p, (s.log + [e])[i].call), (s.log + [e])[i].at + ttl)
  {
    hide PayloadOf;
    var i :| 0 <= i < |s.log| && s.log[i].Previewed? && s.log[i].token == t
             && s.tokens[t] == Issued(PayloadOf(p, s.log[i].call), s.log[i].at + ttl);
    assert (s.log + [e])[i] == s.log[i];
  }

  lemma IssueKeepsStore(p: Policy, ttl: int, s: State, id: nat, token: Token, now: int)
    requires Invariant(p, ttl, s) && Enabled(s, IssueStep(id, token, now))
    ensures StoreMatchesLog(p, ttl, Next(p, ttl, s, IssueStep(id, token, now)))
  {
    hide PayloadOf;
    hide BoolArg;
    hide OneOwner;
    hide NoBypass;
    var s' := Next(p, ttl, s, IssueStep(id, token, now));
    forall t | t in s'.tokens
      ensures exists i :: 0 <= i < |s'.log| && s'.log[i].Previewed? && s'.log[i].token == t
                          && s'.tokens[t] == Issued(PayloadOf(p, s'.log[i].call), s'.log[i].at + ttl)
    {
      if t == token {
        assert s'.log[|s.log|].token == t;
      } else {
        StoreAfterLog(p, ttl, s, s'.log[|s.log|], t);
      }
    }
  }

  lemma IssueKeepsOwners(p: Policy, ttl: int, s: State, id: nat, token: Token, now: int)
    requires Invariant(p, ttl, s) && Enabled(s, IssueStep(id, token, now))
    ensures OneOwner(p, ttl, Next(p, ttl, s, IssueStep(id, token, now)))
    ensures NoBypass(p, Next(p, ttl, s, IssueStep(id, token, now)))
  {
    hide PayloadOf;
    hide Backed;
    hide StoreMatchesLog;
    var s' := Next(p, ttl, s, IssueStep(id, token, now));
    LongerLog(p, ttl, s, s'.log[|s.log|]);
    assert forall i: nat, t :: Used(s', i, t) ==> Used(s, i, t);
    assert forall k: nat, t :: Held(s', k, t) ==> Held(s, k, t);
  }

  lemma RunKeepsStore(p: Policy, ttl: int, s: State, id: nat)
    requires Invariant(p, ttl, s) && Enabled(s, RunHandler(id))
    ensures StoreMatchesLog(p, ttl, Next(p, ttl, s, RunHandler(id)))
  {
    hide PayloadOf;
    hide BoolArg;
    hide OneOwner;
    hide NoBypass;
    var s' := Next(p, ttl, s, RunHandler(id));
    forall t | t in s'.tokens
      ensures exists i :: 0 <= i < |s'.log| && s'.log[i].Previewed? && s'.log[i].token == t
                          && s'.tokens[t] == Issued(PayloadOf(p, s'.log[i].call), s'.log[i].at + ttl)
    {
      StoreAfterLog(p, ttl, s, s'.log[|s.log|], t);
    }
  }

  lemma RunKeepsOwners(p: Policy, ttl: int, s: State, id: nat)
    requires Invariant(p, ttl, s) && Enabled(s, RunHandler(id))
    ensures OneOwner(p, ttl, Next(p, ttl, s, RunHandler(id)))
    ensures NoBypass(p, Next(p, ttl, s, RunHandler(id)))
  {
    hide PayloadOf;
    hide StoreMatchesLog;
    hide Backed;
    var s' := Next(p, ttl, s, RunHandler(id));
    var last := |s.log|;
    LongerLog(p, ttl, s, s'.log[last]);
    assert forall i: nat, t :: Used(s', i, t) && i != last ==> Used(s, i, t);
    assert forall t :: Used(s', last, t) ==> Held(s, id, t);
    assert forall k: nat, t :: Held(s', k, t) ==> Held(s, k, t) && k != id;
    forall t | Held(s, id, t)
      ensures Backed(p, ttl, s'.log, last, s.pending[id].0, t, s.pending[id].1.at)
    {
      BackedBelow(p, ttl, s.log, s'.log[last], s.pending[id].0, t, s.pending[id].1.at);
    }
  }

  lemma BackedBelow(p: Policy, ttl: int, log: seq<Event>, e: Event, call: Call, token: Token, at: int)
    requires Backed(p, ttl, log, |log|, call, token, at)
    ensures Backed(p, ttl, log + [e], |log|, call, token, at)
  {
    BackedLater(p, ttl, log, e, |log|, call, token, at);
  }

  lemma OtherStepsKeepInvariant(p: Policy, ttl: int, s: State, step: Step)
    requires Invariant(p, ttl, s) && Enabled(s, step) && (step.Arrive? || step.Abandon?)
    ensures Invariant(p, ttl, Next(p, ttl, s, step))
  {
    hide PayloadOf;
    hide BoolArg;
    var s' := Next(p, ttl, s, step);
    assert s'.log == s.log;
    assert forall k: nat, t :: Held(s', k, t) ==> Held(s, k, t) && s'.pending[k] == s.pending[k];
    assert forall i: nat, t :: Used(s', i, t) ==> Used(s, i, t);
  }

  lemma {:induction false} EveryRunKeepsInvariant(p: Policy, ttl: int, run: seq<Step>)
    requires RunOf(p, ttl, run).Some?
    ensures Invariant(p, ttl, RunOf(p, ttl, run).value)
  {
    hide StoreMatchesLog;
    hide OneOwner;
    hide NoBypass;
    if run == [] {
      assert Invariant(p, ttl, State(map[], map[], [])) by {
        EmptyStateIsFine(p, ttl);
      }
    } else {
      EveryRunKeepsInvariant(p, ttl, run[..|run| - 1]);
      var s := RunOf(p, ttl, run[..|run| - 1]).value;
      match run[|run| - 1]
      case DecideStep(id, now) =>
        DecideKeepsStore(p, ttl, s, id, now);
        DecideKeepsOwners(p, ttl, s, id, now);
      case IssueStep(id, token, now) =>
        IssueKeepsStore(p, ttl, s, id, token, now);
        IssueKeepsOwners(p, ttl, s, id, token, now);
      case RunHandler(id) =>
        RunKeepsStore(p, ttl, s, id);
        RunKeepsOwners(p, ttl, s, id);
      case step => OtherStepsKeepInvariant(p, ttl, s, step);
    }
  }

  lemma EmptyStateIsFine(p: Policy, ttl: int)
    ensures Invariant(p, ttl, State(map[], map[], []))
  {
    var s := State(map[], map[], []);
    assert forall i: nat, t :: !Used(s, i, t);
    assert forall id: nat, t :: !Held(s, id, t);
  }

  /** The dry run at `d` stands behind the handler call at `r`. */
  ghost predicate Confirms(ttl: int, log: seq<Event>, d: nat, r: nat)
    requires r < |log| && log[r].Ran?
  {
    && d < r
    && log[d].Previewed?
    && "dry_run" in log[d].call.args && log[d].call.args["dry_run"] == Bool(true)
    && log[d].call.tool.name == log[r].call.tool.name
    && log[d].call.tool.riskClass == log[r].call.tool.riskClass
    && Alike(Obj(log[d].call.args), Obj(log[r].call.args))
    && log[r].decidedAt < log[d].at + ttl
  }

  /** In every run with confirmation enabled, the handler calls that need
      confirmation map one-to-one to earlier dry runs of the same tool with the
      same normalised arguments, each decided within the TTL of its dry run. */
  lemma EveryRunIsConfirmed(p: Policy, ttl: int, run: seq<Step>) returns (origin: map<nat, nat>)
    requires p.enabled && RunOf(p, ttl, run).Some?
    ensures var log := RunOf(p, ttl, run).value.log;
            && (forall r: nat :: r in origin <==> r < |log| && log[r].Ran? && p.required(log[r].call))
            && (forall r: nat :: r in origin ==> Confirms(ttl, log, origin[r], r))
            && (forall r, r' :: r in origin && r' in origin && origin[r] == origin[r'] ==> r == r')
  {
    EveryRunKeepsInvariant(p, ttl, run);
    origin := OriginOf(p, ttl, RunOf(p, ttl, run).value);
  }

  lemma BackedIsConfirmed(p: Policy, ttl: int, s: State, r: nat) returns (d: nat)
    requires Invariant(p, ttl, s) && r < |s.log| && s.log[r].Ran? && NeedsToken(p, s.log[r].call)
    ensures Confirms(ttl, s.log, d, r) && s.log[r].spent == Some(s.log[d].token)
  {
    hide PayloadOf;
    var token := s.log[r].spent.value;
    assert Used(s, r, token);
    d :| 0 <= d < r && Backs(p, ttl, s.log[d], s.log[r].call, token, s.log[r].decidedAt);
    SamePayload(p, s.log[d].call, p, s.log[r].call);
    hide Alike;
  }

  lemma OriginOf(p: Policy, ttl: int, s: State) returns (origin: map<nat, nat>)
    requires p.enabled && Invariant(p, ttl, s)
    ensures forall r: nat :: r in origin <==> r < |s.log| && s.log[r].Ran? && p.required(s.log[r].call)
    ensures forall r: nat :: r in origin ==> Confirms(ttl, s.log, origin[r], r)
    ensures forall r, r' :: r in origin && r' in origin && origin[r] == origin[r'] ==> r == r'
  {
    hide Backed;
    origin := map[];
    var n := 0;
    while n < |s.log|
      invariant n <= |s.log|
      invariant forall r: nat :: r in origin <==> r < n && s.log[r].Ran? && p.required(s.log[r].call)
      invariant forall r: nat :: r in origin ==> Confirms(ttl, s.log, origin[r], r)
      invariant forall r: nat :: r in origin ==> s.log[r].spent == Some(s.log[origin[r]].token)
    {
      if s.log[n].Ran? && p.required(s.log[n].call) {
        var d := BackedIsConfirmed(p, ttl, s, n);
        origin := origin[n := d];
      }
      n := n + 1;
    }
    forall r, r' | r in origin && r' in origin && origin[r] == origin[r']
      ensures r == r'
    {
      var token := s.log[origin[r]].token;
      assert Used(s, r, token) && Used(s, r', token);
    }
  }
}
