/** The response size guard (internal/mcp/response_size_guard.go). */
module SizeGuard {
  import opened JsonValue
  import opened Text

  /** From here on the encoder writes whole numbers with an exponent. No list in
      memory is that long. */
  const EXPONENT_FROM := 1_000_000_000_000_000_000_000

  /** What the JSON encoder writes for numbers and strings, and the length it
      writes for a whole document. */
  datatype Encoder = Encoder(num: real -> nat, str: string -> nat, marshalled: Json -> nat) {
    ghost predicate Valid() {
      && (forall n :: num(n) >= 1)
      && (forall n: nat :: n < EXPONENT_FROM ==> num(n as real) == |Decimal(n)|)
      && (forall s :: str(s) >= 2)
      && (forall j :: marshalled(j) == Size(this, j))
    }
  }

  ghost function Commas(n: nat): nat { if n == 0 then 0 else n - 1 }

  /** The length of the compact encoding. */
  ghost function Size(e: Encoder, j: Json): nat
    decreases j, 1
  {
    match j
    case Null => 4
    case Bool(b) => if b then 4 else 5
    case Num(n) => e.num(n)
    case Str(s) => e.str(s)
    case Arr(items) => 2 + SizeOfAll(e, items) + Commas(|items|)
    case Obj(m) => 2 + Sum(MemberSizes(e, m)) + Commas(|m|)
  }

  ghost function MemberSizes(e: Encoder, m: Members): map<string, nat>
    decreases Obj(m), 0
  {
    map k | k in m :: e.str(k) + 1 + Size(e, m[k])
  }

  ghost function SizeOfAll(e: Encoder, items: seq<Json>): nat
    decreases items
  {
    if items == [] then 0 else SizeOfAll(e, items[..|items| - 1]) + Size(e, items[|items| - 1])
  }

  /** What the guard relies on about encoded lengths: replacing a member changes
      the length by the difference of the two values, one more list item costs
      at least two bytes, and a count costs its digits. */
  ghost predicate IsLength(len: Json -> nat) {
    && (forall a, b, k :: SameBut(a, b, k) ==> len(Obj(a)) - len(a[k]) == len(Obj(b)) - len(b[k]))
    && (forall items: seq<Json>, v :: items != [] ==> len(Arr(items)) + 2 <= len(Arr(items + [v])))
    && (forall n: nat :: n < EXPONENT_FROM ==> len(Num(n as real)) == |Decimal(n)|)
  }

  ghost predicate SameBut(a: Members, b: Members, k: string) {
    k in a && k in b && a == b[k := a[k]]
  }

  lemma {:induction false} EncoderMeasuresLength(e: Encoder)
    requires e.Valid()
    ensures IsLength(e.marshalled)
  {
    forall a, b, k | SameBut(a, b, k)
      ensures e.marshalled(Obj(a)) - e.marshalled(a[k]) == e.marshalled(Obj(b)) - e.marshalled(b[k])
    {
      MemberUpdate(e, b, k, a[k]);
    }
    forall items: seq<Json>, v | items != []
      ensures e.marshalled(Arr(items)) + 2 <= e.marshalled(Arr(items + [v]))
    {
      ItemAppended(e, items, v);
    }
  }

  lemma {:induction false} MemberUpdate(e: Encoder, m: Members, k: string, v: Json)
    requires k in m
    ensures Size(e, Obj(m[k := v])) == Size(e, Obj(m)) - Size(e, m[k]) + Size(e, v)
  {
    assert MemberSizes(e, m[k := v]) == MemberSizes(e, m)[k := e.str(k) + 1 + Size(e, v)];
    SumUpdate(MemberSizes(e, m), k, e.str(k) + 1 + Size(e, v));
    assert |m| == |m.Keys| == |m[k := v].Keys| == |m[k := v]|;
  }

  lemma ItemAppended(e: Encoder, items: seq<Json>, v: Json)
    requires e.Valid() && items != []
    ensures Size(e, Arr(items)) + 2 <= Size(e, Arr(items + [v]))
  {
    assert (items + [v])[..|items|] == items;
    EverythingTakesAByte(e, v);
  }

  lemma EverythingTakesAByte(e: Encoder, j: Json)
    requires e.Valid()
    ensures Size(e, j) >= 1
  {
  }

  // ---------------------------------------------------------------------
  // What one truncation does
  // ---------------------------------------------------------------------

  /** The list is the envelope's data, or it is a field of the data. */
  datatype Shape = Whole | Field(key: string)

  /** The wording of the hint is immaterial here and cut short. */
  const HINT := "size-capped"

  ghost function ListAt(env: Members, shape: Shape): Option<seq<Json>> {
    var data := if "data" in env then env["data"] else Null;
    match shape
    case Whole => if data.Arr? then Some(data.items) else None
    case Field(key) =>
      if data.Obj? && key in data.members && data.members[key].Arr? then Some(data.members[key].items) else None
  }

  /** The lists that may be cut have a length that fits a machine integer. */
  ghost predicate InMemory(env: Members) {
    forall shape :: ListAt(env, shape).Some? ==> |ListAt(env, shape).value| < EXPONENT_FROM
  }

  ghost function DataWith(data: Json, shape: Shape, kept: seq<Json>): Json
    requires shape.Field? ==> data.Obj?
  {
    match shape
    case Whole => Arr(kept)
    case Field(key) =>
      var v := data.members[key := Arr(kept)];
      Obj(if "count" in v then v["count" := Num(|kept| as real)] else v)
  }

  ghost function MetaWith(meta: Members, returned: nat, dropped: nat): Members {
    Stamped(meta)["returned" := Num(returned as real)]["dropped" := Num(dropped as real)]
  }

  ghost function Stamped(meta: Members): Members {
    meta + map["truncated" := Bool(true), "size_capped" := Bool(true), "next_hint" := Str(HINT)]
  }

  ghost function MetaOf(env: Members): Members {
    if "meta" in env && env["meta"].Obj? then env["meta"].members else map[]
  }

  /** The envelope with the first `kept` items of its list. */
  ghost function Capped(env: Members, shape: Shape, kept: nat): Members
    requires ListAt(env, shape).Some? && kept <= |ListAt(env, shape).value|
  {
    var items := ListAt(env, shape).value;
    Assemble(env, DataWith(env["data"], shape, items[..kept]), kept, |items| - kept)
  }

  ghost function Assemble(env: Members, data: Json, returned: nat, dropped: nat): Members {
    env["data" := data]["meta" := Obj(MetaWith(MetaOf(env), returned, dropped))]
  }

  /** Truncation keeps a prefix, accounts for every item, and leaves the rest of
      the envelope alone: this holds unless the list's own field is `count`,
      which the refreshed counter then overwrites. */
  lemma CappedKeepsPrefix(env: Members, shape: Shape, kept: nat)
    requires ListAt(env, shape).Some? && kept <= |ListAt(env, shape).value|
    ensures ListAt(Capped(env, shape, kept), shape) == Some(ListAt(env, shape).value[..kept])
            <==> shape != Field("count")
    ensures Capped(env, shape, kept) - {"data", "meta"} == env - {"data", "meta"}
    ensures MetaAccounts(MetaOf(Capped(env, shape, kept)), kept, |ListAt(env, shape).value|)
  {
    if shape.Field? {
      assert shape.key != "count" ==> ListAt(Capped(env, shape, kept), shape).Some?;
    }
  }

  /** The rest of what a truncation writes: the three marks, an existing counter, and
      nothing else in data or metadata. */
  lemma {:induction false} CappedMarks(env: Members, shape: Shape, kept: nat)
    requires ListAt(env, shape).Some? && kept <= |ListAt(env, shape).value|
    ensures var meta := MetaOf(Capped(env, shape, kept));
            && "truncated" in meta && meta["truncated"] == Bool(true)
            && "size_capped" in meta && meta["size_capped"] == Bool(true)
            && "next_hint" in meta && meta["next_hint"].Str?
            && meta - {"truncated", "size_capped", "returned", "dropped", "next_hint"}
               == MetaOf(env) - {"truncated", "size_capped", "returned", "dropped", "next_hint"}
    ensures shape.Field? ==>
              var was, data := env["data"].members, Capped(env, shape, kept)["data"].members;
              && data.Keys == was.Keys
              && data - {shape.key, "count"} == was - {shape.key, "count"}
              && ("count" in was ==> data["count"] == Num(kept as real))
  {
    var meta := MetaOf(Capped(env, shape, kept));
    assert "truncated"[0] != "returned"[0] && |"dropped"| == 7 && |"size_capped"| == 11;
    assert |"truncated"| == 9 == |"next_hint"| && "truncated"[0] != "next_hint"[0];
  }

  ghost predicate MetaAccounts(meta: Members, returned: nat, total: nat) {
    && "returned" in meta && "dropped" in meta
    && meta["returned"] == Num(returned as real)
    && meta["dropped"].Num? && returned as real + meta["dropped"].n == total as real
  }

  ghost predicate Fits(len: Json -> nat, env: Members, shape: Shape, kept: nat, budget: int)
    requires ListAt(env, shape).Some? && kept <= |ListAt(env, shape).value|
  {
    len(Obj(Capped(env, shape, kept))) <= budget
  }

  // ---------------------------------------------------------------------
  // Size grows with every kept item
  // ---------------------------------------------------------------------

  lemma {:induction false} ListGrows(len: Json -> nat, items: seq<Json>, less: nat, more: nat)
    requires IsLength(len) && 1 <= less <= more <= |items|
    ensures len(Arr(items[..less])) + 2 * (more - less) <= len(Arr(items[..more]))
    decreases more
  {
    if less < more {
      ListGrows(len, items, less, more - 1);
      assert items[..more] == items[..more - 1] + [items[more - 1]];
    }
  }

  lemma {:induction false} TwoUpdates(
      len: Json -> nat, m: Members, a: string, b: string, va: Json, vb: Json, wa: Json, wb: Json)
    requires IsLength(len) && a != b
    ensures len(Obj(m[a := va][b := vb])) - len(va) - len(vb) == len(Obj(m[a := wa][b := wb])) - len(wa) - len(wb)
  {
    assert SameBut(m[a := va][b := vb], m[a := wa][b := vb], a);
    assert SameBut(m[a := wa][b := vb], m[a := wa][b := wb], b);
  }

  lemma {:induction false} DataGrows(len: Json -> nat, data: Json, shape: Shape, items: seq<Json>, less: nat, more: nat)
    requires IsLength(len) && shape != Field("count") && 1 <= less <= more <= |items| < EXPONENT_FROM
    requires shape.Field? ==> data.Obj? && shape.key in data.members
    ensures len(DataWith(data, shape, items[..less])) + 2 * (more - less) <= len(DataWith(data, shape, items[..more]))
  {
    ListGrows(len, items, less, more);
    if shape.Field? {
      var v, key := data.members, shape.key;
      if "count" in v {
        TwoUpdates(len, v, key, "count", Arr(items[..less]), Num(less as real), Arr(items[..more]), Num(more as real));
        DecimalGrowsSlowly(less, more);
      } else {
        assert SameBut(v[key := Arr(items[..less])], v[key := Arr(items[..more])], key);
      }
    }
  }

  lemma {:induction false} MetaHardlyShrinks(len: Json -> nat, meta: Members, less: nat, more: nat, total: nat)
    requires IsLength(len) && less <= more <= total < EXPONENT_FROM
    ensures len(Obj(MetaWith(meta, less, total - less))) <= len(Obj(MetaWith(meta, more, total - more))) + (more - less)
  {
    TwoUpdates(len, Stamped(meta), "returned", "dropped",
      Num(less as real), Num((total - less) as real), Num(more as real), Num((total - more) as real));
    DecimalGrowsSlowly(less, more);
    DecimalGrowsSlowly(total - more, total - less);
  }

  lemma {:induction false} EnvelopeGrows(
      len: Json -> nat, env: Members, d0: Json, d1: Json, less: nat, more: nat, total: nat)
    requires IsLength(len) && less < more <= total < EXPONENT_FROM
    requires len(d0) + 2 * (more - less) <= len(d1)
    ensures len(Obj(Assemble(env, d0, less, total - less))) < len(Obj(Assemble(env, d1, more, total - more)))
  {
    var meta := MetaOf(env);
    MetaHardlyShrinks(len, meta, less, more, total);
    assert "data"[0] != "meta"[0];
    TwoUpdates(len, env, "data", "meta",
      d0, Obj(MetaWith(meta, less, total - less)), d1, Obj(MetaWith(meta, more, total - more)));
  }

  /** The list gains at least two bytes per item, while the dropped count can
      lose one digit: the whole envelope grows with every kept item. */
  lemma {:induction false} CappedGrows(len: Json -> nat, env: Members, shape: Shape, less: nat, more: nat)
    requires IsLength(len) && ListAt(env, shape).Some? && shape != Field("count")
    requires 1 <= less < more <= |ListAt(env, shape).value| < EXPONENT_FROM
    ensures len(Obj(Capped(env, shape, less))) < len(Obj(Capped(env, shape, more)))
  {
    hide MetaWith;
    hide DataWith;
    hide IsLength;
    var items := ListAt(env, shape).value;
    DataGrows(len, env["data"], shape, items, less, more);
    EnvelopeGrows(len, env,
      DataWith(env["data"], shape, items[..less]), DataWith(env["data"], shape, items[..more]), less, more, |items|);
  }

  lemma NoneFitsAbove(e: Encoder, env: Members, shape: Shape, kept: nat, budget: int)
    requires e.Valid() && ListAt(env, shape).Some? && shape != Field("count")
    requires 1 <= kept <= |ListAt(env, shape).value| < EXPONENT_FROM && !Fits(e.marshalled, env, shape, kept, budget)
    ensures forall k :: kept <= k < |ListAt(env, shape).value| ==> !Fits(e.marshalled, env, shape, k, budget)
  {
    hide Assemble;
    EncoderMeasuresLength(e);
    forall k | kept < k < |ListAt(env, shape).value|
      ensures !Fits(e.marshalled, env, shape, k, budget)
    {
      CappedGrows(e.marshalled, env, shape, kept, k);
    }
  }

  // ---------------------------------------------------------------------
  // The code
  // ---------------------------------------------------------------------

  /** The decoded result, truncated in place. */
  class Envelope {
    var members: Members

    constructor (members: Members)
      ensures this.members == members
    {
      this.members := members;
    }

    method Set(shape: Shape, kept: seq<Json>)
      requires shape.Field? ==> "data" in members && members["data"].Obj?
      modifies this
      ensures var data := if "data" in old(members) then old(members)["data"] else Null;
              members == old(members)["data" := DataWith(data, shape, kept)]
    {
      match shape {
        case Whole =>
          members := members["data" := Arr(kept)];
        case Field(key) =>
          var value := members["data"].members;
          value := value[key := Arr(kept)];
          if "count" in value {
            value := value["count" := Num(|kept| as real)];
          }
          members := members["data" := Obj(value)];
      }
    }

    method AddSizeCapMeta(returned: nat, dropped: nat)
      modifies this
      ensures members == old(members)["meta" := Obj(MetaWith(MetaOf(old(members)), returned, dropped))]
    {
      var meta: Members := map[];
      if "meta" in members && members["meta"].Obj? {
        meta := members["meta"].members;
      }
      meta := meta["truncated" := Bool(true)];
      meta := meta["size_capped" := Bool(true)];
      meta := meta["returned" := Num(returned as real)];
      meta := meta["dropped" := Num(dropped as real)];
      meta := meta["next_hint" := Str(HINT)];
      assert meta == MetaWith(MetaOf(members), returned, dropped);
      members := members["meta" := Obj(meta)];
    }

    /** Sets and stamps; an earlier attempt leaves no trace. */
    method Cap(shape: Shape, items: seq<Json>, kept: nat, ghost env: Members, ghost before: Option<nat>)
      requires ListAt(env, shape) == Some(items) && kept <= |items|
      requires before.Some? ==> before.value <= |items|
      requires members == if before.Some? then Capped(env, shape, before.value) else env
      modifies this
      ensures members == Capped(env, shape, kept)
    {
      if before.Some? {
        CappedTwice(env, shape, before.value, kept);
      }
      Set(shape, items[..kept]);
      AddSizeCapMeta(kept, |items| - kept);
    }

    method ShrinkListToBudget(e: Encoder, shape: Shape, items: seq<Json>, budget: int) returns (ok: bool, best: nat)
      requires e.Valid() && ListAt(members, shape) == Some(items) && |items| < EXPONENT_FROM
      modifies this
      ensures best == 0 || best < |items|
      ensures ok <==> best > 0
      ensures ok ==> members == Capped(old(members), shape, best)
      ensures ok ==> Fits(e.marshalled, old(members), shape, best, budget)
      ensures shape != Field("count") ==>
                forall k :: best < k < |items| ==> !Fits(e.marshalled, old(members), shape, k, budget)
    {
      hide Assemble;
      hide Encoder.Valid;
      ghost var env := members;
      best := 0;
      if |items| == 0 {
        return false, 0;
      }
      var total := |items|;
      if total == 1 {
        return false, 0;
      }
      var low, high := 1, total - 1;
      ghost var before: Option<nat> := None;
      while low <= high
        invariant 1 <= low <= high + 1 <= total
        invariant best == low - 1
        invariant best > 0 ==> Fits(e.marshalled, env, shape, best, budget)
        invariant shape != Field("count") ==>
                    forall k :: high < k < total ==> !Fits(e.marshalled, env, shape, k, budget)
        invariant before.Some? ==> before.value <= total
        invariant members == if before.Some? then Capped(env, shape, before.value) else env
        decreases high - low
      {
        var kept := low + (high - low) / 2;
        Cap(shape, items, kept, env, before);
        before := Some(kept);
        if e.marshalled(Obj(members)) <= budget {
          best := kept;
          low := kept + 1;
          continue;
        }
        if shape != Field("count") {
          NoneFitsAbove(e, env, shape, kept, budget);
        }
        high := kept - 1;
      }
      if best > 0 {
        Cap(shape, items, best, env, before);
        return true, best;
      }
      Cap(shape, items, 1, env, before);
      ok := false;
    }

    /** The list that is cut: the data, or the longest list among its fields (any
        of them on a tie, as the map yields them). */
    static ghost predicate IsTarget(env: Members, shape: Shape) {
      && ListAt(env, shape).Some?
      && (shape.Field? ==>
            && ListAt(env, shape).value != []
            && forall k :: ListAt(env, Field(k)).Some? ==> |ListAt(env, Field(k)).value| <= |ListAt(env, shape).value|)
    }

    method TruncateDataToBudget(e: Encoder, budget: int)
        returns (ok: bool, ghost target: Option<Shape>, ghost best: nat)
      requires e.Valid() && InMemory(members)
      modifies this
      ensures target.Some? ==> IsTarget(old(members), target.value)
      ensures target.None? ==> !ok && (IsTarget(old(members), Field("")) || forall s :: !IsTarget(old(members), s))
      ensures ok ==> target.Some? && 0 < best < |ListAt(old(members), target.value).value|
      ensures ok ==> members == Capped(old(members), target.value, best)
      ensures ok ==> Fits(e.marshalled, old(members), target.value, best, budget)
      ensures target.Some? && target != Some(Field("count")) ==>
                forall k :: (if ok then best else 0) < k < |ListAt(old(members), target.value).value| ==>
                  !Fits(e.marshalled, old(members), target.value, k, budget)
    {
      target, best := None, 0;
      if "data" !in members {
        return false, None, 0;
      }
      match members["data"] {
        case Arr(items) =>
          target := Some(Whole);
          ok, best := ShrinkListToBudget(e, Whole, items, budget);
        case Obj(value) =>
          var key, items := LargestArrayField(value);
          if key == "" {
            return false, None, 0;
          }
          target := Some(Field(key));
          ok, best := ShrinkListToBudget(e, Field(key), items, budget);
        case _ =>
          ok := false;
      }
    }
  }

  lemma CappedTwice(env: Members, shape: Shape, before: nat, kept: nat)
    requires ListAt(env, shape).Some? && kept <= |ListAt(env, shape).value| && before <= |ListAt(env, shape).value|
    ensures ListAt(env, shape).Some? && shape.Field? ==> Capped(env, shape, before)["data"].Obj?
    ensures var items, start := ListAt(env, shape).value, Capped(env, shape, before);
            Capped(env, shape, kept)
            == Assemble(start, DataWith(start["data"], shape, items[..kept]), kept, |items| - kept)
  {
    var items := ListAt(env, shape).value;
    DataTwice(env["data"], shape, items[..before], items[..kept]);
    MetaTwice(MetaOf(env), before, |items| - before, kept, |items| - kept);
  }

  lemma DataTwice(data: Json, shape: Shape, first: seq<Json>, second: seq<Json>)
    requires shape.Field? ==> data.Obj?
    ensures shape.Field? ==> DataWith(data, shape, first).Obj?
    ensures DataWith(DataWith(data, shape, first), shape, second) == DataWith(data, shape, second)
  {
    if shape.Field? {
      assert DataWith(DataWith(data, shape, first), shape, second).members == DataWith(data, shape, second).members;
    }
  }

  lemma MetaTwice(meta: Members, r: nat, d: nat, returned: nat, dropped: nat)
    ensures MetaWith(MetaWith(meta, r, d), returned, dropped) == MetaWith(meta, returned, dropped)
  {
  }

  method LargestArrayField(value: Members) returns (key: string, items: seq<Json>)
    ensures items == [] ==> key == ""
    ensures items != [] ==> key in value && value[key] == Arr(items)
    ensures forall k :: k in value && value[k].Arr? ==> |value[k].items| <= |items|
  {
    key, items := "", [];
    var rest := value.Keys;
    while rest != {}
      invariant rest <= value.Keys
      invariant items == [] ==> key == ""
      invariant items != [] ==> key in value && value[key] == Arr(items)
      invariant forall k :: k in value.Keys - rest && value[k].Arr? ==> |value[k].items| <= |items|
      decreases rest
    {
      var k :| k in rest;
      rest := rest - {k};
      if value[k].Arr? && |value[k].items| > |items| {
        key, items := k, value[k].items;
      }
    }
  }

  datatype Delivery = Raw(result: Json) | Truncated(envelope: Members) | TooLarge(actual: nat)

  /** A positive budget is never exceeded by a delivered result, and a list is
      cut only when the whole result does not fit and then as little as possible. */
  method ToolResultEnvelopeGuarded(e: Encoder, result: Json, budget: int) returns (d: Delivery)
    requires e.Valid() && (result.Obj? ==> InMemory(result.members))
    ensures d.Raw? <==> budget <= 0 || Size(e, result) <= budget
    ensures d.Raw? ==> d.result == result
    ensures d.Truncated? ==> Size(e, Obj(d.envelope)) <= budget
    ensures d.Truncated? ==>
              && result.Obj?
              && exists shape, best ::
                   && Envelope.IsTarget(result.members, shape)
                   && 0 < best < |ListAt(result.members, shape).value|
                   && d.envelope == Capped(result.members, shape, best)
                   && (shape != Field("count") ==>
                         forall k :: best < k < |ListAt(result.members, shape).value| ==>
                           !Fits(e.marshalled, result.members, shape, k, budget))
    ensures d.TooLarge? ==> d.actual == Size(e, result)
    ensures d.TooLarge? && result.Obj? ==>
              (exists shape ::
                && Envelope.IsTarget(result.members, shape)
                && (shape != Field("count") ==>
                     forall k :: 0 < k < |ListAt(result.members, shape).value| ==>
                       !Fits(e.marshalled, result.members, shape, k, budget)))
              || Envelope.IsTarget(result.members, Field(""))
              || (forall shape :: !Envelope.IsTarget(result.members, shape))
  {
    var size := e.marshalled(result);
    if budget <= 0 || size <= budget {
      return Raw(result);
    }
    if !result.Obj? {
      return TooLarge(size);
    }
    var envelope := new Envelope(result.members);
    ghost var target, best;
    var ok;
    ok, target, best := envelope.TruncateDataToBudget(e, budget);
    if ok {
      return Truncated(envelope.members);
    }
    d := TooLarge(size);
  }
}
