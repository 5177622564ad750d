/** Values shared by every module: Option, and decoded JSON documents.

    A document is what `encoding/json` hands to the server: an object is a map,
    so members have no order and no duplicates, and a number is a real. */
module JsonValue {

  datatype Option<+T> = None | Some(value: T)

  datatype Json =
    | Null
    | Bool(b: bool)
    | Num(n: real)
    | Str(s: string)
    | Arr(items: seq<Json>)
    | Obj(members: Members)

  type Members = map<string, Json>

  function Get<K, V>(m: map<K, V>, k: K): Option<V> {
    if k in m then Some(m[k]) else None
  }

  function Min(a: int, b: int): (m: int)
    ensures m <= a && m <= b && (m == a || m == b)
  {
    if a <= b then a else b
  }

  /** The value reached from `j` through object members only. */
  ghost function At(j: Json, path: seq<string>): Option<Json>
    decreases path
  {
    if path == [] then Some(j)
    else if j.Obj? && path[0] in j.members then At(j.members[path[0]], path[1..])
    else None
  }

  /** The total of a finite map, used to measure the members of an object. */
  ghost function Sum(m: map<string, nat>): nat {
    if m == map[] then 0 else
      var k :| k in m;
      m[k] + Sum(m - {k})
  }

  /** The total does not depend on the order in which the keys are taken. */
  lemma {:induction false} SumSplit(m: map<string, nat>, k: string)
    requires k in m
    ensures Sum(m) == m[k] + Sum(m - {k})
    decreases |m|
  {
    var p :| p in m && Sum(m) == m[p] + Sum(m - {p});
    if p != k {
      SumSplit(m - {p}, k);
      SumSplit(m - {k}, p);
      assert (m - {p}) - {k} == (m - {k}) - {p};
    }
  }

  lemma {:induction false} SumUpdate(m: map<string, nat>, k: string, n: nat)
    requires k in m
    ensures Sum(m[k := n]) == Sum(m) - m[k] + n
  {
    SumSplit(m, k);
    SumSplit(m[k := n], k);
    assert m[k := n] - {k} == m - {k};
  }

  lemma {:induction false} SumMonotone(small: map<string, nat>, large: map<string, nat>)
    requires forall k :: k in small ==> k in large && small[k] <= large[k]
    ensures Sum(small) <= Sum(large)
    decreases |small|
  {
    if small != map[] {
      var k :| k in small;
      SumSplit(small, k);
      SumSplit(large, k);
      SumMonotone(small - {k}, large - {k});
    }
  }
}
