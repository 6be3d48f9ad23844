/** The part of `java.util.LinkedHashMap` that the planner relies on: a map
    whose iteration order is the order in which its keys were first put. */
module LinkedMaps {

  /** `keys[i]` maps to `values[i]`; the keys are distinct and stand in
      first-insertion order, which is the iteration order. */
  datatype LinkedMap<V> = LinkedMap(keys: seq<int>, values: seq<V>)
  {
    predicate Valid()
    {
      |keys| == |values| &&
      forall i, j :: 0 <= i < j < |keys| ==> keys[i] != keys[j]
    }
  }

  function Empty<V>(): (m: LinkedMap<V>)
    ensures m.Valid()
    ensures m.keys == [] && m.values == []
  {
    LinkedMap([], [])
  }

  /** The position of `k` among the keys. */
  function IndexOf(keys: seq<int>, k: int): (i: nat)
    requires k in keys
    ensures i < |keys| && keys[i] == k
  {
    if keys[|keys| - 1] == k then |keys| - 1 else IndexOf(keys[..|keys| - 1], k)
  }

  /** `get(k)` for a key that is present. */
  function Get<V>(m: LinkedMap<V>, k: int): (v: V)
    requires m.Valid() && k in m.keys
  {
    m.values[IndexOf(m.keys, k)]
  }

  /** `put(k, v)`: a new key goes to the end of the iteration order; an
      existing key keeps its place and only its value changes. */
  function Put<V>(m: LinkedMap<V>, k: int, v: V): (r: LinkedMap<V>)
    requires m.Valid()
    ensures r.Valid()
    ensures k in r.keys && Get(r, k) == v
    ensures forall j :: j in m.keys && j != k ==> j in r.keys && Get(r, j) == Get(m, j)
    ensures k in m.keys ==> r.keys == m.keys
    ensures k !in m.keys ==> r.keys == m.keys + [k] && r.values == m.values + [v]
  {
    if k in m.keys then
      LinkedMap(m.keys, m.values[IndexOf(m.keys, k) := v])
    else
      LinkedMap(m.keys + [k], m.values + [v])
  }

  /** The keys 1, 2, ..., n, in that order. */
  function OneTo(n: nat): (s: seq<int>)
    ensures |s| == n
    ensures forall i :: 0 <= i < n ==> s[i] == i + 1
  {
    seq(n, i => i + 1)
  }

  /** In a map keyed 1..n in order, key i + 1 holds the i-th value. */
  lemma GetOneTo<V>(m: LinkedMap<V>, n: nat, i: nat)
    requires m.Valid() && m.keys == OneTo(n) && i < n
    ensures i + 1 in m.keys && Get(m, i + 1) == m.values[i]
  {
    assert m.keys[i] == i + 1;
  }

  /** Putting key n + 1 into a map keyed 1..n appends it. */
  lemma PutNextKey<V>(m: LinkedMap<V>, n: nat, v: V)
    requires m.Valid() && m.keys == OneTo(n)
    ensures n + 1 !in m.keys
    ensures Put(m, n + 1, v).keys == OneTo(n + 1)
    ensures Put(m, n + 1, v).values == m.values + [v]
  {
    assert forall i :: 0 <= i < |m.keys| ==> m.keys[i] <= n;
  }
}
