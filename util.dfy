/** Plain JavaScript objects with string keys, kept in insertion order,
    and `objectMap` (src/core/Util.ts). */
module Util {
  import opened Wrappers

  /** An object `{k1: v1, k2: v2, ...}` as the list of its entries, in the
      order `Object.entries` yields them. */
  type Entries<V> = seq<(string, V)>

  function Keys<V>(e: Entries<V>): (ks: seq<string>)
    ensures |ks| == |e|
    ensures forall i :: 0 <= i < |e| ==> ks[i] == e[i].0
  {
    if e == [] then [] else [e[0].0] + Keys(e[1..])
  }

  predicate HasKey<V>(e: Entries<V>, k: string) {
    exists i :: 0 <= i < |e| && e[i].0 == k
  }

  /** JavaScript objects never hold a key twice. */
  predicate DistinctKeys<V>(e: Entries<V>) {
    forall i, j :: 0 <= i < j < |e| ==> e[i].0 != e[j].0
  }

  /** `Object.fromEntries(Object.entries(obj).map(([k, v]) => [k, u(k, v)]))` */
  function ObjectMap<V, U>(obj: Entries<V>, u: (string, V) -> U): (r: Entries<U>)
    ensures Keys(r) == Keys(obj)
  {
    if obj == [] then [] else [(obj[0].0, u(obj[0].0, obj[0].1))] + ObjectMap(obj[1..], u)
  }

  /** The result is the input with every value replaced by `u(key, value)`,
      entry by entry, so it has the input's keys in the input's order. */
  lemma {:induction false} ObjectMapAt<V, U>(obj: Entries<V>, u: (string, V) -> U, i: nat)
    requires i < |obj|
    ensures |ObjectMap(obj, u)| == |obj|
    ensures ObjectMap(obj, u)[i] == (obj[i].0, u(obj[i].0, obj[i].1))
  {
    if i > 0 {
      ObjectMapAt(obj[1..], u, i - 1);
    }
  }

  /** `obj[k]`: the value of the first entry with key `k`, or undefined. */
  function Lookup<V>(e: Entries<V>, k: string): (r: Option<V>)
    ensures r.Some? <==> HasKey(e, k)
    decreases |e|
  {
    if e == [] then None
    else if e[0].0 == k then Some(e[0].1)
    else Lookup(e[1..], k)
  }

  /** Key by key, `objectMap(obj, u)[k]` is `u(k, obj[k])`, and a key the
      input lacks is missing from the result too. */
  lemma {:induction false} ObjectMapLookup<V, U>(obj: Entries<V>, u: (string, V) -> U, k: string)
    ensures Lookup(ObjectMap(obj, u), k) == (if Lookup(obj, k).Some? then Some(u(k, Lookup(obj, k).value)) else None)
    decreases |obj|
  {
    if obj != [] {
      var r := ObjectMap(obj, u);
      assert r[0] == (obj[0].0, u(obj[0].0, obj[0].1)) && r[1..] == ObjectMap(obj[1..], u);
      ObjectMapLookup(obj[1..], u, k);
    }
  }
}
