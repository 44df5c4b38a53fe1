/**
 * A JavaScript object used as a dictionary whose key order matters: the
 * keys in insertion order, each with its value. `Object.keys` walks them in
 * this order, `obj[k]` finds the entry for `k`, and `{...obj, [k]: v}`
 * replaces the value in place or appends a new key at the end.
 */
module Assoc {
  import opened Wrappers

  type Assoc<V> = seq<(string, V)>

  /** `Object.keys(obj)` */
  function Keys<V>(a: Assoc<V>): (r: seq<string>)
    ensures |r| == |a| && forall i :: 0 <= i < |a| ==> r[i] == a[i].0
  {
    seq(|a|, i requires 0 <= i < |a| => a[i].0)
  }

  /** JavaScript objects never hold a key twice. */
  predicate DistinctKeys<V>(a: Assoc<V>) {
    forall i, j :: 0 <= i < j < |a| ==> a[i].0 != a[j].0
  }

  /** `obj[k]`, or `None` (undefined) when `k` is not a key. */
  function Get<V>(a: Assoc<V>, k: string): (r: Option<V>)
    ensures r.None? <==> forall i :: 0 <= i < |a| ==> a[i].0 != k
    ensures r.Some? ==> exists i :: 0 <= i < |a| && a[i] == (k, r.value)
  {
    if a == [] then None
    else if a[0].0 == k then Some(a[0].1)
    else Get(a[1..], k)
  }

  /** With distinct keys, reading the key of an entry gives that entry's value. */
  lemma {:induction false} GetAt<V>(a: Assoc<V>, i: nat)
    requires DistinctKeys(a) && i < |a|
    ensures Get(a, a[i].0) == Some(a[i].1)
  {
    if i > 0 {
      assert DistinctKeys(a[1..]);
      GetAt(a[1..], i - 1);
    }
  }

  /** `{...obj, [k]: v}` */
  function Put<V>(a: Assoc<V>, k: string, v: V): (r: Assoc<V>)
    ensures Get(r, k) == Some(v)
    ensures forall k' :: k' != k ==> Get(r, k') == Get(a, k')
    // existing keys keep their place; a new key goes last
    ensures |r| == if Get(a, k).None? then |a| + 1 else |a|
    ensures forall i :: 0 <= i < |a| ==> r[i].0 == a[i].0
    ensures Get(a, k).None? ==> r[|a|].0 == k
  {
    if a == [] then [(k, v)]
    else if a[0].0 == k then [(k, v)] + a[1..]
    else
      var rest := Put(a[1..], k, v);
      var r := [a[0]] + rest;
      assert r[0] == a[0] && r[1..] == rest;
      r
  }

  /** The values in key order, each list flattened: walking every entry of every key. */
  function Flatten<V>(a: Assoc<seq<V>>): seq<V>
  {
    if a == [] then [] else Flatten(a[..|a| - 1]) + a[|a| - 1].1
  }
}
