/** A Python `dict` with string keys, as the chatbot uses it: entries kept in insertion order,
    each key at most once. Assigning to a key that is already present
    replaces its value where it stands; assigning to a new key appends it. */
module OrderedMaps {
  import opened Wrappers

  type OrderedMap<V> = seq<(string, V)>

  function Keys<V>(m: OrderedMap<V>): seq<string> {
    seq(|m|, i requires 0 <= i < |m| => m[i].0)
  }

  lemma KeysCons<V>(e: (string, V), m: OrderedMap<V>)
    ensures Keys([e] + m) == [e.0] + Keys(m)
  {
  }

  predicate Distinct<T(==)>(s: seq<T>) {
    forall i, j :: 0 <= i < j < |s| ==> s[i] != s[j]
  }

  /** The dict invariant: no key occurs twice */
  predicate UniqueKeys<V>(m: OrderedMap<V>) {
    Distinct(Keys(m))
  }

  /** `d.get(k)`: the value stored under `k`, if any */
  function Get<V>(m: OrderedMap<V>, k: string): (r: Option<V>)
    ensures r.Some? <==> k in Keys(m)
  {
    if m == [] then None
    else if m[0].0 == k then
      assert Keys(m)[0] == k;
      Some(m[0].1)
    else
      assert m == [m[0]] + m[1..];
      KeysCons(m[0], m[1..]);
      Get(m[1..], k)
  }

  /** Under the dict invariant, the value stored under a key is the one
      in that key's (only) entry. */
  lemma {:induction false} GetEntry<V>(m: OrderedMap<V>, i: nat)
    requires UniqueKeys(m) && i < |m|
    ensures Get(m, m[i].0) == Some(m[i].1)
  {
    if i > 0 {
      assert Keys(m)[0] != Keys(m)[i];
      assert UniqueKeys(m[1..]) by {
        assert m == [m[0]] + m[1..];
        KeysCons(m[0], m[1..]);
        assert Keys(m[1..]) == Keys(m)[1..];
      }
      GetEntry(m[1..], i - 1);
    }
  }

  /** `d[k] = v` */
  function Put<V>(m: OrderedMap<V>, k: string, v: V): (r: OrderedMap<V>)
    ensures Get(r, k) == Some(v)
    ensures forall k' :: k' != k ==> Get(r, k') == Get(m, k')
    ensures k in Keys(m) ==> Keys(r) == Keys(m)
    ensures k !in Keys(m) ==> Keys(r) == Keys(m) + [k]
    ensures UniqueKeys(m) ==> UniqueKeys(r)
  {
    if m == [] then [(k, v)]
    else if m[0].0 == k then
      var r := [(k, v)] + m[1..];
      assert r[1..] == m[1..];
      assert Keys(r) == Keys(m);
      r
    else
      var e, rest := m[0], Put(m[1..], k, v);
      var r := [e] + rest;
      assert r[1..] == rest;
      assert m == [e] + m[1..];
      KeysCons(e, m[1..]);
      KeysCons(e, rest);
      assert k in Keys(m) <==> k in Keys(m[1..]);
      r
  }

  /** `for k in ks: d[k] = v` */
  function PutAll<V>(m: OrderedMap<V>, ks: seq<string>, v: V): (r: OrderedMap<V>)
    ensures forall k :: k in ks ==> Get(r, k) == Some(v)
    ensures forall k :: k !in ks ==> Get(r, k) == Get(m, k)
    decreases |ks|
  {
    if ks == [] then m
    else
      var m' := Put(m, ks[0], v);
      var r := PutAll(m', ks[1..], v);
      assert forall k :: k in ks <==> k == ks[0] || k in ks[1..];
      r
  }

  /** Keys already present keep their positions, new keys are appended
      after them, and the dict invariant is kept. */
  lemma {:induction false} PutAllKeys<V>(m: OrderedMap<V>, ks: seq<string>, v: V)
    ensures Keys(m) <= Keys(PutAll(m, ks, v))
    ensures forall k :: k in Keys(PutAll(m, ks, v)) <==> k in Keys(m) || k in ks
    ensures UniqueKeys(m) ==> UniqueKeys(PutAll(m, ks, v))
    decreases |ks|
  {
    if ks != [] {
      var m' := Put(m, ks[0], v);
      PutAllKeys(m', ks[1..], v);
      assert forall k :: k in ks <==> k == ks[0] || k in ks[1..];
    }
  }

  /** Index of the first entry, in insertion order, whose key satisfies `p`:
      the shape of a `for k, v in d.items(): if p(k): ...; break` scan. */
  function FirstWhere<V>(m: OrderedMap<V>, p: string -> bool): (r: Option<nat>)
    ensures r.Some? ==> r.value < |m| && p(m[r.value].0)
    ensures r.Some? ==> forall j :: 0 <= j < r.value ==> !p(m[j].0)
    ensures r.None? <==> forall j :: 0 <= j < |m| ==> !p(m[j].0)
  {
    if m == [] then None
    else if p(m[0].0) then Some(0)
    else
      match FirstWhere(m[1..], p)
      case None => None
      case Some(i) => Some(i + 1)
  }
}
