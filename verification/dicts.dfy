/**
  Insertion-ordered dictionaries, the way Python dictionaries behave: iteration
  follows the order in which keys were first inserted, and assigning to a key that
  is already present keeps its position.
 */
module Dicts {

  datatype Dict<K, V> = Dict(keys: seq<K>, vals: map<K, V>)

  /** The key sequence lists every key of the map exactly once. */
  ghost predicate Valid<K(!new), V>(d: Dict<K, V>) {
    && (forall i, j :: 0 <= i < j < |d.keys| ==> d.keys[i] != d.keys[j])
    && (forall k :: k in d.vals <==> k in d.keys)
  }

  function Empty<K(!new), V>(): (d: Dict<K, V>)
    ensures Valid(d)
    ensures d.vals == map[]
  {
    Dict([], map[])
  }

  /** `d[k] = v`: an existing key keeps its place, a new key goes last. */
  function Put<K(!new), V>(d: Dict<K, V>, k: K, v: V): (r: Dict<K, V>)
    ensures Valid(d) ==> Valid(r)
    ensures r.vals == d.vals[k := v]
    ensures k in d.vals ==> r.keys == d.keys
    ensures k !in d.vals ==> r.keys == d.keys + [k]
  {
    if k in d.vals then Dict(d.keys, d.vals[k := v])
    else Dict(d.keys + [k], d.vals[k := v])
  }

  /** Changing the values but not the keys keeps a dictionary valid. */
  lemma SameKeysValid<K(!new), V>(d: Dict<K, V>, d': Dict<K, V>)
    requires Valid(d)
    requires d'.keys == d.keys && d'.vals.Keys == d.vals.Keys
    ensures Valid(d')
  {
    forall k
      ensures k in d'.vals <==> k in d'.keys
    {
      assert k in d'.vals <==> k in d.vals;
    }
  }

  /** In a list without repetitions every element occurs once. */
  lemma {:induction false} DistinctCount<K>(s: seq<K>, x: K)
    requires forall i, j :: 0 <= i < j < |s| ==> s[i] != s[j]
    ensures multiset(s)[x] == if x in s then 1 else 0
    decreases |s|
  {
    if s != [] {
      DistinctCount(s[1..], x);
      assert s == [s[0]] + s[1..];
    }
  }

  /** Two valid dictionaries with the same keys list them in orders that are permutations of each other. */
  lemma SameKeysSameMultiset<K(!new), V>(d1: Dict<K, V>, d2: Dict<K, V>)
    requires Valid(d1) && Valid(d2) && d1.vals.Keys == d2.vals.Keys
    ensures multiset(d1.keys) == multiset(d2.keys)
  {
    forall x
      ensures multiset(d1.keys)[x] == multiset(d2.keys)[x]
    {
      DistinctCount(d1.keys, x);
      DistinctCount(d2.keys, x);
    }
  }

  /** Maps with the same keys that agree at every key are equal. */
  lemma MapsAgree<K, V>(m1: map<K, V>, m2: map<K, V>)
    requires m1.Keys == m2.Keys
    requires forall k :: k in m2 ==> m1[k] == m2[k]
    ensures m1 == m2
  {
  }

  /** Writing back the value a key already has changes nothing. */
  lemma RewriteSame<K, V>(m: map<K, V>, k: K, v: V)
    requires k in m && m[k] == v
    ensures m[k := v] == m
  {
  }
}
