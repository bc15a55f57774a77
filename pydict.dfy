/**
 * A Python dict as an association list: insertion-ordered, one entry per key.
 * Assigning to an existing key replaces its value in place; a new key goes last.
 */
module PyDict {
  import opened Wrappers

  type Dict<K, V> = seq<(K, V)>

  function Keys<K, V>(d: Dict<K, V>): (ks: seq<K>)
    ensures |ks| == |d| && forall i :: 0 <= i < |d| ==> ks[i] == d[i].0
  {
    seq(|d|, i requires 0 <= i < |d| => d[i].0)
  }

  predicate UniqueKeys<K(==), V>(d: Dict<K, V>)
  {
    forall i, j :: 0 <= i < j < |d| ==> d[i].0 != d[j].0
  }

  /** The position of the first entry with key k. */
  function IndexOfKey<K(==), V>(d: Dict<K, V>, k: K): (i: nat)
    requires k in Keys(d)
    ensures i < |d| && d[i].0 == k
    ensures forall j :: 0 <= j < i ==> d[j].0 != k
  {
    if d[0].0 == k then 0
    else
      assert Keys(d) == [d[0].0] + Keys(d[1..]);
      1 + IndexOfKey(d[1..], k)
  }

  /** `d.get(k)`. */
  function Get<K(==), V>(d: Dict<K, V>, k: K): (r: Option<V>)
    ensures r.None? <==> k !in Keys(d)
  {
    if k in Keys(d) then Some(d[IndexOfKey(d, k)].1) else None
  }

  /** `d[k] = v`. */
  function Put<K(==), V>(d: Dict<K, V>, k: K, v: V): (r: Dict<K, V>)
    ensures k in Keys(d) ==> |r| == |d|
    ensures k !in Keys(d) ==> r == d + [(k, v)]
  {
    if k in Keys(d) then d[IndexOfKey(d, k) := (k, v)] else d + [(k, v)]
  }

  lemma GetUnique<K, V>(d: Dict<K, V>, i: nat)
    requires UniqueKeys(d) && i < |d|
    ensures Get(d, d[i].0) == Some(d[i].1)
  {
    assert Keys(d)[i] == d[i].0;
  }

  /** After `d[k] = v`, k maps to v, every other key keeps its value, and the key order is kept. */
  lemma PutSpec<K, V>(d: Dict<K, V>, k: K, v: V)
    requires UniqueKeys(d)
    ensures UniqueKeys(Put(d, k, v))
    ensures Get(Put(d, k, v), k) == Some(v)
    ensures forall j :: j != k ==> Get(Put(d, k, v), j) == Get(d, j)
    ensures k in Keys(d) ==> Keys(Put(d, k, v)) == Keys(d)
  {
    var r := Put(d, k, v);
    assert UniqueKeys(r);
    GetUnique(r, if k in Keys(d) then IndexOfKey(d, k) else |d|);
    forall j | j != k ensures Get(r, j) == Get(d, j) {
      if j in Keys(d) {
        var i := IndexOfKey(d, j);
        assert r[i] == d[i];
        GetUnique(r, i);
        GetUnique(d, i);
      } else {
        assert j !in Keys(r);
      }
    }
  }
}
