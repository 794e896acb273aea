/** Python's `dict` with string keys, which iterates in insertion order:
    a list of `(key, value)` pairs without repeated keys. */
module Dicts {
  import opened Wrappers

  type Dict<V> = seq<(string, V)>

  /** No key occurs twice. */
  predicate DistinctKeys<V>(d: Dict<V>) {
    forall i, j :: 0 <= i < j < |d| ==> d[i].0 != d[j].0
  }

  /** The keys, in iteration order. */
  function Keys<V>(d: Dict<V>): (r: seq<string>)
    ensures |r| == |d|
    ensures forall i :: 0 <= i < |d| ==> r[i] == d[i].0
  {
    seq(|d|, i requires 0 <= i < |d| => d[i].0)
  }

  /** Position of `k` among the keys, if present. */
  function Find<V>(d: Dict<V>, k: string): (r: Option<nat>)
    ensures r.Some? ==> r.value < |d| && d[r.value].0 == k
    ensures r.None? ==> forall i :: 0 <= i < |d| ==> d[i].0 != k
  {
    if d == [] then None
    else if d[0].0 == k then Some(0)
    else
      var r := Find(d[1..], k);
      if r.Some? then Some(r.value + 1)
      else
        assert forall i :: 1 <= i < |d| ==> d[i] == d[1..][i - 1];
        None
  }

  /** `d.get(k)` */
  function Get<V>(d: Dict<V>, k: string): (r: Option<V>)
    ensures r.Some? <==> k in Keys(d)
  {
    var i := Find(d, k);
    if i.Some? then Some(d[i.value].1) else None
  }

  /** `d[k] = v`: a present key keeps its place and takes the new value; a
      new key goes last. */
  function Put<V>(d: Dict<V>, k: string, v: V): (r: Dict<V>)
    requires DistinctKeys(d)
    ensures DistinctKeys(r)
    ensures Get(r, k) == Some(v)
    ensures forall k' :: k' != k ==> Get(r, k') == Get(d, k')
    ensures k in Keys(d) ==> Keys(r) == Keys(d)
    ensures k !in Keys(d) ==> Keys(r) == Keys(d) + [k]
  {
    var i := Find(d, k);
    if i.Some? then
      PutReplaced(d, i.value, v);
      d[i.value := (k, v)]
    else
      PutAppended(d, k, v);
      d + [(k, v)]
  }

  /** Overwriting the value at the position of a key. */
  lemma PutReplaced<V>(d: Dict<V>, i: nat, v: V)
    requires DistinctKeys(d) && i < |d|
    ensures var r := d[i := (d[i].0, v)];
      && DistinctKeys(r) && Get(r, d[i].0) == Some(v) && Keys(r) == Keys(d)
      && forall k' :: k' != d[i].0 ==> Get(r, k') == Get(d, k')
  {
    var k := d[i].0;
    var r := d[i := (k, v)];
    forall k' | k' != k
      ensures Get(r, k') == Get(d, k')
    {
      FindUnique(r, k');
      FindUnique(d, k');
    }
    FindUnique(r, k);
    assert Keys(r) == Keys(d);
  }

  /** Adding a pair with a new key at the end. */
  lemma PutAppended<V>(d: Dict<V>, k: string, v: V)
    requires DistinctKeys(d) && k !in Keys(d)
    ensures var r := d + [(k, v)];
      && DistinctKeys(r) && Get(r, k) == Some(v) && Keys(r) == Keys(d) + [k]
      && forall k' :: k' != k ==> Get(r, k') == Get(d, k')
  {
    var r := d + [(k, v)];
    forall k' | k' != k
      ensures Get(r, k') == Get(d, k')
    {
      FindUnique(r, k');
      FindUnique(d, k');
    }
    FindUnique(r, k);
    assert Keys(r) == Keys(d) + [k];
  }

  /** The keys after `d[k] = v` are the old keys and `k`. */
  lemma PutKeys<V>(d: Dict<V>, k: string, v: V, name: string)
    requires DistinctKeys(d)
    ensures name in Keys(Put(d, k, v)) <==> name in Keys(d) || name == k
  {
    if k !in Keys(d) {
      assert Keys(Put(d, k, v)) == Keys(d) + [k];
    }
  }

  /** In a dictionary without repeated keys, `Find` gives the one position
      holding the key. */
  lemma FindUnique<V>(d: Dict<V>, k: string)
    requires DistinctKeys(d)
    ensures forall i :: 0 <= i < |d| && d[i].0 == k ==> Find(d, k) == Some(i)
    ensures (forall i :: 0 <= i < |d| ==> d[i].0 != k) ==> Find(d, k).None?
  {
    assert forall i :: 0 <= i < |d| ==> Keys(d)[i] == d[i].0;
  }
}
