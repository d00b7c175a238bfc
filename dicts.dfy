/**
 * Insertion-ordered dictionaries, as Python's `dict` behaves: a key that is
 * already present keeps its position when it is assigned again, a new key is
 * appended at the end, and iteration follows that order.  The room table, the
 * faculty table and JSON objects all rely on this order.
 */
module Dicts {

  datatype Option<T> = None | Some(value: T)

  datatype Entry<K, V> = Entry(key: K, val: V)

  /** The keys in iteration order. */
  function Keys<K(==), V>(d: seq<Entry<K, V>>): (ks: seq<K>)
    ensures |ks| == |d|
    ensures forall i :: 0 <= i < |d| ==> ks[i] == d[i].key
  {
    seq(|d|, i requires 0 <= i < |d| => d[i].key)
  }

  /** The values in iteration order (`d.values()`). */
  function Values<K, V>(d: seq<Entry<K, V>>): (vs: seq<V>)
    ensures |vs| == |d|
    ensures forall i :: 0 <= i < |d| ==> vs[i] == d[i].val
  {
    seq(|d|, i requires 0 <= i < |d| => d[i].val)
  }

  /** No key occurs twice: what every Python dict satisfies. */
  predicate DistinctKeys<K(==), V>(d: seq<Entry<K, V>>)
  {
    forall i, j :: 0 <= i < j < |d| ==> d[i].key != d[j].key
  }

  predicate HasKey<K(==), V>(d: seq<Entry<K, V>>, k: K)
  {
    exists i :: 0 <= i < |d| && d[i].key == k
  }

  /** Position of the first entry with key `k`, or -1 when there is none. */
  function IndexOf<K(==), V>(d: seq<Entry<K, V>>, k: K): (i: int)
    ensures -1 <= i < |d|
    ensures 0 <= i ==> d[i].key == k && forall j :: 0 <= j < i ==> d[j].key != k
    ensures i == -1 <==> !HasKey(d, k)
  {
    if |d| == 0 then -1
    else if d[0].key == k then 0
    else
      var r := IndexOf(d[1..], k);
      assert forall j :: 1 <= j < |d| ==> d[1..][j - 1] == d[j];
      if r < 0 then -1 else r + 1
  }

  /** `d.get(k)`: the value stored under `k`. */
  function Get<K(==), V>(d: seq<Entry<K, V>>, k: K): (r: Option<V>)
    ensures r.Some? <==> HasKey(d, k)
  {
    var i := IndexOf(d, k);
    if 0 <= i then Some(d[i].val) else None
  }

  /** `d[k] = v`: overwrite in place, or append a new key at the end. */
  function Put<K(==), V>(d: seq<Entry<K, V>>, k: K, v: V): (r: seq<Entry<K, V>>)
    ensures HasKey(d, k) ==> |r| == |d| && r[IndexOf(d, k)] == Entry(k, v)
    ensures HasKey(d, k) ==> forall j :: 0 <= j < |d| && j != IndexOf(d, k) ==> r[j] == d[j]
    ensures !HasKey(d, k) ==> r == d + [Entry(k, v)]
  {
    var i := IndexOf(d, k);
    if 0 <= i then d[i := Entry(k, v)] else d + [Entry(k, v)]
  }

  /** What `d[k] = v` means to a reader: `k` now gives `v`, every other key
      reads as before, no key is lost, the order of the old keys is kept and
      the dict still has no duplicate key. */
  lemma PutSpec<K, V>(d: seq<Entry<K, V>>, k: K, v: V)
    requires DistinctKeys(d)
    ensures Get(Put(d, k, v), k) == Some(v)
    ensures forall k2 :: k2 != k ==> Get(Put(d, k, v), k2) == Get(d, k2)
    ensures DistinctKeys(Put(d, k, v))
    ensures HasKey(d, k) ==> Keys(Put(d, k, v)) == Keys(d)
    ensures !HasKey(d, k) ==> Keys(Put(d, k, v)) == Keys(d) + [k]
  {
    var r := Put(d, k, v);
    var i := IndexOf(d, k);
    assert DistinctKeys(r);
    if 0 <= i { UniqueIndex(r, i, k); } else { UniqueIndex(r, |d|, k); }
    forall k2 | k2 != k ensures Get(r, k2) == Get(d, k2) {
      var j := IndexOf(d, k2);
      if 0 <= j {
        assert r[j] == d[j];
        UniqueIndex(r, j, k2);
      } else {
        assert !HasKey(r, k2) by {
          forall m | 0 <= m < |r| ensures r[m].key != k2 {
            if m < |d| { assert r[m].key == d[m].key; }
          }
        }
      }
    }
    assert Keys(r) == if 0 <= i then Keys(d) else Keys(d) + [k];
  }

  /** In a dict without duplicate keys the key at position `i` identifies `i`. */
  lemma UniqueIndex<K, V>(d: seq<Entry<K, V>>, i: int, k: K)
    requires DistinctKeys(d)
    requires 0 <= i < |d| && d[i].key == k
    ensures IndexOf(d, k) == i && Get(d, k) == Some(d[i].val)
  {
  }

  /** `d.pop(k)` for a key that is present: the entry is taken out and the
      other entries keep their order; a missing key leaves `d` as it is. */
  function Remove<K(==), V>(d: seq<Entry<K, V>>, k: K): (r: seq<Entry<K, V>>)
  {
    var i := IndexOf(d, k);
    if 0 <= i then d[..i] + d[i + 1..] else d
  }

  /** After `d.pop(k)` the key is gone, every other key reads as before and
      the dict still has no duplicate key. */
  lemma RemoveSpec<K, V>(d: seq<Entry<K, V>>, k: K)
    requires DistinctKeys(d)
    ensures !HasKey(Remove(d, k), k)
    ensures forall k2 :: k2 != k ==> Get(Remove(d, k), k2) == Get(d, k2)
    ensures DistinctKeys(Remove(d, k))
    ensures HasKey(d, k) ==> |Remove(d, k)| == |d| - 1
  {
    var r := Remove(d, k);
    var i := IndexOf(d, k);
    if 0 <= i {
      assert forall m :: 0 <= m < |r| ==> r[m] == if m < i then d[m] else d[m + 1];
      forall k2 | k2 != k ensures Get(r, k2) == Get(d, k2) {
        var j := IndexOf(d, k2);
        if 0 <= j {
          if j < i { UniqueIndex(r, j, k2); } else { UniqueIndex(r, j - 1, k2); }
        } else {
          assert !HasKey(r, k2) by {
            forall m | 0 <= m < |r| ensures r[m].key != k2 {
              if m < i { assert r[m] == d[m]; } else { assert r[m] == d[m + 1]; }
            }
          }
        }
      }
    }
  }
}
