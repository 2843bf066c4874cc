/** Python's insertion-ordered `dict`, as a sequence of key/value entries with distinct
    keys: assigning to a present key keeps its position, a new key goes to the end. */
module Dicts {
  import opened Wrappers

  type Dict<K, V> = seq<(K, V)>

  function Keys<K, V>(d: Dict<K, V>): (ks: seq<K>)
    ensures |ks| == |d| && forall i :: 0 <= i < |d| ==> ks[i] == d[i].0
  {
    seq(|d|, i requires 0 <= i < |d| => d[i].0)
  }

  function Values<K, V>(d: Dict<K, V>): (vs: seq<V>)
    ensures |vs| == |d| && forall i :: 0 <= i < |d| ==> vs[i] == d[i].1
  {
    seq(|d|, i requires 0 <= i < |d| => d[i].1)
  }

  predicate DistinctKeys<K(==), V>(d: Dict<K, V>) {
    forall i, j :: 0 <= i < j < |d| ==> d[i].0 != d[j].0
  }

  function KeySet<K(==), V>(d: Dict<K, V>): set<K> {
    set i | 0 <= i < |d| :: d[i].0
  }

  lemma KeySetCons<K, V>(d: Dict<K, V>)
    requires |d| > 0
    ensures KeySet(d) == {d[0].0} + KeySet(d[1..])
  {
    forall x | x in KeySet(d) ensures x in {d[0].0} + KeySet(d[1..]) {
      var i :| 0 <= i < |d| && d[i].0 == x;
      if i > 0 { assert d[1..][i - 1].0 == x; }
    }
    forall x | x in KeySet(d[1..]) ensures x in KeySet(d) {
      var i :| 0 <= i < |d[1..]| && d[1..][i].0 == x;
      assert d[i + 1].0 == x;
    }
  }

  /** A dict has distinct keys iff its first key is not repeated later and the rest has distinct keys. */
  lemma DistinctKeysCons<K, V>(d: Dict<K, V>)
    requires |d| > 0
    ensures DistinctKeys(d) <==> d[0].0 !in KeySet(d[1..]) && DistinctKeys(d[1..])
  {
    KeySetCons(d);
    if d[0].0 !in KeySet(d[1..]) && DistinctKeys(d[1..]) {
      forall i, j | 0 <= i < j < |d| ensures d[i].0 != d[j].0 {
        if i == 0 {
          assert d[1..][j - 1].0 == d[j].0;
        } else {
          assert d[1..][i - 1].0 == d[i].0 && d[1..][j - 1].0 == d[j].0;
        }
      }
    }
    if DistinctKeys(d) {
      forall j | 0 <= j < |d| - 1 ensures d[1..][j].0 != d[0].0 {
        assert d[1..][j] == d[j + 1];
      }
    }
  }

  /** Position of key `k`, if present. */
  function IndexOf<K(==), V>(d: Dict<K, V>, k: K): (r: Option<nat>)
    ensures r.Some? ==> r.value < |d| && d[r.value].0 == k
    ensures r.None? <==> k !in KeySet(d)
    ensures r.Some? ==> forall i :: 0 <= i < r.value ==> d[i].0 != k
  {
    if |d| == 0 then None
    else if d[0].0 == k then Some(0)
    else match IndexOf(d[1..], k)
      case None =>
        assert KeySet(d) == {d[0].0} + KeySet(d[1..]) by {
          forall x | x in KeySet(d) ensures x in {d[0].0} + KeySet(d[1..]) {
            var i :| 0 <= i < |d| && d[i].0 == x;
            if i > 0 { assert d[1..][i - 1].0 == x; }
          }
        }
        None
      case Some(i) => Some(i + 1)
  }

  /** `d[k]` as an option (`None` for a missing key). */
  function Get<K(==), V>(d: Dict<K, V>, k: K): (r: Option<V>)
    ensures r.None? <==> k !in KeySet(d)
  {
    match IndexOf(d, k)
    case None => None
    case Some(i) => Some(d[i].1)
  }

  /** `d[k] = v` */
  function Put<K(==), V>(d: Dict<K, V>, k: K, v: V): (r: Dict<K, V>)
    ensures KeySet(r) == KeySet(d) + {k}
    ensures DistinctKeys(d) ==> DistinctKeys(r)
  {
    match IndexOf(d, k)
    case None =>
      var r := d + [(k, v)];
      assert KeySet(r) == KeySet(d) + {k} by {
        assert r[|d|].0 == k;
        forall x | x in KeySet(r) ensures x in KeySet(d) + {k} {
          var i :| 0 <= i < |r| && r[i].0 == x;
          if i < |d| { assert d[i].0 == x; }
        }
        forall x | x in KeySet(d) ensures x in KeySet(r) {
          var i :| 0 <= i < |d| && d[i].0 == x;
          assert r[i].0 == x;
        }
      }
      r
    case Some(i) =>
      var r := d[i := (k, v)];
      assert KeySet(r) == KeySet(d) by {
        forall x | x in KeySet(r) ensures x in KeySet(d) {
          var j :| 0 <= j < |r| && r[j].0 == x;
          assert d[j].0 == x;
        }
        forall x | x in KeySet(d) ensures x in KeySet(r) {
          var j :| 0 <= j < |d| && d[j].0 == x;
          assert r[j].0 == x;
        }
      }
      r
  }

  /** After `d[k] = v`, reading `k` gives `v` and every other key reads as before. */
  lemma GetPut<K, V>(d: Dict<K, V>, k: K, v: V, k': K)
    requires DistinctKeys(d)
    ensures Get(Put(d, k, v), k') == if k' == k then Some(v) else Get(d, k')
  {
    var r := Put(d, k, v);
    match IndexOf(d, k)
    case None =>
      if k' == k {
        assert IndexOf(r, k) == Some(|d|) by { DistinctIndex(r, |d|); }
      } else if IndexOf(d, k').Some? {
        var j := IndexOf(d, k').value;
        DistinctIndex(r, j);
      }
    case Some(i) =>
      DistinctIndex(r, i);
      if k' != k && IndexOf(d, k').Some? {
        var j := IndexOf(d, k').value;
        DistinctIndex(r, j);
      }
  }

  /** With distinct keys, the position of an entry's key is that entry's position. */
  lemma DistinctIndex<K, V>(d: Dict<K, V>, i: nat)
    requires DistinctKeys(d) && i < |d|
    ensures IndexOf(d, d[i].0) == Some(i)
  {
    var r := IndexOf(d, d[i].0);
    assert d[i].0 in KeySet(d);
  }

  /** Inserting keys in any order yields the same key set: the union of all of them. */
  function PutAll<K(==), V>(d: Dict<K, V>, entries: seq<(K, V)>): (r: Dict<K, V>)
    ensures KeySet(r) == KeySet(d) + KeySet(entries)
    ensures DistinctKeys(d) ==> DistinctKeys(r)
    decreases |entries|
  {
    if |entries| == 0 then d
    else
      KeySetCons(entries);
      PutAll(Put(d, entries[0].0, entries[0].1), entries[1..])
  }

  /** When the inserted entries have distinct keys, the order of insertion does not matter
      to what any key reads: an inserted key reads its entry's value, any other key reads
      as before. */
  lemma {:induction false} GetPutAll<K, V>(d: Dict<K, V>, entries: seq<(K, V)>, k: K)
    requires DistinctKeys(d) && DistinctKeys(entries)
    ensures Get(PutAll(d, entries), k) ==
      if k in KeySet(entries) then Some(entries[IndexOf(entries, k).value].1) else Get(d, k)
    decreases |entries|
  {
    if |entries| > 0 {
      var e := entries[0];
      var rest := entries[1..];
      assert DistinctKeys(rest);
      GetPutAll(Put(d, e.0, e.1), rest, k);
      GetPut(d, e.0, e.1, k);
      if k in KeySet(rest) {
        var j := IndexOf(rest, k).value;
        assert entries[j + 1] == rest[j];
        DistinctIndex(entries, j + 1);
      } else if k == e.0 {
        DistinctIndex(entries, 0);
      }
    }
  }
}
