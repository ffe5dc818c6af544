/** The finite map that map.c implements: an ordered list of entries with distinct keys. */
module Assoc {
  import opened Wrappers

  datatype Entry<K, V> = Entry(key: K, value: V)

  ghost predicate Distinct<K, V>(m: seq<Entry<K, V>>) {
    forall i, j | 0 <= i < j < |m| :: m[i].key != m[j].key
  }

  /** Index of the first entry with the key; |m| when there is none. */
  function IndexOf<K(==), V>(m: seq<Entry<K, V>>, key: K): (i: nat)
    ensures i <= |m|
    ensures i < |m| ==> m[i].key == key
    ensures forall j | 0 <= j < i :: m[j].key != key
  {
    if m == [] then 0
    else if m[0].key == key then 0
    else 1 + IndexOf(m[1..], key)
  }

  predicate Has<K(==), V>(m: seq<Entry<K, V>>, key: K) { IndexOf(m, key) < |m| }

  function Get<K(==), V>(m: seq<Entry<K, V>>, key: K): (v: Option<V>)
  {
    var i := IndexOf(m, key);
    if i < |m| then Some(m[i].value) else None
  }

  /** map_set: overwrite in place, or append. */
  function Put<K(==), V>(m: seq<Entry<K, V>>, key: K, value: V): (r: seq<Entry<K, V>>)
  {
    var i := IndexOf(m, key);
    if i < |m| then m[i := Entry(m[i].key, value)] else m + [Entry(key, value)]
  }

  /** map_erase: drop the entry and close the gap. */
  function Remove<K(==), V>(m: seq<Entry<K, V>>, key: K): (r: seq<Entry<K, V>>)
  {
    var i := IndexOf(m, key);
    if i < |m| then m[..i] + m[i + 1..] else m
  }

  /** Setting a key overwrites its entry in place, or puts a new one behind all others. */
  lemma PutPlace<K, V>(m: seq<Entry<K, V>>, key: K, value: V)
    requires Distinct(m)
    ensures forall i | 0 <= i < |m| && m[i].key == key :: Put(m, key, value) == m[i := Entry(key, value)]
    ensures (forall i | 0 <= i < |m| :: m[i].key != key) ==> Put(m, key, value) == m + [Entry(key, value)]
  {
    forall i | 0 <= i < |m| && m[i].key == key
      ensures i == IndexOf(m, key)
    {
      IndexUnique(m, i);
    }
  }

  /** Erasing a key takes out its entry and closes the gap; the others keep their order. */
  lemma RemovePlace<K, V>(m: seq<Entry<K, V>>, key: K)
    requires Distinct(m)
    ensures forall i | 0 <= i < |m| && m[i].key == key :: Remove(m, key) == m[..i] + m[i + 1..]
    ensures (forall i | 0 <= i < |m| :: m[i].key != key) ==> Remove(m, key) == m
  {
    forall i | 0 <= i < |m| && m[i].key == key
      ensures i == IndexOf(m, key)
    {
      IndexUnique(m, i);
    }
  }

  /** Key a stands before key b. */
  ghost predicate Before<K, V>(m: seq<Entry<K, V>>, a: K, b: K) {
    exists i, j | 0 <= i < j < |m| :: m[i].key == a && m[j].key == b
  }

  lemma PutBefore<K, V>(m: seq<Entry<K, V>>, key: K, value: V, a: K, b: K)
    requires Before(m, a, b)
    ensures Before(Put(m, key, value), a, b)
  {
    var i, j :| 0 <= i < j < |m| && m[i].key == a && m[j].key == b;
    var r := Put(m, key, value);
    assert r[i].key == a && r[j].key == b;
  }

  lemma RemoveBefore<K, V>(m: seq<Entry<K, V>>, key: K, a: K, b: K)
    requires Before(m, a, b) && key != a && key != b
    ensures Before(Remove(m, key), a, b)
  {
    var i, j :| 0 <= i < j < |m| && m[i].key == a && m[j].key == b;
    var r, n := Remove(m, key), IndexOf(m, key);
    assert n < |m| ==> m[n].key == key && r == m[..n] + m[n + 1..];
    hide Remove, IndexOf;
    if n < |m| {
      var x, y := if i < n then i else i - 1, if j < n then j else j - 1;
      assert r[x] == m[i] && r[y] == m[j];
    }
  }

  lemma IndexUnique<K, V>(m: seq<Entry<K, V>>, i: nat)
    requires Distinct(m) && i < |m|
    ensures IndexOf(m, m[i].key) == i
  {
  }

  /** The finite map the list stands for. */
  ghost function Model<K(!new), V>(m: seq<Entry<K, V>>): (f: map<K, V>)
    ensures forall k :: k in f <==> Has(m, k)
    ensures forall k | k in f :: Get(m, k) == Some(f[k])
  {
    HasAny(m);
    map k | k in (set i | 0 <= i < |m| :: m[i].key) :: m[IndexOf(m, k)].value
  }

  lemma HasAny<K, V>(m: seq<Entry<K, V>>)
    ensures forall i | 0 <= i < |m| :: Has(m, m[i].key)
  {
  }

  lemma PutModel<K(!new), V>(m: seq<Entry<K, V>>, key: K, value: V)
    requires Distinct(m)
    ensures Distinct(Put(m, key, value))
    ensures Model(Put(m, key, value)) == Model(m)[key := value]
  {
    var r := Put(m, key, value);
    assert Distinct(r);
    forall k
      ensures Has(r, k) <==> Has(m, k) || k == key
      ensures Has(r, k) ==> Get(r, k) == (if k == key then Some(value) else Get(m, k))
    {
      var i := IndexOf(m, k);
      if i < |m| {
        assert r[i].key == k;
        IndexUnique(r, i);
      } else if k == key {
        assert r[|m|].key == k;
        IndexUnique(r, |m|);
      }
    }
  }

  /** Erasing keeps the other entries and their order. */
  lemma RemoveModel<K(!new), V>(m: seq<Entry<K, V>>, key: K)
    requires Distinct(m)
    ensures Distinct(Remove(m, key))
    ensures Model(Remove(m, key)) == Model(m) - {key}
  {
    var r, n := Remove(m, key), IndexOf(m, key);
    if n == |m| {
      assert r == m;
    } else {
      forall k
        ensures Has(r, k) <==> Has(m, k) && k != key
        ensures Has(r, k) ==> Get(r, k) == Get(m, k)
      {
        RemoveAt(m, n, k);
      }
    }
  }

  /** A key is found in the list without entry n as before, except the key of that entry. */
  lemma RemoveAt<K, V>(m: seq<Entry<K, V>>, n: nat, k: K)
    requires Distinct(m) && n < |m|
    ensures var r := m[..n] + m[n + 1..];
      && Distinct(r)
      && (Has(r, k) <==> Has(m, k) && k != m[n].key)
      && (Has(r, k) ==> Get(r, k) == Get(m, k))
  {
    var r, i := m[..n] + m[n + 1..], IndexOf(m, k);
    forall j | 0 <= j < |r|
      ensures r[j] == m[if j < n then j else j + 1]
    {
    }
    if i < |m| && i != n {
      var j := if i < n then i else i - 1;
      assert r[j] == m[i];
      IndexUnique(r, j);
    } else {
      forall j | 0 <= j < |r|
        ensures r[j].key != k
      {
        IndexUnique(m, if j < n then j else j + 1);
      }
    }
  }

  /** Setting one key leaves the values of the others. */
  lemma PutGet<K(!new), V>(m: seq<Entry<K, V>>, key: K, value: V, k: K)
    ensures Distinct(m) ==> Distinct(Put(m, key, value))
    ensures Get(Put(m, key, value), k) == if k == key then Some(value) else Get(m, k)
  {
    var r, n, i, j := Put(m, key, value), IndexOf(m, key), IndexOf(m, k), IndexOf(Put(m, key, value), k);
    assert forall x | 0 <= x < |m| :: r[x].key == m[x].key && (x != n ==> r[x] == m[x]);
    assert r[n] == Entry(key, value);
    assert j == if k == key then n else if i < |m| then i else |r|;
  }

  lemma RemoveGet<K(!new), V>(m: seq<Entry<K, V>>, key: K, k: K)
    requires Distinct(m)
    ensures Distinct(Remove(m, key))
    ensures Get(Remove(m, key), k) == if k == key then None else Get(m, k)
  {
    RemoveModel(m, key);
    assert Has(m, k) <==> k in Model(m);
    assert Has(Remove(m, key), k) <==> k in Model(Remove(m, key));
  }
}
