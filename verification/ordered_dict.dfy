/**
 * An insertion-ordered dictionary, as Python's dict is: a list of key/value
 * pairs. Assigning to a present key replaces its value where it stands;
 * assigning to a new key appends it; iteration follows the list.
 */
module OrderedDict {
  import opened Basics

  type Dict<K, V> = seq<(K, V)>

  ghost predicate UniqueKeys<K, V>(d: Dict<K, V>) {
    forall i, j :: 0 <= i < j < |d| ==> d[i].0 != d[j].0
  }

  function Keys<K(==), V>(d: Dict<K, V>): set<K> {
    if d == [] then {} else {d[0].0} + Keys(d[1..])
  }

  /** `d.get(k)`. */
  function Get<K(==), V>(d: Dict<K, V>, k: K): Option<V> {
    if d == [] then None else if d[0].0 == k then Some(d[0].1) else Get(d[1..], k)
  }

  /** `d[k] = v`. */
  function Put<K(==), V>(d: Dict<K, V>, k: K, v: V): Dict<K, V> {
    if d == [] then [(k, v)]
    else if d[0].0 == k then [(k, v)] + d[1..]
    else [d[0]] + Put(d[1..], k, v)
  }

  /** `del d[k]` for a present key; nothing happens for an absent one. */
  function Remove<K(==), V>(d: Dict<K, V>, k: K): Dict<K, V> {
    if d == [] then []
    else if d[0].0 == k then d[1..]
    else [d[0]] + Remove(d[1..], k)
  }

  lemma {:induction false} KeysAt<K, V>(d: Dict<K, V>, k: K)
    ensures k in Keys(d) <==> exists i :: 0 <= i < |d| && d[i].0 == k
  {
    if d != [] {
      KeysAt(d[1..], k);
      if k in Keys(d[1..]) {
        var i :| 0 <= i < |d[1..]| && d[1..][i].0 == k;
        assert d[i + 1].0 == k;
      }
      if exists i :: 0 <= i < |d| && d[i].0 == k {
        var i :| 0 <= i < |d| && d[i].0 == k;
        if i > 0 {
          assert d[1..][i - 1].0 == k;
        }
      }
    }
  }

  lemma {:induction false} GetInKeys<K, V>(d: Dict<K, V>, k: K)
    ensures Get(d, k).Some? <==> k in Keys(d)
  {
    if d != [] {
      GetInKeys(d[1..], k);
    }
  }

  /** A stored value is found under its key: the first entry with that key. */
  lemma {:induction false} GetAt<K, V>(d: Dict<K, V>, i: nat)
    requires UniqueKeys(d) && i < |d|
    ensures Get(d, d[i].0) == Some(d[i].1)
  {
    if i > 0 {
      assert UniqueKeys(d[1..]);
      GetAt(d[1..], i - 1);
    }
  }

  /** With unique keys, the first key does not occur again. */
  lemma NotInRest<K, V>(d: Dict<K, V>)
    requires UniqueKeys(d) && d != []
    ensures d[0].0 !in Keys(d[1..])
  {
    forall m | 0 <= m < |d[1..]| ensures d[1..][m].0 != d[0].0 {
      assert d[1..][m] == d[m + 1];
    }
    KeysAt(d[1..], d[0].0);
  }

  /** After `d[k] = v`, `d[k]` is `v`. */
  lemma {:induction false} PutGet<K, V>(d: Dict<K, V>, k: K, v: V)
    ensures Get(Put(d, k, v), k) == Some(v)
  {
    if d != [] && d[0].0 != k {
      PutGet(d[1..], k, v);
    }
  }

  /** `d[k] = v` leaves every other key's value as it was. */
  lemma {:induction false} PutGetOther<K, V>(d: Dict<K, V>, k: K, v: V, k': K)
    requires k' != k
    ensures Get(Put(d, k, v), k') == Get(d, k')
  {
    if d != [] && d[0].0 != k {
      PutGetOther(d[1..], k, v, k');
    }
  }

  /** `d[k] = v` adds `k` to the keys and no other key. */
  lemma {:induction false} PutKeys<K, V>(d: Dict<K, V>, k: K, v: V)
    ensures Keys(Put(d, k, v)) == Keys(d) + {k}
  {
    if d != [] {
      if d[0].0 == k {
        assert Put(d, k, v)[1..] == d[1..];
      } else {
        PutKeys(d[1..], k, v);
        assert Put(d, k, v)[1..] == Put(d[1..], k, v);
      }
    }
  }

  /**
   * `d[k] = v` keeps keys unique, grows the dictionary by one entry exactly
   * when `k` is new, and leaves every entry under another key where it was.
   */
  lemma {:induction false} PutShape<K, V>(d: Dict<K, V>, k: K, v: V)
    requires UniqueKeys(d)
    ensures UniqueKeys(Put(d, k, v))
    ensures |Put(d, k, v)| == if k in Keys(d) then |d| else |d| + 1
    ensures forall i :: 0 <= i < |d| && d[i].0 != k ==> Put(d, k, v)[i] == d[i]
  {
    if d != [] {
      assert UniqueKeys(d[1..]);
      PutShape(d[1..], k, v);
      PutKeys(d[1..], k, v);
      var r := Put(d, k, v);
      if d[0].0 != k {
        assert r == [d[0]] + Put(d[1..], k, v);
        forall j | 0 < j < |r| ensures r[j].0 != d[0].0 {
          KeysAt(Put(d[1..], k, v), r[j].0);
          assert r[j].0 in Keys(Put(d[1..], k, v));
          NotInRest(d);
        }
      } else {
        NotInRest(d);
      }
    }
  }

  /** After `del d[k]`, `k` is absent, provided keys are unique. */
  lemma {:induction false} RemoveGet<K, V>(d: Dict<K, V>, k: K)
    requires UniqueKeys(d)
    ensures Get(Remove(d, k), k) == None
  {
    if d != [] {
      assert UniqueKeys(d[1..]);
      if d[0].0 == k {
        NotInRest(d);
        GetInKeys(d[1..], k);
      } else {
        RemoveGet(d[1..], k);
      }
    }
  }

  /** `del d[k]` leaves every other key's value as it was. */
  lemma {:induction false} RemoveGetOther<K, V>(d: Dict<K, V>, k: K, k': K)
    requires k' != k
    ensures Get(Remove(d, k), k') == Get(d, k')
  {
    if d != [] && d[0].0 != k {
      RemoveGetOther(d[1..], k, k');
    }
  }

  /** `del d[k]` removes exactly one entry when `k` is present, none otherwise. */
  lemma {:induction false} RemoveLength<K, V>(d: Dict<K, V>, k: K)
    ensures |Remove(d, k)| == if k in Keys(d) then |d| - 1 else |d|
  {
    if d != [] && d[0].0 != k {
      RemoveLength(d[1..], k);
    }
  }
}
