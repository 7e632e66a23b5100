/** Python's `dict`: an insertion-ordered table in which assigning to an
    existing key replaces its value in place and assigning to a new key
    appends it. Modelled as an association list; lookups use the first
    entry with the key, which is the only one when keys are distinct (as
    they always are for a dict built by `Set`). */
module Dicts {
  import opened Results

  type Dict<K, V> = seq<(K, V)>

  /** The keys, in iteration order. */
  function Keys<K, V>(d: Dict<K, V>): (ks: seq<K>)
    ensures |ks| == |d|
    ensures forall i :: 0 <= i < |d| ==> ks[i] == d[i].0
  {
    seq(|d|, i requires 0 <= i < |d| => d[i].0)
  }

  predicate HasKey<K(==), V>(d: Dict<K, V>, k: K) {
    exists i :: 0 <= i < |d| && d[i].0 == k
  }

  predicate DistinctKeys<K(==), V>(d: Dict<K, V>) {
    forall i, j :: 0 <= i < j < |d| ==> d[i].0 != d[j].0
  }

  /** `d.get(k)`: the value of the first entry with key `k`. */
  function Get<K(==), V>(d: Dict<K, V>, k: K): (r: Option<V>)
    ensures r.Some? <==> HasKey(d, k)
    ensures r.Some? ==> exists i :: 0 <= i < |d| && d[i] == (k, r.value)
  {
    if |d| == 0 then None
    else if d[0].0 == k then Some(d[0].1)
    else
      var r := Get(d[1..], k);
      assert r.Some? ==> exists i :: 0 <= i < |d[1..]| && d[1..][i] == (k, r.value);
      assert HasKey(d[1..], k) ==> HasKey(d, k);
      assert HasKey(d, k) ==> HasKey(d[1..], k) by {
        if HasKey(d, k) {
          var i :| 0 <= i < |d| && d[i].0 == k;
          assert i != 0;
          assert d[1..][i - 1].0 == k;
        }
      }
      r
  }

  /** `d[k] = v`. */
  function Set<K(==), V>(d: Dict<K, V>, k: K, v: V): (r: Dict<K, V>)
    ensures Get(r, k) == Some(v)
    ensures HasKey(d, k) ==> |r| == |d|
    ensures !HasKey(d, k) ==> r == d + [(k, v)]
  {
    if |d| == 0 then [(k, v)]
    else if d[0].0 == k then [(k, v)] + d[1..]
    else
      assert HasKey(d[1..], k) <==> HasKey(d, k) by {
        if HasKey(d, k) {
          var i :| 0 <= i < |d| && d[i].0 == k;
          assert d[1..][i - 1].0 == k;
        }
      }
      [d[0]] + Set(d[1..], k, v)
  }

  /** Assigning one key leaves every other key's value alone. */
  lemma {:induction false} GetSetOther<K, V>(d: Dict<K, V>, k: K, v: V, k': K)
    requires k' != k
    ensures Get(Set(d, k, v), k') == Get(d, k')
  {
    if |d| > 0 && d[0].0 != k {
      GetSetOther(d[1..], k, v, k');
      assert Set(d, k, v)[1..] == Set(d[1..], k, v);
    }
  }

  /** Assigning a key keeps every key already present. */
  lemma SetKeepsKeys<K, V>(d: Dict<K, V>, k: K, v: V)
    ensures forall key :: HasKey(d, key) ==> HasKey(Set(d, k, v), key)
  {
    forall key | HasKey(d, key) && key != k
      ensures HasKey(Set(d, k, v), key)
    {
      GetSetOther(d, k, v, key);
    }
  }

  /** Re-assigning an existing key keeps the key order. */
  lemma {:induction false} SetKeys<K, V>(d: Dict<K, V>, k: K, v: V)
    requires HasKey(d, k)
    ensures Keys(Set(d, k, v)) == Keys(d)
  {
    SetKeysPointwise(d, k, v);
  }

  lemma {:induction false} SetKeysPointwise<K, V>(d: Dict<K, V>, k: K, v: V)
    requires HasKey(d, k)
    ensures |Set(d, k, v)| == |d|
    ensures forall i :: 0 <= i < |d| ==> Set(d, k, v)[i].0 == d[i].0
  {
    if d[0].0 != k {
      var i :| 0 <= i < |d| && d[i].0 == k;
      assert d[1..][i - 1].0 == k;
      SetKeysPointwise(d[1..], k, v);
    }
  }

  /** A dict built by assignments never holds a key twice. */
  lemma {:induction false} SetDistinct<K, V>(d: Dict<K, V>, k: K, v: V)
    requires DistinctKeys(d)
    ensures DistinctKeys(Set(d, k, v))
  {
    if |d| > 0 && d[0].0 != k {
      SetDistinct(d[1..], k, v);
      var rest := Set(d[1..], k, v);
      assert !HasKey(d[1..], d[0].0);
      GetSetOther(d[1..], k, v, d[0].0);
      assert !HasKey(rest, d[0].0);
      var r := Set(d, k, v);
      assert r == [d[0]] + rest;
      forall i, j | 0 <= i < j < |r|
        ensures r[i].0 != r[j].0
      {
        assert r[j] == rest[j - 1];
        if i > 0 {
          assert r[i] == rest[i - 1];
        }
      }
    } else if |d| > 0 {
      assert Set(d, k, v)[1..] == d[1..];
    }
  }

  /** Re-assigning the value a key already holds leaves the dict as it was. */
  lemma {:induction false} SetIdempotent<K, V>(d: Dict<K, V>, k: K, v: V)
    ensures Set(Set(d, k, v), k, v) == Set(d, k, v)
  {
    if |d| == 0 {
    } else if d[0].0 == k {
      assert Set(d, k, v)[1..] == d[1..];
    } else {
      SetIdempotent(d[1..], k, v);
      assert Set(d, k, v) == [d[0]] + Set(d[1..], k, v);
      assert Set(d, k, v)[1..] == Set(d[1..], k, v);
    }
  }
  /** Every entry after an assignment is the assigned one or was there. */
  lemma {:induction false} SetEntries<K, V>(d: Dict<K, V>, k: K, v: V)
    ensures forall i :: 0 <= i < |Set(d, k, v)| ==> Set(d, k, v)[i] == (k, v) || Set(d, k, v)[i] in d
  {
    if |d| > 0 && d[0].0 != k {
      SetEntries(d[1..], k, v);
      var r := Set(d, k, v);
      assert r == [d[0]] + Set(d[1..], k, v);
      forall i | 0 <= i < |r|
        ensures r[i] == (k, v) || r[i] in d
      {
        if i > 0 {
          assert r[i] == Set(d[1..], k, v)[i - 1];
          assert r[i] in d[1..] ==> r[i] in d;
        }
      }
    } else if |d| > 0 {
      assert forall i :: 1 <= i < |d| ==> Set(d, k, v)[i] == d[i];
    }
  }

  /** With distinct keys, looking up an entry's key finds that entry. */
  lemma {:induction false} GetDistinct<K, V>(d: Dict<K, V>, j: int)
    requires DistinctKeys(d) && 0 <= j < |d|
    ensures Get(d, d[j].0) == Some(d[j].1)
  {
    if j > 0 {
      assert d[1..][j - 1] == d[j];
      GetDistinct(d[1..], j - 1);
    }
  }
  /** Looking up in a dict with one entry appended. */
  lemma {:induction false} GetAppend<K, V>(d: Dict<K, V>, k: K, v: V)
    ensures forall key :: (Get(d + [(k, v)], key) ==
                            if HasKey(d, key) then Get(d, key) else if key == k then Some(v) else None)
  {
    if |d| > 0 {
      GetAppend(d[1..], k, v);
      assert (d + [(k, v)])[1..] == d[1..] + [(k, v)];
    }
  }
}
