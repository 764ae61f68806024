/** Python dictionaries as the core uses them: insertion-ordered lists of
    (key, value) pairs with distinct keys. `d[k] = v` replaces the value in
    place when `k` is present and appends otherwise, as CPython does. */
module AssocLists {
  import opened Wrappers

  type Dict<K, V> = seq<(K, V)>

  function Keys<K, V>(d: Dict<K, V>): (r: seq<K>)
    ensures |r| == |d| && forall i :: 0 <= i < |d| ==> r[i] == d[i].0
  {
    if d == [] then [] else [d[0].0] + Keys(d[1..])
  }

  predicate DistinctKeys<K(==), V>(d: Dict<K, V>) {
    forall i, j :: 0 <= i < j < |d| ==> d[i].0 != d[j].0
  }

  /** `d.get(k)` */
  function Get<K(==), V>(d: Dict<K, V>, k: K): (r: Option<V>)
    ensures r.None? <==> k !in Keys(d)
    ensures r.Some? ==> (k, r.value) in d
  {
    if d == [] then None
    else if d[0].0 == k then Some(d[0].1)
    else Get(d[1..], k)
  }

  /** `d[k] = v` */
  function Put<K(==), V>(d: Dict<K, V>, k: K, v: V): (r: Dict<K, V>)
    ensures k in Keys(d) ==> |r| == |d|
    ensures k !in Keys(d) ==> r == d + [(k, v)]
  {
    if d == [] then [(k, v)]
    else if d[0].0 == k then [(k, v)] + d[1..]
    else [d[0]] + Put(d[1..], k, v)
  }

  lemma {:induction false} PutKeys<K, V>(d: Dict<K, V>, k: K, v: V)
    ensures Keys(Put(d, k, v)) == if k in Keys(d) then Keys(d) else Keys(d) + [k]
    decreases |d|
  {
    if d != [] && d[0].0 != k {
      PutKeys(d[1..], k, v);
      assert k in Keys(d) <==> k in Keys(d[1..]);
    }
  }

  lemma {:induction false} PutGet<K, V>(d: Dict<K, V>, k: K, v: V, k': K)
    ensures Get(Put(d, k, v), k') == if k' == k then Some(v) else Get(d, k')
    decreases |d|
  {
    if d != [] && d[0].0 != k {
      PutGet(d[1..], k, v, k');
    }
  }

  lemma {:induction false} PutKeepsDistinct<K, V>(d: Dict<K, V>, k: K, v: V)
    requires DistinctKeys(d)
    ensures DistinctKeys(Put(d, k, v))
    decreases |d|
  {
    if d != [] && d[0].0 != k {
      PutKeepsDistinct(d[1..], k, v);
      PutKeys(d[1..], k, v);
      var r := Put(d, k, v);
      forall j | 0 < j < |r| ensures r[0].0 != r[j].0 {
        assert r[j].0 == Keys(Put(d[1..], k, v))[j - 1];
        assert d[0].0 !in Keys(d[1..]) by {
          forall i | 0 <= i < |d[1..]| ensures Keys(d[1..])[i] != d[0].0 {
            assert d[i + 1].0 != d[0].0;
          }
        }
      }
    }
  }

  // ---------------------------------------------------------------------
  // Counters: dictionaries from keys to natural numbers
  // ---------------------------------------------------------------------

  function Sum<K>(d: Dict<K, nat>): nat {
    if d == [] then 0 else d[0].1 + Sum(d[1..])
  }

  /** `d.get(k, 0)` on a counter. */
  function CountOf<K(==)>(d: Dict<K, nat>, k: K): nat {
    Get(d, k).GetOr(0)
  }

  /** `d[k] = d.get(k, 0) + 1` */
  function Inc<K(==)>(d: Dict<K, nat>, k: K): Dict<K, nat> {
    Put<K, nat>(d, k, CountOf(d, k) + 1)
  }

  lemma {:induction false} SumPut<K>(d: Dict<K, nat>, k: K, v: nat)
    ensures Sum(Put(d, k, v)) == Sum(d) - CountOf(d, k) + v
    decreases |d|
  {
    if d != [] && d[0].0 != k {
      SumPut(d[1..], k, v);
    } else if d != [] {
      assert Put(d, k, v)[1..] == d[1..];
    }
  }

  /** Every increment adds exactly one to the total of the counter. */
  lemma IncSum<K>(d: Dict<K, nat>, k: K)
    ensures Sum(Inc(d, k)) == Sum(d) + 1
    ensures Get(Inc(d, k), k) == Some(CountOf(d, k) + 1)
  {
    var n := CountOf(d, k);
    var r := Put<K, nat>(d, k, n + 1);
    assert Inc(d, k) == r;
    SumPut(d, k, n + 1);
    assert Sum(r) == Sum(d) - n + (n + 1);
    PutGet<K, nat>(d, k, n + 1, k);
  }

  /** An increment adds one to the count of its own key only. */
  lemma IncGet<K>(d: Dict<K, nat>, k: K, k': K)
    ensures CountOf(Inc(d, k), k') == CountOf(d, k') + (if k' == k then 1 else 0)
  {
    var n := CountOf(d, k);
    assert Inc(d, k) == Put<K, nat>(d, k, n + 1);
    PutGet<K, nat>(d, k, n + 1, k');
  }

  /** An increment appends its key when it is new and keeps the key order. */
  lemma IncKeys<K>(d: Dict<K, nat>, k: K)
    ensures Keys(Inc(d, k)) == if k in Keys(d) then Keys(d) else Keys(d) + [k]
  {
    var n := CountOf(d, k);
    assert Inc(d, k) == Put<K, nat>(d, k, n + 1);
    PutKeys<K, nat>(d, k, n + 1);
  }

  // ---------------------------------------------------------------------
  // setdefault
  // ---------------------------------------------------------------------

  /** `d.setdefault(k, v)`: `k` is added with `v` only when it is absent. */
  function SetDefault<K(==), V>(d: Dict<K, V>, k: K, v: V): Dict<K, V> {
    if k in Keys(d) then d else d + [(k, v)]
  }

  /** After `setdefault` the key is present, keeps the value it had, and
      only a new key takes `v`; other keys are untouched. */
  lemma SetDefaultGet<K, V>(d: Dict<K, V>, k: K, v: V, k': K)
    ensures Get(SetDefault(d, k, v), k') == if k' == k && k !in Keys(d) then Some(v) else Get(d, k')
  {
    if k !in Keys(d) {
      assert Put(d, k, v) == d + [(k, v)];
      PutGet(d, k, v, k');
    }
  }
}
