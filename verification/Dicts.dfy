/** Python dicts with string keys, which keep the order in which keys were first set. */
module Dicts {
  import opened Wrappers

  type Dict<V> = seq<(string, V)>

  /** `D[key] = value` */
  function Set<V>(d: Dict<V>, key: string, value: V): Dict<V> {
    if d == [] then [(key, value)]
    else if d[0].0 == key then [(key, value)] + d[1..]
    else [d[0]] + Set(d[1..], key, value)
  }

  /** `D[key]`, where there is one. */
  function Get<V>(d: Dict<V>, key: string): Option<V> {
    if d == [] then None else if d[0].0 == key then Some(d[0].1) else Get(d[1..], key)
  }

  /** Setting a key gives it its value and leaves those of the others alone. */
  lemma {:induction false} SetGets<V>(d: Dict<V>, k: string, v: V, k': string)
    ensures Get(Set(d, k, v), k') == if k' == k then Some(v) else Get(d, k')
  {
    if d != [] && d[0].0 != k {
      SetGets(d[1..], k, v, k');
    }
  }

  /** The keys keep their places, and a new one comes last. */
  lemma {:induction false} SetKeeps<V>(d: Dict<V>, k: string, v: V)
    ensures |Set(d, k, v)| == |d| + if Fresh(d, k) then 1 else 0
    ensures forall i :: 0 <= i < |d| ==> Set(d, k, v)[i].0 == d[i].0
    ensures Fresh(d, k) ==> Set(d, k, v)[|d|].0 == k
  {
    if d != [] && d[0].0 != k {
      SetKeeps(d[1..], k, v);
      assert Fresh(d, k) <==> Fresh(d[1..], k);
    }
  }

  predicate Fresh<V>(d: Dict<V>, k: string) {
    forall i :: 0 <= i < |d| ==> d[i].0 != k
  }

  predicate Distinct<V>(d: Dict<V>) {
    forall i, j :: 0 <= i < j < |d| ==> d[i].0 != d[j].0
  }

  lemma {:induction false} SetFresh<V>(d: Dict<V>, k: string, v: V)
    requires Fresh(d, k)
    ensures Set(d, k, v) == d + [(k, v)]
  {
    if d != [] {
      SetFresh(d[1..], k, v);
      assert d == [d[0]] + d[1..];
    }
  }

  lemma {:induction false} SetAt<V>(d: Dict<V>, k: string, v: V, i: nat)
    requires i < |Set(d, k, v)|
    ensures Set(d, k, v)[i] == (k, v) || (i < |d| && Set(d, k, v)[i] == d[i])
  {
    if d != [] && d[0].0 != k && i > 0 {
      SetAt(d[1..], k, v, i - 1);
    }
  }

  lemma {:induction false} SetDistinct<V>(d: Dict<V>, k: string, v: V)
    requires Distinct(d)
    ensures Distinct(Set(d, k, v))
  {
    if Fresh(d, k) {
      SetFresh(d, k, v);
    } else {
      SetKeeps(d, k, v);
    }
  }

  lemma FreshKey<V>(d: Dict<V>, a: (string, V), rest: Dict<V>)
    requires Distinct(d + [a] + rest)
    ensures Fresh(d, a.0)
  {
    var all := d + [a] + rest;
    forall i | 0 <= i < |d| ensures d[i].0 != a.0 {
      assert all[i] == d[i] && all[|d|] == a;
    }
  }
}
