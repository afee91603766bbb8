/** Insertion-ordered string-keyed mappings with the semantics of a Python
    `dict`: lookup finds the key, assignment to a present key keeps its position,
    assignment to an absent key appends it, `update` assigns entry by entry. */
module Dicts {
  import opened Wrappers

  type Dict<V> = seq<(string, V)>

  /** The keys in insertion order (`list(d)`). */
  function KeysOf<V>(d: Dict<V>): (ks: seq<string>)
    ensures |ks| == |d|
  {
    if |d| == 0 then [] else [d[0].0] + KeysOf(d[1..])
  }

  predicate Has<V>(d: Dict<V>, k: string)
  {
    k in KeysOf(d)
  }

  /** Keys of a Python dict are distinct: the representation invariant. */
  predicate Distinct<V>(d: Dict<V>)
  {
    |d| == 0 || (!Has(d[1..], d[0].0) && Distinct(d[1..]))
  }

  /** `d.get(k)`: the value stored under `k`, if any. */
  function Get<V>(d: Dict<V>, k: string): (r: Option<V>)
    ensures r.Some? <==> Has(d, k)
  {
    if |d| == 0 then None
    else if d[0].0 == k then Some(d[0].1)
    else Get(d[1..], k)
  }

  lemma {:induction false} KeysOfIndex<V>(d: Dict<V>, i: int)
    requires 0 <= i < |d|
    ensures KeysOf(d)[i] == d[i].0
  {
    if i > 0 {
      KeysOfIndex(d[1..], i - 1);
    }
  }

  /** With distinct keys, every entry is what lookup finds for its key. */
  lemma {:induction false} GetEntry<V>(d: Dict<V>, i: int)
    requires Distinct(d)
    requires 0 <= i < |d|
    ensures Get(d, d[i].0) == Some(d[i].1)
  {
    if i > 0 {
      GetEntry(d[1..], i - 1);
      KeysOfIndex(d[1..], i - 1);
    }
  }

  /** `d[k] = v`: replace in place when `k` is present, append otherwise. */
  function Set<V>(d: Dict<V>, k: string, v: V): (r: Dict<V>)
    ensures Get(r, k) == Some(v)
    ensures forall k' :: k' != k ==> Get(r, k') == Get(d, k')
  {
    if |d| == 0 then [(k, v)]
    else if d[0].0 == k then [(k, v)] + d[1..]
    else [d[0]] + Set(d[1..], k, v)
  }

  /** Assignment keeps the key order, appending a key that was absent. */
  lemma {:induction false} SetKeys<V>(d: Dict<V>, k: string, v: V)
    ensures KeysOf(Set(d, k, v)) == if Has(d, k) then KeysOf(d) else KeysOf(d) + [k]
  {
    if |d| > 0 && d[0].0 != k {
      SetKeys(d[1..], k, v);
    }
  }

  lemma SetDistinct<V>(d: Dict<V>, k: string, v: V)
    requires Distinct(d)
    ensures Distinct(Set(d, k, v))
  {
    SetKeys(d, k, v);
    if |d| > 0 && d[0].0 != k {
      SetDistinct(d[1..], k, v);
      SetKeys(d[1..], k, v);
    }
  }

  /** Assigning a key the value it already has changes nothing. */
  lemma {:induction false} SetPresent<V>(d: Dict<V>, k: string, v: V)
    requires Distinct(d)
    requires Get(d, k) == Some(v)
    ensures Set(d, k, v) == d
  {
    if d[0].0 != k {
      SetPresent(d[1..], k, v);
    }
  }

  /** `d.update(e)`: assigns the entries of `e` to `d` one by one, in order. */
  function Update<V>(d: Dict<V>, e: Dict<V>): Dict<V>
    decreases |e|
  {
    if |e| == 0 then d
    else Update(Set(d, e[0].0, e[0].1), e[1..])
  }

  /** After `d.update(e)` each key of `e` has `e`'s value and every other key
      keeps `d`'s. */
  lemma {:induction false} UpdateGet<V>(d: Dict<V>, e: Dict<V>, k: string)
    requires Distinct(e)
    ensures Get(Update(d, e), k) == if Has(e, k) then Get(e, k) else Get(d, k)
    decreases |e|
  {
    if |e| > 0 {
      UpdateGet(Set(d, e[0].0, e[0].1), e[1..], k);
    }
  }

  /** `d.update(e)` keeps `d`'s keys in front, in their order. */
  lemma {:induction false} UpdateKeys<V>(d: Dict<V>, e: Dict<V>)
    ensures KeysOf(d) <= KeysOf(Update(d, e))
    decreases |e|
  {
    if |e| > 0 {
      SetKeys(d, e[0].0, e[0].1);
      UpdateKeys(Set(d, e[0].0, e[0].1), e[1..]);
    }
  }

  lemma {:induction false} UpdateDistinct<V>(d: Dict<V>, e: Dict<V>)
    requires Distinct(d)
    ensures Distinct(Update(d, e))
    decreases |e|
  {
    if |e| > 0 {
      SetDistinct(d, e[0].0, e[0].1);
      UpdateDistinct(Set(d, e[0].0, e[0].1), e[1..]);
    }
  }

  /** The entries of `d` whose keys are not in `ks`, in order (a dict
      comprehension with a key filter). */
  function Without<V>(d: Dict<V>, ks: seq<string>): (r: Dict<V>)
    ensures forall k :: Get(r, k) == if k in ks then None else Get(d, k)
  {
    if |d| == 0 then []
    else if d[0].0 in ks then Without(d[1..], ks)
    else [d[0]] + Without(d[1..], ks)
  }

  lemma {:induction false} KeysOfAppend<V>(a: Dict<V>, b: Dict<V>)
    ensures KeysOf(a + b) == KeysOf(a) + KeysOf(b)
    decreases |a|
  {
    if |a| == 0 {
      assert a + b == b;
    } else {
      assert (a + b)[1..] == a[1..] + b;
      KeysOfAppend(a[1..], b);
    }
  }

  /** Distinct keys, stated by position. */
  lemma {:induction false} DistinctIndex<V>(d: Dict<V>, i: int, j: int)
    requires Distinct(d)
    requires 0 <= i < j < |d|
    ensures d[i].0 != d[j].0
  {
    if i == 0 {
      KeysOfIndex(d[1..], j - 1);
    } else {
      DistinctIndex(d[1..], i - 1, j - 1);
    }
  }
}
