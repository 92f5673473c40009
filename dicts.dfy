/** Option, as the engine's fallible queries return it. */
module Wrappers {
  datatype Option<+T> = None | Some(value: T)
}

/**
 * Python dictionaries keyed by strings, as insertion-ordered association
 * lists. Iteration over a dict (`d.keys()`, `d.items()`) visits the pairs in
 * sequence order; assigning to an absent key appends, assigning to a present
 * key replaces its value in place.
 */
module PyDicts {

  type Dict<V> = seq<(string, V)>

  /** `list(d.keys())` */
  function Keys<V>(d: Dict<V>): (ks: seq<string>)
    ensures |ks| == |d|
    ensures forall i :: 0 <= i < |d| ==> ks[i] == d[i].0
  {
    if d == [] then [] else [d[0].0] + Keys(d[1..])
  }

  /** `k in d` */
  predicate HasKey<V>(d: Dict<V>, k: string)
  {
    k in Keys(d)
  }

  /** A real dict never holds a key twice. */
  ghost predicate Wf<V>(d: Dict<V>)
  {
    forall i, j :: 0 <= i < j < |d| ==> d[i].0 != d[j].0
  }

  /** `d[k]` for a key that is present: the value of its (first) entry. */
  function Lookup<V>(d: Dict<V>, k: string): V
    requires HasKey(d, k)
  {
    if d[0].0 == k then d[0].1 else Lookup(d[1..], k)
  }

  /** `d.get(k, default)` */
  function Get<V>(d: Dict<V>, k: string, default: V): V
  {
    if HasKey(d, k) then Lookup(d, k) else default
  }

  /** `d[k] = v`: replace the value of a present key in place, else append. */
  function Put<V>(d: Dict<V>, k: string, v: V): (r: Dict<V>)
    ensures Keys(r) == if HasKey(d, k) then Keys(d) else Keys(d) + [k]
    ensures !HasKey(d, k) ==> r == d + [(k, v)]
  {
    if d == [] then [(k, v)]
    else if d[0].0 == k then [(k, v)] + d[1..]
    else [d[0]] + Put(d[1..], k, v)
  }

  lemma PutHasKey<V>(d: Dict<V>, k: string, v: V, x: string)
    ensures HasKey(Put(d, k, v), x) <==> HasKey(d, x) || x == k
  {
  }

  /** A key is in the dict after appending `last` exactly when it was before or it is `last`. */
  lemma PutKeyStep<V>(prev: Dict<V>, init: seq<string>, b: bool, last: string, v: V, x: string)
    requires HasKey(prev, x) <==> b || x in init
    ensures HasKey(Put(prev, last, v), x) <==> b || x in init + [last]
  {
    PutHasKey(prev, last, v, x);
  }

  lemma {:induction false} PutLookup<V>(d: Dict<V>, k: string, v: V, x: string)
    requires HasKey(d, x) || x == k
    ensures HasKey(Put(d, k, v), x)
    ensures Lookup(Put(d, k, v), x) == if x == k then v else Lookup(d, x)
  {
    PutHasKey(d, k, v, x);
    if d != [] && d[0].0 != k && d[0].0 != x {
      assert Put(d, k, v)[1..] == Put(d[1..], k, v);
      PutLookup(d[1..], k, v, x);
    }
  }

  lemma {:induction false} PutWf<V>(d: Dict<V>, k: string, v: V)
    requires Wf(d)
    ensures Wf(Put(d, k, v))
  {
    var r := Put(d, k, v);
    forall i, j | 0 <= i < j < |r| ensures r[i].0 != r[j].0 {
      assert Keys(r)[i] == r[i].0 && Keys(r)[j] == r[j].0;
      assert Keys(d)[i] == d[i].0;
      if j < |d| {
        assert Keys(d)[j] == d[j].0;
      } else {
        assert r[j].0 == k && !HasKey(d, k);
      }
    }
  }

  lemma KeysAppend<V>(a: Dict<V>, b: Dict<V>)
    ensures Keys(a + b) == Keys(a) + Keys(b)
  {
    assert forall i :: 0 <= i < |a + b| ==> Keys(a + b)[i] == (Keys(a) + Keys(b))[i];
  }

  lemma HasKeyAppend<V>(a: Dict<V>, b: Dict<V>, k: string)
    ensures HasKey(a + b, k) <==> HasKey(a, k) || HasKey(b, k)
  {
    KeysAppend(a, b);
  }

  /** An entry at a known index is what lookup finds, in a dict without duplicates. */
  lemma LookupAt<V>(d: Dict<V>, i: nat)
    requires Wf(d) && i < |d|
    ensures HasKey(d, d[i].0) && Lookup(d, d[i].0) == d[i].1
  {
    assert Keys(d)[i] == d[i].0;
    if i > 0 {
      assert d[0].0 != d[i].0;
      assert d[1..][i - 1] == d[i];
      LookupAt(d[1..], i - 1);
    }
  }

  /** In a dict without duplicates, `d.get(k, default)` is the value paired with `k`. */
  lemma GetAt<V>(d: Dict<V>, i: nat, default: V)
    requires Wf(d) && i < |d|
    ensures Get(d, d[i].0, default) == d[i].1
  {
    LookupAt(d, i);
  }

  /** `d.get(k, default)` is the default when no pair has key `k`. */
  lemma GetAbsent<V>(d: Dict<V>, k: string, default: V)
    requires forall i :: 0 <= i < |d| ==> d[i].0 != k
    ensures Get(d, k, default) == default
  {
  }

  /** Looking up a key of the prefix is unaffected by pairs appended after it. */
  lemma LookupPrefix<V>(a: Dict<V>, b: Dict<V>, k: string)
    requires HasKey(a, k)
    ensures HasKey(a + b, k) && Lookup(a + b, k) == Lookup(a, k)
  {
    HasKeyAppend(a, b, k);
    if a[0].0 != k {
      assert (a + b)[1..] == a[1..] + b;
      assert Keys(a)[0] == a[0].0;
      LookupPrefix(a[1..], b, k);
    }
  }
}
