/**
 * Python dictionaries with string keys, kept in insertion order (as CPython
 * keeps them): a sequence of (key, value) items whose keys are distinct.
 */
module Dicts {
  import opened Wrappers

  type Dict<V> = seq<(string, V)>

  /** Keys of a dict are pairwise distinct. */
  predicate DistinctKeys<V>(d: Dict<V>) {
    forall i, j :: 0 <= i < j < |d| ==> d[i].0 != d[j].0
  }

  function Keys<V>(d: Dict<V>): set<string> {
    set i | 0 <= i < |d| :: d[i].0
  }

  lemma KeysConcat<V>(a: Dict<V>, b: Dict<V>)
    ensures Keys(a + b) == Keys(a) + Keys(b)
  {
    forall x | x in Keys(a + b) ensures x in Keys(a) + Keys(b) {
      var i :| 0 <= i < |a + b| && (a + b)[i].0 == x;
      if i >= |a| { assert b[i - |a|].0 == x; }
    }
    forall x | x in Keys(a) ensures x in Keys(a + b) {
      var i :| 0 <= i < |a| && a[i].0 == x;
      assert (a + b)[i].0 == x;
    }
    forall x | x in Keys(b) ensures x in Keys(a + b) {
      var i :| 0 <= i < |b| && b[i].0 == x;
      assert (a + b)[|a| + i].0 == x;
    }
  }

  /** `d.get(k)`: the value stored under `k`, if any. */
  function Get<V>(d: Dict<V>, k: string): (r: Option<V>)
    ensures r.None? <==> k !in Keys(d)
    ensures r.Some? ==> (k, r.value) in d
  {
    if d == [] then None
    else
      KeysConcat([d[0]], d[1..]);
      assert [d[0]] + d[1..] == d;
      if d[0].0 == k then Some(d[0].1) else Get(d[1..], k)
  }

  /** In a dict with distinct keys, each item's key maps to that item's value. */
  lemma {:induction false} GetAt<V>(d: Dict<V>, i: int)
    requires DistinctKeys(d) && 0 <= i < |d|
    ensures Get(d, d[i].0) == Some(d[i].1)
  {
    if i > 0 {
      assert d[1..][i - 1] == d[i];
      GetAt(d[1..], i - 1);
    }
  }

  /** `d.get(k, default)`. */
  function GetOr<V>(d: Dict<V>, k: string, default: V): V {
    Get(d, k).GetOr(default)
  }

  /** `d[k] = v` for a key not yet present: the item goes to the end. */
  function Add<V>(d: Dict<V>, k: string, v: V): Dict<V>
    requires k !in Keys(d)
  {
    d + [(k, v)]
  }

  /** Adding a new key makes it map to its value and leaves every other key as it was. */
  lemma AddSpec<V>(d: Dict<V>, k: string, v: V)
    requires k !in Keys(d)
    ensures Keys(Add(d, k, v)) == Keys(d) + {k}
    ensures Get(Add(d, k, v), k) == Some(v)
    ensures forall k' :: k' != k ==> Get(Add(d, k, v), k') == Get(d, k')
    ensures DistinctKeys(d) ==> DistinctKeys(Add(d, k, v))
  {
    AppendGet(d, (k, v));
    KeysConcat(d, [(k, v)]);
  }

  lemma {:induction false} AppendGet<V>(d: Dict<V>, e: (string, V))
    ensures forall k' :: k' != e.0 ==> Get(d + [e], k') == Get(d, k')
    ensures e.0 !in Keys(d) ==> Get(d + [e], e.0) == Some(e.1)
  {
    if d != [] {
      AppendGet(d[1..], e);
      assert (d + [e])[1..] == d[1..] + [e];
    }
  }

  /** `del d[k]` on a key that is present: every other item keeps its value and its place. */
  function Remove<V>(d: Dict<V>, k: string): (r: Dict<V>)
    requires DistinctKeys(d) && k in Keys(d)
    ensures DistinctKeys(r) && Keys(r) == Keys(d) - {k}
    ensures forall k' :: k' != k ==> Get(r, k') == Get(d, k')
    ensures |r| == |d| - 1
  {
    KeysConcat([d[0]], d[1..]);
    assert [d[0]] + d[1..] == d;
    if d[0].0 == k then
      d[1..]
    else
      var t := Remove(d[1..], k);
      KeysConcat([d[0]], t);
      assert d[0].0 !in Keys(d[1..]);
      forall j | 0 < j < |t| + 1 ensures ([d[0]] + t)[j].0 != d[0].0 {
        assert t[j - 1].0 in Keys(t);
      }
      [d[0]] + t
  }

  /** `del d[k]` cuts the item out: the items before and after it stay, in order. */
  lemma {:induction false} RemoveInPlace<V>(d: Dict<V>, k: string) returns (i: nat)
    requires DistinctKeys(d) && k in Keys(d)
    ensures i < |d| && d[i].0 == k
    ensures Remove(d, k) == d[..i] + d[i + 1..]
  {
    if d[0].0 == k {
      i := 0;
    } else {
      var t := RemoveTail(d, k);
      var j := RemoveInPlace(t, k);
      i := j + 1;
      SpliceTail(d, j);
    }
  }

  /** Past a first item with another key, `del d[k]` works on the rest. */
  lemma RemoveTail<V>(d: Dict<V>, k: string) returns (t: Dict<V>)
    requires DistinctKeys(d) && k in Keys(d) && d[0].0 != k
    ensures t == d[1..] && DistinctKeys(t) && k in Keys(t)
    ensures Remove(d, k) == [d[0]] + Remove(t, k)
  {
    t := d[1..];
    KeysConcat([d[0]], t);
    assert [d[0]] + t == d;
  }

  lemma SpliceTail<V>(d: Dict<V>, j: nat)
    requires j + 1 < |d|
    ensures [d[0]] + (d[1..][..j] + d[1..][j + 1..]) == d[..j + 1] + d[j + 2..]
  {
    assert d[1..][..j] == d[1..j + 1];
    assert d[1..][j + 1..] == d[j + 2..];
  }
}
