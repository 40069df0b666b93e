/**
  A JavaScript `Map<string, V>`: entries in insertion order, at most one per
  key. `set` on a present key replaces the value where it stands; on a new key
  it appends. Iteration (`values()`) follows the entry order.
 */
module Table {
  import opened Wrappers

  datatype Entry<V> = Entry(key: string, value: V)

  type Table<V> = seq<Entry<V>>

  function Keys<V>(t: Table<V>): (ks: seq<string>)
    ensures |ks| == |t|
    ensures forall i :: 0 <= i < |t| ==> ks[i] == t[i].key
  {
    if |t| == 0 then [] else [t[0].key] + Keys(t[1..])
  }

  /** `Array.from(m.values())`. */
  function Values<V>(t: Table<V>): (vs: seq<V>)
    ensures |vs| == |t|
    ensures forall i :: 0 <= i < |t| ==> vs[i] == t[i].value
  {
    if |t| == 0 then [] else [t[0].value] + Values(t[1..])
  }

  /** No key occurs twice: the shape every JavaScript Map has. */
  predicate DistinctKeys<V>(t: Table<V>) {
    forall i, j :: 0 <= i < j < |t| ==> t[i].key != t[j].key
  }

  /** The position of key `k`, if present (the first one, should keys repeat). */
  function IndexOf<V>(t: Table<V>, k: string): (r: Option<nat>)
    ensures r.Some? ==> r.value < |t| && t[r.value].key == k
    ensures r.Some? ==> forall j :: 0 <= j < r.value ==> t[j].key != k
    ensures r.None? ==> forall j :: 0 <= j < |t| ==> t[j].key != k
  {
    if |t| == 0 then None
    else if t[0].key == k then Some(0)
    else match IndexOf(t[1..], k)
      case None => None
      case Some(i) => Some(i + 1)
  }

  /** `m.get(k)`: the value stored under `k`, or not-found. */
  function Get<V>(t: Table<V>, k: string): (r: Option<V>)
    ensures r.Some? <==> k in Keys(t)
    ensures r.Some? ==> Entry(k, r.value) in t
  {
    match IndexOf(t, k)
    case None => None
    case Some(i) => assert Keys(t)[i] == k; Some(t[i].value)
  }

  /** `m.set(k, v)`. */
  function Put<V>(t: Table<V>, k: string, v: V): (r: Table<V>)
    ensures Get(r, k) == Some(v)
    ensures forall j :: j != k ==> Get(r, j) == Get(t, j)
    ensures k in Keys(t) ==> Keys(r) == Keys(t)
    ensures k !in Keys(t) ==> Keys(r) == Keys(t) + [k] && r == t + [Entry(k, v)]
    ensures DistinctKeys(t) ==> DistinctKeys(r)
  {
    match IndexOf(t, k)
    case Some(i) =>
      PutInPlace(t, k, v, i);
      t[i := Entry(k, v)]
    case None =>
      PutAppends(t, k, v);
      t + [Entry(k, v)]
  }

  /** `set` on a present key: the entry is replaced where it stands. */
  lemma PutInPlace<V>(t: Table<V>, k: string, v: V, i: nat)
    requires IndexOf(t, k) == Some(i)
    ensures var r := t[i := Entry(k, v)];
      && Get(r, k) == Some(v)
      && (forall j :: j != k ==> Get(r, j) == Get(t, j))
      && Keys(r) == Keys(t)
      && (DistinctKeys(t) ==> DistinctKeys(r))
  {
    var r := t[i := Entry(k, v)];
    IndexOfFirst(r, k, i);
    forall j | j != k
      ensures IndexOf(r, j) == IndexOf(t, j)
    {
      SameKeysSameIndex(r, t, j);
    }
  }

  /** `set` on a new key: the entry is appended. */
  lemma PutAppends<V>(t: Table<V>, k: string, v: V)
    requires IndexOf(t, k).None?
    ensures var r := t + [Entry(k, v)];
      && Get(r, k) == Some(v)
      && (forall j :: j != k ==> Get(r, j) == Get(t, j))
      && Keys(r) == Keys(t) + [k]
      && (DistinctKeys(t) ==> DistinctKeys(r))
  {
    var r := t + [Entry(k, v)];
    AppendedGet(t, k, v);
    AppendedKeys(t, k, v);
    if DistinctKeys(t) {
      AppendedDistinct(t, k, v);
    }
  }

  /** Appending an entry for a new key makes it findable and hides nothing else. */
  lemma AppendedGet<V>(t: Table<V>, k: string, v: V)
    requires IndexOf(t, k).None?
    ensures Get(t + [Entry(k, v)], k) == Some(v)
    ensures forall j :: j != k ==> Get(t + [Entry(k, v)], j) == Get(t, j)
  {
    var r := t + [Entry(k, v)];
    IndexOfFirst(r, k, |t|);
    forall j | j != k
      ensures Get(r, j) == Get(t, j)
    {
      PrefixIndex(t, r, j);
    }
  }

  lemma AppendedKeys<V>(t: Table<V>, k: string, v: V)
    ensures Keys(t + [Entry(k, v)]) == Keys(t) + [k]
  {
    var r := t + [Entry(k, v)];
    assert forall i :: 0 <= i < |t| ==> Keys(r)[i] == Keys(t)[i];
  }

  lemma AppendedDistinct<V>(t: Table<V>, k: string, v: V)
    requires IndexOf(t, k).None? && DistinctKeys(t)
    ensures DistinctKeys(t + [Entry(k, v)])
  {
    var r := t + [Entry(k, v)];
    forall a, b | 0 <= a < b < |r|
      ensures r[a].key != r[b].key
    {
      if b == |t| {
        assert r[a].key == t[a].key;
      }
    }
  }

  /** The first position holding `k` is the one `IndexOf` reports. */
  lemma {:induction false} IndexOfFirst<V>(t: Table<V>, k: string, i: nat)
    requires i < |t| && t[i].key == k
    requires forall j :: 0 <= j < i ==> t[j].key != k
    ensures IndexOf(t, k) == Some(i)
  {
    if i > 0 {
      IndexOfFirst(t[1..], k, i - 1);
    }
  }

  lemma {:induction false} SameKeysSameIndex<V>(a: Table<V>, b: Table<V>, k: string)
    requires |a| == |b|
    requires forall i :: 0 <= i < |a| ==> a[i].key == b[i].key
    ensures IndexOf(a, k) == IndexOf(b, k)
  {
    if |a| > 0 && a[0].key != k {
      SameKeysSameIndex(a[1..], b[1..], k);
    }
  }

  lemma {:induction false} PrefixIndex<V>(t: Table<V>, r: Table<V>, k: string)
    requires |t| <= |r| && t == r[..|t|]
    requires forall i :: |t| <= i < |r| ==> r[i].key != k
    ensures IndexOf(r, k) == IndexOf(t, k)
  {
    if |t| > 0 && t[0].key != k {
      assert r[0] == t[0];
      PrefixIndex(t[1..], r[1..], k);
    }
  }

  /** `get` after `set` on the same key returns the value set; other keys are unaffected. */
  lemma GetAfterPut<V>(t: Table<V>, k: string, v: V, j: string)
    ensures Get(Put(t, k, v), j) == (if j == k then Some(v) else Get(t, j))
  {
  }

  /** In a table without repeated keys, the entry for `k` is the one holding its value. */
  lemma GetDistinct<V>(t: Table<V>, k: string, i: int)
    requires DistinctKeys(t)
    requires 0 <= i < |t| && t[i].key == k
    ensures Get(t, k) == Some(t[i].value)
  {
    IndexOfFirst(t, k, i);
  }
}
