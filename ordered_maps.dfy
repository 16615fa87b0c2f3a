/** Python dictionaries with string keys: a map plus the order in which its keys were inserted. */
module OrderedMaps {

  datatype OrderedMap<V> = OrderedMap(keys: seq<string>, vals: map<string, V>) {

    /** Every key occurs once in the order, and the order lists exactly the map's keys. */
    ghost predicate Valid() {
      && (forall i, j :: 0 <= i < j < |keys| ==> keys[i] != keys[j])
      && (forall k :: k in vals <==> k in keys)
    }
  }

  function Empty<V>(): (r: OrderedMap<V>)
    ensures r.Valid() && r.keys == [] && r.vals == map[]
  {
    OrderedMap([], map[])
  }

  /** `d[k] = v`: an existing key keeps its place, a new key goes last. */
  function Put<V>(d: OrderedMap<V>, k: string, v: V): (r: OrderedMap<V>)
    requires d.Valid()
    ensures r.Valid()
    ensures r.vals == d.vals[k := v]
    ensures k in d.vals ==> r.keys == d.keys
    ensures k !in d.vals ==> r.keys == d.keys + [k]
  {
    if k in d.vals then OrderedMap(d.keys, d.vals[k := v])
    else OrderedMap(d.keys + [k], d.vals[k := v])
  }

  /** The keys in order, without `k`. */
  function RemoveFromOrder(ks: seq<string>, k: string): (r: seq<string>)
    ensures forall x :: x in r <==> x in ks && x != k
    ensures (forall i, j :: 0 <= i < j < |ks| ==> ks[i] != ks[j]) ==>
              forall i, j :: 0 <= i < j < |r| ==> r[i] != r[j]
    ensures k !in ks ==> r == ks
  {
    if ks == [] then []
    else if ks[0] == k then RemoveFromOrder(ks[1..], k)
    else
      var rest := RemoveFromOrder(ks[1..], k);
      assert (forall i, j :: 0 <= i < j < |ks| ==> ks[i] != ks[j]) ==> ks[0] !in ks[1..];
      [ks[0]] + rest
  }

  /** The dictionary without key `k` (`d.pop(k, None)`). */
  function Remove<V>(d: OrderedMap<V>, k: string): (r: OrderedMap<V>)
    requires d.Valid()
    ensures r.Valid()
    ensures r.vals == d.vals - {k}
    ensures k !in d.vals ==> r == d
  {
    OrderedMap(RemoveFromOrder(d.keys, k), d.vals - {k})
  }

  /** The index of key `k` in the order of a valid map. */
  lemma KeyIndex<V>(d: OrderedMap<V>, k: string) returns (i: nat)
    requires d.Valid() && k in d.vals
    ensures i < |d.keys| && d.keys[i] == k
    ensures forall j :: 0 <= j < |d.keys| && d.keys[j] == k ==> j == i
  {
    assert k in d.keys;
    i :| 0 <= i < |d.keys| && d.keys[i] == k;
  }

  /** The position of `k` in `ks`: its first occurrence. */
  function IndexOf(ks: seq<string>, k: string): (i: nat)
    requires k in ks
    ensures i < |ks| && ks[i] == k && k !in ks[..i]
  {
    if ks[0] == k then 0 else 1 + IndexOf(ks[1..], k)
  }

  /** Every element of `r` is one of `ks`, and they come in the order of `ks`. */
  ghost predicate InOrderOf(r: seq<string>, ks: seq<string>) {
    forall i, j :: 0 <= i < j < |r| ==> r[i] in ks && r[j] in ks && IndexOf(ks, r[i]) < IndexOf(ks, r[j])
  }

  /** A key of the tail, other than the head, sits one place further in the whole. */
  lemma IndexInTail(ks: seq<string>, k: string)
    requires ks != [] && k in ks[1..] && k != ks[0]
    ensures k in ks && IndexOf(ks, k) == 1 + IndexOf(ks[1..], k)
  {
  }

  /** Assigning a key twice is assigning it once, with the second value. */
  lemma PutTwice<V>(d: OrderedMap<V>, k: string, v: V, w: V)
    requires d.Valid()
    ensures Put(Put(d, k, v), k, w) == Put(d, k, w)
  {
    assert d.vals[k := v][k := w] == d.vals[k := w];
  }

  /** `d.values()`: the values in the order of their keys, as `d.items()` pairs them. */
  function Values<V>(d: OrderedMap<V>): (r: seq<V>)
    requires d.Valid()
    ensures |r| == |d.keys| && forall i :: 0 <= i < |d.keys| ==> r[i] == d.vals[d.keys[i]]
  {
    seq(|d.keys|, i requires 0 <= i < |d.keys| => d.vals[d.keys[i]])
  }

  /** The dictionary built by assigning `vs[i]` to `ks[i]` for each of the first `n` positions,
      in order. */
  function FromPairs<V>(ks: seq<string>, vs: seq<V>, n: nat): (r: OrderedMap<V>)
    requires n <= |ks| && n <= |vs|
    ensures r.Valid()
  {
    if n == 0 then Empty() else Put(FromPairs(ks, vs, n - 1), ks[n - 1], vs[n - 1])
  }

  /** With distinct keys, the order is the keys' own order. */
  lemma {:induction false} FromPairsKeys<V>(ks: seq<string>, vs: seq<V>, n: nat)
    requires n <= |ks| && n <= |vs|
    requires forall i, j :: 0 <= i < j < |ks| ==> ks[i] != ks[j]
    ensures FromPairs(ks, vs, n).keys == ks[..n]
  {
    if n > 0 {
      FromPairsKeys(ks, vs, n - 1);
      LastIsNew(ks, n);
    }
  }

  /** With distinct keys, the `n`-th key is not among the ones before it. */
  lemma LastIsNew(ks: seq<string>, n: nat)
    requires 0 < n <= |ks|
    requires forall i, j :: 0 <= i < j < |ks| ==> ks[i] != ks[j]
    ensures ks[n - 1] !in ks[..n - 1] && ks[..n - 1] + [ks[n - 1]] == ks[..n]
  {
    assert forall i :: 0 <= i < n - 1 ==> ks[..n - 1][i] == ks[i];
  }

  /** With distinct keys, key `i` is mapped to value `i`. */
  lemma {:induction false} FromPairsValue<V>(ks: seq<string>, vs: seq<V>, n: nat, i: nat)
    requires i < n <= |ks| && n <= |vs|
    requires forall a, b :: 0 <= a < b < |ks| ==> ks[a] != ks[b]
    ensures ks[i] in FromPairs(ks, vs, n).vals && FromPairs(ks, vs, n).vals[ks[i]] == vs[i]
  {
    if i < n - 1 {
      FromPairsValue(ks, vs, n - 1, i);
      assert ks[i] != ks[n - 1];
    }
  }
}
