/** Insertion-ordered string-keyed maps (the `SafeMap`s of the import map, and the
    own properties of a decoded object), as sequences of key/value pairs. */
module OrderedMaps {
  import opened Wrappers

  type Entries<V> = seq<(string, V)>

  /** No key occurs twice. */
  predicate UniqueKeys<V>(m: Entries<V>) {
    forall i, j :: 0 <= i < j < |m| ==> m[i].0 != m[j].0
  }

  /** The keys in order, as `Object.keys` lists them. */
  function Keys<V>(m: Entries<V>): (ks: seq<string>)
    ensures |ks| == |m|
    ensures forall i :: 0 <= i < |m| ==> ks[i] == m[i].0
  {
    seq(|m|, i requires 0 <= i < |m| => m[i].0)
  }

  predicate HasKey<V>(m: Entries<V>, k: string) {
    exists i :: 0 <= i < |m| && m[i].0 == k
  }

  /** The position of the first entry with key `k`. */
  function IndexOf<V>(m: Entries<V>, k: string): (r: Option<nat>)
    ensures r.Some? ==> (r.value < |m| && m[r.value].0 == k
      && forall j :: 0 <= j < r.value ==> m[j].0 != k)
    ensures r.None? <==> !HasKey(m, k)
  {
    if |m| == 0 then None
    else if m[0].0 == k then Some(0)
    else match IndexOf(m[1..], k)
      case None => None
      case Some(i) => Some(i + 1)
  }

  /** The first-occurrence property determines `IndexOf`. */
  lemma IndexOfIs<V>(m: Entries<V>, k: string, i: nat)
    requires i < |m| && m[i].0 == k
    requires forall j :: 0 <= j < i ==> m[j].0 != k
    ensures IndexOf(m, k) == Some(i)
  {
  }

  /** `map.get(k)`: the value stored under `k`, if any. */
  function Get<V>(m: Entries<V>, k: string): (r: Option<V>)
    ensures r.Some? <==> HasKey(m, k)
    ensures UniqueKeys(m) ==> forall i :: 0 <= i < |m| && m[i].0 == k ==> r == Some(m[i].1)
  {
    match IndexOf(m, k)
    case None => None
    case Some(i) => Some(m[i].1)
  }

  /** `map.set(k, v)`: overwrite the value of an existing key in place, keeping
      its position, or append a new entry at the end. */
  function Set<V>(m: Entries<V>, k: string, v: V): (r: Entries<V>)
    ensures Get(r, k) == Some(v)
    ensures forall k' :: k' != k ==> Get(r, k') == Get(m, k')
    ensures HasKey(m, k) ==> |r| == |m|
    ensures !HasKey(m, k) ==> r == m + [(k, v)]
    ensures forall j :: 0 <= j < |m| && m[j].0 != k ==> r[j] == m[j]
    ensures UniqueKeys(m) ==> UniqueKeys(r)
  {
    match IndexOf(m, k)
    case None =>
      var r := m + [(k, v)];
      IndexOfIs(r, k, |m|);
      assert forall k' :: k' != k ==> IndexOf(r, k') == IndexOf(m, k') by {
        forall k' | k' != k ensures IndexOf(r, k') == IndexOf(m, k') {
          if HasKey(m, k') { IndexOfIs(r, k', IndexOf(m, k').value); }
          else { assert !HasKey(r, k'); }
        }
      }
      r
    case Some(i) =>
      var r := m[i := (k, v)];
      IndexOfIs(r, k, i);
      assert forall k' :: k' != k ==> IndexOf(r, k') == IndexOf(m, k') by {
        forall k' | k' != k ensures IndexOf(r, k') == IndexOf(m, k') {
          if HasKey(m, k') { IndexOfIs(r, k', IndexOf(m, k').value); }
          else { assert !HasKey(r, k'); }
        }
      }
      r
  }

  /** Rewriting a key's value with the value it already has leaves the map as it was. */
  lemma SetExisting<V>(m: Entries<V>, k: string, v: V)
    requires Get(m, k) == Some(v)
    ensures Set(m, k, v) == m
  {
    var i := IndexOf(m, k).value;
    assert m[i := (k, v)] == m;
  }

  /** Apply `f` to every value, keeping keys and order. */
  function MapValues<V, W>(m: Entries<V>, f: V -> W): (r: Entries<W>)
    ensures |r| == |m|
    ensures forall i :: 0 <= i < |m| ==> r[i].0 == m[i].0 && r[i].1 == f(m[i].1)
  {
    if |m| == 0 then [] else [(m[0].0, f(m[0].1))] + MapValues(m[1..], f)
  }

  /** Looking up in a value-mapped map is looking up and then mapping the value. */
  lemma GetMapValues<V, W>(m: Entries<V>, f: V -> W, k: string)
    ensures Get(MapValues(m, f), k) == match Get(m, k) case None => None case Some(v) => Some(f(v))
  {
    var r := MapValues(m, f);
    if HasKey(m, k) {
      IndexOfIs(r, k, IndexOf(m, k).value);
    } else {
      assert !HasKey(r, k);
    }
  }

  /** Overwriting a value with one that `f` cannot tell apart from it leaves the
      value-mapped map unchanged. */
  lemma SetMapValues<V, W>(m: Entries<V>, f: V -> W, k: string, v: V)
    requires HasKey(m, k)
    requires f(v) == f(Get(m, k).value)
    ensures MapValues(Set(m, k, v), f) == MapValues(m, f)
  {
    var i := IndexOf(m, k).value;
    var m' := Set(m, k, v);
    SetAt(m, k, v);
    var a := MapValues(m', f);
    var b := MapValues(m, f);
    forall j | 0 <= j < |b| ensures a[j] == b[j] {
      if j == i {
        assert m'[j] == (k, v) && m[j] == (k, Get(m, k).value);
      } else {
        assert m'[j] == m[j];
      }
    }
    assert a == b;
  }

  /** Overwriting an existing key replaces the entry at its first position. */
  lemma SetAt<V>(m: Entries<V>, k: string, v: V)
    requires HasKey(m, k)
    ensures Set(m, k, v) == m[IndexOf(m, k).value := (k, v)]
  {
  }

  /** Regrouping a concatenation; stated on its own so that callers do not have
      to search for it among their other facts. */
  lemma AppendAssociative<T>(a: seq<T>, b: seq<T>, c: seq<T>)
    ensures (a + b) + c == a + (b + c)
  {
  }
}
