/** Array helpers: de-duplication by a key and removal of falsy elements. */
module Arrays {
  import opened JsValues

  /** No element occurs twice. */
  ghost predicate Distinct<K>(ks: seq<K>) {
    forall i, j :: 0 <= i < j < |ks| ==> ks[i] != ks[j]
  }

  function Keys<K, V>(m: seq<(K, V)>): (ks: seq<K>)
    ensures |ks| == |m| && forall i :: 0 <= i < |m| ==> ks[i] == m[i].0
  {
    if m == [] then [] else [m[0].0] + Keys(m[1..])
  }

  /** The first position holding the key `k`. */
  function IndexOfKey<K(==), V>(m: seq<(K, V)>, k: K): (i: nat)
    requires k in Keys(m)
    ensures i < |m| && m[i].0 == k
  {
    if m[0].0 == k then 0
    else
      assert Keys(m)[1..] == Keys(m[1..]);
      1 + IndexOfKey(m[1..], k)
  }

  /** `map.set(k, v)` on an insertion-ordered `Map`: an existing key keeps its place and takes the new value, a new key goes last. */
  function MapSet<K(==), V>(m: seq<(K, V)>, k: K, v: V): (r: seq<(K, V)>)
    ensures Keys(r) == if k in Keys(m) then Keys(m) else Keys(m) + [k]
    ensures forall j :: 0 <= j < |r| && r[j].0 != k ==> j < |m| && r[j] == m[j]
    ensures Distinct(Keys(m)) ==> forall j :: 0 <= j < |r| && r[j].0 == k ==> r[j].1 == v
  {
    if k in Keys(m) then
      var i := IndexOfKey(m, k);
      assert Keys(m[i := (k, v)]) == Keys(m);
      assert Distinct(Keys(m)) ==> forall j :: 0 <= j < |m| && m[j].0 == k ==> j == i by {
        if Distinct(Keys(m)) {
          forall j | 0 <= j < |m| && m[j].0 == k ensures j == i {
            assert Keys(m)[j] == Keys(m)[i];
          }
        }
      }
      m[i := (k, v)]
    else
      assert Keys(m + [(k, v)]) == Keys(m) + [k];
      m + [(k, v)]
  }

  /** The keys of `ks` in order of first occurrence, each once. */
  function FirstOccurrences<K(==)>(ks: seq<K>): (r: seq<K>)
    ensures Distinct(r)
    ensures forall i :: 0 <= i < |r| ==> r[i] in ks
    ensures forall i :: 0 <= i < |ks| ==> ks[i] in r
  {
    if ks == [] then []
    else
      var prefix := FirstOccurrences(ks[..|ks| - 1]);
      assert forall i :: 0 <= i < |ks| - 1 ==> ks[i] == ks[..|ks| - 1][i];
      if ks[|ks| - 1] in prefix then prefix else prefix + [ks[|ks| - 1]]
  }

  /** `arr.map((item) => item[key])` */
  function KeysOfItems<T, K>(arr: seq<T>, key: T -> K): (ks: seq<K>)
    ensures |ks| == |arr| && forall i :: 0 <= i < |arr| ==> ks[i] == key(arr[i])
  {
    if arr == [] then [] else KeysOfItems(arr[..|arr| - 1], key) + [key(arr[|arr| - 1])]
  }

  /** Every entry is a pair of an item's key and the item. */
  ghost predicate Keyed<T, K>(m: seq<(K, T)>, key: T -> K) {
    forall i :: 0 <= i < |m| ==> m[i].0 == key(m[i].1)
  }

  /**
   * `new Map(arr.map((item) => [item[key], item]))`: one entry per distinct
   * key, in order of first occurrence, each holding an item with that key.
   */
  function BuildMap<T, K(==)>(arr: seq<T>, key: T -> K): (m: seq<(K, T)>)
    ensures Keys(m) == FirstOccurrences(KeysOfItems(arr, key))
    ensures Keyed(m, key)
  {
    if arr == [] then []
    else
      var init := arr[..|arr| - 1];
      var x := arr[|arr| - 1];
      var m0 := BuildMap(init, key);
      assert KeysOfItems(arr, key)[..|arr| - 1] == KeysOfItems(init, key);
      MapSet(m0, key(x), x)
  }

  /** `uniqueBy(arr, key)`: the map's values in its key order. */
  function UniqueBy<T, K(==)>(arr: seq<T>, key: T -> K): (r: seq<T>)
    ensures |r| == |BuildMap(arr, key)| && forall i :: 0 <= i < |r| ==> r[i] == BuildMap(arr, key)[i].1
  {
    var m := BuildMap(arr, key);
    seq(|m|, i requires 0 <= i < |m| => m[i].1)
  }

  /** Each key's value is the last item with that key. */
  lemma {:induction false} LastWins<T, K>(arr: seq<T>, key: T -> K, j: nat)
    requires j < |BuildMap(arr, key)|
    ensures var e := BuildMap(arr, key)[j];
      exists i :: 0 <= i < |arr| && arr[i] == e.1 && forall i' :: i < i' < |arr| ==> key(arr[i']) != e.0
  {
    var init := arr[..|arr| - 1];
    var x := arr[|arr| - 1];
    var m0 := BuildMap(init, key);
    var e := BuildMap(arr, key)[j];
    if e.0 == key(x) {
      assert e.1 == x;
      assert arr[|arr| - 1] == e.1;
    } else {
      assert j < |m0| && m0[j] == e;
      LastWins(init, key, j);
      var i :| 0 <= i < |init| && init[i] == e.1 && forall i' :: i < i' < |init| ==> key(init[i']) != e.0;
      assert arr[i] == e.1;
      forall i' | i < i' < |arr| ensures key(arr[i']) != e.0 {
        if i' < |init| {
          assert arr[i'] == init[i'];
        }
      }
    }
  }

  /** `uniqueBy` keeps one item per distinct key, the keys in order of first occurrence. */
  lemma {:induction false} UniqueByKeys<T, K>(arr: seq<T>, key: T -> K)
    ensures KeysOfItems(UniqueBy(arr, key), key) == FirstOccurrences(KeysOfItems(arr, key))
  {
    var r := UniqueBy(arr, key);
    var m := BuildMap(arr, key);
    forall i | 0 <= i < |r| ensures KeysOfItems(r, key)[i] == Keys(m)[i] {
      assert m[i].0 == key(m[i].1);
    }
  }

  /** The item `uniqueBy` keeps for a key is the last item with that key. */
  lemma {:induction false} UniqueByLast<T, K>(arr: seq<T>, key: T -> K, j: nat)
    requires j < |UniqueBy(arr, key)|
    ensures var x := UniqueBy(arr, key)[j];
      exists i :: 0 <= i < |arr| && arr[i] == x && forall i' :: i < i' < |arr| ==> key(arr[i']) != key(x)
  {
    var m := BuildMap(arr, key);
    LastWins(arr, key, j);
    assert m[j].0 == key(m[j].1);
  }

  /** `compact(arr)`: `arr.filter(Boolean)`. */
  function Compact(arr: seq<Js>): (r: seq<Js>)
    ensures |r| <= |arr|
    ensures forall i :: 0 <= i < |r| ==> Truthy(r[i]) && r[i] in arr
    ensures forall x :: x in arr && Truthy(x) ==> x in r
  {
    if arr == [] then [] else (if Truthy(arr[0]) then [arr[0]] else []) + Compact(arr[1..])
  }

  /** Compacting distributes over concatenation, so kept elements stay in their relative order. */
  lemma {:induction false} CompactAppend(a: seq<Js>, b: seq<Js>)
    ensures Compact(a + b) == Compact(a) + Compact(b)
  {
    if a == [] {
      assert a + b == b;
    } else {
      assert (a + b)[0] == a[0] && (a + b)[1..] == a[1..] + b;
      CompactAppend(a[1..], b);
    }
  }

  /** Each element is dropped exactly when it is falsy. */
  lemma {:induction false} CompactSingle(x: Js)
    ensures Compact([x]) == if Truthy(x) then [x] else []
  {
  }

  /** Compacting twice changes nothing. */
  lemma {:induction false} CompactIdempotent(arr: seq<Js>)
    ensures Compact(Compact(arr)) == Compact(arr)
  {
    if arr != [] {
      CompactIdempotent(arr[1..]);
      var h := if Truthy(arr[0]) then [arr[0]] else [];
      CompactAppend(h, Compact(arr[1..]));
    }
  }
}
