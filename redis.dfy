/**
 * The in-memory Redis stand-in used when no server should be contacted: a
 * map of string values and a map of string sets. Both are JavaScript `Map`s
 * and `Set`s, which enumerate in insertion order; the model keeps that order
 * as sequences next to the maps.
 */
module MockRedis {
  import opened Wrappers

  predicate Distinct(s: seq<string>) {
    forall i, j :: 0 <= i < j < |s| ==> s[i] != s[j]
  }

  /** The elements of `s` as a set. */
  function Elems(s: seq<string>): (r: set<string>)
    ensures forall x :: x in r <==> x in s
  {
    if s == [] then {} else Elems(s[..|s| - 1]) + {s[|s| - 1]}
  }

  /** `s` with every occurrence of `k` removed, the rest in order. */
  function Remove(s: seq<string>, k: string): (r: seq<string>)
    ensures forall x :: x in r <==> x in s && x != k
    ensures k !in s ==> r == s
    ensures Distinct(s) ==> Distinct(r)
  {
    if s == [] then []
    else
      var rest := Remove(s[1..], k);
      if s[0] == k then rest
      else
        assert Distinct(s) ==> s[0] !in s[1..];
        [s[0]] + rest
  }

  /** `s` with every key of `ks` removed, one key after the other. */
  function RemoveAll(s: seq<string>, ks: seq<string>): (r: seq<string>)
    ensures forall x :: x in r <==> x in s && x !in ks
    ensures Distinct(s) ==> Distinct(r)
  {
    if ks == [] then s
    else
      var front := ks[..|ks| - 1];
      assert ks == front + [ks[|ks| - 1]];
      Remove(RemoveAll(s, front), ks[|ks| - 1])
  }

  /**
   * A `Set` after `add` of each member in turn: a member already present
   * keeps its place, a new one goes to the end.
   */
  function AddMembers(cur: seq<string>, members: seq<string>): (r: seq<string>)
    ensures |cur| <= |r| && r[..|cur|] == cur
    ensures forall x :: x in r <==> x in cur || x in members
    ensures Distinct(cur) ==> Distinct(r)
  {
    if members == [] then cur
    else
      var front := members[..|members| - 1];
      var m := members[|members| - 1];
      assert members == front + [m];
      var s := AddMembers(cur, front);
      if m in s then s else s + [m]
  }

  /** Adding members that are all present already changes nothing. */
  lemma {:induction false} AddPresent(cur: seq<string>, members: seq<string>)
    requires forall i :: 0 <= i < |members| ==> members[i] in cur
    ensures AddMembers(cur, members) == cur
  {
    if members != [] {
      AddPresent(cur, members[..|members| - 1]);
      assert members[|members| - 1] in cur;
    }
  }

  /** `sadd` with the same members a second time adds nothing. */
  lemma {:induction false} AddMembersIdempotent(cur: seq<string>, members: seq<string>)
    ensures AddMembers(AddMembers(cur, members), members) == AddMembers(cur, members)
  {
    AddPresent(AddMembers(cur, members), members);
  }

  /** The number of distinct new members is the growth of the set. */
  lemma {:induction false} AddMembersCount(cur: seq<string>, members: seq<string>)
    ensures |AddMembers(cur, members)| - |cur| == |Elems(members) - Elems(cur)|
  {
    if members == [] {
      assert Elems(members) - Elems(cur) == {};
    } else {
      var front := members[..|members| - 1];
      var m := members[|members| - 1];
      AddMembersCount(cur, front);
      var s := AddMembers(cur, front);
      var before := Elems(front) - Elems(cur);
      var after := Elems(members) - Elems(cur);
      if m in s {
        assert after == before;
      } else {
        assert m !in before;
        assert after == before + {m};
      }
    }
  }

  /** The elements of a longer prefix. */
  lemma {:induction false} ElemsPrefix(s: seq<string>, i: nat)
    requires i < |s|
    ensures Elems(s[..i + 1]) == Elems(s[..i]) + {s[i]}
  {
    assert s[..i + 1][..i] == s[..i];
  }

  /** Removing a longer prefix of keys is one more removal. */
  lemma {:induction false} RemoveAllPrefix(s: seq<string>, ks: seq<string>, i: nat)
    requires i < |ks|
    ensures RemoveAll(s, ks[..i + 1]) == Remove(RemoveAll(s, ks[..i]), ks[i])
  {
    assert ks[..i + 1][..i] == ks[..i];
  }

  /** Removing keys one at a time is removing them all at once. */
  lemma {:induction false} MapMinusStep<V>(m: map<string, V>, done: set<string>, k: string)
    ensures (m - done) - {k} == m - (done + {k})
  {
  }

  /** The count of `del` grows by one exactly when the key is present and not seen before. */
  lemma {:induction false} CountStep(keys: set<string>, done: set<string>, k: string)
    ensures k in keys && k !in done ==> |keys * (done + {k})| == |keys * done| + 1
    ensures !(k in keys && k !in done) ==> keys * (done + {k}) == keys * done
  {
    if k in keys && k !in done {
      assert keys * (done + {k}) == (keys * done) + {k};
    }
  }

  /**
   * One step of `del`: deleting `ks[j - 1]` from the state the first `j - 1`
   * keys left gives the state the first `j` keys leave, and the count grows
   * by one exactly when that key was still stored.
   */
  lemma {:induction false} DelStep<V, W>(st0: map<string, V>, se0: map<string, W>, or0: seq<string>, ks: seq<string>, j: nat,
                                         st: map<string, V>, se: map<string, W>, before: seq<string>)
    requires 0 < j <= |ks|
    requires st == st0 - Elems(ks[..j - 1]) && se == se0 - Elems(ks[..j - 1])
    requires before == RemoveAll(or0, ks[..j - 1])
    ensures st - {ks[j - 1]} == st0 - Elems(ks[..j]) && se - {ks[j - 1]} == se0 - Elems(ks[..j])
    ensures Remove(before, ks[j - 1]) == RemoveAll(or0, ks[..j])
    ensures |st0.Keys * Elems(ks[..j])| == |st0.Keys * Elems(ks[..j - 1])| + if ks[j - 1] in st then 1 else 0
  {
    var k, done := ks[j - 1], Elems(ks[..j - 1]);
    assert Elems(ks[..j]) == done + {k} by {
      ElemsPrefix(ks, j - 1);
    }
    MapMinusStep(st0, done, k);
    MapMinusStep(se0, done, k);
    RemoveAllPrefix(or0, ks, j - 1);
    CountStep(st0.Keys, done, k);
  }

  class Redis {
    /** The string values. */
    var store: map<string, string>
    /** The keys of `store` in insertion order. */
    var order: seq<string>
    /** The sets, each in insertion order. */
    var sets: map<string, seq<string>>

    ghost predicate Valid()
      reads this
    {
      Distinct(order) && (forall k :: k in order <==> k in store) &&
      forall k :: k in sets ==> Distinct(sets[k])
    }

    /** `createMockRedis()`: both maps start empty. */
    constructor()
      ensures Valid() && store == map[] && order == [] && sets == map[]
    {
      store := map[];
      order := [];
      sets := map[];
    }

    /** `get(key)`: `store.get(key) || null`, so an empty stored string reads as missing. */
    function Get(key: string): (r: Option<string>)
      reads this
      ensures r.Some? <==> key in store && store[key] != ""
      ensures r.Some? ==> r.value == store[key]
    {
      if key in store && store[key] != "" then Some(store[key]) else None
    }

    /** `smembers(key)`: the members in insertion order, or `[]` for an unknown set. */
    function SMembers(key: string): (r: seq<string>)
      reads this
      ensures key !in sets ==> r == []
      ensures key in sets ==> r == sets[key]
    {
      if key in sets then sets[key] else []
    }

    /** `scan(cursor)`: from cursor `0` every key in one page, otherwise an empty page; the next cursor is always `0`. */
    function Scan(cursor: string): (r: (string, seq<string>))
      reads this
      requires Valid()
      ensures r.0 == "0"
      ensures cursor == "0" ==> Distinct(r.1) && forall k :: k in r.1 <==> k in store
      ensures cursor != "0" ==> r.1 == []
    {
      if cursor == "0" then ("0", order) else ("0", [])
    }

    /** `set(key, value)`: stores the value and answers `OK`; a new key goes last in key order. */
    method Set(key: string, value: string) returns (reply: string)
      requires Valid()
      modifies this
      ensures Valid() && reply == "OK"
      ensures store == old(store)[key := value] && sets == old(sets)
      ensures order == if key in old(store) then old(order) else old(order) + [key]
      ensures Get(key) == if value == "" then None else Some(value)
    {
      if key !in store {
        order := order + [key];
      }
      store := store[key := value];
      reply := "OK";
    }

    /** `setex(key, ttl, value)`: as `set`; the time to live is ignored. */
    method SetEx(key: string, ttl: int, value: string) returns (reply: string)
      requires Valid()
      modifies this
      ensures Valid() && reply == "OK"
      ensures store == old(store)[key := value] && sets == old(sets)
      ensures order == if key in old(store) then old(order) else old(order) + [key]
    {
      reply := Set(key, value);
    }

    /** One step of `del`: `store.delete(k)`, which answers whether the key was there, then `sets.delete(k)`. */
    method DeleteKey(k: string) returns (removed: bool)
      requires Valid()
      modifies this
      ensures Valid()
      ensures removed <==> k in old(store)
      ensures store == old(store) - {k} && sets == old(sets) - {k}
      ensures order == Remove(old(order), k)
    {
      removed := k in store;
      store := store - {k};
      sets := sets - {k};
      order := Remove(order, k);
    }

    /**
     * `del(...keys)`: removes each key from both maps and counts the string
     * values that were there. A key named twice counts once.
     */
    method Del(keys: seq<string>) returns (deleted: nat)
      requires Valid()
      modifies this
      ensures Valid()
      ensures store == old(store) - Elems(keys)
      ensures sets == old(sets) - Elems(keys)
      ensures order == RemoveAll(old(order), keys)
      ensures deleted == |old(store).Keys * Elems(keys)|
    {
      deleted := 0;
      var i := 0;
      while i < |keys|
        invariant 0 <= i <= |keys|
        invariant Valid()
        invariant store == old(store) - Elems(keys[..i])
        invariant sets == old(sets) - Elems(keys[..i])
        invariant order == RemoveAll(old(order), keys[..i])
        invariant deleted == |old(store).Keys * Elems(keys[..i])|
      {
        var k := keys[i];
        ghost var st, se, before := store, sets, order;
        var removed := DeleteKey(k);
        if removed {
          deleted := deleted + 1;
        }
        i := i + 1;
        DelStep(old(store), old(sets), old(order), keys, i, st, se, before);
      }
      assert keys[..|keys|] == keys;
    }

    /**
     * `sadd(key, ...members)`: creates the set if needed, adds each member
     * not already in it, and answers how many were new.
     */
    method SAdd(key: string, members: seq<string>) returns (added: nat)
      requires Valid()
      modifies this
      ensures Valid()
      ensures sets == old(sets)[key := AddMembers(old(SMembers(key)), members)]
      ensures store == old(store) && order == old(order)
      ensures added == |AddMembers(old(SMembers(key)), members)| - |old(SMembers(key))|
    {
      if key !in sets {
        sets := sets[key := []];
      }
      ghost var start := sets[key];
      var cur := sets[key];
      added := 0;
      var i := 0;
      while i < |members|
        invariant 0 <= i <= |members|
        invariant cur == AddMembers(start, members[..i])
        invariant added == |cur| - |start|
      {
        var m := members[i];
        assert members[..i + 1][..i] == members[..i];
        if m !in cur {
          cur := cur + [m];
          added := added + 1;
        }
        i := i + 1;
      }
      assert members[..|members|] == members;
      sets := sets[key := cur];
    }
  }
}
