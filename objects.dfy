/** Object helpers: dropping the properties whose value is `undefined`. */
module Objects {
  import opened Wrappers
  import opened JsValues

  /**
   * `clean(obj)`: `Object.fromEntries` of the own entries whose value is not
   * `undefined`; `null`, `false`, `0` and `""` are kept.
   */
  function Clean(fs: seq<Field>): (r: seq<Field>)
    ensures |r| <= |fs|
    ensures forall i :: 0 <= i < |r| ==> !r[i].1.Undefined? && r[i] in fs
    ensures forall i :: 0 <= i < |fs| && !fs[i].1.Undefined? ==> fs[i] in r
  {
    if fs == [] then [] else (if fs[0].1.Undefined? then [] else [fs[0]]) + Clean(fs[1..])
  }

  /** Cleaning distributes over concatenation, so the kept properties keep their order. */
  lemma {:induction false} CleanAppend(a: seq<Field>, b: seq<Field>)
    ensures Clean(a + b) == Clean(a) + Clean(b)
  {
    if a == [] {
      assert a + b == b;
    } else {
      assert (a + b)[0] == a[0] && (a + b)[1..] == a[1..] + b;
      CleanAppend(a[1..], b);
    }
  }

  /** Cleaning an object that holds no `undefined` changes nothing. */
  lemma {:induction false} CleanDefined(fs: seq<Field>)
    requires forall i :: 0 <= i < |fs| ==> !fs[i].1.Undefined?
    ensures Clean(fs) == fs
  {
    if fs != [] {
      CleanDefined(fs[1..]);
    }
  }

  /** Cleaning twice is cleaning once. */
  lemma {:induction false} CleanIdempotent(fs: seq<Field>)
    ensures Clean(Clean(fs)) == Clean(fs)
  {
    CleanDefined(Clean(fs));
  }

  /**
   * Reading a property of the cleaned object gives what the original held,
   * except that a key holding `undefined` is now missing.
   */
  lemma {:induction false} CleanLookup(fs: seq<Field>, k: string)
    requires UniqueKeys(fs)
    ensures Lookup(Clean(fs), k) == if Lookup(fs, k) == Some(Undefined) then None else Lookup(fs, k)
  {
    if fs != [] {
      assert UniqueKeys(fs[1..]);
      CleanLookup(fs[1..], k);
      if fs[0].1.Undefined? {
        assert Clean(fs) == Clean(fs[1..]);
      } else {
        LookupCons(fs[0], Clean(fs[1..]), k);
      }
      if fs[0].0 == k {
        assert k !in KeysOf(fs[1..]);
        LookupSpec(fs[1..], k);
      }
    }
  }

  /** Property reads see no difference: a missing key and a key holding `undefined` both read as `undefined`. */
  lemma {:induction false} CleanGet(fs: seq<Field>, k: string)
    requires UniqueKeys(fs)
    ensures Get(Obj(Clean(fs)), k) == Get(Obj(fs), k)
  {
    CleanLookup(fs, k);
  }
}
