/**
 * The parameter part of a cache key, shared by both key builders: the deep
 * key sort applied to each batch of parameters, the merge of batches, and
 * the `k=v&k=v` rendering with serialised, URI-encoded values.
 *
 * Keys are compared character by character; JavaScript's default sort
 * compares UTF-16 code units, which orders the same way for characters
 * below U+10000.
 */
module CacheParams {
  import opened Wrappers
  import opened JsValues
  import opened Json
  import opened AiHelpers
  import opened UrlEncoding

  // --------------------------------------------------------------- key order

  /** `a <= b` in the default string order of `Array.prototype.sort`. */
  predicate StrLe(a: string, b: string) {
    a == [] || (b != [] && (a[0] < b[0] || (a[0] == b[0] && StrLe(a[1..], b[1..]))))
  }

  lemma {:induction false} StrLeTotal(a: string, b: string)
    ensures StrLe(a, b) || StrLe(b, a)
  {
    if a != [] && b != [] && a[0] == b[0] {
      StrLeTotal(a[1..], b[1..]);
    }
  }

  ghost predicate SortedKeys(fs: seq<Field>) {
    forall i :: 0 < i < |fs| ==> StrLe(fs[i - 1].0, fs[i].0)
  }

  /** Insert one property before the first one whose key is not smaller. */
  function Insert(f: Field, fs: seq<Field>): (r: seq<Field>)
    ensures multiset(r) == multiset(fs) + multiset{f}
    ensures r != [] && (r[0] == f || (fs != [] && r[0] == fs[0]))
  {
    if fs == [] || StrLe(f.0, fs[0].0) then [f] + fs
    else
      assert fs == [fs[0]] + fs[1..];
      [fs[0]] + Insert(f, fs[1..])
  }

  lemma {:induction false} InsertSorted(f: Field, fs: seq<Field>)
    requires SortedKeys(fs)
    ensures SortedKeys(Insert(f, fs))
  {
    if fs != [] && !StrLe(f.0, fs[0].0) {
      StrLeTotal(f.0, fs[0].0);
      InsertSorted(f, fs[1..]);
      var t := Insert(f, fs[1..]);
      assert t[0] == f || t[0] == fs[1];
    }
  }

  /** `Object.keys(obj).sort()` followed by copying each property in that order. */
  function SortByKey(fs: seq<Field>): (r: seq<Field>)
    ensures multiset(r) == multiset(fs)
  {
    if fs == [] then []
    else
      assert fs == [fs[0]] + fs[1..];
      Insert(fs[0], SortByKey(fs[1..]))
  }

  /** The sorted object holds the same properties, in key order. */
  lemma {:induction false} SortByKeySorted(fs: seq<Field>)
    ensures SortedKeys(SortByKey(fs))
    ensures |SortByKey(fs)| == |fs|
  {
    if fs != [] {
      SortByKeySorted(fs[1..]);
      InsertSorted(fs[0], SortByKey(fs[1..]));
      assert |multiset(SortByKey(fs))| == |multiset(fs)|;
    }
  }

  lemma {:induction false} InsertLookup(f: Field, fs: seq<Field>, k: string)
    requires f.0 !in KeysOf(fs)
    ensures Lookup(Insert(f, fs), k) == if k == f.0 then Some(f.1) else Lookup(fs, k)
    ensures forall j :: j in KeysOf(Insert(f, fs)) <==> j == f.0 || j in KeysOf(fs)
  {
    if fs != [] && !StrLe(f.0, fs[0].0) {
      assert KeysOf(fs) == [fs[0].0] + KeysOf(fs[1..]);
      InsertLookup(f, fs[1..], k);
      assert KeysOf(Insert(f, fs)) == [fs[0].0] + KeysOf(Insert(f, fs[1..]));
    } else {
      assert KeysOf([f] + fs) == [f.0] + KeysOf(fs);
    }
  }

  lemma {:induction false} InsertUnique(f: Field, fs: seq<Field>)
    requires f.0 !in KeysOf(fs) && UniqueKeys(fs)
    ensures UniqueKeys(Insert(f, fs))
  {
    if fs != [] && !StrLe(f.0, fs[0].0) {
      assert KeysOf(fs) == [fs[0].0] + KeysOf(fs[1..]);
      InsertUnique(f, fs[1..]);
      InsertLookup(f, fs[1..], f.0);
      assert fs[0].0 != f.0 && fs[0].0 !in KeysOf(fs[1..]);
      assert fs[0].0 !in KeysOf(Insert(f, fs[1..]));
      ConsUnique(fs[0], Insert(f, fs[1..]));
    } else {
      ConsUnique(f, fs);
    }
  }

  /** A property in front of an object without its key keeps the keys unique. */
  lemma {:induction false} ConsUnique(f: Field, fs: seq<Field>)
    requires f.0 !in KeysOf(fs) && UniqueKeys(fs)
    ensures UniqueKeys([f] + fs)
  {
    var r := [f] + fs;
    forall i, j | 0 <= i < j < |r| ensures r[i].0 != r[j].0 {
      if i == 0 {
        assert r[j] == fs[j - 1];
        assert KeysOf(fs)[j - 1] == fs[j - 1].0;
      }
    }
  }

  /** Sorting an object keeps every property readable as before, and keeps its keys unique. */
  lemma {:induction false} SortByKeyLookup(fs: seq<Field>, k: string)
    requires UniqueKeys(fs)
    ensures Lookup(SortByKey(fs), k) == Lookup(fs, k)
    ensures forall j :: j in KeysOf(SortByKey(fs)) <==> j in KeysOf(fs)
    ensures UniqueKeys(SortByKey(fs))
  {
    if fs != [] {
      var rest := SortByKey(fs[1..]);
      assert KeysOf(fs) == [fs[0].0] + KeysOf(fs[1..]);
      assert UniqueKeys(fs[1..]);
      SortByKeyLookup(fs[1..], k);
      InsertLookup(fs[0], rest, k);
      InsertUnique(fs[0], rest);
    }
  }

  // ---------------------------------------------------------------- deep sort

  /** `sortObjectKeys(obj)`: the keys sorted, nested plain objects sorted too, and objects inside arrays one level down. */
  function SortFields(fs: seq<Field>): (r: seq<Field>)
    decreases fs, 1
  {
    SortByKey(SortValues(fs))
  }

  function SortValues(fs: seq<Field>): (r: seq<Field>)
    ensures KeysOf(r) == KeysOf(fs)
    decreases fs, 0
  {
    if fs == [] then []
    else
      var rest := SortValues(fs[1..]);
      assert KeysOf(fs) == [fs[0].0] + KeysOf(fs[1..]);
      [SortMember(fs[0])] + rest
  }

  function SortMember(f: Field): (r: Field)
    ensures r.0 == f.0
    decreases f, 2
  {
    (f.0, SortValue(f.1))
  }

  /** A property value: a plain object is sorted, an array has its plain-object items sorted, anything else is kept. */
  function SortValue(v: Js): Js
    decreases v, 3
  {
    match v
    case Obj(fields) => Obj(SortFields(fields))
    case Arr(items) => Arr(SortItems(items))
    case _ => v
  }

  function SortItems(items: seq<Js>): (r: seq<Js>)
    ensures |r| == |items|
    decreases items, 0
  {
    if items == [] then []
    else
      var head := match items[0] case Obj(fields) => Obj(SortFields(fields)) case _ => items[0];
      [head] + SortItems(items[1..])
  }

  lemma {:induction false} SortValuesLookup(fs: seq<Field>, k: string)
    ensures Lookup(SortValues(fs), k) == match Lookup(fs, k) case Some(v) => Some(SortValue(v)) case None => None
  {
    if fs != [] {
      SortValuesLookup(fs[1..], k);
    }
  }

  /** A sorted batch has its keys in order, holds each key's value with nested objects sorted, and has unique keys. */
  lemma {:induction false} SortFieldsProperties(fs: seq<Field>, k: string)
    requires UniqueKeys(fs)
    ensures SortedKeys(SortFields(fs)) && UniqueKeys(SortFields(fs))
    ensures Lookup(SortFields(fs), k) == match Lookup(fs, k) case Some(v) => Some(SortValue(v)) case None => None
    ensures forall j :: j in KeysOf(SortFields(fs)) <==> j in KeysOf(fs)
  {
    var vs := SortValues(fs);
    assert UniqueKeys(vs) by {
      forall i, j | 0 <= i < j < |vs| ensures vs[i].0 != vs[j].0 {
        assert KeysOf(vs)[i] == KeysOf(fs)[i] && KeysOf(vs)[j] == KeysOf(fs)[j];
      }
    }
    SortByKeySorted(vs);
    SortByKeyLookup(vs, k);
    SortValuesLookup(fs, k);
  }

  /** `{...parameters, ...sortObjectKeys(batch)}` */
  function MergeParams(parameters: seq<Field>, batch: seq<Field>): seq<Field> {
    Spread(parameters, SortFields(batch))
  }

  /** A later batch overrides equal keys; every other key keeps its earlier value. */
  lemma {:induction false} MergeLookup(parameters: seq<Field>, batch: seq<Field>, k: string)
    requires UniqueKeys(batch)
    ensures k in KeysOf(batch) <==> Lookup(batch, k).Some?
    ensures Lookup(MergeParams(parameters, batch), k) ==
            if k in KeysOf(batch) then Some(SortValue(Lookup(batch, k).value)) else Lookup(parameters, k)
  {
    LookupSpec(batch, k);
    SortFieldsProperties(batch, k);
    SpreadLookup(parameters, SortFields(batch), k);
  }

  lemma {:induction false} SpreadFresh(over: seq<Field>)
    requires UniqueKeys(over)
    ensures Spread([], over) == over
  {
    SpreadPrefix([], over);
  }

  lemma {:induction false} SpreadPrefix(base: seq<Field>, over: seq<Field>)
    requires UniqueKeys(base + over)
    ensures Spread(base, over) == base + over
    decreases |over|
  {
    if over != [] {
      assert (base + over)[|base|] == over[0];
      assert over[0].0 !in KeysOf(base) by {
        forall i | 0 <= i < |base| ensures KeysOf(base)[i] != over[0].0 {
          assert (base + over)[i] == base[i];
        }
      }
      PutSpec(base, over[0].0, over[0].1);
      assert Put(base, over[0].0, over[0].1) == base + [over[0]];
      assert base + [over[0]] + over[1..] == base + over;
      SpreadPrefix(base + [over[0]], over[1..]);
    }
  }

  /** The first batch on an empty parameter set is rendered in sorted key order. */
  lemma {:induction false} FirstBatchSorted(batch: seq<Field>)
    requires UniqueKeys(batch)
    ensures MergeParams([], batch) == SortFields(batch)
    ensures SortedKeys(MergeParams([], batch))
  {
    SortFieldsProperties(batch, "");
    SpreadFresh(SortFields(batch));
  }

  // --------------------------------------------------------------- rendering

  /** `serializeValue(value)`: `String` for null, undefined and non-objects, `JSON.stringify` for objects and arrays. */
  function SerializeValue(v: Js): (r: string)
    ensures v.Obj? || v.Arr? ==> r == Json.Serialize(v)
    ensures !(v.Obj? || v.Arr?) ==> r == ToStr(v)
  {
    match v
    case Obj(_) => Json.Serialize(v)
    case Arr(_) => Json.Serialize(v)
    case _ => ToStr(v)
  }

  /** One `${k}=${encodeURIComponent(serializeValue(v))}` part. */
  function ParamPart(f: Field): string {
    f.0 + "=" + EncodeURIComponent(SerializeValue(f.1))
  }

  function ParamParts(fs: seq<Field>): (r: seq<string>)
    ensures |r| == |fs| && forall i :: 0 <= i < |fs| ==> r[i] == ParamPart(fs[i])
  {
    seq(|fs|, i requires 0 <= i < |fs| => ParamPart(fs[i]))
  }

  /** The parameters in their object order, joined by `&`. */
  function ParamString(fs: seq<Field>): string {
    Join(ParamParts(fs), "&")
  }

  /**
   * With keys free of `&`, the parameter string splits back into one part
   * per parameter, and each part's value decodes to the serialised value.
   */
  lemma {:induction false} ParamStringSplits(fs: seq<Field>)
    requires fs != [] && forall i :: 0 <= i < |fs| ==> '&' !in fs[i].0
    ensures SplitOn(ParamString(fs), '&') == ParamParts(fs)
    ensures forall i :: 0 <= i < |fs| ==>
              Decode(EncodeURIComponent(SerializeValue(fs[i].1)), Component) == Some(SerializeValue(fs[i].1))
  {
    var parts := ParamParts(fs);
    forall i | 0 <= i < |fs| ensures '&' !in parts[i] {
      NoDelimiters(SerializeValue(fs[i].1));
    }
    SplitJoin(parts, '&');
    forall i | 0 <= i < |fs|
      ensures Decode(EncodeURIComponent(SerializeValue(fs[i].1)), Component) == Some(SerializeValue(fs[i].1))
    {
      EncodeRoundTrip(SerializeValue(fs[i].1));
    }
  }
}
