/**
 * JavaScript values as the modelled code sees them.
 *
 * An object is the list of its own enumerable string-keyed properties in
 * enumeration order; numbers are integers (floating point, NaN and the
 * integer-like-key ordering rule of `Object.keys` are outside the model);
 * a function is an opaque id.
 */
module JsValues {
  import opened Wrappers

  datatype Js =
    | Undefined
    | Null
    | Bool(b: bool)
    | Num(n: int)
    | Str(s: string)
    | Arr(items: seq<Js>)
    | Obj(fields: seq<(string, Js)>)
    | Fn(id: nat)

  type Field = (string, Js)

  /** `Boolean(v)`: the falsy values are undefined, null, false, 0 and "". */
  predicate Truthy(v: Js) {
    match v
    case Undefined => false
    case Null => false
    case Bool(b) => b
    case Num(n) => n != 0
    case Str(s) => s != ""
    case _ => true
  }

  /** The values `??` replaces. */
  predicate Nullish(v: Js) {
    v.Undefined? || v.Null?
  }

  /** Properties every object inherits from `Object.prototype`; reading one off a plain object literal is not undefined. */
  const ObjectPrototypeKeys: set<string> := {
    "constructor", "hasOwnProperty", "isPrototypeOf", "propertyIsEnumerable", "toLocaleString",
    "toString", "valueOf", "__defineGetter__", "__defineSetter__", "__lookupGetter__",
    "__lookupSetter__", "__proto__"
  }

  /** `v ?? d` */
  function Coalesce(v: Js, d: Js): (r: Js)
    ensures Nullish(v) ==> r == d
    ensures !Nullish(v) ==> r == v
  {
    if Nullish(v) then d else v
  }

  /** `typeof v === 'object' && v !== null` */
  predicate IsObject(v: Js) {
    v.Arr? || v.Obj?
  }

  function KeysOf(fs: seq<Field>): (ks: seq<string>)
    ensures |ks| == |fs|
    ensures forall i :: 0 <= i < |fs| ==> ks[i] == fs[i].0
  {
    if fs == [] then [] else [fs[0].0] + KeysOf(fs[1..])
  }

  /** A JavaScript object never has two properties with the same key. */
  predicate UniqueKeys(fs: seq<Field>) {
    forall i, j :: 0 <= i < j < |fs| ==> fs[i].0 != fs[j].0
  }

  /** The value stored under `k`, if any. */
  function Lookup(fs: seq<Field>, k: string): (r: Option<Js>)
  {
    if fs == [] then None
    else if fs[0].0 == k then Some(fs[0].1)
    else Lookup(fs[1..], k)
  }

  /** A key is found exactly when some field carries it, and what is found is that field's value. */
  lemma {:induction false} LookupSpec(fs: seq<Field>, k: string)
    ensures Lookup(fs, k).None? <==> k !in KeysOf(fs)
    ensures Lookup(fs, k).Some? ==> exists i :: 0 <= i < |fs| && fs[i] == (k, Lookup(fs, k).value)
  {
    if fs != [] && fs[0].0 != k {
      LookupSpec(fs[1..], k);
      assert KeysOf(fs) == [fs[0].0] + KeysOf(fs[1..]);
      if Lookup(fs, k).Some? {
        var i :| 0 <= i < |fs[1..]| && fs[1..][i] == (k, Lookup(fs, k).value);
        assert fs[i + 1] == fs[1..][i];
      }
    } else if fs != [] {
      assert fs[0] == (k, fs[0].1);
    }
  }

  /** With distinct keys, each field is found under its own key. */
  lemma {:induction false} LookupAt(fs: seq<Field>, i: nat)
    requires UniqueKeys(fs) && i < |fs|
    ensures Lookup(fs, fs[i].0) == Some(fs[i].1)
  {
    if i > 0 {
      assert fs[1..][i - 1] == fs[i];
      LookupAt(fs[1..], i - 1);
    }
  }

  /** A key no field carries is not found. */
  lemma {:induction false} LookupAbsent(fs: seq<Field>, k: string)
    requires forall i :: 0 <= i < |fs| ==> fs[i].0 != k
    ensures Lookup(fs, k) == None
  {
    LookupSpec(fs, k);
  }

  /** Looking up past a first field that carries another key. */
  lemma {:induction false} LookupCons(f: Field, fs: seq<Field>, k: string)
    ensures Lookup([f] + fs, k) == if f.0 == k then Some(f.1) else Lookup(fs, k)
  {
    assert ([f] + fs)[1..] == fs;
  }

  /** Looking up in a two-property object literal. */
  lemma {:induction false} LookupPair(a: Field, b: Field, k: string)
    ensures Lookup([a, b], k) == if a.0 == k then Some(a.1) else if b.0 == k then Some(b.1) else None
  {
    assert [a, b] == [a] + [b];
    LookupCons(a, [b], k);
    LookupCons(b, [], k);
  }

  /** Property read `v[k]`; reading a missing property gives undefined. */
  function Get(v: Js, k: string): Js {
    if v.Obj? then Lookup(v.fields, k).GetOr(Undefined) else Undefined
  }

  /** Assignment `o[k] = x`: an existing key keeps its position, a new key goes last. */
  function Put(fs: seq<Field>, k: string, x: Js): seq<Field>
  {
    if fs == [] then [(k, x)]
    else if fs[0].0 == k then [(k, x)] + fs[1..]
    else [fs[0]] + Put(fs[1..], k, x)
  }

  /** Assigning an existing key keeps the length; a new key is appended. */
  lemma {:induction false} PutSpec(fs: seq<Field>, k: string, x: Js)
    ensures k in KeysOf(fs) ==> |Put(fs, k, x)| == |fs|
    ensures k !in KeysOf(fs) ==> Put(fs, k, x) == fs + [(k, x)]
  {
    if fs != [] && fs[0].0 != k {
      PutSpec(fs[1..], k, x);
      assert KeysOf(fs) == [fs[0].0] + KeysOf(fs[1..]);
      assert fs == [fs[0]] + fs[1..];
    }
  }

  lemma {:induction false} PutLookup(fs: seq<Field>, k: string, x: Js, j: string)
    ensures Lookup(Put(fs, k, x), j) == if j == k then Some(x) else Lookup(fs, j)
  {
    if fs != [] && fs[0].0 != k {
      PutLookup(fs[1..], k, x, j);
    }
  }

  lemma {:induction false} PutKeys(fs: seq<Field>, k: string, x: Js)
    ensures KeysOf(Put(fs, k, x)) == if k in KeysOf(fs) then KeysOf(fs) else KeysOf(fs) + [k]
  {
    if fs != [] && fs[0].0 != k {
      PutKeys(fs[1..], k, x);
      assert KeysOf(fs) == [fs[0].0] + KeysOf(fs[1..]);
    }
  }

  lemma {:induction false} PutUnique(fs: seq<Field>, k: string, x: Js)
    requires UniqueKeys(fs)
    ensures UniqueKeys(Put(fs, k, x))
  {
    PutKeys(fs, k, x);
    var r := Put(fs, k, x);
    var ks, rks := KeysOf(fs), KeysOf(r);
    forall i, j | 0 <= i < j < |r| ensures r[i].0 != r[j].0 {
      assert r[i].0 == rks[i] && r[j].0 == rks[j];
      if j < |fs| {
        assert rks[i] == ks[i] == fs[i].0 && rks[j] == ks[j] == fs[j].0;
      } else {
        assert rks[j] == k && rks[i] == ks[i] && k !in ks;
      }
    }
  }

  /** `{...base, ...over}`: each property of `over`, in order, assigned onto a copy of `base`. */
  function Spread(base: seq<Field>, over: seq<Field>): (r: seq<Field>)
    decreases |over|
  {
    if over == [] then base else Spread(Put(base, over[0].0, over[0].1), over[1..])
  }

  lemma {:induction false} SpreadLookup(base: seq<Field>, over: seq<Field>, k: string)
    requires UniqueKeys(over)
    ensures Lookup(Spread(base, over), k) ==
            if k in KeysOf(over) then Lookup(over, k) else Lookup(base, k)
    decreases |over|
  {
    if over != [] {
      var b' := Put(base, over[0].0, over[0].1);
      assert UniqueKeys(over[1..]);
      SpreadLookup(b', over[1..], k);
      PutLookup(base, over[0].0, over[0].1, k);
      assert KeysOf(over) == [over[0].0] + KeysOf(over[1..]);
      if k == over[0].0 {
        assert k !in KeysOf(over[1..]);
      }
    }
  }

  lemma {:induction false} SpreadKeys(base: seq<Field>, over: seq<Field>)
    ensures |Spread(base, over)| >= |base|
    ensures forall k :: k in KeysOf(Spread(base, over)) <==> k in KeysOf(base) || k in KeysOf(over)
    ensures forall i :: 0 <= i < |base| ==> KeysOf(Spread(base, over))[i] == base[i].0
    decreases |over|
  {
    if over != [] {
      var b' := Put(base, over[0].0, over[0].1);
      PutKeys(base, over[0].0, over[0].1);
      SpreadKeys(b', over[1..]);
      assert KeysOf(over) == [over[0].0] + KeysOf(over[1..]);
    }
  }

  lemma {:induction false} SpreadUnique(base: seq<Field>, over: seq<Field>)
    requires UniqueKeys(base)
    ensures UniqueKeys(Spread(base, over))
    decreases |over|
  {
    if over != [] {
      PutUnique(base, over[0].0, over[0].1);
      SpreadUnique(Put(base, over[0].0, over[0].1), over[1..]);
    }
  }

  function DigitChar(d: nat): (c: char)
    requires d < 10
    ensures '0' <= c <= '9'
  {
    ('0' as int + d) as char
  }

  /** Decimal digits of a natural number, without leading zeros. */
  function NatString(n: nat): (s: string)
    ensures |s| >= 1
    ensures forall i :: 0 <= i < |s| ==> '0' <= s[i] <= '9'
    ensures s[0] == '0' ==> n == 0
    decreases n
  {
    if n < 10 then [DigitChar(n)] else NatString(n / 10) + [DigitChar(n % 10)]
  }

  /** `String(n)` for an integer. */
  function DecimalString(n: int): (s: string)
    ensures |s| >= 1
  {
    if n < 0 then "-" + NatString(-n) else NatString(n)
  }

  /** `String(v)`. A function's source text is not modelled and renders as "function". */
  function ToStr(v: Js): string {
    match v
    case Undefined => "undefined"
    case Null => "null"
    case Bool(b) => if b then "true" else "false"
    case Num(n) => DecimalString(n)
    case Str(s) => s
    case Arr(items) => JoinItems(items)
    case Obj(_) => "[object Object]"
    case Fn(_) => "function"
  }

  /** `Array.prototype.join(',')` as used by `String(array)`: null and undefined render empty. */
  function JoinItems(items: seq<Js>): string
    decreases items
  {
    if items == [] then ""
    else
      var first := if Nullish(items[0]) then "" else ToStr(items[0]);
      if |items| == 1 then first else first + "," + JoinItems(items[1..])
  }

  /** `sep`-joined strings, as `Array.prototype.join(sep)` builds them. */
  function Join(parts: seq<string>, sep: string): string {
    if parts == [] then ""
    else if |parts| == 1 then parts[0]
    else parts[0] + sep + Join(parts[1..], sep)
  }

  /** Joining one more part adds the separator and the part at the end. */
  lemma {:induction false} JoinSnoc(parts: seq<string>, x: string, sep: string)
    ensures Join(parts + [x], sep) == if parts == [] then x else Join(parts, sep) + sep + x
  {
    if |parts| == 1 {
      assert parts + [x] == [parts[0], x];
      assert [parts[0], x][1..] == [x];
    } else if |parts| > 1 {
      JoinSnoc(parts[1..], x, sep);
      assert (parts + [x])[1..] == parts[1..] + [x];
      assert parts[0] + sep + (Join(parts[1..], sep) + sep + x) == parts[0] + sep + Join(parts[1..], sep) + sep + x;
    } else {
      assert parts + [x] == [x];
    }
  }

  /** A character in neither the parts nor the separator is not in their join. */
  lemma {:induction false} JoinAvoids(parts: seq<string>, sep: string, c: char)
    requires c !in sep && forall i :: 0 <= i < |parts| ==> c !in parts[i]
    ensures c !in Join(parts, sep)
    decreases |parts|
  {
    if |parts| > 1 {
      JoinAvoids(parts[1..], sep, c);
    }
  }

  /** Text joined at the first occurrence of `c` splits back there. */
  lemma {:induction false} SplitAtFirst(a1: string, b1: string, a2: string, b2: string, c: char)
    requires c !in a1 && c !in a2 && a1 + [c] + b1 == a2 + [c] + b2
    ensures a1 == a2 && b1 == b2
  {
    var k := a1 + [c] + b1;
    assert k[|a1|] == c && k[|a2|] == c;
    assert forall i :: 0 <= i < |a1| ==> k[i] == a1[i] != c;
    assert forall i :: 0 <= i < |a2| ==> k[i] == a2[i] != c;
    assert |a1| == |a2|;
    assert a1 == k[..|a1|] && a2 == k[..|a2|];
    assert b1 == k[|a1| + 1..] && b2 == k[|a2| + 1..];
  }

  /** Text joined at the last occurrence of `c` splits back there. */
  lemma {:induction false} SplitAtLast(a1: string, b1: string, a2: string, b2: string, c: char)
    requires c !in b1 && c !in b2 && a1 + [c] + b1 == a2 + [c] + b2
    ensures a1 == a2 && b1 == b2
  {
    var k := a1 + [c] + b1;
    assert k[|a1|] == c && k[|a2|] == c;
    assert forall i :: |a1| < i < |k| ==> k[i] == b1[i - |a1| - 1] != c;
    assert forall i :: |a2| < i < |k| ==> k[i] == b2[i - |a2| - 1] != c;
    assert |a1| == |a2|;
    assert a1 == k[..|a1|] && a2 == k[..|a2|];
    assert b1 == k[|a1| + 1..] && b2 == k[|a2| + 1..];
  }
}
