/**
 * The older `Module` of the action package: handlers are a nested object
 * merged in by `registerHandlers`, looked up by finding an action name's
 * path in the module's action structure, and started as one worker per
 * action name.
 *
 * The action structure (`getActionStructure` of the group) is taken as
 * given: objects for groups, action names as string leaves. Handler
 * functions are `Fn` values. Each walk over an object's properties is a
 * method with a loop, proved against a recursive function over the same
 * properties in the same order.
 */
module ActionModulesV1 {
  import opened Wrappers
  import opened JsValues
  import opened ActionModules
  import opened Queues
  import opened Brokers
  import opened Registries
  import opened SyncHandlers

  /** The number of own properties `for...in` visits: an object's fields, none otherwise. */
  function FieldCount(v: Js): nat {
    if v.Obj? then |v.fields| else 0
  }

  /** The own properties of an object; none for any other value. */
  function FieldsOf(v: Js): seq<Field> {
    if v.Obj? then v.fields else []
  }

  // ------------------------------------------------------------- deepMerge

  /** What `deepMerge` merges a nested source object into: the result's own object there, or `{}`. */
  function Nested(result: seq<Field>, k: string): seq<Field> {
    match Lookup(result, k)
    case Some(Obj(fs)) => fs
    case _ => []
  }

  lemma {:induction false} NestedSame(a: seq<Field>, b: seq<Field>, k: string)
    requires Lookup(a, k) == Lookup(b, k)
    ensures Nested(a, k) == Nested(b, k)
  {
  }

  /** `deepMerge(target, source)`: a copy of `target` with every property of `source` merged in, in order. */
  function Merged(target: seq<Field>, source: Js): seq<Field>
    decreases source, FieldCount(source) + 1
  {
    MergedUpTo(target, source, FieldCount(source))
  }

  /** The result once the first `n` properties of `source` are merged in. */
  function MergedUpTo(target: seq<Field>, source: Js, n: nat): seq<Field>
    requires n <= FieldCount(source)
    decreases source, n
  {
    if n == 0 then target
    else
      var result := MergedUpTo(target, source, n - 1);
      var k, v := source.fields[n - 1].0, source.fields[n - 1].1;
      Put(result, k, MergedValue(Nested(result, k), v))
  }

  /** What `deepMerge` stores for a source value: a plain object merged into `target`, any other value as it is. */
  function MergedValue(target: seq<Field>, v: Js): Js
    decreases v, FieldCount(v) + 2
  {
    if v.Obj? then Obj(Merged(target, v)) else v
  }

  /** `deepMerge(target, source)` */
  method DeepMerge(target: seq<Field>, source: Js) returns (result: seq<Field>)
    ensures result == Merged(target, source)
    decreases source
  {
    result := target;
    var i := 0;
    while i < FieldCount(source)
      invariant 0 <= i <= FieldCount(source)
      invariant result == MergedUpTo(target, source, i)
    {
      var k, v := source.fields[i].0, source.fields[i].1;
      if v.Obj? {
        var sub := DeepMerge(Nested(result, k), v);
        result := Put(result, k, Obj(sub));
      } else {
        result := Put(result, k, v);
      }
      i := i + 1;
    }
  }

  /** One step of the merge: the `n`-th source property is stored under its key, every other key reads as before. */
  lemma {:induction false} MergedUpToStep(target: seq<Field>, source: Js, n: nat, k: string)
    requires 0 < n <= FieldCount(source)
    ensures var prev := MergedUpTo(target, source, n - 1);
      Lookup(MergedUpTo(target, source, n), k) ==
        if source.fields[n - 1].0 == k then Some(MergedValue(Nested(prev, k), source.fields[n - 1].1))
        else Lookup(prev, k)
  {
    var prev := MergedUpTo(target, source, n - 1);
    var key, v := source.fields[n - 1].0, source.fields[n - 1].1;
    PutLookup(prev, key, MergedValue(Nested(prev, key), v), k);
  }

  /** A key none of the first `n` source properties carries keeps the target's value. */
  lemma {:induction false} MergedUpToAbsent(target: seq<Field>, source: Js, n: nat, k: string)
    requires n <= FieldCount(source)
    requires forall i :: 0 <= i < n ==> source.fields[i].0 != k
    ensures Lookup(MergedUpTo(target, source, n), k) == Lookup(target, k)
    decreases n
  {
    if n > 0 {
      MergedUpToAbsent(target, source, n - 1, k);
      MergedUpToStep(target, source, n, k);
    }
  }

  /** After the first `n` source properties, the `j`-th one's key holds its merged value. */
  lemma {:induction false} MergedUpToPresent(target: seq<Field>, source: Js, n: nat, j: nat)
    requires n <= FieldCount(source) && j < n
    requires forall i :: 0 <= i < n && i != j ==> source.fields[i].0 != source.fields[j].0
    ensures var k := source.fields[j].0;
      Lookup(MergedUpTo(target, source, n), k) == Some(MergedValue(Nested(target, k), source.fields[j].1))
    decreases n
  {
    var k := source.fields[j].0;
    MergedUpToStep(target, source, n, k);
    var expected := Some(MergedValue(Nested(target, k), source.fields[j].1));
    if n - 1 == j {
      assert source.fields[n - 1] == source.fields[j];
      MergedUpToAbsent(target, source, n - 1, k);
      NestedSame(MergedUpTo(target, source, n - 1), target, k);
      assert Lookup(MergedUpTo(target, source, n), k) == expected;
    } else {
      assert source.fields[n - 1].0 != k;
      MergedUpToPresent(target, source, n - 1, j);
      assert Lookup(MergedUpTo(target, source, n), k) == expected;
    }
  }

  /**
   * `deepMerge` per key: a key the source lacks keeps the target's value; a
   * source value that is not a plain object (a scalar, an array, a function,
   * `undefined`) overwrites; a plain object is merged into the target's
   * object there, or into `{}` when the target has none.
   */
  lemma {:induction false} MergedSpec(target: seq<Field>, source: Js, k: string)
    requires source.Obj? ==> UniqueKeys(source.fields)
    ensures (forall i :: 0 <= i < FieldCount(source) ==> source.fields[i].0 != k) ==>
      Lookup(Merged(target, source), k) == Lookup(target, k)
    ensures forall j :: 0 <= j < FieldCount(source) && source.fields[j].0 == k ==>
      Lookup(Merged(target, source), k) == Some(MergedValue(Nested(target, k), source.fields[j].1))
  {
    if forall i :: 0 <= i < FieldCount(source) ==> source.fields[i].0 != k {
      MergedUpToAbsent(target, source, FieldCount(source), k);
    }
    forall j | 0 <= j < FieldCount(source) && source.fields[j].0 == k
      ensures Lookup(Merged(target, source), k) == Some(MergedValue(Nested(target, k), source.fields[j].1))
    {
      MergedUpToPresent(target, source, FieldCount(source), j);
    }
  }

  // --------------------------------------------------- mergeNameAndHandler

  /** The entry for an action name: `{name, handler}`, the handler kept only when it is a function. */
  function Entry(name: string, handlerVal: Js): Js {
    Obj([("name", Str(name)), ("handler", if handlerVal.Fn? then handlerVal else Undefined)])
  }

  lemma {:induction false} EntrySpec(name: string, handlerVal: Js)
    ensures Get(Entry(name, handlerVal), "name") == Str(name)
    ensures Get(Entry(name, handlerVal), "handler") == if handlerVal.Fn? then handlerVal else Undefined
  {
    assert "name"[0] != "handler"[0];
    var h := if handlerVal.Fn? then handlerVal else Undefined;
    LookupPair(("name", Str(name)), ("handler", h), "name");
    LookupPair(("name", Str(name)), ("handler", h), "handler");
  }

  /** `mergeNameAndHandler(names, handlers)`: the action structure with each name paired with its handler. */
  function Structure(names: Js, handlers: Js): seq<Field>
    decreases names, FieldCount(names) + 1
  {
    StructureUpTo(names, handlers, FieldCount(names))
  }

  /** The result once the first `n` keys of `names` are visited. */
  function StructureUpTo(names: Js, handlers: Js, n: nat): seq<Field>
    requires n <= FieldCount(names)
    decreases names, n
  {
    if n == 0 then []
    else
      var result := StructureUpTo(names, handlers, n - 1);
      var k, nameVal := names.fields[n - 1].0, names.fields[n - 1].1;
      var handlerVal := Get(handlers, k);
      if nameVal.Str? then Put(result, k, Entry(nameVal.s, handlerVal))
      else if nameVal.Obj? then Put(result, k, Obj(Structure(nameVal, if Truthy(handlerVal) then handlerVal else Obj([]))))
      else result
  }

  /** `mergeNameAndHandler(names, handlers)` */
  method MergeNameAndHandler(names: Js, handlers: Js) returns (result: seq<Field>)
    ensures result == Structure(names, handlers)
    decreases names
  {
    result := [];
    var i := 0;
    while i < FieldCount(names)
      invariant 0 <= i <= FieldCount(names)
      invariant result == StructureUpTo(names, handlers, i)
    {
      var k, nameVal := names.fields[i].0, names.fields[i].1;
      var handlerVal := Get(handlers, k);
      if nameVal.Str? {
        result := Put(result, k, Entry(nameVal.s, handlerVal));
      } else if nameVal.Obj? {
        var sub := MergeNameAndHandler(nameVal, if Truthy(handlerVal) then handlerVal else Obj([]));
        result := Put(result, k, Obj(sub));
      }
      i := i + 1;
    }
  }

  /** The keys of the merged structure are exactly the names' keys that hold a name or a group. */
  lemma {:induction false} StructureKeys(names: Js, handlers: Js, n: nat, k: string)
    requires n <= FieldCount(names)
    ensures k in KeysOf(StructureUpTo(names, handlers, n)) <==>
      exists i :: 0 <= i < n && names.fields[i].0 == k && (names.fields[i].1.Str? || names.fields[i].1.Obj?)
    decreases n
  {
    if n > 0 {
      StructureKeys(names, handlers, n - 1, k);
      var result := StructureUpTo(names, handlers, n - 1);
      var key, nameVal := names.fields[n - 1].0, names.fields[n - 1].1;
      var handlerVal := Get(handlers, key);
      if nameVal.Str? {
        PutKeys(result, key, Entry(nameVal.s, handlerVal));
      } else if nameVal.Obj? {
        PutKeys(result, key, Obj(Structure(nameVal, if Truthy(handlerVal) then handlerVal else Obj([]))));
      }
    }
  }

  /** A name leaf becomes its entry, whose handler is the handlers' value at that key only when it is a function. */
  lemma {:induction false} StructureLeaf(names: Js, handlers: Js, n: nat, j: nat)
    requires n <= FieldCount(names) && j < n && UniqueKeys(names.fields) && names.fields[j].1.Str?
    ensures var k := names.fields[j].0;
      Lookup(StructureUpTo(names, handlers, n), k) == Some(Entry(names.fields[j].1.s, Get(handlers, k)))
    decreases n
  {
    var k := names.fields[j].0;
    var result := StructureUpTo(names, handlers, n - 1);
    var key, nameVal := names.fields[n - 1].0, names.fields[n - 1].1;
    var handlerVal := Get(handlers, key);
    if n - 1 != j {
      StructureLeaf(names, handlers, n - 1, j);
      assert key != k;
    }
    if nameVal.Str? {
      PutLookup(result, key, Entry(nameVal.s, handlerVal), k);
    } else if nameVal.Obj? {
      PutLookup(result, key, Obj(Structure(nameVal, if Truthy(handlerVal) then handlerVal else Obj([]))), k);
    }
  }

  // ------------------------------------------------------- _findActionPath

  /** The value reached from `v` by following `path` through own properties of objects. */
  function Walk(v: Js, path: seq<string>): Option<Js>
    decreases |path|
  {
    if path == [] then Some(v)
    else if v.Obj? && Lookup(v.fields, path[0]).Some? then Walk(Lookup(v.fields, path[0]).value, path[1..])
    else None
  }

  /** Objects all the way down have distinct keys, as JavaScript objects do. */
  ghost predicate Tree(v: Js)
    decreases v
  {
    v.Obj? ==> UniqueKeys(v.fields) && forall i :: 0 <= i < |v.fields| ==> Tree(v.fields[i].1)
  }

  /** `_findActionPath(structure, target, currentPath)`: depth first, in key order, the first leaf equal to `target`. */
  function FindPath(structure: Js, target: string, current: seq<string>): seq<string>
    decreases structure, FieldCount(structure) + 1
  {
    FindFrom(structure, target, current, 0)
  }

  /** The search from the `i`-th key of `structure` on. */
  function FindFrom(structure: Js, target: string, current: seq<string>, i: nat): seq<string>
    requires i <= FieldCount(structure)
    decreases structure, FieldCount(structure) - i
  {
    if i == FieldCount(structure) then []
    else
      var k, v := structure.fields[i].0, structure.fields[i].1;
      if v == Str(target) then current + [k]
      else
        var found := if v.Obj? then FindPath(v, target, current + [k]) else [];
        if |found| > 0 then found else FindFrom(structure, target, current, i + 1)
  }

  /** `_findActionPath(structure, target, currentPath)` */
  method FindActionPath(structure: Js, target: string, current: seq<string>) returns (path: seq<string>)
    ensures path == FindPath(structure, target, current)
    decreases structure
  {
    var i := 0;
    while i < FieldCount(structure)
      invariant 0 <= i <= FieldCount(structure)
      invariant FindFrom(structure, target, current, i) == FindPath(structure, target, current)
    {
      var k, v := structure.fields[i].0, structure.fields[i].1;
      if v == Str(target) {
        return current + [k];
      }
      if v.Obj? {
        var found := FindActionPath(v, target, current + [k]);
        if |found| > 0 {
          return found;
        }
      }
      i := i + 1;
    }
    return [];
  }

  /** A path found extends the current path, and leads from the structure to the target name. */
  lemma {:induction false} FindSound(structure: Js, target: string, current: seq<string>, i: nat)
    requires Tree(structure) && i <= FieldCount(structure)
    ensures var r := FindFrom(structure, target, current, i);
      r != [] ==> |r| > |current| && r[..|current|] == current && Walk(structure, r[|current|..]) == Some(Str(target))
    decreases structure, FieldCount(structure) - i
  {
    if i < FieldCount(structure) {
      var k, v := structure.fields[i].0, structure.fields[i].1;
      LookupAt(structure.fields, i);
      if v == Str(target) {
        assert (current + [k])[|current|..] == [k];
      } else {
        if v.Obj? {
          FindSound(v, target, current + [k], 0);
          var found := FindPath(v, target, current + [k]);
          if |found| > 0 {
            var rest := found[|current| + 1..];
            assert found[|current|..] == [k] + rest;
            assert found[..|current| + 1] == current + [k];
          }
        }
        FindSound(structure, target, current, i + 1);
      }
    }
  }

  /** The first segment of a path that walks somewhere is the key of some field. */
  lemma {:induction false} WalkFirst(structure: Js, path: seq<string>) returns (m: nat)
    requires path != [] && Walk(structure, path).Some?
    ensures structure.Obj? && m < |structure.fields| && structure.fields[m].0 == path[0]
  {
    LookupSpec(structure.fields, path[0]);
    m :| 0 <= m < |structure.fields| && structure.fields[m] == (path[0], Lookup(structure.fields, path[0]).value);
  }

  /** The search from the `i`-th key finds a path when the `m`-th key, at or after it, starts a path to the target. */
  lemma {:induction false} FindComplete(structure: Js, target: string, current: seq<string>, i: nat, m: nat, path: seq<string>)
    requires Tree(structure) && path != [] && Walk(structure, path) == Some(Str(target))
    requires i <= m < FieldCount(structure) && structure.fields[m].0 == path[0]
    ensures FindFrom(structure, target, current, i) != []
    decreases structure, FieldCount(structure) - i
  {
    var k, v := structure.fields[i].0, structure.fields[i].1;
    if v != Str(target) {
      var found := if v.Obj? then FindPath(v, target, current + [k]) else [];
      if |found| == 0 {
        if i == m {
          LookupAt(structure.fields, m);
          assert Walk(v, path[1..]) == Some(Str(target));
          assert path[1..] != [];
          var m' := WalkFirst(v, path[1..]);
          FindComplete(v, target, current + [k], 0, m', path[1..]);
          assert false;
        } else {
          FindComplete(structure, target, current, i + 1, m, path);
        }
      }
    }
  }

  /** `_findActionPath` finds a path whenever some leaf of the structure is the target name. */
  lemma {:induction false} FindPathComplete(structure: Js, target: string, current: seq<string>, path: seq<string>)
    requires Tree(structure) && path != [] && Walk(structure, path) == Some(Str(target))
    ensures FindPath(structure, target, current) != []
  {
    var m := WalkFirst(structure, path);
    FindComplete(structure, target, current, 0, m, path);
  }

  // ----------------------------------------------------- _getNestedHandler

  /** `_getNestedHandler(handlers, pathParts)`: `undefined` as soon as a segment is missing. */
  function NestedHandler(current: Js, parts: seq<string>): Js
    decreases |parts|
  {
    if parts == [] then current
    else if current.Obj? && Lookup(current.fields, parts[0]).Some? then NestedHandler(Lookup(current.fields, parts[0]).value, parts[1..])
    else Undefined
  }

  /** `_getNestedHandler(handlers, pathParts)` */
  method GetNestedHandler(handlers: Js, parts: seq<string>) returns (r: Js)
    ensures r == NestedHandler(handlers, parts)
  {
    var current := handlers;
    var i := 0;
    while i < |parts|
      invariant 0 <= i <= |parts|
      invariant NestedHandler(current, parts[i..]) == NestedHandler(handlers, parts)
    {
      assert parts[i..][1..] == parts[i + 1..];
      if current.Obj? && Lookup(current.fields, parts[i]).Some? {
        current := Lookup(current.fields, parts[i]).value;
      } else {
        return Undefined;
      }
      i := i + 1;
    }
    return current;
  }

  /** The handler at a path is the value the path walks to, or `undefined` when the walk stops short. */
  lemma {:induction false} NestedIsWalk(current: Js, parts: seq<string>)
    ensures NestedHandler(current, parts) == Walk(current, parts).GetOr(Undefined)
    decreases |parts|
  {
    if parts != [] && current.Obj? && Lookup(current.fields, parts[0]).Some? {
      NestedIsWalk(Lookup(current.fields, parts[0]).value, parts[1..]);
    }
  }

  /** A missing segment gives `undefined`, whatever follows it. */
  lemma {:induction false} NestedMissing(current: Js, prefix: seq<string>, k: string, rest: seq<string>)
    requires Walk(current, prefix).Some?
    requires var v := Walk(current, prefix).value; !(v.Obj? && Lookup(v.fields, k).Some?)
    ensures NestedHandler(current, prefix + [k] + rest) == Undefined
    decreases |prefix|
  {
    if prefix == [] {
      assert ([] + [k] + rest)[1..] == rest;
    } else {
      assert (prefix + [k] + rest)[1..] == prefix[1..] + [k] + rest;
      NestedMissing(Lookup(current.fields, prefix[0]).value, prefix[1..], k, rest);
    }
  }

  // ---------------------------------------------- _createWorkersFromStructure

  /** A truthy string `name`: what marks an object as an action entry. */
  predicate IsEntry(item: Js) {
    item.Obj? && Get(item, "name").Str? && Get(item, "name").s != ""
  }

  /** The action names `_createWorkersFromStructure` starts a worker for, in order. */
  function WorkerNames(structure: Js): seq<string>
    decreases structure, FieldCount(structure) + 1
  {
    WorkerNamesUpTo(structure, FieldCount(structure))
  }

  function WorkerNamesUpTo(structure: Js, n: nat): seq<string>
    requires n <= FieldCount(structure)
    decreases structure, n
  {
    if n == 0 then []
    else WorkerNamesUpTo(structure, n - 1) + ItemWorkerNames(structure.fields[n - 1].1)
  }

  /** The names one property's value contributes: its own name for an action entry, its entries' for a group. */
  function ItemWorkerNames(item: Js): seq<string>
    decreases item, FieldCount(item) + 2
  {
    if !item.Obj? then [] else if IsEntry(item) then [Get(item, "name").s] else WorkerNames(item)
  }

  /** The worker handles `count` workers created from `start` on get. */
  function Handles(start: Handle, count: nat): (r: seq<Handle>)
    ensures |r| == count && forall i :: 0 <= i < count ==> r[i] == start + i
  {
    seq(count, i => start + i)
  }

  /** `registerWorker` for each name in turn, with consecutive handles from `start`. */
  function RegisterAll(m: map<string, Handle>, names: seq<string>, start: Handle): map<string, Handle>
    decreases |names|
  {
    if names == [] then m else RegisterAll(m[names[0] := start], names[1..], start + 1)
  }

  lemma {:induction false} RegisterAllAppend(m: map<string, Handle>, a: seq<string>, b: seq<string>, start: Handle)
    ensures RegisterAll(m, a + b, start) == RegisterAll(RegisterAll(m, a, start), b, start + |a|)
    decreases |a|
  {
    if a != [] {
      assert (a + b)[1..] == a[1..] + b;
      RegisterAllAppend(m[a[0] := start], a[1..], b, start + 1);
    } else {
      assert a + b == b;
    }
  }

  /** Each name ends up with the handle of its last worker, and no other name changes. */
  lemma {:induction false} RegisterAllSpec(m: map<string, Handle>, names: seq<string>, start: Handle, k: string)
    ensures k in names ==> k in RegisterAll(m, names, start) && exists i :: 0 <= i < |names| && names[i] == k && RegisterAll(m, names, start)[k] == start + i
    ensures k !in names ==> (k in RegisterAll(m, names, start) <==> k in m) && (k in m ==> RegisterAll(m, names, start)[k] == m[k])
    decreases |names|
  {
    if names != [] {
      RegisterAllSpec(m[names[0] := start], names[1..], start + 1, k);
      if k in names[1..] {
        var i :| 0 <= i < |names[1..]| && names[1..][i] == k && RegisterAll(m, names, start)[k] == start + 1 + i;
        assert names[i + 1] == k;
      } else if k in names {
        assert names[0] == k;
      }
    }
  }

  lemma {:induction false} HandlesAppend(start: Handle, a: nat, b: nat)
    ensures Handles(start, a) + Handles(start + a, b) == Handles(start, a + b)
  {
  }

  /** The non-empty action names of a structure, depth first in key order. */
  function ActionNames(names: Js): seq<string>
    decreases names, FieldCount(names) + 1
  {
    ActionNamesUpTo(names, FieldCount(names))
  }

  function ActionNamesUpTo(names: Js, n: nat): seq<string>
    requires n <= FieldCount(names)
    decreases names, n
  {
    if n == 0 then [] else ActionNamesUpTo(names, n - 1) + LeafActionNames(names.fields[n - 1].1)
  }

  function LeafActionNames(v: Js): seq<string>
    decreases v, FieldCount(v) + 2
  {
    if v.Str? then (if v.s != "" then [v.s] else []) else if v.Obj? then ActionNames(v) else []
  }

  /** What `mergeNameAndHandler` stores for a name or a group. */
  function StructureValue(nameVal: Js, handlerVal: Js): Js
    requires nameVal.Str? || nameVal.Obj?
  {
    if nameVal.Str? then Entry(nameVal.s, handlerVal)
    else Obj(Structure(nameVal, if Truthy(handlerVal) then handlerVal else Obj([])))
  }

  /** With distinct name keys, each name or group adds one property at the end. */
  lemma {:induction false} StructureAppend(names: Js, handlers: Js, n: nat)
    requires 0 < n <= FieldCount(names) && UniqueKeys(names.fields)
    ensures var k, nameVal := names.fields[n - 1].0, names.fields[n - 1].1;
      StructureUpTo(names, handlers, n) ==
        StructureUpTo(names, handlers, n - 1) +
          if nameVal.Str? || nameVal.Obj? then [(k, StructureValue(nameVal, Get(handlers, k)))] else []
  {
    var k, nameVal := names.fields[n - 1].0, names.fields[n - 1].1;
    var prev := StructureUpTo(names, handlers, n - 1);
    if nameVal.Str? || nameVal.Obj? {
      StructureKeys(names, handlers, n - 1, k);
      PutSpec(prev, k, StructureValue(nameVal, Get(handlers, k)));
    }
  }

  /** Every value `mergeNameAndHandler` stores is an object. */
  lemma {:induction false} StructureObjects(names: Js, handlers: Js, n: nat, i: nat)
    requires n <= FieldCount(names) && UniqueKeys(FieldsOf(names)) && i < |StructureUpTo(names, handlers, n)|
    ensures StructureUpTo(names, handlers, n)[i].1.Obj?
    decreases n
  {
    StructureAppend(names, handlers, n);
    if i < |StructureUpTo(names, handlers, n - 1)| {
      StructureObjects(names, handlers, n - 1, i);
    }
  }

  /** Only the first `n` properties count towards the first `n` workers. */
  lemma {:induction false} WorkerNamesPrefix(a: seq<Field>, b: seq<Field>, n: nat)
    requires n <= |a|
    ensures WorkerNamesUpTo(Obj(a + b), n) == WorkerNamesUpTo(Obj(a), n)
    decreases n
  {
    if n > 0 {
      WorkerNamesPrefix(a, b, n - 1);
      assert (a + b)[n - 1] == a[n - 1];
    }
  }

  /** An action entry starts a worker exactly when its name is not empty. */
  lemma {:induction false} EntryWorkerNames(name: string, handlerVal: Js)
    ensures ItemWorkerNames(Entry(name, handlerVal)) == if name != "" then [name] else []
  {
    EntrySpec(name, handlerVal);
    var e := Entry(name, handlerVal);
    if name == "" {
      assert WorkerNamesUpTo(e, 2) == WorkerNamesUpTo(e, 1) + ItemWorkerNames(e.fields[1].1);
      assert WorkerNamesUpTo(e, 1) == WorkerNamesUpTo(e, 0) + ItemWorkerNames(e.fields[0].1);
    }
  }

  /** A group is never mistaken for an entry: its properties are all objects, so it has no string `name`. */
  lemma {:induction false} GroupNotEntry(names: Js, handlers: Js)
    requires UniqueKeys(FieldsOf(names))
    ensures !IsEntry(Obj(Structure(names, handlers)))
  {
    var fs := Structure(names, handlers);
    LookupSpec(fs, "name");
    if Lookup(fs, "name").Some? {
      var i :| 0 <= i < |fs| && fs[i] == ("name", Lookup(fs, "name").value);
      StructureObjects(names, handlers, FieldCount(names), i);
    }
  }

  /**
   * `start` creates one worker per non-empty action name of the module's
   * structure, in depth-first key order, whatever the handlers.
   */
  lemma {:induction false} WorkersPerAction(names: Js, handlers: Js)
    requires Tree(names)
    ensures WorkerNames(Obj(Structure(names, handlers))) == ActionNames(names)
    decreases names, FieldCount(names) + 1
  {
    WorkersPerActionUpTo(names, handlers, FieldCount(names));
  }

  lemma {:induction false} WorkersPerActionUpTo(names: Js, handlers: Js, n: nat)
    requires Tree(names) && n <= FieldCount(names)
    ensures var fs := StructureUpTo(names, handlers, n);
      WorkerNamesUpTo(Obj(fs), |fs|) == ActionNamesUpTo(names, n)
    decreases names, n
  {
    if n > 0 {
      var k, nameVal := names.fields[n - 1].0, names.fields[n - 1].1;
      var prev := StructureUpTo(names, handlers, n - 1);
      WorkersPerActionUpTo(names, handlers, n - 1);
      StructureAppend(names, handlers, n);
      if nameVal.Str? || nameVal.Obj? {
        var x := StructureValue(nameVal, Get(handlers, k));
        WorkerNamesPrefix(prev, [(k, x)], |prev|);
        assert (prev + [(k, x)])[|prev|] == (k, x);
        if nameVal.Str? {
          EntryWorkerNames(nameVal.s, Get(handlers, k));
        } else {
          var h := if Truthy(Get(handlers, k)) then Get(handlers, k) else Obj([]);
          GroupNotEntry(nameVal, h);
          WorkersPerAction(nameVal, h);
        }
      }
    }
  }

  // ------------------------------------------------------- a worker's job

  /** What a worker passes its handler: `makeError`, the job's `input` and `context`, and `logger`. */
  function WorkerArgs(payload: Js, logger: Js, makeError: Js): Js {
    Obj([("makeError", makeError), ("input", Get(payload, "input")), ("context", Get(payload, "context")), ("logger", logger)])
  }

  /** What a handler-less entry's worker returns. */
  const NoHandlerResult: Js := Obj([("data", Null), ("context", Obj([]))])

  /**
   * A worker running a job for `entry`: its handler when the entry has one,
   * otherwise the placeholder result. Entries are built by `Entry`, so the
   * handler is a function or `undefined`.
   */
  function RunWorker(entry: Js, payload: Js, logger: Js, makeError: Js, invoke: (Handler, Js) -> Completion<Js>): Completion<Js> {
    var handler := Get(entry, "handler");
    if handler.Fn? then invoke(handler.id, WorkerArgs(payload, logger, makeError)) else Returned(NoHandlerResult)
  }

  /** The handler of an entry gets the context and input the job was scheduled with; an entry without one returns the placeholder. */
  lemma {:induction false} RunWorkerSpec(name: string, handlerVal: Js, context: Js, input: Js, logger: Js, makeError: Js, invoke: (Handler, Js) -> Completion<Js>)
    ensures var a := WorkerArgs(Runtimes.Payload(context, input), logger, makeError);
      Get(a, "input") == input && Get(a, "context") == context
    ensures handlerVal.Fn? ==>
      RunWorker(Entry(name, handlerVal), Runtimes.Payload(context, input), logger, makeError, invoke) ==
        invoke(handlerVal.id, WorkerArgs(Runtimes.Payload(context, input), logger, makeError))
    ensures !handlerVal.Fn? ==>
      RunWorker(Entry(name, handlerVal), Runtimes.Payload(context, input), logger, makeError, invoke) == Returned(NoHandlerResult)
  {
    EntrySpec(name, handlerVal);
    assert "makeError"[0] != "input"[0] && "makeError"[0] != "context"[0] && "input"[0] != "context"[0];
    var payload := Runtimes.Payload(context, input);
    var f0, f1, f2, f3 := ("makeError", makeError), ("input", input), ("context", context), ("logger", logger);
    assert WorkerArgs(payload, logger, makeError).fields == [f0] + ([f1] + ([f2] + [f3]));
    LookupCons(f0, [f1] + ([f2] + [f3]), "input");
    LookupCons(f1, [f2] + [f3], "input");
    LookupCons(f0, [f1] + ([f2] + [f3]), "context");
    LookupCons(f1, [f2] + [f3], "context");
    LookupCons(f2, [f3], "context");
  }

  // ---------------------------------------------------------------- Module

  /** Everything the registry holds besides its workers. */
  ghost function OtherState(r: ActionRegistry): (map<string, Handle>, map<string, Handle>, map<nat, PendingJob>, map<Call, int>, seq<Outcome>, Broker, Handle)
    reads r
  {
    (r.queues, r.queueEvents, r.pendingJobs, r.timers, r.outcomes, r.broker, r.nextHandle)
  }

  class Module {
    const name: string
    /** `_actionNames()`: the action structure of the group. */
    const names: Js
    var handlers: seq<Field>
    var workers: seq<Handle>
    var isStarted: bool
    /** The next identity for a created worker. */
    var nextWorker: Handle

    /** `new Module(name, actionGroup)`: no handlers, no workers, not started. */
    constructor(name: string, names: Js)
      ensures this.name == name && this.names == names
      ensures handlers == [] && workers == [] && !isStarted
    {
      this.name := name;
      this.names := names;
      handlers := [];
      workers := [];
      isStarted := false;
      nextWorker := 0;
    }

    /** `registerHandlers(config)`: `config` deep-merged into the handlers. */
    method RegisterHandlers(config: Js)
      modifies this
      ensures handlers == Merged(old(handlers), config)
      ensures workers == old(workers) && isStarted == old(isStarted) && nextWorker == old(nextWorker)
    {
      handlers := DeepMerge(handlers, config);
    }

    /** `getHandler(actionPath)`: the handler at the path of the action's name; the whole tree when the name is not found. */
    method GetHandler(target: string) returns (r: Js)
      ensures r == NestedHandler(Obj(handlers), FindPath(names, target, []))
    {
      var path := FindActionPath(names, target, []);
      r := GetNestedHandler(Obj(handlers), path);
    }

    /** `new Worker(name, ...)`, kept in `_workers` and registered under the action's name. */
    method AddWorker(actionName: string, registry: ActionRegistry)
      modifies this, registry
      ensures workers == old(workers) + Handles(old(nextWorker), 1) && nextWorker == old(nextWorker) + 1
      ensures registry.workers == RegisterAll(old(registry.workers), [actionName], old(nextWorker))
      ensures handlers == old(handlers) && isStarted == old(isStarted)
      ensures OtherState(registry) == old(OtherState(registry))
    {
      var worker := nextWorker;
      nextWorker := nextWorker + 1;
      workers := workers + [worker];
      registry.RegisterWorker(actionName, worker);
      assert RegisterAll(registry.workers, [], worker + 1) == registry.workers;
    }

    /**
     * `_createWorkersFromStructure(structure)`: one worker per action entry,
     * depth first in key order, each registered with the registry under the
     * action's name.
     */
    method CreateWorkers(structure: Js, registry: ActionRegistry)
      modifies this, registry
      ensures workers == old(workers) + Handles(old(nextWorker), |WorkerNames(structure)|)
      ensures nextWorker == old(nextWorker) + |WorkerNames(structure)|
      ensures registry.workers == RegisterAll(old(registry.workers), WorkerNames(structure), old(nextWorker))
      ensures handlers == old(handlers) && isStarted == old(isStarted)
      ensures OtherState(registry) == old(OtherState(registry))
      decreases structure
    {
      var i := 0;
      while i < FieldCount(structure)
        invariant 0 <= i <= FieldCount(structure)
        invariant workers == old(workers) + Handles(old(nextWorker), |WorkerNamesUpTo(structure, i)|)
        invariant nextWorker == old(nextWorker) + |WorkerNamesUpTo(structure, i)|
        invariant registry.workers == RegisterAll(old(registry.workers), WorkerNamesUpTo(structure, i), old(nextWorker))
        invariant handlers == old(handlers) && isStarted == old(isStarted)
        invariant OtherState(registry) == old(OtherState(registry))
      {
        var item := structure.fields[i].1;
        ghost var before, added := WorkerNamesUpTo(structure, i), ItemWorkerNames(item);
        ghost var w, start, m := workers, nextWorker, registry.workers;
        if item.Obj? {
          if IsEntry(item) {
            AddWorker(Get(item, "name").s, registry);
          } else {
            CreateWorkers(item, registry);
          }
        } else {
          assert RegisterAll(m, added, start) == m;
        }
        assert workers == w + Handles(start, |added|) && nextWorker == start + |added|;
        assert registry.workers == RegisterAll(m, added, start);
        RegisterAllAppend(old(registry.workers), before, added, old(nextWorker));
        HandlesAppend(old(nextWorker), |before|, |added|);
        i := i + 1;
      }
    }

    /** `start()`: a second start changes nothing; otherwise a worker for every action entry of `_structure()`, then started. */
    method Start(registry: ActionRegistry)
      modifies this, registry
      ensures old(isStarted) ==>
        isStarted && workers == old(workers) && nextWorker == old(nextWorker) && registry.workers == old(registry.workers)
      ensures !old(isStarted) ==>
        (var created := WorkerNames(Obj(Structure(names, Obj(old(handlers)))));
         isStarted && workers == old(workers) + Handles(old(nextWorker), |created|) &&
         registry.workers == RegisterAll(old(registry.workers), created, old(nextWorker)))
      ensures handlers == old(handlers)
      ensures OtherState(registry) == old(OtherState(registry))
    {
      if isStarted {
        return;
      }
      var structure := MergeNameAndHandler(names, Obj(handlers));
      CreateWorkers(Obj(structure), registry);
      isStarted := true;
    }

    /** `stop()`: on a module that is not started nothing changes; otherwise every worker is closed, failures ignored. */
    method Stop()
      modifies this
      ensures old(isStarted) ==> !isStarted && workers == []
      ensures !old(isStarted) ==> !isStarted && workers == old(workers)
      ensures handlers == old(handlers) && nextWorker == old(nextWorker)
    {
      if !isStarted {
        return;
      }
      workers := [];
      isStarted := false;
    }
  }

  /** Registering a handler function under a top-level key makes it the handler found there. */
  lemma {:induction false} RegisteredHandlerFound(handlers: seq<Field>, k: string, f: Handler)
    ensures NestedHandler(Obj(Merged(handlers, Obj([(k, Fn(f))]))), [k]) == Fn(f)
  {
    MergedUpToPresent(handlers, Obj([(k, Fn(f))]), 1, 0);
  }

  /** For a name the structure does not hold, `getHandler` returns the whole handler tree. */
  lemma {:induction false} UnknownNameWholeTree(names: Js, handlers: seq<Field>, target: string)
    requires Tree(names)
    requires forall p :: Walk(names, p) != Some(Str(target))
    ensures NestedHandler(Obj(handlers), FindPath(names, target, [])) == Obj(handlers)
  {
    FindSound(names, target, [], 0);
  }
}
