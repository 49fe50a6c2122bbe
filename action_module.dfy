/**
 * `Module`: one feature module's actions. The constructor flattens the
 * module's action group into dotted paths and indexes each definition by its
 * action name; handlers are attached later, by path.
 */
module ActionModules {
  import opened Wrappers
  import opened JsValues
  import opened AppErrors
  import opened ActionDefs
  import opened Flatten

  /** A handler function, known only by identity. */
  type Handler = nat

  /** `ModuleAction`: a definition and, once registered, its handler. */
  datatype ModuleAction = ModuleAction(def: ActionDef, handler: Option<Handler>)

  /** The error `#mergeIntoAction` throws for a path without a definition (the message is spelled as in the code). */
  function DefinitionNotFound(): (e: AppError)
    ensures e.typ == Str("INTERNAL") && e.message == Str("Action Definitino not found") && e.code == Num(500)
  {
    MakeError(Internal, "Action Definitino not found")
  }

  /** The path `k` names no definition: no action name for it, an empty one, or one with no action. */
  predicate Unknown(actions: map<string, ModuleAction>, keys: map<string, string>, k: string) {
    k !in keys || keys[k] == "" || keys[k] !in actions
  }

  /**
   * `#mergeIntoAction(handlers)` as a function of the action table: the
   * entries are applied in order, each replacing the handler of the action
   * its path names; the first unknown path stops the walk with an error,
   * the entries before it staying applied.
   */
  function Merge(actions: map<string, ModuleAction>, keys: map<string, string>, hs: seq<(string, Handler)>)
      : (r: (map<string, ModuleAction>, Option<AppError>))
    ensures r.1.Some? ==> r.1.value == DefinitionNotFound()
    decreases |hs|
  {
    if hs == [] then (actions, None)
    else
      var k := hs[0].0;
      if Unknown(actions, keys, k) then (actions, Some(DefinitionNotFound()))
      else
        var n := keys[k];
        Merge(actions[n := actions[n].(handler := Some(hs[0].1))], keys, hs[1..])
  }

  /** Merging never adds or removes an action and never changes a definition. */
  lemma {:induction false} MergeKeepsDefs(actions: map<string, ModuleAction>, keys: map<string, string>, hs: seq<(string, Handler)>)
    ensures var m := Merge(actions, keys, hs).0;
      m.Keys == actions.Keys && forall n :: n in m ==> m[n].def == actions[n].def
    decreases |hs|
  {
    if hs != [] && !Unknown(actions, keys, hs[0].0) {
      var n := keys[hs[0].0];
      MergeKeepsDefs(actions[n := actions[n].(handler := Some(hs[0].1))], keys, hs[1..]);
    }
  }

  /** An error is thrown exactly when some path is unknown. */
  lemma {:induction false} MergeErrorIff(actions: map<string, ModuleAction>, keys: map<string, string>, hs: seq<(string, Handler)>)
    ensures Merge(actions, keys, hs).1.Some? <==> exists i :: 0 <= i < |hs| && Unknown(actions, keys, hs[i].0)
    decreases |hs|
  {
    if hs != [] && !Unknown(actions, keys, hs[0].0) {
      var n := keys[hs[0].0];
      var a' := actions[n := actions[n].(handler := Some(hs[0].1))];
      MergeErrorIff(a', keys, hs[1..]);
      assert a'.Keys == actions.Keys;
      forall i | 0 <= i < |hs| && Unknown(actions, keys, hs[i].0)
        ensures 0 <= i - 1 < |hs[1..]| && Unknown(a', keys, hs[1..][i - 1].0)
      {
      }
      forall i | 0 <= i < |hs[1..]| && Unknown(a', keys, hs[1..][i].0)
        ensures Unknown(actions, keys, hs[i + 1].0)
      {
      }
    }
  }

  /** Before the first unknown path every entry is applied; then the walk stops with an error. */
  lemma {:induction false} MergeStopsAtFirstUnknown(actions: map<string, ModuleAction>, keys: map<string, string>,
                                                    hs: seq<(string, Handler)>, f: nat)
    requires f < |hs| && Unknown(actions, keys, hs[f].0)
    requires forall i :: 0 <= i < f ==> !Unknown(actions, keys, hs[i].0)
    ensures Merge(actions, keys, hs) == (Merge(actions, keys, hs[..f]).0, Some(DefinitionNotFound()))
    decreases f
  {
    if f > 0 {
      var n := keys[hs[0].0];
      var a' := actions[n := actions[n].(handler := Some(hs[0].1))];
      assert a'.Keys == actions.Keys;
      assert hs[..f][1..] == hs[1..][..f - 1];
      MergeStopsAtFirstUnknown(a', keys, hs[1..], f - 1);
    }
  }

  /** The action names the entries of `hs` lead to. */
  function Targets(keys: map<string, string>, hs: seq<(string, Handler)>): (t: set<string>)
    ensures forall i :: 0 <= i < |hs| && hs[i].0 in keys ==> keys[hs[i].0] in t
  {
    set i | 0 <= i < |hs| && hs[i].0 in keys :: keys[hs[i].0]
  }

  /** An action no entry leads to keeps its handler. */
  lemma {:induction false} MergeUntouched(actions: map<string, ModuleAction>, keys: map<string, string>,
                                          hs: seq<(string, Handler)>, n: string)
    requires n in actions && n !in Targets(keys, hs)
    ensures n in Merge(actions, keys, hs).0 && Merge(actions, keys, hs).0[n] == actions[n]
    decreases |hs|
  {
    MergeKeepsDefs(actions, keys, hs);
    if hs != [] && !Unknown(actions, keys, hs[0].0) {
      var m := keys[hs[0].0];
      assert m != n;
      assert Targets(keys, hs[1..]) <= Targets(keys, hs) by {
        forall i | 0 <= i < |hs[1..]| && hs[1..][i].0 in keys
          ensures keys[hs[1..][i].0] in Targets(keys, hs)
        {
          assert hs[1..][i] == hs[i + 1];
        }
      }
      MergeUntouched(actions[m := actions[m].(handler := Some(hs[0].1))], keys, hs[1..], n);
    }
  }

  /** No later entry of `hs` leads to the same action as entry `i`. */
  predicate LastFor(keys: map<string, string>, hs: seq<(string, Handler)>, i: int)
    requires 0 <= i < |hs| && hs[i].0 in keys
  {
    forall j :: i < j < |hs| && hs[j].0 in keys ==> keys[hs[j].0] != keys[hs[i].0]
  }

  /** Without an error, each action an entry leads to carries the handler of the last such entry. */
  lemma {:induction false} MergeAttaches(actions: map<string, ModuleAction>, keys: map<string, string>,
                                         hs: seq<(string, Handler)>, i: nat)
    requires Merge(actions, keys, hs).1.None?
    requires i < |hs| && hs[i].0 in keys && LastFor(keys, hs, i)
    ensures keys[hs[i].0] in Merge(actions, keys, hs).0
    ensures Merge(actions, keys, hs).0[keys[hs[i].0]].handler == Some(hs[i].1)
    decreases |hs|
  {
    var n := keys[hs[0].0];
    var a' := actions[n := actions[n].(handler := Some(hs[0].1))];
    if i == 0 {
      assert n !in Targets(keys, hs[1..]) by {
        forall j | 0 <= j < |hs[1..]| && hs[1..][j].0 in keys
          ensures keys[hs[1..][j].0] != n
        {
          assert hs[1..][j] == hs[j + 1];
        }
      }
      MergeUntouched(a', keys, hs[1..], n);
    } else {
      assert LastFor(keys, hs[1..], i - 1) by {
        forall j | i - 1 < j < |hs[1..]| && hs[1..][j].0 in keys
          ensures keys[hs[1..][j].0] != keys[hs[1..][i - 1].0]
        {
          assert hs[1..][j] == hs[j + 1];
        }
      }
      MergeAttaches(a', keys, hs[1..], i - 1);
    }
  }

  /**
   * The names of the flattened definitions that carry a cron schedule, in
   * path order; `cron[i]` says whether entry `i`'s settings name one.
   */
  function CronNames(es: Entries, cron: seq<bool>): (r: seq<string>)
    requires |cron| == |es|
    ensures |r| <= |es|
    ensures forall i :: 0 <= i < |es| && cron[i] && es[i].1.Def? ==> es[i].1.d.name in r
  {
    if es == [] then []
    else
      var n := |es| - 1;
      var r := CronNames(es[..n], cron[..n]);
      assert forall i :: 0 <= i < n ==> es[..n][i] == es[i] && cron[..n][i] == cron[i];
      r + if es[n].1.Def? && cron[n] then [es[n].1.d.name] else []
  }

  /** The handler ids of a flattened handler group, by path. */
  function HandlerEntries(es: Entries): (hs: seq<(string, Handler)>)
    requires forall i :: 0 <= i < |es| ==> es[i].1.Prim? && es[i].1.p.Fn?
    ensures |hs| == |es| && forall i :: 0 <= i < |es| ==> hs[i] == (es[i].0, es[i].1.p.id)
  {
    seq(|es|, i requires 0 <= i < |es| => (es[i].0, es[i].1.p.id))
  }

  /**
   * The action table and path index after the constructor's loop over a
   * flattened group: every path maps to its definition's name; each name
   * holds, without a handler, the definition of the last path with that
   * name, which `origin` points to.
   */
  ghost predicate Indexed(es: Entries, actions: map<string, ModuleAction>, keys: map<string, string>, origin: map<string, nat>)
    requires forall i :: 0 <= i < |es| ==> es[i].1.Def?
  {
    KeysIndexed(es, keys) && ActionsIndexed(es, actions, origin)
  }

  /** `_actionKeys` maps exactly the entries' paths, each to its definition's name. */
  ghost predicate KeysIndexed(es: Entries, keys: map<string, string>)
    requires forall i :: 0 <= i < |es| ==> es[i].1.Def?
  {
    (forall k :: k in keys <==> k in Keys(es)) &&
    (forall i :: 0 <= i < |es| ==> keys[es[i].0] == es[i].1.d.name)
  }

  /** `_actions` holds every entry's name, each with the last definition of that name and no handler. */
  ghost predicate ActionsIndexed(es: Entries, actions: map<string, ModuleAction>, origin: map<string, nat>)
    requires forall i :: 0 <= i < |es| ==> es[i].1.Def?
  {
    origin.Keys == actions.Keys &&
    (forall i :: 0 <= i < |es| ==> es[i].1.d.name in actions) &&
    forall n :: n in actions ==>
      origin[n] < |es| && es[origin[n]].1 == Def(actions[n].def) && actions[n] == ModuleAction(actions[n].def, None) &&
      actions[n].def.name == n && forall j :: origin[n] < j < |es| ==> es[j].1.d.name != n
  }

  /** The loop of `new Module(name, group)` over the flattened entries. */
  method IndexActions(es: Entries)
      returns (actions: map<string, ModuleAction>, keys: map<string, string>, crons: seq<string>,
               ghost origin: map<string, nat>, ghost cron: seq<bool>)
    requires Unique(es) && forall i :: 0 <= i < |es| ==> es[i].1.Def?
    ensures Indexed(es, actions, keys, origin)
    ensures |cron| == |es| && forall i :: 0 <= i < |es| ==> cron[i] == HasCron(es[i].1.d.settings)
    ensures crons == CronNames(es, cron)
  {
    actions := map[];
    keys := map[];
    crons := [];
    origin := map[];
    cron := [];
    for i := 0 to |es|
      invariant Indexed(es[..i], actions, keys, origin)
      invariant |cron| == i && forall j :: 0 <= j < i ==> cron[j] == HasCron(es[j].1.d.settings)
      invariant crons == CronNames(es[..i], cron)
    {
      var (k, v) := es[i];
      var d := v.d;
      IndexStep(es, i, actions, keys, origin);
      actions := actions[d.name := ModuleAction(d, None)];
      keys := keys[k := d.name];
      origin := origin[d.name := i];
      CronFlagsStep(es, cron, i);
      cron := cron + [HasCron(d.settings)];
      CronNamesStep(es, cron, i);
      if HasCron(d.settings) {
        crons := crons + [d.name];
      }
    }
    assert es[..|es|] == es;
  }

  /**
   * What `new Module(name, group)` builds from the group at `root`: the
   * entries `es` are what `flattenActionGroup` returns for the group (every
   * definition reachable through nested plain objects, under its dotted
   * path, and nothing else), so each path is distinct, each value a
   * definition, and every definition directly under the group is among
   * them; every path is indexed by its definition's name, every definition
   * is stored without a handler under its name (a later definition with the
   * same name replacing an earlier one), and the cron actions are listed in
   * path order, `cron[i]` saying whether entry `i`'s settings named a
   * schedule when the module was built (definitions are objects whose
   * settings may change later, so `BuildModule` states that link).
   */
  ghost predicate Built(g: Graph, root: nat, es: Entries, actions: map<string, ModuleAction>, keys: map<string, string>,
                        crons: seq<string>, origin: map<string, nat>, cron: seq<bool>)
    requires root in g
  {
    Unique(es) && (forall i :: 0 <= i < |es| ==> es[i].1.Def?) &&
    (forall i :: 0 <= i < |g[root]| && g[root][i].1.Def? ==> g[root][i].0 in Keys(es)) &&
    |cron| == |es| && crons == CronNames(es, cron) &&
    Indexed(es, actions, keys, origin) &&
    exists expanded, parent, rank :: Flattened(g, root, IsActionDef, "", es, expanded, parent, rank)
  }

  /** The body of `new Module(name, group)`: flatten the group, then index it. */
  method BuildModule(g: Graph, root: nat)
      returns (ghost es: Entries, actions: map<string, ModuleAction>, keys: map<string, string>, crons: seq<string>,
               ghost origin: map<string, nat>, ghost cron: seq<bool>)
    requires Closed(g) && root in g
    ensures Built(g, root, es, actions, keys, crons, origin, cron)
    ensures forall i :: 0 <= i < |es| ==> cron[i] == HasCron(es[i].1.d.settings)
  {
    var flat, expanded, parent, rank := FlattenActionGroup(g, root);
    assert forall i :: 0 <= i < |g[root]| && g[root][i].1.Def? ==> g[root][i].0 in Keys(flat) by {
      assert root in expanded && expanded[root] == "";
    }
    es := flat;
    actions, keys, crons, origin, cron := IndexActions(flat);
  }

  /** One more entry of the constructor's loop keeps the table indexed. */
  lemma {:induction false} IndexStep(es: Entries, i: nat, actions: map<string, ModuleAction>, keys: map<string, string>, origin: map<string, nat>)
    requires i < |es| && Unique(es) && forall j :: 0 <= j < |es| ==> es[j].1.Def?
    requires Indexed(es[..i], actions, keys, origin)
    ensures var d := es[i].1.d;
      Indexed(es[..i + 1], actions[d.name := ModuleAction(d, None)], keys[es[i].0 := d.name], origin[d.name := i])
  {
    KeysStep(es, i, keys);
    ActionsStep(es, i, actions, origin);
  }

  lemma {:induction false} KeysStep(es: Entries, i: nat, keys: map<string, string>)
    requires i < |es| && Unique(es) && forall j :: 0 <= j < |es| ==> es[j].1.Def?
    requires KeysIndexed(es[..i], keys)
    ensures KeysIndexed(es[..i + 1], keys[es[i].0 := es[i].1.d.name])
  {
    var e := es[..i + 1];
    var d := es[i].1.d;
    var k2 := keys[es[i].0 := d.name];
    assert Keys(e) == Keys(es[..i]) + [es[i].0];
    forall j | 0 <= j < |e|
      ensures k2[e[j].0] == e[j].1.d.name
    {
      if j < i {
        assert e[j] == es[..i][j];
        assert e[j].0 != es[i].0;
      }
    }
  }

  lemma {:induction false} ActionsStep(es: Entries, i: nat, actions: map<string, ModuleAction>, origin: map<string, nat>)
    requires i < |es| && forall j :: 0 <= j < |es| ==> es[j].1.Def?
    requires ActionsIndexed(es[..i], actions, origin)
    ensures var d := es[i].1.d;
      ActionsIndexed(es[..i + 1], actions[d.name := ModuleAction(d, None)], origin[d.name := i])
  {
    var e := es[..i + 1];
    var d := es[i].1.d;
    var a2 := actions[d.name := ModuleAction(d, None)];
    var o2 := origin[d.name := i];
    forall n | n in a2
      ensures o2[n] < |e| && e[o2[n]].1 == Def(a2[n].def) && a2[n] == ModuleAction(a2[n].def, None) &&
        a2[n].def.name == n && forall j :: o2[n] < j < |e| ==> e[j].1.d.name != n
    {
      if n != d.name {
        assert e[origin[n]] == es[..i][origin[n]];
        forall j | origin[n] < j < |e|
          ensures e[j].1.d.name != n
        {
          if j < i {
            assert e[j] == es[..i][j];
          }
        }
      }
    }
    forall j | 0 <= j < |e|
      ensures e[j].1.d.name in a2
    {
      if j < i {
        assert e[j] == es[..i][j];
      }
    }
  }

  class Module {
    const name: string
    /** `_actions`: action name to definition and handler. */
    var actions: map<string, ModuleAction>
    /** `_actionKeys`: dotted path to action name. */
    var actionKeys: map<string, string>
    /** `_crons`: names of the actions with a cron schedule. */
    var crons: seq<string>
    /** The flattened action group the module was built from. */
    ghost var flattened: Entries
    /** For each action, the flattened entry its definition came from. */
    ghost var origin: map<string, nat>
    /** Whether each flattened definition had a cron schedule when the module was built (see `BuildModule`). */
    ghost var cronFlags: seq<bool>

    /** `new Module(name, group)`: the table `Built` describes. */
    constructor(name: string, g: Graph, root: nat)
      requires Closed(g) && root in g
      ensures this.name == name
      ensures Built(g, root, flattened, actions, actionKeys, crons, origin, cronFlags)
      ensures forall i :: 0 <= i < |flattened| ==> cronFlags[i] == HasCron(flattened[i].1.d.settings)
    {
      this.name := name;
      var es, a, k, c, o, f := BuildModule(g, root);
      flattened, actions, actionKeys, crons, origin, cronFlags := es, a, k, c, o, f;
    }

    /** `getHandler(def)`: the handler registered for the definition's name, if any. */
    function GetHandler(def: ActionDef): (r: Option<Handler>)
      reads this
      ensures r.Some? ==> def.name in actions && actions[def.name].handler == r
      ensures def.name in actions ==> r == actions[def.name].handler
    {
      if def.name in actions then actions[def.name].handler else None
    }

    /** `#mergeIntoAction(handlers)` */
    method MergeIntoAction(hs: seq<(string, Handler)>) returns (err: Option<AppError>)
      modifies this
      ensures (actions, err) == Merge(old(actions), actionKeys, hs)
      ensures actionKeys == old(actionKeys) && crons == old(crons) && flattened == old(flattened)
    {
      var i := 0;
      while i < |hs|
        invariant 0 <= i <= |hs|
        invariant Merge(old(actions), actionKeys, hs) == Merge(actions, actionKeys, hs[i..])
        invariant actionKeys == old(actionKeys) && crons == old(crons) && flattened == old(flattened)
      {
        var (k, handler) := hs[i];
        if k !in actionKeys || actionKeys[k] == "" {
          return Some(DefinitionNotFound());
        }
        var actionName := actionKeys[k];
        if actionName !in actions {
          return Some(DefinitionNotFound());
        }
        assert hs[i..][1..] == hs[i + 1..];
        actions := actions[actionName := actions[actionName].(handler := Some(handler))];
        i := i + 1;
      }
      return None;
    }

    /**
     * `registerHandlers(group)`: flattens the handler group and merges it
     * into the action table. `es` is what `flattenActionHandlers` returns
     * for the group (every function reachable through nested plain objects,
     * under its dotted path, and nothing else), and `handlers` its paths
     * with their functions.
     */
    method RegisterHandlers(g: Graph, root: nat)
        returns (err: Option<AppError>, ghost es: Entries, ghost handlers: seq<(string, Handler)>)
      requires Closed(g) && root in g
      modifies this
      ensures exists expanded, parent, rank :: Flattened(g, root, IsHandler, "", es, expanded, parent, rank)
      ensures forall i :: 0 <= i < |es| ==> es[i].1.Prim? && es[i].1.p.Fn?
      ensures handlers == HandlerEntries(es)
      ensures (actions, err) == Merge(old(actions), actionKeys, handlers)
      ensures actionKeys == old(actionKeys) && crons == old(crons)
      ensures forall i, j :: 0 <= i < j < |handlers| ==> handlers[i].0 != handlers[j].0
      ensures forall i :: 0 <= i < |g[root]| && g[root][i].1.Prim? && g[root][i].1.p.Fn? ==>
        exists j :: 0 <= j < |handlers| && handlers[j].0 == g[root][i].0
    {
      var flat, expanded, parent, rank := FlattenActionHandlers(g, root);
      es := flat;
      var hs := HandlerEntries(flat);
      handlers := hs;
      forall i | 0 <= i < |g[root]| && g[root][i].1.Prim? && g[root][i].1.p.Fn?
        ensures exists j :: 0 <= j < |hs| && hs[j].0 == g[root][i].0
      {
        assert IsHandler(g[root][i].1) && root in expanded && expanded[root] == "";
        var j :| 0 <= j < |flat| && Keys(flat)[j] == g[root][i].0;
        assert hs[j].0 == g[root][i].0;
      }
      err := MergeIntoAction(hs);
    }

    /** `clearHandlers()`: every action keeps its definition and loses its handler. */
    method ClearHandlers()
      modifies this
      ensures actions.Keys == old(actions).Keys
      ensures forall n :: n in actions ==> actions[n] == ModuleAction(old(actions)[n].def, None)
      ensures actionKeys == old(actionKeys) && crons == old(crons) && flattened == old(flattened)
    {
      var rest := actions.Keys;
      while rest != {}
        invariant rest <= actions.Keys && actions.Keys == old(actions).Keys
        invariant forall n :: n in actions && n !in rest ==> actions[n] == ModuleAction(old(actions)[n].def, None)
        invariant forall n :: n in rest ==> actions[n] == old(actions)[n]
        invariant actionKeys == old(actionKeys) && crons == old(crons) && flattened == old(flattened)
        decreases rest
      {
        var k :| k in rest;
        actions := actions[k := ModuleAction(actions[k].def, None)];
        rest := rest - {k};
      }
    }
  }

  lemma {:induction false} CronFlagsStep(es: Entries, cron: seq<bool>, i: nat)
    requires i < |es| && es[i].1.Def? && |cron| == i
    requires forall j :: 0 <= j < i ==> es[j].1.Def? && cron[j] == HasCron(es[j].1.d.settings)
    ensures var c := cron + [HasCron(es[i].1.d.settings)];
      forall j :: 0 <= j < i + 1 ==> c[j] == HasCron(es[j].1.d.settings)
  {
  }

  lemma {:induction false} CronNamesStep(es: Entries, cron: seq<bool>, i: nat)
    requires i < |es| && |cron| == i + 1
    ensures CronNames(es[..i + 1], cron) ==
      CronNames(es[..i], cron[..i]) + if es[i].1.Def? && cron[i] then [es[i].1.d.name] else []
  {
    assert es[..i + 1][..i] == es[..i];
  }
}
