/**
 * `flattenObject`: a depth-first walk over an object graph with an explicit
 * stack and a visited set, collecting the values a predicate accepts under
 * their dotted paths.
 *
 * The object graph is a map from object ids to each object's own entries
 * (`Object.entries` order). A property holds a primitive or function, a
 * reference to another object (an array is one whose keys are its
 * indices), or an action definition.
 */
module Flatten {
  import opened Wrappers
  import opened JsValues
  import opened ActionDefs

  datatype Value = Prim(p: Js) | Ref(o: nat) | Def(d: ActionDef)

  type Entries = seq<(string, Value)>

  type Graph = map<nat, Entries>

  /** A stack element: an object still to expand and the path that leads to it. */
  datatype Frame = Frame(obj: nat, prefix: string)

  /** Every reference points into the graph and primitives are not objects. */
  predicate Closed(g: Graph) {
    forall o, i :: o in g && 0 <= i < |g[o]| ==>
      (g[o][i].1.Ref? ==> g[o][i].1.o in g) && (g[o][i].1.Prim? ==> !IsObject(g[o][i].1.p))
  }

  /** `currentPrefix ? `${currentPrefix}.${key}` : key` */
  function Path(prefix: string, key: string): (r: string)
    ensures prefix == "" ==> r == key
    ensures prefix != "" ==> r == prefix + "." + key
  {
    if prefix == "" then key else prefix + "." + key
  }

  function Keys(r: Entries): (ks: seq<string>)
    ensures |ks| == |r| && forall i :: 0 <= i < |r| ==> ks[i] == r[i].0
  {
    seq(|r|, i requires 0 <= i < |r| => r[i].0)
  }

  predicate Unique(r: Entries) {
    forall i, j :: 0 <= i < j < |r| ==> r[i].0 != r[j].0
  }

  function Objs(s: seq<Frame>): (os: seq<nat>)
    ensures |os| == |s| && forall j :: 0 <= j < |s| ==> os[j] == s[j].obj
  {
    if s == [] then [] else Objs(s[..|s| - 1]) + [s[|s| - 1].obj]
  }

  lemma {:induction false} ObjsAppend(a: seq<Frame>, b: seq<Frame>)
    ensures Objs(a + b) == Objs(a) + Objs(b)
  {
    assert Objs(a + b) == Objs(a) + Objs(b);
  }

  /** `result[k] = v` on a record: an existing key keeps its place, a new one goes last. */
  function Put(r: Entries, k: string, v: Value): (s: Entries)
    ensures Keys(s) == if k in Keys(r) then Keys(r) else Keys(r) + [k]
    ensures forall x :: x in s ==> x == (k, v) || x in r
    ensures (k, v) in s
    ensures Unique(r) ==> Unique(s)
  {
    if k in Keys(r) then
      var s := seq(|r|, i requires 0 <= i < |r| => if r[i].0 == k then (k, v) else r[i]);
      assert Keys(s) == Keys(r);
      var i :| 0 <= i < |r| && Keys(r)[i] == k;
      assert s[i] == (k, v);
      s
    else
      r + [(k, v)]
  }

  /** The entry `e` of an object under `prefix` as the result stores it: its path and its value. */
  function Stored(prefix: string, e: (string, Value)): (x: (string, Value))
    ensures x.1 == e.1 && x.0 == Path(prefix, e.0)
  {
    (Path(prefix, e.0), e.1)
  }

  /** The record after the inner loop has stored every accepted entry of one object. */
  function PutMatches(r: Entries, es: Entries, prefix: string, matches: Value -> bool): (res: Entries)
    ensures forall k :: k in Keys(r) ==> k in Keys(res)
    ensures forall i :: 0 <= i < |es| && matches(es[i].1) ==> Path(prefix, es[i].0) in Keys(res)
    ensures Unique(r) ==> Unique(res)
    decreases |es|
  {
    if es == [] then r
    else
      var front := es[..|es| - 1];
      var last := es[|es| - 1];
      var s := PutMatches(r, front, prefix, matches);
      assert forall i :: 0 <= i < |front| ==> front[i] == es[i];
      if matches(last.1) then Put(s, Path(prefix, last.0), last.1) else s
  }

  /** Every pair the inner loop adds is an accepted entry of the object, stored under its path. */
  lemma {:induction false} PutMatchesSound(r: Entries, es: Entries, prefix: string, matches: Value -> bool)
    ensures forall x :: x in PutMatches(r, es, prefix, matches) ==>
      x in r || exists i :: 0 <= i < |es| && matches(es[i].1) && x == Stored(prefix, es[i])
    decreases |es|
  {
    if es != [] {
      var front := es[..|es| - 1];
      PutMatchesSound(r, front, prefix, matches);
      forall x | x in PutMatches(r, front, prefix, matches) && x !in r
        ensures exists i :: 0 <= i < |es| && matches(es[i].1) && x == Stored(prefix, es[i])
      {
        var i :| 0 <= i < |front| && matches(front[i].1) && x == Stored(prefix, front[i]);
        assert front[i] == es[i];
      }
    }
  }

  /** One more entry of the inner loop. */
  lemma {:induction false} PutMatchesStep(r: Entries, es: Entries, prefix: string, matches: Value -> bool, i: nat)
    requires i < |es|
    ensures PutMatches(r, es[..i + 1], prefix, matches) ==
      if matches(es[i].1) then Put(PutMatches(r, es[..i], prefix, matches), Path(prefix, es[i].0), es[i].1)
      else PutMatches(r, es[..i], prefix, matches)
  {
    assert es[..i + 1][..i] == es[..i];
  }

  /** Every rejected reference among the first `n` entries has its object in `os`. */
  ghost predicate Covered(es: Entries, n: nat, matches: Value -> bool, os: seq<nat>)
    requires n <= |es|
  {
    forall m :: 0 <= m < n && es[m].1.Ref? && !matches(es[m].1) ==> es[m].1.o in os
  }

  lemma {:induction false} CoveredStep(es: Entries, n: nat, matches: Value -> bool, os: seq<nat>, extra: seq<nat>)
    requires n < |es| && Covered(es, n, matches, os)
    requires es[n].1.Ref? && !matches(es[n].1) ==> es[n].1.o in extra
    ensures Covered(es, n + 1, matches, os + extra)
  {
    forall m | 0 <= m < n + 1 && es[m].1.Ref? && !matches(es[m].1)
      ensures es[m].1.o in os + extra
    {
      if m < n {
        assert es[m].1.o in os;
      }
    }
  }

  /** Each pushed frame comes from one of the first `n` entries, a rejected reference, under that entry's path. */
  ghost predicate PushedFrom(es: Entries, n: nat, prefix: string, matches: Value -> bool, pushed: seq<Frame>, via: seq<nat>) {
    |via| == |pushed| &&
    forall j :: 0 <= j < |pushed| ==>
      via[j] < n && via[j] < |es| && es[via[j]].1 == Ref(pushed[j].obj) && !matches(es[via[j]].1) &&
      pushed[j].prefix == Path(prefix, es[via[j]].0)
  }

  lemma {:induction false} PushedFromStep(es: Entries, n: nat, prefix: string, matches: Value -> bool, pushed: seq<Frame>, via: seq<nat>)
    requires n < |es| && PushedFrom(es, n, prefix, matches, pushed, via)
    ensures PushedFrom(es, n + 1, prefix, matches, pushed, via)
    ensures es[n].1.Ref? && !matches(es[n].1) ==>
      PushedFrom(es, n + 1, prefix, matches, pushed + [Frame(es[n].1.o, Path(prefix, es[n].0))], via + [n])
  {
  }

  /** One entry of the inner loop: store it, push it, or drop it. */
  method ExpandEntry(es: Entries, i: nat, prefix: string, matches: Value -> bool, result: Entries,
                     res: Entries, pushed: seq<Frame>, ghost via: seq<nat>)
      returns (res': Entries, pushed': seq<Frame>, ghost via': seq<nat>)
    requires i < |es|
    requires res == PutMatches(result, es[..i], prefix, matches)
    requires PushedFrom(es, i, prefix, matches, pushed, via)
    requires Covered(es, i, matches, Objs(pushed))
    ensures res' == PutMatches(result, es[..i + 1], prefix, matches)
    ensures PushedFrom(es, i + 1, prefix, matches, pushed', via')
    ensures Covered(es, i + 1, matches, Objs(pushed'))
  {
    var (key, value) := es[i];
    PutMatchesStep(result, es, prefix, matches, i);
    PushedFromStep(es, i, prefix, matches, pushed, via);
    var path := Path(prefix, key);
    res', pushed', via' := res, pushed, via;
    if matches(value) {
      res' := Put(res, path, value);
    } else if value.Ref? {
      pushed' := pushed + [Frame(value.o, path)];
      via' := via + [i];
    }
    ObjsAppend(pushed, pushed'[|pushed|..]);
    assert pushed' == pushed + pushed'[|pushed|..];
    CoveredStep(es, i, matches, Objs(pushed), Objs(pushed'[|pushed|..]));
  }

  /**
   * The inner loop over one object's entries: an accepted value is stored
   * under its path, a rejected reference to an object is pushed to be
   * expanded later, anything else is dropped. `via` names, for each pushed
   * frame, the entry it came from.
   */
  method ExpandEntries(es: Entries, prefix: string, matches: Value -> bool, result: Entries)
      returns (res: Entries, pushed: seq<Frame>, ghost via: seq<nat>)
    ensures res == PutMatches(result, es, prefix, matches)
    ensures PushedFrom(es, |es|, prefix, matches, pushed, via)
    ensures Covered(es, |es|, matches, Objs(pushed))
  {
    res := result;
    pushed := [];
    via := [];
    var i := 0;
    while i < |es|
      invariant 0 <= i <= |es|
      invariant res == PutMatches(result, es[..i], prefix, matches)
      invariant PushedFrom(es, i, prefix, matches, pushed, via)
      invariant Covered(es, i, matches, Objs(pushed))
    {
      res, pushed, via := ExpandEntry(es, i, prefix, matches, result, res, pushed, via);
      i := i + 1;
    }
    assert es[..|es|] == es;
  }

  /** The frame was pushed by a rejected entry of an expanded object that refers to its object. */
  ghost predicate Pushed(g: Graph, matches: Value -> bool, expanded: map<nat, string>, f: Frame, origin: (nat, nat)) {
    origin.0 in expanded && origin.0 in g && origin.1 < |g[origin.0]| &&
    g[origin.0][origin.1].1 == Ref(f.obj) && !matches(g[origin.0][origin.1].1) &&
    f.prefix == Path(expanded[origin.0], g[origin.0][origin.1].0)
  }

  /** `e2` keeps every path of `e`. */
  ghost predicate Extends(e: map<nat, string>, e2: map<nat, string>) {
    forall k :: k in e ==> k in e2 && e2[k] == e[k]
  }

  lemma {:induction false} PushedMono(g: Graph, matches: Value -> bool, e: map<nat, string>, e2: map<nat, string>, f: Frame, origin: (nat, nat))
    requires Extends(e, e2) && Pushed(g, matches, e, f, origin)
    ensures Pushed(g, matches, e2, f, origin)
  {
  }

  /** Each stacked frame is the root's or was pushed from an expanded object. */
  ghost predicate StackOk(g: Graph, matches: Value -> bool, expanded: map<nat, string>, root: nat, prefix: string,
                          stack: seq<Frame>, origins: seq<(nat, nat)>) {
    |origins| == |stack| &&
    forall j :: 0 <= j < |stack| ==>
      stack[j].obj in g && (stack[j] == Frame(root, prefix) || Pushed(g, matches, expanded, stack[j], origins[j]))
  }

  /**
   * Each expanded object other than the root was reached through a rejected
   * entry of its parent, which was expanded before it (`rank` numbers the
   * objects in the order they were expanded).
   */
  ghost predicate ParentsOk(g: Graph, matches: Value -> bool, expanded: map<nat, string>, root: nat,
                            parent: map<nat, (nat, nat)>, rank: map<nat, nat>) {
    forall o {:trigger parent[o]} :: o in expanded && o != root ==>
      o in parent && Pushed(g, matches, expanded, Frame(o, expanded[o]), parent[o]) &&
      o in rank && parent[o].0 in rank && rank[parent[o].0] < rank[o]
  }

  lemma {:induction false} ParentOfOk(g: Graph, matches: Value -> bool, expanded: map<nat, string>, root: nat,
                                      parent: map<nat, (nat, nat)>, rank: map<nat, nat>, o: nat)
    requires ParentsOk(g, matches, expanded, root, parent, rank)
    requires o in expanded && o != root
    ensures o in parent && Pushed(g, matches, expanded, Frame(o, expanded[o]), parent[o])
    ensures o in rank && parent[o].0 in rank && rank[parent[o].0] < rank[o]
  {
  }

  /** Every accepted entry of an expanded object is stored under its path. */
  ghost predicate AcceptedIn(g: Graph, expanded: map<nat, string>, matches: Value -> bool, result: Entries) {
    forall o, i :: o in expanded && o in g && 0 <= i < |g[o]| && matches(g[o][i].1) ==>
      Path(expanded[o], g[o][i].0) in Keys(result)
  }

  /** Every stored pair is an accepted entry of an expanded object, under its path. */
  ghost predicate SoundIn(g: Graph, expanded: map<nat, string>, matches: Value -> bool, result: Entries) {
    forall x :: x in result ==> exists o, i ::
      o in expanded && o in g && 0 <= i < |g[o]| && matches(g[o][i].1) && x == Stored(expanded[o], g[o][i])
  }

  /** Every object a rejected reference of an expanded object leads to is expanded or still stacked. */
  ghost predicate RejectedCovered(g: Graph, expanded: map<nat, string>, matches: Value -> bool, stack: seq<Frame>) {
    forall o, i :: o in expanded && o in g && 0 <= i < |g[o]| && g[o][i].1.Ref? && !matches(g[o][i].1) ==>
      g[o][i].1.o in expanded || g[o][i].1.o in Objs(stack)
  }

  /** Popping a frame whose object is already expanded keeps the stack facts. */
  lemma {:induction false} PopVisited(g: Graph, matches: Value -> bool, expanded: map<nat, string>, root: nat, prefix: string,
                                      stack: seq<Frame>, origins: seq<(nat, nat)>)
    requires |stack| > 0 && stack[|stack| - 1].obj in expanded
    requires StackOk(g, matches, expanded, root, prefix, stack, origins)
    requires RejectedCovered(g, expanded, matches, stack)
    ensures StackOk(g, matches, expanded, root, prefix, stack[..|stack| - 1], origins[..|origins| - 1])
    ensures RejectedCovered(g, expanded, matches, stack[..|stack| - 1])
  {
    assert Objs(stack) == Objs(stack[..|stack| - 1]) + [stack[|stack| - 1].obj];
  }

  function Origins(o: nat, via: seq<nat>): (r: seq<(nat, nat)>)
    ensures |r| == |via| && forall j :: 0 <= j < |via| ==> r[j] == (o, via[j])
  {
    seq(|via|, j requires 0 <= j < |via| => (o, via[j]))
  }

  lemma {:induction false} ExpandStack(g: Graph, matches: Value -> bool, expanded: map<nat, string>, root: nat, prefix: string,
                                       rest: seq<Frame>, restOrigins: seq<(nat, nat)>, top: Frame, pushed: seq<Frame>, via: seq<nat>)
    requires Closed(g) && top.obj in g && top.obj !in expanded
    requires StackOk(g, matches, expanded, root, prefix, rest, restOrigins)
    requires PushedFrom(g[top.obj], |g[top.obj]|, top.prefix, matches, pushed, via)
    ensures StackOk(g, matches, expanded[top.obj := top.prefix], root, prefix, rest + pushed, restOrigins + Origins(top.obj, via))
  {
    var e2 := expanded[top.obj := top.prefix];
    var s2 := rest + pushed;
    var o2 := restOrigins + Origins(top.obj, via);
    forall j | 0 <= j < |s2|
      ensures s2[j].obj in g && (s2[j] == Frame(root, prefix) || Pushed(g, matches, e2, s2[j], o2[j]))
    {
      if j < |rest| {
        assert s2[j] == rest[j] && o2[j] == restOrigins[j];
        if s2[j] != Frame(root, prefix) {
          PushedMono(g, matches, expanded, e2, s2[j], o2[j]);
        }
      } else {
        var k := j - |rest|;
        assert s2[j] == pushed[k] && o2[j] == (top.obj, via[k]);
        assert g[top.obj][via[k]].1.Ref?;
      }
    }
  }

  /** The rank of a newly expanded object: one more than its parent's, or 0 for the root. */
  function NextRank(rank: map<nat, nat>, root: nat, o: nat, origin: (nat, nat)): (r: map<nat, nat>)
    ensures r.Keys == rank.Keys + {o} && o in r
    ensures o != root && origin.0 in rank ==> r[o] == rank[origin.0] + 1
  {
    rank[o := if o != root && origin.0 in rank then rank[origin.0] + 1 else 0]
  }

  /** The parent facts of one object after `top` is expanded. */
  ghost predicate ParentOk(g: Graph, matches: Value -> bool, expanded: map<nat, string>,
                           parent: map<nat, (nat, nat)>, rank: map<nat, nat>, o: nat) {
    o in expanded && o in parent && Pushed(g, matches, expanded, Frame(o, expanded[o]), parent[o]) &&
    o in rank && parent[o].0 in rank && rank[parent[o].0] < rank[o]
  }

  /** The newly expanded object hangs off the object whose entry pushed it. */
  lemma {:induction false} TopParentOk(g: Graph, matches: Value -> bool, expanded: map<nat, string>, root: nat,
                                       parent: map<nat, (nat, nat)>, rank: map<nat, nat>, top: Frame, origin: (nat, nat))
    requires top.obj !in expanded && top.obj != root && rank.Keys == expanded.Keys
    requires Pushed(g, matches, expanded, top, origin)
    ensures ParentOk(g, matches, expanded[top.obj := top.prefix], parent[top.obj := origin],
                     NextRank(rank, root, top.obj, origin), top.obj)
  {
    var e2 := expanded[top.obj := top.prefix];
    var r2 := NextRank(rank, root, top.obj, origin);
    PushedMono(g, matches, expanded, e2, top, origin);
    assert origin.0 in rank && origin.0 != top.obj;
    assert r2[top.obj] == rank[origin.0] + 1 && r2[origin.0] == rank[origin.0];
  }

  /** An object expanded earlier keeps its parent and its rank. */
  lemma {:induction false} KeptParentOk(g: Graph, matches: Value -> bool, expanded: map<nat, string>, root: nat,
                                        parent: map<nat, (nat, nat)>, rank: map<nat, nat>, top: Frame, origin: (nat, nat),
                                        p2: map<nat, (nat, nat)>, o: nat)
    requires top.obj !in expanded && rank.Keys == expanded.Keys
    requires ParentOk(g, matches, expanded, parent, rank, o)
    requires o in p2 && p2[o] == parent[o]
    ensures ParentOk(g, matches, expanded[top.obj := top.prefix], p2, NextRank(rank, root, top.obj, origin), o)
  {
    var e2 := expanded[top.obj := top.prefix];
    var r2 := NextRank(rank, root, top.obj, origin);
    PushedMono(g, matches, expanded, e2, Frame(o, expanded[o]), parent[o]);
    var q := parent[o].0;
    assert q in rank && q != top.obj && o != top.obj;
    assert r2[o] == rank[o] && r2[q] == rank[q];
  }

  lemma {:induction false} ExpandParents(g: Graph, matches: Value -> bool, expanded: map<nat, string>, root: nat, prefix: string,
                                         parent: map<nat, (nat, nat)>, rank: map<nat, nat>, top: Frame, origin: (nat, nat))
    requires top.obj !in expanded && rank.Keys == expanded.Keys
    requires ParentsOk(g, matches, expanded, root, parent, rank)
    requires top == Frame(root, prefix) || Pushed(g, matches, expanded, top, origin)
    requires top.obj == root ==> top == Frame(root, prefix)
    ensures ParentsOk(g, matches, expanded[top.obj := top.prefix], root,
                      if top.obj != root then parent[top.obj := origin] else parent, NextRank(rank, root, top.obj, origin))
  {
    var e2 := expanded[top.obj := top.prefix];
    var p2 := if top.obj != root then parent[top.obj := origin] else parent;
    var r2 := NextRank(rank, root, top.obj, origin);
    forall o | o in e2 && o != root
      ensures o in p2 && Pushed(g, matches, e2, Frame(o, e2[o]), p2[o]) &&
        o in r2 && p2[o].0 in r2 && r2[p2[o].0] < r2[o]
    {
      if o == top.obj {
        TopParentOk(g, matches, expanded, root, parent, rank, top, origin);
      } else {
        assert ParentOk(g, matches, expanded, parent, rank, o);
        KeptParentOk(g, matches, expanded, root, parent, rank, top, origin, p2, o);
      }
      assert ParentOk(g, matches, e2, p2, r2, o);
    }
  }

  lemma {:induction false} ExpandAccepted(g: Graph, expanded: map<nat, string>, matches: Value -> bool, result: Entries, top: Frame)
    requires top.obj in g && top.obj !in expanded
    requires AcceptedIn(g, expanded, matches, result)
    ensures AcceptedIn(g, expanded[top.obj := top.prefix], matches, PutMatches(result, g[top.obj], top.prefix, matches))
  {
  }

  lemma {:induction false} ExpandSound(g: Graph, expanded: map<nat, string>, matches: Value -> bool, result: Entries, top: Frame)
    requires top.obj in g && top.obj !in expanded
    requires SoundIn(g, expanded, matches, result)
    ensures SoundIn(g, expanded[top.obj := top.prefix], matches, PutMatches(result, g[top.obj], top.prefix, matches))
  {
    var e2 := expanded[top.obj := top.prefix];
    var res := PutMatches(result, g[top.obj], top.prefix, matches);
    PutMatchesSound(result, g[top.obj], top.prefix, matches);
    forall x | x in res
      ensures exists o, i :: o in e2 && o in g && 0 <= i < |g[o]| && matches(g[o][i].1) && x == Stored(e2[o], g[o][i])
    {
      if x in result {
        var o, i :| o in expanded && o in g && 0 <= i < |g[o]| && matches(g[o][i].1) && x == Stored(expanded[o], g[o][i]);
        assert e2[o] == expanded[o];
      } else {
        var i :| 0 <= i < |g[top.obj]| && matches(g[top.obj][i].1) && x == Stored(top.prefix, g[top.obj][i]);
        assert e2[top.obj] == top.prefix;
      }
    }
  }

  lemma {:induction false} ExpandRejected(g: Graph, expanded: map<nat, string>, matches: Value -> bool,
                                          stack: seq<Frame>, pushed: seq<Frame>)
    requires |stack| > 0 && stack[|stack| - 1].obj in g
    requires RejectedCovered(g, expanded, matches, stack)
    requires var o := stack[|stack| - 1].obj;
      Covered(g[o], |g[o]|, matches, Objs(pushed))
    ensures RejectedCovered(g, expanded[stack[|stack| - 1].obj := stack[|stack| - 1].prefix], matches,
                            stack[..|stack| - 1] + pushed)
  {
    var top := stack[|stack| - 1];
    var rest := stack[..|stack| - 1];
    var e2 := expanded[top.obj := top.prefix];
    assert Objs(stack) == Objs(rest) + [top.obj];
    ObjsAppend(rest, pushed);
    forall o, i | o in e2 && o in g && 0 <= i < |g[o]| && g[o][i].1.Ref? && !matches(g[o][i].1)
      ensures g[o][i].1.o in e2 || g[o][i].1.o in Objs(rest + pushed)
    {
      if o == top.obj {
        assert g[o][i].1.o in Objs(pushed);
      } else {
        assert g[o][i].1.o in expanded || g[o][i].1.o in Objs(stack);
      }
    }
  }

  /** What holds of the traversal's state before each step. */
  ghost predicate FlattenInv(g: Graph, root: nat, prefix: string, matches: Value -> bool, visited: set<nat>,
                             expanded: map<nat, string>, parent: map<nat, (nat, nat)>, rank: map<nat, nat>,
                             stack: seq<Frame>, origins: seq<(nat, nat)>, result: Entries) {
    TraversalOk(g, root, prefix, matches, visited, expanded, parent, rank, stack, origins) &&
    RecordOk(g, expanded, matches, result)
  }

  /** The visited set, the stack and the ghost bookkeeping of expanded objects agree. */
  ghost predicate TraversalOk(g: Graph, root: nat, prefix: string, matches: Value -> bool, visited: set<nat>,
                              expanded: map<nat, string>, parent: map<nat, (nat, nat)>, rank: map<nat, nat>,
                              stack: seq<Frame>, origins: seq<(nat, nat)>) {
    Closed(g) && root in g &&
    visited == expanded.Keys && visited <= g.Keys &&
    rank.Keys == visited &&
    ((expanded == map[] && stack == [Frame(root, prefix)]) || (root in expanded && expanded[root] == prefix)) &&
    StackOk(g, matches, expanded, root, prefix, stack, origins) &&
    ParentsOk(g, matches, expanded, root, parent, rank) &&
    RejectedCovered(g, expanded, matches, stack)
  }

  /** The record holds exactly the accepted entries of the expanded objects, each path once. */
  ghost predicate RecordOk(g: Graph, expanded: map<nat, string>, matches: Value -> bool, result: Entries) {
    AcceptedIn(g, expanded, matches, result) && SoundIn(g, expanded, matches, result) && Unique(result)
  }

  /** Popping a frame whose object was already expanded keeps the invariant. */
  lemma {:induction false} PopStep(g: Graph, root: nat, prefix: string, matches: Value -> bool, visited: set<nat>,
                                   expanded: map<nat, string>, parent: map<nat, (nat, nat)>, rank: map<nat, nat>,
                                   stack: seq<Frame>, origins: seq<(nat, nat)>, result: Entries)
    requires FlattenInv(g, root, prefix, matches, visited, expanded, parent, rank, stack, origins, result)
    requires |stack| > 0 && stack[|stack| - 1].obj in visited
    ensures FlattenInv(g, root, prefix, matches, visited, expanded, parent, rank, stack[..|stack| - 1], origins[..|origins| - 1], result)
  {
    PopVisited(g, matches, expanded, root, prefix, stack, origins);
  }

  /** Expanding the top frame's object keeps the traversal's bookkeeping. */
  lemma {:induction false} ExpandTraversal(g: Graph, root: nat, prefix: string, matches: Value -> bool, visited: set<nat>,
                                           expanded: map<nat, string>, parent: map<nat, (nat, nat)>, rank: map<nat, nat>,
                                           stack: seq<Frame>, origins: seq<(nat, nat)>, pushed: seq<Frame>, via: seq<nat>)
    requires TraversalOk(g, root, prefix, matches, visited, expanded, parent, rank, stack, origins)
    requires |stack| > 0 && stack[|stack| - 1].obj !in visited
    requires var top := stack[|stack| - 1];
      top.obj in g &&
      PushedFrom(g[top.obj], |g[top.obj]|, top.prefix, matches, pushed, via) &&
      Covered(g[top.obj], |g[top.obj]|, matches, Objs(pushed))
    ensures var top := stack[|stack| - 1];
      TraversalOk(g, root, prefix, matches, visited + {top.obj}, expanded[top.obj := top.prefix],
                  if top.obj != root then parent[top.obj := origins[|origins| - 1]] else parent,
                  NextRank(rank, root, top.obj, origins[|origins| - 1]),
                  stack[..|stack| - 1] + pushed, origins[..|origins| - 1] + Origins(top.obj, via))
  {
    var top := stack[|stack| - 1];
    var origin := origins[|origins| - 1];
    var rest := stack[..|stack| - 1];
    var restOrigins := origins[..|origins| - 1];
    var e2 := expanded[top.obj := top.prefix];
    assert StackOk(g, matches, e2, root, prefix, rest + pushed, restOrigins + Origins(top.obj, via)) by {
      assert StackOk(g, matches, expanded, root, prefix, rest, restOrigins);
      ExpandStack(g, matches, expanded, root, prefix, rest, restOrigins, top, pushed, via);
    }
    assert ParentsOk(g, matches, e2, root, if top.obj != root then parent[top.obj := origin] else parent,
                     NextRank(rank, root, top.obj, origin)) by {
      assert top == Frame(root, prefix) || Pushed(g, matches, expanded, top, origin);
      ExpandParents(g, matches, expanded, root, prefix, parent, rank, top, origin);
    }
    assert RejectedCovered(g, e2, matches, rest + pushed) by {
      ExpandRejected(g, expanded, matches, stack, pushed);
    }
  }

  /** Storing the accepted entries of a newly expanded object keeps the record exact. */
  lemma {:induction false} ExpandRecord(g: Graph, expanded: map<nat, string>, matches: Value -> bool, result: Entries, top: Frame)
    requires top.obj in g && top.obj !in expanded
    requires RecordOk(g, expanded, matches, result)
    ensures RecordOk(g, expanded[top.obj := top.prefix], matches, PutMatches(result, g[top.obj], top.prefix, matches))
  {
    ExpandAccepted(g, expanded, matches, result, top);
    ExpandSound(g, expanded, matches, result, top);
  }

  /** Expanding the top frame's object keeps the invariant. */
  lemma {:induction false} ExpandStep(g: Graph, root: nat, prefix: string, matches: Value -> bool, visited: set<nat>,
                                      expanded: map<nat, string>, parent: map<nat, (nat, nat)>, rank: map<nat, nat>,
                                      stack: seq<Frame>, origins: seq<(nat, nat)>, result: Entries,
                                      res: Entries, pushed: seq<Frame>, via: seq<nat>)
    requires FlattenInv(g, root, prefix, matches, visited, expanded, parent, rank, stack, origins, result)
    requires |stack| > 0 && stack[|stack| - 1].obj !in visited
    requires var top := stack[|stack| - 1];
      top.obj in g &&
      res == PutMatches(result, g[top.obj], top.prefix, matches) &&
      PushedFrom(g[top.obj], |g[top.obj]|, top.prefix, matches, pushed, via) &&
      Covered(g[top.obj], |g[top.obj]|, matches, Objs(pushed))
    ensures var top := stack[|stack| - 1];
      top.obj in g &&
      FlattenInv(g, root, prefix, matches, visited + {top.obj}, expanded[top.obj := top.prefix],
                 if top.obj != root then parent[top.obj := origins[|origins| - 1]] else parent,
                 NextRank(rank, root, top.obj, origins[|origins| - 1]),
                 stack[..|stack| - 1] + pushed, origins[..|origins| - 1] + Origins(top.obj, via), res)
  {
    ExpandTraversal(g, root, prefix, matches, visited, expanded, parent, rank, stack, origins, pushed, via);
    ExpandRecord(g, expanded, matches, result, stack[|stack| - 1]);
  }

  /** Visiting one more object of the graph leaves fewer to visit. */
  lemma {:induction false} VisitShrinks(objs: set<nat>, visited: set<nat>, o: nat)
    requires o in objs && o !in visited
    ensures |objs - (visited + {o})| < |objs - visited|
  {
    assert objs - (visited + {o}) == (objs - visited) - {o};
  }

  /** One step of `flattenObject` on a frame whose object is not expanded yet: its entries are stored or pushed. */
  method ExpandTop(g: Graph, root: nat, prefix: string, matches: Value -> bool, visited: set<nat>,
                   ghost expanded: map<nat, string>, ghost parent: map<nat, (nat, nat)>, ghost rank: map<nat, nat>,
                   stack: seq<Frame>, ghost origins: seq<(nat, nat)>, result: Entries)
      returns (visited': set<nat>, ghost expanded': map<nat, string>, ghost parent': map<nat, (nat, nat)>,
               ghost rank': map<nat, nat>, stack': seq<Frame>, ghost origins': seq<(nat, nat)>, result': Entries)
    requires FlattenInv(g, root, prefix, matches, visited, expanded, parent, rank, stack, origins, result)
    requires |stack| > 0 && stack[|stack| - 1].obj !in visited
    ensures FlattenInv(g, root, prefix, matches, visited', expanded', parent', rank', stack', origins', result')
    ensures |g.Keys - visited'| < |g.Keys - visited|
  {
    var top := stack[|stack| - 1];
    var o := top.obj;
    assert o in g;
    var res, pushed, via := ExpandEntries(g[o], top.prefix, matches, result);
    ExpandStep(g, root, prefix, matches, visited, expanded, parent, rank, stack, origins, result, res, pushed, via);
    rank' := NextRank(rank, root, o, origins[|origins| - 1]);
    visited' := visited + {o};
    expanded' := expanded[o := top.prefix];
    parent' := if o != root then parent[o := origins[|origins| - 1]] else parent;
    result' := res;
    stack' := stack[..|stack| - 1] + pushed;
    origins' := origins[..|origins| - 1] + Origins(o, via);
    VisitShrinks(g.Keys, visited, o);
  }

  /**
   * What `flattenObject(root, matches, prefix)` returns, given the path
   * each expanded object was expanded under (`expanded`), the entry through
   * which each object other than the root was reached (`parent`), and the
   * order of expansion (`rank`).
   */
  /**
   * An expanded object's path is its parent's path followed by the key of the
   * rejected entry that leads to it; parents have a smaller rank, so every
   * chain of parents ends at the root.
   */
  ghost predicate ParentsBefore(g: Graph, matches: Value -> bool, root: nat, expanded: map<nat, string>,
                                parent: map<nat, (nat, nat)>, rank: map<nat, nat>) {
    rank.Keys == expanded.Keys &&
    forall o {:trigger parent[o]} :: o in expanded && o != root ==>
      o in parent && Pushed(g, matches, expanded, Frame(o, expanded[o]), parent[o]) && rank[parent[o].0] < rank[o]
  }

  /** Every object a rejected reference of an expanded object leads to is expanded. */
  ghost predicate ClosedUnder(g: Graph, matches: Value -> bool, expanded: map<nat, string>) {
    forall o, i :: o in expanded && o in g && 0 <= i < |g[o]| && g[o][i].1.Ref? && !matches(g[o][i].1) ==>
      g[o][i].1.o in expanded
  }

  ghost predicate Flattened(g: Graph, root: nat, matches: Value -> bool, prefix: string, result: Entries,
                            expanded: map<nat, string>, parent: map<nat, (nat, nat)>, rank: map<nat, nat>) {
    // the root is expanded under the prefix, and only objects of the graph are
    root in expanded && expanded[root] == prefix && expanded.Keys <= g.Keys &&
    // an object's path is its parent's path followed by the rejected entry's key that leads to it;
    // parents come first, so every chain of parents ends at the root
    ParentsBefore(g, matches, root, expanded, parent, rank) &&
    // every object a rejected reference of an expanded object leads to is expanded
    ClosedUnder(g, matches, expanded) &&
    // complete: every accepted entry of an expanded object has its path in the result
    (forall o, i :: o in expanded && 0 <= i < |g[o]| && matches(g[o][i].1) ==>
      Path(expanded[o], g[o][i].0) in Keys(result)) &&
    // sound: every stored pair is an accepted entry of an expanded object, under its path
    (forall x :: x in result ==> exists o, i ::
      o in expanded && 0 <= i < |g[o]| && matches(g[o][i].1) && x == Stored(expanded[o], g[o][i])) &&
    Unique(result)
  }

  /** `o` is the root or is reached from it in at most `n` steps, each through a rejected reference. */
  ghost predicate Reaches(g: Graph, matches: Value -> bool, root: nat, o: nat, n: nat)
    decreases n
  {
    o == root ||
    (n > 0 && exists p, i :: p in g && 0 <= i < |g[p]| && g[p][i].1 == Ref(o) && !matches(g[p][i].1) &&
                             Reaches(g, matches, root, p, n - 1))
  }

  lemma {:induction false} ReachesMono(g: Graph, matches: Value -> bool, root: nat, o: nat, n: nat, m: nat)
    requires n <= m && Reaches(g, matches, root, o, n)
    ensures Reaches(g, matches, root, o, m)
    decreases n
  {
    if o != root {
      var p, i :| p in g && 0 <= i < |g[p]| && g[p][i].1 == Ref(o) && !matches(g[p][i].1) &&
                  Reaches(g, matches, root, p, n - 1);
      ReachesMono(g, matches, root, p, n - 1, m - 1);
    }
  }

  lemma {:induction false} ParentOf(g: Graph, matches: Value -> bool, root: nat, expanded: map<nat, string>,
                                    parent: map<nat, (nat, nat)>, rank: map<nat, nat>, o: nat)
    requires ParentsBefore(g, matches, root, expanded, parent, rank)
    requires o in expanded && o != root
    ensures o in parent && Pushed(g, matches, expanded, Frame(o, expanded[o]), parent[o])
    ensures parent[o].0 in expanded && rank[parent[o].0] < rank[o]
  {
  }

  /** Every expanded object is reachable from the root: its chain of parents ends there. */
  lemma {:induction false} ExpandedReachable(g: Graph, matches: Value -> bool, root: nat, expanded: map<nat, string>,
                                             parent: map<nat, (nat, nat)>, rank: map<nat, nat>, o: nat)
    requires ParentsBefore(g, matches, root, expanded, parent, rank)
    requires o in expanded
    ensures Reaches(g, matches, root, o, rank[o])
    decreases rank[o]
  {
    if o != root {
      ParentOf(g, matches, root, expanded, parent, rank, o);
      var (p, i) := parent[o];
      assert p in expanded && rank[p] < rank[o];
      ExpandedReachable(g, matches, root, expanded, parent, rank, p);
      ReachesMono(g, matches, root, p, rank[p], rank[o] - 1);
      assert p in g && i < |g[p]| && g[p][i].1 == Ref(o) && !matches(g[p][i].1);
    }
  }

  /** Every object reachable from the root is expanded. */
  lemma {:induction false} ReachableExpanded(g: Graph, matches: Value -> bool, root: nat, expanded: map<nat, string>,
                                             o: nat, n: nat)
    requires root in expanded && ClosedUnder(g, matches, expanded)
    requires Reaches(g, matches, root, o, n)
    ensures o in expanded
    decreases n
  {
    if o != root {
      var p, i :| p in g && 0 <= i < |g[p]| && g[p][i].1 == Ref(o) && !matches(g[p][i].1) &&
                  Reaches(g, matches, root, p, n - 1);
      ReachableExpanded(g, matches, root, expanded, p, n - 1);
    }
  }

  /**
   * The objects `flattenObject` expands are exactly those reachable from the
   * root through references the predicate rejects; so the result holds the
   * accepted entries of exactly those objects.
   */
  lemma {:induction false} ExpandedIffReachable(g: Graph, root: nat, matches: Value -> bool, prefix: string, result: Entries,
                                                expanded: map<nat, string>, parent: map<nat, (nat, nat)>, rank: map<nat, nat>, o: nat)
    requires Flattened(g, root, matches, prefix, result, expanded, parent, rank)
    ensures o in expanded <==> exists n :: Reaches(g, matches, root, o, n)
  {
    if o in expanded {
      ExpandedReachable(g, matches, root, expanded, parent, rank, o);
      assert Reaches(g, matches, root, o, rank[o]);
    }
    if n :| Reaches(g, matches, root, o, n) {
      ReachableExpanded(g, matches, root, expanded, o, n);
    }
  }

  /** With the stack empty, the invariant gives the traversal's results. */
  lemma {:induction false} FlattenDone(g: Graph, root: nat, prefix: string, matches: Value -> bool, visited: set<nat>,
                                       expanded: map<nat, string>, parent: map<nat, (nat, nat)>, rank: map<nat, nat>,
                                       stack: seq<Frame>, origins: seq<(nat, nat)>, result: Entries)
    requires FlattenInv(g, root, prefix, matches, visited, expanded, parent, rank, stack, origins, result)
    requires stack == []
    ensures Flattened(g, root, matches, prefix, result, expanded, parent, rank)
  {
    forall o | o in expanded && o != root
      ensures o in parent && Pushed(g, matches, expanded, Frame(o, expanded[o]), parent[o]) &&
        rank[parent[o].0] < rank[o]
    {
      ParentOfOk(g, matches, expanded, root, parent, rank, o);
    }
    assert ClosedUnder(g, matches, expanded);
  }

  /** `flattenObject(o, comparisonFn, prefix)`: the record `Flattened` describes. */
  method FlattenObject(g: Graph, root: nat, matches: Value -> bool, prefix: string)
      returns (result: Entries, ghost expanded: map<nat, string>, ghost parent: map<nat, (nat, nat)>, ghost rank: map<nat, nat>)
    requires Closed(g) && root in g
    ensures Flattened(g, root, matches, prefix, result, expanded, parent, rank)
  {
    result := [];
    expanded := map[];
    parent := map[];
    rank := map[];
    var stack := [Frame(root, prefix)];
    var visited: set<nat> := {};
    ghost var origins: seq<(nat, nat)> := [(0, 0)];
    while |stack| > 0
      invariant FlattenInv(g, root, prefix, matches, visited, expanded, parent, rank, stack, origins, result)
      decreases |g.Keys - visited|, |stack|
    {
      if stack[|stack| - 1].obj in visited {
        PopStep(g, root, prefix, matches, visited, expanded, parent, rank, stack, origins, result);
        stack := stack[..|stack| - 1];
        origins := origins[..|origins| - 1];
      } else {
        visited, expanded, parent, rank, stack, origins, result :=
          ExpandTop(g, root, prefix, matches, visited, expanded, parent, rank, stack, origins, result);
      }
    }
    FlattenDone(g, root, prefix, matches, visited, expanded, parent, rank, stack, origins, result);
  }

  /** `value instanceof ActionDef` */
  predicate IsActionDef(v: Value) {
    v.Def?
  }

  /** `typeof value === 'function'` */
  predicate IsHandler(v: Value) {
    v.Prim? && v.p.Fn?
  }

  /** `flattenActionGroup`: `flattenObject` keeping only action definitions. */
  method FlattenActionGroup(g: Graph, root: nat)
      returns (result: Entries, ghost expanded: map<nat, string>, ghost parent: map<nat, (nat, nat)>, ghost rank: map<nat, nat>)
    requires Closed(g) && root in g
    ensures Flattened(g, root, IsActionDef, "", result, expanded, parent, rank)
    ensures forall x :: x in result ==> x.1.Def?
  {
    result, expanded, parent, rank := FlattenObject(g, root, IsActionDef, "");
  }

  /** `flattenActionHandlers`: `flattenObject` keeping only functions. */
  method FlattenActionHandlers(g: Graph, root: nat)
      returns (result: Entries, ghost expanded: map<nat, string>, ghost parent: map<nat, (nat, nat)>, ghost rank: map<nat, nat>)
    requires Closed(g) && root in g
    ensures Flattened(g, root, IsHandler, "", result, expanded, parent, rank)
    ensures forall x :: x in result ==> x.1.Prim? && x.1.p.Fn?
  {
    result, expanded, parent, rank := FlattenObject(g, root, IsHandler, "");
  }
}
