/**
 The layering check: an import graph over dotted module names, its closure from a set of roots, and
 the rules that forbid imports between layers except for a list of known ones.
 Parsing the sources into the `hard` and `lazy` import edges is not part of this model.
 */
module Layering {
  type Name = string
  type Graph<N> = map<N, set<N>>
  type Edges = Graph<Name>

  const PKG := "jiuwenswarm"

  const ALLOWED_CROSS_LAYER_PREFIXES: seq<Name> := [
    "gateway.common",
    "gateway.extensions.registry",
    "gateway.extensions.manager",
    "gateway.extensions.loader",
    "gateway.extensions.base_crypto",
    "gateway.extensions.sdk",
    "gateway.auth"
  ]

  /** `edges.get(m, ())` */
  function Targets<N>(edges: Graph<N>, m: N): set<N> {
    if m in edges then edges[m] else {}
  }

  // ---------------------------------------------------------------------------
  // Parent packages
  // ---------------------------------------------------------------------------

  /** `name.split(".")` */
  function Split(name: Name): (parts: seq<string>)
    ensures parts != []
  {
    if name == "" then [""]
    else
      var parts := Split(name[1..]);
      if name[0] == '.' then [""] + parts else [[name[0]] + parts[0]] + parts[1..]
  }

  /** `".".join(parts)` */
  function Join(parts: seq<string>): Name {
    if parts == [] then ""
    else if |parts| == 1 then parts[0]
    else parts[0] + "." + Join(parts[1..])
  }

  function ParentChain(m: Name, modules: set<Name>): set<Name> {
    var parts := Split(m);
    (set i | 1 <= i < |parts| :: Join(parts[..i])) * modules
  }

  /** The i-th proper join is a prefix of the name that ends before a dot. */
  lemma {:induction false} JoinIsPrefix(name: Name, i: nat) returns (j: nat)
    requires 1 <= i < |Split(name)|
    ensures j < |name| && name[j] == '.' && Join(Split(name)[..i]) == name[..j]
  {
    var tail, parts := Split(name[1..]), Split(name);
    if name[0] == '.' {
      assert parts[..i] == [""] + tail[..i - 1];
      if i == 1 {
        j := 0;
      } else {
        var k := JoinIsPrefix(name[1..], i - 1);
        j := k + 1;
        assert parts[..i][1..] == tail[..i - 1];
        assert name[..j] == "." + name[1..][..k];
      }
    } else {
      var k := JoinIsPrefix(name[1..], i);
      j := k + 1;
      JoinWithHead(name[0], tail[..i]);
      assert parts[..i] == [[name[0]] + tail[..i][0]] + tail[..i][1..];
      assert name[..j] == [name[0]] + name[1..][..k];
    }
  }

  lemma JoinWithHead(c: char, parts: seq<string>)
    requires parts != []
    ensures Join([[c] + parts[0]] + parts[1..]) == [c] + Join(parts)
  {
    assert ([[c] + parts[0]] + parts[1..])[1..] == parts[1..];
  }

  /** Every prefix that ends before a dot is such a join. */
  lemma {:induction false} PrefixIsJoin(name: Name, j: nat) returns (i: nat)
    requires j < |name| && name[j] == '.'
    ensures 1 <= i < |Split(name)| && Join(Split(name)[..i]) == name[..j]
  {
    var tail, parts := Split(name[1..]), Split(name);
    if j == 0 {
      i := 1;
      assert parts[..1] == [""];
    } else {
      var k := PrefixIsJoin(name[1..], j - 1);
      if name[0] == '.' {
        i := k + 1;
        assert parts[..i] == [""] + tail[..k];
        assert parts[..i][1..] == tail[..k];
        assert name[..j] == "." + name[1..][..j - 1];
      } else {
        i := k;
        JoinWithHead(name[0], tail[..i]);
        assert parts[..i] == [[name[0]] + tail[..i][0]] + tail[..i][1..];
        assert name[..j] == [name[0]] + name[1..][..j - 1];
      }
    }
  }

  /** The parent chain of a module: the modules whose name, followed by a dot, starts its name. */
  lemma ParentChainIsDottedPrefixes(m: Name, modules: set<Name>)
    ensures forall p :: p in ParentChain(m, modules) <==> p in modules && p + "." <= m
  {
    forall p | p in ParentChain(m, modules) ensures p in modules && p + "." <= m {
      var i :| 1 <= i < |Split(m)| && p == Join(Split(m)[..i]);
      var j := JoinIsPrefix(m, i);
    }
    forall p | p in modules && p + "." <= m ensures p in ParentChain(m, modules) {
      assert m[..|p + "."|] == p + ".";
      assert m[|p|] == '.' && m[..|p|] == p;
      var i := PrefixIsJoin(m, |p|);
    }
  }

  /** `edges` is `base` with the parent packages added for the modules in `done`, and nothing else. */
  ghost predicate ParentsAdded(edges: Edges, base: Edges, modules: set<Name>, done: set<Name>) {
    forall m :: Targets(edges, m) == if m in done then Targets(base, m) + ParentChain(m, modules) else Targets(base, m)
  }

  lemma AddParents(edges: Edges, base: Edges, modules: set<Name>, done: set<Name>, m: Name)
    requires ParentsAdded(edges, base, modules, done) && m !in done
    ensures ParentsAdded(edges[m := Targets(edges, m) + ParentChain(m, modules)], base, modules, done + {m})
  {
    assert Targets(edges, m) == Targets(base, m);
    var edges' := edges[m := Targets(edges, m) + ParentChain(m, modules)];
    forall x ensures Targets(edges', x) ==
                     if x in done + {m} then Targets(base, x) + ParentChain(x, modules) else Targets(base, x)
    {
      if x != m { assert Targets(edges', x) == Targets(edges, x); }
    }
  }

  function Union(hard: Edges, lazy: Edges): (full: Edges)
    ensures forall m :: Targets(full, m) == Targets(hard, m) + Targets(lazy, m)
  {
    map m | m in hard.Keys + lazy.Keys :: Targets(hard, m) + Targets(lazy, m)
  }

  /** `_build`, after parsing: parents join both edge sets, and `full` is hard, lazy and parents. */
  method Build(modules: set<Name>, hard: Edges, lazy: Edges) returns (hard': Edges, full: Edges)
    ensures ParentsAdded(hard', hard, modules, modules)
    ensures ParentsAdded(full, Union(hard, lazy), modules, modules)
  {
    hard', full := hard, Union(hard, lazy);
    var todo := modules;
    while todo != {}
      invariant todo <= modules
      invariant ParentsAdded(hard', hard, modules, modules - todo)
      invariant ParentsAdded(full, Union(hard, lazy), modules, modules - todo)
    {
      var m :| m in todo;
      AddParents(full, Union(hard, lazy), modules, modules - todo, m);
      AddParents(hard', hard, modules, modules - todo, m);
      assert modules - todo + {m} == modules - (todo - {m});
      full := full[m := Targets(full, m) + ParentChain(m, modules)];
      hard' := hard'[m := Targets(hard', m) + ParentChain(m, modules)];
      todo := todo - {m};
    }
    assert modules - todo == modules;
  }

  // ---------------------------------------------------------------------------
  // Closure
  // ---------------------------------------------------------------------------

  /** `path` walks from a root along edges whose targets are modules. */
  ghost predicate IsPath<N(!new)>(path: seq<N>, roots: set<N>, edges: Graph<N>, modules: set<N>) {
    && path != [] && path[0] in roots
    && forall i | 0 < i < |path| :: path[i] in Targets(edges, path[i - 1]) && path[i] in modules
  }

  ghost predicate Reachable<N(!new)>(m: N, roots: set<N>, edges: Graph<N>, modules: set<N>) {
    exists path :: IsPath(path, roots, edges, modules) && path[|path| - 1] == m
  }

  lemma RootReachable<N(!new)>(m: N, roots: set<N>, edges: Graph<N>, modules: set<N>)
    requires m in roots
    ensures Reachable(m, roots, edges, modules)
  {
    assert IsPath([m], roots, edges, modules);
  }

  lemma StepReachable<N(!new)>(m: N, e: N, roots: set<N>, edges: Graph<N>, modules: set<N>)
    requires Reachable(m, roots, edges, modules) && e in Targets(edges, m) && e in modules
    ensures Reachable(e, roots, edges, modules)
  {
    var path :| IsPath(path, roots, edges, modules) && path[|path| - 1] == m;
    assert IsPath(path + [e], roots, edges, modules);
  }

  ghost predicate Closed<N>(seen: set<N>, edges: Graph<N>, modules: set<N>) {
    forall m | m in seen :: Targets(edges, m) * modules <= seen
  }

  /** A closed set that holds the roots holds every path. */
  lemma {:induction false} ClosedHoldsPath<N(!new)>(
      path: seq<N>, i: nat, seen: set<N>, roots: set<N>, edges: Graph<N>, modules: set<N>)
    requires IsPath(path, roots, edges, modules) && i < |path|
    requires roots <= seen && Closed(seen, edges, modules)
    ensures path[i] in seen
  {
    if i > 0 {
      ClosedHoldsPath(path, i - 1, seen, roots, edges, modules);
      assert path[i] in Targets(edges, path[i - 1]) * modules;
    }
  }

  /** Some list of the elements of a set. */
  method Listed<N(==,!new)>(s: set<N>) returns (list: seq<N>)
    ensures forall x :: x in list <==> x in s
  {
    list := [];
    var todo := s;
    while todo != {}
      invariant todo <= s
      invariant forall x :: x in list <==> x in s - todo
    {
      var x :| x in todo;
      list, todo := list + [x], todo - {x};
    }
  }

  /** Everything seen or queued is reachable, and whatever is one step from `seen` is seen or queued. */
  ghost predicate Frontier<N(!new)>(seen: set<N>, queue: seq<N>, roots: set<N>, edges: Graph<N>, modules: set<N>) {
    && seen <= roots + modules
    && (forall m | m in queue :: m in roots + modules)
    && (forall m | m in queue || m in seen :: Reachable(m, roots, edges, modules))
    && (forall m | m in roots :: m in seen || m in queue)
    && (forall m, e | m in seen && e in Targets(edges, m) && e in modules :: e in seen || e in queue)
  }

  lemma FrontierSkips<N(!new)>(seen: set<N>, queue: seq<N>, roots: set<N>, edges: Graph<N>, modules: set<N>)
    requires Frontier(seen, queue, roots, edges, modules) && queue != [] && queue[0] in seen
    ensures Frontier(seen, queue[1..], roots, edges, modules)
  {
    assert forall x | x in queue :: x == queue[0] || x in queue[1..];
  }

  lemma FrontierGrows<N(!new)>(
      seen: set<N>, queue: seq<N>, more: seq<N>, roots: set<N>, edges: Graph<N>, modules: set<N>)
    requires Frontier(seen, queue, roots, edges, modules) && queue != []
    requires forall e :: e in more <==> e in Targets(edges, queue[0]) && e !in seen + {queue[0]} && e in modules
    ensures Frontier(seen + {queue[0]}, queue[1..] + more, roots, edges, modules)
  {
    var m := queue[0];
    assert m in queue;
    assert forall x | x in queue :: x == m || x in queue[1..];
    forall e | e in more ensures Reachable(e, roots, edges, modules) {
      StepReachable(m, e, roots, edges, modules);
    }
  }

  /** With nothing queued, what was seen is exactly what is reachable. */
  lemma FrontierDone<N(!new)>(seen: set<N>, roots: set<N>, edges: Graph<N>, modules: set<N>)
    requires Frontier(seen, [], roots, edges, modules)
    ensures forall m :: m in seen <==> Reachable(m, roots, edges, modules)
  {
    assert Closed(seen, edges, modules);
    forall m | Reachable(m, roots, edges, modules) ensures m in seen {
      var path :| IsPath(path, roots, edges, modules) && path[|path| - 1] == m;
      ClosedHoldsPath(path, |path| - 1, seen, roots, edges, modules);
    }
  }

  /** `ImportGraph.closure`: a work list that may hold a module several times. */
  method Closure<N(==,!new)>(modules: set<N>, roots: set<N>, edges: Graph<N>) returns (seen: set<N>)
    ensures forall m :: m in seen <==> Reachable(m, roots, edges, modules)
  {
    seen := {};
    var queue := Listed(roots);
    forall m | m in queue ensures Reachable(m, roots, edges, modules) { RootReachable(m, roots, edges, modules); }
    while queue != []
      invariant Frontier(seen, queue, roots, edges, modules)
      decreases (roots + modules) - seen, |queue|
    {
      var m := queue[0];
      if m in seen {
        FrontierSkips(seen, queue, roots, edges, modules);
        queue := queue[1..];
      } else {
        var more := Listed(set e | e in Targets(edges, m) && e !in seen + {m} && e in modules);
        FrontierGrows(seen, queue, more, roots, edges, modules);
        assert m in queue && m in (roots + modules) - seen;
        seen := seen + {m};
        queue := queue[1..] + more;
      }
    }
    FrontierDone(seen, roots, edges, modules);
  }

  /** A closure along edges built by `Build` brings in every parent package of what it reaches. */
  lemma ClosureHoldsParents(m: Name, p: Name, roots: set<Name>, edges: Edges, base: Edges, modules: set<Name>)
    requires ParentsAdded(edges, base, modules, modules)
    requires Reachable(m, roots, edges, modules) && m in modules
    requires p in modules && p + "." <= m
    ensures Reachable(p, roots, edges, modules)
  {
    ParentChainIsDottedPrefixes(m, modules);
    assert p in Targets(edges, m);
    StepReachable(m, p, roots, edges, modules);
  }

  /** The closure along all imports contains the one along module-level imports. */
  lemma FullClosureContainsHard(
      m: Name, roots: set<Name>, hard: Edges, lazy: Edges, hard': Edges, full: Edges, modules: set<Name>)
    requires ParentsAdded(hard', hard, modules, modules) && ParentsAdded(full, Union(hard, lazy), modules, modules)
    requires Reachable(m, roots, hard', modules)
    ensures Reachable(m, roots, full, modules)
  {
    var path :| IsPath(path, roots, hard', modules) && path[|path| - 1] == m;
    forall i | 0 < i < |path| ensures path[i] in Targets(full, path[i - 1]) {
      assert Targets(hard', path[i - 1]) <= Targets(full, path[i - 1]);
    }
    assert IsPath(path, roots, full, modules);
  }

  // ---------------------------------------------------------------------------
  // Rules
  // ---------------------------------------------------------------------------

  datatype Rule = Rule(sourcePrefixes: seq<string>, forbidden: seq<string>, known: Edges)

  predicate StartsWithAny(name: Name, prefixes: seq<string>) {
    exists p | p in prefixes :: p <= name
  }

  /** `name` is the package `pkg` or lies inside it. */
  predicate Within(name: Name, pkg: Name) {
    pkg + "." <= name || name == pkg
  }

  predicate IsExempt(target: Name) {
    exists a | a in ALLOWED_CROSS_LAYER_PREFIXES :: Within(target, a)
  }

  predicate IsForbidden(target: Name, pkgs: seq<string>) {
    exists p | p in pkgs :: Within(target, PKG + "." + p) || Within(target, p)
  }

  /** Module `source` imports `target` against the rule. */
  predicate IsViolation(rule: Rule, modules: set<Name>, hard: Edges, lazy: Edges, source: Name, target: Name) {
    && source in modules && StartsWithAny(source, rule.sourcePrefixes)
    && target in Targets(hard, source) + Targets(lazy, source)
    && !IsExempt(target) && IsForbidden(target, rule.forbidden)
  }

  predicate IsKnown(rule: Rule, source: Name, target: Name) {
    target in Targets(rule.known, source)
  }

  ghost predicate HasNewViolation(rule: Rule, modules: set<Name>, hard: Edges, lazy: Edges) {
    exists s, t :: IsViolation(rule, modules, hard, lazy, s, t) && !IsKnown(rule, s, t)
  }

  /** The loops of `_check_rule` that collect the violations of one rule, as (source, target) pairs. */
  method CollectViolations(rule: Rule, modules: set<Name>, hard: Edges, lazy: Edges)
    returns (current: set<(Name, Name)>)
    ensures forall s, t :: (s, t) in current <==> IsViolation(rule, modules, hard, lazy, s, t)
  {
    current := {};
    var todo := modules;
    while todo != {}
      invariant todo <= modules
      invariant forall s, t :: (s, t) in current <==> s !in todo && IsViolation(rule, modules, hard, lazy, s, t)
    {
      var m :| m in todo;
      if StartsWithAny(m, rule.sourcePrefixes) {
        var found := TargetsAgainst(rule, Targets(hard, m) + Targets(lazy, m));
        current := current + set t | t in found :: (m, t);
      }
      todo := todo - {m};
    }
  }

  /** The inner loop: the targets that are forbidden and not exempt. */
  method TargetsAgainst(rule: Rule, targets: set<Name>) returns (found: set<Name>)
    ensures forall t :: t in found <==> t in targets && !IsExempt(t) && IsForbidden(t, rule.forbidden)
  {
    found := {};
    var todo := targets;
    while todo != {}
      invariant todo <= targets
      invariant forall t :: t in found <==> t in targets - todo && !IsExempt(t) && IsForbidden(t, rule.forbidden)
    {
      var t :| t in todo;
      if !IsExempt(t) && IsForbidden(t, rule.forbidden) { found := found + {t}; }
      todo := todo - {t};
    }
  }

  /** `_check_rule`: 1 exactly when some forbidden, non-exempt import is not in the known list. */
  method CheckRule(rule: Rule, modules: set<Name>, hard: Edges, lazy: Edges) returns (code: int)
    ensures code == if HasNewViolation(rule, modules, hard, lazy) then 1 else 0
  {
    var current := CollectViolations(rule, modules, hard, lazy);
    var known := set s, t | s in rule.known && t in rule.known[s] :: (s, t);
    assert forall s, t :: (s, t) in known <==> IsKnown(rule, s, t);
    assert HasNewViolation(rule, modules, hard, lazy) <==> exists s, t :: (s, t) in current - known;
    if current == {} { return 0; }
    assert current - known != {} ==> exists s, t :: (s, t) in current - known by {
      if current - known != {} {
        var pair: (Name, Name) :| pair in current - known;
        assert (pair.0, pair.1) in current - known;
      }
    }
    code := if current - known != {} then 1 else 0;
  }

  /** `run_rules`: the exit code is 1 exactly when one of the rules has a new violation. */
  method RunRules(rules: seq<Rule>, modules: set<Name>, hard: Edges, lazy: Edges) returns (code: int)
    ensures code == if exists r | r in rules :: HasNewViolation(r, modules, hard, lazy) then 1 else 0
  {
    code := 0;
    for i := 0 to |rules|
      invariant code == if exists r | r in rules[..i] :: HasNewViolation(r, modules, hard, lazy) then 1 else 0
    {
      var one := CheckRule(rules[i], modules, hard, lazy);
      if one == 1 { code := 1; }
      assert rules[..i + 1] == rules[..i] + [rules[i]];
    }
    assert rules[..|rules|] == rules;
  }
}
