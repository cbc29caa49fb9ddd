/**
 The recursive merge of a template document into a user document: template-only keys are added,
 user values win, and with `prune` user-only keys go.  It stops at a depth of 32 mappings.
 */
module TemplateMerge {
  import opened Basics
  import opened ConfigTree

  const MAX_DEPTH := 32

  predicate BothMap(a: Fields, b: Fields, k: string) {
    k in a && k in b && a[k].Mapping? && b[k].Mapping?
  }

  /** The merged document. */
  function Merge(t: Fields, u: Fields, depth: nat, prune: bool): Fields
    decreases MAX_DEPTH - depth
  {
    if depth >= MAX_DEPTH then u
    else map k | k in t.Keys + u.Keys && (prune ==> k in t) :: MergedValue(t, u, depth, prune, k)
  }

  function MergedValue(t: Fields, u: Fields, depth: nat, prune: bool, k: string): Node
    requires depth < MAX_DEPTH && (k in t || k in u)
    decreases MAX_DEPTH - depth, 0
  {
    if k !in u then t[k]
    else if BothMap(t, u, k) then Mapping(Merge(t[k].fields, u[k].fields, depth + 1, prune))
    else u[k]
  }

  // ---------------------------------------------------------------------------
  // What is counted
  // ---------------------------------------------------------------------------

  function Under(k: string, paths: set<Path>): set<Path> {
    set p | p in paths :: [k] + p
  }

  /** The topmost paths of `a` that `b` does not have, below mappings that both have, down to the depth limit. */
  function Missing(a: Fields, b: Fields, depth: nat): set<Path>
    decreases MAX_DEPTH - depth, 2
  {
    if depth >= MAX_DEPTH then {} else MissingOver(a, b, depth, a.Keys)
  }

  function MissingOver(a: Fields, b: Fields, depth: nat, keys: set<string>): set<Path>
    requires depth < MAX_DEPTH
    decreases MAX_DEPTH - depth, 1
  {
    set k, p | k in keys && p in MissingAt(a, b, depth, k) :: p
  }

  function MissingAt(a: Fields, b: Fields, depth: nat, k: string): set<Path>
    requires depth < MAX_DEPTH
    decreases MAX_DEPTH - depth, 0
  {
    if k in a && k !in b then {[k]}
    else if BothMap(a, b, k) then Under(k, Missing(a[k].fields, b[k].fields, depth + 1))
    else {}
  }

  lemma UnderMember(k: string, paths: set<Path>, p: Path)
    ensures p in Under(k, paths) <==> p != [] && p[0] == k && p[1..] in paths
  {
    if p != [] && p[0] == k { assert p == [k] + p[1..]; }
    forall q | q in paths && p == [k] + q ensures p[1..] == q { }
  }

  lemma MissingAtHead(a: Fields, b: Fields, depth: nat, k: string, p: Path)
    requires depth < MAX_DEPTH && p in MissingAt(a, b, depth, k)
    ensures p != [] && p[0] == k
  {
    if BothMap(a, b, k) { UnderMember(k, Missing(a[k].fields, b[k].fields, depth + 1), p); }
  }

  lemma MissingOverMember(a: Fields, b: Fields, depth: nat, keys: set<string>, p: Path)
    requires depth < MAX_DEPTH
    ensures p in MissingOver(a, b, depth, keys) <==> p != [] && p[0] in keys && p in MissingAt(a, b, depth, p[0])
  {
    forall k | p in MissingAt(a, b, depth, k) ensures p != [] && p[0] == k { MissingAtHead(a, b, depth, k, p); }
  }

  /** `p` names something that `a` has and `b` lacks, right below a mapping of `b`, within `limit` keys. */
  predicate LacksAt(a: Node, b: Node, limit: int, p: Path) {
    && p != [] && |p| <= limit
    && Lookup(a, p).Some? && Lookup(b, p).None?
    && HasMapping(b, p[..|p| - 1])
  }

  lemma LacksBelow(a: Fields, b: Fields, limit: int, k: string, q: Path)
    requires q != [] && k in a && k in b
    ensures LacksAt(Mapping(a), Mapping(b), limit, [k] + q) <==> LacksAt(a[k], b[k], limit - 1, q)
  {
    var p := [k] + q;
    assert p[1..] == q && p[..|p| - 1] == [k] + q[..|q| - 1];
    assert ([k] + q[..|q| - 1])[1..] == q[..|q| - 1];
  }

  /** A path is missing exactly when `a` has it, `b` has its parent as a mapping without it, and it is not too deep. */
  lemma {:induction false} MissingMeans(a: Fields, b: Fields, depth: nat, p: Path)
    requires depth <= MAX_DEPTH
    ensures p in Missing(a, b, depth) <==> LacksAt(Mapping(a), Mapping(b), MAX_DEPTH - depth, p)
    decreases MAX_DEPTH - depth
  {
    if depth < MAX_DEPTH {
      MissingOverMember(a, b, depth, a.Keys, p);
      if p != [] && p[0] in a {
        var k, q := p[0], p[1..];
        assert p == [k] + q;
        if BothMap(a, b, k) {
          MissingMeans(a[k].fields, b[k].fields, depth + 1, q);
          UnderMember(k, Missing(a[k].fields, b[k].fields, depth + 1), p);
        }
        if q == [] {
          assert p == [k] && p[..|p| - 1] == [];
          assert Lookup(Mapping(a), p) == Lookup(a[k], []) == Some(a[k]);
          assert k in b ==> Lookup(Mapping(b), p) == Lookup(b[k], []) == Some(b[k]);
        } else if k in b {
          LacksBelow(a, b, MAX_DEPTH - depth, k, q);
        } else {
          assert p[..|p| - 1][0] == k;
        }
      }
    }
  }

  // ---------------------------------------------------------------------------
  // The merge loop
  // ---------------------------------------------------------------------------

  lemma {:induction false} UnderSize(k: string, paths: set<Path>)
    ensures |Under(k, paths)| == |paths|
  {
    if paths == {} {
      assert Under(k, paths) == {};
    } else {
      var p := SomeElement(paths);
      UnderSize(k, paths - {p});
      assert Under(k, paths) == Under(k, paths - {p}) + {[k] + p};
      UnderMember(k, paths - {p}, [k] + p);
    }
  }

  lemma MissingGrows(a: Fields, b: Fields, depth: nat, keys: set<string>, k: string)
    requires depth < MAX_DEPTH && k !in keys
    ensures |MissingOver(a, b, depth, keys + {k})| == |MissingOver(a, b, depth, keys)| + |MissingAt(a, b, depth, k)|
  {
    var before, after := MissingOver(a, b, depth, keys), MissingOver(a, b, depth, keys + {k});
    var here := MissingAt(a, b, depth, k);
    forall p ensures p in after <==> p in before || p in here {
      MissingOverMember(a, b, depth, keys, p);
      MissingOverMember(a, b, depth, keys + {k}, p);
      if p in here { MissingAtHead(a, b, depth, k, p); }
    }
    assert after == before + here;
    forall p | p in before ensures p !in here {
      MissingOverMember(a, b, depth, keys, p);
      if p in here { MissingAtHead(a, b, depth, k, p); }
    }
  }

  /** How many changes the visit of template key `k` makes. */
  lemma MissingAtSize(a: Fields, b: Fields, depth: nat, k: string)
    requires depth < MAX_DEPTH
    ensures |MissingAt(a, b, depth, k)| ==
            if k in a && k !in b then 1
            else if BothMap(a, b, k) then |Missing(a[k].fields, b[k].fields, depth + 1)|
            else 0
  {
    if BothMap(a, b, k) { UnderSize(k, Missing(a[k].fields, b[k].fields, depth + 1)); }
  }

  /** The user document after the loop has visited the template keys `done`. */
  function PartlyMerged(t: Fields, u: Fields, depth: nat, prune: bool, done: set<string>): Fields
    requires depth < MAX_DEPTH && done <= t.Keys
  {
    map k | k in done + u.Keys :: if k in done then MergedValue(t, u, depth, prune, k) else u[k]
  }

  /** The changes counted when the template keys `done` have been visited. */
  ghost function ChangesOver(t: Fields, u: Fields, depth: nat, prune: bool, done: set<string>): nat
    requires depth < MAX_DEPTH
  {
    |MissingOver(t, u, depth, done)| + if prune then |MissingOver(u, t, depth, done)| else 0
  }

  ghost function Changes(t: Fields, u: Fields, depth: nat, prune: bool): nat {
    |Missing(t, u, depth)| + if prune then |Missing(u, t, depth)| else 0
  }

  /** What visiting one more key does to the document and the count. */
  lemma VisitKey(t: Fields, u: Fields, depth: nat, prune: bool, done: set<string>, k: string)
    requires depth < MAX_DEPTH && done <= t.Keys && k in t && k !in done
    ensures var before := PartlyMerged(t, u, depth, prune, done);
            (k in before <==> k in u) && (k in u ==> before[k] == u[k])
    ensures PartlyMerged(t, u, depth, prune, done + {k}) ==
            PartlyMerged(t, u, depth, prune, done)[k := MergedValue(t, u, depth, prune, k)]
    ensures ChangesOver(t, u, depth, prune, done + {k}) == ChangesOver(t, u, depth, prune, done) +
            if k !in u then 1 else if BothMap(t, u, k) then Changes(t[k].fields, u[k].fields, depth + 1, prune) else 0
  {
    MissingGrows(t, u, depth, done, k);
    MissingGrows(u, t, depth, done, k);
    MissingAtSize(t, u, depth, k);
    MissingAtSize(u, t, depth, k);
  }

  datatype Progress = Progress(user: Fields, changes: nat)

  /** One turn of the loop over the template's items. */
  ghost function Visit(t: Fields, p: Progress, depth: nat, prune: bool, k: string): Progress
    requires k in t
  {
    if k !in p.user then Progress(p.user[k := t[k]], p.changes + 1)
    else if BothMap(t, p.user, k) then
      Progress(p.user[k := Mapping(Merge(t[k].fields, p.user[k].fields, depth + 1, prune))],
               p.changes + Changes(t[k].fields, p.user[k].fields, depth + 1, prune))
    else p
  }

  ghost function VisitAll(t: Fields, p: Progress, depth: nat, prune: bool, keys: seq<string>): Progress
    requires forall k | k in keys :: k in t
  {
    if keys == [] then p
    else Visit(t, VisitAll(t, p, depth, prune, keys[..|keys| - 1]), depth, prune, keys[|keys| - 1])
  }

  lemma NothingVisited(t: Fields, u: Fields, depth: nat, prune: bool)
    requires depth < MAX_DEPTH
    ensures PartlyMerged(t, u, depth, prune, {}) == u && ChangesOver(t, u, depth, prune, {}) == 0
  {
    assert MissingOver(t, u, depth, {}) == {} == MissingOver(u, t, depth, {});
  }

  lemma VisitStep(t: Fields, u: Fields, depth: nat, prune: bool, done: set<string>, k: string)
    requires depth < MAX_DEPTH && done <= t.Keys && k in t && k !in done
    ensures var sofar := Progress(PartlyMerged(t, u, depth, prune, done), ChangesOver(t, u, depth, prune, done));
            Visit(t, sofar, depth, prune, k) ==
            Progress(PartlyMerged(t, u, depth, prune, done + {k}), ChangesOver(t, u, depth, prune, done + {k}))
  {
    VisitKey(t, u, depth, prune, done, k);
    var before := PartlyMerged(t, u, depth, prune, done);
    if k in u && !BothMap(t, u, k) { assert before[k := u[k]] == before; }
  }

  /** Visiting keys one after the other, in any order, does what `PartlyMerged` says at once. */
  lemma {:induction false} VisitAllIs(t: Fields, u: Fields, depth: nat, prune: bool, keys: seq<string>)
    requires depth < MAX_DEPTH && Distinct(keys) && forall k | k in keys :: k in t
    ensures Elements(keys) <= t.Keys
    ensures VisitAll(t, Progress(u, 0), depth, prune, keys) ==
            Progress(PartlyMerged(t, u, depth, prune, Elements(keys)), ChangesOver(t, u, depth, prune, Elements(keys)))
  {
    if keys == [] {
      assert Elements(keys) == {};
      NothingVisited(t, u, depth, prune);
    } else {
      var init, k := keys[..|keys| - 1], keys[|keys| - 1];
      VisitAllIs(t, u, depth, prune, init);
      assert keys == init + [k];
      assert Elements(keys) == Elements(init) + {k};
      VisitStep(t, u, depth, prune, Elements(init), k);
    }
  }

  lemma AllVisited(t: Fields, u: Fields, depth: nat)
    requires depth < MAX_DEPTH
    ensures PartlyMerged(t, u, depth, false, t.Keys) == Merge(t, u, depth, false)
  {
  }

  /** The items of a dictionary in some order. */
  method KeysOf(fields: Fields) returns (keys: seq<string>)
    ensures Distinct(keys) && Elements(keys) == fields.Keys
  {
    keys := [];
    var todo := fields.Keys;
    while todo != {}
      invariant todo <= fields.Keys && Distinct(keys)
      invariant forall k :: k in keys <==> k in fields.Keys - todo
    {
      var k :| k in todo;
      assert forall i | 0 <= i < |keys| :: keys[i] in keys;
      keys, todo := keys + [k], todo - {k};
    }
  }

  /** `_deep_merge`; `changes` counts the additions and the removals. */
  method DeepMerge(t: Fields, u: Fields, depth: nat, prune: bool) returns (user: Fields, changes: nat)
    ensures user == Merge(t, u, depth, prune)
    ensures changes == Changes(t, u, depth, prune)
    decreases MAX_DEPTH - depth, 1
  {
    user, changes := u, 0;
    if depth < MAX_DEPTH {
      var keys := KeysOf(t);
      assert forall k | k in keys :: k in Elements(keys);
      user, changes := MergeKeys(t, u, depth, prune, keys);
      VisitAllIs(t, u, depth, prune, keys);
      if prune {
        user, changes := PruneLoop(t, u, depth, user, changes);
      } else {
        AllVisited(t, u, depth);
      }
    }
  }

  /** The loop over the template's items. */
  method MergeKeys(t: Fields, u: Fields, depth: nat, prune: bool, keys: seq<string>)
    returns (user: Fields, changes: nat)
    requires depth < MAX_DEPTH && forall k | k in keys :: k in t
    ensures Progress(user, changes) == VisitAll(t, Progress(u, 0), depth, prune, keys)
    decreases MAX_DEPTH - depth, 0
  {
    user, changes := u, 0;
    for i := 0 to |keys|
      invariant Progress(user, changes) == VisitAll(t, Progress(u, 0), depth, prune, keys[..i])
    {
      var k := keys[i];
      assert keys[..i + 1][..i] == keys[..i];
      if k !in user {
        user := user[k := t[k]];
        changes := changes + 1;
      } else if t[k].Mapping? && user[k].Mapping? {
        var merged, n := DeepMerge(t[k].fields, user[k].fields, depth + 1, prune);
        user := user[k := Mapping(merged)];
        changes := changes + n;
      }
    }
    assert keys[..|keys|] == keys;
  }

  lemma PruneKey(t: Fields, u: Fields, depth: nat, keys: set<string>, k: string)
    requires depth < MAX_DEPTH && k in u && k !in t && k !in keys
    ensures |MissingOver(u, t, depth, keys + {k})| == |MissingOver(u, t, depth, keys)| + 1
  {
    MissingGrows(u, t, depth, keys, k);
    MissingAtSize(u, t, depth, k);
  }

  lemma KeysBeyondAreIdle(a: Fields, b: Fields, depth: nat, keys: set<string>)
    requires depth < MAX_DEPTH && a.Keys <= keys
    ensures MissingOver(a, b, depth, keys) == Missing(a, b, depth)
  {
    forall p ensures p in MissingOver(a, b, depth, keys) <==> p in Missing(a, b, depth) {
      MissingOverMember(a, b, depth, keys, p);
      MissingOverMember(a, b, depth, a.Keys, p);
    }
  }

  /** The loop that removes what only the user has. */
  method PruneLoop(t: Fields, ghost u: Fields, ghost depth: nat, merged: Fields, sofar: nat)
    returns (user: Fields, changes: nat)
    requires depth < MAX_DEPTH && merged == PartlyMerged(t, u, depth, true, t.Keys)
    requires sofar == ChangesOver(t, u, depth, true, t.Keys)
    ensures user == Merge(t, u, depth, true)
    ensures changes == Changes(t, u, depth, true)
  {
    user, changes := merged, sofar;
    var todo := merged.Keys - t.Keys;
    ghost var kept := t.Keys;
    while todo != {}
      invariant todo <= merged.Keys - t.Keys
      invariant kept == merged.Keys - todo
      invariant user == map k | k in merged && (k in t || k in todo) :: merged[k]
      invariant changes == |Missing(t, u, depth)| + |MissingOver(u, t, depth, kept)|
    {
      var k :| k in todo;
      PruneKey(t, u, depth, kept, k);
      user, changes, todo := user - {k}, changes + 1, todo - {k};
      kept := kept + {k};
    }
    KeysBeyondAreIdle(u, t, depth, kept);
    assert user == Merge(t, u, depth, true);
  }

  // ---------------------------------------------------------------------------
  // What the merge keeps, adds and removes
  // ---------------------------------------------------------------------------

  lemma LookupBelow(f: Fields, p: Path)
    requires p != []
    ensures Lookup(Mapping(f), p) == if p[0] in f then Lookup(f[p[0]], p[1..]) else None
    ensures p[0] in f && f[p[0]].Mapping? ==> Lookup(Mapping(f), p) == Lookup(Mapping(f[p[0]].fields), p[1..])
  {
  }

  /**
   Every user value stays, except that two mappings are merged into a mapping.  With prune this holds
   where the template has the path too.
   */
  lemma {:induction false} UserValuesKept(t: Fields, u: Fields, depth: nat, prune: bool, p: Path)
    requires Lookup(Mapping(u), p).Some? && (prune ==> Lookup(Mapping(t), p).Some?)
    ensures var m := Lookup(Mapping(Merge(t, u, depth, prune)), p);
            && m.Some?
            && (m != Lookup(Mapping(u), p) ==>
                  m.value.Mapping? && HasMapping(Mapping(u), p) && HasMapping(Mapping(t), p))
    decreases |p|
  {
    if p != [] && depth < MAX_DEPTH {
      var k, m := p[0], Merge(t, u, depth, prune);
      LookupBelow(t, p);
      LookupBelow(u, p);
      LookupBelow(m, p);
      if BothMap(t, u, k) { UserValuesKept(t[k].fields, u[k].fields, depth + 1, prune, p[1..]); }
    }
  }

  /** Some prefix of `p` is a topmost missing path. */
  ghost predicate PassesThrough(p: Path, paths: set<Path>) {
    exists n | 0 <= n <= |p| :: p[..n] in paths
  }

  lemma PassesBelow(t: Fields, u: Fields, depth: nat, p: Path)
    requires depth < MAX_DEPTH && p != []
    ensures PassesThrough(p, Missing(t, u, depth)) <==>
            || (p[0] in t && p[0] !in u)
            || (BothMap(t, u, p[0]) && PassesThrough(p[1..], Missing(t[p[0]].fields, u[p[0]].fields, depth + 1)))
  {
    var k := p[0];
    forall n | 0 <= n <= |p|
      ensures p[..n] in Missing(t, u, depth) <==> n > 0 && k in t && p[..n] in MissingAt(t, u, depth, k)
    {
      MissingOverMember(t, u, depth, t.Keys, p[..n]);
    }
    if k in t && k !in u {
      assert p[..1] == [k];
    } else if BothMap(t, u, k) {
      var sub := Missing(t[k].fields, u[k].fields, depth + 1);
      forall n | 0 < n <= |p| ensures p[..n] in Missing(t, u, depth) <==> p[1..][..n - 1] in sub {
        UnderMember(k, sub, p[..n]);
        assert p[..n][1..] == p[1..][..n - 1];
      }
      if PassesThrough(p[1..], sub) {
        var i :| 0 <= i <= |p[1..]| && p[1..][..i] in sub;
        assert p[1..][..i + 1 - 1] in sub;
        assert p[..i + 1] in Missing(t, u, depth);
      }
      if PassesThrough(p, Missing(t, u, depth)) {
        var n :| 0 <= n <= |p| && p[..n] in Missing(t, u, depth);
        assert p[1..][..n - 1] in sub;
      }
    }
  }

  /** What the user did not have comes from the template, and exactly below the missing paths. */
  lemma {:induction false} ExactlyMissingAdded(t: Fields, u: Fields, depth: nat, prune: bool, p: Path)
    requires depth <= MAX_DEPTH && Lookup(Mapping(u), p).None?
    ensures Lookup(Mapping(Merge(t, u, depth, prune)), p) ==
            if PassesThrough(p, Missing(t, u, depth)) then Lookup(Mapping(t), p) else None
    decreases |p|
  {
    if depth < MAX_DEPTH {
      var k, m := p[0], Merge(t, u, depth, prune);
      LookupBelow(t, p);
      LookupBelow(u, p);
      LookupBelow(m, p);
      PassesBelow(t, u, depth, p);
      if BothMap(t, u, k) { ExactlyMissingAdded(t[k].fields, u[k].fields, depth + 1, prune, p[1..]); }
    }
  }

  /**
   A key that the template has and a user's mapping lacks is added, with the template's value, if its path has
   32 keys or fewer, and is not if it has more.
   */
  lemma AddedDownTo32(t: Fields, u: Fields, prune: bool, p: Path)
    requires p != [] && Lookup(Mapping(t), p).Some? && Lookup(Mapping(u), p).None?
    requires HasMapping(Mapping(u), p[..|p| - 1])
    ensures Lookup(Mapping(Merge(t, u, 0, prune)), p) == if |p| <= 32 then Lookup(Mapping(t), p) else None
  {
    ExactlyMissingAdded(t, u, 0, prune, p);
    assert p[..|p|] == p;
    forall n | 0 <= n <= |p| ensures p[..n] in Missing(t, u, 0) <==> n == |p| <= 32 {
      MissingMeans(t, u, 0, p[..n]);
      if n < |p| { PrefixIsThere(u, p, n); }
    }
    PassesAtEnd(p, Missing(t, u, 0));
  }

  lemma PrefixIsThere(u: Fields, p: Path, n: nat)
    requires n < |p| && HasMapping(Mapping(u), p[..|p| - 1])
    ensures Lookup(Mapping(u), p[..n]).Some?
  {
    LookupPrefix(Mapping(u), p[..|p| - 1], n);
    assert p[..|p| - 1][..n] == p[..n];
  }

  lemma PassesAtEnd(p: Path, paths: set<Path>)
    requires forall n | 0 <= n <= |p| :: p[..n] in paths ==> n == |p|
    ensures PassesThrough(p, paths) <==> p[..|p|] in paths
  {
  }

  lemma {:induction false} LookupPrefix(node: Node, p: Path, n: nat)
    requires n <= |p| && Lookup(node, p).Some?
    ensures Lookup(node, p[..n]).Some?
  {
    if n > 0 {
      assert p[..n][1..] == p[1..][..n - 1];
      LookupPrefix(node.fields[p[0]], p[1..], n - 1);
    }
  }

  /** With prune, what the user had and the template lacks goes: exactly the paths through a user-only one. */
  lemma {:induction false} ExactlyExtraRemoved(t: Fields, u: Fields, depth: nat, p: Path)
    requires depth <= MAX_DEPTH && Lookup(Mapping(u), p).Some?
    ensures Lookup(Mapping(Merge(t, u, depth, true)), p).None? <==> PassesThrough(p, Missing(u, t, depth))
    decreases |p|
  {
    if p == [] || depth == MAX_DEPTH {
      NothingAtRoot(u, t, depth);
    } else {
      var k, m := p[0], Merge(t, u, depth, true);
      LookupBelow(t, p);
      LookupBelow(u, p);
      LookupBelow(m, p);
      PassesBelow(u, t, depth, p);
      if BothMap(t, u, k) { ExactlyExtraRemoved(t[k].fields, u[k].fields, depth + 1, p[1..]); }
    }
  }

  lemma NothingAtRoot(a: Fields, b: Fields, depth: nat)
    requires depth <= MAX_DEPTH
    ensures [] !in Missing(a, b, depth)
  {
    MissingMeans(a, b, depth, []);
  }

  /** With prune, every mapping that was merged has exactly the template's keys. */
  lemma {:induction false} PrunedToTemplateKeys(t: Fields, u: Fields, depth: nat, p: Path)
    requires |p| < MAX_DEPTH - depth
    requires HasMapping(Mapping(t), p) && HasMapping(Mapping(u), p)
    ensures HasMapping(Mapping(Merge(t, u, depth, true)), p)
    ensures Lookup(Mapping(Merge(t, u, depth, true)), p).value.fields.Keys == Lookup(Mapping(t), p).value.fields.Keys
    decreases |p|
  {
    if p != [] {
      var k, m := p[0], Merge(t, u, depth, true);
      LookupBelow(t, p);
      LookupBelow(u, p);
      LookupBelow(m, p);
      NoMappingBelowLeaf(t[k], p[1..]);
      NoMappingBelowLeaf(u[k], p[1..]);
      PrunedToTemplateKeys(t[k].fields, u[k].fields, depth + 1, p[1..]);
    }
  }

  lemma NoMappingBelowLeaf(n: Node, p: Path)
    ensures HasMapping(n, p) ==> n.Mapping?
  {
  }

  lemma NothingMissing(a: Fields, b: Fields, depth: nat)
    requires depth < MAX_DEPTH
    ensures Missing(a, b, depth) == {} <==>
            forall k | k in a :: k in b && (BothMap(a, b, k) ==> Missing(a[k].fields, b[k].fields, depth + 1) == {})
  {
    if Missing(a, b, depth) == {} {
      forall k | k in a ensures k in b && (BothMap(a, b, k) ==> Missing(a[k].fields, b[k].fields, depth + 1) == {}) {
        assert MissingAt(a, b, depth, k) <= Missing(a, b, depth);
        MissingAtSize(a, b, depth, k);
      }
    }
    if forall k | k in a :: k in b && (BothMap(a, b, k) ==> Missing(a[k].fields, b[k].fields, depth + 1) == {}) {
      forall k | k in a ensures MissingAt(a, b, depth, k) == {} { MissingAtSize(a, b, depth, k); }
      assert Missing(a, b, depth) == {};
    }
  }

  lemma MergeAgrees(t: Fields, u: Fields, depth: nat, prune: bool)
    requires depth < MAX_DEPTH
    ensures Merge(t, u, depth, prune) == u <==>
            && (forall k | k in t ::
                  k in u && (BothMap(t, u, k) ==> Merge(t[k].fields, u[k].fields, depth + 1, prune) == u[k].fields))
            && (prune ==> forall k | k in u :: k in t)
  {
    var m := Merge(t, u, depth, prune);
    if m == u {
      forall k | k in t
        ensures k in u && (BothMap(t, u, k) ==> Merge(t[k].fields, u[k].fields, depth + 1, prune) == u[k].fields)
      {
        assert k in m && m[k] == MergedValue(t, u, depth, prune, k);
      }
      forall k | prune && k in u ensures k in t { assert k in m; }
    }
  }

  /** The count is zero exactly when the merge leaves the document as it was. */
  lemma {:induction false} NoChangesMeansUnchanged(t: Fields, u: Fields, depth: nat, prune: bool)
    ensures Changes(t, u, depth, prune) == 0 <==> Merge(t, u, depth, prune) == u
    decreases MAX_DEPTH - depth
  {
    if depth < MAX_DEPTH {
      forall k | BothMap(t, u, k)
        ensures Changes(t[k].fields, u[k].fields, depth + 1, prune) == 0 <==>
                Merge(t[k].fields, u[k].fields, depth + 1, prune) == u[k].fields
      {
        NoChangesMeansUnchanged(t[k].fields, u[k].fields, depth + 1, prune);
      }
      NothingMissing(t, u, depth);
      NothingMissing(u, t, depth);
      MergeAgrees(t, u, depth, prune);
    }
  }

  lemma {:induction false} MergeWithItself(t: Fields, depth: nat, prune: bool)
    ensures Merge(t, t, depth, prune) == t
    decreases MAX_DEPTH - depth
  {
    if depth < MAX_DEPTH {
      forall k | k in t && t[k].Mapping? ensures Merge(t[k].fields, t[k].fields, depth + 1, prune) == t[k].fields {
        MergeWithItself(t[k].fields, depth + 1, prune);
      }
      MergeAgrees(t, t, depth, prune);
    }
  }

  /** A second merge changes nothing and counts nothing, with and without prune. */
  lemma {:induction false} MergeIsIdempotent(t: Fields, u: Fields, depth: nat, prune: bool)
    ensures var m := Merge(t, u, depth, prune);
            Merge(t, m, depth, prune) == m && Changes(t, m, depth, prune) == 0
    decreases MAX_DEPTH - depth
  {
    var m := Merge(t, u, depth, prune);
    if depth < MAX_DEPTH {
      forall k | BothMap(t, m, k) ensures Merge(t[k].fields, m[k].fields, depth + 1, prune) == m[k].fields {
        assert m[k] == MergedValue(t, u, depth, prune, k);
        if BothMap(t, u, k) {
          MergeIsIdempotent(t[k].fields, u[k].fields, depth + 1, prune);
        } else {
          MergeWithItself(t[k].fields, depth + 1, prune);
        }
      }
      MergeAgrees(t, m, depth, prune);
    }
    NoChangesMeansUnchanged(t, m, depth, prune);
  }
}
