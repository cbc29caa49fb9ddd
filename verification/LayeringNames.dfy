/** Which names the layering rules speak of, told from the components between the dots. */
module LayeringNames {
  import opened Layering

  lemma SplitCons(c: char, rest: Name)
    ensures Split([c] + rest) ==
            if c == '.' then [""] + Split(rest) else [[c] + Split(rest)[0]] + Split(rest)[1..]
  {
    assert ([c] + rest)[1..] == rest;
  }

  lemma {:induction false} SplitDotted(a: Name, b: Name)
    ensures Split(a + "." + b) == Split(a) + Split(b)
  {
    if a == "" {
      SplitCons('.', b);
      assert a + "." + b == ['.'] + b;
    } else {
      var c, rest := a[0], a[1..];
      SplitDotted(rest, b);
      DottedCons(c, rest, rest + "." + b, b);
      assert a == [c] + rest;
      assert a + "." + b == [c] + (rest + "." + b);
    }
  }

  lemma DottedCons(c: char, rest: Name, dotted: Name, b: Name)
    requires Split(dotted) == Split(rest) + Split(b)
    ensures Split([c] + dotted) == Split([c] + rest) + Split(b)
  {
    SplitCons(c, rest);
    SplitCons(c, dotted);
    SplitJoined(c, Split(rest), Split(b));
  }

  lemma SplitJoined(c: char, xs: seq<string>, ys: seq<string>)
    requires xs != []
    ensures [[c] + (xs + ys)[0]] + (xs + ys)[1..] == [[c] + xs[0]] + xs[1..] + ys
    ensures [""] + (xs + ys) == [""] + xs + ys
  {
  }

  lemma {:induction false} SplitPlain(name: Name)
    requires forall i | 0 <= i < |name| :: name[i] != '.'
    ensures Split(name) == [name]
  {
    if name != "" {
      SplitPlain(name[1..]);
      assert [name[0]] + name[1..] == name;
    }
  }

  lemma {:induction false} JoinSplit(name: Name)
    ensures Join(Split(name)) == name
  {
    if name != "" {
      var tail := Split(name[1..]);
      JoinSplit(name[1..]);
      assert [name[0]] + name[1..] == name;
      if name[0] == '.' {
        assert ([""] + tail)[1..] == tail;
        assert "" + "." + Join(tail) == [name[0]] + Join(tail);
      } else {
        JoinWithHead(name[0], tail);
      }
    }
  }

  lemma {:induction false} JoinAppend(xs: seq<string>, ys: seq<string>)
    requires xs != [] && ys != []
    ensures Join(xs + ys) == Join(xs) + "." + Join(ys)
  {
    if |xs| == 1 {
      assert (xs + ys)[1..] == ys;
    } else {
      JoinAppend(xs[1..], ys);
      assert (xs + ys)[1..] == xs[1..] + ys;
    }
  }

  /** A name is within a package exactly when its components begin with those of the package. */
  lemma WithinMeans(name: Name, pkg: Name)
    ensures Within(name, pkg) <==> Split(pkg) <= Split(name)
  {
    if pkg + "." <= name {
      var rest := name[|pkg| + 1..];
      assert name == pkg + "." + rest;
      SplitDotted(pkg, rest);
    }
    if Split(pkg) <= Split(name) {
      var rest := Split(name)[|Split(pkg)|..];
      assert Split(name) == Split(pkg) + rest;
      JoinSplit(name);
      JoinSplit(pkg);
      if rest == [] {
        assert Split(name) == Split(pkg);
      } else {
        JoinAppend(Split(pkg), rest);
      }
    }
  }

  lemma PkgIsPlain()
    ensures PKG == "jiuwenswarm" && Split(PKG) == [PKG]
  {
    SplitPlain(PKG);
  }

  lemma WithinOwn(target: Name, p: Name)
    ensures Within(target, PKG + "." + p) <==> [PKG] + Split(p) <= Split(target)
  {
    WithinMeans(target, PKG + "." + p);
    SplitDotted(PKG, p);
    PkgIsPlain();
  }

  /** A rule forbids a package under the project's own name and as a top-level package, with all it contains. */
  lemma ForbiddenMeans(target: Name, pkgs: seq<string>)
    ensures IsForbidden(target, pkgs) <==>
            exists p | p in pkgs :: Split(p) <= Split(target) || [PKG] + Split(p) <= Split(target)
  {
    forall p
      ensures Within(target, p) <==> Split(p) <= Split(target)
      ensures Within(target, PKG + "." + p) <==> [PKG] + Split(p) <= Split(target)
    {
      WithinMeans(target, p);
      WithinOwn(target, p);
    }
  }

  const EXEMPT: seq<seq<string>> := [
    ["gateway", "common"],
    ["gateway", "extensions", "registry"],
    ["gateway", "extensions", "manager"],
    ["gateway", "extensions", "loader"],
    ["gateway", "extensions", "base_crypto"],
    ["gateway", "extensions", "sdk"],
    ["gateway", "auth"]
  ]

  lemma SplitTwo(a: Name, b: Name)
    requires forall i | 0 <= i < |a| :: a[i] != '.'
    requires forall i | 0 <= i < |b| :: b[i] != '.'
    ensures Split(a + "." + b) == [a, b]
  {
    SplitDotted(a, b);
    SplitPlain(a);
    SplitPlain(b);
  }

  lemma SplitThree(a: Name, b: Name, c: Name)
    requires forall i | 0 <= i < |a| :: a[i] != '.'
    requires forall i | 0 <= i < |b| :: b[i] != '.'
    requires forall i | 0 <= i < |c| :: c[i] != '.'
    ensures Split(a + "." + b + "." + c) == [a, b, c]
  {
    SplitTwo(a, b);
    SplitDotted(a + "." + b, c);
    SplitPlain(c);
  }

  lemma ExemptPair(i: nat, part: Name)
    requires i == 0 || i == 6
    requires forall k | 0 <= k < |part| :: part[k] != '.'
    requires ALLOWED_CROSS_LAYER_PREFIXES[i] == "gateway." + part && EXEMPT[i] == ["gateway", part]
    ensures Split(ALLOWED_CROSS_LAYER_PREFIXES[i]) == EXEMPT[i]
  {
    SplitTwo("gateway", part);
    assert "gateway" + "." == "gateway.";
  }

  lemma FirstExempt()
    ensures Split(ALLOWED_CROSS_LAYER_PREFIXES[0]) == EXEMPT[0]
  {
    ExemptPair(0, "common");
  }

  lemma LastExempt()
    ensures Split(ALLOWED_CROSS_LAYER_PREFIXES[6]) == EXEMPT[6]
  {
    ExemptPair(6, "auth");
  }

  lemma ExemptCount()
    ensures |ALLOWED_CROSS_LAYER_PREFIXES| == |EXEMPT| == 7
  {
  }

  lemma ExemptTriple(i: nat)
    requires 1 <= i < 6
    ensures Split(ALLOWED_CROSS_LAYER_PREFIXES[i]) == EXEMPT[i]
  {
    if i == 1 {
      ExemptExtension(i, "registry");
    } else if i == 2 {
      ExemptExtension(i, "manager");
    } else if i == 3 {
      ExemptExtension(i, "loader");
    } else if i == 4 {
      ExemptExtension(i, "base_crypto");
    } else {
      ExemptExtension(i, "sdk");
    }
  }

  lemma ExemptExtension(i: nat, part: Name)
    requires 1 <= i < 6 && forall k | 0 <= k < |part| :: part[k] != '.'
    requires ALLOWED_CROSS_LAYER_PREFIXES[i] == "gateway.extensions." + part
    requires EXEMPT[i] == ["gateway", "extensions", part]
    ensures Split(ALLOWED_CROSS_LAYER_PREFIXES[i]) == EXEMPT[i]
  {
    SplitThree("gateway", "extensions", part);
    assert "gateway" + "." + "extensions" + "." == "gateway.extensions.";
  }

  /** The packages that every layer may import, with all they contain. */
  lemma ExemptMeans(target: Name)
    ensures IsExempt(target) <==> exists parts | parts in EXEMPT :: parts <= Split(target)
  {
    forall i | 0 <= i < 7
      ensures |ALLOWED_CROSS_LAYER_PREFIXES| == |EXEMPT| == 7
      ensures Within(target, ALLOWED_CROSS_LAYER_PREFIXES[i]) <==> EXEMPT[i] <= Split(target)
    {
      ExemptCount();
      FirstExempt();
      LastExempt();
      if 1 <= i < 6 { ExemptTriple(i); }
      WithinMeans(target, ALLOWED_CROSS_LAYER_PREFIXES[i]);
    }
    if IsExempt(target) {
      var i :| 0 <= i < 7 && Within(target, ALLOWED_CROSS_LAYER_PREFIXES[i]);
      assert EXEMPT[i] in EXEMPT;
    }
    if parts :| parts in EXEMPT && parts <= Split(target) {
      var i :| 0 <= i < 7 && EXEMPT[i] == parts;
      assert ALLOWED_CROSS_LAYER_PREFIXES[i] in ALLOWED_CROSS_LAYER_PREFIXES;
    }
  }

  /** An import that a rule forbids and does not know, spelled out. */
  predicate IsNewPair(rule: Rule, modules: set<Name>, hard: Edges, lazy: Edges, source: Name, target: Name) {
    && source in modules
    && (exists p | p in rule.sourcePrefixes :: |p| <= |source| && source[..|p|] == p)
    && ((source in hard && target in hard[source]) || (source in lazy && target in lazy[source]))
    && (forall parts | parts in EXEMPT :: !(parts <= Split(target)))
    && (exists p | p in rule.forbidden :: Split(p) <= Split(target) || [PKG] + Split(p) <= Split(target))
    && (source in rule.known ==> target !in rule.known[source])
  }

  /** What `CheckRule` looks for. */
  lemma NewViolationMeans(rule: Rule, modules: set<Name>, hard: Edges, lazy: Edges)
    ensures HasNewViolation(rule, modules, hard, lazy) <==> exists s, t :: IsNewPair(rule, modules, hard, lazy, s, t)
  {
    forall s, t
      ensures IsViolation(rule, modules, hard, lazy, s, t) && !IsKnown(rule, s, t) <==>
              IsNewPair(rule, modules, hard, lazy, s, t)
    {
      ExemptMeans(t);
      ForbiddenMeans(t, rule.forbidden);
      StartsMeans(s, rule.sourcePrefixes);
    }
  }

  lemma StartsMeans(name: Name, prefixes: seq<string>)
    ensures StartsWithAny(name, prefixes) <==> exists p | p in prefixes :: |p| <= |name| && name[..|p|] == p
  {
    forall p | p in prefixes ensures p <= name <==> |p| <= |name| && name[..|p|] == p { }
  }
}
