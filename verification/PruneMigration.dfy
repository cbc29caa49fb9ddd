/**
 The migration with `prune`: keys that the template does not have are removed, the version label and
 the moved memory switch included.  When does a second run find nothing to do?
 */
module PruneMigration {
  import opened Basics
  import opened ConfigTree
  import opened TemplateMerge
  import opened TemplateMigration

  // ---------------------------------------------------------------------------
  // What a template rules out
  // ---------------------------------------------------------------------------

  /** The template has a mapping at the parent of `p` and nothing at `p`. */
  predicate EndsAt(t: Fields, p: Path) {
    p != [] && HasMapping(Mapping(t), p[..|p| - 1]) && Lookup(Mapping(t), p).None?
  }

  /** The template ends on the way along `p`, so a pruned document cannot have `p`. */
  ghost predicate RulesOut(t: Fields, p: Path) {
    exists n | 0 <= n <= |p| :: EndsAt(t, p[..n])
  }

  lemma PrefixMissing(t: Fields, u: Fields, p: Path, n: nat)
    requires n <= |p| <= MAX_DEPTH && Lookup(Mapping(u), p).Some?
    ensures p[..n] in Missing(u, t, 0) <==> EndsAt(t, p[..n])
  {
    MissingMeans(u, t, 0, p[..n]);
    LookupPrefix(Mapping(u), p, n);
  }

  /** For a path that a document has, being ruled out is passing through a path that only the document has. */
  lemma RulesOutMeans(t: Fields, u: Fields, p: Path)
    requires |p| <= MAX_DEPTH && Lookup(Mapping(u), p).Some?
    ensures PassesThrough(p, Missing(u, t, 0)) <==> RulesOut(t, p)
  {
    forall n | 0 <= n <= |p| ensures p[..n] in Missing(u, t, 0) <==> EndsAt(t, p[..n]) {
      PrefixMissing(t, u, p, n);
    }
  }

  // ---------------------------------------------------------------------------
  // Documents that fit the template
  // ---------------------------------------------------------------------------

  /** Nothing is missing and nothing is extra, down to the depth limit. */
  predicate Fits(t: Fields, w: Fields) {
    Missing(t, w, 0) == {} && Missing(w, t, 0) == {}
  }

  lemma MergedFits(t: Fields, v: Fields)
    ensures Fits(t, Merge(t, v, 0, true))
  {
    MergeIsIdempotent(t, v, 0, true);
  }

  lemma LabelledFits(t: Fields, m: Fields, version: string)
    requires Fits(t, m) && VERSION in t
    ensures Fits(t, Labelled(m, version))
  {
    LabelKeepsComplete(t, m, version);
    NothingMissing(m, t, 0);
    NothingMissing(Labelled(m, version), t, 0);
  }

  /** A document without extras has no path that the template rules out. */
  lemma RuledOutIsAbsent(t: Fields, w: Fields, p: Path)
    requires |p| <= MAX_DEPTH && Missing(w, t, 0) == {} && RulesOut(t, p)
    ensures Lookup(Mapping(w), p).None?
  {
    if Lookup(Mapping(w), p).Some? { RulesOutMeans(t, w, p); }
  }

  /** The sub-mode move adds no path but the flat memory node and its switch. */
  lemma NewSubmodePaths(w: Fields, p: Path)
    requires Lookup(Mapping(SubmodesMoved(w)), p).Some? && Lookup(Mapping(w), p).None?
    ensures p <= SWITCH_PATH
  {
    assert MEMORY_PATH <= SWITCH_PATH;
    if !(p <= MEMORY_PATH) && (SWITCH_PATH <= p || (MEMORY_PATH <= p && !HasMapping(Mapping(w), MEMORY_PATH))) {
      assert p == MEMORY_PATH + p[3..];
      NewMemoryPaths(w, p[3..]);
    } else if !(p <= MEMORY_PATH) {
      SubmodesLeaveRest(w, p);
    }
  }

  lemma NewMemoryPaths(w: Fields, q: Path)
    requires q != []
    requires Lookup(Mapping(SubmodesMoved(w)), MEMORY_PATH + q).Some? && Lookup(Mapping(w), MEMORY_PATH + q).None?
    ensures q == ["enabled"]
  {
    var v := SubmodesMoved(w);
    LookBelowMemory(v, q);
    LookBelowMemory(w, q);
    AgentAfterMove(w);
    NewFlatPaths(Sub(Agent(w).value, "memory").GetOr(map[]), Sub(Agent(v).value, "memory").value, q);
  }

  lemma LookBelowMemory(f: Fields, q: Path)
    requires q != []
    ensures Lookup(Mapping(f), MEMORY_PATH + q) ==
            if Agent(f).Some? && Sub(Agent(f).value, "memory").Some?
            then Lookup(Mapping(Sub(Agent(f).value, "memory").value), q)
            else None
  {
    assert MEMORY_PATH + q == ["modes", "agent"] + (["memory"] + q);
    LookAgent(f, ["memory"] + q);
    if Agent(f).Some? { Look1(Agent(f).value, "memory", q); }
  }

  /** The flat memory node after a sub-mode move that does something. */
  lemma AgentAfterMove(w: Fields)
    requires SubmodesMoved(w) != w
    ensures Agent(w).Some? && Agent(SubmodesMoved(w)).Some?
    ensures var memory := Sub(Agent(w).value, "memory").GetOr(map[]);
            var flat := Sub(Agent(SubmodesMoved(w)).value, "memory");
            flat.Some? && (flat.value == memory || exists b :: flat.value == memory["enabled" := Bool(b)])
  {
    var agent := Agent(w).value;
    var values := LegacyValues(agent, LEGACY_AGENT_SUBMODE_KEYS);
    assert Agent(SubmodesMoved(w)) == Some(FlatMemory(agent, values));
  }

  lemma NewFlatPaths(memory: Fields, flat: Fields, q: Path)
    requires q != [] && Lookup(Mapping(flat), q).Some? && Lookup(Mapping(memory), q).None?
    requires flat == memory || exists b :: flat == memory["enabled" := Bool(b)]
    ensures q == ["enabled"]
  {
    var b :| flat == memory["enabled" := Bool(b)];
    if q[0] != "enabled" {
      LookElsewhere(memory, "enabled", Bool(b), q);
    } else {
      LookupBelow(flat, q);
    }
  }

  lemma EndRulesOut(t: Fields, p: Path, whole: Path)
    requires EndsAt(t, p) && p <= whole
    ensures RulesOut(t, whole)
  {
    assert whole[..|p|] == p;
  }

  /** If the template has room for the flat switch, the sub-mode move brings in nothing extra. */
  lemma SubmodesBringNoExtra(t: Fields, w: Fields)
    requires Missing(w, t, 0) == {} && (HasLegacySwitch(w) ==> !RulesOut(t, SWITCH_PATH))
    ensures Missing(SubmodesMoved(w), t, 0) == {}
  {
    if HasLegacySwitch(w) {
      var v := SubmodesMoved(w);
      forall p ensures p !in Missing(v, t, 0) {
        MissingMeans(v, t, 0, p);
        MissingMeans(w, t, 0, p);
        if p in Missing(v, t, 0) {
          NewSubmodePaths(w, p);
          EndRulesOut(t, p, SWITCH_PATH);
        }
      }
    } else {
      SwitchStays(w);
    }
  }

  // ---------------------------------------------------------------------------
  // When a second run does nothing
  // ---------------------------------------------------------------------------

  /** The template keeps a legacy memory switch of the user's but prunes the flat one it is moved to. */
  ghost predicate PrunesFlatSwitchOnly(t: Fields) {
    RulesOut(t, SWITCH_PATH) && exists key | key in LEGACY_AGENT_SUBMODE_KEYS :: !RulesOut(t, LegacyPath(key))
  }

  /** What one pruning run leaves, whatever the file was. */
  lemma PrunedIsClean(t: Fields, u: Fields, version: string)
    requires VERSION in t && !ShipsLegacyKvc(t)
    ensures var w := Labelled(Merge(t, Moved(u), 0, true), version);
            Fits(t, w) && Moved(w) == SubmodesMoved(w)
  {
    var v := Moved(u);
    var m := Merge(t, v, 0, true);
    var w := Labelled(m, version);
    MergedFits(t, v);
    LabelledFits(t, m, version);
    KvcMovedIsClean(SubmodesMoved(u));
    ExactlyMissingAdded(t, v, 0, true, KVC_PATH);
    LabelKeeps(m, version);
    LookKvc(m);
    LookKvc(SubmodesMoved(w));
    SubmodesKeepReact(w);
    KvcCleanStays(SubmodesMoved(w));
  }

  /** A legacy switch beside a memory node that is no mapping can only come from the template. */
  lemma SwitchWithoutMemoryIsShipped(t: Fields, u: Fields)
    requires var m := Merge(t, Moved(u), 0, true); HasLegacySwitch(m) && !HasMapping(Mapping(m), MEMORY_PATH)
    requires HasMapping(Mapping(t), MEMORY_PATH)
    ensures HasLegacySwitch(t)
  {
    var v := Moved(u);
    var m := Merge(t, v, 0, true);
    var key :| key in LEGACY_AGENT_SUBMODE_KEYS && Lookup(Mapping(m), LegacyPath(key)).Some?;
    if Lookup(Mapping(v), LegacyPath(key)).Some? {
      SubmodesMovedSettled(u);
      KvcKeepsModes(SubmodesMoved(u));
      SameAgentSameSwitches(v, SubmodesMoved(u));
      LookSwitch(v);
      LookMemory(v);
      UserValuesKept(t, v, 0, true, MEMORY_PATH);
    } else {
      ExactlyMissingAdded(t, v, 0, true, LegacyPath(key));
    }
  }

  lemma SecondPruneFindsNothing(t: Fields, u: Fields, version: string)
    requires VERSION in t && !ShipsLegacyKvc(t) && !ShipsLegacySwitch(t) && !PrunesFlatSwitchOnly(t)
    ensures var w := Labelled(Merge(t, Moved(u), 0, true), version);
            Fits(t, Moved(w)) && Moved(w) == SubmodesMoved(w)
  {
    var m := Merge(t, Moved(u), 0, true);
    var w := Labelled(m, version);
    PrunedIsClean(t, u, version);
    LabelKeeps(m, version);
    SameAgentSameSwitches(w, m);
    LookMemory(w);
    LookMemory(m);
    if HasLegacySwitch(w) {
      var key :| key in LEGACY_AGENT_SUBMODE_KEYS && Lookup(Mapping(w), LegacyPath(key)).Some?;
      if RulesOut(t, SWITCH_PATH) { RuledOutIsAbsent(t, w, LegacyPath(key)); }
      if HasMapping(Mapping(t), MEMORY_PATH) && !HasMapping(Mapping(w), MEMORY_PATH) {
        SwitchWithoutMemoryIsShipped(t, u);
      }
    }
    SubmodesKeepComplete(t, w);
    SubmodesBringNoExtra(t, w);
  }

  /** A template has room for whatever a pruning run writes into the file. */
  ghost predicate HasRoom(t: Fields) {
    VERSION in t && !ShipsLegacyKvc(t) && !ShipsLegacySwitch(t) && !PrunesFlatSwitchOnly(t)
  }

  lemma SecondPruneDoesNothing(t: Fields, file: File, version: string)
    requires HasRoom(t) || t == map[]
    ensures Settles(t, file, version, true)
  {
    if file.Document? && Loaded(file.root).Some? {
      var u := Loaded(file.root).value;
      if Writes(t, u, version, true) {
        assert Merge(map[], Moved(u), 0, true) == map[];
        var w := After(t, u, version, true);
        SecondPruneFindsNothing(t, u, version);
        NoChangesMeansUnchanged(t, Moved(w), 0, true);
        SubmodesKeepLabel(w, version);
      }
    }
  }

  // ---------------------------------------------------------------------------
  // The condition is exact
  // ---------------------------------------------------------------------------

  /** A template without a version key has its label pruned and added again by every run, on every document. */
  lemma LabelIsPrunedForever(t: Fields, u: Fields, version: string)
    requires VERSION !in t && t != map[]
    ensures Writes(t, u, version, true) && !Settles(t, Document(Mapping(u)), version, true)
  {
    PruneKeepsTemplateKeys(t, Moved(u));
    PruneKeepsTemplateKeys(t, Moved(After(t, u, version, true)));
    TwoWritesUnsettle(t, u, version, true);
  }

  lemma PruneKeepsTemplateKeys(t: Fields, v: Fields)
    ensures Merge(t, v, 0, true).Keys == t.Keys
  {
  }

  /** Where the flat switch is pruned, a document with a legacy switch is written by every run. */
  lemma FlatSwitchPruneIsWritten(t: Fields, u: Fields, version: string)
    requires RulesOut(t, SWITCH_PATH) && HasLegacySwitch(u) && t != map[]
    ensures Writes(t, u, version, true)
  {
    var v := Moved(u);
    FlatSwitchMeans(u);
    KvcKeepsModes(SubmodesMoved(u));
    SameAgentSameSwitches(v, SubmodesMoved(u));
    RulesOutMeans(t, v, SWITCH_PATH);
    assert Missing(v, t, 0) != {};
    PruneKeepsTemplateKeys(t, v);
  }

  /** The document that holds one legacy memory switch and nothing else. */
  function OneSwitch(key: string): Fields {
    var mode := Mapping(map["memory" := Mapping(map["enabled" := Bool(true)])]);
    map["modes" := Mapping(map["agent" := Mapping(map[key := mode])])]
  }

  lemma OneSwitchHasSwitch(key: string)
    requires key in LEGACY_AGENT_SUBMODE_KEYS
    ensures Lookup(Mapping(OneSwitch(key)), LegacyPath(key)).Some? && HasLegacySwitch(OneSwitch(key))
  {
    var u := OneSwitch(key);
    assert Agent(u).Some? && LegacyValue(Agent(u).value, key).Some?;
    LookLegacy(u, key);
  }

  lemma PrunedSwitchNeverSettles(t: Fields, version: string)
    requires PrunesFlatSwitchOnly(t)
    ensures exists file :: !Settles(t, file, version, true)
  {
    var key :| key in LEGACY_AGENT_SUBMODE_KEYS && !RulesOut(t, LegacyPath(key));
    var u, p := OneSwitch(key), LegacyPath(key);
    OneSwitchHasSwitch(key);
    NotRuledOutMeansNotEmpty(t, p);
    FlatSwitchPruneIsWritten(t, u, version);
    KeptSwitch(t, u, version, key);
    FlatSwitchPruneIsWritten(t, After(t, u, version, true), version);
    TwoWritesUnsettle(t, u, version, true);
  }

  lemma NotRuledOutMeansNotEmpty(t: Fields, p: Path)
    requires p != [] && !RulesOut(t, p)
    ensures t != map[]
  {
    if t == map[] {
      LookKey(t, p[0]);
      assert p[..1] == [p[0]] && p[..1][..0] == [];
      assert EndsAt(t, p[..1]);
    }
  }

  /** A legacy switch that the template has room for survives a pruning run. */
  lemma KeptSwitch(t: Fields, u: Fields, version: string, key: string)
    requires key in LEGACY_AGENT_SUBMODE_KEYS && Lookup(Mapping(u), LegacyPath(key)).Some?
    requires !RulesOut(t, LegacyPath(key)) && Writes(t, u, version, true)
    ensures HasLegacySwitch(After(t, u, version, true))
  {
    var p, v := LegacyPath(key), Moved(u);
    assert p[2] == key != MEMORY_PATH[2] == SWITCH_PATH[2];
    SubmodesLeaveRest(u, p);
    KvcLeavesRest(SubmodesMoved(u), p);
    RulesOutMeans(t, v, p);
    ExactlyExtraRemoved(t, v, 0, p);
    LookElsewhere(Merge(t, v, 0, true), VERSION, Text(version), p);
  }

  /**
   With prune, one run settles every file for every version label exactly when the template is empty or
   has room for what a run writes: a version key, no ReAct-level node, no legacy memory switch beside a
   flat memory node with further keys, and no place for a legacy switch without one for the flat switch.
   */
  lemma PruneSettlesIff(t: Fields)
    ensures (forall file, version :: Settles(t, file, version, true)) <==> t == map[] || HasRoom(t)
  {
    if t == map[] || HasRoom(t) {
      forall file, version ensures Settles(t, file, version, true) { SecondPruneDoesNothing(t, file, version); }
    } else if VERSION !in t {
      LabelIsPrunedForever(t, map[], "");
    } else if ShipsLegacyKvc(t) {
      LegacyKvcNeverSettles(t, "", true);
    } else if ShipsLegacySwitch(t) {
      LegacySwitchNeverSettles(t, "", true);
    } else {
      PrunedSwitchNeverSettles(t, "");
    }
  }
}
