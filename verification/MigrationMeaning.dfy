/**
 What the migration does to a document, with every key and value spelled out as a configuration file has
 them.
 */
module MigrationMeaning {
  import opened Basics
  import opened ConfigTree
  import opened TemplateMerge
  import opened TemplateMigration

  function At(f: Fields, p: Path): Option<Node> {
    Lookup(Mapping(f), p)
  }

  // ---------------------------------------------------------------------------
  // The memory switches
  // ---------------------------------------------------------------------------

  /** The switch of a legacy sub-mode. */
  function LegacyAt(u: Fields, mode: string): Option<Node> {
    At(u, ["modes", "agent", mode, "memory", "enabled"])
  }

  function FlatAt(u: Fields): Option<Node> {
    At(u, ["modes", "agent", "memory", "enabled"])
  }

  lemma HasLegacySwitchMeans(u: Fields)
    ensures HasLegacySwitch(u) <==>
            || LegacyAt(u, "plan").Some? || LegacyAt(u, "fast").Some?
            || LegacyAt(u, "agent.plan").Some? || LegacyAt(u, "agent.fast").Some?
    ensures AllLegacySwitchesOn(u) <==>
            forall mode | mode in {"plan", "fast", "agent.plan", "agent.fast"} && LegacyAt(u, mode).Some? ::
              !IsFalsy(LegacyAt(u, mode).value)
  {
    var keys := LEGACY_AGENT_SUBMODE_KEYS;
    assert keys[0] == "plan" && keys[1] == "fast" && keys[2] == "agent.plan" && keys[3] == "agent.fast";
    assert forall key :: key in keys <==> key in {"plan", "fast", "agent.plan", "agent.fast"};
    forall key ensures LegacyAt(u, key) == Lookup(Mapping(u), LegacyPath(key)) { }
    if AllLegacySwitchesOn(u) {
      forall mode | mode in {"plan", "fast", "agent.plan", "agent.fast"} && LegacyAt(u, mode).Some?
        ensures !IsFalsy(LegacyAt(u, mode).value)
      {
        assert mode in keys && Lookup(Mapping(u), LegacyPath(mode)).Some?;
      }
    }
  }

  /** Without a flat switch and with a legacy one, the flat one becomes false exactly if some legacy one is off. */
  lemma MovedSwitchIs(u: Fields)
    requires FlatAt(u).None?
    requires exists mode | mode in {"plan", "fast", "agent.plan", "agent.fast"} :: LegacyAt(u, mode).Some?
    ensures FlatAt(SubmodesMoved(u)) == Some(Bool(true)) || FlatAt(SubmodesMoved(u)) == Some(Bool(false))
    ensures FlatAt(SubmodesMoved(u)) == Some(Bool(false)) <==>
            exists mode | mode in {"plan", "fast", "agent.plan", "agent.fast"} ::
              LegacyAt(u, mode) in {Some(Null), Some(Bool(false)), Some(Number(0.0)), Some(Text("")), Some(List([])),
                                    Some(Mapping(map[]))}
  {
    FlatSwitchMeans(u);
    HasLegacySwitchMeans(u);
  }

  /** The same in the file, after any run that writes it. */
  lemma WrittenSwitchIs(t: Fields, u: Fields, version: string)
    requires FlatAt(u).None? && Writes(t, u, version, false)
    requires exists mode | mode in {"plan", "fast", "agent.plan", "agent.fast"} :: LegacyAt(u, mode).Some?
    ensures FlatAt(After(t, u, version, false)) == FlatAt(SubmodesMoved(u))
  {
    FlatSwitchMeans(u);
    HasLegacySwitchMeans(u);
    MergeKeepsMoves(t, u);
    LabelKeepsMoves(Merge(t, Moved(u), 0, false), u, t, version);
  }

  // ---------------------------------------------------------------------------
  // The cache-affinity node
  // ---------------------------------------------------------------------------

  /** Where the cache-affinity switch is after the move: the user's own one, else that of the ReAct-level node. */
  lemma MovedCacheSwitchIs(u: Fields)
    ensures At(KvcMoved(u), ["kv_cache_affinity_config", "enable_kv_cache_affinity"]) ==
            if At(u, ["kv_cache_affinity_config", "enable_kv_cache_affinity"]).Some?
            then At(u, ["kv_cache_affinity_config", "enable_kv_cache_affinity"])
            else At(u, ["react", "kv_cache_affinity_config", "enable_kv_cache_affinity"])
    ensures At(KvcMoved(u), ["react", "kv_cache_affinity_config"]).None?
  {
    KvcSwitchMoves(u);
    KvcMovedIsClean(u);
  }

  /** The ReAct node stays, and if it is a mapping loses that key only. */
  lemma ReactNodeStays(u: Fields)
    ensures At(KvcMoved(u), ["react"]) ==
            if HasMapping(Mapping(u), ["react"])
            then Some(Mapping(At(u, ["react"]).value.fields - {"kv_cache_affinity_config"}))
            else At(u, ["react"])
  {
    LookKey(u, "react");
    LookKey(KvcMoved(u), "react");
  }

  /** A document with no mapping in either place keeps what it has at the application-level key. */
  lemma CacheNodeStays(u: Fields)
    requires !HasMapping(Mapping(u), ["kv_cache_affinity_config"])
    requires !HasMapping(Mapping(u), ["react", "kv_cache_affinity_config"])
    ensures At(KvcMoved(u), ["kv_cache_affinity_config"]) == At(u, ["kv_cache_affinity_config"])
  {
    LookKey(u, KVC);
    LookKey(KvcMoved(u), KVC);
    LookTwo(u, "react", KVC);
  }

  // ---------------------------------------------------------------------------
  // A run
  // ---------------------------------------------------------------------------

  /** A missing file stays missing; one that is neither empty nor a mapping raises; an empty one counts as a mapping. */
  lemma RunOnOddFile(t: Fields, file: File, version: string, prune: bool)
    ensures file.Absent? ==> Migrate(t, file, version, prune) == (Returned(false), file)
    ensures file.Document? && !file.root.Null? && !file.root.Mapping? ==>
              Migrate(t, file, version, prune) == (Raised, file)
    ensures file == Document(Null) ==>
              var (outcome, after) := Migrate(t, Document(Mapping(map[])), version, prune);
              Migrate(t, file, version, prune) == (outcome, if outcome == Returned(true) then after else file)
  {
  }

  /**
   A run writes exactly if the merge is not empty, and it changed the moved document or the version label is
   not the current one; and then the file has that label.
   */
  lemma RunWritesIff(t: Fields, u: Fields, version: string, prune: bool)
    ensures var merged := Merge(t, Moved(u), 0, prune);
            Migrate(t, Document(Mapping(u)), version, prune).0 == Returned(true) <==>
            merged != map[] && (merged != Moved(u) || At(merged, ["config_version"]) != Some(Text(version)))
    ensures var (outcome, file) := Migrate(t, Document(Mapping(u)), version, prune);
            if outcome == Returned(true)
            then file.Document? && Lookup(file.root, ["config_version"]) == Some(Text(version))
            else outcome == Returned(false) && file == Document(Mapping(u))
  {
    var merged := Merge(t, Moved(u), 0, prune);
    NoChangesMeansUnchanged(t, Moved(u), 0, prune);
    LookKey(merged, VERSION);
    LookKey(Labelled(merged, version), VERSION);
  }
}
