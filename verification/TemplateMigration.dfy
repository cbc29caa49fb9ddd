/**
 Migration of a user's configuration file to the current template: two structural moves of legacy
 settings, the template merge, and a version label.  The file is written only if the merge or the
 label counted a change.
 */
module TemplateMigration {
  import opened Basics
  import opened ConfigTree
  import opened TemplateMerge

  const LEGACY_AGENT_SUBMODE_KEYS: seq<string> := ["plan", "fast", "agent.plan", "agent.fast"]
  const KVC := "kv_cache_affinity_config"
  const KVC_ENABLED := "enable_kv_cache_affinity"
  const VERSION := "config_version"

  // ---------------------------------------------------------------------------
  // The two legacy moves
  // ---------------------------------------------------------------------------

  /** The mapping at a key, if there is one. */
  function Sub(f: Fields, k: string): Option<Fields> {
    if k in f && f[k].Mapping? then Some(f[k].fields) else None
  }

  /** Python's `bool(...)` */
  function Truthy(n: Node): bool {
    match n
    case Null => false
    case Bool(b) => b
    case Number(x) => x != 0.0
    case Text(s) => s != ""
    case List(items) => items != []
    case Mapping(fields) => fields != map[]
  }

  /** The memory switch of one legacy sub-mode. */
  function LegacyValue(agent: Fields, key: string): Option<bool> {
    var mode := Sub(agent, key);
    if mode.None? then None
    else
      var memory := Sub(mode.value, "memory");
      if memory.None? || "enabled" !in memory.value then None
      else Some(Truthy(memory.value["enabled"]))
  }

  function LegacyValues(agent: Fields, keys: seq<string>): seq<bool> {
    if keys == [] then []
    else
      var last := LegacyValue(agent, keys[|keys| - 1]);
      LegacyValues(agent, keys[..|keys| - 1]) + if last.Some? then [last.value] else []
  }

  predicate All(values: seq<bool>) {
    forall v | v in values :: v
  }

  /** The agent node with its flat memory switch, given the legacy ones. */
  function FlatMemory(agent: Fields, values: seq<bool>): Fields {
    var memory := Sub(agent, "memory").GetOr(map[]);
    agent["memory" := Mapping(if "enabled" in memory then memory else memory["enabled" := Bool(All(values))])]
  }

  function SubmodesMoved(u: Fields): Fields {
    var modes := Sub(u, "modes");
    if modes.None? then u
    else
      var agent := Sub(modes.value, "agent");
      if agent.None? then u
      else
        var values := LegacyValues(agent.value, LEGACY_AGENT_SUBMODE_KEYS);
        if values == [] then u
        else u["modes" := Mapping(modes.value["agent" := Mapping(FlatMemory(agent.value, values))])]
  }

  /** `_migrate_legacy_agent_submode_memory` */
  method MoveSubmodes(u: Fields) returns (user: Fields)
    ensures user == SubmodesMoved(u)
  {
    user := u;
    var modes := Sub(u, "modes");
    if modes.None? { return; }
    var agent := Sub(modes.value, "agent");
    if agent.None? { return; }
    var values: seq<bool> := [];
    for i := 0 to |LEGACY_AGENT_SUBMODE_KEYS|
      invariant values == LegacyValues(agent.value, LEGACY_AGENT_SUBMODE_KEYS[..i])
    {
      assert LEGACY_AGENT_SUBMODE_KEYS[..i + 1][..i] == LEGACY_AGENT_SUBMODE_KEYS[..i];
      var value := LegacyValue(agent.value, LEGACY_AGENT_SUBMODE_KEYS[i]);
      if value.Some? { values := values + [value.value]; }
    }
    assert LEGACY_AGENT_SUBMODE_KEYS[..|LEGACY_AGENT_SUBMODE_KEYS|] == LEGACY_AGENT_SUBMODE_KEYS;
    if values == [] { return; }
    user := u["modes" := Mapping(modes.value["agent" := Mapping(FlatMemory(agent.value, values))])];
  }

  /** `_migrate_legacy_kv_cache_affinity_config` */
  function KvcMoved(u: Fields): Fields {
    var react := Sub(u, "react");
    if react.None? then u
    else
      var legacy := Sub(react.value, KVC);
      var rest := u["react" := Mapping(react.value - {KVC})];
      var canonical := Sub(u, KVC);
      if canonical.Some? then
        if KVC_ENABLED !in canonical.value && legacy.Some? && KVC_ENABLED in legacy.value
        then rest[KVC := Mapping(canonical.value[KVC_ENABLED := legacy.value[KVC_ENABLED]])]
        else rest
      else if legacy.Some? then rest[KVC := Mapping(legacy.value)]
      else rest
  }

  // ---------------------------------------------------------------------------
  // The migration
  // ---------------------------------------------------------------------------

  datatype File = Absent | Document(root: Node)

  datatype Outcome = Returned(written: bool) | Raised

  /** The document the merge starts from. */
  function Moved(u: Fields): Fields {
    KvcMoved(SubmodesMoved(u))
  }

  function Labelled(f: Fields, version: string): Fields {
    f[VERSION := Text(version)]
  }

  predicate HasLabel(f: Fields, version: string) {
    VERSION in f && f[VERSION] == Text(version)
  }

  /** Whether a run on the user document `u` writes the file. */
  ghost predicate Writes(t: Fields, u: Fields, version: string, prune: bool) {
    var merged := Merge(t, Moved(u), 0, prune);
    merged != map[] && (Changes(t, Moved(u), 0, prune) > 0 || !HasLabel(merged, version))
  }

  /** The user document after a run. */
  ghost function After(t: Fields, u: Fields, version: string, prune: bool): Fields {
    if Writes(t, u, version, prune) then Labelled(Merge(t, Moved(u), 0, prune), version) else u
  }

  /** The mapping a loaded document stands for: an empty file loads as null. */
  function Loaded(root: Node): Option<Fields> {
    if root.Null? then Some(map[]) else if root.Mapping? then Some(root.fields) else None
  }

  /** `migrate_config_from_template`, on a template document that is a mapping. */
  ghost function Migrate(t: Fields, file: File, version: string, prune: bool): (Outcome, File) {
    if file.Absent? then (Returned(false), file)
    else if Loaded(file.root).None? then (Raised, file)
    else
      var u := Loaded(file.root).value;
      if Writes(t, u, version, prune) then (Returned(true), Document(Mapping(After(t, u, version, prune))))
      else (Returned(false), file)
  }

  method MigrateFromTemplate(agentos: bool, template: File, user: File, version: string, prune: bool)
    returns (outcome: Outcome, file: File)
    ensures agentos || template.Absent? || !template.root.Mapping? ==>
              file == user && outcome == Returned(false)
    ensures !agentos && template.Document? && template.root.Mapping? ==>
              (outcome, file) == Migrate(template.root.fields, user, version, prune)
  {
    outcome, file := Returned(false), user;
    if agentos || user.Absent? || template.Absent? || !template.root.Mapping? { return; }
    var loaded := Loaded(user.root);
    if loaded.None? { return Raised, file; }
    var data := MoveSubmodes(loaded.value);
    data := KvcMoved(data);
    var changes;
    data, changes := DeepMerge(template.root.fields, data, 0, prune);
    if data == map[] { return; }
    if !HasLabel(data, version) {
      data := Labelled(data, version);
      changes := changes + 1;
    } else {
      assert data == Labelled(data, version);
    }
    if changes > 0 {
      return Returned(true), Document(Mapping(data));
    }
  }

  // ---------------------------------------------------------------------------
  // When a second run does nothing
  // ---------------------------------------------------------------------------

  function LegacyPath(key: string): Path {
    ["modes", "agent", key, "memory", "enabled"]
  }

  const MEMORY_PATH: Path := ["modes", "agent", "memory"]
  const SWITCH_PATH: Path := ["modes", "agent", "memory", "enabled"]
  const KVC_PATH: Path := ["react", KVC]

  /** Some legacy sub-mode has a memory switch. */
  ghost predicate HasLegacySwitch(f: Fields) {
    exists key | key in LEGACY_AGENT_SUBMODE_KEYS :: Lookup(Mapping(f), LegacyPath(key)).Some?
  }

  /** The template still ships the former ReAct-level node. */
  predicate ShipsLegacyKvc(t: Fields) {
    Lookup(Mapping(t), KVC_PATH).Some?
  }

  /** The template ships a legacy memory switch beside a flat memory node with other keys. */
  ghost predicate ShipsLegacySwitch(t: Fields) {
    && HasLegacySwitch(t)
    && HasMapping(Mapping(t), MEMORY_PATH)
    && exists k :: k in Lookup(Mapping(t), MEMORY_PATH).value.fields && k != "enabled"
  }

  lemma Look1(f: Fields, a: string, rest: Path)
    ensures Lookup(Mapping(f), [a] + rest) == if a in f then Lookup(f[a], rest) else None
    ensures Sub(f, a).Some? ==> Lookup(Mapping(f), [a] + rest) == Lookup(Mapping(Sub(f, a).value), rest)
    ensures Sub(f, a).None? && rest != [] ==> Lookup(Mapping(f), [a] + rest) == None
  {
    assert ([a] + rest)[1..] == rest;
  }

  lemma LookEmpty(n: Node)
    ensures Lookup(n, []) == Some(n)
  {
  }

  lemma LookKey(f: Fields, a: string)
    ensures Lookup(Mapping(f), [a]) == if a in f then Some(f[a]) else None
  {
    assert [a] == [a] + [];
    Look1(f, a, []);
    if a in f { LookEmpty(f[a]); }
  }

  /** The agent node, reached through `modes`. */
  function Agent(f: Fields): Option<Fields> {
    var modes := Sub(f, "modes");
    if modes.None? then None else Sub(modes.value, "agent")
  }

  lemma LookAgent(f: Fields, rest: Path)
    requires rest != []
    ensures Lookup(Mapping(f), ["modes", "agent"] + rest) ==
            if Agent(f).Some? then Lookup(Mapping(Agent(f).value), rest) else None
  {
    assert ["modes", "agent"] + rest == ["modes"] + (["agent"] + rest);
    Look1(f, "modes", ["agent"] + rest);
    if Sub(f, "modes").Some? { Look1(Sub(f, "modes").value, "agent", rest); }
  }

  lemma LookLegacy(f: Fields, key: string)
    ensures Lookup(Mapping(f), LegacyPath(key)).Some? <==> Agent(f).Some? && LegacyValue(Agent(f).value, key).Some?
    ensures Lookup(Mapping(f), LegacyPath(key)).Some? ==>
              LegacyValue(Agent(f).value, key) == Some(Truthy(Lookup(Mapping(f), LegacyPath(key)).value))
  {
    assert LegacyPath(key) == ["modes", "agent"] + [key, "memory", "enabled"];
    LookAgent(f, [key, "memory", "enabled"]);
    if Agent(f).Some? {
      var agent := Agent(f).value;
      assert [key, "memory", "enabled"] == [key] + (["memory"] + ["enabled"]);
      Look1(agent, key, ["memory"] + ["enabled"]);
      if Sub(agent, key).Some? {
        var mode := Sub(agent, key).value;
        Look1(mode, "memory", ["enabled"]);
        if Sub(mode, "memory").Some? { LookKey(Sub(mode, "memory").value, "enabled"); }
      }
    }
  }

  lemma LookSwitch(f: Fields)
    ensures Lookup(Mapping(f), SWITCH_PATH) ==
            if Agent(f).None? || Sub(Agent(f).value, "memory").None? then None
            else var memory := Sub(Agent(f).value, "memory").value;
                 if "enabled" in memory then Some(memory["enabled"]) else None
  {
    assert SWITCH_PATH == ["modes", "agent"] + ["memory", "enabled"];
    LookAgent(f, ["memory", "enabled"]);
    if Agent(f).Some? {
      assert ["memory", "enabled"] == ["memory"] + ["enabled"];
      Look1(Agent(f).value, "memory", ["enabled"]);
      if Sub(Agent(f).value, "memory").Some? { LookKey(Sub(Agent(f).value, "memory").value, "enabled"); }
    }
  }

  lemma LookMemory(f: Fields)
    ensures Lookup(Mapping(f), MEMORY_PATH) ==
            if Agent(f).Some? && "memory" in Agent(f).value then Some(Agent(f).value["memory"]) else None
  {
    assert MEMORY_PATH == ["modes", "agent"] + ["memory"];
    LookAgent(f, ["memory"]);
    if Agent(f).Some? { LookKey(Agent(f).value, "memory"); }
  }

  lemma LookKvc(f: Fields)
    ensures Lookup(Mapping(f), KVC_PATH).Some? <==> Sub(f, "react").Some? && KVC in Sub(f, "react").value
  {
    assert KVC_PATH == ["react"] + [KVC];
    Look1(f, "react", [KVC]);
    if Sub(f, "react").Some? { LookKey(Sub(f, "react").value, KVC); }
  }

  lemma {:induction false} LegacyValuesPresent(agent: Fields, keys: seq<string>)
    ensures LegacyValues(agent, keys) != [] <==> exists key | key in keys :: LegacyValue(agent, key).Some?
  {
    if keys != [] {
      LegacyValuesPresent(agent, keys[..|keys| - 1]);
      assert keys == keys[..|keys| - 1] + [keys[|keys| - 1]];
    }
  }

  lemma LegacySwitchMeans(f: Fields)
    ensures HasLegacySwitch(f) <==> Agent(f).Some? && LegacyValues(Agent(f).value, LEGACY_AGENT_SUBMODE_KEYS) != []
  {
    forall key ensures Lookup(Mapping(f), LegacyPath(key)).Some? <==>
                       Agent(f).Some? && LegacyValue(Agent(f).value, key).Some? { LookLegacy(f, key); }
    if Agent(f).Some? { LegacyValuesPresent(Agent(f).value, LEGACY_AGENT_SUBMODE_KEYS); }
  }

  // Nothing missing

  /** Replacing one value keeps the document complete, if the new value is complete where both are mappings. */
  lemma ReplaceKeepsComplete(t: Fields, u: Fields, depth: nat, k: string, n: Node)
    requires depth < MAX_DEPTH && Missing(t, u, depth) == {} && k in u
    requires k in t && t[k].Mapping? && n.Mapping? ==> Missing(t[k].fields, n.fields, depth + 1) == {}
    ensures Missing(t, u[k := n], depth) == {}
  {
    NothingMissing(t, u, depth);
    NothingMissing(t, u[k := n], depth);
  }

  lemma CompleteBelow(t: Fields, u: Fields, depth: nat, k: string)
    requires depth < MAX_DEPTH && Missing(t, u, depth) == {}
    ensures k in t ==> k in u
    ensures BothMap(t, u, k) ==> Missing(t[k].fields, u[k].fields, depth + 1) == {}
  {
    NothingMissing(t, u, depth);
  }

  lemma LabelKeepsComplete(t: Fields, m: Fields, version: string)
    requires Missing(t, m, 0) == {}
    ensures Missing(t, Labelled(m, version), 0) == {}
  {
    NothingMissing(t, m, 0);
    NothingMissing(t, Labelled(m, version), 0);
  }

  /** The flat memory node is complete if the template asks for no more than the switch there, or it was a mapping. */
  lemma FlatMemoryComplete(t: Fields, agent: Fields, values: seq<bool>, depth: nat)
    requires depth + 1 < MAX_DEPTH && Missing(t, agent, depth) == {}
    requires || Sub(agent, "memory").Some? || Sub(t, "memory").None?
             || forall k | k in Sub(t, "memory").value :: k == "enabled"
    ensures Missing(t, FlatMemory(agent, values), depth) == {}
  {
    var memory := Sub(agent, "memory").GetOr(map[]);
    var flat := if "enabled" in memory then memory else memory["enabled" := Bool(All(values))];
    CompleteBelow(t, agent, depth, "memory");
    if Sub(t, "memory").Some? {
      var want := Sub(t, "memory").value;
      if Sub(agent, "memory").Some? { NothingMissing(want, memory, depth + 1); }
      NothingMissing(want, flat, depth + 1);
      assert Missing(want, flat, depth + 1) == {};
    }
    if "memory" in agent {
      ReplaceKeepsComplete(t, agent, depth, "memory", Mapping(flat));
    } else {
      assert "memory" !in t;
      NothingMissing(t, agent, depth);
      NothingMissing(t, agent["memory" := Mapping(flat)], depth);
    }
  }

  lemma AgentKeepsComplete(tmodes: Fields, modes: Fields, values: seq<bool>)
    requires Missing(tmodes, modes, 1) == {} && Sub(modes, "agent").Some?
    requires Sub(tmodes, "agent").Some? ==>
               var agent, want := Sub(modes, "agent").value, Sub(tmodes, "agent").value;
               || Sub(agent, "memory").Some? || Sub(want, "memory").None?
               || forall k | k in Sub(want, "memory").value :: k == "enabled"
    ensures Missing(tmodes, modes["agent" := Mapping(FlatMemory(Sub(modes, "agent").value, values))], 1) == {}
  {
    var agent := Sub(modes, "agent").value;
    CompleteBelow(tmodes, modes, 1, "agent");
    if Sub(tmodes, "agent").Some? { FlatMemoryComplete(Sub(tmodes, "agent").value, agent, values, 2); }
    ReplaceKeepsComplete(tmodes, modes, 1, "agent", Mapping(FlatMemory(agent, values)));
  }

  /** The same, from the top of the document. */
  lemma ModesKeepComplete(t: Fields, w: Fields, values: seq<bool>)
    requires Missing(t, w, 0) == {} && Agent(w).Some?
    requires Agent(t).Some? && Sub(Agent(t).value, "memory").Some? && Sub(Agent(w).value, "memory").None? ==>
               forall k | k in Sub(Agent(t).value, "memory").value :: k == "enabled"
    ensures var modes := Sub(w, "modes").value["agent" := Mapping(FlatMemory(Agent(w).value, values))];
            Missing(t, w["modes" := Mapping(modes)], 0) == {}
  {
    var modes := Sub(w, "modes").value;
    CompleteBelow(t, w, 0, "modes");
    if Sub(t, "modes").Some? { AgentKeepsComplete(Sub(t, "modes").value, modes, values); }
    ReplaceKeepsComplete(t, w, 0, "modes", Mapping(modes["agent" := Mapping(FlatMemory(Agent(w).value, values))]));
  }

  lemma SubmodesKeepComplete(t: Fields, w: Fields)
    requires Missing(t, w, 0) == {}
    requires HasLegacySwitch(w) && HasMapping(Mapping(t), MEMORY_PATH) && !HasMapping(Mapping(w), MEMORY_PATH) ==>
               forall k | k in Lookup(Mapping(t), MEMORY_PATH).value.fields :: k == "enabled"
    ensures Missing(t, SubmodesMoved(w), 0) == {}
  {
    LegacySwitchMeans(w);
    if HasLegacySwitch(w) {
      LookMemory(t);
      LookMemory(w);
      ModesKeepComplete(t, w, LegacyValues(Agent(w).value, LEGACY_AGENT_SUBMODE_KEYS));
    }
  }

  // What the moves keep

  /** The legacy switches, read off the document. */
  ghost predicate AllLegacySwitchesOn(u: Fields) {
    forall key | key in LEGACY_AGENT_SUBMODE_KEYS && Lookup(Mapping(u), LegacyPath(key)).Some? ::
      !IsFalsy(Lookup(Mapping(u), LegacyPath(key)).value)
  }

  /** The values that count as off. */
  predicate IsFalsy(n: Node) {
    n == Null || n == Bool(false) || n == Number(0.0) || n == Text("") || n == List([]) || n == Mapping(map[])
  }

  lemma TruthyMeans(n: Node)
    ensures Truthy(n) <==> !IsFalsy(n)
  {
  }

  lemma {:induction false} LegacyValuesAre(agent: Fields, keys: seq<string>)
    ensures All(LegacyValues(agent, keys)) <==>
            forall key | key in keys && LegacyValue(agent, key).Some? :: LegacyValue(agent, key).value
  {
    if keys != [] {
      var init, last := keys[..|keys| - 1], keys[|keys| - 1];
      LegacyValuesAre(agent, init);
      assert forall key :: key in keys <==> key in init || key == last;
      var value := LegacyValue(agent, last);
      assert forall v :: v in LegacyValues(agent, keys) <==> v in LegacyValues(agent, init) || Some(v) == value;
      if value.Some? && value.value {
        assert All(LegacyValues(agent, keys)) <==> All(LegacyValues(agent, init));
      }
    }
  }

  lemma AllSwitchesMeans(u: Fields)
    requires Agent(u).Some?
    ensures All(LegacyValues(Agent(u).value, LEGACY_AGENT_SUBMODE_KEYS)) <==> AllLegacySwitchesOn(u)
  {
    LegacyValuesAre(Agent(u).value, LEGACY_AGENT_SUBMODE_KEYS);
    forall key | LegacyValue(Agent(u).value, key).Some? || Lookup(Mapping(u), LegacyPath(key)).Some?
      ensures Lookup(Mapping(u), LegacyPath(key)).Some?
      ensures LegacyValue(Agent(u).value, key) == Some(!IsFalsy(Lookup(Mapping(u), LegacyPath(key)).value))
    {
      LookLegacy(u, key);
      TruthyMeans(Lookup(Mapping(u), LegacyPath(key)).value);
    }
  }

  /** The flat switch keeps its value; without one it becomes the conjunction of the legacy switches, if any. */
  lemma FlatSwitchMeans(u: Fields)
    ensures Lookup(Mapping(SubmodesMoved(u)), SWITCH_PATH) ==
            if Lookup(Mapping(u), SWITCH_PATH).Some? then Lookup(Mapping(u), SWITCH_PATH)
            else if HasLegacySwitch(u) then Some(Bool(AllLegacySwitchesOn(u)))
            else None
  {
    LookSwitch(u);
    LookSwitch(SubmodesMoved(u));
    LegacySwitchMeans(u);
    if HasLegacySwitch(u) {
      AllSwitchesMeans(u);
      var values := LegacyValues(Agent(u).value, LEGACY_AGENT_SUBMODE_KEYS);
      assert Agent(SubmodesMoved(u)) == Some(FlatMemory(Agent(u).value, values));
    }
  }

  /** Replacing what is at one key leaves the paths through other keys alone. */
  lemma LookElsewhere(f: Fields, k: string, n: Node, p: Path)
    requires p != [] && p[0] != k
    ensures Lookup(Mapping(f[k := n]), p) == Lookup(Mapping(f), p)
  {
  }

  lemma LookInside(f: Fields, k: string, n: Node, p: Path)
    requires p != [] && p[0] == k && k in f && Lookup(n, p[1..]) == Lookup(f[k], p[1..])
    ensures Lookup(Mapping(f[k := n]), p) == Lookup(Mapping(f), p)
  {
  }

  /** The sub-mode move touches nothing beside the flat switch and the memory node made for it. */
  lemma SubmodesLeaveRest(u: Fields, p: Path)
    requires !(p <= MEMORY_PATH) && !(SWITCH_PATH <= p)
    requires !(MEMORY_PATH <= p) || HasMapping(Mapping(u), MEMORY_PATH)
    ensures Lookup(Mapping(SubmodesMoved(u)), p) == Lookup(Mapping(u), p)
  {
    LegacySwitchMeans(u);
    if HasLegacySwitch(u) {
      var modes, agent := Sub(u, "modes").value, Agent(u).value;
      var values := LegacyValues(agent, LEGACY_AGENT_SUBMODE_KEYS);
      var agent' := FlatMemory(agent, values);
      assert MEMORY_PATH == ["modes", "agent", "memory"] && SWITCH_PATH == MEMORY_PATH + ["enabled"];
      if p[0] != "modes" {
        LookElsewhere(u, "modes", Mapping(modes["agent" := Mapping(agent')]), p);
      } else {
        assert |p| == 1 ==> p <= MEMORY_PATH;
        if p[1] == "agent" {
          assert |p| == 2 ==> p <= MEMORY_PATH;
          LookMemory(u);
          FlatMemoryLeavesRest(agent, values, p[2..]);
          LookInside(modes, "agent", Mapping(agent'), p[1..]);
        } else {
          LookElsewhere(modes, "agent", Mapping(agent'), p[1..]);
        }
        LookInside(u, "modes", Mapping(modes["agent" := Mapping(agent')]), p);
      }
    }
  }

  lemma FlatMemoryLeavesRest(agent: Fields, values: seq<bool>, q: Path)
    requires q != [] && q != ["memory"] && !(["memory", "enabled"] <= q)
    requires q[0] == "memory" ==> Sub(agent, "memory").Some?
    ensures Lookup(Mapping(FlatMemory(agent, values)), q) == Lookup(Mapping(agent), q)
  {
    if q[0] == "memory" {
      assert |q| > 1 && q[1] != "enabled";
      var memory := Sub(agent, "memory").value;
      LookElsewhere(memory, "enabled", Bool(All(values)), q[1..]);
    }
  }

  /** The KVC switch keeps its value; without one it takes the value of the ReAct-level node, if that has one. */
  lemma KvcSwitchMoves(u: Fields)
    ensures var switch := Lookup(Mapping(u), [KVC, KVC_ENABLED]);
            var legacy := Lookup(Mapping(u), ["react", KVC, KVC_ENABLED]);
            Lookup(Mapping(KvcMoved(u)), [KVC, KVC_ENABLED]) == if switch.Some? then switch else legacy
  {
    LookTwo(u, KVC, KVC_ENABLED);
    LookTwo(KvcMoved(u), KVC, KVC_ENABLED);
    assert ["react", KVC, KVC_ENABLED] == ["react"] + [KVC, KVC_ENABLED];
    Look1(u, "react", [KVC, KVC_ENABLED]);
    if Sub(u, "react").Some? { LookTwo(Sub(u, "react").value, KVC, KVC_ENABLED); }
  }

  lemma LookTwo(f: Fields, a: string, b: string)
    ensures Lookup(Mapping(f), [a, b]) ==
            if Sub(f, a).Some? && b in Sub(f, a).value then Some(Sub(f, a).value[b]) else None
  {
    assert [a, b] == [a] + [b];
    Look1(f, a, [b]);
    if Sub(f, a).Some? { LookKey(Sub(f, a).value, b); }
  }

  /** The KVC move touches nothing beside the two KVC nodes. */
  lemma KvcLeavesRest(u: Fields, p: Path)
    requires p != [] && p[0] != KVC && p != ["react"] && !(KVC_PATH <= p)
    ensures Lookup(Mapping(KvcMoved(u)), p) == Lookup(Mapping(u), p)
  {
    if Sub(u, "react").Some? && p[0] == "react" {
      var react := Sub(u, "react").value;
      assert |p| > 1 && p[1] != KVC;
      assert Lookup(Mapping(react - {KVC}), p[1..]) == Lookup(Mapping(react), p[1..]);
    }
  }

  /** An application-level node keeps everything it has; without one, the whole ReAct-level node moves up. */
  lemma KvcNodeMoves(u: Fields, k: string)
    ensures Sub(u, KVC).Some? && k in Sub(u, KVC).value ==>
              Lookup(Mapping(KvcMoved(u)), [KVC, k]) == Some(Sub(u, KVC).value[k])
    ensures Sub(u, KVC).Some? && k !in Sub(u, KVC).value && k != KVC_ENABLED ==>
              Lookup(Mapping(KvcMoved(u)), [KVC, k]) == None
    ensures Sub(u, KVC).None? && HasMapping(Mapping(u), KVC_PATH) ==>
              Lookup(Mapping(KvcMoved(u)), [KVC]) == Lookup(Mapping(u), KVC_PATH)
  {
    LookTwo(KvcMoved(u), KVC, k);
    LookTwo(u, "react", KVC);
    LookKey(KvcMoved(u), KVC);
  }

  /**
   A run without prune preserves the user's settings: at every path apart from the version label, the
   flat memory switch and the KVC nodes, a user's value stays, except that a mapping which the template
   has as a mapping too may gain keys.
   */
  lemma MigrationKeepsUserValues(t: Fields, u: Fields, version: string, p: Path)
    requires Lookup(Mapping(u), p).Some?
    requires !(p <= MEMORY_PATH) && !(SWITCH_PATH <= p) && (!(MEMORY_PATH <= p) || HasMapping(Mapping(u), MEMORY_PATH))
    requires p[0] != KVC && p != ["react"] && !(KVC_PATH <= p) && p[0] != VERSION
    ensures var after := Lookup(Mapping(After(t, u, version, false)), p);
            && after.Some?
            && (after != Lookup(Mapping(u), p) ==>
                  after.value.Mapping? && HasMapping(Mapping(u), p) && HasMapping(Mapping(t), p))
  {
    SubmodesLeaveRest(u, p);
    KvcLeavesRest(SubmodesMoved(u), p);
    UserValuesKept(t, Moved(u), 0, false, p);
    LookElsewhere(Merge(t, Moved(u), 0, false), VERSION, Text(version), p);
  }

  // What a run settles

  lemma KvcMovedIsClean(u: Fields)
    ensures Lookup(Mapping(KvcMoved(u)), KVC_PATH).None?
  {
    LookKvc(KvcMoved(u));
  }

  lemma KvcCleanStays(u: Fields)
    requires Lookup(Mapping(u), KVC_PATH).None?
    ensures KvcMoved(u) == u
  {
    LookKvc(u);
    if Sub(u, "react").Some? {
      var react := Sub(u, "react").value;
      assert react - {KVC} == react;
      assert u["react" := Mapping(react)] == u;
    }
  }

  /** After the move, a legacy switch comes with a flat one. */
  lemma SubmodesMovedSettled(u: Fields)
    ensures HasLegacySwitch(SubmodesMoved(u)) ==> Lookup(Mapping(SubmodesMoved(u)), SWITCH_PATH).Some?
  {
    var v := SubmodesMoved(u);
    LegacySwitchMeans(u);
    LegacySwitchMeans(v);
    LookSwitch(v);
    if HasLegacySwitch(u) {
      assert Agent(v) == Some(FlatMemory(Agent(u).value, LegacyValues(Agent(u).value, LEGACY_AGENT_SUBMODE_KEYS)));
    }
  }

  /** With a flat switch in place, the move does nothing. */
  lemma SwitchStays(w: Fields)
    requires Lookup(Mapping(w), SWITCH_PATH).Some? || !HasLegacySwitch(w)
    ensures SubmodesMoved(w) == w
  {
    LegacySwitchMeans(w);
    LookSwitch(w);
    if HasLegacySwitch(w) {
      var modes, agent := Sub(w, "modes").value, Agent(w).value;
      assert agent["memory" := Mapping(Sub(agent, "memory").value)] == agent;
      assert modes["agent" := Mapping(agent)] == modes;
      assert w["modes" := Mapping(modes)] == w;
    }
  }

  lemma KvcKeepsModes(u: Fields)
    ensures Agent(KvcMoved(u)) == Agent(u)
  {
  }

  lemma LabelKeeps(m: Fields, version: string)
    ensures Agent(Labelled(m, version)) == Agent(m) && Sub(Labelled(m, version), "react") == Sub(m, "react")
  {
  }

  lemma SameAgentSameSwitches(f: Fields, g: Fields)
    requires Agent(f) == Agent(g)
    ensures HasLegacySwitch(f) <==> HasLegacySwitch(g)
    ensures Lookup(Mapping(f), SWITCH_PATH).Some? <==> Lookup(Mapping(g), SWITCH_PATH).Some?
  {
    LegacySwitchMeans(f);
    LegacySwitchMeans(g);
    LookSwitch(f);
    LookSwitch(g);
  }

  /** A legacy switch in the merged document was in the user's or in the template's. */
  lemma MergedSwitchHasOrigin(t: Fields, v: Fields)
    requires HasLegacySwitch(Merge(t, v, 0, false))
    ensures HasLegacySwitch(v) || HasLegacySwitch(t)
  {
    var key :| key in LEGACY_AGENT_SUBMODE_KEYS && Lookup(Mapping(Merge(t, v, 0, false)), LegacyPath(key)).Some?;
    if Lookup(Mapping(v), LegacyPath(key)).None? { ExactlyMissingAdded(t, v, 0, false, LegacyPath(key)); }
  }

  /** The document a run writes is complete, and the moves of a second run leave it complete. */
  lemma SecondRunFindsNothingMissing(t: Fields, u: Fields, version: string)
    requires !ShipsLegacyKvc(t) && !ShipsLegacySwitch(t)
    ensures var w := Labelled(Merge(t, Moved(u), 0, false), version);
            Missing(t, Moved(w), 0) == {} && Moved(w) == SubmodesMoved(w)
  {
    var v := Moved(u);
    var m := Merge(t, v, 0, false);
    var w := Labelled(m, version);
    MergeIsIdempotent(t, v, 0, false);
    LabelKeepsComplete(t, m, version);
    LabelKeeps(m, version);
    SameAgentSameSwitches(w, m);
    // the legacy node under react is gone for good
    KvcMovedIsClean(SubmodesMoved(u));
    ExactlyMissingAdded(t, v, 0, false, KVC_PATH);
    LookKvc(m);
    LookKvc(SubmodesMoved(w));
    KvcCleanStays(SubmodesMoved(w));
    // the sub-mode switches
    SubmodesMovedSettled(u);
    KvcKeepsModes(SubmodesMoved(u));
    SameAgentSameSwitches(v, SubmodesMoved(u));
    if HasLegacySwitch(v) {
      UserValuesKept(t, v, 0, false, SWITCH_PATH);
      SwitchStays(w);
    } else {
      if HasLegacySwitch(w) { MergedSwitchHasOrigin(t, v); }
      SubmodesKeepComplete(t, w);
    }
  }

  lemma SubmodesKeepLabel(w: Fields, version: string)
    ensures HasLabel(SubmodesMoved(w), version) <==> HasLabel(w, version)
  {
  }

  /** After one run, another with the same version label returns False and leaves the file as it is. */
  ghost predicate Settles(t: Fields, file: File, version: string, prune: bool) {
    var once := Migrate(t, file, version, prune);
    var twice := Migrate(t, once.1, version, prune);
    twice.1 == once.1 && (once.0.Returned? ==> twice.0 == Returned(false))
  }

  /** With a template that ships neither legacy node, one run settles every starting file. */
  lemma SecondRunDoesNothing(t: Fields, file: File, version: string)
    requires !ShipsLegacyKvc(t) && !ShipsLegacySwitch(t)
    ensures Settles(t, file, version, false)
  {
    if file.Document? && Loaded(file.root).Some? {
      var u := Loaded(file.root).value;
      if Writes(t, u, version, false) {
        var w := After(t, u, version, false);
        SecondRunFindsNothingMissing(t, u, version);
        NoChangesMeansUnchanged(t, Moved(w), 0, false);
        SubmodesKeepLabel(w, version);
      }
    }
  }

  // ---------------------------------------------------------------------------
  // The condition is exact
  // ---------------------------------------------------------------------------

  /** A run writes whenever the moved document lacks something the template has. */
  lemma MissingIsWritten(t: Fields, u: Fields, version: string, prune: bool, p: Path)
    requires LacksAt(Mapping(t), Mapping(Moved(u)), MAX_DEPTH, p)
    ensures Writes(t, u, version, prune)
  {
    var v := Moved(u);
    MissingMeans(t, v, 0, p);
    assert p in Missing(t, v, 0) && |Missing(t, v, 0)| > 0;
        LookupBelow(t, p);
    assert p[0] in Merge(t, v, 0, prune);
  }

  /** If two runs write, the file was not settled by the first. */
  lemma TwoWritesUnsettle(t: Fields, u: Fields, version: string, prune: bool)
    requires Writes(t, u, version, prune) && Writes(t, After(t, u, version, prune), version, prune)
    ensures !Settles(t, Document(Mapping(u)), version, prune)
  {
  }

  /** A template with a ReAct-level node rewrites even an empty file again and again. */
  lemma LegacyKvcNeverSettles(t: Fields, version: string, prune: bool)
    requires ShipsLegacyKvc(t)
    ensures !Settles(t, Document(Mapping(map[])), version, prune)
  {
    LookKvc(t);
    var w := Labelled(t, version);
    LookKey(t, "react");
    LookKey(map[], "react");
    assert Moved(map[]) == map[] && ["react"][..0] == [];
    MissingIsWritten(t, map[], version, prune, ["react"]);
    assert Merge(t, map[], 0, prune) == t;
    KvcMovedIsClean(SubmodesMoved(w));
    assert Sub(Moved(w), "react").Some?;
    LookKey(Moved(w), "react");
    assert KVC_PATH[..1] == ["react"];
    MissingIsWritten(t, w, version, prune, KVC_PATH);
    TwoWritesUnsettle(t, map[], version, prune);
  }

  const BARE_AGENT: Fields := map["modes" := Mapping(map["agent" := Mapping(map["memory" := Null])])]

  lemma BareAgentUnmoved()
    ensures Moved(BARE_AGENT) == BARE_AGENT && Agent(BARE_AGENT) == Some(map["memory" := Null])
  {
    var agent: Fields := map["memory" := Null];
    assert Agent(BARE_AGENT) == Some(agent);
    forall key | key in LEGACY_AGENT_SUBMODE_KEYS ensures LegacyValue(agent, key).None? {
      assert key != "memory";
    }
    LegacyValuesPresent(agent, LEGACY_AGENT_SUBMODE_KEYS);
  }

  /** The bare file lacks the template's legacy sub-modes. */
  lemma BareAgentLacks(t: Fields, key: string)
    requires key in LEGACY_AGENT_SUBMODE_KEYS && Lookup(Mapping(t), LegacyPath(key)).Some?
    ensures LacksAt(Mapping(t), Mapping(BARE_AGENT), MAX_DEPTH, ["modes", "agent", key])
  {
    BareAgentUnmoved();
    var u := BARE_AGENT;
    assert key != "memory";
    LookLegacy(t, key);
    assert ["modes", "agent", key] == ["modes", "agent"] + [key];
    LookAgent(t, [key]);
    LookAgent(u, [key]);
    LookKey(Agent(t).value, key);
    LookKey(Agent(u).value, key);
    assert ["modes", "agent", key][..2] == ["modes", "agent"] == ["modes"] + ["agent"];
    Look1(u, "modes", ["agent"]);
    LookKey(Sub(u, "modes").value, "agent");
  }

  lemma BareAgentGetsSwitch(t: Fields, prune: bool, key: string)
    requires key in LEGACY_AGENT_SUBMODE_KEYS && Lookup(Mapping(t), LegacyPath(key)).Some?
    ensures Lookup(Mapping(Merge(t, BARE_AGENT, 0, prune)), LegacyPath(key)).Some?
  {
    var top := ["modes", "agent", key];
    BareAgentLacks(t, key);
    MissingMeans(t, BARE_AGENT, 0, top);
    assert LegacyPath(key)[..3] == top;
    if Lookup(Mapping(BARE_AGENT), LegacyPath(key)).None? {
      ExactlyMissingAdded(t, BARE_AGENT, 0, prune, LegacyPath(key));
    } else {
      UserValuesKept(t, BARE_AGENT, 0, prune, LegacyPath(key));
    }
  }

  /** Merged into the bare file, the template's legacy switch meets a memory node that is no mapping. */
  lemma BareAgentMerged(t: Fields, prune: bool)
    requires ShipsLegacySwitch(t)
    ensures var m := Merge(t, BARE_AGENT, 0, prune);
            HasLegacySwitch(m) && Lookup(Mapping(m), MEMORY_PATH) == Some(Null)
    ensures exists key :: LacksAt(Mapping(t), Mapping(BARE_AGENT), MAX_DEPTH, ["modes", "agent", key])
  {
    BareAgentUnmoved();
    LookMemory(BARE_AGENT);
    UserValuesKept(t, BARE_AGENT, 0, prune, MEMORY_PATH);
    var key :| key in LEGACY_AGENT_SUBMODE_KEYS && Lookup(Mapping(t), LegacyPath(key)).Some?;
    BareAgentLacks(t, key);
    BareAgentGetsSwitch(t, prune, key);
  }

  /** A document with a legacy switch and no memory mapping gets a memory node that holds the switch alone. */
  lemma FreshMemory(w: Fields, k: string)
    requires HasLegacySwitch(w) && !HasMapping(Mapping(w), MEMORY_PATH) && k != "enabled"
    ensures HasMapping(Mapping(Moved(w)), MEMORY_PATH)
    ensures Lookup(Mapping(Moved(w)), MEMORY_PATH + [k]).None?
  {
    LegacySwitchMeans(w);
    LookMemory(w);
    var values := LegacyValues(Agent(w).value, LEGACY_AGENT_SUBMODE_KEYS);
    var v := Moved(w);
    KvcKeepsModes(SubmodesMoved(w));
    assert Agent(v) == Some(FlatMemory(Agent(w).value, values));
    LookMemory(v);
    assert MEMORY_PATH + [k] == ["modes", "agent"] + (["memory"] + [k]);
    LookAgent(v, ["memory"] + [k]);
    Look1(Agent(v).value, "memory", [k]);
    LookKey(Sub(Agent(v).value, "memory").value, k);
  }

  /** The key that the template has beside the switch is lost when the memory node is made afresh. */
  lemma FreshMemoryIsWritten(t: Fields, w: Fields, version: string, prune: bool)
    requires ShipsLegacySwitch(t) && HasLegacySwitch(w) && !HasMapping(Mapping(w), MEMORY_PATH)
    ensures Writes(t, w, version, prune)
  {
    var k :| k in Lookup(Mapping(t), MEMORY_PATH).value.fields && k != "enabled";
    FreshMemory(w, k);
    LookMemory(t);
    assert MEMORY_PATH + [k] == ["modes", "agent"] + (["memory"] + [k]);
    LookAgent(t, ["memory"] + [k]);
    Look1(Agent(t).value, "memory", [k]);
    LookKey(Sub(Agent(t).value, "memory").value, k);
    assert (MEMORY_PATH + [k])[..3] == MEMORY_PATH;
    MissingIsWritten(t, w, version, prune, MEMORY_PATH + [k]);
  }

  lemma LegacySwitchNeverSettles(t: Fields, version: string, prune: bool)
    requires ShipsLegacySwitch(t)
    ensures !Settles(t, Document(Mapping(BARE_AGENT)), version, prune)
  {
    BareAgentUnmoved();
    BareAgentMerged(t, prune);
    var key :| LacksAt(Mapping(t), Mapping(BARE_AGENT), MAX_DEPTH, ["modes", "agent", key]);
    MissingIsWritten(t, BARE_AGENT, version, prune, ["modes", "agent", key]);
    var m := Merge(t, BARE_AGENT, 0, prune);
    var w := Labelled(m, version);
    LabelKeeps(m, version);
    SameAgentSameSwitches(w, m);
    LookMemory(m);
    LookMemory(w);
    FreshMemoryIsWritten(t, w, version, prune);
    TwoWritesUnsettle(t, BARE_AGENT, version, prune);
  }

  /** One run settles every file, for every version label, exactly when the template ships neither legacy node. */
  lemma SettlesIff(t: Fields)
    ensures (forall file, version :: Settles(t, file, version, false)) <==> !ShipsLegacyKvc(t) && !ShipsLegacySwitch(t)
  {
    if ShipsLegacyKvc(t) {
      LegacyKvcNeverSettles(t, "", false);
    } else if ShipsLegacySwitch(t) {
      LegacySwitchNeverSettles(t, "", false);
    } else {
      forall file, version ensures Settles(t, file, version, false) { SecondRunDoesNothing(t, file, version); }
    }
  }

  // ---------------------------------------------------------------------------
  // When a legacy move reaches the file
  // ---------------------------------------------------------------------------

  /** A legacy setting waits to be moved: a ReAct-level node, or sub-mode switches without a flat one. */
  ghost predicate Pending(u: Fields) {
    || Lookup(Mapping(u), KVC_PATH).Some?
    || (HasLegacySwitch(u) && Lookup(Mapping(u), SWITCH_PATH).None?)
  }

  /** The moves change a document exactly when one is pending. */
  lemma PendingIff(u: Fields)
    ensures Pending(u) <==> Moved(u) != u
  {
    FlatSwitchMeans(u);
    KvcMovedIsClean(SubmodesMoved(u));
    KvcKeepsModes(SubmodesMoved(u));
    SameAgentSameSwitches(Moved(u), SubmodesMoved(u));
    if !Pending(u) {
      SwitchStays(u);
      KvcCleanStays(u);
    }
  }

  /**
   Document `f` has the pending settings of `u` where they belong, and the ReAct-level node is gone unless
   the template ships it.
   */
  ghost predicate MoveInFile(f: Fields, u: Fields, t: Fields) {
    && (Lookup(Mapping(f), KVC_PATH).Some? ==> ShipsLegacyKvc(t))
    && (HasLegacySwitch(u) && Lookup(Mapping(u), SWITCH_PATH).None? ==>
          Lookup(Mapping(f), SWITCH_PATH) == Some(Bool(AllLegacySwitchesOn(u))))
    && var legacy := Lookup(Mapping(u), ["react", KVC, KVC_ENABLED]);
       (legacy.Some? && !legacy.value.Mapping? && Lookup(Mapping(u), [KVC, KVC_ENABLED]).None? ==>
          Lookup(Mapping(f), [KVC, KVC_ENABLED]) == legacy)
  }

  lemma MovesKeepLabel(u: Fields, version: string)
    ensures HasLabel(Moved(u), version) <==> HasLabel(u, version)
  {
    SubmodesKeepLabel(u, version);
  }

  /** The merge keeps what the moves put in place. */
  lemma MergeKeepsMoves(t: Fields, u: Fields)
    ensures MoveInFile(Merge(t, Moved(u), 0, false), u, t)
  {
    var v, m := Moved(u), Merge(t, Moved(u), 0, false);
    KvcMovedIsClean(SubmodesMoved(u));
    ExactlyMissingAdded(t, v, 0, false, KVC_PATH);
    FlatSwitchMeans(u);
    KvcKeepsModes(SubmodesMoved(u));
    LookSwitch(v);
    LookSwitch(SubmodesMoved(u));
    if Lookup(Mapping(v), SWITCH_PATH).Some? { UserValuesKept(t, v, 0, false, SWITCH_PATH); }
    KvcSwitchMoves(SubmodesMoved(u));
    SubmodesLeaveRest(u, [KVC, KVC_ENABLED]);
    SubmodesLeaveRest(u, ["react", KVC, KVC_ENABLED]);
    if Lookup(Mapping(v), [KVC, KVC_ENABLED]).Some? { UserValuesKept(t, v, 0, false, [KVC, KVC_ENABLED]); }
  }

  lemma LabelKeepsMoves(m: Fields, u: Fields, t: Fields, version: string)
    requires MoveInFile(m, u, t)
    ensures MoveInFile(Labelled(m, version), u, t)
  {
    LookElsewhere(m, VERSION, Text(version), KVC_PATH);
    LookElsewhere(m, VERSION, Text(version), SWITCH_PATH);
    LookElsewhere(m, VERSION, Text(version), [KVC, KVC_ENABLED]);
  }

  /** If the template ships a ReAct-level node, a document that had one is always written. */
  lemma PendingKvcIsWritten(t: Fields, u: Fields, version: string)
    requires ShipsLegacyKvc(t) && Lookup(Mapping(u), KVC_PATH).Some?
    ensures Writes(t, u, version, false)
  {
    KvcMovedIsClean(SubmodesMoved(u));
    LookKvc(u);
    SubmodesKeepReact(u);
    LookKey(Moved(u), "react");
    assert KVC_PATH[..1] == ["react"];
    MissingIsWritten(t, u, version, false, KVC_PATH);
  }

  lemma SubmodesKeepReact(u: Fields)
    ensures Sub(SubmodesMoved(u), "react") == Sub(u, "react")
  {
  }

  /**
   The moves are not counted as changes, so a pending one reaches the file exactly when the template
   has something that the moved document lacks, or the version label differs.  Otherwise the run returns
   False and leaves the legacy setting in the file.
   */
  lemma MoveReachesFileIff(t: Fields, u: Fields, version: string)
    requires Pending(u)
    ensures MoveInFile(After(t, u, version, false), u, t) <==> Missing(t, Moved(u), 0) != {} || !HasLabel(u, version)
    ensures Migrate(t, Document(Mapping(u)), version, false) ==
            if Missing(t, Moved(u), 0) != {} || !HasLabel(u, version)
            then (Returned(true), Document(Mapping(After(t, u, version, false))))
            else (Returned(false), Document(Mapping(u)))
  {
    WritesIff(t, u, version);
    if Writes(t, u, version, false) {
      MergeKeepsMoves(t, u);
      LabelKeepsMoves(Merge(t, Moved(u), 0, false), u, t, version);
    } else if Lookup(Mapping(u), KVC_PATH).Some? && ShipsLegacyKvc(t) {
      PendingKvcIsWritten(t, u, version);
    }
  }

  lemma WritesIff(t: Fields, u: Fields, version: string)
    requires Pending(u)
    ensures Writes(t, u, version, false) <==> Missing(t, Moved(u), 0) != {} || !HasLabel(u, version)
  {
    var v := Moved(u);
    MovesKeepLabel(u, version);
    NoChangesMeansUnchanged(t, v, 0, false);
    PendingIsNotEmpty(u);
    if "react" in v { assert "react" in Merge(t, v, 0, false); }
    if "modes" in v { assert "modes" in Merge(t, v, 0, false); }
  }

  lemma PendingIsNotEmpty(u: Fields)
    requires Pending(u)
    ensures "react" in Moved(u) || "modes" in Moved(u)
  {
    LookKvc(u);
    LegacySwitchMeans(u);
  }

  /** A move that is lost: the template asks for nothing, the label is right, and the ReAct-level switch stays. */
  lemma PendingMoveMayBeLost(version: string, on: bool) returns (t: Fields, u: Fields)
    ensures Pending(u) && Lookup(Mapping(u), ["react", KVC, KVC_ENABLED]) == Some(Bool(on))
    ensures Migrate(t, Document(Mapping(u)), version, false) == (Returned(false), Document(Mapping(u)))
    ensures !MoveInFile(After(t, u, version, false), u, t)
  {
    t := map[];
    u := map["react" := Mapping(map[KVC := Mapping(map[KVC_ENABLED := Bool(on)])]), VERSION := Text(version)];
    LookKvc(u);
    assert ["react", KVC, KVC_ENABLED] == ["react"] + [KVC, KVC_ENABLED];
    Look1(u, "react", [KVC, KVC_ENABLED]);
    LookTwo(Sub(u, "react").value, KVC, KVC_ENABLED);
    MoveReachesFileIff(t, u, version);
  }
}
