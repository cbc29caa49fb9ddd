/**
 Inference of the `is_default` flag over a list of model entries: entries are grouped by model name,
 and each group ends up with one default.  Entries that are no mappings keep their place untouched.
 */
module DefaultModels {
  import opened Basics

  /** The `is_default` field: absent, exactly True, exactly False, or something else. */
  datatype Flag = NoFlag | Yes | No | Odd(text: string)

  /** A model entry with its name, its flag and all its other fields. */
  datatype Entry = Junk(raw: string) | Model(name: string, flag: Flag, rest: string)

  predicate InGroup(entries: seq<Entry>, name: string, i: nat) {
    i < |entries| && entries[i].Model? && entries[i].name == name
  }

  predicate ExplicitIn(entries: seq<Entry>, name: string, i: nat) {
    InGroup(entries, name, i) && entries[i].flag == Yes
  }

  /** The default of a group: its first explicit True, or its first member if there is none. */
  predicate IsChosen(entries: seq<Entry>, name: string, i: nat) {
    && InGroup(entries, name, i)
    && if exists j: nat | j < |entries| :: ExplicitIn(entries, name, j)
       then entries[i].flag == Yes && forall j: nat | j < i :: !ExplicitIn(entries, name, j)
       else forall j: nat | j < i :: !InGroup(entries, name, j)
  }

  function Marked(e: Entry, chosen: bool): Entry
    requires e.Model?
  {
    e.(flag := if chosen then Yes else No)
  }

  /** What the inference makes of entry `i`. */
  function InferredAt(entries: seq<Entry>, i: nat): Entry
    requires i < |entries|
  {
    if entries[i].Junk? then entries[i] else Marked(entries[i], IsChosen(entries, entries[i].name, i))
  }

  function Inferred(entries: seq<Entry>): seq<Entry> {
    seq(|entries|, i requires 0 <= i < |entries| => InferredAt(entries, i))
  }

  // ---------------------------------------------------------------------------
  // The loops
  // ---------------------------------------------------------------------------

  predicate Increasing(indices: seq<nat>) {
    forall i, j | 0 <= i < j < |indices| :: indices[i] < indices[j]
  }

  /** `indices` lists, in order, the members of the group among the first `upto` entries. */
  ghost predicate ListsGroup(entries: seq<Entry>, name: string, indices: seq<nat>, upto: nat) {
    && Increasing(indices)
    && forall i: nat :: i in indices <==> i < upto && InGroup(entries, name, i)
  }

  /** The grouping loop: member indices per name, and the names in order of first appearance. */
  method GroupByName(entries: seq<Entry>) returns (groups: map<string, seq<nat>>, order: seq<string>)
    ensures Distinct(order) && forall name :: name in order <==> name in groups
    ensures forall name | name in groups :: groups[name] != [] && ListsGroup(entries, name, groups[name], |entries|)
    ensures forall i | 0 <= i < |entries| && entries[i].Model? :: entries[i].name in groups
  {
    groups, order := map[], [];
    for i := 0 to |entries|
      invariant Distinct(order) && forall name :: name in order <==> name in groups
      invariant forall name | name in groups :: groups[name] != [] && ListsGroup(entries, name, groups[name], i)
      invariant forall j | 0 <= j < i && entries[j].Model? :: entries[j].name in groups
    {
      if entries[i].Model? {
        var name := entries[i].name;
        if name !in groups {
          assert forall k | 0 <= k < |order| :: order[k] in order;
          groups := groups[name := []];
          order := order + [name];
          assert ListsGroup(entries, name, [], i);
        }
        GroupGrows(entries, name, groups[name], i);
        groups := groups[name := groups[name] + [i]];
      }
    }
  }

  lemma GroupGrows(entries: seq<Entry>, name: string, indices: seq<nat>, i: nat)
    requires ListsGroup(entries, name, indices, i) && InGroup(entries, name, i)
    ensures ListsGroup(entries, name, indices + [i], i + 1)
  {
    assert forall k | 0 <= k < |indices| :: indices[k] in indices;
  }

  /** In `result` the listed entries are marked as they should be; all others are as in `before`. */
  ghost predicate GroupMarked(entries: seq<Entry>, before: seq<Entry>, result: seq<Entry>, indices: seq<nat>) {
    && |result| == |before| == |entries|
    && forall i: nat | i < |entries| :: result[i] == if i in indices then InferredAt(entries, i) else before[i]
  }

  lemma MarkNext(entries: seq<Entry>, before: seq<Entry>, result: seq<Entry>, name: string, indices: seq<nat>, j: nat)
    requires ListsGroup(entries, name, indices, |entries|) && j < |indices|
    requires GroupMarked(entries, before, result, indices[..j])
    requires forall i | i in indices :: i < |before| && before[i] == entries[i]
    ensures indices[j] < |entries| && result[indices[j]] == entries[indices[j]] && entries[indices[j]].Model?
    ensures var marked := Marked(entries[indices[j]], IsChosen(entries, name, indices[j]));
            GroupMarked(entries, before, result[indices[j] := marked], indices[..j + 1])
  {
    var idx := indices[j];
    assert idx in indices;
    assert idx !in indices[..j];
    assert indices[..j + 1] == indices[..j] + [idx];
    assert entries[idx].name == name;
  }

  /** The body of the loop over the groups. */
  method MarkGroup(entries: seq<Entry>, before: seq<Entry>, name: string, indices: seq<nat>)
    returns (result: seq<Entry>)
    requires ListsGroup(entries, name, indices, |entries|) && indices != []
    requires |before| == |entries| && forall i | i in indices :: i < |before| && before[i] == entries[i]
    ensures GroupMarked(entries, before, result, indices)
  {
    if |indices| == 1 {
      OnlyMemberIsChosen(entries, name, indices);
      MarkNext(entries, before, before, name, indices, 0);
      result := before[indices[0] := Marked(before[indices[0]], true)];
      assert indices[..1] == indices;
      return;
    }
    var hasExplicit := HasExplicit(entries, name, indices, before);
    if hasExplicit {
      result := MarkFirstExplicit(entries, before, name, indices);
    } else {
      result := MarkFirstMember(entries, before, name, indices);
    }
  }

  method MarkFirstExplicit(entries: seq<Entry>, before: seq<Entry>, name: string, indices: seq<nat>)
    returns (result: seq<Entry>)
    requires ListsGroup(entries, name, indices, |entries|)
    requires |before| == |entries| && forall i | i in indices :: i < |before| && before[i] == entries[i]
    requires exists j: nat | j < |entries| :: ExplicitIn(entries, name, j)
    ensures GroupMarked(entries, before, result, indices)
  {
    result := before;
    assert forall k | 0 <= k < |indices| :: indices[k] in indices;
    var firstTrue := true;
    for j := 0 to |indices|
      invariant GroupMarked(entries, before, result, indices[..j])
      invariant firstTrue <==> forall k | 0 <= k < j :: entries[indices[k]].flag != Yes
    {
      MarkNext(entries, before, result, name, indices, j);
      ChosenByPosition(entries, name, indices, j);
      var idx := indices[j];
      if result[idx].flag == Yes && firstTrue {
        result := result[idx := Marked(result[idx], true)];
        firstTrue := false;
      } else {
        result := result[idx := Marked(result[idx], false)];
      }
    }
    assert indices[..|indices|] == indices;
  }

  method MarkFirstMember(entries: seq<Entry>, before: seq<Entry>, name: string, indices: seq<nat>)
    returns (result: seq<Entry>)
    requires ListsGroup(entries, name, indices, |entries|)
    requires |before| == |entries| && forall i | i in indices :: i < |before| && before[i] == entries[i]
    requires !exists j: nat | j < |entries| :: ExplicitIn(entries, name, j)
    ensures GroupMarked(entries, before, result, indices)
  {
    result := before;
    assert forall k | 0 <= k < |indices| :: indices[k] in indices;
    for j := 0 to |indices|
      invariant GroupMarked(entries, before, result, indices[..j])
    {
      MarkNext(entries, before, result, name, indices, j);
      ChosenByPosition(entries, name, indices, j);
      result := result[indices[j] := Marked(result[indices[j]], j == 0)];
    }
    assert indices[..|indices|] == indices;
  }

  /** The search for an explicit True in the group. */
  method HasExplicit(entries: seq<Entry>, name: string, indices: seq<nat>, result: seq<Entry>) returns (found: bool)
    requires ListsGroup(entries, name, indices, |entries|)
    requires |result| == |entries| && forall i | i in indices :: result[i] == entries[i]
    ensures found <==> exists j: nat | j < |entries| :: ExplicitIn(entries, name, j)
  {
    assert forall k | 0 <= k < |indices| :: indices[k] in indices;
    found := false;
    for j := 0 to |indices|
      invariant !found && forall k | 0 <= k < j :: entries[indices[k]].flag != Yes
    {
      if result[indices[j]].flag == Yes {
        assert ExplicitIn(entries, name, indices[j]);
        return true;
      }
    }
    forall i: nat | i < |entries| ensures !ExplicitIn(entries, name, i) {
      if InGroup(entries, name, i) { assert i in indices; }
    }
  }

  lemma OnlyMemberIsChosen(entries: seq<Entry>, name: string, indices: seq<nat>)
    requires ListsGroup(entries, name, indices, |entries|) && |indices| == 1
    ensures IsChosen(entries, name, indices[0]) && entries[indices[0]].Model? && entries[indices[0]].name == name
  {
    assert indices[0] in indices;
    forall j: nat | InGroup(entries, name, j) ensures j == indices[0] { assert j in indices; }
  }

  /** Being chosen, told from the position in the group. */
  lemma ChosenByPosition(entries: seq<Entry>, name: string, indices: seq<nat>, j: nat)
    requires ListsGroup(entries, name, indices, |entries|) && j < |indices|
    requires forall k | 0 <= k < |indices| :: indices[k] in indices
    ensures IsChosen(entries, name, indices[j]) <==>
            if exists i: nat | i < |entries| :: ExplicitIn(entries, name, i)
            then entries[indices[j]].flag == Yes && forall k | 0 <= k < j :: entries[indices[k]].flag != Yes
            else j == 0
  {
    forall i: nat | InGroup(entries, name, i) && i < indices[j] ensures exists k | 0 <= k < j :: indices[k] == i {
      assert i in indices;
      var k :| 0 <= k < |indices| && indices[k] == i;
      assert k < j;
    }
    forall k | 0 <= k < j
      ensures indices[k] < indices[j] && InGroup(entries, name, indices[k])
      ensures ExplicitIn(entries, name, indices[k]) <==> entries[indices[k]].flag == Yes
    {
    }
    assert j > 0 ==> InGroup(entries, name, indices[0]) && indices[0] < indices[j];
  }

  /** The groups named in `done` are marked; all other entries are as they were. */
  ghost predicate GroupsMarked(entries: seq<Entry>, result: seq<Entry>, done: seq<string>) {
    && |result| == |entries|
    && forall i: nat | i < |entries| ::
         result[i] == if entries[i].Model? && entries[i].name in done then InferredAt(entries, i) else entries[i]
  }

  lemma NextGroupMarked(
      entries: seq<Entry>, before: seq<Entry>, result: seq<Entry>, done: seq<string>, name: string, indices: seq<nat>)
    requires GroupsMarked(entries, before, done) && name !in done
    requires ListsGroup(entries, name, indices, |entries|) && GroupMarked(entries, before, result, indices)
    ensures GroupsMarked(entries, result, done + [name])
  {
    forall i: nat | i < |entries|
      ensures result[i] ==
              if entries[i].Model? && entries[i].name in done + [name] then InferredAt(entries, i) else entries[i]
    {
      assert i in indices <==> InGroup(entries, name, i);
    }
  }

  /** `_infer_is_default` */
  method InferIsDefault(entries: seq<Entry>) returns (result: seq<Entry>)
    ensures result == Inferred(entries)
  {
    result := entries;
    var groups, order := GroupByName(entries);
    for g := 0 to |order|
      invariant GroupsMarked(entries, result, order[..g])
    {
      var name := order[g];
      assert name in order && name !in order[..g];
      var next := MarkGroup(entries, result, name, groups[name]);
      NextGroupMarked(entries, result, next, order[..g], name, groups[name]);
      assert order[..g + 1] == order[..g] + [name];
      result := next;
    }
    assert order[..|order|] == order;
    AllGroupsMarked(entries, result, order);
  }

  lemma AllGroupsMarked(entries: seq<Entry>, result: seq<Entry>, order: seq<string>)
    requires GroupsMarked(entries, result, order)
    requires forall i | 0 <= i < |entries| && entries[i].Model? :: entries[i].name in order
    ensures result == Inferred(entries)
  {
  }

  // ---------------------------------------------------------------------------
  // What the inference promises
  // ---------------------------------------------------------------------------

  lemma ChosenIsUnique(entries: seq<Entry>, name: string, i: nat, j: nat)
    requires IsChosen(entries, name, i) && IsChosen(entries, name, j)
    ensures i == j
  {
    assert InGroup(entries, name, i) && InGroup(entries, name, j);
    if exists k: nat | k < |entries| :: ExplicitIn(entries, name, k) {
      assert ExplicitIn(entries, name, i) && ExplicitIn(entries, name, j);
    }
  }

  lemma {:induction false} FirstSuch(entries: seq<Entry>, name: string, explicit: bool, i: nat) returns (first: nat)
    requires InGroup(entries, name, i) && (explicit ==> entries[i].flag == Yes)
    ensures first <= i && InGroup(entries, name, first) && (explicit ==> entries[first].flag == Yes)
    ensures forall j: nat | j < first :: !(InGroup(entries, name, j) && (explicit ==> entries[j].flag == Yes))
    decreases i
  {
    if j: nat :| j < i && InGroup(entries, name, j) && (explicit ==> entries[j].flag == Yes) {
      first := FirstSuch(entries, name, explicit, j);
    } else {
      first := i;
    }
  }

  /** Every group has a default, one and only one, and it is the first explicit True if there was any. */
  lemma OneDefaultPerGroup(entries: seq<Entry>, name: string, i: nat) returns (d: nat)
    requires InGroup(entries, name, i)
    ensures IsChosen(entries, name, d)
    ensures forall j: nat :: ExplicitIn(Inferred(entries), name, j) <==> j == d
    ensures forall j: nat | InGroup(Inferred(entries), name, j) && j != d :: Inferred(entries)[j].flag == No
  {
    if e: nat :| e < |entries| && ExplicitIn(entries, name, e) {
      d := FirstSuch(entries, name, true, e);
      assert forall j: nat | j < d :: !ExplicitIn(entries, name, j);
    } else {
      d := FirstSuch(entries, name, false, i);
    }
    forall j: nat | j < |entries| && IsChosen(entries, name, j) ensures j == d {
      ChosenIsUnique(entries, name, j, d);
    }
    forall j: nat ensures InGroup(Inferred(entries), name, j) <==> InGroup(entries, name, j) { }
  }

  /** Only flags change: length, order, names, other fields and non-mapping entries stay. */
  lemma OnlyFlagsChange(entries: seq<Entry>)
    ensures |Inferred(entries)| == |entries|
    ensures forall i | 0 <= i < |entries| ::
              var e, r := entries[i], Inferred(entries)[i];
              if e.Junk? then r == e else r.Model? && r.name == e.name && r.rest == e.rest && r.flag in {Yes, No}
  {
  }

  /** A second inference changes nothing. */
  lemma InferenceIsIdempotent(entries: seq<Entry>)
    ensures Inferred(Inferred(entries)) == Inferred(entries)
  {
    var once := Inferred(entries);
    forall i: nat | i < |entries| && entries[i].Model? ensures InferredAt(once, i) == once[i] {
      var name := entries[i].name;
      var d := OneDefaultPerGroup(entries, name, i);
      assert ExplicitIn(once, name, d);
      assert IsChosen(once, name, i) <==> i == d;
    }
    assert forall i: nat | i < |entries| && entries[i].Junk? :: InferredAt(once, i) == once[i];
  }
}
