/**
 Reconstruction of assistant messages from streamed deltas.

 A payload is what remains of a decoded JSON object after the type tests of `add_payload`: a field
 of the wrong type is absent, an entry of the wrong type is `NotAnObject`.
 */
module StreamAccumulator {
  import opened Basics

  /** A raw index field: missing, not convertible by `int()`, or an integer. */
  datatype RawIndex = Missing | Unusable | Index(value: int)

  datatype FunctionDelta = FunctionDelta(name: Option<string>, arguments: Option<string>)

  datatype ToolDelta =
    | NotAnObject
    | Tool(index: RawIndex, id: Option<string>, kind: Option<string>, func: Option<FunctionDelta>)

  datatype Delta = Delta(
    role: Option<string>, content: Option<string>, reasoning: Option<string>, refusal: Option<string>,
    tools: seq<ToolDelta>)

  datatype ChoiceDelta =
    | NotAnObject
    | Choice(index: RawIndex, delta: Delta, finish: Option<string>)

  datatype Payload = Payload(objectType: string, choices: seq<ChoiceDelta>)

  datatype CallState = CallState(id: Option<string>, kind: string, name: string, arguments: seq<string>)

  datatype ChoiceState = ChoiceState(
    role: string, content: seq<string>, reasoning: seq<string>, refusal: seq<string>,
    tools: map<int, CallState>, finish: Option<string>)

  const NEW_CALL := CallState(None, "function", "", [])
  const NEW_CHOICE := ChoiceState("assistant", [], [], [], map[], None)

  // ---------------------------------------------------------------------------
  // Which delta is addressed to what
  // ---------------------------------------------------------------------------

  function ChoiceIndex(c: ChoiceDelta): int
    requires c.Choice?
  {
    if c.index.Index? then c.index.value else 0
  }

  /** A tool delta without a usable index counts by its position. */
  function ToolIndex(d: ToolDelta, position: nat): int
    requires d.Tool?
  {
    if d.index.Index? then d.index.value else position
  }

  /** The deltas for choice `i`, in order: those with that index, and for choice 0 also those without a usable one. */
  function ForChoice(cs: seq<ChoiceDelta>, i: int): seq<ChoiceDelta> {
    if cs == [] then []
    else
      var c := cs[|cs| - 1];
      ForChoice(cs[..|cs| - 1], i) +
      if c.Choice? && (c.index == Index(i) || (!c.index.Index? && i == 0)) then [c] else []
  }

  /** The deltas of one `tool_calls` list for tool `j`, in order: with that index, or at that position without one. */
  function InList(ds: seq<ToolDelta>, j: int): seq<ToolDelta> {
    if ds == [] then []
    else
      var n := |ds| - 1;
      InList(ds[..n], j) +
      if ds[n].Tool? && (ds[n].index == Index(j) || (!ds[n].index.Index? && n == j)) then [ds[n]] else []
  }

  /** The deltas for tool `j` in a series of choice deltas, in order. */
  function ForTool(cs: seq<ChoiceDelta>, j: int): seq<ToolDelta> {
    if cs == [] then []
    else
      var c := cs[|cs| - 1];
      ForTool(cs[..|cs| - 1], j) + if c.Choice? then InList(c.delta.tools, j) else []
  }

  /** The texts that are present, in order. */
  function Texts<T>(ds: seq<T>, text: T -> Option<string>): seq<string> {
    if ds == [] then []
    else
      var t := text(ds[|ds| - 1]);
      Texts(ds[..|ds| - 1], text) + if t.Some? then [t.value] else []
  }

  function Latest(texts: seq<string>, default: string): string {
    if texts == [] then default else texts[|texts| - 1]
  }

  function LatestIfAny(texts: seq<string>): Option<string> {
    if texts == [] then None else Some(texts[|texts| - 1])
  }

  function Join(texts: seq<string>): string {
    if texts == [] then "" else Join(texts[..|texts| - 1]) + texts[|texts| - 1]
  }

  function ContentOf(c: ChoiceDelta): Option<string> { if c.Choice? then c.delta.content else None }
  function ReasoningOf(c: ChoiceDelta): Option<string> { if c.Choice? then c.delta.reasoning else None }
  function RefusalOf(c: ChoiceDelta): Option<string> { if c.Choice? then c.delta.refusal else None }
  function RoleOf(c: ChoiceDelta): Option<string> { if c.Choice? then c.delta.role else None }
  function FinishOf(c: ChoiceDelta): Option<string> { if c.Choice? then c.finish else None }
  function IdOf(d: ToolDelta): Option<string> { if d.Tool? then d.id else None }
  function KindOf(d: ToolDelta): Option<string> { if d.Tool? then d.kind else None }
  function NameOf(d: ToolDelta): Option<string> { if d.Tool? && d.func.Some? then d.func.value.name else None }
  function ArgumentsOf(d: ToolDelta): Option<string> {
    if d.Tool? && d.func.Some? then d.func.value.arguments else None
  }

  /** `call` is what the tool deltas `ds` say: names and arguments joined in order, the latest id and type. */
  ghost predicate CallReconstructs(call: CallState, ds: seq<ToolDelta>) {
    && call.id == LatestIfAny(Texts(ds, IdOf))
    && call.kind == Latest(Texts(ds, KindOf), "function")
    && call.name == Join(Texts(ds, NameOf))
    && call.arguments == Texts(ds, ArgumentsOf)
  }

  /** `tools` knows about tool `j` exactly what the deltas `ds` say. */
  ghost predicate KnowsTool(tools: map<int, CallState>, j: int, ds: seq<ToolDelta>) {
    && (j in tools <==> ds != [])
    && (j in tools ==> CallReconstructs(tools[j], ds))
  }

  ghost predicate ToolsReconstruct(tools: map<int, CallState>, cs: seq<ChoiceDelta>) {
    forall j: int :: KnowsTool(tools, j, ForTool(cs, j))
  }

  /** `state` is what the choice deltas `cs`, all addressed to one choice, say. */
  ghost predicate Reconstructs(state: ChoiceState, cs: seq<ChoiceDelta>) {
    && state.role == Latest(Texts(cs, RoleOf), "assistant")
    && state.content == Texts(cs, ContentOf)
    && state.reasoning == Texts(cs, ReasoningOf)
    && state.refusal == Texts(cs, RefusalOf)
    && state.finish == LatestIfAny(Texts(cs, FinishOf))
    && ToolsReconstruct(state.tools, cs)
  }

  // ---------------------------------------------------------------------------
  // One delta at a time
  // ---------------------------------------------------------------------------

  function Append(texts: seq<string>, text: Option<string>): seq<string> {
    if text.Some? then texts + [text.value] else texts
  }

  function AbsorbCall(call: CallState, d: ToolDelta): CallState
    requires d.Tool?
  {
    CallState(if d.id.Some? then d.id else call.id,
              d.kind.GetOr(call.kind),
              if d.func.Some? && d.func.value.name.Some? then call.name + d.func.value.name.value else call.name,
              if d.func.Some? then Append(call.arguments, d.func.value.arguments) else call.arguments)
  }

  function AddTool(tools: map<int, CallState>, d: ToolDelta, position: nat): map<int, CallState> {
    if d.NotAnObject? then tools
    else
      var j := ToolIndex(d, position);
      tools[j := AbsorbCall(if j in tools then tools[j] else NEW_CALL, d)]
  }

  function AddTools(tools: map<int, CallState>, ds: seq<ToolDelta>): map<int, CallState> {
    if ds == [] then tools
    else AddTool(AddTools(tools, ds[..|ds| - 1]), ds[|ds| - 1], |ds| - 1)
  }

  function Absorb(state: ChoiceState, c: ChoiceDelta): ChoiceState
    requires c.Choice?
  {
    ChoiceState(c.delta.role.GetOr(state.role),
                Append(state.content, c.delta.content),
                Append(state.reasoning, c.delta.reasoning),
                Append(state.refusal, c.delta.refusal),
                AddTools(state.tools, c.delta.tools),
                if c.finish.Some? then c.finish else state.finish)
  }

  type Choices = map<int, ChoiceState>

  function AddChoice(choices: Choices, c: ChoiceDelta): Choices {
    if c.NotAnObject? then choices
    else
      var i := ChoiceIndex(c);
      choices[i := Absorb(if i in choices then choices[i] else NEW_CHOICE, c)]
  }

  function AddChoices(choices: Choices, cs: seq<ChoiceDelta>): Choices {
    if cs == [] then choices else AddChoice(AddChoices(choices, cs[..|cs| - 1]), cs[|cs| - 1])
  }

  /** All choice deltas of a series of payloads, in order. */
  function AllChoices(payloads: seq<Payload>): seq<ChoiceDelta> {
    if payloads == [] then [] else AllChoices(payloads[..|payloads| - 1]) + payloads[|payloads| - 1].choices
  }

  // ---------------------------------------------------------------------------
  // The accumulated state is the in-order concatenation
  // ---------------------------------------------------------------------------

  lemma TextsSnoc<T>(ds: seq<T>, d: T, text: T -> Option<string>)
    ensures Texts(ds + [d], text) == Append(Texts(ds, text), text(d))
  {
    assert (ds + [d])[..|ds|] == ds;
  }

  lemma CallSnoc(call: CallState, ds: seq<ToolDelta>, d: ToolDelta)
    requires CallReconstructs(call, ds) && d.Tool?
    ensures CallReconstructs(AbsorbCall(call, d), ds + [d])
  {
    TextsSnoc(ds, d, IdOf);
    TextsSnoc(ds, d, KindOf);
    TextsSnoc(ds, d, NameOf);
    TextsSnoc(ds, d, ArgumentsOf);
    var names := Texts(ds, NameOf);
    if NameOf(d).Some? { assert (names + [NameOf(d).value])[..|names|] == names; }
  }

  lemma ToolSnoc(tools: map<int, CallState>, d: ToolDelta, position: nat, j: int, said: seq<ToolDelta>)
    requires KnowsTool(tools, j, said)
    ensures KnowsTool(AddTool(tools, d, position), j,
                      if d.Tool? && ToolIndex(d, position) == j then said + [d] else said)
  {
    if d.Tool? && ToolIndex(d, position) == j {
      if j !in tools { assert CallReconstructs(NEW_CALL, said); }
      CallSnoc(if j in tools then tools[j] else NEW_CALL, said, d);
    }
  }

  lemma {:induction false} ToolListReconstructs(
      tools: map<int, CallState>, ds: seq<ToolDelta>, j: int, said: seq<ToolDelta>)
    requires KnowsTool(tools, j, said)
    ensures KnowsTool(AddTools(tools, ds), j, said + InList(ds, j))
  {
    if ds == [] {
      assert said + InList(ds, j) == said;
    } else {
      var n := |ds| - 1;
      ToolListReconstructs(tools, ds[..n], j, said);
      ToolSnoc(AddTools(tools, ds[..n]), ds[n], n, j, said + InList(ds[..n], j));
      InListSnoc(ds, j, said);
    }
  }

  lemma InListSnoc(ds: seq<ToolDelta>, j: int, said: seq<ToolDelta>)
    requires ds != []
    ensures var n := |ds| - 1;
            said + InList(ds, j) ==
            if ds[n].Tool? && ToolIndex(ds[n], n) == j then said + InList(ds[..n], j) + [ds[n]]
            else said + InList(ds[..n], j)
  {
    var n := |ds| - 1;
    var init := InList(ds[..n], j);
    assert said + (init + [ds[n]]) == said + init + [ds[n]];
    assert init + [] == init;
  }

  lemma ChoiceSnoc(state: ChoiceState, cs: seq<ChoiceDelta>, c: ChoiceDelta)
    requires Reconstructs(state, cs) && c.Choice?
    ensures Reconstructs(Absorb(state, c), cs + [c])
  {
    TextsSnoc(cs, c, RoleOf);
    TextsSnoc(cs, c, ContentOf);
    TextsSnoc(cs, c, ReasoningOf);
    TextsSnoc(cs, c, RefusalOf);
    TextsSnoc(cs, c, FinishOf);
    assert (cs + [c])[..|cs|] == cs;
    forall j: int ensures KnowsTool(Absorb(state, c).tools, j, ForTool(cs + [c], j)) {
      ToolListReconstructs(state.tools, c.delta.tools, j, ForTool(cs, j));
    }
  }

  /** `choices` holds, for every choice index, exactly what the deltas addressed to it say. */
  ghost predicate AllReconstruct(choices: Choices, cs: seq<ChoiceDelta>) {
    forall i: int ::
      && (i in choices <==> ForChoice(cs, i) != [])
      && (i in choices ==> Reconstructs(choices[i], ForChoice(cs, i)))
  }

  /** For every series of deltas, starting from nothing, the accumulated state is the reconstruction. */
  lemma {:induction false} AccumulationReconstructs(cs: seq<ChoiceDelta>)
    ensures AllReconstruct(AddChoices(map[], cs), cs)
  {
    if cs != [] {
      var init, c := cs[..|cs| - 1], cs[|cs| - 1];
      AccumulationReconstructs(init);
      var prev := AddChoices(map[], init);
      if c.Choice? {
        var i := ChoiceIndex(c);
        if i !in prev { assert Reconstructs(NEW_CHOICE, []); }
        ChoiceSnoc(if i in prev then prev[i] else NEW_CHOICE, ForChoice(init, i), c);
        assert ForChoice(cs, i) == ForChoice(init, i) + [c];
      }
      assert forall k | !(c.Choice? && ChoiceIndex(c) == k) :: ForChoice(cs, k) == ForChoice(init, k);
    }
  }

  // ---------------------------------------------------------------------------
  // Choices are independent
  // ---------------------------------------------------------------------------

  function Get(choices: Choices, i: int): Option<ChoiceState> {
    if i in choices then Some(choices[i]) else None
  }

  function AbsorbAll(state: Option<ChoiceState>, cs: seq<ChoiceDelta>): Option<ChoiceState>
    requires forall c | c in cs :: c.Choice?
  {
    if cs == [] then state
    else Some(Absorb(AbsorbAll(state, cs[..|cs| - 1]).GetOr(NEW_CHOICE), cs[|cs| - 1]))
  }

  lemma ForChoiceSnoc(init: seq<ChoiceDelta>, c: ChoiceDelta, i: int)
    ensures ForChoice(init + [c], i) == ForChoice(init, i) + if c.Choice? && ChoiceIndex(c) == i then [c] else []
  {
    assert (init + [c])[..|init|] == init;
  }

  lemma AddChoicesSnoc(choices: Choices, init: seq<ChoiceDelta>, c: ChoiceDelta)
    ensures AddChoices(choices, init + [c]) == AddChoice(AddChoices(choices, init), c)
  {
    assert (init + [c])[..|init|] == init;
  }

  lemma AbsorbAllSnoc(state: Option<ChoiceState>, cs: seq<ChoiceDelta>, c: ChoiceDelta)
    requires c.Choice? && forall d | d in cs :: d.Choice?
    ensures AbsorbAll(state, cs + [c]) == Some(Absorb(AbsorbAll(state, cs).GetOr(NEW_CHOICE), c))
  {
    assert (cs + [c])[..|cs|] == cs;
  }

  lemma AddChoiceAt(choices: Choices, c: ChoiceDelta, i: int)
    ensures Get(AddChoice(choices, c), i) ==
            if c.Choice? && ChoiceIndex(c) == i then Some(Absorb(Get(choices, i).GetOr(NEW_CHOICE), c))
            else Get(choices, i)
  {
  }

  /** What becomes of choice `i` depends on its own state and its own deltas only. */
  lemma {:induction false} ChoiceIsLocal(choices: Choices, cs: seq<ChoiceDelta>, i: int)
    ensures forall c | c in ForChoice(cs, i) :: c.Choice?
    ensures Get(AddChoices(choices, cs), i) == AbsorbAll(Get(choices, i), ForChoice(cs, i))
  {
    if cs != [] {
      var init, c := cs[..|cs| - 1], cs[|cs| - 1];
      assert cs == init + [c];
      ChoiceIsLocal(choices, init, i);
      ForChoiceSnoc(init, c, i);
      AddChoicesSnoc(choices, init, c);
      AddChoiceAt(AddChoices(choices, init), c, i);
      if c.Choice? && ChoiceIndex(c) == i {
        AbsorbAllSnoc(Get(choices, i), ForChoice(init, i), c);
      } else {
        assert ForChoice(init, i) + [] == ForChoice(init, i);
      }
    }
  }

  lemma CommuteAt(choices: Choices, ps: seq<ChoiceDelta>, qs: seq<ChoiceDelta>, i: int)
    requires ForChoice(ps, i) == [] || ForChoice(qs, i) == []
    ensures Get(AddChoices(AddChoices(choices, ps), qs), i) == Get(AddChoices(AddChoices(choices, qs), ps), i)
  {
    ChoiceIsLocal(choices, ps, i);
    ChoiceIsLocal(choices, qs, i);
    ChoiceIsLocal(AddChoices(choices, ps), qs, i);
    ChoiceIsLocal(AddChoices(choices, qs), ps, i);
  }

  lemma SameEverywhere(a: Choices, b: Choices)
    requires forall i: int :: Get(a, i) == Get(b, i)
    ensures a == b
  {
    forall i: int ensures (i in a <==> i in b) && (i in a ==> a[i] == b[i]) {
      assert Get(a, i) == Get(b, i);
    }
  }

  /** Payloads that speak about disjoint choices can be taken in either order. */
  lemma DisjointPayloadsCommute(choices: Choices, ps: seq<ChoiceDelta>, qs: seq<ChoiceDelta>)
    requires forall i: int :: ForChoice(ps, i) == [] || ForChoice(qs, i) == []
    ensures AddChoices(AddChoices(choices, ps), qs) == AddChoices(AddChoices(choices, qs), ps)
  {
    forall i: int
      ensures Get(AddChoices(AddChoices(choices, ps), qs), i) == Get(AddChoices(AddChoices(choices, qs), ps), i)
    {
      CommuteAt(choices, ps, qs, i);
    }
    SameEverywhere(AddChoices(AddChoices(choices, ps), qs), AddChoices(AddChoices(choices, qs), ps));
  }

  // ---------------------------------------------------------------------------
  // Messages
  // ---------------------------------------------------------------------------

  datatype ToolCall = ToolCall(id: Option<string>, kind: string, name: string, arguments: string)

  /** A message; absent texts are None, and no tool calls are an empty list. */
  datatype Message = Message(
    role: string, content: Option<string>, reasoning: Option<string>, refusal: Option<string>,
    toolCalls: seq<ToolCall>)

  function NonEmpty(text: string): Option<string> {
    if text == "" then None else Some(text)
  }

  function RenderCall(call: CallState): ToolCall {
    ToolCall(call.id, call.kind, call.name, Join(call.arguments))
  }

  function Render(state: ChoiceState): Message {
    var keys := Sorted(state.tools.Keys);
    Message(state.role, NonEmpty(Join(state.content)), NonEmpty(Join(state.reasoning)), NonEmpty(Join(state.refusal)),
            seq(|keys|, k requires 0 <= k < |keys| => assert keys[k] in keys; RenderCall(state.tools[keys[k]])))
  }

  /** One message per choice, in index order. */
  ghost predicate AreMessagesOf(messages: seq<Message>, choices: Choices) {
    var keys := Sorted(choices.Keys);
    && |messages| == |keys|
    && forall k | 0 <= k < |keys| :: keys[k] in choices && messages[k] == Render(choices[keys[k]])
  }

  // ---------------------------------------------------------------------------
  // The accumulator object
  // ---------------------------------------------------------------------------

  class StreamingResponseAccumulator {
    var choices: Choices
    var eventCount: nat
    var eventTypes: map<string, nat>

    constructor ()
      ensures choices == map[] && eventCount == 0 && eventTypes == map[]
    {
      choices, eventCount, eventTypes := map[], 0, map[];
    }

    method AddPayload(payload: Payload)
      modifies this
      ensures choices == AddChoices(old(choices), payload.choices)
      ensures eventCount == old(eventCount) + 1
      ensures eventTypes == old(eventTypes)[
        payload.objectType :=
          1 + if payload.objectType in old(eventTypes) then old(eventTypes)[payload.objectType] else 0]
    {
      eventCount := eventCount + 1;
      var seen := if payload.objectType in eventTypes then eventTypes[payload.objectType] else 0;
      eventTypes := eventTypes[payload.objectType := seen + 1];
      for k := 0 to |payload.choices|
        modifies `choices
        invariant choices == AddChoices(old(choices), payload.choices[..k])
      {
        assert payload.choices[..k + 1][..k] == payload.choices[..k];
        var c := payload.choices[k];
        if c.Choice? {
          var i := ChoiceIndex(c);
          var state := if i in choices then choices[i] else NEW_CHOICE;
          var tools := MergeTools(state.tools, c.delta.tools);
          state := ChoiceState(c.delta.role.GetOr(state.role),
                               Append(state.content, c.delta.content),
                               Append(state.reasoning, c.delta.reasoning),
                               Append(state.refusal, c.delta.refusal),
                               tools,
                               if c.finish.Some? then c.finish else state.finish);
          choices := choices[i := state];
        }
      }
      assert payload.choices[..|payload.choices|] == payload.choices;
    }

    method Messages() returns (messages: seq<Message>)
      ensures AreMessagesOf(messages, choices)
    {
      messages := [];
      var keys := Sorted(choices.Keys);
      for k := 0 to |keys|
        invariant |messages| == k
        invariant forall n | 0 <= n < k :: keys[n] in choices && messages[n] == Render(choices[keys[n]])
      {
        assert keys[k] in keys;
        messages := messages + [Render(choices[keys[k]])];
      }
    }
  }

  /** The loop over one `tool_calls` list. */
  method MergeTools(tools: map<int, CallState>, ds: seq<ToolDelta>) returns (merged: map<int, CallState>)
    ensures merged == AddTools(tools, ds)
  {
    merged := tools;
    for position := 0 to |ds|
      invariant merged == AddTools(tools, ds[..position])
    {
      assert ds[..position + 1][..position] == ds[..position];
      var d := ds[position];
      if d.Tool? {
        var j := ToolIndex(d, position);
        var call := if j in merged then merged[j] else NEW_CALL;
        if d.id.Some? { call := call.(id := d.id); }
        if d.kind.Some? { call := call.(kind := d.kind.value); }
        if d.func.Some? {
          if d.func.value.name.Some? { call := call.(name := call.name + d.func.value.name.value); }
          if d.func.value.arguments.Some? {
            call := call.(arguments := call.arguments + [d.func.value.arguments.value]);
          }
        }
        merged := merged[j := call];
      }
    }
    assert ds[..|ds|] == ds;
  }
}
