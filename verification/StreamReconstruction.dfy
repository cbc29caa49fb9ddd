/**
 The streaming response path end to end: chunks of bytes go through the incremental framer, each
 complete event is decoded and added to the accumulator, and what is left at the end of the stream
 is taken as a last event.  Decoding an event to a payload is a parameter.
 */
module StreamReconstruction {
  import opened Basics
  import opened SseFraming
  import opened StreamAccumulator

  /** The payloads of the pieces that decode to one, in order. */
  function PayloadsOf(pieces: seq<seq<Byte>>, decode: seq<Byte> -> Option<Payload>): seq<Payload> {
    if pieces == [] then []
    else
      var payload := decode(pieces[|pieces| - 1]);
      PayloadsOf(pieces[..|pieces| - 1], decode) + if payload.Some? then [payload.value] else []
  }

  /** The simple version: frame the whole stream once, decode every piece, add up all deltas. */
  ghost function WholeStream(stream: seq<Byte>, decode: seq<Byte> -> Option<Payload>): seq<ChoiceDelta> {
    var (events, rest) := Frame(stream);
    AllChoices(PayloadsOf(events + if rest == [] then [] else [rest], decode))
  }

  lemma {:induction false} AddChoicesAppend(choices: Choices, ps: seq<ChoiceDelta>, qs: seq<ChoiceDelta>)
    ensures AddChoices(choices, ps + qs) == AddChoices(AddChoices(choices, ps), qs)
  {
    if qs == [] {
      assert ps + qs == ps;
    } else {
      AddChoicesAppend(choices, ps, qs[..|qs| - 1]);
      assert (ps + qs)[..|ps + qs| - 1] == ps + qs[..|qs| - 1];
    }
  }

  lemma PayloadsSnoc(pieces: seq<seq<Byte>>, piece: seq<Byte>, decode: seq<Byte> -> Option<Payload>)
    ensures AllChoices(PayloadsOf(pieces + [piece], decode)) ==
            AllChoices(PayloadsOf(pieces, decode)) + if decode(piece).Some? then decode(piece).value.choices else []
  {
    assert (pieces + [piece])[..|pieces|] == pieces;
    var before, payload := PayloadsOf(pieces, decode), decode(piece);
    if payload.Some? {
      assert (before + [payload.value])[..|before|] == before;
    } else {
      assert before + [] == before;
    }
  }

  /** Decode one piece and add its payload. */
  method Feed(acc: StreamingResponseAccumulator, piece: seq<Byte>, decode: seq<Byte> -> Option<Payload>,
              ghost pieces: seq<seq<Byte>>)
    requires acc.choices == AddChoices(map[], AllChoices(PayloadsOf(pieces, decode)))
    modifies acc
    ensures acc.choices == AddChoices(map[], AllChoices(PayloadsOf(pieces + [piece], decode)))
  {
    PayloadsSnoc(pieces, piece, decode);
    var payload := decode(piece);
    if payload.Some? {
      AddChoicesAppend(map[], AllChoices(PayloadsOf(pieces, decode)), payload.value.choices);
      acc.AddPayload(payload.value);
    } else {
      assert AllChoices(PayloadsOf(pieces, decode)) + [] == AllChoices(PayloadsOf(pieces, decode));
    }
  }

  /** The loop over the events that one chunk completes. */
  method FeedAll(acc: StreamingResponseAccumulator, more: seq<seq<Byte>>, decode: seq<Byte> -> Option<Payload>,
                 ghost pieces: seq<seq<Byte>>)
    requires acc.choices == AddChoices(map[], AllChoices(PayloadsOf(pieces, decode)))
    modifies acc
    ensures acc.choices == AddChoices(map[], AllChoices(PayloadsOf(pieces + more, decode)))
  {
    assert pieces + more[..0] == pieces;
    for k := 0 to |more|
      invariant acc.choices == AddChoices(map[], AllChoices(PayloadsOf(pieces + more[..k], decode)))
    {
      Feed(acc, more[k], decode, pieces + more[..k]);
      assert pieces + more[..k] + [more[k]] == pieces + more[..k + 1];
    }
    assert pieces + more[..|more|] == pieces + more;
  }

  /**
   `_stream_sse_response`: however the stream is cut into chunks, the events, the leftover and the
   messages are those of the whole stream.
   */
  method StreamSse(chunks: seq<seq<Byte>>, decode: seq<Byte> -> Option<Payload>)
    returns (messages: seq<Message>, buffer: seq<Byte>, ghost events: seq<seq<Byte>>)
    ensures IsFraming(Concat(chunks), events, buffer)
    ensures (events, buffer) == Frame(Concat(chunks))
    ensures AreMessagesOf(messages, AddChoices(map[], WholeStream(Concat(chunks), decode)))
  {
    var acc := new StreamingResponseAccumulator();
    events, buffer := [], [];
    for i := 0 to |chunks|
      invariant IsFraming(Concat(chunks[..i]), events, buffer)
      invariant acc.choices == AddChoices(map[], AllChoices(PayloadsOf(events, decode)))
    {
      assert chunks[..i + 1][..i] == chunks[..i];
      if chunks[i] != [] {
        var more, rest := IterSseEvents(buffer + chunks[i]);
        FramingExtends(Concat(chunks[..i]), events, buffer, chunks[i], more, rest);
        FeedAll(acc, more, decode, events);
        events, buffer := events + more, rest;
      } else {
        assert Concat(chunks[..i + 1]) == Concat(chunks[..i]);
      }
    }
    assert chunks[..|chunks|] == chunks;
    FramingIsUnique(Concat(chunks), events, buffer, Frame(Concat(chunks)).0, Frame(Concat(chunks)).1);
    if buffer != [] {
      Feed(acc, buffer, decode, events);
    } else {
      assert events + [] == events;
    }
    messages := acc.Messages();
  }

  // ---------------------------------------------------------------------------
  // What the messages say
  // ---------------------------------------------------------------------------

  /** `call` is the in-order concatenation of the tool deltas `ds`. */
  ghost predicate CallSays(call: ToolCall, ds: seq<ToolDelta>) {
    && call.id == LatestIfAny(Texts(ds, IdOf))
    && call.kind == Latest(Texts(ds, KindOf), "function")
    && call.name == Join(Texts(ds, NameOf))
    && call.arguments == Join(Texts(ds, ArgumentsOf))
  }

  /** One tool call for every tool index that occurs, in index order. */
  ghost predicate CallsSay(calls: seq<ToolCall>, cs: seq<ChoiceDelta>, keys: seq<int>) {
    && StrictlyIncreasing(keys) && |calls| == |keys|
    && (forall j :: j in keys <==> ForTool(cs, j) != [])
    && (forall n | 0 <= n < |keys| :: CallSays(calls[n], ForTool(cs, keys[n])))
  }

  /** A text appears in the message as it is, and an empty one not at all. */
  predicate IsShown(shown: Option<string>, text: string) {
    (text != "" ==> shown == Some(text)) && (text == "" ==> shown == None)
  }

  /** `message` is the in-order concatenation of the deltas `cs`, all addressed to one choice. */
  ghost predicate MessageSays(message: Message, cs: seq<ChoiceDelta>) {
    && message.role == Latest(Texts(cs, RoleOf), "assistant")
    && IsShown(message.content, Join(Texts(cs, ContentOf)))
    && IsShown(message.reasoning, Join(Texts(cs, ReasoningOf)))
    && IsShown(message.refusal, Join(Texts(cs, RefusalOf)))
    && exists keys :: CallsSay(message.toolCalls, cs, keys)
  }

  lemma RenderSays(state: ChoiceState, cs: seq<ChoiceDelta>)
    requires Reconstructs(state, cs)
    ensures MessageSays(Render(state), cs)
  {
    var keys := Sorted(state.tools.Keys);
    assert CallsSay(Render(state).toolCalls, cs, keys) by {
      forall j ensures j in keys <==> ForTool(cs, j) != [] {
        assert KnowsTool(state.tools, j, ForTool(cs, j));
      }
      forall n | 0 <= n < |keys| ensures CallSays(Render(state).toolCalls[n], ForTool(cs, keys[n])) {
        assert keys[n] in keys;
        assert KnowsTool(state.tools, keys[n], ForTool(cs, keys[n]));
      }
    }
  }

  /**
   The messages of a stream of deltas: one for every choice index that occurs, in index order, each
   the in-order concatenation of the deltas addressed to that choice, and within it to each tool.
   */
  lemma MessagesSayTheDeltas(cs: seq<ChoiceDelta>, messages: seq<Message>) returns (keys: seq<int>)
    requires AreMessagesOf(messages, AddChoices(map[], cs))
    ensures StrictlyIncreasing(keys) && |messages| == |keys|
    ensures forall i :: i in keys <==> ForChoice(cs, i) != []
    ensures forall k | 0 <= k < |keys| :: MessageSays(messages[k], ForChoice(cs, keys[k]))
  {
    var choices := AddChoices(map[], cs);
    AccumulationReconstructs(cs);
    keys := Sorted(choices.Keys);
    forall k | 0 <= k < |keys| ensures MessageSays(messages[k], ForChoice(cs, keys[k])) {
      RenderSays(choices[keys[k]], ForChoice(cs, keys[k]));
    }
  }
}
