/**
 Framing of a server-sent event stream: events end with a blank line, that is, two LF in a row
 (section 9.2.6 of the WHATWG HTML standard, restricted to LF line ends).
 */
module SseFraming {
  import opened Basics

  const LF: Byte := 10
  const SEPARATOR: seq<Byte> := [LF, LF]

  predicate SeparatorAt(b: seq<Byte>, i: nat) {
    i + 2 <= |b| && b[i] == 10 && b[i + 1] == 10
  }

  predicate HasSeparator(b: seq<Byte>) {
    exists i: nat | i < |b| :: SeparatorAt(b, i)
  }

  /** `bytes.find` of the separator: its leftmost position at or after `start`. */
  function Find(b: seq<Byte>, start: nat := 0): (r: Option<nat>)
    requires start <= |b|
    ensures r.Some? ==> start <= r.value && SeparatorAt(b, r.value)
                        && forall i | start <= i < r.value :: !SeparatorAt(b, i)
    ensures r.None? ==> forall i: nat | start <= i :: !SeparatorAt(b, i)
    decreases |b| - start
  {
    if start == |b| then None
    else if SeparatorAt(b, start) then Some(start)
    else Find(b, start + 1)
  }

  // ---------------------------------------------------------------------------
  // What a framing is
  // ---------------------------------------------------------------------------

  function Rejoin(events: seq<seq<Byte>>, rest: seq<Byte>): seq<Byte> {
    if events == [] then rest else events[0] + SEPARATOR + Rejoin(events[1..], rest)
  }

  /** An event ends at the first separator that follows its start. */
  ghost predicate EndsAtFirstSeparator(event: seq<Byte>) {
    forall i: nat | i < |event| :: !SeparatorAt(event + SEPARATOR, i)
  }

  /** The pieces rejoin to the stream, every event ends at the first separator, and none is left over. */
  ghost predicate IsFraming(stream: seq<Byte>, events: seq<seq<Byte>>, rest: seq<Byte>) {
    && Rejoin(events, rest) == stream
    && !HasSeparator(rest)
    && forall e | e in events :: EndsAtFirstSeparator(e)
  }

  lemma FirstEventIsForced(event: seq<Byte>, tail: seq<Byte>)
    requires EndsAtFirstSeparator(event)
    ensures Find(event + SEPARATOR + tail) == Some(|event|)
  {
    var s := event + SEPARATOR + tail;
    assert SeparatorAt(s, |event|);
    forall i: nat | i < |event| ensures !SeparatorAt(s, i) {
      assert !SeparatorAt(event + SEPARATOR, i);
    }
  }

  /** A stream has one framing only. */
  lemma {:induction false} FramingIsUnique(
      stream: seq<Byte>, events: seq<seq<Byte>>, rest: seq<Byte>, events': seq<seq<Byte>>, rest': seq<Byte>)
    requires IsFraming(stream, events, rest) && IsFraming(stream, events', rest')
    ensures events == events' && rest == rest'
    decreases |events|
  {
    if events != [] { FirstEventIsForced(events[0], Rejoin(events[1..], rest)); }
    if events' != [] { FirstEventIsForced(events'[0], Rejoin(events'[1..], rest')); }
    if events != [] && events' != [] {
      var n := |events[0]|;
      assert stream[..n] == events[0] && stream[..n] == events'[0];
      assert stream[n + 2..] == Rejoin(events[1..], rest) && stream[n + 2..] == Rejoin(events'[1..], rest');
      FramingIsUnique(stream[n + 2..], events[1..], rest, events'[1..], rest');
      assert events == [events[0]] + events[1..] && events' == [events'[0]] + events'[1..];
    }
  }

  lemma {:induction false} RejoinAppend(events: seq<seq<Byte>>, more: seq<seq<Byte>>, rest: seq<Byte>)
    ensures Rejoin(events + more, rest) == Rejoin(events, Rejoin(more, rest))
  {
    if events == [] {
      assert events + more == more;
    } else {
      RejoinAppend(events[1..], more, rest);
      assert (events + more)[1..] == events[1..] + more;
    }
  }

  lemma {:induction false} RejoinExtend(events: seq<seq<Byte>>, rest: seq<Byte>, chunk: seq<Byte>)
    ensures Rejoin(events, rest + chunk) == Rejoin(events, rest) + chunk
  {
    if events != [] { RejoinExtend(events[1..], rest, chunk); }
  }

  /** A framing stays valid when bytes arrive: only the leftover has to be framed again. */
  lemma FramingExtends(
      stream: seq<Byte>, events: seq<seq<Byte>>, rest: seq<Byte>, chunk: seq<Byte>,
      more: seq<seq<Byte>>, rest': seq<Byte>)
    requires IsFraming(stream, events, rest) && IsFraming(rest + chunk, more, rest')
    ensures IsFraming(stream + chunk, events + more, rest')
  {
    RejoinExtend(events, rest, chunk);
    RejoinAppend(events, more, rest');
  }

  // ---------------------------------------------------------------------------
  // The framer
  // ---------------------------------------------------------------------------

  /** `_iter_sse_events`: split off complete events from the front of the buffer. */
  method IterSseEvents(input: seq<Byte>) returns (events: seq<seq<Byte>>, buffer: seq<Byte>)
    ensures IsFraming(input, events, buffer)
  {
    events, buffer := [], input;
    var found := Find(buffer);
    while found.Some?
      invariant Rejoin(events, buffer) == input
      invariant forall e | e in events :: EndsAtFirstSeparator(e)
      invariant found == Find(buffer)
      decreases |buffer|
    {
      var event, tail := buffer[..found.value], buffer[found.value + |SEPARATOR|..];
      assert buffer == event + SEPARATOR + tail;
      assert EndsAtFirstSeparator(event) by {
        forall i: nat | i < |event| ensures !SeparatorAt(event + SEPARATOR, i) {
          assert !SeparatorAt(buffer, i);
        }
      }
      RejoinAppend(events, [event], tail);
      assert Rejoin([event], tail) == buffer;
      events := events + [event];
      buffer := tail;
      found := Find(buffer);
    }
  }

  /** Every stream has a framing, found by splitting at the first separator. */
  ghost function Frame(stream: seq<Byte>): (f: (seq<seq<Byte>>, seq<Byte>))
    ensures IsFraming(stream, f.0, f.1)
    decreases |stream|
  {
    var found := Find(stream);
    if found.None? then ([], stream)
    else
      var event, tail := stream[..found.value], stream[found.value + 2..];
      assert stream == event + SEPARATOR + tail;
      assert EndsAtFirstSeparator(event) by {
        forall i: nat | i < |event| ensures !SeparatorAt(event + SEPARATOR, i) {
          assert !SeparatorAt(stream, i);
        }
      }
      var (events, rest) := Frame(tail);
      ([event] + events, rest)
  }

  function Concat(chunks: seq<seq<Byte>>): seq<Byte> {
    if chunks == [] then [] else Concat(chunks[..|chunks| - 1]) + chunks[|chunks| - 1]
  }
}
