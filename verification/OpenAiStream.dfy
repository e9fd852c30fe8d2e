/** The OpenAI stream decoder (src/adapters/openai/stream.rs). */
module OpenAiStream {
  import opened Bytes
  import opened Neutral

  /** A parsed `chat.completion.chunk`; `error` holds the message of an error payload. */
  datatype Chunk = Chunk(error: Option<Text>, id: string, model: string, choice: Option<Choice>,
                         usage: Option<Usage>)
  datatype Choice = Choice(delta: Option<ChunkDelta>, finishReason: Option<string>)
  datatype ChunkDelta = ChunkDelta(content: Text, reasoning: Text, toolCalls: seq<CallFragment>)
  datatype CallFragment = CallFragment(index: nat, id: string, name: string, arguments: Text)

  datatype Decoder = Decoder(
    started: bool,
    failed: bool,
    stopEmitted: bool,
    seenToolIndices: set<nat>,
    pendingFinish: Option<FinishReason>,
    pendingUsage: Option<Usage>)

  const NEW_DECODER := Decoder(false, false, false, {}, None, None)

  function ParseFinishReason(s: string): FinishReason {
    if s == "stop" then Stop
    else if s == "length" then Length
    else if s == "tool_calls" then ToolCalls
    else if s == "content_filter" then ContentFilter
    else Other(s)
  }

  /** `parse_tool_call`: id and name only from the first fragment of an index. */
  function ParseToolCall(call: CallFragment, seen: set<nat>): Event {
    if call.index in seen then ToolCallDelta(call.index, "", "", call.arguments)
    else ToolCallDelta(call.index, call.id, call.name, call.arguments)
  }

  function ParseToolCalls(calls: seq<CallFragment>, seen: set<nat>): (set<nat>, seq<Event>) {
    if calls == [] then (seen, [])
    else
      var (seen', more) := ParseToolCalls(calls[1..], seen + {calls[0].index});
      (seen', [ParseToolCall(calls[0], seen)] + more)
  }

  function Feed(dec: Decoder, c: Chunk): (Decoder, seq<Event>) {
    if c.error.Some? then (dec.(failed := true), [Error(Api(c.error.value))])
    else
      var start := if dec.started then [] else [MessageStart(c.id, c.model, None)];
      var dec1 := dec.(started := true);
      var usage := if c.usage.Some? then c.usage else dec.pendingUsage;
      if c.choice.None? then (dec1.(pendingUsage := usage), start)
      else
        var choice := c.choice.value;
        var (seen, deltas) :=
          if choice.delta.None? then (dec.seenToolIndices, [])
          else
            var d := choice.delta.value;
            var (seen, calls) := ParseToolCalls(d.toolCalls, dec.seenToolIndices);
            (seen, (if d.content == [] then [] else [TextDelta(d.content)])
                   + (if d.reasoning == [] then [] else [ReasoningDelta(d.reasoning)]) + calls);
        (dec1.(seenToolIndices := seen, pendingUsage := usage,
               pendingFinish := if choice.finishReason.Some? then Some(ParseFinishReason(choice.finishReason.value))
                                else dec.pendingFinish),
         start + deltas)
  }

  function Finish(dec: Decoder): (Decoder, seq<Event>) {
    if !dec.started || dec.failed || dec.stopEmitted then (dec, [])
    else (dec.(stopEmitted := true),
          [MessageStop(if dec.pendingFinish.Some? then dec.pendingFinish.value else Stop, dec.pendingUsage)])
  }

  lemma {:induction false} CallsHaveNoStops(calls: seq<CallFragment>, seen: set<nat>)
    ensures forall e | e in ParseToolCalls(calls, seen).1 :: e.ToolCallDelta?
  {
    if calls != [] {
      CallsHaveNoStops(calls[1..], seen + {calls[0].index});
    }
  }

  /** A chunk never ends the message; only the end of the stream does. */
  lemma {:induction false} FeedNeverStops(dec: Decoder, c: Chunk)
    ensures forall e | e in Feed(dec, c).1 :: !e.MessageStop?
    ensures Feed(dec, c).0.stopEmitted == dec.stopEmitted
  {
    if c.error.None? && c.choice.Some? && c.choice.value.delta.Some? {
      CallsHaveNoStops(c.choice.value.delta.value.toolCalls, dec.seenToolIndices);
    }
  }

  function IndicesOf(calls: seq<CallFragment>): set<nat> { set c | c in calls :: c.index }

  /** One event per fragment; the indices seen grow by those of the fragments. */
  lemma {:induction false} SeenAfter(calls: seq<CallFragment>, seen: set<nat>)
    ensures |ParseToolCalls(calls, seen).1| == |calls|
    ensures ParseToolCalls(calls, seen).0 == seen + IndicesOf(calls)
  {
    if calls != [] {
      SeenAfter(calls[1..], seen + {calls[0].index});
      assert calls == [calls[0]] + calls[1..];
      assert IndicesOf(calls) == {calls[0].index} + IndicesOf(calls[1..]);
    }
  }

  /** Over a run of call fragments each index is introduced with its id and name exactly at its
      first fragment, and every fragment's arguments pass through. */
  lemma {:induction false} IdsComeFirst(calls: seq<CallFragment>, seen: set<nat>, k: nat)
    requires k < |calls|
    ensures |ParseToolCalls(calls, seen).1| == |calls|
    ensures var e := ParseToolCalls(calls, seen).1[k];
            var first := calls[k].index !in seen && forall i | 0 <= i < k :: calls[i].index != calls[k].index;
            e == if first then ToolCallDelta(calls[k].index, calls[k].id, calls[k].name, calls[k].arguments)
                 else ToolCallDelta(calls[k].index, "", "", calls[k].arguments)
  {
    var c, rest := calls[0], calls[1..];
    SeenAfter(calls, seen);
    if k > 0 {
      IdsComeFirst(rest, seen + {c.index}, k - 1);
      assert calls[k] == rest[k - 1];
      assert forall i | 0 < i < k :: calls[i] == rest[i - 1];
      assert forall i | 0 <= i < k - 1 :: rest[i] == calls[i + 1];
    }
  }

  class OpenAiStreamDecoder {
    var started: bool
    var failed: bool
    var stopEmitted: bool
    var seenToolIndices: set<nat>
    var pendingFinish: Option<FinishReason>
    var pendingUsage: Option<Usage>

    ghost function State(): Decoder
      reads this
    {
      Decoder(started, failed, stopEmitted, seenToolIndices, pendingFinish, pendingUsage)
    }

    constructor ()
      ensures State() == NEW_DECODER
    {
      started, failed, stopEmitted, seenToolIndices := false, false, false, {};
      pendingFinish, pendingUsage := None, None;
    }

    /** `feed` on a payload that parses. */
    method FeedChunk(c: Chunk) returns (events: seq<Event>)
      modifies this
      ensures (State(), events) == Feed(old(State()), c)
    {
      if c.error.Some? {
        failed := true;
        return [Error(Api(c.error.value))];
      }
      events := [];
      if !started {
        started := true;
        events := [MessageStart(c.id, c.model, None)];
      }
      if c.choice.None? {
        if c.usage.Some? {
          pendingUsage := c.usage;
        }
        return;
      }
      ghost var start := events;
      assert start + [] == start;
      if c.choice.value.delta.Some? {
        var d := c.choice.value.delta.value;
        var deltas: seq<Event> := if d.content != [] then [TextDelta(d.content)] else [];
        assert deltas + [] == deltas;
        if d.reasoning != [] {
          deltas := deltas + [ReasoningDelta(d.reasoning)];
        }
        var calls := CallEvents(d.toolCalls);
        events := events + (deltas + calls);
      }
      if c.choice.value.finishReason.Some? {
        pendingFinish := Some(ParseFinishReason(c.choice.value.finishReason.value));
      }
      if c.usage.Some? {
        pendingUsage := c.usage;
      }
    }

    /** The loop over `delta.tool_calls`. */
    method CallEvents(calls: seq<CallFragment>) returns (events: seq<Event>)
      modifies this`seenToolIndices
      ensures (seenToolIndices, events) == ParseToolCalls(calls, old(seenToolIndices))
    {
      events := [];
      var k := 0;
      assert calls[0..] == calls;
      ghost var all := ParseToolCalls(calls, seenToolIndices);
      assert [] + all.1 == all.1;
      while k < |calls|
        invariant 0 <= k <= |calls|
        invariant var (seen, more) := ParseToolCalls(calls[k..], seenToolIndices);
                  all == (seen, events + more)
      {
        assert calls[k..][1..] == calls[k + 1..];
        var event := ParseToolCall(calls[k], seenToolIndices);
        ghost var more := ParseToolCalls(calls[k + 1..], seenToolIndices + {calls[k].index}).1;
        assert events + ([event] + more) == events + [event] + more;
        events := events + [event];
        seenToolIndices := seenToolIndices + {calls[k].index};
        k := k + 1;
      }
      assert events + [] == events;
    }

    method FinishStream() returns (events: seq<Event>)
      modifies this
      ensures (State(), events) == Finish(old(State()))
    {
      if !started || failed || stopEmitted {
        return [];
      }
      stopEmitted := true;
      events := [MessageStop(if pendingFinish.Some? then pendingFinish.value else Stop, pendingUsage)];
    }
  }
}
