/** What the OpenAI and Gemini decoders make of a whole stream of chunks
    (src/adapters/openai/stream.rs, src/adapters/gemini/stream.rs). */
module DecoderRuns {
  import opened Bytes
  import opened TokenGrammar
  import opened Neutral
  import opened ChannelRestore
  import opened Relay
  import OpenAi = OpenAiStream
  import Gemini = GeminiStream

  // ----- OpenAI: what the chunks say -----

  function OpenAiRun(d: OpenAi.Decoder, ks: seq<OpenAi.Chunk>): (OpenAi.Decoder, seq<Event>)
    decreases |ks|
  {
    if ks == [] then (d, [])
    else
      var (d1, es) := OpenAi.Feed(d, ks[0]);
      var (d2, more) := OpenAiRun(d1, ks[1..]);
      (d2, es + more)
  }

  function FragmentsText(calls: seq<OpenAi.CallFragment>, i: nat): Text {
    if calls == [] then []
    else (if calls[0].index == i then calls[0].arguments else []) + FragmentsText(calls[1..], i)
  }

  /** What one chunk adds to a channel; an error chunk adds nothing. */
  function OpenAiSays(c: Channel, k: OpenAi.Chunk): Text {
    if k.error.Some? || k.choice.None? || k.choice.value.delta.None? then []
    else
      match c
      case TextChannel => k.choice.value.delta.value.content
      case ReasoningChannel => k.choice.value.delta.value.reasoning
      case ToolChannel(i) => FragmentsText(k.choice.value.delta.value.toolCalls, i)
  }

  function OpenAiText(c: Channel, ks: seq<OpenAi.Chunk>): Text {
    if ks == [] then [] else OpenAiSays(c, ks[0]) + OpenAiText(c, ks[1..])
  }

  lemma {:induction false} FragmentsSay(calls: seq<OpenAi.CallFragment>, seen: set<nat>, c: Channel)
    ensures ChannelText(c, OpenAi.ParseToolCalls(calls, seen).1)
            == if c.ToolChannel? then FragmentsText(calls, c.index) else []
  {
    hide ChannelText;
    NoChannelText(c);
    if calls != [] {
      var e := OpenAi.ParseToolCall(calls[0], seen);
      var more := OpenAi.ParseToolCalls(calls[1..], seen + {calls[0].index}).1;
      FragmentsSay(calls[1..], seen + {calls[0].index}, c);
      ChannelTextConcat(c, [e], more);
      ChannelTextOne(c, e);
    }
  }

  lemma {:induction false} OpenAiChunkSays(d: OpenAi.Decoder, k: OpenAi.Chunk, c: Channel)
    ensures ChannelText(c, OpenAi.Feed(d, k).1) == OpenAiSays(c, k)
  {
    hide ChannelText, FragmentsText, OpenAi.ParseToolCalls, OpenAi.ParseFinishReason;
    NoChannelText(c);
    var es := OpenAi.Feed(d, k).1;
    if k.error.Some? {
      ChannelTextOne(c, es[0]);
    } else {
      var start := if d.started then [] else [MessageStart(k.id, k.model, None)];
      ChannelTextOne(c, MessageStart(k.id, k.model, None));
      if k.choice.Some? && k.choice.value.delta.Some? {
        var t := k.choice.value.delta.value;
        var a := if t.content == [] then [] else [TextDelta(t.content)];
        var b := if t.reasoning == [] then [] else [ReasoningDelta(t.reasoning)];
        var calls := OpenAi.ParseToolCalls(t.toolCalls, d.seenToolIndices).1;
        assert es == start + (a + b + calls);
        ChannelTextOne(c, TextDelta(t.content));
        ChannelTextOne(c, ReasoningDelta(t.reasoning));
        FragmentsSay(t.toolCalls, d.seenToolIndices, c);
        ChannelTextConcat(c, start, a + b + calls);
        ChannelTextConcat(c, a + b, calls);
        ChannelTextConcat(c, a, b);
      } else {
        assert es == start;
      }
    }
  }

  /** Over every stream of chunks, on every channel, the decoder's deltas concatenate to what the
      chunks say, from whatever state it starts. */
  lemma {:induction false} OpenAiStreamSays(d: OpenAi.Decoder, ks: seq<OpenAi.Chunk>, c: Channel)
    ensures ChannelText(c, OpenAiRun(d, ks).1) == OpenAiText(c, ks)
    decreases |ks|
  {
    hide ChannelText, OpenAi.Feed, OpenAiSays;
    NoChannelText(c);
    if ks != [] {
      var (d1, es) := OpenAi.Feed(d, ks[0]);
      OpenAiChunkSays(d, ks[0], c);
      OpenAiStreamSays(d1, ks[1..], c);
      ChannelTextConcat(c, es, OpenAiRun(d1, ks[1..]).1);
    }
  }

  // ----- OpenAI: how the stream ends -----

  function LastReason(ks: seq<OpenAi.Chunk>, before: Option<FinishReason>): Option<FinishReason> {
    if ks == [] then before
    else
      var choice := ks[|ks| - 1].choice;
      if choice.Some? && choice.value.finishReason.Some?
      then Some(OpenAi.ParseFinishReason(choice.value.finishReason.value))
      else LastReason(ks[..|ks| - 1], before)
  }

  function LastUsage(ks: seq<OpenAi.Chunk>, before: Option<Usage>): Option<Usage> {
    if ks == [] then before
    else if ks[|ks| - 1].usage.Some? then ks[|ks| - 1].usage
    else LastUsage(ks[..|ks| - 1], before)
  }

  predicate HasError(ks: seq<OpenAi.Chunk>) { exists i | 0 <= i < |ks| :: ks[i].error.Some? }

  lemma {:induction false} OpenAiRunAppend(d: OpenAi.Decoder, ks: seq<OpenAi.Chunk>, k: OpenAi.Chunk)
    ensures OpenAiRun(d, ks + [k]).0 == OpenAi.Feed(OpenAiRun(d, ks).0, k).0
    decreases |ks|
  {
    hide OpenAi.Feed;
    if ks == [] {
      assert [] + [k] == [k] && [k][1..] == [];
    } else {
      OpenAiRunAppend(OpenAi.Feed(d, ks[0]).0, ks[1..], k);
      assert (ks + [k])[1..] == ks[1..] + [k];
    }
  }

  lemma {:induction false} OpenAiFeedState(d: OpenAi.Decoder, k: OpenAi.Chunk)
    ensures var d' := OpenAi.Feed(d, k).0;
            && d'.stopEmitted == d.stopEmitted && (d'.failed <==> d.failed || k.error.Some?)
            && (k.error.None? ==>
                  && d'.started && d'.pendingUsage == (if k.usage.Some? then k.usage else d.pendingUsage)
                  && d'.pendingFinish == if k.choice.Some? && k.choice.value.finishReason.Some?
                                         then Some(OpenAi.ParseFinishReason(k.choice.value.finishReason.value))
                                         else d.pendingFinish)
  {
    hide OpenAi.ParseToolCalls, OpenAi.ParseFinishReason;
  }

  lemma {:induction false} HasErrorAppend(ks: seq<OpenAi.Chunk>, k: OpenAi.Chunk)
    ensures HasError(ks + [k]) <==> HasError(ks) || k.error.Some?
  {
    var all := ks + [k];
    assert all[|ks|] == k;
    if i :| 0 <= i < |ks| && ks[i].error.Some? {
      assert all[i].error.Some?;
    }
  }

  lemma {:induction false} OpenAiStateAfter(ks: seq<OpenAi.Chunk>)
    ensures var d := OpenAiRun(OpenAi.NEW_DECODER, ks).0;
            && !d.stopEmitted && (d.failed <==> HasError(ks))
            && (!d.failed ==> d.pendingFinish == LastReason(ks, None) && d.pendingUsage == LastUsage(ks, None)
                              && (d.started <==> ks != []))
  {
    hide OpenAi.Feed, OpenAi.ParseFinishReason, HasError;
    NoChunksNoError();
    if ks != [] {
      hide OpenAiRun;
      var front, k := ks[..|ks| - 1], ks[|ks| - 1];
      OpenAiStateAfter(front);
      assert ks == front + [k];
      OpenAiRunAppend(OpenAi.NEW_DECODER, front, k);
      OpenAiFeedState(OpenAiRun(OpenAi.NEW_DECODER, front).0, k);
      HasErrorAppend(front, k);
    }
  }

  /** The end of the stream emits one stop, with the last reason and the last usage the chunks
      carried, exactly when there was a chunk and none was an error. */
  lemma {:induction false} OpenAiStreamStops(ks: seq<OpenAi.Chunk>)
    ensures OpenAi.Finish(OpenAiRun(OpenAi.NEW_DECODER, ks).0).1
            == if ks == [] || HasError(ks) then []
               else [MessageStop(match LastReason(ks, None) case Some(r) => r case None => Stop, LastUsage(ks, None))]
  {
    hide OpenAiRun, LastReason, LastUsage, HasError;
    OpenAiStateAfter(ks);
    NoChunksNoError();
  }

  lemma {:induction false} NoChunksNoError()
    ensures !HasError([]) && OpenAiRun(OpenAi.NEW_DECODER, []).0 == OpenAi.NEW_DECODER
  {
  }

  // ----- OpenAI: the calls of a stream -----

  function ChunkFragments(k: OpenAi.Chunk): seq<OpenAi.CallFragment> {
    if k.error.Some? || k.choice.None? || k.choice.value.delta.None? then []
    else k.choice.value.delta.value.toolCalls
  }

  /** The fragments of a whole stream, in order. */
  function Fragments(ks: seq<OpenAi.Chunk>): seq<OpenAi.CallFragment> {
    if ks == [] then [] else ChunkFragments(ks[0]) + Fragments(ks[1..])
  }

  lemma {:induction false} ParseCallsConcat(a: seq<OpenAi.CallFragment>, b: seq<OpenAi.CallFragment>, seen: set<nat>)
    ensures var (seen1, es) := OpenAi.ParseToolCalls(a, seen);
            var (seen2, more) := OpenAi.ParseToolCalls(b, seen1);
            OpenAi.ParseToolCalls(a + b, seen) == (seen2, es + more)
  {
    hide OpenAi.ParseToolCall;
    if a == [] {
      assert a + b == b;
      var more := OpenAi.ParseToolCalls(b, seen).1;
      assert [] + more == more;
    } else {
      var seen' := seen + {a[0].index};
      ParseCallsConcat(a[1..], b, seen');
      assert (a + b)[1..] == a[1..] + b && (a + b)[0] == a[0];
      var (seen1, es) := OpenAi.ParseToolCalls(a[1..], seen');
      Assoc([OpenAi.ParseToolCall(a[0], seen)], es, OpenAi.ParseToolCalls(b, seen1).1);
    }
  }

  lemma {:induction false} OnlyCalls(calls: seq<OpenAi.CallFragment>, seen: set<nat>)
    ensures Gemini.CallsOf(OpenAi.ParseToolCalls(calls, seen).1) == OpenAi.ParseToolCalls(calls, seen).1
  {
    if calls != [] {
      OnlyCalls(calls[1..], seen + {calls[0].index});
    }
  }

  lemma {:induction false} NotACall(e: Event)
    ensures Gemini.CallsOf([]) == [] && (!e.ToolCallDelta? ==> Gemini.CallsOf([e]) == [])
  {
    assert [e][1..] == [];
  }

  lemma {:induction false} NoFragments(seen: set<nat>)
    ensures OpenAi.ParseToolCalls([], seen) == (seen, [])
  {
  }

  lemma {:induction false} OpenAiChunkCalls(d: OpenAi.Decoder, k: OpenAi.Chunk)
    ensures (OpenAi.Feed(d, k).0.seenToolIndices, Gemini.CallsOf(OpenAi.Feed(d, k).1))
            == OpenAi.ParseToolCalls(ChunkFragments(k), d.seenToolIndices)
  {
    hide Gemini.CallsOf, OpenAi.ParseFinishReason, OpenAi.ParseToolCalls;
    var es := OpenAi.Feed(d, k).1;
    NoFragments(d.seenToolIndices);
    if k.error.Some? {
      NotACall(es[0]);
    } else {
      var start := if d.started then [] else [MessageStart(k.id, k.model, None)];
      NotACall(MessageStart(k.id, k.model, None));
      if k.choice.Some? && k.choice.value.delta.Some? {
        var t := k.choice.value.delta.value;
        var a := if t.content == [] then [] else [TextDelta(t.content)];
        var b := if t.reasoning == [] then [] else [ReasoningDelta(t.reasoning)];
        var calls := OpenAi.ParseToolCalls(t.toolCalls, d.seenToolIndices).1;
        assert es == start + (a + b + calls);
        NotACall(TextDelta(t.content));
        NotACall(ReasoningDelta(t.reasoning));
        OnlyCalls(t.toolCalls, d.seenToolIndices);
        Gemini.CallsConcat(start, a + b + calls);
        Gemini.CallsConcat(a + b, calls);
        Gemini.CallsConcat(a, b);
        assert [] + ([] + [] + calls) == calls;
      } else {
        assert es == start;
      }
    }
  }

  /** The calls of a stream are its fragments in order, however they are spread over chunks: so
      each index is named once in the whole stream, at its first fragment. */
  lemma {:induction false} OpenAiStreamCalls(d: OpenAi.Decoder, ks: seq<OpenAi.Chunk>)
    ensures (OpenAiRun(d, ks).0.seenToolIndices, Gemini.CallsOf(OpenAiRun(d, ks).1))
            == OpenAi.ParseToolCalls(Fragments(ks), d.seenToolIndices)
    decreases |ks|
  {
    hide Gemini.CallsOf, OpenAi.Feed;
    if ks == [] {
      NotACall(TextDelta([]));
    } else {
      var (d1, es) := OpenAi.Feed(d, ks[0]);
      OpenAiChunkCalls(d, ks[0]);
      OpenAiStreamCalls(d1, ks[1..]);
      ParseCallsConcat(ChunkFragments(ks[0]), Fragments(ks[1..]), d.seenToolIndices);
      Gemini.CallsConcat(es, OpenAiRun(d1, ks[1..]).1);
    }
  }

  // ----- Gemini: what the chunks say -----

  function GeminiRun(d: Gemini.Decoder, ks: seq<Gemini.Chunk>): (Gemini.Decoder, seq<Event>)
    decreases |ks|
  {
    if ks == [] then (d, [])
    else
      var (d1, es) := Gemini.Feed(d, ks[0]);
      var (d2, more) := GeminiRun(d1, ks[1..]);
      (d2, es + more)
  }

  function ChunkParts(k: Gemini.Chunk): seq<Gemini.Part> {
    if k.error.Some? || k.candidate.None? then [] else k.candidate.value.parts
  }

  /** The parts of a whole stream, in order. */
  function Parts(ks: seq<Gemini.Chunk>): seq<Gemini.Part> {
    if ks == [] then [] else ChunkParts(ks[0]) + Parts(ks[1..])
  }

  /** The text of the parts that are thoughts, or of those that are not. */
  function PartsText(ps: seq<Gemini.Part>, thoughts: bool): Text {
    if ps == [] then []
    else (if ps[0].text.Some? && ps[0].thought == thoughts then ps[0].text.value else []) + PartsText(ps[1..], thoughts)
  }

  function PartsCalls(ps: seq<Gemini.Part>): seq<Gemini.Call> {
    if ps == [] then [] else (if ps[0].call.Some? then [ps[0].call.value] else []) + PartsCalls(ps[1..])
  }

  /** A call event, field by field: its place in the stream, its own id or `fc_` and the place counted from
      one, its name, its arguments or an empty object. */
  predicate IsCall(e: Event, k: nat, id: string, name: string, args: Text) {
    && e.ToolCallDelta? && e.index == k && e.name == name && e.arguments == args
    && (id != "" ==> e.id == id)
    && (id == "" ==> e.id == "fc_" + Gemini.AsString(Decimal(k + 1)))
  }

  function ArgsOf(call: Gemini.Call): Text { if call.args.Some? then call.args.value else [123, 125] }

  function Numbered(calls: seq<Gemini.Call>, from: nat): (es: seq<Event>)
    ensures |es| == |calls|
    ensures forall k | 0 <= k < |calls| :: es[k] == Gemini.CallEvent(calls[k], from + k)
  {
    seq(|calls|, i requires 0 <= i < |calls| => Gemini.CallEvent(calls[i], from + i))
  }

  lemma {:induction false} NumberedAreCalls(calls: seq<Gemini.Call>, from: nat)
    ensures forall k | 0 <= k < |calls| ::
              IsCall(Numbered(calls, from)[k], from + k, calls[k].id, calls[k].name, ArgsOf(calls[k]))
  {
    forall k | 0 <= k < |calls|
      ensures IsCall(Numbered(calls, from)[k], from + k, calls[k].id, calls[k].name, ArgsOf(calls[k]))
    {
      CallEventIs(calls[k], from + k);
    }
  }

  lemma {:induction false} CallEventIs(call: Gemini.Call, k: nat)
    ensures IsCall(Gemini.CallEvent(call, k), k, call.id, call.name, ArgsOf(call))
  {
  }

  lemma {:induction false} PartSays(p: Gemini.Part, index: nat, thoughts: bool)
    ensures ChannelText(if thoughts then ReasoningChannel else TextChannel, Gemini.PartEvents(p, index).1)
            == if p.text.Some? && p.thought == thoughts then p.text.value else []
  {
    hide ChannelText, Gemini.CallEvent;
    var c := if thoughts then ReasoningChannel else TextChannel;
    NoChannelText(c);
    var es := Gemini.PartEvents(p, index).1;
    var call := if p.call.None? then [] else [Gemini.CallEvent(p.call.value, index)];
    var said := if p.text.None? then []
                else if p.thought then [ReasoningDelta(p.text.value)]
                else if p.text.value == [] then [] else [TextDelta(p.text.value)];
    assert es == said + call;
    ChannelTextConcat(c, said, call);
    if said != [] {
      ChannelTextOne(c, said[0]);
    }
    if call != [] {
      CallIsACall(p.call.value, index);
      ChannelTextOne(c, call[0]);
    }
  }

  lemma {:induction false} CallIsACall(call: Gemini.Call, index: nat)
    ensures Gemini.CallEvent(call, index).ToolCallDelta?
  {
  }

  lemma {:induction false} PartsSay(ps: seq<Gemini.Part>, index: nat, thoughts: bool)
    ensures ChannelText(if thoughts then ReasoningChannel else TextChannel, Gemini.PartsEvents(ps, index).1)
            == PartsText(ps, thoughts)
  {
    hide ChannelText, Gemini.PartEvents;
    var c := if thoughts then ReasoningChannel else TextChannel;
    NoChannelText(c);
    if ps != [] {
      var (i1, es) := Gemini.PartEvents(ps[0], index);
      PartSays(ps[0], index, thoughts);
      PartsSay(ps[1..], i1, thoughts);
      ChannelTextConcat(c, es, Gemini.PartsEvents(ps[1..], i1).1);
    }
  }

  lemma {:induction false} PartsCall(ps: seq<Gemini.Part>, index: nat)
    ensures Gemini.CallsOf(Gemini.PartsEvents(ps, index).1) == Numbered(PartsCalls(ps), index)
    ensures Gemini.PartsEvents(ps, index).0 == index + |PartsCalls(ps)|
  {
    hide Gemini.CallsOf, Gemini.CallEvent;
    if ps == [] {
      NotACall(TextDelta([]));
    } else {
      var (i1, es) := Gemini.PartEvents(ps[0], index);
      PartsCall(ps[1..], i1);
      Gemini.CallsOfPart(ps[0], index);
      Gemini.CallsConcat(es, Gemini.PartsEvents(ps[1..], i1).1);
      var rest := PartsCalls(ps[1..]);
      if ps[0].call.Some? {
        var first := ps[0].call.value;
        assert Numbered([first] + rest, index) == [Gemini.CallEvent(first, index)] + Numbered(rest, index + 1);
      } else {
        assert [] + rest == rest && [] + Numbered(rest, index) == Numbered(rest, index);
      }
    }
  }

  /** Starts, stops and errors, which no channel and no call shows. */
  predicate Silent(es: seq<Event>) {
    forall e | e in es :: e.MessageStart? || e.MessageStop? || e.Error?
  }

  lemma {:induction false} SilenceSaysNothing(es: seq<Event>, c: Channel)
    requires Silent(es)
    ensures ChannelText(c, es) == [] && Gemini.CallsOf(es) == []
  {
    if es != [] {
      assert es[0] in es;
      SilenceSaysNothing(es[1..], c);
    }
  }

  /** A chunk's events are its parts' events, with a start before or a stop after. */
  lemma {:induction false} GeminiChunkShape(d: Gemini.Decoder, k: Gemini.Chunk)
    returns (before: seq<Event>, after: seq<Event>)
    ensures Silent(before) && Silent(after)
    ensures var (index, said) := Gemini.PartsEvents(ChunkParts(k), d.toolIndex);
            Gemini.Feed(d, k).0.toolIndex == index && Gemini.Feed(d, k).1 == before + said + after
  {
    hide Gemini.ParseFinishReason;
    var ps := ChunkParts(k);
    var (d', es) := Gemini.Feed(d, k);
    var said := Gemini.PartsEvents(ps, d.toolIndex).1;
    if k.error.Some? {
      before, after := es, [];
      assert es + [] + [] == es;
    } else {
      before := if d.started then [] else [MessageStart("", k.modelVersion, None)];
      after := if es == before + said then [] else [es[|es| - 1]];
      assert before + said + [] == before + said;
    }
  }

  /** The state and the events of a run, split into what the parts say and silence. */
  lemma {:induction false} GeminiRunSays(d: Gemini.Decoder, ks: seq<Gemini.Chunk>, thoughts: bool)
    ensures ChannelText(if thoughts then ReasoningChannel else TextChannel, GeminiRun(d, ks).1)
            == PartsText(Parts(ks), thoughts)
    ensures Gemini.CallsOf(GeminiRun(d, ks).1) == Numbered(PartsCalls(Parts(ks)), d.toolIndex)
    decreases |ks|
  {
    hide ChannelText, Gemini.CallsOf, Gemini.Feed, Gemini.PartsEvents, Gemini.CallEvent, PartsText, PartsCalls, Silent;
    var c := if thoughts then ReasoningChannel else TextChannel;
    if ks == [] {
      NothingSaid(c, d.toolIndex);
    } else {
      var (d1, es) := Gemini.Feed(d, ks[0]);
      var ps, rest := ChunkParts(ks[0]), Parts(ks[1..]);
      var before, after := GeminiChunkShape(d, ks[0]);
      var said := Gemini.PartsEvents(ps, d.toolIndex).1;
      SilenceSaysNothing(before, c);
      SilenceSaysNothing(after, c);
      PartsSay(ps, d.toolIndex, thoughts);
      PartsCall(ps, d.toolIndex);
      AroundSilence(c, before, said, after);
      GeminiRunSays(d1, ks[1..], thoughts);
      ChannelTextConcat(c, es, GeminiRun(d1, ks[1..]).1);
      Gemini.CallsConcat(es, GeminiRun(d1, ks[1..]).1);
      PartsConcat(ps, rest, thoughts, d.toolIndex);
    }
  }

  lemma {:induction false} NothingSaid(c: Channel, index: nat)
    ensures ChannelText(c, []) == [] && Gemini.CallsOf([]) == [] && PartsCalls([]) == []
    ensures PartsText([], true) == [] && PartsText([], false) == [] && Numbered([], index) == []
  {
  }

  lemma {:induction false} AroundSilence(c: Channel, before: seq<Event>, said: seq<Event>, after: seq<Event>)
    requires ChannelText(c, before) == [] && ChannelText(c, after) == []
    requires Gemini.CallsOf(before) == [] && Gemini.CallsOf(after) == []
    ensures ChannelText(c, before + said + after) == ChannelText(c, said)
    ensures Gemini.CallsOf(before + said + after) == Gemini.CallsOf(said)
  {
    hide ChannelText, Gemini.CallsOf;
    ChannelTextConcat(c, before + said, after);
    ChannelTextConcat(c, before, said);
    Gemini.CallsConcat(before + said, after);
    Gemini.CallsConcat(before, said);
  }

  lemma {:induction false} PartsConcat(a: seq<Gemini.Part>, b: seq<Gemini.Part>, thoughts: bool, index: nat)
    ensures PartsText(a + b, thoughts) == PartsText(a, thoughts) + PartsText(b, thoughts)
    ensures Numbered(PartsCalls(a + b), index)
            == Numbered(PartsCalls(a), index) + Numbered(PartsCalls(b), index + |PartsCalls(a)|)
  {
    hide Gemini.CallEvent, PartsText, PartsCalls;
    PartsTextConcat(a, b, thoughts);
    PartsCallsConcat(a, b);
    var x, y := PartsCalls(a), PartsCalls(b);
    assert Numbered(x + y, index) == Numbered(x, index) + Numbered(y, index + |x|);
  }

  lemma {:induction false} PartsTextConcat(a: seq<Gemini.Part>, b: seq<Gemini.Part>, thoughts: bool)
    ensures PartsText(a + b, thoughts) == PartsText(a, thoughts) + PartsText(b, thoughts)
  {
    if a == [] {
      assert a + b == b;
    } else {
      PartsTextConcat(a[1..], b, thoughts);
      assert (a + b)[1..] == a[1..] + b && (a + b)[0] == a[0];
      var head := if a[0].text.Some? && a[0].thought == thoughts then a[0].text.value else [];
      Assoc(head, PartsText(a[1..], thoughts), PartsText(b, thoughts));
    }
  }

  lemma {:induction false} PartsCallsConcat(a: seq<Gemini.Part>, b: seq<Gemini.Part>)
    ensures PartsCalls(a + b) == PartsCalls(a) + PartsCalls(b)
  {
    if a == [] {
      assert a + b == b;
    } else {
      PartsCallsConcat(a[1..], b);
      assert (a + b)[1..] == a[1..] + b && (a + b)[0] == a[0];
      var call := if a[0].call.Some? then [a[0].call.value] else [];
      Assoc(call, PartsCalls(a[1..]), PartsCalls(b));
    }
  }

  /** Over every stream of chunks: the visible text and the thoughts concatenate to those of the
      parts, and the k-th call event has index k, the name and arguments of the parts' k-th call, and its
      id or, if it has none, `fc_` and the decimal of k + 1. */
  lemma {:induction false} GeminiStreamSays(ks: seq<Gemini.Chunk>)
    ensures var es := GeminiRun(Gemini.NEW_DECODER, ks).1;
            && ChannelText(TextChannel, es) == PartsText(Parts(ks), false)
            && ChannelText(ReasoningChannel, es) == PartsText(Parts(ks), true)
            && Gemini.CallsOf(es) == Numbered(PartsCalls(Parts(ks)), 0)
            && |Gemini.CallsOf(es)| == |PartsCalls(Parts(ks))|
            && forall k | 0 <= k < |PartsCalls(Parts(ks))| ::
                 var call := PartsCalls(Parts(ks))[k];
                 IsCall(Gemini.CallsOf(es)[k], k, call.id, call.name, ArgsOf(call))
  {
    hide ChannelText, Gemini.CallsOf, GeminiRun, PartsText, PartsCalls, Parts, Numbered;
    GeminiRunSays(Gemini.NEW_DECODER, ks, false);
    GeminiRunSays(Gemini.NEW_DECODER, ks, true);
    NumberedAreCalls(PartsCalls(Parts(ks)), 0);
  }

  // ----- Gemini: how the stream ends -----

  /** The stop of a stream: at the first finish reason, with the usage known by then; at the end if
      there is none. */
  function StopOf(ks: seq<Gemini.Chunk>, usage: Option<Usage>): Event {
    if ks == [] then MessageStop(Stop, usage)
    else
      var known := if ks[0].usage.Some? then ks[0].usage else usage;
      var candidate := ks[0].candidate;
      if candidate.Some? && candidate.value.finishReason.Some?
      then MessageStop(Gemini.ParseFinishReason(candidate.value.finishReason.value), known)
      else StopOf(ks[1..], known)
  }

  predicate NoErrors(ks: seq<Gemini.Chunk>) { forall i | 0 <= i < |ks| :: ks[i].error.None? }

  lemma {:induction false} PartsNeverStop(ps: seq<Gemini.Part>, index: nat)
    ensures Stops(Gemini.PartsEvents(ps, index).1) == []
  {
    Gemini.PartsHaveNoStops(ps, index);
    NoStopsHere(Gemini.PartsEvents(ps, index).1);
  }

  /** The stops one chunk emits. */
  lemma {:induction false} GeminiChunkStops(d: Gemini.Decoder, k: Gemini.Chunk)
    requires k.error.None?
    ensures var (d', es) := Gemini.Feed(d, k);
            && d'.started && d'.failed == d.failed
            && Stops(es) == (if d'.pendingFinish.Some? && !d.stopEmitted then [Gemini.StopEvent(d')] else [])
            && (d'.stopEmitted <==> d.stopEmitted || d'.pendingFinish.Some?)
            && (k.candidate.Some? && k.candidate.value.finishReason.Some? ==>
                  d'.pendingFinish == Some(Gemini.ParseFinishReason(k.candidate.value.finishReason.value)))
            && (!(k.candidate.Some? && k.candidate.value.finishReason.Some?) ==> d'.pendingFinish == d.pendingFinish)
            && d'.pendingUsage == if k.usage.Some? then k.usage else d.pendingUsage
  {
    hide Stops, Gemini.PartsEvents, Gemini.ParseFinishReason;
    var (d', es) := Gemini.Feed(d, k);
    var start := if d.started then [] else [MessageStart("", k.modelVersion, None)];
    var said := if k.candidate.None? then [] else Gemini.PartsEvents(k.candidate.value.parts, d.toolIndex).1;
    var stop := if d'.pendingFinish.Some? && !d.stopEmitted then [Gemini.StopEvent(d')] else [];
    assert start + said + [] == start + said;
    assert es == start + said + stop;
    SplitNone();
    if k.candidate.Some? {
      PartsNeverStop(k.candidate.value.parts, d.toolIndex);
    }
    SplitOne(MessageStart("", k.modelVersion, None));
    SplitOne(Gemini.StopEvent(d'));
    StopsConcat(start + said, stop);
    StopsConcat(start, said);
  }

  lemma {:induction false} NoSecondStop(d: Gemini.Decoder, ks: seq<Gemini.Chunk>)
    requires d.stopEmitted && NoErrors(ks)
    ensures Stops(GeminiRun(d, ks).1) == [] && GeminiRun(d, ks).0.stopEmitted
    decreases |ks|
  {
    hide Stops, Gemini.Feed;
    SplitNone();
    if ks != [] {
      var (d1, es) := Gemini.Feed(d, ks[0]);
      GeminiChunkStops(d, ks[0]);
      NoSecondStop(d1, ks[1..]);
      StopsConcat(es, GeminiRun(d1, ks[1..]).1);
    }
  }

  /** An error-free stream of at least one chunk has exactly one stop: the one its chunks determine. */
  lemma {:induction false} GeminiStreamStops(d: Gemini.Decoder, ks: seq<Gemini.Chunk>)
    requires NoErrors(ks) && !d.failed && !d.stopEmitted && d.pendingFinish.None? && (d.started || ks != [])
    ensures var (d', es) := GeminiRun(d, ks);
            Stops(es) + Gemini.Finish(d').1 == [StopOf(ks, d.pendingUsage)]
    decreases |ks|
  {
    hide Stops, Gemini.Feed, Gemini.ParseFinishReason;
    SplitNone();
    if ks != [] {
      var (d1, es) := Gemini.Feed(d, ks[0]);
      GeminiChunkStops(d, ks[0]);
      StopsConcat(es, GeminiRun(d1, ks[1..]).1);
      if d1.stopEmitted {
        NoSecondStop(d1, ks[1..]);
      } else {
        GeminiStreamStops(d1, ks[1..]);
      }
    }
  }

  // ----- Gemini: decoding what the encoder wrote -----

  /** A client chunk as the decoder reads it; `reprint` is what parsing and printing a call's
      arguments makes of them. */
  function Read(w: Gemini.Wire, reprint: Text -> Text): Gemini.Chunk {
    match w
    case WText(t) => OnePart(Gemini.Part(Some(t), false, None))
    case WThought(t) => OnePart(Gemini.Part(Some(t), true, None))
    case WCall(_, id, name, args) =>
      OnePart(Gemini.Part(None, false, Some(Gemini.Call(id, name, Some(match args case Some(t) => reprint(t)
                                                                                  case None => Ascii("null"))))))
    case WFinish(reason, usage) => Gemini.Chunk(None, "", Some(Gemini.Candidate([], Some(reason))), usage)
    case WError(message) => Gemini.Chunk(Some(message), "", None, None)
  }

  function OnePart(p: Gemini.Part): Gemini.Chunk {
    Gemini.Chunk(None, "", Some(Gemini.Candidate([p], None)), None)
  }

  function ReadAll(ws: seq<Gemini.Wire>, reprint: Text -> Text): (ks: seq<Gemini.Chunk>)
    ensures |ks| == |ws| && forall i | 0 <= i < |ws| :: ks[i] == Read(ws[i], reprint)
  {
    seq(|ws|, i requires 0 <= i < |ws| => Read(ws[i], reprint))
  }

  function WireSays(w: Gemini.Wire, thoughts: bool): Text {
    if thoughts && w.WThought? then w.thought else if !thoughts && w.WText? then w.text else []
  }

  function WireText(ws: seq<Gemini.Wire>, thoughts: bool): Text {
    if ws == [] then [] else WireSays(ws[0], thoughts) + WireText(ws[1..], thoughts)
  }

  lemma {:induction false} OnePartText(k: Gemini.Chunk, thoughts: bool)
    ensures |ChunkParts(k)| == 1 ==>
              var p := ChunkParts(k)[0];
              PartsText(ChunkParts(k), thoughts) == if p.text.Some? && p.thought == thoughts then p.text.value else []
    ensures PartsText([], thoughts) == []
  {
    if |ChunkParts(k)| == 1 {
      assert ChunkParts(k)[1..] == [];
    }
  }

  lemma {:induction false} ReadKeepsText(ws: seq<Gemini.Wire>, reprint: Text -> Text, thoughts: bool)
    ensures PartsText(Parts(ReadAll(ws, reprint)), thoughts) == WireText(ws, thoughts)
  {
    hide PartsText;
    var ks := ReadAll(ws, reprint);
    OnePartText(OnePart(Gemini.Part(None, false, None)), thoughts);
    if ws != [] {
      ReadKeepsText(ws[1..], reprint, thoughts);
      assert ks[1..] == ReadAll(ws[1..], reprint);
      OnePartText(ks[0], thoughts);
      PartsTextConcat(ChunkParts(ks[0]), Parts(ks[1..]), thoughts);
    }
  }

  /** The calls on the wire, in order, as the decoder reads them. */
  function WireCalls(ws: seq<Gemini.Wire>, reprint: Text -> Text): seq<Gemini.Call> {
    if ws == [] then []
    else
      (if ws[0].WCall?
       then [Gemini.Call(ws[0].id, ws[0].name, Some(match ws[0].args case Some(t) => reprint(t) case None => Ascii("null")))]
       else []) + WireCalls(ws[1..], reprint)
  }

  /** The call chunks among some chunks. */
  function CallWires(ws: seq<Gemini.Wire>): seq<Gemini.Wire> {
    if ws == [] then [] else (if ws[0].WCall? then [ws[0]] else []) + CallWires(ws[1..])
  }

  function ReadArgs(w: Gemini.Wire, reprint: Text -> Text): Text
    requires w.WCall?
  {
    match w.args case Some(t) => reprint(t) case None => [110, 117, 108, 108]
  }

  lemma {:induction false} WireCallsAre(ws: seq<Gemini.Wire>, reprint: Text -> Text)
    ensures |WireCalls(ws, reprint)| == |CallWires(ws)|
    ensures forall k | 0 <= k < |CallWires(ws)| ::
              var w := CallWires(ws)[k];
              w.WCall? && WireCalls(ws, reprint)[k] == Gemini.Call(w.id, w.name, Some(ReadArgs(w, reprint)))
  {
    if ws != [] {
      WireCallsAre(ws[1..], reprint);
      assert Ascii("null") == [110, 117, 108, 108];
    }
  }

  lemma {:induction false} OnePartCalls(k: Gemini.Chunk)
    ensures |ChunkParts(k)| == 1 ==>
              var p := ChunkParts(k)[0];
              PartsCalls(ChunkParts(k)) == if p.call.Some? then [p.call.value] else []
    ensures PartsCalls([]) == []
  {
    if |ChunkParts(k)| == 1 {
      assert ChunkParts(k)[1..] == [];
    }
  }

  lemma {:induction false} ReadKeepsCalls(ws: seq<Gemini.Wire>, reprint: Text -> Text)
    ensures PartsCalls(Parts(ReadAll(ws, reprint))) == WireCalls(ws, reprint)
  {
    hide PartsCalls;
    var ks := ReadAll(ws, reprint);
    OnePartCalls(OnePart(Gemini.Part(None, false, None)));
    if ws != [] {
      ReadKeepsCalls(ws[1..], reprint);
      assert ks[1..] == ReadAll(ws[1..], reprint);
      OnePartCalls(ks[0]);
      PartsCallsConcat(ChunkParts(ks[0]), Parts(ks[1..]));
    }
  }

  lemma {:induction false} WireTextConcat(a: seq<Gemini.Wire>, b: seq<Gemini.Wire>, thoughts: bool)
    ensures WireText(a + b, thoughts) == WireText(a, thoughts) + WireText(b, thoughts)
  {
    hide WireSays;
    if a == [] {
      assert a + b == b;
    } else {
      WireTextConcat(a[1..], b, thoughts);
      assert (a + b)[1..] == a[1..] + b && (a + b)[0] == a[0];
      Assoc(WireSays(a[0], thoughts), WireText(a[1..], thoughts), WireText(b, thoughts));
    }
  }

  predicate Calls(ws: seq<Gemini.Wire>) { forall i | 0 <= i < |ws| :: ws[i].WCall? }

  lemma {:induction false} CallsCarryNoText(ws: seq<Gemini.Wire>, thoughts: bool)
    requires forall i | 0 <= i < |ws| :: !ws[i].WText? && !ws[i].WThought?
    ensures WireText(ws, thoughts) == []
  {
    if ws != [] {
      CallsCarryNoText(ws[1..], thoughts);
    }
  }

  lemma {:induction false} EncodeSays(enc: Gemini.Encoder, e: Event, thoughts: bool)
    ensures WireText(Gemini.Encode(enc, e).1, thoughts)
            == ChannelText(if thoughts then ReasoningChannel else TextChannel, [e])
  {
    hide ChannelText, Gemini.NullCallsAscending, Gemini.FinishReasonText, Gemini.Extended, WireText;
    var c := if thoughts then ReasoningChannel else TextChannel;
    var ws := Gemini.Encode(enc, e).1;
    ChannelTextOne(c, e);
    if e.TextDelta? || e.ReasoningDelta? {
      WireTextOne(ws[0], thoughts);
    } else {
      if e.MessageStop? && !enc.emittedStop {
        StopWire(enc, e.finish, e.stopUsage);
      }
      CallsCarryNoText(ws, thoughts);
    }
  }

  lemma {:induction false} WireTextOne(w: Gemini.Wire, thoughts: bool)
    ensures WireText([w], thoughts) == WireSays(w, thoughts)
  {
    assert [w][1..] == [];
  }

  /** The stop's chunks: calls, then one finish. */
  lemma {:induction false} StopWire(enc: Gemini.Encoder, f: FinishReason, usage: Option<Usage>)
    requires !enc.emittedStop
    ensures var ws := Gemini.Encode(enc, MessageStop(f, usage)).1;
            && ws != [] && ws[|ws| - 1] == Gemini.WFinish(Gemini.FinishReasonText(f), usage)
            && Calls(ws[..|ws| - 1])
  {
    hide Gemini.FinishReasonText;
    var ws := Gemini.Encode(enc, MessageStop(f, usage)).1;
    Gemini.StopFlushesPending(enc, f, usage);
    var calls := ws[..|ws| - 1];
    forall i | 0 <= i < |calls| ensures calls[i].WCall? {
      assert ws[i].WCall?;
    }
  }

  lemma {:induction false} EncoderKeepsText(enc: Gemini.Encoder, es: seq<Event>, thoughts: bool)
    ensures WireText(Gemini.EncodeAll(enc, es).1, thoughts)
            == ChannelText(if thoughts then ReasoningChannel else TextChannel, es)
    decreases |es|
  {
    hide ChannelText, Gemini.Encode, WireText;
    var c := if thoughts then ReasoningChannel else TextChannel;
    NoChannelText(c);
    CallsCarryNoText([], thoughts);
    if es != [] {
      var (enc1, ws) := Gemini.Encode(enc, es[0]);
      EncodeSays(enc, es[0], thoughts);
      EncoderKeepsText(enc1, es[1..], thoughts);
      WireTextConcat(ws, Gemini.EncodeAll(enc1, es[1..]).1, thoughts);
      assert es == [es[0]] + es[1..];
      ChannelTextConcat(c, [es[0]], es[1..]);
    }
  }

  // ----- Gemini: the stop crosses the wire -----

  /** Content chunks: no finish, no error. */
  predicate ContentWire(ws: seq<Gemini.Wire>) { forall i | 0 <= i < |ws| :: !ws[i].WFinish? && !ws[i].WError? }

  predicate Body(es: seq<Event>) { forall i | 0 <= i < |es| :: !es[i].MessageStop? && !es[i].Error? }

  lemma {:induction false} EncodeBody(enc: Gemini.Encoder, es: seq<Event>)
    requires Body(es)
    ensures ContentWire(Gemini.EncodeAll(enc, es).1) && Gemini.EncodeAll(enc, es).0.emittedStop == enc.emittedStop
    decreases |es|
  {
    hide Gemini.Extended;
    if es != [] {
      EncodeBody(Gemini.Encode(enc, es[0]).0, es[1..]);
    }
  }

  lemma {:induction false} EncodeAllLast(enc: Gemini.Encoder, es: seq<Event>, e: Event)
    ensures var (enc1, ws) := Gemini.EncodeAll(enc, es);
            Gemini.EncodeAll(enc, es + [e]).1 == ws + Gemini.Encode(enc1, e).1
    decreases |es|
  {
    hide Gemini.Encode;
    if es == [] {
      assert [] + [e] == [e] && [e][1..] == [];
    } else {
      var (enc1, ws) := Gemini.Encode(enc, es[0]);
      EncodeAllLast(enc1, es[1..], e);
      assert (es + [e])[1..] == es[1..] + [e] && (es + [e])[0] == es[0];
      var (enc2, more) := Gemini.EncodeAll(enc1, es[1..]);
      Assoc(ws, more, Gemini.Encode(enc2, e).1);
    }
  }

  lemma {:induction false} StopOfRead(ws: seq<Gemini.Wire>, reason: string, usage: Option<Usage>, reprint: Text -> Text)
    requires ContentWire(ws)
    ensures var ks := ReadAll(ws + [Gemini.WFinish(reason, usage)], reprint);
            NoErrors(ks) && StopOf(ks, None) == MessageStop(Gemini.ParseFinishReason(reason), usage)
  {
    hide Gemini.ParseFinishReason, ReadAll;
    var last := Gemini.WFinish(reason, usage);
    if ws == [] {
      assert ws + [last] == [last] + [];
      ReadFirst(last, [], reprint);
    } else {
      var rest := ws[1..] + [last];
      StopOfRead(ws[1..], reason, usage, reprint);
      assert ws + [last] == [ws[0]] + rest;
      ReadFirst(ws[0], rest, reprint);
    }
  }

  lemma {:induction false} ReadFirst(w: Gemini.Wire, rest: seq<Gemini.Wire>, reprint: Text -> Text)
    ensures var ks := ReadAll([w] + rest, reprint);
            ks != [] && ks[0] == Read(w, reprint) && ks[1..] == ReadAll(rest, reprint)
    ensures !w.WError? && NoErrors(ReadAll(rest, reprint)) ==> NoErrors(ReadAll([w] + rest, reprint))
  {
    var ks := ReadAll([w] + rest, reprint);
    assert forall i | 0 < i < |ks| :: ks[i] == ReadAll(rest, reprint)[i - 1];
  }

  predicate GeminiReserved(s: string) { s == "STOP" || s == "MAX_TOKENS" || s == "SAFETY" || s == "RECITATION" }

  /** A finish reason survives the Gemini wire exactly when it is neither a tool-call stop nor an
      `Other` that spells a reserved one. */
  lemma {:induction false} GeminiReasonSurvives(f: FinishReason)
    ensures Gemini.ParseFinishReason(Gemini.FinishReasonText(f)) == f
            <==> !f.ToolCalls? && !(f.Other? && GeminiReserved(f.reason))
  {
    assert "STOP"[0] == 'S' && "MAX_TOKENS"[0] == 'M' && "SAFETY"[1] == 'A' && "STOP"[1] == 'T';
  }

  /** A Gemini client's own decoder reads back what the encoder wrote: for every body of content
      events and a stop, the same text, the same thoughts, every call the encoder emitted, in order,
      with its name and its id or a minted one, and exactly one stop, with the usage and the reason
      that crossed the wire. */
  lemma {:induction false} GeminiDecodeUndoesEncode(body: seq<Event>, f: FinishReason, usage: Option<Usage>,
                                                    reprint: Text -> Text)
    requires Body(body)
    ensures var es := body + [MessageStop(f, usage)];
            var ks := ReadAll(Gemini.EncodeAll(Gemini.NEW_ENCODER, es).1, reprint);
            var sent := CallWires(Gemini.EncodeAll(Gemini.NEW_ENCODER, es).1);
            var (d, ds) := GeminiRun(Gemini.NEW_DECODER, ks);
            && ChannelText(TextChannel, ds) == ChannelText(TextChannel, es)
            && ChannelText(ReasoningChannel, ds) == ChannelText(ReasoningChannel, es)
            && |Gemini.CallsOf(ds)| == |sent|
            && (forall k | 0 <= k < |sent| ::
                  sent[k].WCall?
                  && IsCall(Gemini.CallsOf(ds)[k], k, sent[k].id, sent[k].name, ReadArgs(sent[k], reprint)))
            && Stops(ds) + Gemini.Finish(d).1
               == [MessageStop(Gemini.ParseFinishReason(Gemini.FinishReasonText(f)), usage)]
  {
    hide ChannelText, Gemini.EncodeAll, Gemini.Encode, GeminiRun, Stops, Gemini.Finish, StopOf, ReadAll, PartsText;
    hide Gemini.ParseFinishReason, Gemini.FinishReasonText, WireText, Parts, NoErrors, WireCalls, Numbered, PartsCalls;
    hide Gemini.CallsOf, CallWires, IsCall;
    var es := body + [MessageStop(f, usage)];
    var ws := Gemini.EncodeAll(Gemini.NEW_ENCODER, es).1;
    var ks := ReadAll(ws, reprint);
    EncoderKeepsText(Gemini.NEW_ENCODER, es, false);
    EncoderKeepsText(Gemini.NEW_ENCODER, es, true);
    ReadKeepsText(ws, reprint, false);
    ReadKeepsText(ws, reprint, true);
    ReadKeepsCalls(ws, reprint);
    WireCallsAre(ws, reprint);
    GeminiStreamSays(ks);
    var enc, content := Gemini.EncodeAll(Gemini.NEW_ENCODER, body).0, Gemini.EncodeAll(Gemini.NEW_ENCODER, body).1;
    EncodeBody(Gemini.NEW_ENCODER, body);
    EncodeAllLast(Gemini.NEW_ENCODER, body, MessageStop(f, usage));
    StopWire(enc, f, usage);
    var stop := Gemini.Encode(enc, MessageStop(f, usage)).1;
    var calls, last := stop[..|stop| - 1], stop[|stop| - 1];
    assert ws == (content + calls) + [last];
    StopOfRead(content + calls, Gemini.FinishReasonText(f), usage, reprint);
    GeminiStreamStops(Gemini.NEW_DECODER, ks);
  }

  // ----- the words of the wire -----

  /** Gemini's finish reasons, read and written, one by one. */
  lemma {:induction false} GeminiReasonWords()
    ensures Gemini.ParseFinishReason("STOP") == Stop && Gemini.ParseFinishReason("MAX_TOKENS") == Length
    ensures Gemini.ParseFinishReason("SAFETY") == ContentFilter && Gemini.ParseFinishReason("RECITATION") == ContentFilter
    ensures Gemini.FinishReasonText(Stop) == "STOP" && Gemini.FinishReasonText(ToolCalls) == "STOP"
    ensures Gemini.FinishReasonText(Length) == "MAX_TOKENS" && Gemini.FinishReasonText(ContentFilter) == "SAFETY"
    ensures forall s :: !GeminiReserved(s) ==> Gemini.ParseFinishReason(s) == Other(s)
  {
    assert "STOP"[0] == 'S' && "MAX_TOKENS"[0] == 'M' && "SAFETY"[1] == 'A' && "STOP"[1] == 'T' && "RECITATION"[0] == 'R';
  }

  /** OpenAI's finish reasons, one by one. */
  lemma {:induction false} OpenAiReasonWords()
    ensures OpenAi.ParseFinishReason("stop") == Stop && OpenAi.ParseFinishReason("length") == Length
    ensures OpenAi.ParseFinishReason("tool_calls") == ToolCalls
    ensures OpenAi.ParseFinishReason("content_filter") == ContentFilter
    ensures forall s :: s !in {"stop", "length", "tool_calls", "content_filter"} ==> OpenAi.ParseFinishReason(s) == Other(s)
  {
    assert "stop"[0] == 's' && "length"[0] == 'l' && "tool_calls"[0] == 't' && "content_filter"[0] == 'c';
  }

  // ----- how a stream starts -----

  /** `es` has no start, or `start` is its only one and nothing but errors comes before it. */
  predicate StartsWith(es: seq<Event>, start: Option<Event>) {
    match start
    case None => forall x | 0 <= x < |es| :: es[x].Error?
    case Some(e) =>
      exists n | 0 <= n < |es| ::
        && es[n] == e && (forall x | 0 <= x < n :: es[x].Error?)
        && (forall x | n < x < |es| :: !es[x].MessageStart?)
  }

  predicate NoStart(es: seq<Event>) { forall x | 0 <= x < |es| :: !es[x].MessageStart? }

  lemma {:induction false} StartAfterError(e: Event, es: seq<Event>, start: Option<Event>)
    requires e.Error? && StartsWith(es, start)
    ensures StartsWith([e] + es, start)
  {
    var all := [e] + es;
    if start.Some? {
      var n :| 0 <= n < |es| && es[n] == start.value && (forall x | 0 <= x < n :: es[x].Error?)
               && (forall x | n < x < |es| :: !es[x].MessageStart?);
      assert all[n + 1] == start.value;
      assert forall x | 0 < x < |all| :: all[x] == es[x - 1];
    }
  }

  lemma {:induction false} StartHere(e: Event, rest: seq<Event>)
    requires NoStart(rest)
    ensures StartsWith([e] + rest, Some(e))
  {
    assert ([e] + rest)[0] == e;
  }

  lemma {:induction false} OpenAiChunkStart(d: OpenAi.Decoder, k: OpenAi.Chunk)
    ensures d.started || k.error.Some? ==> NoStart(OpenAi.Feed(d, k).1)
    ensures !d.started && k.error.None? ==>
              var es := OpenAi.Feed(d, k).1;
              es != [] && es[0] == MessageStart(k.id, k.model, None) && NoStart(es[1..])
    ensures k.error.Some? ==> OpenAi.Feed(d, k).1 == [Error(Api(k.error.value))] && OpenAi.Feed(d, k).0.started == d.started
    ensures k.error.None? ==> OpenAi.Feed(d, k).0.started
  {
    hide OpenAi.ParseToolCalls, OpenAi.ParseFinishReason;
    if k.error.None? && k.choice.Some? && k.choice.value.delta.Some? {
      OpenAi.CallsHaveNoStops(k.choice.value.delta.value.toolCalls, d.seenToolIndices);
      var calls := OpenAi.ParseToolCalls(k.choice.value.delta.value.toolCalls, d.seenToolIndices).1;
      assert forall x | 0 <= x < |calls| :: calls[x] in calls;
    }
  }

  lemma {:induction false} OpenAiNoMoreStarts(d: OpenAi.Decoder, ks: seq<OpenAi.Chunk>)
    requires d.started
    ensures NoStart(OpenAiRun(d, ks).1)
    decreases |ks|
  {
    hide OpenAi.Feed;
    if ks != [] {
      OpenAiChunkStart(d, ks[0]);
      OpenAiNoMoreStarts(OpenAi.Feed(d, ks[0]).0, ks[1..]);
    }
  }

  /** The start the first chunk that is no error determines. */
  function OpenAiStart(ks: seq<OpenAi.Chunk>): Option<Event> {
    if ks == [] then None
    else if ks[0].error.Some? then OpenAiStart(ks[1..])
    else Some(MessageStart(ks[0].id, ks[0].model, None))
  }

  /** A stream starts once, with the id and model of its first chunk that is no error, and before that
      there are only errors. */
  lemma {:induction false} OpenAiStreamStarts(d: OpenAi.Decoder, ks: seq<OpenAi.Chunk>)
    requires !d.started
    ensures StartsWith(OpenAiRun(d, ks).1, OpenAiStart(ks))
    decreases |ks|
  {
    hide OpenAi.Feed, StartsWith;
    if ks == [] {
      NothingStarts();
    } else {
      var (d1, es) := OpenAi.Feed(d, ks[0]);
      OpenAiChunkStart(d, ks[0]);
      var more := OpenAiRun(d1, ks[1..]).1;
      if ks[0].error.Some? {
        OpenAiStreamStarts(d1, ks[1..]);
        StartAfterError(es[0], more, OpenAiStart(ks[1..]));
      } else {
        OpenAiNoMoreStarts(d1, ks[1..]);
        assert es + more == [es[0]] + (es[1..] + more);
        StartHere(es[0], es[1..] + more);
      }
    }
  }

  lemma {:induction false} NothingStarts()
    ensures StartsWith([], None)
  {
  }

  lemma {:induction false} GeminiChunkStart(d: Gemini.Decoder, k: Gemini.Chunk)
    ensures d.started || k.error.Some? ==> NoStart(Gemini.Feed(d, k).1)
    ensures !d.started && k.error.None? ==>
              var es := Gemini.Feed(d, k).1;
              es != [] && es[0] == MessageStart("", k.modelVersion, None) && NoStart(es[1..])
    ensures k.error.Some? ==> Gemini.Feed(d, k).1 == [Error(Api(k.error.value))] && Gemini.Feed(d, k).0.started == d.started
    ensures k.error.None? ==> Gemini.Feed(d, k).0.started
  {
    hide Gemini.PartsEvents, Gemini.ParseFinishReason;
    if k.error.None? && k.candidate.Some? {
      PartsNeverStart(k.candidate.value.parts, d.toolIndex);
    }
  }

  lemma {:induction false} PartsNeverStart(ps: seq<Gemini.Part>, index: nat)
    ensures NoStart(Gemini.PartsEvents(ps, index).1)
  {
    if ps != [] {
      PartsNeverStart(ps[1..], Gemini.PartEvents(ps[0], index).0);
    }
  }

  lemma {:induction false} GeminiNoMoreStarts(d: Gemini.Decoder, ks: seq<Gemini.Chunk>)
    requires d.started
    ensures NoStart(GeminiRun(d, ks).1)
    decreases |ks|
  {
    hide Gemini.Feed;
    if ks != [] {
      GeminiChunkStart(d, ks[0]);
      GeminiNoMoreStarts(Gemini.Feed(d, ks[0]).0, ks[1..]);
    }
  }

  function GeminiStart(ks: seq<Gemini.Chunk>): Option<Event> {
    if ks == [] then None
    else if ks[0].error.Some? then GeminiStart(ks[1..])
    else Some(MessageStart("", ks[0].modelVersion, None))
  }

  /** The same for Gemini: no id, and the model version of the first chunk that is no error. */
  lemma {:induction false} GeminiStreamStarts(d: Gemini.Decoder, ks: seq<Gemini.Chunk>)
    requires !d.started
    ensures StartsWith(GeminiRun(d, ks).1, GeminiStart(ks))
    decreases |ks|
  {
    hide Gemini.Feed, StartsWith;
    if ks == [] {
      NothingStarts();
    } else {
      var (d1, es) := Gemini.Feed(d, ks[0]);
      GeminiChunkStart(d, ks[0]);
      var more := GeminiRun(d1, ks[1..]).1;
      if ks[0].error.Some? {
        GeminiStreamStarts(d1, ks[1..]);
        StartAfterError(es[0], more, GeminiStart(ks[1..]));
      } else {
        GeminiNoMoreStarts(d1, ks[1..]);
        assert es + more == [es[0]] + (es[1..] + more);
        StartHere(es[0], es[1..] + more);
      }
    }
  }

  /** An error crosses the Gemini wire with its rendered message. */
  lemma {:induction false} GeminiErrorCrosses(enc: Gemini.Encoder, err: AdapterError, d: Gemini.Decoder, reprint: Text -> Text)
    ensures var ws := Gemini.Encode(enc, Error(err)).1;
            GeminiRun(d, ReadAll(ws, reprint)).1 == [Error(Api(Ascii("upstream api error: ") + err.message))]
  {
    var w := Gemini.WError(Display(err));
    var ks := ReadAll([w], reprint);
    assert ks[1..] == [] && ks == [ks[0]];
    assert GeminiRun(Gemini.Feed(d, ks[0]).0, []) == (Gemini.Feed(d, ks[0]).0, []);
  }
}
