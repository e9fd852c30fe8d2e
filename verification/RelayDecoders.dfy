/** The three protocol decoders as stages of the relay, and what the client reads end to end
    (src/core/pipeline.rs with the decoders of src/adapters). */
module RelayDecoders {
  import opened Bytes
  import opened TokenSearch
  import opened Neutral
  import opened ChannelRestore
  import opened Relay
  import Anthropic = AnthropicStream
  import Gemini = GeminiStream
  import OpenAi = OpenAiStream

  // ----- the decoders, given a JSON parser -----

  /** `serde_json::from_str` and the field reads, for one protocol: a payload's chunk, if it is one. */
  type Parser<!C> = Text -> Option<C>

  function AnthropicOps(parse: Parser<Anthropic.Wire>): DecoderOps<Anthropic.Decoder> {
    DecoderOps((d: Anthropic.Decoder, p: Text) =>
                 if parse(p).None? then (d, []) else Anthropic.Feed(d, parse(p).value),
               (d: Anthropic.Decoder) => Anthropic.Finish(d),
               (d: Anthropic.Decoder) => d.stopEmitted)
  }

  function GeminiOps(parse: Parser<Gemini.Chunk>): DecoderOps<Gemini.Decoder> {
    DecoderOps((d: Gemini.Decoder, p: Text) =>
                 if parse(p).None? then (d, []) else Gemini.Feed(d, parse(p).value),
               (d: Gemini.Decoder) => Gemini.Finish(d),
               (d: Gemini.Decoder) => d.stopEmitted)
  }

  function OpenAiOps(parse: Parser<OpenAi.Chunk>): DecoderOps<OpenAi.Decoder> {
    DecoderOps((d: OpenAi.Decoder, p: Text) =>
                 if parse(p).None? then (d, []) else OpenAi.Feed(d, parse(p).value),
               (d: OpenAi.Decoder) => OpenAi.Finish(d),
               (d: OpenAi.Decoder) => d.stopEmitted)
  }

  // ----- strings that come out of well-formed payloads are well-formed -----

  predicate WireUtf8(w: Anthropic.Wire) {
    w.WBlockDelta? ==>
      match w.delta
      case TextD(t) => ValidUtf8(t)
      case ThinkingD(t) => ValidUtf8(t)
      case InputJsonD(t) => ValidUtf8(t)
      case _ => true
  }

  predicate PartUtf8(p: Gemini.Part) {
    && (p.text.Some? ==> ValidUtf8(p.text.value))
    && (p.call.Some? && p.call.value.args.Some? ==> ValidUtf8(p.call.value.args.value))
  }

  predicate GeminiUtf8(c: Gemini.Chunk) {
    c.candidate.Some? ==> forall p | p in c.candidate.value.parts :: PartUtf8(p)
  }

  predicate OpenAiUtf8(c: OpenAi.Chunk) {
    c.choice.Some? && c.choice.value.delta.Some? ==>
      && ValidUtf8(c.choice.value.delta.value.content) && ValidUtf8(c.choice.value.delta.value.reasoning)
      && forall call | call in c.choice.value.delta.value.toolCalls :: ValidUtf8(call.arguments)
  }

  ghost predicate ParserOk<C>(parse: Parser<C>, utf8: C -> bool) {
    forall p :: ValidUtf8(p) && parse(p).Some? ==> utf8(parse(p).value)
  }

  // ----- each decoder stops at most once -----

  lemma {:induction false} OneStopHere(es: seq<Event>, stop: Event)
    requires (forall e | e in es :: !e.MessageStop?) && stop.MessageStop?
    ensures Stops(es + [stop]) == [stop]
  {
    NoStopsHere(es);
    StopsConcat(es, [stop]);
    SplitOne(stop);
  }

  lemma {:induction false} EmptyIsUtf8()
    ensures ValidUtf8([])
  {
  }

  lemma {:induction false} AnthropicFeedStops(d: Anthropic.Decoder, w: Anthropic.Wire)
    ensures var (d', es) := Anthropic.Feed(d, w);
            && (d.stopEmitted || Stops(es) != [] ==> d'.stopEmitted)
            && |Stops(es)| <= (if d.stopEmitted then 0 else 1)
    ensures WireUtf8(w) ==> forall e | e in Anthropic.Feed(d, w).1 :: EventUtf8(e)
  {
    hide Stops, ValidUtf8, Anthropic.ParseStopReason;
    var es := Anthropic.Feed(d, w).1;
    EmptyIsUtf8();
    NoStopsHere([]);
    if es != [] {
      SplitOne(es[0]);
      assert es == [es[0]];
    }
  }

  lemma {:induction false} AnthropicDecoderOk(parse: Parser<Anthropic.Wire>)
    requires ParserOk(parse, WireUtf8)
    ensures DecoderOk(AnthropicOps(parse))
  {
    hide Stops, EventUtf8, ValidUtf8, WireUtf8, Anthropic.Feed;
    var ops := AnthropicOps(parse);
    NoStopsHere([]);
    forall d, p ensures FeedOk(ops, d, p) {
      if parse(p).Some? {
        AnthropicFeedStops(d, parse(p).value);
      }
    }
    forall d ensures FinishOk(ops, d) {
      StopIsUtf8(Anthropic.StopEvent(d));
      SplitOne(Anthropic.StopEvent(d));
    }
  }

  lemma {:induction false} StopIsUtf8(e: Event)
    requires e.MessageStop?
    ensures EventUtf8(e)
  {
  }

  lemma {:induction false} OpenAiFeedUtf8(d: OpenAi.Decoder, c: OpenAi.Chunk)
    requires OpenAiUtf8(c)
    ensures forall e | e in OpenAi.Feed(d, c).1 :: EventUtf8(e)
  {
    if c.error.None? && c.choice.Some? && c.choice.value.delta.Some? {
      OpenAiCallsUtf8(c.choice.value.delta.value.toolCalls, d.seenToolIndices);
    }
  }

  lemma {:induction false} OpenAiCallsUtf8(calls: seq<OpenAi.CallFragment>, seen: set<nat>)
    requires forall call | call in calls :: ValidUtf8(call.arguments)
    ensures forall e | e in OpenAi.ParseToolCalls(calls, seen).1 :: EventUtf8(e)
  {
    if calls != [] {
      assert calls[0] in calls && forall c | c in calls[1..] :: c in calls;
      OpenAiCallsUtf8(calls[1..], seen + {calls[0].index});
    }
  }

  lemma {:induction false} OpenAiDecoderOk(parse: Parser<OpenAi.Chunk>)
    requires ParserOk(parse, OpenAiUtf8)
    ensures DecoderOk(OpenAiOps(parse))
  {
    var ops := OpenAiOps(parse);
    NoStopsHere([]);
    forall d, p ensures FeedOk(ops, d, p) {
      if parse(p).Some? {
        var c := parse(p).value;
        OpenAi.FeedNeverStops(d, c);
        NoStopsHere(OpenAi.Feed(d, c).1);
        if ValidUtf8(p) {
          OpenAiFeedUtf8(d, c);
        }
      }
    }
    forall d ensures FinishOk(ops, d) {
      var es := OpenAi.Finish(d).1;
      if es != [] {
        SplitOne(es[0]);
        assert es == [es[0]];
      }
    }
  }

  lemma {:induction false} GeminiPartsUtf8(ps: seq<Gemini.Part>, index: nat)
    requires forall p | p in ps :: PartUtf8(p)
    ensures forall e | e in Gemini.PartsEvents(ps, index).1 :: EventUtf8(e)
  {
    if ps != [] {
      assert ps[0] in ps && forall p | p in ps[1..] :: p in ps;
      AsciiIsValid([LBRACE, RBRACE]);
      GeminiPartsUtf8(ps[1..], Gemini.PartEvents(ps[0], index).0);
    }
  }

  lemma {:induction false} GeminiFeedStops(d: Gemini.Decoder, c: Gemini.Chunk)
    ensures var (d', es) := Gemini.Feed(d, c);
            && (d.stopEmitted || Stops(es) != [] ==> d'.stopEmitted)
            && |Stops(es)| <= (if d.stopEmitted then 0 else 1)
    ensures GeminiUtf8(c) ==> forall e | e in Gemini.Feed(d, c).1 :: EventUtf8(e)
  {
    hide Stops, ValidUtf8, PartUtf8, Gemini.PartsEvents;
    NoStopsHere([]);
    var said: seq<Event> := [];
    if c.error.Some? {
      SplitOne(Error(Api(c.error.value)));
    } else {
      if c.candidate.Some? {
        said := Gemini.PartsEvents(c.candidate.value.parts, d.toolIndex).1;
        Gemini.PartsHaveNoStops(c.candidate.value.parts, d.toolIndex);
        if GeminiUtf8(c) {
          GeminiPartsUtf8(c.candidate.value.parts, d.toolIndex);
        }
      }
      var body := (if d.started then [] else [MessageStart("", c.modelVersion, None)]) + said;
      NoStopsHere(body);
      var es := Gemini.Feed(d, c).1;
      if es != body {
        OneStopHere(body, es[|es| - 1]);
      }
    }
  }

  lemma {:induction false} GeminiFeedOk(parse: Parser<Gemini.Chunk>, d: Gemini.Decoder, p: Text)
    requires ParserOk(parse, GeminiUtf8)
    ensures FeedOk(GeminiOps(parse), d, p)
  {
    hide Stops, EventUtf8, ValidUtf8, GeminiUtf8, Gemini.Feed;
    NoStopsHere([]);
    if parse(p).Some? {
      GeminiFeedStops(d, parse(p).value);
    }
  }

  lemma {:induction false} GeminiDecoderOk(parse: Parser<Gemini.Chunk>)
    requires ParserOk(parse, GeminiUtf8)
    ensures DecoderOk(GeminiOps(parse))
  {
    var ops := GeminiOps(parse);
    forall d, p ensures FeedOk(ops, d, p) {
      GeminiFeedOk(parse, d, p);
    }
    NoStopsHere([]);
    forall d ensures FinishOk(ops, d) {
      SplitOne(Gemini.StopEvent(d));
    }
  }

  // ----- what the client reads -----

  lemma {:induction false} RestoreSeqIsRestoreAll(v: map<Text, Text>, m: nat, st: Tails, es: seq<Event>)
    requires VaultOk(v, m)
    ensures RestoreSeq(On(v, m), st, es) == RestoreAll(v, m, st, es)
    decreases |es|
  {
    hide RestoreEventSpec;
    if es != [] {
      RestoreSeqIsRestoreAll(v, m, RestoreEventSpec(v, m, st, es[0]).0, es[1..]);
    }
  }

  /** Stops carry no text, so moving them to the end changes no channel. */
  lemma {:induction false} StopsCarryNoText(c: Channel, es: seq<Event>)
    ensures ChannelText(c, Content(es)) == ChannelText(c, es) && ChannelText(c, Stops(es)) == []
  {
    hide ChannelText, Content, Stops;
    SplitNone();
    NoChannelText(c);
    if es != [] {
      var first, rest := [es[0]], es[1..];
      assert es == first + rest;
      StopsCarryNoText(c, rest);
      ContentConcat(first, rest);
      StopsConcat(first, rest);
      SplitOne(es[0]);
      ChannelTextConcat(c, first, rest);
      ChannelTextConcat(c, Content(first), Content(rest));
      ChannelTextConcat(c, Stops(first), Stops(rest));
      ChannelTextOne(c, es[0]);
    }
  }

  /** End to end: on every channel the text the encoder receives concatenates to the one-shot
      restore of that channel's concatenated upstream text. */
  lemma {:induction false} ClientReadsRestoredText<D>(ops: DecoderOps<D>, d: D, v: map<Text, Text>, m: nat,
                                                      payloads: seq<Text>, c: Channel)
    requires VaultOk(v, m)
    ensures AllShaped(ChannelVault(v, c).Keys)
    ensures var (d', es) := DecodeAll(ops, d, payloads);
            ChannelText(c, RelaySpec(ops, d, On(v, m), payloads))
            == Restore(ChannelVault(v, c), ChannelText(c, es + ops.finish(d').1))
  {
    hide Restore, RestoreSeq, RestoreAll, FinishSpec, Content, Stops, DecodeAll, ChannelText;
    var (d', es) := DecodeAll(ops, d, payloads);
    var all := es + ops.finish(d').1;
    RestoreSeqIsRestoreAll(v, m, NO_TAILS, all);
    ChannelsDoNotBleed(v, m, all, c);
    var (st, outs) := RestoreAll(v, m, NO_TAILS, all);
    StopsCarryNoText(c, outs);
    ChannelTextConcat(c, outs, FinishSpec(st));
    ChannelTextConcat(c, Content(outs) + FinishSpec(st), Stops(outs));
    ChannelTextConcat(c, Content(outs), FinishSpec(st));
  }
}
