/** The relay with each of the three decoders: what a client reads, and when it is told that the
    message is complete (src/core/pipeline.rs with the decoders of src/adapters). */
module EndToEnd {
  import opened Bytes
  import opened TokenSearch
  import opened Vault
  import opened Neutral
  import opened ChannelRestore
  import opened Relay
  import opened RelayDecoders
  import opened DecoderRuns
  import Sse = SseFraming
  import Anthropic = AnthropicStream
  import Gemini = GeminiStream
  import OpenAi = OpenAiStream

  // ----- payloads as chunks -----

  /** The chunks among some payloads; a payload that does not parse is skipped. */
  function Parsed<C>(parse: Parser<C>, ps: seq<Text>): seq<C> {
    if ps == [] then [] else (match parse(ps[0]) case Some(k) => [k] case None => []) + Parsed(parse, ps[1..])
  }

  lemma {:induction false} ParsedFirst<C>(parse: Parser<C>, ps: seq<Text>)
    requires ps != []
    ensures parse(ps[0]).None? ==> Parsed(parse, ps) == Parsed(parse, ps[1..])
    ensures parse(ps[0]).Some? ==>
              Parsed(parse, ps) != [] && Parsed(parse, ps)[0] == parse(ps[0]).value
              && Parsed(parse, ps)[1..] == Parsed(parse, ps[1..])
  {
  }

  lemma {:induction false} OpenAiDecodes(parse: Parser<OpenAi.Chunk>, d: OpenAi.Decoder, ps: seq<Text>)
    ensures DecodeAll(OpenAiOps(parse), d, ps) == OpenAiRun(d, Parsed(parse, ps))
    decreases |ps|
  {
    hide OpenAi.Feed, Parsed;
    if ps == [] {
      assert Parsed(parse, ps) == [] by { NothingParsed(parse); }
    } else {
      ParsedFirst(parse, ps);
      var d1 := OpenAiOps(parse).feed(d, ps[0]).0;
      OpenAiDecodes(parse, d1, ps[1..]);
      var more := DecodeAll(OpenAiOps(parse), d1, ps[1..]).1;
      assert [] + more == more;
    }
  }

  lemma {:induction false} AnthropicDecodes(parse: Parser<Anthropic.Wire>, d: Anthropic.Decoder, ps: seq<Text>)
    ensures DecodeAll(AnthropicOps(parse), d, ps) == Anthropic.FeedAll(d, Parsed(parse, ps))
    decreases |ps|
  {
    hide Anthropic.Feed, Parsed;
    if ps == [] {
      assert Parsed(parse, ps) == [] by { NothingParsed(parse); }
    } else {
      ParsedFirst(parse, ps);
      var d1 := AnthropicOps(parse).feed(d, ps[0]).0;
      AnthropicDecodes(parse, d1, ps[1..]);
      var more := DecodeAll(AnthropicOps(parse), d1, ps[1..]).1;
      assert [] + more == more;
    }
  }

  lemma {:induction false} GeminiDecodes(parse: Parser<Gemini.Chunk>, d: Gemini.Decoder, ps: seq<Text>)
    ensures DecodeAll(GeminiOps(parse), d, ps) == GeminiRun(d, Parsed(parse, ps))
    decreases |ps|
  {
    hide Gemini.Feed, Parsed;
    if ps == [] {
      assert Parsed(parse, ps) == [] by { NothingParsed(parse); }
    } else {
      ParsedFirst(parse, ps);
      var d1 := GeminiOps(parse).feed(d, ps[0]).0;
      GeminiDecodes(parse, d1, ps[1..]);
      var more := DecodeAll(GeminiOps(parse), d1, ps[1..]).1;
      assert [] + more == more;
    }
  }

  lemma {:induction false} NothingParsed<C>(parse: Parser<C>)
    ensures Parsed(parse, []) == []
  {
  }

  // ----- what the chunks say: Anthropic, and Gemini's calls -----

  function AnthropicSays(c: Channel, w: Anthropic.Wire): Text {
    match w
    case WBlockDelta(i, TextD(t)) => if c.TextChannel? then t else []
    case WBlockDelta(i, ThinkingD(t)) => if c.ReasoningChannel? then t else []
    case WBlockDelta(i, InputJsonD(t)) => if c == ToolChannel(i) then t else []
    case _ => []
  }

  function AnthropicText(c: Channel, ws: seq<Anthropic.Wire>): Text {
    if ws == [] then [] else AnthropicSays(c, ws[0]) + AnthropicText(c, ws[1..])
  }

  lemma {:induction false} AnthropicWireSays(d: Anthropic.Decoder, w: Anthropic.Wire, c: Channel)
    ensures ChannelText(c, Anthropic.Feed(d, w).1) == AnthropicSays(c, w)
  {
    hide ChannelText, Anthropic.ParseStopReason;
    NoChannelText(c);
    var es := Anthropic.Feed(d, w).1;
    if es != [] {
      ChannelTextOne(c, es[0]);
      assert es == [es[0]];
    }
  }

  /** Over every stream of Anthropic events the deltas concatenate to what the events say. */
  lemma {:induction false} AnthropicStreamSays(d: Anthropic.Decoder, ws: seq<Anthropic.Wire>, c: Channel)
    ensures ChannelText(c, Anthropic.FeedAll(d, ws).1) == AnthropicText(c, ws)
    decreases |ws|
  {
    hide ChannelText, Anthropic.Feed, AnthropicSays;
    NoChannelText(c);
    if ws != [] {
      var (d1, es) := Anthropic.Feed(d, ws[0]);
      AnthropicWireSays(d, ws[0], c);
      AnthropicStreamSays(d1, ws[1..], c);
      ChannelTextConcat(c, es, Anthropic.FeedAll(d1, ws[1..]).1);
    }
  }

  /** A Gemini call's arguments as the decoder renders them. */
  function ArgsText(call: Gemini.Call): Text { if call.args.Some? then call.args.value else [LBRACE, RBRACE] }

  /** Text and thoughts of the parts; the arguments of the i-th call on tool channel i. */
  function GeminiText(c: Channel, ks: seq<Gemini.Chunk>): Text {
    match c
    case TextChannel => PartsText(Parts(ks), false)
    case ReasoningChannel => PartsText(Parts(ks), true)
    case ToolChannel(i) => if i < |PartsCalls(Parts(ks))| then ArgsText(PartsCalls(Parts(ks))[i]) else []
  }

  lemma {:induction false} ToolTextIsCalls(i: nat, es: seq<Event>)
    ensures ChannelText(ToolChannel(i), es) == ChannelText(ToolChannel(i), Gemini.CallsOf(es))
  {
    hide ChannelText, Gemini.CallsOf;
    var c := ToolChannel(i);
    NoChannelText(c);
    NotACall(TextDelta([]));
    if es != [] {
      var first, rest := [es[0]], es[1..];
      assert es == first + rest;
      ToolTextIsCalls(i, rest);
      Gemini.CallsConcat(first, rest);
      ChannelTextConcat(c, first, rest);
      ChannelTextConcat(c, Gemini.CallsOf(first), Gemini.CallsOf(rest));
      ChannelTextOne(c, es[0]);
      OneCall(es[0]);
    }
  }

  lemma {:induction false} OneCall(e: Event)
    ensures Gemini.CallsOf([e]) == if e.ToolCallDelta? then [e] else []
  {
    assert [e][1..] == [];
  }

  lemma {:induction false} NumberedText(i: nat, calls: seq<Gemini.Call>, from: nat)
    ensures ChannelText(ToolChannel(i), Numbered(calls, from))
            == if from <= i < from + |calls| then ArgsText(calls[i - from]) else []
    decreases |calls|
  {
    hide ChannelText, Gemini.CallEvent, Payload, ArgsText, Numbered;
    var c := ToolChannel(i);
    NoChannelText(c);
    if calls == [] {
      assert Numbered(calls, from) == [];
    } else {
      var e := Gemini.CallEvent(calls[0], from);
      NumberedText(i, calls[1..], from + 1);
      NumberedCons(calls, from);
      ChannelTextConcat(c, [e], Numbered(calls[1..], from + 1));
      ChannelTextOne(c, e);
      CallPayload(i, calls[0], from);
    }
  }

  lemma {:induction false} NumberedCons(calls: seq<Gemini.Call>, from: nat)
    requires calls != []
    ensures Numbered(calls, from) == [Gemini.CallEvent(calls[0], from)] + Numbered(calls[1..], from + 1)
  {
    hide Gemini.CallEvent;
  }

  lemma {:induction false} CallPayload(i: nat, call: Gemini.Call, from: nat)
    ensures Payload(ToolChannel(i), Gemini.CallEvent(call, from)) == if i == from then ArgsText(call) else []
  {
    hide Gemini.MintedId;
  }

  lemma {:induction false} GeminiSaysAll(ks: seq<Gemini.Chunk>, c: Channel)
    ensures ChannelText(c, GeminiRun(Gemini.NEW_DECODER, ks).1) == GeminiText(c, ks)
  {
    hide ChannelText, Gemini.CallsOf, GeminiRun, PartsText, PartsCalls, Parts, Numbered, ArgsText;
    GeminiStreamSays(ks);
    if c.ToolChannel? {
      ToolTextIsCalls(c.index, GeminiRun(Gemini.NEW_DECODER, ks).1);
      NumberedText(c.index, PartsCalls(Parts(ks)), 0);
    }
  }

  // ----- what a client reads -----

  /** What restoring makes of a channel's text, with a session or without. */
  ghost function ReadBack(g: Guard, c: Channel, t: Text): Text
    requires GuardOk(g)
  {
    if g.Off? then t
    else
      SplicedOk(g.v, g.m, c);
      Restore(ChannelVault(g.v, c), t)
  }

  lemma {:induction false} OffChangesNothing(st: Tails, es: seq<Event>)
    ensures RestoreSeq(Off, st, es) == (st, es)
    decreases |es|
  {
    if es != [] {
      OffChangesNothing(st, es[1..]);
      assert es == [es[0]] + es[1..];
    }
  }

  lemma {:induction false} ClientReads<D>(ops: DecoderOps<D>, d: D, g: Guard, payloads: seq<Text>, c: Channel)
    requires GuardOk(g)
    ensures var (d', es) := DecodeAll(ops, d, payloads);
            ChannelText(c, RelaySpec(ops, d, g, payloads)) == ReadBack(g, c, ChannelText(c, es + ops.finish(d').1))
  {
    hide ChannelText, DecodeAll, Content, Stops, RestoreSeq, Restore, VaultOk;
    if g.On? {
      hide RelaySpec;
      ClientReadsRestoredText(ops, d, g.v, g.m, payloads, c);
    } else {
      var (d', es) := DecodeAll(ops, d, payloads);
      var all := es + ops.finish(d').1;
      OffChangesNothing(NO_TAILS, all);
      StopsCarryNoText(c, all);
      assert Content(all) + [] == Content(all);
      ChannelTextConcat(c, Content(all), Stops(all));
    }
  }

  /** A stream that was cut off: the client reads what was decoded of it. */
  lemma {:induction false} CutReads<D>(ops: DecoderOps<D>, d: D, g: Guard, payloads: seq<Text>, c: Channel)
    requires GuardOk(g)
    ensures ChannelText(c, CutSpec(ops, d, g, payloads)) == ReadBack(g, c, ChannelText(c, DecodeAll(ops, d, payloads).1))
  {
    hide ChannelText, DecodeAll, Content, Stops, RestoreSeq, RestoreAll, Restore, VaultOk, FinishSpec;
    var es := DecodeAll(ops, d, payloads).1;
    if g.On? {
      RestoreSeqIsRestoreAll(g.v, g.m, NO_TAILS, es);
      ChannelsDoNotBleed(g.v, g.m, es, c);
      var (st, outs) := RestoreAll(g.v, g.m, NO_TAILS, es);
      StopsCarryNoText(c, outs);
      ChannelTextConcat(c, outs, FinishSpec(st));
      ChannelTextConcat(c, Content(outs), FinishSpec(st));
    } else {
      OffChangesNothing(NO_TAILS, es);
      StopsCarryNoText(c, es);
      assert Content(es) + [] == Content(es);
    }
  }

  /** A stop at the end adds no text. */
  lemma {:induction false} EndAddsNoText(c: Channel, es: seq<Event>, end: seq<Event>)
    requires |end| <= 1 && forall e | e in end :: e.MessageStop?
    ensures ChannelText(c, es + end) == ChannelText(c, es)
  {
    hide ChannelText;
    ChannelTextConcat(c, es, end);
    NoChannelText(c);
    assert ChannelText(c, es) + [] == ChannelText(c, es);
    if end != [] {
      assert end == [end[0]] && end[0] in end;
      ChannelTextOne(c, end[0]);
    }
  }

  // ----- when the client is told that the message is complete -----

  /** Restoring keeps every stop, and turns errors into errors. */
  lemma {:induction false} RestoreKeepsEnds(g: Guard, st: Tails, es: seq<Event>)
    requires GuardOk(g)
    ensures Stops(RestoreSeq(g, st, es).1) == Stops(es)
    ensures ErrorIn(RestoreSeq(g, st, es).1) <==> ErrorIn(es)
    decreases |es|
  {
    hide RestoreOne, Stops, ErrorIn, VaultOk;
    SplitNone();
    NoErrorInNothing();
    if es != [] {
      var (st1, r) := RestoreOne(g, st, es[0]);
      var first := if r.Some? then [r.value] else [];
      RestoreKeepsEnds(g, st1, es[1..]);
      assert es == [es[0]] + es[1..];
      OneKeepsEnds(g, st, es[0]);
      StopsConcat([es[0]], es[1..]);
      StopsConcat(first, RestoreSeq(g, st1, es[1..]).1);
      ErrorAppend([es[0]], es[1..]);
      ErrorAppend(first, RestoreSeq(g, st1, es[1..]).1);
    }
  }

  lemma {:induction false} OneKeepsEnds(g: Guard, st: Tails, e: Event)
    requires GuardOk(g)
    ensures var r := RestoreOne(g, st, e).1;
            var first := if r.Some? then [r.value] else [];
            Stops(first) == Stops([e]) && (ErrorIn(first) <==> ErrorIn([e]))
  {
    hide Stops, ErrorIn, VaultOk;
    var r := RestoreOne(g, st, e).1;
    KindSurvives(g, st, e);
    SplitNone();
    NoErrorInNothing();
    SplitOne(e);
    ErrorOne(e);
    if r.Some? {
      SplitOne(r.value);
      ErrorOne(r.value);
    }
  }

  lemma {:induction false} NoErrorInNothing()
    ensures !ErrorIn([])
  {
  }

  /** What the encoder is given has a stop, or an error, exactly when the decoder made one. */
  lemma {:induction false} SpecEnds<D>(ops: DecoderOps<D>, d: D, g: Guard, payloads: seq<Text>)
    requires GuardOk(g)
    ensures var (d', es) := DecodeAll(ops, d, payloads);
            var all, spec := es + ops.finish(d').1, RelaySpec(ops, d, g, payloads);
            && (NoStop(spec) <==> Stops(all) == [])
            && (ErrorIn(spec) <==> ErrorIn(all))
  {
    hide DecodeAll, Content, Stops, RestoreSeq, ErrorIn, FinishSpec, VaultOk;
    var (d', es) := DecodeAll(ops, d, payloads);
    var all := es + ops.finish(d').1;
    var (st, outs) := RestoreSeq(g, NO_TAILS, all);
    RestoreKeepsEnds(g, NO_TAILS, all);
    var flush := Flush(g, st);
    FlushHasOnlyDeltas(st);
    QuietFlush(flush);
    ContentAndStops(outs);
    ErrorAppend(Content(outs) + flush, Stops(outs));
    ErrorAppend(Content(outs), flush);
    NoErrorInNothing();
    var spec := Content(outs) + flush + Stops(outs);
    if Stops(outs) != [] {
      assert spec[|Content(outs) + flush|] == Stops(outs)[0];
    }
  }

  /** A stream that was cut off shows no stop, and an error exactly when one was decoded. */
  lemma {:induction false} CutEnds<D>(ops: DecoderOps<D>, d: D, g: Guard, payloads: seq<Text>)
    requires GuardOk(g)
    ensures NoStop(CutSpec(ops, d, g, payloads))
    ensures ErrorIn(CutSpec(ops, d, g, payloads)) <==> ErrorIn(DecodeAll(ops, d, payloads).1)
  {
    hide DecodeAll, Content, Stops, RestoreSeq, ErrorIn, FinishSpec, VaultOk;
    var es := DecodeAll(ops, d, payloads).1;
    var (st, outs) := RestoreSeq(g, NO_TAILS, es);
    RestoreKeepsEnds(g, NO_TAILS, es);
    FlushHasOnlyDeltas(st);
    QuietFlush(Flush(g, st));
    ContentAndStops(outs);
    ErrorAppend(Content(outs), Flush(g, st));
  }

  lemma {:induction false} QuietFlush(es: seq<Event>)
    requires forall e | e in es :: !e.MessageStop? && !e.Error?
    ensures NoStop(es) && !ErrorIn(es)
  {
    forall x | 0 <= x < |es| ensures !es[x].MessageStop? && !es[x].Error? {
      assert es[x] in es;
    }
  }

  lemma {:induction false} ContentAndStops(es: seq<Event>)
    ensures NoStop(Content(es)) && AllStops(Stops(es)) && !ErrorIn(Stops(es))
    ensures ErrorIn(Content(es)) <==> ErrorIn(es)
  {
    hide ErrorIn;
    NoErrorInNothing();
    if es != [] {
      ContentAndStops(es[1..]);
      ErrorOne(es[0]);
      assert es == [es[0]] + es[1..];
      ErrorAppend([es[0]], es[1..]);
      ErrorAppend(if es[0].MessageStop? then [] else [es[0]], Content(es[1..]));
      ErrorAppend(if es[0].MessageStop? then [es[0]] else [], Stops(es[1..]));
    }
  }

  // ----- OpenAI: never after an error -----

  lemma {:induction false} OpenAiErrors(d: OpenAi.Decoder, ks: seq<OpenAi.Chunk>)
    ensures Stops(OpenAiRun(d, ks).1) == []
    ensures ErrorIn(OpenAiRun(d, ks).1) <==> HasError(ks)
    decreases |ks|
  {
    hide OpenAi.Feed, Stops, ErrorIn;
    SplitNone();
    NoErrorInNothing();
    if ks != [] {
      hide HasError;
      var (d1, es) := OpenAi.Feed(d, ks[0]);
      OpenAiErrors(d1, ks[1..]);
      OpenAi.FeedNeverStops(d, ks[0]);
      NoStopsHere(es);
      OpenAiChunkError(d, ks[0]);
      StopsConcat(es, OpenAiRun(d1, ks[1..]).1);
      ErrorAppend(es, OpenAiRun(d1, ks[1..]).1);
      ErrorFirst(ks);
    }
  }

  lemma {:induction false} ErrorFirst(ks: seq<OpenAi.Chunk>)
    requires ks != []
    ensures HasError(ks) <==> ks[0].error.Some? || HasError(ks[1..])
  {
    assert forall x | 0 < x < |ks| :: ks[x] == ks[1..][x - 1];
    assert forall x | 0 <= x < |ks| - 1 :: ks[1..][x] == ks[x + 1];
  }

  lemma {:induction false} OpenAiChunkError(d: OpenAi.Decoder, k: OpenAi.Chunk)
    ensures ErrorIn(OpenAi.Feed(d, k).1) <==> k.error.Some?
  {
    if k.error.Some? {
      assert OpenAi.Feed(d, k).1[0].Error?;
    } else if k.choice.Some? && k.choice.value.delta.Some? {
      OpenAi.CallsHaveNoStops(k.choice.value.delta.value.toolCalls, d.seenToolIndices);
      var calls := OpenAi.ParseToolCalls(k.choice.value.delta.value.toolCalls, d.seenToolIndices).1;
      assert forall x | 0 <= x < |calls| :: calls[x] in calls;
    }
  }

  /** With the OpenAI decoder a stream ends in a stop if and only if there are chunks and none is an
      error: never after an error. */
  lemma {:induction false} OpenAiStopIff(parse: Parser<OpenAi.Chunk>, payloads: seq<Text>)
    ensures var (d, es) := DecodeAll(OpenAiOps(parse), OpenAi.NEW_DECODER, payloads);
            var all, ks := es + OpenAi.Finish(d).1, Parsed(parse, payloads);
            && (ErrorIn(es) <==> ErrorIn(all)) && (ErrorIn(all) <==> HasError(ks))
            && (Stops(all) != [] <==> ks != [] && !HasError(ks))
  {
    hide DecodeAll, OpenAiRun, Stops, ErrorIn, HasError, Parsed, LastReason, LastUsage;
    var ks := Parsed(parse, payloads);
    OpenAiDecodes(parse, OpenAi.NEW_DECODER, payloads);
    var (d, es) := OpenAiRun(OpenAi.NEW_DECODER, ks);
    OpenAiErrors(OpenAi.NEW_DECODER, ks);
    OpenAiStreamStops(ks);
    AtMostOneEnd(es, OpenAi.Finish(d).1);
  }

  // ----- Anthropic: exactly when a message_stop came -----

  predicate SaysStop(ws: seq<Anthropic.Wire>) { exists x | 0 <= x < |ws| :: ws[x].WMessageStop? }

  predicate SaysStart(ws: seq<Anthropic.Wire>) { exists x | 0 <= x < |ws| :: ws[x].WMessageStart? }

  predicate SaysError(ws: seq<Anthropic.Wire>) { exists x | 0 <= x < |ws| :: ws[x].WError? }

  lemma {:induction false} SaysFirst(ws: seq<Anthropic.Wire>)
    requires ws != []
    ensures SaysStop(ws) <==> ws[0].WMessageStop? || SaysStop(ws[1..])
    ensures SaysStart(ws) <==> ws[0].WMessageStart? || SaysStart(ws[1..])
    ensures SaysError(ws) <==> ws[0].WError? || SaysError(ws[1..])
  {
    assert forall x | 0 < x < |ws| :: ws[x] == ws[1..][x - 1];
    assert forall x | 0 <= x < |ws| - 1 :: ws[1..][x] == ws[x + 1];
  }

  lemma {:induction false} AnthropicWireEnds(d: Anthropic.Decoder, w: Anthropic.Wire)
    ensures var (d', es) := Anthropic.Feed(d, w);
            && (d'.stopEmitted <==> d.stopEmitted || w.WMessageStop?)
            && (d'.started <==> d.started || w.WMessageStart?) && (d'.failed <==> d.failed || w.WError?)
            && (Stops(es) != [] <==> !d.stopEmitted && w.WMessageStop?) && (ErrorIn(es) <==> w.WError?)
  {
    hide Stops, ErrorIn, Anthropic.ParseStopReason;
    var es := Anthropic.Feed(d, w).1;
    SplitNone();
    NoErrorInNothing();
    if es != [] {
      assert es == [es[0]];
      SplitOne(es[0]);
      ErrorOne(es[0]);
    }
  }

  lemma {:induction false} AnthropicRunEnds(d: Anthropic.Decoder, ws: seq<Anthropic.Wire>)
    ensures var (d', es) := Anthropic.FeedAll(d, ws);
            && (d'.stopEmitted <==> d.stopEmitted || SaysStop(ws))
            && (d'.started <==> d.started || SaysStart(ws)) && (d'.failed <==> d.failed || SaysError(ws))
            && (Stops(es) != [] <==> !d.stopEmitted && SaysStop(ws)) && (ErrorIn(es) <==> SaysError(ws))
    decreases |ws|
  {
    hide Stops, ErrorIn, Anthropic.Feed;
    SplitNone();
    NoErrorInNothing();
    if ws != [] {
      hide SaysStop, SaysStart, SaysError;
      var (d1, es) := Anthropic.Feed(d, ws[0]);
      SaysFirst(ws);
      AnthropicWireEnds(d, ws[0]);
      AnthropicRunEnds(d1, ws[1..]);
      StopsConcat(es, Anthropic.FeedAll(d1, ws[1..]).1);
      ErrorAppend(es, Anthropic.FeedAll(d1, ws[1..]).1);
    }
  }

  /** With the Anthropic decoder a stream ends in a stop if and only if it carries a `message_stop`,
      before an error or after it, or has started and carries no error. */
  lemma {:induction false} AnthropicStopIff(parse: Parser<Anthropic.Wire>, payloads: seq<Text>)
    ensures var (d, es) := DecodeAll(AnthropicOps(parse), Anthropic.NEW_DECODER, payloads);
            var all, ws := es + Anthropic.Finish(d).1, Parsed(parse, payloads);
            && (ErrorIn(es) <==> ErrorIn(all)) && (ErrorIn(all) <==> SaysError(ws))
            && (Stops(all) != [] <==> SaysStop(ws) || (SaysStart(ws) && !SaysError(ws)))
  {
    hide DecodeAll, Anthropic.FeedAll, Stops, ErrorIn, Parsed, SaysStop, SaysStart, SaysError;
    var ws := Parsed(parse, payloads);
    AnthropicDecodes(parse, Anthropic.NEW_DECODER, payloads);
    var (d, es) := Anthropic.FeedAll(Anthropic.NEW_DECODER, ws);
    AnthropicRunEnds(Anthropic.NEW_DECODER, ws);
    AtMostOneEnd(es, Anthropic.Finish(d).1);
  }

  /** The input tokens of the last `message_start` that gave any. */
  function LastInput(ws: seq<Anthropic.Wire>): nat {
    if ws == [] then 0
    else
      var w := ws[|ws| - 1];
      if w.WMessageStart? && w.info.Some? then w.info.value.inputTokens else LastInput(ws[..|ws| - 1])
  }

  function LastStopReason(ws: seq<Anthropic.Wire>): Option<string> {
    if ws == [] then None
    else
      var w := ws[|ws| - 1];
      if w.WMessageDelta? && w.stopReason.Some? then w.stopReason else LastStopReason(ws[..|ws| - 1])
  }

  /** The last output tokens told, with the input tokens known by then. */
  function LastTokens(ws: seq<Anthropic.Wire>): Option<Usage> {
    if ws == [] then None
    else
      var front, w := ws[..|ws| - 1], ws[|ws| - 1];
      if w.WMessageDelta? && w.outputTokens.Some? then Some(Usage(LastInput(front), w.outputTokens.value))
      else LastTokens(front)
  }

  /** The stop of a message that consists of `ws`. */
  function StopOf(ws: seq<Anthropic.Wire>): Event {
    MessageStop(match LastStopReason(ws) case Some(r) => Anthropic.ParseStopReason(r) case None => Stop, LastTokens(ws))
  }

  function BeforeStop(ws: seq<Anthropic.Wire>): seq<Anthropic.Wire> {
    if ws == [] || ws[0].WMessageStop? then [] else [ws[0]] + BeforeStop(ws[1..])
  }

  lemma {:induction false} BeforeStopIs(ws: seq<Anthropic.Wire>)
    ensures !SaysStop(BeforeStop(ws)) && (!SaysStop(ws) ==> BeforeStop(ws) == ws)
    ensures SaysStop(ws) ==> BeforeStop(ws) + [Anthropic.WMessageStop] <= ws
  {
    if ws != [] {
      SaysFirst(ws);
      BeforeStopIs(ws[1..]);
      if !ws[0].WMessageStop? {
        assert BeforeStop(ws)[1..] == BeforeStop(ws[1..]);
        SaysFirst(BeforeStop(ws));
        assert ws == [ws[0]] + ws[1..];
      }
    }
  }

  lemma {:induction false} WireState(d: Anthropic.Decoder, w: Anthropic.Wire)
    ensures var d' := Anthropic.Feed(d, w).0;
            && d'.inputTokens == (if w.WMessageStart? && w.info.Some? then w.info.value.inputTokens else d.inputTokens)
            && d'.pendingFinish == (if w.WMessageDelta? && w.stopReason.Some?
                                    then Some(Anthropic.ParseStopReason(w.stopReason.value)) else d.pendingFinish)
            && d'.pendingUsage == (if w.WMessageDelta? && w.outputTokens.Some?
                                   then Some(Usage(d.inputTokens, w.outputTokens.value)) else d.pendingUsage)
  {
    hide Anthropic.ParseStopReason;
  }

  function ParsedReason(reason: Option<string>): Option<FinishReason> {
    if reason.Some? then Some(Anthropic.ParseStopReason(reason.value)) else None
  }

  lemma {:induction false} AnthropicStateAfter(ws: seq<Anthropic.Wire>)
    ensures var d := Anthropic.FeedAll(Anthropic.NEW_DECODER, ws).0;
            && d.inputTokens == LastInput(ws) && d.pendingUsage == LastTokens(ws)
            && d.pendingFinish == ParsedReason(LastStopReason(ws)) && Anthropic.StopEvent(d) == StopOf(ws)
  {
    hide Anthropic.ParseStopReason, Anthropic.FeedAll, Anthropic.Feed;
    if ws == [] {
      FeedNone();
    } else {
      var front, w := ws[..|ws| - 1], ws[|ws| - 1];
      AnthropicStateAfter(front);
      FeedLast(front, w);
      WireState(Anthropic.FeedAll(Anthropic.NEW_DECODER, front).0, w);
      assert front + [w] == ws;
    }
  }

  lemma {:induction false} FeedNone()
    ensures Anthropic.FeedAll(Anthropic.NEW_DECODER, []) == (Anthropic.NEW_DECODER, [])
  {
  }

  lemma {:induction false} FeedLast(ws: seq<Anthropic.Wire>, w: Anthropic.Wire)
    ensures var (d, es) := Anthropic.FeedAll(Anthropic.NEW_DECODER, ws);
            var (d', more) := Anthropic.Feed(d, w);
            Anthropic.FeedAll(Anthropic.NEW_DECODER, ws + [w]) == (d', es + more)
  {
    hide Anthropic.Feed;
    var (d, es) := Anthropic.FeedAll(Anthropic.NEW_DECODER, ws);
    Anthropic.FeedConcat(Anthropic.NEW_DECODER, ws, [w]);
    var more := Anthropic.Feed(d, w).1;
    assert [w][1..] == [] && more + [] == more;
  }

  /** Over any wires: the one stop carries the last stop reason and the last usage told before it. */
  lemma {:induction false} AnthropicStreamStops(ws: seq<Anthropic.Wire>)
    ensures var (d, es) := Anthropic.FeedAll(Anthropic.NEW_DECODER, ws);
            Stops(es + Anthropic.Finish(d).1)
            == if SaysStop(ws) then [StopOf(BeforeStop(ws))]
               else if SaysStart(ws) && !SaysError(ws) then [StopOf(ws)] else []
  {
    hide Stops, ErrorIn, Anthropic.FeedAll, SaysStop, SaysStart, SaysError, StopOf, BeforeStop, Anthropic.StopEvent;
    var (d, es) := Anthropic.FeedAll(Anthropic.NEW_DECODER, ws);
    AnthropicRunEnds(Anthropic.NEW_DECODER, ws);
    StopsConcat(es, Anthropic.Finish(d).1);
    SplitNone();
    AnthropicStateAfter(ws);
    StopOfStops(ws);
    OneStop(StopOf(ws));
    BeforeStopIs(ws);
    if SaysStop(ws) {
      StopsBefore(ws, BeforeStop(ws));
    }
  }

  lemma {:induction false} OneStop(e: Event)
    ensures e.MessageStop? ==> Stops([e]) == [e]
  {
  }

  lemma {:induction false} StopsBefore(ws: seq<Anthropic.Wire>, front: seq<Anthropic.Wire>)
    requires !SaysStop(front) && front + [Anthropic.WMessageStop] <= ws
    ensures Stops(Anthropic.FeedAll(Anthropic.NEW_DECODER, ws).1) == [StopOf(front)]
  {
    hide Stops, ErrorIn, Anthropic.FeedAll, SaysStop, SaysStart, SaysError, StopOf, Anthropic.StopEvent;
    var (d, es) := Anthropic.FeedAll(Anthropic.NEW_DECODER, front);
    AnthropicRunEnds(Anthropic.NEW_DECODER, front);
    AnthropicStateAfter(front);
    FeedLast(front, Anthropic.WMessageStop);
    var head, rest := front + [Anthropic.WMessageStop], ws[|front| + 1..];
    var (d1, es1) := Anthropic.FeedAll(Anthropic.NEW_DECODER, head);
    assert es1 == es + [StopOf(front)] && d1.stopEmitted;
    Anthropic.FeedConcat(Anthropic.NEW_DECODER, head, rest);
    assert head + rest == ws;
    AnthropicRunEnds(d1, rest);
    StopsConcat(es, [StopOf(front)]);
    StopsConcat(es1, Anthropic.FeedAll(d1, rest).1);
    StopOfStops(front);
    OneStop(StopOf(front));
  }

  lemma {:induction false} StopOfStops(ws: seq<Anthropic.Wire>)
    ensures StopOf(ws).MessageStop?
  {
  }

  lemma {:induction false} AtMostOneEnd(es: seq<Event>, end: seq<Event>)
    requires |end| <= 1 && forall e | e in end :: e.MessageStop?
    ensures ErrorIn(es + end) <==> ErrorIn(es)
    ensures Stops(es + end) != [] <==> Stops(es) != [] || end != []
  {
    hide Stops, ErrorIn;
    ErrorAppend(es, end);
    StopsConcat(es, end);
    SplitNone();
    NoErrorInNothing();
    if end != [] {
      assert end == [end[0]] && end[0] in end;
      SplitOne(end[0]);
      ErrorOne(end[0]);
    }
  }

  // ----- Gemini: exactly when a finish reason came -----

  predicate Finishes(k: Gemini.Chunk) { k.error.None? && k.candidate.Some? && k.candidate.value.finishReason.Some? }

  predicate HasReason(ks: seq<Gemini.Chunk>) { exists x | 0 <= x < |ks| :: Finishes(ks[x]) }

  lemma {:induction false} ReasonFirst(ks: seq<Gemini.Chunk>)
    requires ks != []
    ensures HasReason(ks) <==> Finishes(ks[0]) || HasReason(ks[1..])
    ensures NoErrors(ks) <==> ks[0].error.None? && NoErrors(ks[1..])
  {
    assert forall x | 0 < x < |ks| :: ks[x] == ks[1..][x - 1];
    assert forall x | 0 <= x < |ks| - 1 :: ks[1..][x] == ks[x + 1];
  }

  lemma {:induction false} GeminiChunkEnds(d: Gemini.Decoder, k: Gemini.Chunk)
    requires d.pendingFinish.Some? <==> d.stopEmitted
    ensures var (d', es) := Gemini.Feed(d, k);
            && (d'.pendingFinish.Some? <==> d'.stopEmitted) && (d'.stopEmitted <==> d.stopEmitted || Finishes(k))
            && (d'.started <==> d.started || k.error.None?) && (d'.failed <==> d.failed || k.error.Some?)
            && (Stops(es) != [] <==> !d.stopEmitted && Finishes(k)) && (ErrorIn(es) <==> k.error.Some?)
  {
    hide Stops, ErrorIn, Gemini.PartsEvents, Gemini.ParseFinishReason;
    var (d', es) := Gemini.Feed(d, k);
    if k.error.Some? {
      SplitOne(es[0]);
      ErrorOne(es[0]);
      assert es == [es[0]];
    } else {
      GeminiChunkStops(d, k);
      GeminiNoErrors(d, k);
    }
  }

  lemma {:induction false} GeminiNoErrors(d: Gemini.Decoder, k: Gemini.Chunk)
    requires k.error.None?
    ensures !ErrorIn(Gemini.Feed(d, k).1)
  {
    hide Gemini.ParseFinishReason;
    if k.candidate.Some? {
      PartsHaveNoErrors(k.candidate.value.parts, d.toolIndex);
    }
  }

  lemma {:induction false} PartsHaveNoErrors(ps: seq<Gemini.Part>, index: nat)
    ensures forall x | 0 <= x < |Gemini.PartsEvents(ps, index).1| :: !Gemini.PartsEvents(ps, index).1[x].Error?
  {
    if ps != [] {
      PartsHaveNoErrors(ps[1..], Gemini.PartEvents(ps[0], index).0);
    }
  }

  lemma {:induction false} GeminiRunEnds(d: Gemini.Decoder, ks: seq<Gemini.Chunk>)
    requires d.pendingFinish.Some? <==> d.stopEmitted
    ensures var (d', es) := GeminiRun(d, ks);
            && (d'.stopEmitted <==> d.stopEmitted || HasReason(ks)) && (d'.failed <==> d.failed || !NoErrors(ks))
            && (NoErrors(ks) && ks != [] ==> d'.started) && (ks == [] ==> d' == d)
            && (Stops(es) != [] <==> !d.stopEmitted && HasReason(ks)) && (ErrorIn(es) <==> !NoErrors(ks))
            && (d.started ==> d'.started)
    decreases |ks|
  {
    hide Stops, ErrorIn, Gemini.Feed;
    SplitNone();
    NoErrorInNothing();
    if ks != [] {
      hide HasReason, NoErrors, Finishes;
      var (d1, es) := Gemini.Feed(d, ks[0]);
      ReasonFirst(ks);
      GeminiChunkEnds(d, ks[0]);
      GeminiRunEnds(d1, ks[1..]);
      StopsConcat(es, GeminiRun(d1, ks[1..]).1);
      ErrorAppend(es, GeminiRun(d1, ks[1..]).1);
    }
  }

  /** With the Gemini decoder a stream ends in a stop if and only if some chunk that is no error
      carries a finish reason, before an error or after it, or there are chunks and none is an error. */
  lemma {:induction false} GeminiStopIff(parse: Parser<Gemini.Chunk>, payloads: seq<Text>)
    ensures var (d, es) := DecodeAll(GeminiOps(parse), Gemini.NEW_DECODER, payloads);
            var all, ks := es + Gemini.Finish(d).1, Parsed(parse, payloads);
            && (ErrorIn(es) <==> ErrorIn(all)) && (ErrorIn(all) <==> !NoErrors(ks))
            && (Stops(all) != [] <==> HasReason(ks) || (ks != [] && NoErrors(ks)))
  {
    hide DecodeAll, GeminiRun, Stops, ErrorIn, Parsed, HasReason, NoErrors;
    var ks := Parsed(parse, payloads);
    GeminiDecodes(parse, Gemini.NEW_DECODER, payloads);
    var (d, es) := GeminiRun(Gemini.NEW_DECODER, ks);
    GeminiRunEnds(Gemini.NEW_DECODER, ks);
    AtMostOneEnd(es, Gemini.Finish(d).1);
  }

  // ----- the failing inputs -----

  /** An Anthropic upstream that reports an error and then ends its message: the client is sent the
      error and then the stop that marks success. */
  lemma {:induction false} AnthropicStopFollowsError(parse: Parser<Anthropic.Wire>, p: Text, q: Text, message: Text)
    requires parse(p) == Some(Anthropic.WError(message)) && parse(q) == Some(Anthropic.WMessageStop)
    ensures RelaySpec(AnthropicOps(parse), Anthropic.NEW_DECODER, Off, [p, q])
            == [Error(Api(message)), MessageStop(Stop, None)]
  {
    hide DecodeAll, Content, Stops, RestoreSeq;
    var ops, d := AnthropicOps(parse), Anthropic.NEW_DECODER;
    var e1, e2 := Error(Api(message)), MessageStop(Stop, None);
    var d1 := d.(failed := true);
    DecodeTwo(ops, d, p, q);
    assert ops.feed(d, p) == (d1, [e1]) && ops.feed(d1, q) == (d1.(stopEmitted := true), [e2]);
    assert [e1] + [e2] == [e1, e2];
    assert DecodeAll(ops, d, [p, q]) == (d1.(stopEmitted := true), [e1, e2]);
    ErrorThenStop(e1, e2);
  }

  /** A Gemini upstream that reports an error and then a finish reason: the same. */
  lemma {:induction false} GeminiStopFollowsError(parse: Parser<Gemini.Chunk>, p: Text, q: Text, message: Text)
    requires parse(p) == Some(Gemini.Chunk(Some(message), "", None, None))
    requires parse(q) == Some(Gemini.Chunk(None, "", Some(Gemini.Candidate([], Some("STOP"))), None))
    ensures RelaySpec(GeminiOps(parse), Gemini.NEW_DECODER, Off, [p, q])
            == [Error(Api(message)), MessageStart("", "", None), MessageStop(Stop, None)]
  {
    hide DecodeAll, Content, Stops, RestoreSeq;
    var ops, d := GeminiOps(parse), Gemini.NEW_DECODER;
    var e1, e2, e3 := Error(Api(message)), MessageStart("", "", None), MessageStop(Stop, None);
    var d1 := d.(failed := true);
    var d2 := d1.(started := true, pendingFinish := Some(Stop), stopEmitted := true);
    DecodeTwo(ops, d, p, q);
    assert [e2] + [] + [e3] == [e2, e3] && [e1] + [e2, e3] == [e1, e2, e3];
    assert Gemini.Feed(d1, parse(q).value) == (d2, [e2] + [] + [e3]);
    assert ops.feed(d, p) == (d1, [e1]) && ops.feed(d1, q) == (d2, [e2, e3]);
    assert DecodeAll(ops, d, [p, q]) == (d2, [e1, e2, e3]);
    OffChangesNothing(NO_TAILS, [e1, e2, e3]);
    assert [e1, e2, e3] + [] == [e1, e2, e3];
    assert [e1, e2, e3] == [e1] + ([e2] + [e3]);
    ContentConcat([e1], [e2] + [e3]);
    ContentConcat([e2], [e3]);
    StopsConcat([e1], [e2] + [e3]);
    StopsConcat([e2], [e3]);
    SplitOne(e1);
    SplitOne(e2);
    SplitOne(e3);
  }

  lemma {:induction false} DecodeTwo<D>(ops: DecoderOps<D>, d: D, p: Text, q: Text)
    ensures var (d1, a) := ops.feed(d, p);
            var (d2, b) := ops.feed(d1, q);
            DecodeAll(ops, d, [p, q]) == (d2, a + b)
  {
    var (d1, a) := ops.feed(d, p);
    var (d2, b) := ops.feed(d1, q);
    assert [p, q][1..] == [q] && [q][1..] == [];
    assert DecodeAll(ops, d2, []) == (d2, []);
    assert b + [] == b;
    assert DecodeAll(ops, d1, [q]) == (d2, b);
  }

  lemma {:induction false} ErrorThenStop(e1: Event, e2: Event)
    requires e1.Error? && e2.MessageStop?
    ensures var (st, outs) := RestoreSeq(Off, NO_TAILS, [e1, e2] + []);
            Content(outs) + Flush(Off, st) + Stops(outs) == [e1, e2]
  {
    OffChangesNothing(NO_TAILS, [e1, e2]);
    assert [e1, e2] + [] == [e1, e2] && [e1, e2] == [e1] + [e2];
    ContentConcat([e1], [e2]);
    StopsConcat([e1], [e2]);
    SplitOne(e1);
    SplitOne(e2);
  }

  // ----- whole runs -----

  /** The payloads some chunks are read as, up to an end marker. */
  function PayloadsOf(chunks: seq<Step>): seq<Text> { UpToDone(Sse.StreamPayloads(Concat(BytesOf(chunks)))) }

  /** The chunks are under the cap together, and no payload follows an end marker. */
  predicate Clean(chunks: seq<Step>) { CleanStream(Concat(BytesOf(chunks))) }

  ghost function GuardOf(session: RedactionSession?): Guard
    reads session
  {
    if session == null then Off else On(session.tokenToOriginal, session.engine.maxTokenLen)
  }

  /** What the encoder is given of some payloads, the stream ended or cut off. */
  ghost function Given<D>(ops: DecoderOps<D>, d: D, g: Guard, cut: bool, payloads: seq<Text>): seq<Event>
    requires GuardOk(g)
  {
    if cut then CutSpec(ops, d, g, payloads) else RelaySpec(ops, d, g, payloads)
  }

  /** Any relay from its start: its safety over every run, and what it is given on every run on which
      the client stays and the chunks that arrived are clean. */
  method RelayRun<D(!new), E>(ops: DecoderOps<D>, d: D, encoder: EncoderOps<E>, e: E, session: RedactionSession?,
                              steps: seq<Step>) returns (relay: StreamRelay<D, E>, read: nat)
    requires DecoderOk(ops) && (session != null ==> session.Valid())
    modifies session
    ensures relay.decoder == ops && relay.d0 == d && GuardOk(old(GuardOf(session))) && read <= |steps|
    ensures StopOnlyLast(EventsOf(relay.encoded)) && relay.StopsAreDecoded()
    ensures relay.upstreamFailed <==> read > 0 && Fails(steps[read - 1])
    ensures relay.upstreamFailed ==> NoStop(EventsOf(relay.encoded)) && !relay.doneSent
    ensures ErrorShown(relay.encoded) ==> !relay.doneSent
    ensures !relay.closed && Clean(Arrived(steps, read)) ==>
              && EventsOf(relay.encoded)
                 == Given(ops, d, old(GuardOf(session)), relay.upstreamFailed, PayloadsOf(Arrived(steps, read)))
              && (relay.doneSent <==> !relay.upstreamFailed && !ErrorShown(relay.encoded))
    ensures !relay.closed && AllChunks(steps) && Clean(steps) ==>
              EventsOf(relay.encoded) == RelaySpec(ops, d, old(GuardOf(session)), PayloadsOf(steps))
  {
    hide DecoderOk, RedactionSession.Valid, StopOnlyLast, NoStop, ErrorShown, EventsOf, RelaySpec, VaultOk, CutSpec;
    hide AllChunks, CleanStream, BytesOf, UpToDone, Sse.StreamPayloads, Arrived;
    if session == null {
      relay := new StreamRelay(ops, d, encoder, e, null);
    } else {
      var restorer := new StreamRestorer(session);
      relay := new StreamRelay(ops, d, encoder, e, restorer);
    }
    read := relay.Run(steps);
  }

  /** What reaches a client of an OpenAI upstream: on every channel the one-shot restore of what the
      chunks say, an error exactly when a chunk is one, and a stop exactly when the stream was not cut off
      and there were chunks and none was an error. */
  ghost predicate OpenAiDelivers(parse: Parser<OpenAi.Chunk>, g: Guard, cut: bool, payloads: seq<Text>, sent: seq<Event>)
    requires GuardOk(g)
  {
    var ks := Parsed(parse, payloads);
    && (forall c :: ChannelText(c, sent) == ReadBack(g, c, OpenAiText(c, ks)))
    && (ErrorIn(sent) <==> HasError(ks))
    && (!NoStop(sent) <==> !cut && (ks != [] && !HasError(ks)))
  }

  lemma {:induction false} OpenAiGivenDelivers(parse: Parser<OpenAi.Chunk>, g: Guard, cut: bool, payloads: seq<Text>)
    requires GuardOk(g)
    ensures OpenAiDelivers(parse, g, cut, payloads, Given(OpenAiOps(parse), OpenAi.NEW_DECODER, g, cut, payloads))
  {
    hide ChannelText, RelaySpec, CutSpec, DecodeAll, OpenAiRun, ReadBack, VaultOk, OpenAiText, Parsed, ErrorIn, Stops, NoStop;
    hide HasError;
    var ops, start := OpenAiOps(parse), OpenAi.NEW_DECODER;
    var (d, es) := DecodeAll(ops, start, payloads);
    var sent, ks := Given(ops, start, g, cut, payloads), Parsed(parse, payloads);
    OpenAiStopIff(parse, payloads);
    SpecEnds(ops, start, g, payloads);
    CutEnds(ops, start, g, payloads);
    OpenAiDecodes(parse, start, payloads);
    forall c ensures ChannelText(c, sent) == ReadBack(g, c, OpenAiText(c, ks)) {
      ClientReads(ops, start, g, payloads, c);
      CutReads(ops, start, g, payloads, c);
      OpenAiStreamSays(start, ks, c);
      EndAddsNoText(c, es, OpenAi.Finish(d).1);
    }
  }

  /** The OpenAI upstream, end to end, on every run.  No stop is sent with an error. */
  method RelayOpenAi<E>(parse: Parser<OpenAi.Chunk>, encoder: EncoderOps<E>, e: E, session: RedactionSession?,
                     steps: seq<Step>) returns (relay: StreamRelay<OpenAi.Decoder, E>, read: nat)
    requires ParserOk(parse, OpenAiUtf8) && (session != null ==> session.Valid())
    modifies session
    ensures GuardOk(old(GuardOf(session))) && StopOnlyLast(EventsOf(relay.encoded)) && read <= |steps|
    ensures relay.upstreamFailed <==> read > 0 && Fails(steps[read - 1])
    ensures relay.upstreamFailed ==> NoStop(EventsOf(relay.encoded)) && !relay.doneSent
    ensures ErrorShown(relay.encoded) ==> !relay.doneSent
    ensures ErrorIn(EventsOf(relay.encoded)) ==> NoStop(EventsOf(relay.encoded))
    ensures !relay.closed && Clean(Arrived(steps, read)) ==>
              OpenAiDelivers(parse, old(GuardOf(session)), relay.upstreamFailed, PayloadsOf(Arrived(steps, read)),
                          EventsOf(relay.encoded))
    ensures !relay.closed && AllChunks(steps) && Clean(steps) ==>
              OpenAiDelivers(parse, old(GuardOf(session)), false, PayloadsOf(steps), EventsOf(relay.encoded))
  {
    hide DecoderOk, RedactionSession.Valid, StopOnlyLast, NoStop, ErrorShown, EventsOf, RelaySpec, CutSpec, VaultOk;
    hide Clean, PayloadsOf, Arrived, AllChunks, ParserOk, Stops, ErrorIn, DecodeAll, OpenAi.Finish, OpenAiOps, Parsed;
    hide OpenAiDelivers, HasError;
    OpenAiDecoderOk(parse);
    ghost var g := GuardOf(session);
    relay, read := RelayRun(OpenAiOps(parse), OpenAi.NEW_DECODER, encoder, e, session, steps);
    OpenAiStopIff(parse, relay.processed);
    OpenAiFinishIs(parse, DecodeAll(OpenAiOps(parse), OpenAi.NEW_DECODER, relay.processed).0);
    OpenAiGivenDelivers(parse, g, relay.upstreamFailed, PayloadsOf(Arrived(steps, read)));
    OpenAiGivenDelivers(parse, g, false, PayloadsOf(steps));
  }

  lemma {:induction false} OpenAiFinishIs(parse: Parser<OpenAi.Chunk>, d: OpenAi.Decoder)
    ensures OpenAiOps(parse).finish(d) == OpenAi.Finish(d)
  {
  }

  /** What reaches a client of an Anthropic upstream: on every channel the one-shot restore of what the
      chunks say, an error exactly when an event is one, and a stop exactly when the stream was not cut off
      and it carries a `message_stop`, or has started and carries no error. */
  ghost predicate AnthropicDelivers(parse: Parser<Anthropic.Wire>, g: Guard, cut: bool, payloads: seq<Text>, sent: seq<Event>)
    requires GuardOk(g)
  {
    var ks := Parsed(parse, payloads);
    && (forall c :: ChannelText(c, sent) == ReadBack(g, c, AnthropicText(c, ks)))
    && (ErrorIn(sent) <==> SaysError(ks))
    && (!NoStop(sent) <==> !cut && (SaysStop(ks) || (SaysStart(ks) && !SaysError(ks))))
  }

  lemma {:induction false} AnthropicGivenDelivers(parse: Parser<Anthropic.Wire>, g: Guard, cut: bool, payloads: seq<Text>)
    requires GuardOk(g)
    ensures AnthropicDelivers(parse, g, cut, payloads, Given(AnthropicOps(parse), Anthropic.NEW_DECODER, g, cut, payloads))
  {
    hide ChannelText, RelaySpec, CutSpec, DecodeAll, Anthropic.FeedAll, ReadBack, VaultOk, AnthropicText, Parsed, ErrorIn, Stops, NoStop;
    hide SaysStop, SaysStart, SaysError;
    var ops, start := AnthropicOps(parse), Anthropic.NEW_DECODER;
    var (d, es) := DecodeAll(ops, start, payloads);
    var sent, ks := Given(ops, start, g, cut, payloads), Parsed(parse, payloads);
    AnthropicStopIff(parse, payloads);
    SpecEnds(ops, start, g, payloads);
    CutEnds(ops, start, g, payloads);
    AnthropicDecodes(parse, start, payloads);
    forall c ensures ChannelText(c, sent) == ReadBack(g, c, AnthropicText(c, ks)) {
      ClientReads(ops, start, g, payloads, c);
      CutReads(ops, start, g, payloads, c);
      AnthropicStreamSays(start, ks, c);
      EndAddsNoText(c, es, Anthropic.Finish(d).1);
    }
  }

  /** The Anthropic upstream, end to end, on every run.  A stop is sent with an error only if a
      `message_stop` was processed. */
  method RelayAnthropic<E>(parse: Parser<Anthropic.Wire>, encoder: EncoderOps<E>, e: E, session: RedactionSession?,
                     steps: seq<Step>) returns (relay: StreamRelay<Anthropic.Decoder, E>, read: nat)
    requires ParserOk(parse, WireUtf8) && (session != null ==> session.Valid())
    modifies session
    ensures GuardOk(old(GuardOf(session))) && StopOnlyLast(EventsOf(relay.encoded)) && read <= |steps|
    ensures relay.upstreamFailed <==> read > 0 && Fails(steps[read - 1])
    ensures relay.upstreamFailed ==> NoStop(EventsOf(relay.encoded)) && !relay.doneSent
    ensures ErrorShown(relay.encoded) ==> !relay.doneSent
    ensures ErrorIn(EventsOf(relay.encoded)) ==> NoStop(EventsOf(relay.encoded)) || SaysStop(Parsed(parse, relay.processed))
    ensures !relay.closed && Clean(Arrived(steps, read)) ==>
              AnthropicDelivers(parse, old(GuardOf(session)), relay.upstreamFailed, PayloadsOf(Arrived(steps, read)),
                          EventsOf(relay.encoded))
    ensures !relay.closed && AllChunks(steps) && Clean(steps) ==>
              AnthropicDelivers(parse, old(GuardOf(session)), false, PayloadsOf(steps), EventsOf(relay.encoded))
  {
    hide DecoderOk, RedactionSession.Valid, StopOnlyLast, NoStop, ErrorShown, EventsOf, RelaySpec, CutSpec, VaultOk;
    hide Clean, PayloadsOf, Arrived, AllChunks, ParserOk, Stops, ErrorIn, DecodeAll, Anthropic.Finish, AnthropicOps, Parsed;
    hide AnthropicDelivers, SaysStop, SaysStart, SaysError;
    AnthropicDecoderOk(parse);
    ghost var g := GuardOf(session);
    relay, read := RelayRun(AnthropicOps(parse), Anthropic.NEW_DECODER, encoder, e, session, steps);
    AnthropicStopIff(parse, relay.processed);
    AnthropicFinishIs(parse, DecodeAll(AnthropicOps(parse), Anthropic.NEW_DECODER, relay.processed).0);
    AnthropicGivenDelivers(parse, g, relay.upstreamFailed, PayloadsOf(Arrived(steps, read)));
    AnthropicGivenDelivers(parse, g, false, PayloadsOf(steps));
  }

  lemma {:induction false} AnthropicFinishIs(parse: Parser<Anthropic.Wire>, d: Anthropic.Decoder)
    ensures AnthropicOps(parse).finish(d) == Anthropic.Finish(d)
  {
  }

  /** What reaches a client of a Gemini upstream: on every channel the one-shot restore of what the
      chunks say, an error exactly when a chunk is one, and a stop exactly when the stream was not cut off
      and a chunk that is no error carries a finish reason, or there were chunks and none was an error. */
  ghost predicate GeminiDelivers(parse: Parser<Gemini.Chunk>, g: Guard, cut: bool, payloads: seq<Text>, sent: seq<Event>)
    requires GuardOk(g)
  {
    var ks := Parsed(parse, payloads);
    && (forall c :: ChannelText(c, sent) == ReadBack(g, c, GeminiText(c, ks)))
    && (ErrorIn(sent) <==> !NoErrors(ks))
    && (!NoStop(sent) <==> !cut && (HasReason(ks) || (ks != [] && NoErrors(ks))))
  }

  lemma {:induction false} GeminiGivenDelivers(parse: Parser<Gemini.Chunk>, g: Guard, cut: bool, payloads: seq<Text>)
    requires GuardOk(g)
    ensures GeminiDelivers(parse, g, cut, payloads, Given(GeminiOps(parse), Gemini.NEW_DECODER, g, cut, payloads))
  {
    hide ChannelText, RelaySpec, CutSpec, DecodeAll, GeminiRun, ReadBack, VaultOk, GeminiText, Parsed, ErrorIn, Stops, NoStop;
    hide HasReason, NoErrors;
    var ops, start := GeminiOps(parse), Gemini.NEW_DECODER;
    var (d, es) := DecodeAll(ops, start, payloads);
    var sent, ks := Given(ops, start, g, cut, payloads), Parsed(parse, payloads);
    GeminiStopIff(parse, payloads);
    SpecEnds(ops, start, g, payloads);
    CutEnds(ops, start, g, payloads);
    GeminiDecodes(parse, start, payloads);
    forall c ensures ChannelText(c, sent) == ReadBack(g, c, GeminiText(c, ks)) {
      ClientReads(ops, start, g, payloads, c);
      CutReads(ops, start, g, payloads, c);
      GeminiSaysAll(ks, c);
      EndAddsNoText(c, es, Gemini.Finish(d).1);
    }
  }

  /** The Gemini upstream, end to end, on every run.  A stop is sent with an error only if a finish reason
      was processed. */
  method RelayGemini<E>(parse: Parser<Gemini.Chunk>, encoder: EncoderOps<E>, e: E, session: RedactionSession?,
                     steps: seq<Step>) returns (relay: StreamRelay<Gemini.Decoder, E>, read: nat)
    requires ParserOk(parse, GeminiUtf8) && (session != null ==> session.Valid())
    modifies session
    ensures GuardOk(old(GuardOf(session))) && StopOnlyLast(EventsOf(relay.encoded)) && read <= |steps|
    ensures relay.upstreamFailed <==> read > 0 && Fails(steps[read - 1])
    ensures relay.upstreamFailed ==> NoStop(EventsOf(relay.encoded)) && !relay.doneSent
    ensures ErrorShown(relay.encoded) ==> !relay.doneSent
    ensures ErrorIn(EventsOf(relay.encoded)) ==> NoStop(EventsOf(relay.encoded)) || HasReason(Parsed(parse, relay.processed))
    ensures !relay.closed && Clean(Arrived(steps, read)) ==>
              GeminiDelivers(parse, old(GuardOf(session)), relay.upstreamFailed, PayloadsOf(Arrived(steps, read)),
                          EventsOf(relay.encoded))
    ensures !relay.closed && AllChunks(steps) && Clean(steps) ==>
              GeminiDelivers(parse, old(GuardOf(session)), false, PayloadsOf(steps), EventsOf(relay.encoded))
  {
    hide DecoderOk, RedactionSession.Valid, StopOnlyLast, NoStop, ErrorShown, EventsOf, RelaySpec, CutSpec, VaultOk;
    hide Clean, PayloadsOf, Arrived, AllChunks, ParserOk, Stops, ErrorIn, DecodeAll, Gemini.Finish, GeminiOps, Parsed;
    hide GeminiDelivers, HasReason, NoErrors;
    GeminiDecoderOk(parse);
    ghost var g := GuardOf(session);
    relay, read := RelayRun(GeminiOps(parse), Gemini.NEW_DECODER, encoder, e, session, steps);
    GeminiStopIff(parse, relay.processed);
    GeminiFinishIs(parse, DecodeAll(GeminiOps(parse), Gemini.NEW_DECODER, relay.processed).0);
    GeminiGivenDelivers(parse, g, relay.upstreamFailed, PayloadsOf(Arrived(steps, read)));
    GeminiGivenDelivers(parse, g, false, PayloadsOf(steps));
  }

  lemma {:induction false} GeminiFinishIs(parse: Parser<Gemini.Chunk>, d: Gemini.Decoder)
    ensures GeminiOps(parse).finish(d) == Gemini.Finish(d)
  {
  }
}
