/** The Anthropic stream encoder and decoder (src/adapters/anthropic/stream.rs). */
module AnthropicStream {
  import opened Bytes
  import opened Neutral

  // ----- wire events -----

  datatype Kind = TextKind | ThinkingKind | ToolUseKind

  datatype BlockHead = TextHead | ThinkingHead | ToolUseHead(toolId: string, toolName: string) | OtherHead

  datatype Delta =
    | TextD(text: Text)
    | ThinkingD(thinking: Text)
    | InputJsonD(partialJson: Text)
    | SignatureD(signature: string)
    | OtherD

  datatype StartInfo = StartInfo(id: string, model: string, inputTokens: nat)

  datatype Wire =
    | WMessageStart(info: Option<StartInfo>)
    | WBlockStart(index: nat, head: BlockHead)
    | WBlockDelta(index: nat, delta: Delta)
    | WBlockStop(index: nat)
    | WMessageDelta(stopReason: Option<string>, outputTokens: Option<nat>)
    | WMessageStop
    | WPing
    | WError(errorMessage: Text)
    | WOther

  // ----- stop reasons -----

  function ParseStopReason(s: string): FinishReason {
    if s == "end_turn" then Stop
    else if s == "max_tokens" then Length
    else if s == "tool_use" then ToolCalls
    else if s == "stop_sequence" then Stop
    else if s == "refusal" then ContentFilter
    else Other(s)
  }

  function StopReasonText(f: FinishReason): string {
    match f
    case Stop => "end_turn"
    case Length => "max_tokens"
    case ToolCalls => "tool_use"
    case ContentFilter => "refusal"
    case Other(s) => s
  }

  predicate Reserved(s: string) {
    s == "end_turn" || s == "max_tokens" || s == "tool_use" || s == "stop_sequence" || s == "refusal"
  }

  /** A finish reason survives the wire exactly when it is not an `Other` that spells a reserved
      stop reason. */
  lemma {:induction false} StopReasonSurvives(f: FinishReason)
    ensures ParseStopReason(StopReasonText(f)) == f <==> !(f.Other? && Reserved(f.reason))
  {
    assert "max_tokens"[0] == 'm' && "tool_use"[0] == 't' && "end_turn"[0] == 'e' && "refusal"[0] == 'r';
    assert "stop_sequence"[0] == 's';
  }

  /** The words of the wire, one by one. */
  lemma {:induction false} StopReasonWords()
    ensures ParseStopReason("end_turn") == Stop && ParseStopReason("stop_sequence") == Stop
    ensures ParseStopReason("max_tokens") == Length && ParseStopReason("tool_use") == ToolCalls
    ensures ParseStopReason("refusal") == ContentFilter
    ensures StopReasonText(Stop) == "end_turn" && StopReasonText(Length) == "max_tokens"
    ensures StopReasonText(ToolCalls) == "tool_use" && StopReasonText(ContentFilter) == "refusal"
    ensures forall s :: !Reserved(s) ==> ParseStopReason(s) == Other(s)
  {
    assert "max_tokens"[0] == 'm' && "tool_use"[0] == 't' && "end_turn"[0] == 'e' && "refusal"[0] == 'r';
    assert "stop_sequence"[0] == 's';
  }

  // ----- the encoder -----

  datatype Encoder = Encoder(
    blockIndex: nat,
    current: Option<Kind>,
    pendingSignature: Option<string>,
    toolBlocksOpen: set<nat>,
    openToolIndex: Option<nat>)

  const NEW_ENCODER := Encoder(0, None, None, {}, None)

  /** `close_block`. */
  function CloseBlock(enc: Encoder): (Encoder, seq<Wire>) {
    if enc.current.None? then (enc, [])
    else
      var kind := enc.current.value;
      var signs := kind == ThinkingKind && enc.pendingSignature.Some?;
      (Encoder(enc.blockIndex + 1, None,
               if signs then None else enc.pendingSignature,
               if kind == ToolUseKind && enc.openToolIndex.Some?
               then enc.toolBlocksOpen - {enc.openToolIndex.value} else enc.toolBlocksOpen,
               if kind == ToolUseKind then None else enc.openToolIndex),
       (if signs then [WBlockDelta(enc.blockIndex, SignatureD(enc.pendingSignature.value))] else [])
       + [WBlockStop(enc.blockIndex)])
  }

  /** `ensure_block` for text and thinking. */
  function EnsureBlock(enc: Encoder, kind: Kind): (Encoder, seq<Wire>) {
    if enc.current == Some(kind) then (enc, [])
    else
      var (closed, lines) := CloseBlock(enc);
      (closed.(current := Some(kind)),
       lines + [WBlockStart(closed.blockIndex, if kind == ThinkingKind then ThinkingHead else TextHead)])
  }

  function Encode(enc: Encoder, e: Event): (Encoder, seq<Wire>) {
    match e
    case MessageStart(id, model, usage) =>
      (enc, [WMessageStart(Some(StartInfo(id, model, if usage.Some? then usage.value.inputTokens else 0)))])
    case TextDelta(t) =>
      var (enc1, lines) := EnsureBlock(enc, TextKind);
      (enc1, lines + [WBlockDelta(enc1.blockIndex, TextD(t))])
    case ReasoningDelta(t) =>
      var (enc1, lines) := EnsureBlock(enc, ThinkingKind);
      (enc1, lines + [WBlockDelta(enc1.blockIndex, ThinkingD(t))])
    case ReasoningSignature(s) => (enc.(pendingSignature := Some(s)), [])
    case ToolCallDelta(i, id, name, args) =>
      var (enc1, lines) :=
        if i in enc.toolBlocksOpen then (enc, [])
        else
          var (closed, lines) := CloseBlock(enc);
          (closed.(current := Some(ToolUseKind), toolBlocksOpen := closed.toolBlocksOpen + {i},
                   openToolIndex := Some(i)),
           lines + [WBlockStart(closed.blockIndex, ToolUseHead(id, name))]);
      (enc1, lines + (if args == [] then [] else [WBlockDelta(enc1.blockIndex, InputJsonD(args))]))
    case MessageStop(finish, usage) =>
      var (enc1, lines) := CloseBlock(enc);
      (enc1, lines + [WMessageDelta(Some(StopReasonText(finish)),
                                    Some(if usage.Some? then usage.value.outputTokens else 0)), WMessageStop])
    case Error(err) =>
      var (enc1, lines) := CloseBlock(enc);
      (enc1, lines + [WError(Display(err))])
  }

  function EncodeAll(enc: Encoder, es: seq<Event>): (Encoder, seq<Wire>)
    decreases |es|
  {
    if es == [] then (enc, [])
    else
      var (enc1, ws) := Encode(enc, es[0]);
      var (enc2, more) := EncodeAll(enc1, es[1..]);
      (enc2, ws + more)
  }

  /** `tool_blocks_open` is exactly the open tool index, or empty. */
  predicate EncoderOk(enc: Encoder) {
    && (enc.openToolIndex.Some? <==> enc.current == Some(ToolUseKind))
    && enc.toolBlocksOpen == (if enc.openToolIndex.Some? then {enc.openToolIndex.value} else {})
  }

  lemma {:induction false} EncodeKeepsOk(enc: Encoder, e: Event)
    requires EncoderOk(enc)
    ensures EncoderOk(Encode(enc, e).0)
  {
  }

  // ----- the choreography, as an acceptor of its own -----

  /** Between blocks, the next block index; inside one, its index, its kind and whether its
      signature has been sent. */
  datatype Phase = Between(next: nat) | Inside(index: nat, kind: Kind, signed: bool)

  predicate DeltaFits(kind: Kind, d: Delta) {
    match d
    case TextD(_) => kind == TextKind
    case ThinkingD(_) => kind == ThinkingKind
    case SignatureD(_) => kind == ThinkingKind
    case InputJsonD(_) => kind == ToolUseKind
    case OtherD => false
  }

  function HeadKind(h: BlockHead): Option<Kind> {
    match h
    case TextHead => Some(TextKind)
    case ThinkingHead => Some(ThinkingKind)
    case ToolUseHead(_, _) => Some(ToolUseKind)
    case OtherHead => None
  }

  /** What the Anthropic protocol allows next: blocks numbered 0, 1, 2, ... and never nested, every
      delta of the open block's index and kind, a signature only right before a thinking block's
      stop, and message ends and errors only between blocks. */
  function Allow(p: Phase, w: Wire): Option<Phase> {
    match w
    case WBlockStart(i, head) =>
      if p.Between? && i == p.next && HeadKind(head).Some?
      then Some(Inside(i, HeadKind(head).value, false)) else None
    case WBlockDelta(i, d) =>
      if p.Inside? && i == p.index && !p.signed && DeltaFits(p.kind, d)
      then Some(p.(signed := d.SignatureD?)) else None
    case WBlockStop(i) => if p.Inside? && i == p.index then Some(Between(i + 1)) else None
    case WMessageStart(_) => if p.Inside? && p.signed then None else Some(p)
    case WMessageDelta(_, _) => if p.Between? then Some(p) else None
    case WMessageStop => if p.Between? then Some(p) else None
    case WError(_) => if p.Between? then Some(p) else None
    case _ => None
  }

  function AllowAll(p: Phase, ws: seq<Wire>): Option<Phase>
    decreases |ws|
  {
    if ws == [] then Some(p)
    else
      var q := Allow(p, ws[0]);
      if q.None? then None else AllowAll(q.value, ws[1..])
  }

  lemma {:induction false} AllowConcat(p: Phase, a: seq<Wire>, b: seq<Wire>)
    ensures AllowAll(p, a + b)
            == var q := AllowAll(p, a); if q.None? then None else AllowAll(q.value, b)
    decreases |a|
  {
    if a == [] {
      assert a + b == b;
    } else {
      assert (a + b)[1..] == a[1..] + b;
      var q := Allow(p, a[0]);
      if q.Some? {
        AllowConcat(q.value, a[1..], b);
      }
    }
  }

  lemma {:induction false} AllowOne(p: Phase, w: Wire)
    ensures AllowAll(p, [w]) == Allow(p, w)
  {
    assert [w][1..] == [];
  }

  lemma {:induction false} AllowTwo(p: Phase, w1: Wire, w2: Wire)
    ensures AllowAll(p, [w1]) == Allow(p, w1)
    ensures AllowAll(p, [w1, w2])
            == var q := Allow(p, w1); if q.None? then None else Allow(q.value, w2)
  {
    AllowOne(p, w1);
    assert [w1, w2][1..] == [w2];
    var q := Allow(p, w1);
    if q.Some? {
      AllowOne(q.value, w2);
    }
  }

  function PhaseOf(enc: Encoder): Phase {
    if enc.current.None? then Between(enc.blockIndex) else Inside(enc.blockIndex, enc.current.value, false)
  }

  lemma {:induction false} CloseAllowed(enc: Encoder)
    ensures AllowAll(PhaseOf(enc), CloseBlock(enc).1) == Some(PhaseOf(CloseBlock(enc).0))
    ensures PhaseOf(CloseBlock(enc).0).Between?
  {
    if enc.current.Some? {
      var i := enc.blockIndex;
      if enc.current.value == ThinkingKind && enc.pendingSignature.Some? {
        var s := SignatureD(enc.pendingSignature.value);
        AllowTwo(PhaseOf(enc), WBlockDelta(i, s), WBlockStop(i));
        assert CloseBlock(enc).1 == [WBlockDelta(i, s), WBlockStop(i)];
      } else {
        AllowTwo(PhaseOf(enc), WBlockStop(i), WBlockStop(i));
        assert CloseBlock(enc).1 == [WBlockStop(i)];
      }
    }
  }

  lemma {:induction false} EncodeAllowed(enc: Encoder, e: Event)
    requires EncoderOk(enc)
    ensures AllowAll(PhaseOf(enc), Encode(enc, e).1) == Some(PhaseOf(Encode(enc, e).0))
  {
    hide AllowAll, CloseBlock;
    var p := PhaseOf(enc);
    var (closed, lines) := CloseBlock(enc);
    CloseAllowed(enc);
    AllowNothing(p);
    match e {
      case MessageStart(id, model, usage) => AllowTwo(p, Encode(enc, e).1[0], WPing);
      case TextDelta(t) => DeltaAllowed(enc, TextKind, TextD(t));
      case ReasoningDelta(t) => DeltaAllowed(enc, ThinkingKind, ThinkingD(t));
      case ReasoningSignature(s) =>
      case ToolCallDelta(i, id, name, args) =>
        var start := WBlockStart(closed.blockIndex, ToolUseHead(id, name));
        AllowConcat(p, lines, [start]);
        AllowTwo(PhaseOf(closed), start, start);
        var lead := if i in enc.toolBlocksOpen then [] else lines + [start];
        var d := WBlockDelta(Encode(enc, e).0.blockIndex, InputJsonD(args));
        AllowConcat(p, lead, if args == [] then [] else [d]);
        var q := PhaseOf(Encode(enc, e).0);
        AllowNothing(q);
        AllowTwo(q, d, d);
      case MessageStop(f, u) =>
        var ends := [WMessageDelta(Some(StopReasonText(f)), Some(if u.Some? then u.value.outputTokens else 0)),
                     WMessageStop];
        AllowConcat(p, lines, ends);
        AllowTwo(PhaseOf(closed), ends[0], ends[1]);
      case Error(err) =>
        AllowConcat(p, lines, [WError(Display(err))]);
        AllowTwo(PhaseOf(closed), WError(Display(err)), WPing);
    }
  }

  lemma {:induction false} AllowNothing(p: Phase)
    ensures AllowAll(p, []) == Some(p)
  {
  }

  lemma {:induction false} DeltaAllowed(enc: Encoder, kind: Kind, d: Delta)
    requires kind != ToolUseKind && DeltaFits(kind, d) && !d.SignatureD?
    ensures var (enc1, lines) := EnsureBlock(enc, kind);
            AllowAll(PhaseOf(enc), lines + [WBlockDelta(enc1.blockIndex, d)]) == Some(PhaseOf(enc1))
  {
    hide AllowAll, CloseBlock;
    var p := PhaseOf(enc);
    var (closed, close) := CloseBlock(enc);
    var (enc1, lines) := EnsureBlock(enc, kind);
    var w := WBlockDelta(enc1.blockIndex, d);
    CloseAllowed(enc);
    AllowNothing(p);
    var start := WBlockStart(closed.blockIndex, if kind == ThinkingKind then ThinkingHead else TextHead);
    AllowConcat(p, close, [start]);
    AllowTwo(PhaseOf(closed), start, start);
    AllowConcat(p, lines, [w]);
    AllowTwo(PhaseOf(enc1), w, w);
  }

  /** Anthropic choreography: for every event sequence whatsoever the encoder's output is one the
      protocol's acceptor allows, and the register of open tool blocks is exact throughout. */
  lemma {:induction false} ChoreographyHolds(enc: Encoder, es: seq<Event>)
    requires EncoderOk(enc)
    ensures EncoderOk(EncodeAll(enc, es).0)
    ensures AllowAll(PhaseOf(enc), EncodeAll(enc, es).1) == Some(PhaseOf(EncodeAll(enc, es).0))
    decreases |es|
  {
    hide AllowAll, Encode, EncoderOk;
    if es == [] {
      AllowNothing(PhaseOf(enc));
    } else {
      var (enc1, ws) := Encode(enc, es[0]);
      EncodeKeepsOk(enc, es[0]);
      EncodeAllowed(enc, es[0]);
      ChoreographyHolds(enc1, es[1..]);
      AllowConcat(PhaseOf(enc), ws, EncodeAll(enc1, es[1..]).1);
    }
  }

  // ----- the decoder -----

  datatype Decoder = Decoder(
    started: bool,
    failed: bool,
    messageId: string,
    model: string,
    inputTokens: nat,
    stopEmitted: bool,
    pendingFinish: Option<FinishReason>,
    pendingUsage: Option<Usage>)

  const NEW_DECODER := Decoder(false, false, "", "", 0, false, None, None)

  function StopEvent(dec: Decoder): Event {
    MessageStop(if dec.pendingFinish.Some? then dec.pendingFinish.value else Stop, dec.pendingUsage)
  }

  function Feed(dec: Decoder, w: Wire): (Decoder, seq<Event>) {
    match w
    case WMessageStart(info) =>
      var dec1 := dec.(started := true);
      var dec2 := if info.None? then dec1
                  else dec1.(messageId := info.value.id, model := info.value.model,
                             inputTokens := info.value.inputTokens);
      (dec2, [MessageStart(dec2.messageId, dec2.model, Some(Usage(dec2.inputTokens, 0)))])
    case WBlockStart(i, head) =>
      (dec, if head.ToolUseHead? then [ToolCallDelta(i, head.toolId, head.toolName, [])] else [])
    case WBlockDelta(i, d) =>
      (dec, match d
            case TextD(t) => [TextDelta(t)]
            case ThinkingD(t) => [ReasoningDelta(t)]
            case InputJsonD(j) => [ToolCallDelta(i, "", "", j)]
            case SignatureD(s) => [ReasoningSignature(s)]
            case OtherD => [])
    case WMessageDelta(reason, output) =>
      var dec1 := if reason.None? then dec
                  else dec.(pendingFinish := Some(ParseStopReason(reason.value)));
      (if output.None? then dec1
       else dec1.(pendingUsage := Some(Usage(dec.inputTokens, output.value))), [])
    case WMessageStop =>
      if dec.stopEmitted then (dec, []) else (dec.(stopEmitted := true), [StopEvent(dec)])
    case WError(message) => (dec.(failed := true), [Error(Api(message))])
    case _ => (dec, [])
  }

  function Finish(dec: Decoder): (Decoder, seq<Event>) {
    if !dec.started || dec.failed || dec.stopEmitted then (dec, [])
    else (dec.(stopEmitted := true), [StopEvent(dec)])
  }

  function FeedAll(dec: Decoder, ws: seq<Wire>): (Decoder, seq<Event>)
    decreases |ws|
  {
    if ws == [] then (dec, [])
    else
      var (dec1, es) := Feed(dec, ws[0]);
      var (dec2, more) := FeedAll(dec1, ws[1..]);
      (dec2, es + more)
  }

  lemma {:induction false} FeedConcat(dec: Decoder, a: seq<Wire>, b: seq<Wire>)
    ensures FeedAll(dec, a + b)
            == var (dec1, es) := FeedAll(dec, a);
               var (dec2, more) := FeedAll(dec1, b);
               (dec2, es + more)
    decreases |a|
  {
    hide Feed;
    if a == [] {
      assert a + b == b;
      var more := FeedAll(dec, b).1;
      assert [] + more == more;
    } else {
      assert (a + b)[1..] == a[1..] + b;
      var (dec1, es) := Feed(dec, a[0]);
      FeedConcat(dec1, a[1..], b);
      var (dec2, mid) := FeedAll(dec1, a[1..]);
      var more := FeedAll(dec2, b).1;
      assert es + (mid + more) == es + mid + more;
    }
  }

  lemma {:induction false} FeedOne(dec: Decoder, w: Wire)
    ensures FeedAll(dec, [w]) == Feed(dec, w)
  {
    hide Feed;
    assert [w][1..] == [];
    var es := Feed(dec, w).1;
    assert es + [] == es;
  }

  // ----- what an event sequence says -----

  /** A finished content block: its deltas in order with every signature that arrived for it, or one
      tool call with every id and name given after its first fragment. */
  datatype Block =
    | TextBlock(texts: seq<Text>)
    | ThinkingBlock(thoughts: seq<Text>, sealed: seq<string>)
    | ToolBlock(callId: string, callName: string, callArgs: Text, renamed: seq<(string, string)>)

  datatype OpenBlock = NoBlock | OpenText(texts: seq<Text>) | OpenThinking(thoughts: seq<Text>)
                     | OpenTool(index: nat, callId: string, callName: string, callArgs: Text,
                                renamed: seq<(string, string)>)

  /** Blocks said so far, the one being said, and the signatures not yet attached. */
  datatype Saying = Saying(blocks: seq<Block>, open: OpenBlock, signatures: seq<string>)

  const SILENCE := Saying([], NoBlock, [])

  /** The open block is over: a thinking block takes the signatures that have arrived. */
  function Settle(s: Saying): Saying {
    match s.open
    case NoBlock => s
    case OpenText(ts) => Saying(s.blocks + [TextBlock(ts)], NoBlock, s.signatures)
    case OpenThinking(ts) => Saying(s.blocks + [ThinkingBlock(ts, s.signatures)], NoBlock, [])
    case OpenTool(_, id, name, args, names) =>
      Saying(s.blocks + [ToolBlock(id, name, args, names)], NoBlock, s.signatures)
  }

  function Renames(id: string, name: string): seq<(string, string)> {
    if id == "" && name == "" then [] else [(id, name)]
  }

  /** The meaning of one more event, whatever wire it came over: deltas of one kind in a row form
      a block, fragments of one tool index in a row form a call named by the first of them. */
  function Say(s: Saying, e: Event): Saying {
    match e
    case TextDelta(t) =>
      if s.open.OpenText? then s.(open := OpenText(s.open.texts + [t]))
      else Settle(s).(open := OpenText([t]))
    case ReasoningDelta(t) =>
      if s.open.OpenThinking? then s.(open := OpenThinking(s.open.thoughts + [t]))
      else Settle(s).(open := OpenThinking([t]))
    case ReasoningSignature(sig) => s.(signatures := s.signatures + [sig])
    case ToolCallDelta(i, id, name, args) =>
      if s.open.OpenTool? && s.open.index == i
      then s.(open := s.open.(callArgs := s.open.callArgs + args, renamed := s.open.renamed + Renames(id, name)))
      else Settle(s).(open := OpenTool(i, id, name, args, []))
    case MessageStop(_, _) => Settle(s)
    case Error(_) => Settle(s)
    case MessageStart(_, _, _) => s
  }

  function SayAll(s: Saying, es: seq<Event>): Saying
    decreases |es|
  {
    if es == [] then s else SayAll(Say(s, es[0]), es[1..])
  }

  lemma {:induction false} SayConcat(s: Saying, a: seq<Event>, b: seq<Event>)
    ensures SayAll(s, a + b) == SayAll(SayAll(s, a), b)
    decreases |a|
  {
    hide Say;
    if a == [] {
      assert a + b == b;
    } else {
      assert (a + b)[1..] == a[1..] + b;
      SayConcat(Say(s, a[0]), a[1..], b);
    }
  }

  lemma {:induction false} SayOne(s: Saying, e: Event)
    ensures SayAll(s, [e]) == Say(s, e)
  {
    hide Say;
    assert [e][1..] == [];
  }

  // ----- decoding undoes encoding -----

  /** The last of some signatures, if there is one. */
  function LastOf(sigs: seq<string>): seq<string> { if sigs == [] then [] else [sigs[|sigs| - 1]] }

  /** What the wire carries of a block: of its signatures the last, of its call's names the first. */
  function Carried(b: Block): Block {
    match b
    case ThinkingBlock(ts, sigs) => ThinkingBlock(ts, LastOf(sigs))
    case ToolBlock(id, name, args, _) => ToolBlock(id, name, args, [])
    case TextBlock(_) => b
  }

  function CarriedAll(bs: seq<Block>): (cs: seq<Block>)
    ensures |cs| == |bs| && forall i | 0 <= i < |bs| :: cs[i] == Carried(bs[i])
  {
    seq(|bs|, i requires 0 <= i < |bs| => Carried(bs[i]))
  }

  function CarriedOpen(o: OpenBlock, index: nat): OpenBlock {
    match o
    case OpenTool(_, id, name, args, _) => OpenTool(index, id, name, args, [])
    case _ => o
  }

  /** The decoded stream has said what the wire carries of the original: tool indices renumbered, and
      the last signature still waiting in the encoder. */
  predicate Alike(said: Saying, heard: Saying, enc: Encoder) {
    && heard.blocks == CarriedAll(said.blocks) && heard.signatures == []
    && LastOf(said.signatures) == (if enc.pendingSignature.Some? then [enc.pendingSignature.value] else [])
    && heard.open == CarriedOpen(said.open, enc.blockIndex)
    && match said.open
       case NoBlock => enc.current.None?
       case OpenText(ts) => enc.current == Some(TextKind)
       case OpenThinking(ts) => enc.current == Some(ThinkingKind)
       case OpenTool(i, _, _, _, _) => enc.current == Some(ToolUseKind) && enc.openToolIndex == Some(i)
  }

  /** What the decoder makes of a closing block: at most its signature. */
  function ClosingEvents(enc: Encoder): seq<Event> {
    if enc.current == Some(ThinkingKind) && enc.pendingSignature.Some?
    then [ReasoningSignature(enc.pendingSignature.value)] else []
  }

  lemma {:induction false} FeedClose(dec: Decoder, enc: Encoder)
    ensures FeedAll(dec, CloseBlock(enc).1) == (dec, ClosingEvents(enc))
  {
    var stop := WBlockStop(enc.blockIndex);
    FeedOne(dec, stop);
    if enc.current.Some? {
      if enc.current.value == ThinkingKind && enc.pendingSignature.Some? {
        var d := WBlockDelta(enc.blockIndex, SignatureD(enc.pendingSignature.value));
        FeedOne(dec, d);
        FeedConcat(dec, [d], [stop]);
        assert ClosingEvents(enc) + [] == ClosingEvents(enc);
      } else {
        assert CloseBlock(enc).1 == [stop];
      }
    }
  }

  /** Hearing the signature and then anything that ends the block is settling it. */
  lemma {:induction false} HearClose(said: Saying, heard: Saying, enc: Encoder)
    requires Alike(said, heard, enc)
    ensures var h := SayAll(heard, ClosingEvents(enc));
            && h.open == heard.open && h.blocks == heard.blocks
            && Settle(h).blocks == CarriedAll(Settle(said).blocks)
            && Settle(h).open.NoBlock? && Settle(said).open.NoBlock? && Settle(h).signatures == []
            && LastOf(Settle(said).signatures)
               == (if CloseBlock(enc).0.pendingSignature.Some? then [CloseBlock(enc).0.pendingSignature.value] else [])
  {
    assert [] + LastOf(said.signatures) == LastOf(said.signatures);
    if ClosingEvents(enc) != [] {
      SayOne(heard, ClosingEvents(enc)[0]);
      assert ClosingEvents(enc) == [ClosingEvents(enc)[0]];
    }
  }

  /** The events the decoder makes of one encoded event. */
  function Heard(enc: Encoder, e: Event): seq<Event> {
    match e
    case MessageStart(id, model, usage) =>
      [MessageStart(id, model, Some(Usage(if usage.Some? then usage.value.inputTokens else 0, 0)))]
    case TextDelta(_) => (if enc.current == Some(TextKind) then [] else ClosingEvents(enc)) + [e]
    case ReasoningDelta(_) => (if enc.current == Some(ThinkingKind) then [] else ClosingEvents(enc)) + [e]
    case ReasoningSignature(_) => []
    case ToolCallDelta(i, id, name, args) =>
      var k := Encode(enc, e).0.blockIndex;
      (if i in enc.toolBlocksOpen then [] else ClosingEvents(enc) + [ToolCallDelta(k, id, name, [])])
      + (if args == [] then [] else [ToolCallDelta(k, "", "", args)])
    case Error(err) => ClosingEvents(enc) + [Error(Api(Display(err)))]
    case MessageStop(_, _) => []
  }

  function After(dec: Decoder, e: Event): Decoder {
    match e
    case MessageStart(id, model, usage) =>
      dec.(started := true, messageId := id, model := model,
           inputTokens := if usage.Some? then usage.value.inputTokens else 0)
    case Error(_) => dec.(failed := true)
    case _ => dec
  }

  lemma {:induction false} FeedEncoded(dec: Decoder, enc: Encoder, e: Event)
    requires !e.MessageStop?
    ensures FeedAll(dec, Encode(enc, e).1) == (After(dec, e), Heard(enc, e))
  {
    hide FeedAll, CloseBlock, ClosingEvents;
    var (closed, close) := CloseBlock(enc);
    FeedClose(dec, enc);
    FeedNothing(dec);
    match e {
      case MessageStart(id, model, usage) => FeedOne(dec, Encode(enc, e).1[0]);
      case TextDelta(t) => FeedDelta(dec, enc, TextKind, TextD(t), e);
      case ReasoningDelta(t) => FeedDelta(dec, enc, ThinkingKind, ThinkingD(t), e);
      case ReasoningSignature(s) =>
      case ToolCallDelta(i, id, name, args) =>
        var start := WBlockStart(closed.blockIndex, ToolUseHead(id, name));
        FeedConcat(dec, close, [start]);
        FeedOne(dec, start);
        var d := WBlockDelta(Encode(enc, e).0.blockIndex, InputJsonD(args));
        FeedOne(dec, d);
        FeedConcat(dec, if i in enc.toolBlocksOpen then [] else close + [start], if args == [] then [] else [d]);
      case Error(err) =>
        FeedConcat(dec, close, [WError(Display(err))]);
        FeedOne(dec, WError(Display(err)));
    }
  }

  lemma {:induction false} FeedNothing(dec: Decoder)
    ensures FeedAll(dec, []) == (dec, [])
  {
  }

  lemma {:induction false} FeedDelta(dec: Decoder, enc: Encoder, kind: Kind, d: Delta, e: Event)
    requires kind != ToolUseKind && Feed(dec, WBlockDelta(EnsureBlock(enc, kind).0.blockIndex, d)) == (dec, [e])
    ensures var (enc1, lines) := EnsureBlock(enc, kind);
            FeedAll(dec, lines + [WBlockDelta(enc1.blockIndex, d)])
            == (dec, (if enc.current == Some(kind) then [] else ClosingEvents(enc)) + [e])
  {
    hide FeedAll, CloseBlock, ClosingEvents;
    var (closed, close) := CloseBlock(enc);
    var (enc1, lines) := EnsureBlock(enc, kind);
    FeedClose(dec, enc);
    FeedNothing(dec);
    var start := WBlockStart(closed.blockIndex, if kind == ThinkingKind then ThinkingHead else TextHead);
    FeedOne(dec, start);
    FeedConcat(dec, close, [start]);
    FeedOne(dec, WBlockDelta(enc1.blockIndex, d));
    FeedConcat(dec, lines, [WBlockDelta(enc1.blockIndex, d)]);
    var closing := ClosingEvents(enc);
    assert closing + [] == closing;
  }

  lemma {:induction false} SayNothing(s: Saying)
    ensures SayAll(s, []) == s
  {
  }

  lemma {:induction false} DeltaMeansTheSame(said: Saying, heard: Saying, enc: Encoder, e: Event)
    requires Alike(said, heard, enc) && EncoderOk(enc) && (e.TextDelta? || e.ReasoningDelta?)
    ensures Alike(Say(said, e), SayAll(heard, Heard(enc, e)), Encode(enc, e).0)
  {
    hide SayAll, ClosingEvents, CarriedAll, LastOf;
    var closing := ClosingEvents(enc);
    HearClose(said, heard, enc);
    var h := SayAll(heard, closing);
    SayConcat(heard, closing, [e]);
    SayOne(h, e);
    SayOne(heard, e);
    assert [] + [e] == [e];
  }

  /** The first fragment of a call, and a further one. */
  lemma {:induction false} CallMeansTheSame(said: Saying, heard: Saying, enc: Encoder, e: Event)
    requires Alike(said, heard, enc) && EncoderOk(enc) && e.ToolCallDelta?
    ensures Alike(Say(said, e), SayAll(heard, Heard(enc, e)), Encode(enc, e).0)
  {
    hide SayAll, ClosingEvents, CarriedAll, LastOf, Settle;
    var k, args := Encode(enc, e).0.blockIndex, e.arguments;
    var open, more := ToolCallDelta(k, e.id, e.name, []), ToolCallDelta(k, "", "", args);
    assert [] + args == args;
    if e.index in enc.toolBlocksOpen {
      SayNothing(heard);
      SayOne(heard, more);
      assert [] + [more] == [more] && heard.open.renamed + [] == heard.open.renamed;
      assert heard.open.callArgs + args == (if args == [] then heard.open.callArgs else heard.open.callArgs + args);
    } else {
      var lead := ClosingEvents(enc) + [open];
      OpenMeansTheSame(said, heard, enc, e, k);
      var h := SayAll(heard, lead);
      SayConcat(heard, lead, if args == [] then [] else [more]);
      SayOne(h, more);
      SayNothing(h);
    }
  }

  lemma {:induction false} OpenMeansTheSame(said: Saying, heard: Saying, enc: Encoder, e: Event, k: nat)
    requires Alike(said, heard, enc) && e.ToolCallDelta? && k == CloseBlock(enc).0.blockIndex
    ensures var h := SayAll(heard, ClosingEvents(enc) + [ToolCallDelta(k, e.id, e.name, [])]);
            && h.open == OpenTool(k, e.id, e.name, [], []) && h.signatures == []
            && h.blocks == CarriedAll(Settle(said).blocks)
            && LastOf(Settle(said).signatures)
               == (if CloseBlock(enc).0.pendingSignature.Some? then [CloseBlock(enc).0.pendingSignature.value] else [])
  {
    hide SayAll, ClosingEvents, CarriedAll, LastOf;
    var closing, open := ClosingEvents(enc), ToolCallDelta(k, e.id, e.name, []);
    HearClose(said, heard, enc);
    SayConcat(heard, closing, [open]);
    SayOne(SayAll(heard, closing), open);
  }

  /** One event: the decoder's version of it means the same. */
  lemma {:induction false} EventMeansTheSame(said: Saying, heard: Saying, enc: Encoder, e: Event)
    requires Alike(said, heard, enc) && EncoderOk(enc) && !e.MessageStop?
    ensures Alike(Say(said, e), SayAll(heard, Heard(enc, e)), Encode(enc, e).0)
  {
    match e {
      case MessageStart(id, model, usage) =>
        hide SayAll;
        SayOne(heard, Heard(enc, e)[0]);
      case TextDelta(t) => DeltaMeansTheSame(said, heard, enc, e);
      case ReasoningDelta(t) => DeltaMeansTheSame(said, heard, enc, e);
      case ReasoningSignature(s) =>
        hide SayAll;
        SayNothing(heard);
      case ToolCallDelta(i, id, name, args) => CallMeansTheSame(said, heard, enc, e);
      case Error(err) => ErrorMeansTheSame(said, heard, enc, e);
    }
  }

  lemma {:induction false} ErrorMeansTheSame(said: Saying, heard: Saying, enc: Encoder, e: Event)
    requires Alike(said, heard, enc) && EncoderOk(enc) && e.Error?
    ensures Alike(Say(said, e), SayAll(heard, Heard(enc, e)), Encode(enc, e).0)
  {
    hide SayAll, ClosingEvents, CarriedAll, LastOf;
    var closing, shown := ClosingEvents(enc), Error(Api(Display(e.error)));
    HearClose(said, heard, enc);
    SayConcat(heard, closing, [shown]);
    SayOne(SayAll(heard, closing), shown);
  }

  predicate NoStops(es: seq<Event>) { forall i | 0 <= i < |es| :: !es[i].MessageStop? }

  /** The input tokens the last message start announced. */
  function StartTokens(tokens: nat, es: seq<Event>): nat
    decreases |es|
  {
    if es == [] then tokens
    else StartTokens(if es[0].MessageStart? && es[0].startUsage.Some? then es[0].startUsage.value.inputTokens
                     else if es[0].MessageStart? then 0 else tokens, es[1..])
  }

  lemma {:induction false} HeardHasNoStops(enc: Encoder, e: Event)
    ensures NoStops(Heard(enc, e))
  {
  }

  /** Everything up to the final stop. */
  lemma {:induction false} BodyMeansTheSame(said: Saying, heard: Saying, enc: Encoder, dec: Decoder, es: seq<Event>)
    requires Alike(said, heard, enc) && EncoderOk(enc) && NoStops(es)
    ensures var (enc', ws) := EncodeAll(enc, es);
            var (dec', ds) := FeedAll(dec, ws);
            && EncoderOk(enc') && Alike(SayAll(said, es), SayAll(heard, ds), enc') && NoStops(ds)
            && dec'.stopEmitted == dec.stopEmitted && dec'.inputTokens == StartTokens(dec.inputTokens, es)
    decreases |es|
  {
    hide Alike, EncoderOk, Say, Encode, Heard, FeedAll, SayAll;
    SayNothing(heard);
    SayNothing(said);
    FeedNothing(dec);
    if es != [] {
      var e, rest := es[0], es[1..];
      var (enc1, ws) := Encode(enc, e);
      EncodeKeepsOk(enc, e);
      FeedEncoded(dec, enc, e);
      EventMeansTheSame(said, heard, enc, e);
      HeardHasNoStops(enc, e);
      var hs := Heard(enc, e);
      BodyMeansTheSame(Say(said, e), SayAll(heard, hs), enc1, After(dec, e), rest);
      FeedConcat(dec, ws, EncodeAll(enc1, rest).1);
      SayConcat(heard, hs, FeedAll(After(dec, e), EncodeAll(enc1, rest).1).1);
      SayUnfold(said, es);
    }
  }

  lemma {:induction false} SayUnfold(s: Saying, es: seq<Event>)
    requires es != []
    ensures SayAll(s, es) == SayAll(Say(s, es[0]), es[1..])
  {
  }

  lemma {:induction false} EncodeAllConcat(enc: Encoder, a: seq<Event>, b: seq<Event>)
    ensures EncodeAll(enc, a + b)
            == var (enc1, ws) := EncodeAll(enc, a);
               var (enc2, more) := EncodeAll(enc1, b);
               (enc2, ws + more)
    decreases |a|
  {
    hide Encode;
    if a == [] {
      assert a + b == b;
      var more := EncodeAll(enc, b).1;
      assert [] + more == more;
    } else {
      assert (a + b)[1..] == a[1..] + b;
      var (enc1, ws) := Encode(enc, a[0]);
      EncodeAllConcat(enc1, a[1..], b);
      var (enc2, mid) := EncodeAll(enc1, a[1..]);
      var more := EncodeAll(enc2, b).1;
      assert ws + (mid + more) == ws + mid + more;
    }
  }

  /** The terminal event on its own: one stop, with the reason and usage that crossed the wire. */
  lemma {:induction false} StopCrosses(dec: Decoder, enc: Encoder, finish: FinishReason, usage: Option<Usage>)
    requires !dec.stopEmitted
    ensures var output := if usage.Some? then usage.value.outputTokens else 0;
            var stop := MessageStop(ParseStopReason(StopReasonText(finish)), Some(Usage(dec.inputTokens, output)));
            var (dec', ds) := FeedAll(dec, Encode(enc, MessageStop(finish, usage)).1);
            ds == ClosingEvents(enc) + [stop] && dec'.stopEmitted
  {
    hide FeedAll, CloseBlock, ClosingEvents, ParseStopReason, StopReasonText;
    var close := CloseBlock(enc).1;
    var d := WMessageDelta(Some(StopReasonText(finish)), Some(if usage.Some? then usage.value.outputTokens else 0));
    FeedClose(dec, enc);
    FeedOne(dec, d);
    var dec1 := Feed(dec, d).0;
    FeedOne(dec1, WMessageStop);
    FeedConcat(dec, [d], [WMessageStop]);
    assert [d] + [WMessageStop] == [d, WMessageStop];
    FeedConcat(dec, close, [d, WMessageStop]);
  }

  /** The starts and errors among some events. */
  function Heralds(es: seq<Event>): seq<Event> {
    if es == [] then [] else (if es[0].MessageStart? || es[0].Error? then [es[0]] else []) + Heralds(es[1..])
  }

  /** A start with its input tokens, an error with its rendered message, as the decoder reads them. */
  function Echo(e: Event): seq<Event> {
    match e
    case MessageStart(id, model, usage) =>
      [MessageStart(id, model, Some(Usage(if usage.Some? then usage.value.inputTokens else 0, 0)))]
    case Error(err) => [Error(Api(Display(err)))]
    case _ => []
  }

  function EchoAll(es: seq<Event>): seq<Event> { if es == [] then [] else Echo(es[0]) + EchoAll(es[1..]) }

  lemma {:induction false} HeraldsConcat(a: seq<Event>, b: seq<Event>)
    ensures Heralds(a + b) == Heralds(a) + Heralds(b)
  {
    if a == [] {
      assert a + b == b;
    } else {
      var head := if a[0].MessageStart? || a[0].Error? then [a[0]] else [];
      HeraldsConcat(a[1..], b);
      assert (a + b)[1..] == a[1..] + b;
      Assoc(head, Heralds(a[1..]), Heralds(b));
    }
  }

  lemma {:induction false} HeraldsOne(e: Event)
    ensures Heralds([]) == [] && Heralds([e]) == if e.MessageStart? || e.Error? then [e] else []
  {
    assert [e][1..] == [];
  }

  lemma {:induction false} ClosingIsQuiet(enc: Encoder)
    ensures Heralds(ClosingEvents(enc)) == []
  {
    if ClosingEvents(enc) != [] {
      HeraldsOne(ClosingEvents(enc)[0]);
    }
  }

  lemma {:induction false} HeardEchoes(enc: Encoder, e: Event)
    ensures Heralds(Heard(enc, e)) == Echo(e)
  {
    hide ClosingEvents, Heralds, Encode;
    var closing, hs := ClosingEvents(enc), Heard(enc, e);
    ClosingIsQuiet(enc);
    HeraldsOne(e);
    match e {
      case MessageStart(_, _, _) => HeraldsOne(hs[0]);
      case ToolCallDelta(i, id, name, args) =>
        var k := Encode(enc, e).0.blockIndex;
        var open, more := ToolCallDelta(k, id, name, []), ToolCallDelta(k, "", "", args);
        HeraldsOne(open);
        HeraldsOne(more);
        HeraldsConcat(closing, [open]);
        HeraldsConcat(if i in enc.toolBlocksOpen then [] else closing + [open], if args == [] then [] else [more]);
      case Error(err) =>
        HeraldsOne(Error(Api(Display(err))));
        HeraldsConcat(closing, [Error(Api(Display(err)))]);
      case _ =>
        HeraldsConcat(closing, [e]);
        HeraldsConcat([], [e]);
    }
  }

  /** Every start and every error crosses, in order. */
  lemma {:induction false} HeraldsCross(dec: Decoder, enc: Encoder, es: seq<Event>)
    requires NoStops(es)
    ensures Heralds(FeedAll(dec, EncodeAll(enc, es).1).1) == EchoAll(es)
    decreases |es|
  {
    hide Encode, Heard, FeedAll, Heralds, Echo;
    FeedNothing(dec);
    HeraldsOne(ReasoningSignature(""));
    if es != [] {
      var (enc1, ws) := Encode(enc, es[0]);
      FeedEncoded(dec, enc, es[0]);
      HeardEchoes(enc, es[0]);
      HeraldsCross(After(dec, es[0]), enc1, es[1..]);
      FeedConcat(dec, ws, EncodeAll(enc1, es[1..]).1);
      HeraldsConcat(Heard(enc, es[0]), FeedAll(After(dec, es[0]), EncodeAll(enc1, es[1..]).1).1);
    }
  }

  /** Nothing said gets lost on the wire: each thinking block has at most one signature by its end,
      each call is named by its first fragment alone, and no signature is left over. */
  predicate LosesNothing(s: Saying) {
    && s.signatures == []
    && forall i | 0 <= i < |s.blocks| ::
         && (s.blocks[i].ThinkingBlock? ==> |s.blocks[i].sealed| <= 1)
         && (s.blocks[i].ToolBlock? ==> s.blocks[i].renamed == [])
  }

  lemma {:induction false} CarriedIsSame(bs: seq<Block>)
    ensures CarriedAll(bs) == bs <==>
              forall i | 0 <= i < |bs| :: && (bs[i].ThinkingBlock? ==> |bs[i].sealed| <= 1)
                                          && (bs[i].ToolBlock? ==> bs[i].renamed == [])
  {
    forall i | 0 <= i < |bs|
      ensures Carried(bs[i]) == bs[i] <==> && (bs[i].ThinkingBlock? ==> |bs[i].sealed| <= 1)
                                           && (bs[i].ToolBlock? ==> bs[i].renamed == [])
    {
      if bs[i].ThinkingBlock? && |bs[i].sealed| == 1 {
        assert bs[i].sealed == [bs[i].sealed[0]];
      }
    }
    if CarriedAll(bs) == bs {
      assert forall i | 0 <= i < |bs| :: CarriedAll(bs)[i] == bs[i];
    }
  }

  /** Decoding undoes encoding: for every event sequence that ends in its one MessageStop, the
      decoder hears the same blocks: the same text and reasoning deltas in the same order, each call
      once with its first id and name and its concatenated arguments, each thinking block with the last
      signature that arrived for it; it hears everything that was said if and only if no thinking block
      has a second signature, no call a second name, and no signature is left over.  Then exactly one
      stop, with the same reason unless that reason is an `Other` spelling a reserved word. */
  lemma {:induction false} DecodeUndoesEncode(body: seq<Event>, finish: FinishReason, usage: Option<Usage>)
    requires NoStops(body)
    ensures var es := body + [MessageStop(finish, usage)];
            var (dec, ds) := FeedAll(NEW_DECODER, EncodeAll(NEW_ENCODER, es).1);
            var said, heard := SayAll(SILENCE, es), SayAll(SILENCE, ds);
            && heard == Saying(CarriedAll(said.blocks), NoBlock, []) && said.open.NoBlock?
            && (heard == said <==> LosesNothing(said)) && Heralds(ds) == EchoAll(body)
            && ds != [] && NoStops(ds[..|ds| - 1]) && ds[|ds| - 1].MessageStop?
            && (ds[|ds| - 1].finish == finish <==> !(finish.Other? && Reserved(finish.reason)))
            && ds[|ds| - 1].stopUsage == Some(Usage(StartTokens(0, body),
                                                    if usage.Some? then usage.value.outputTokens else 0))
            && Finish(dec).1 == []
  {
    hide FeedAll, SayAll, Encode, ClosingEvents, CloseBlock, StartTokens, ParseStopReason, StopReasonText;
    var stop := MessageStop(finish, usage);
    SayNothing(SILENCE);
    BodyMeansTheSame(SILENCE, SILENCE, NEW_ENCODER, NEW_DECODER, body);
    var (enc, ws) := EncodeAll(NEW_ENCODER, body);
    var (dec, ds) := FeedAll(NEW_DECODER, ws);
    EncodeAllConcat(NEW_ENCODER, body, [stop]);
    EncodeLast(enc, stop);
    FeedConcat(NEW_DECODER, ws, Encode(enc, stop).1);
    StopCrosses(dec, enc, finish, usage);
    StopReasonSurvives(finish);
    var (said, heard) := (SayAll(SILENCE, body), SayAll(SILENCE, ds));
    HearClose(said, heard, enc);
    var closing := ClosingEvents(enc);
    var wireStop := FeedAll(dec, Encode(enc, stop).1).1[|closing|];
    assert FeedAll(dec, Encode(enc, stop).1).1 == closing + [wireStop];
    SayConcat(SILENCE, body, [stop]);
    SayOne(said, stop);
    SayConcat(SILENCE, ds, closing + [wireStop]);
    SayConcat(heard, closing, [wireStop]);
    SayOne(SayAll(heard, closing), wireStop);
    CarriedIsSame(Settle(said).blocks);
    ClosingHasNoStops(enc);
    HeraldsCross(NEW_DECODER, NEW_ENCODER, body);
    QuietEnd(ds, enc, wireStop);
    assert (ds + (closing + [wireStop]))[..|ds| + |closing|] == ds + closing;
  }

  lemma {:induction false} QuietEnd(ds: seq<Event>, enc: Encoder, stop: Event)
    requires stop.MessageStop?
    ensures Heralds(ds + (ClosingEvents(enc) + [stop])) == Heralds(ds)
  {
    hide ClosingEvents, Heralds;
    ClosingIsQuiet(enc);
    HeraldsOne(stop);
    HeraldsConcat(ds, ClosingEvents(enc) + [stop]);
    HeraldsConcat(ClosingEvents(enc), [stop]);
    assert Heralds(ds) + [] == Heralds(ds);
  }

  // ----- what the wire loses -----

  lemma {:induction false} SayTwo(s: Saying, e1: Event, e2: Event)
    ensures SayAll(s, [e1, e2]) == Say(Say(s, e1), e2)
  {
    hide Say, SayAll;
    assert [e1] + [e2] == [e1, e2];
    SayConcat(s, [e1], [e2]);
    SayOne(s, e1);
    SayOne(Say(s, e1), e2);
  }

  /** Two signatures in one run of reasoning, as two thinking blocks in a row give: the client hears
      one thinking block with the second signature alone. */
  lemma {:induction false} SecondSignatureWins(a: Text, s1: string, b: Text, s2: string, finish: FinishReason,
                                               usage: Option<Usage>)
    ensures var body := [ReasoningDelta(a), ReasoningSignature(s1)] + [ReasoningDelta(b), ReasoningSignature(s2)];
            var es := body + [MessageStop(finish, usage)];
            var ds := FeedAll(NEW_DECODER, EncodeAll(NEW_ENCODER, es).1).1;
            && SayAll(SILENCE, es).blocks == [ThinkingBlock([a, b], [s1, s2])]
            && SayAll(SILENCE, ds).blocks == [ThinkingBlock([a, b], [s2])]
            && SayAll(SILENCE, ds).signatures == []
  {
    hide FeedAll, SayAll, EncodeAll;
    var one, two := [ReasoningDelta(a), ReasoningSignature(s1)], [ReasoningDelta(b), ReasoningSignature(s2)];
    var stop := MessageStop(finish, usage);
    SayTwo(SILENCE, one[0], one[1]);
    SayTwo(SayAll(SILENCE, one), two[0], two[1]);
    SayConcat(SILENCE, one, two);
    SayConcat(SILENCE, one + two, [stop]);
    SayOne(SayAll(SILENCE, one + two), stop);
    assert [a] + [b] == [a, b] && [] + [s1] + [s2] == [s1, s2] && [] + [s1] == [s1];
    assert SayAll(SILENCE, one + two + [stop]).blocks == [ThinkingBlock([a, b], [s1, s2])];
    DecodeUndoesEncode(one + two, finish, usage);
  }

  /** A signature after which no thinking block comes is never sent. */
  lemma {:induction false} StraySignatureIsLost(t: Text, sig: string, finish: FinishReason, usage: Option<Usage>)
    ensures var es := [TextDelta(t), ReasoningSignature(sig)] + [MessageStop(finish, usage)];
            var ds := FeedAll(NEW_DECODER, EncodeAll(NEW_ENCODER, es).1).1;
            && SayAll(SILENCE, es) == Saying([TextBlock([t])], NoBlock, [sig])
            && SayAll(SILENCE, ds) == Saying([TextBlock([t])], NoBlock, [])
  {
    hide FeedAll, SayAll, EncodeAll;
    var body, stop := [TextDelta(t), ReasoningSignature(sig)], MessageStop(finish, usage);
    SayTwo(SILENCE, body[0], body[1]);
    SayConcat(SILENCE, body, [stop]);
    SayOne(SayAll(SILENCE, body), stop);
    assert [] + [sig] == [sig];
    assert SayAll(SILENCE, body + [stop]) == Saying([TextBlock([t])], NoBlock, [sig]);
    DecodeUndoesEncode(body, finish, usage);
  }

  /** Two calls sharing an index, one after the other, are heard as one, under the first one's name. */
  lemma {:induction false} SharedIndexMergesCalls(i: nat, id1: string, name1: string, args1: Text, id2: string,
                                                  name2: string, args2: Text, finish: FinishReason,
                                                  usage: Option<Usage>)
    requires id2 != "" || name2 != ""
    ensures var es := [ToolCallDelta(i, id1, name1, args1), ToolCallDelta(i, id2, name2, args2)]
                      + [MessageStop(finish, usage)];
            var ds := FeedAll(NEW_DECODER, EncodeAll(NEW_ENCODER, es).1).1;
            && SayAll(SILENCE, es).blocks == [ToolBlock(id1, name1, args1 + args2, [(id2, name2)])]
            && SayAll(SILENCE, ds).blocks == [ToolBlock(id1, name1, args1 + args2, [])]
  {
    hide FeedAll, SayAll, EncodeAll;
    var body, stop := [ToolCallDelta(i, id1, name1, args1), ToolCallDelta(i, id2, name2, args2)], MessageStop(finish, usage);
    SayTwo(SILENCE, body[0], body[1]);
    SayConcat(SILENCE, body, [stop]);
    SayOne(SayAll(SILENCE, body), stop);
    assert [] + [(id2, name2)] == [(id2, name2)];
    assert SayAll(SILENCE, body + [stop]).blocks == [ToolBlock(id1, name1, args1 + args2, [(id2, name2)])];
    DecodeUndoesEncode(body, finish, usage);
  }

  /** An upstream sends such runs: the decoder drops a `redacted_thinking` block, so the thinking
      blocks around it, each signed, come as one run of reasoning with two signatures. */
  lemma {:induction false} RedactedThinkingJoinsRuns(a: Text, s1: string, b: Text, s2: string)
    ensures var first := [WBlockStart(0, ThinkingHead), WBlockDelta(0, ThinkingD(a)), WBlockDelta(0, SignatureD(s1)),
                          WBlockStop(0)];
            var redacted := [WBlockStart(1, OtherHead), WBlockStop(1)];
            var second := [WBlockStart(2, ThinkingHead), WBlockDelta(2, ThinkingD(b)), WBlockDelta(2, SignatureD(s2)),
                           WBlockStop(2)];
            FeedAll(NEW_DECODER, first + redacted + second)
            == (NEW_DECODER, [ReasoningDelta(a), ReasoningSignature(s1)] + [ReasoningDelta(b), ReasoningSignature(s2)])
  {
    hide FeedAll;
    var redacted := [WBlockStart(1, OtherHead), WBlockStop(1)];
    SignedBlock(0, a, s1);
    SignedBlock(2, b, s2);
    FeedOne(NEW_DECODER, redacted[0]);
    FeedOne(NEW_DECODER, redacted[1]);
    assert redacted == [redacted[0]] + [redacted[1]];
    FeedConcat(NEW_DECODER, [redacted[0]], [redacted[1]]);
    var none: seq<Event> := [];
    assert none + none == none;
    assert FeedAll(NEW_DECODER, redacted) == (NEW_DECODER, none);
    var first := [WBlockStart(0, ThinkingHead), WBlockDelta(0, ThinkingD(a)), WBlockDelta(0, SignatureD(s1)), WBlockStop(0)];
    var second := [WBlockStart(2, ThinkingHead), WBlockDelta(2, ThinkingD(b)), WBlockDelta(2, SignatureD(s2)), WBlockStop(2)];
    FeedConcat(NEW_DECODER, first, redacted);
    FeedConcat(NEW_DECODER, first + redacted, second);
    var es := FeedAll(NEW_DECODER, first).1;
    assert es + [] == es;
  }

  lemma {:induction false} SignedBlock(i: nat, t: Text, sig: string)
    ensures FeedAll(NEW_DECODER, [WBlockStart(i, ThinkingHead), WBlockDelta(i, ThinkingD(t)),
                                  WBlockDelta(i, SignatureD(sig)), WBlockStop(i)])
            == (NEW_DECODER, [ReasoningDelta(t), ReasoningSignature(sig)])
  {
    hide FeedAll;
    var ws := [WBlockStart(i, ThinkingHead), WBlockDelta(i, ThinkingD(t)), WBlockDelta(i, SignatureD(sig)), WBlockStop(i)];
    FeedOne(NEW_DECODER, ws[0]);
    FeedOne(NEW_DECODER, ws[1]);
    FeedOne(NEW_DECODER, ws[2]);
    FeedOne(NEW_DECODER, ws[3]);
    FeedConcat(NEW_DECODER, [ws[0]], [ws[1]]);
    FeedConcat(NEW_DECODER, [ws[2]], [ws[3]]);
    FeedConcat(NEW_DECODER, [ws[0]] + [ws[1]], [ws[2]] + [ws[3]]);
    assert ws == [ws[0]] + [ws[1]] + ([ws[2]] + [ws[3]]);
    assert [] + [ReasoningDelta(t)] + ([ReasoningSignature(sig)] + []) == [ReasoningDelta(t), ReasoningSignature(sig)];
  }

  lemma {:induction false} EncodeLast(enc: Encoder, e: Event)
    ensures EncodeAll(enc, [e]) == Encode(enc, e)
  {
    hide Encode;
    assert [e][1..] == [];
    var ws := Encode(enc, e).1;
    assert ws + [] == ws;
  }

  lemma {:induction false} ClosingHasNoStops(enc: Encoder)
    ensures NoStops(ClosingEvents(enc))
  {
  }

  /** Fragments of one call, one after another: the first names it, the rest only add arguments. */
  predicate FragmentsOf(index: nat, es: seq<Event>) {
    forall i | 0 <= i < |es| :: es[i].ToolCallDelta? && es[i].index == index
  }

  function ArgumentsOf(es: seq<Event>): Text
    requires forall i | 0 <= i < |es| :: es[i].ToolCallDelta?
  {
    if es == [] then [] else es[0].arguments + ArgumentsOf(es[1..])
  }

  /** The ids and names some fragments carry. */
  function NamesOf(es: seq<Event>): seq<(string, string)>
    requires forall i | 0 <= i < |es| :: es[i].ToolCallDelta?
  {
    if es == [] then [] else Renames(es[0].id, es[0].name) + NamesOf(es[1..])
  }

  lemma {:induction false} MoreFragments(s: Saying, index: nat, es: seq<Event>)
    requires FragmentsOf(index, es) && s.open.OpenTool? && s.open.index == index
    ensures SayAll(s, es) == s.(open := s.open.(callArgs := s.open.callArgs + ArgumentsOf(es),
                                                renamed := s.open.renamed + NamesOf(es)))
    decreases |es|
  {
    if es == [] {
      assert s.open.callArgs + [] == s.open.callArgs && s.open.renamed + [] == s.open.renamed;
    } else {
      MoreFragments(Say(s, es[0]), index, es[1..]);
      Assoc(s.open.renamed, Renames(es[0].id, es[0].name), NamesOf(es[1..]));
      assert s.open.callArgs + es[0].arguments + ArgumentsOf(es[1..])
          == s.open.callArgs + (es[0].arguments + ArgumentsOf(es[1..]));
    }
  }

  /** A call whose fragments are contiguous is exactly one block, with the first fragment's id
      and name and the concatenated arguments. */
  lemma {:induction false} OneCallOneBlock(s: Saying, index: nat, es: seq<Event>)
    requires es != [] && FragmentsOf(index, es) && !(s.open.OpenTool? && s.open.index == index)
    ensures Settle(SayAll(s, es)).blocks
            == Settle(s).blocks + [ToolBlock(es[0].id, es[0].name, ArgumentsOf(es), NamesOf(es[1..]))]
  {
    hide SayAll;
    SayUnfold(s, es);
    MoreFragments(Say(s, es[0]), index, es[1..]);
    assert [] + NamesOf(es[1..]) == NamesOf(es[1..]);
  }

  // ----- the objects -----

  class AnthropicStreamEncoder {
    var blockIndex: nat
    var currentBlock: Option<Kind>
    var messageStarted: bool
    var pendingSignature: Option<string>
    var toolBlocksOpen: set<nat>
    var openToolIndex: Option<nat>

    ghost function State(): Encoder
      reads this
    {
      Encoder(blockIndex, currentBlock, pendingSignature, toolBlocksOpen, openToolIndex)
    }

    constructor ()
      ensures State() == NEW_ENCODER && EncoderOk(State())
    {
      blockIndex, currentBlock, messageStarted, pendingSignature := 0, None, false, None;
      toolBlocksOpen, openToolIndex := {}, None;
    }

    method EncodeEvent(e: Event) returns (lines: seq<Wire>)
      requires EncoderOk(State())
      modifies this
      ensures EncoderOk(State())
      ensures (State(), lines) == Encode(old(State()), e)
      ensures AllowAll(PhaseOf(old(State())), lines) == Some(PhaseOf(State()))
    {
      EncodeKeepsOk(State(), e);
      EncodeAllowed(State(), e);
      hide AllowAll, EncoderOk;
      lines := [];
      match e {
        case MessageStart(id, model, usage) =>
          messageStarted := true;
          lines := [WMessageStart(Some(StartInfo(id, model, if usage.Some? then usage.value.inputTokens else 0)))];
        case TextDelta(t) =>
          lines := EnsureOpen(TextKind);
          lines := lines + [WBlockDelta(blockIndex, TextD(t))];
        case ReasoningDelta(t) =>
          lines := EnsureOpen(ThinkingKind);
          lines := lines + [WBlockDelta(blockIndex, ThinkingD(t))];
        case ReasoningSignature(s) =>
          pendingSignature := Some(s);
        case ToolCallDelta(index, id, name, args) =>
          if index !in toolBlocksOpen {
            lines := Close();
            lines := lines + [WBlockStart(blockIndex, ToolUseHead(id, name))];
            currentBlock := Some(ToolUseKind);
            toolBlocksOpen := toolBlocksOpen + {index};
            openToolIndex := Some(index);
          }
          assert lines + [] == lines;
          if args != [] {
            lines := lines + [WBlockDelta(blockIndex, InputJsonD(args))];
          }
        case MessageStop(finish, usage) =>
          lines := Close();
          lines := lines + [WMessageDelta(Some(StopReasonText(finish)),
                                          Some(if usage.Some? then usage.value.outputTokens else 0)),
                            WMessageStop];
        case Error(err) =>
          lines := Close();
          lines := lines + [WError(Display(err))];
      }
    }

    method EnsureOpen(kind: Kind) returns (lines: seq<Wire>)
      modifies this
      ensures (State(), lines) == EnsureBlock(old(State()), kind)
    {
      if currentBlock == Some(kind) {
        return [];
      }
      lines := Close();
      lines := lines + [WBlockStart(blockIndex, if kind == ThinkingKind then ThinkingHead else TextHead)];
      currentBlock := Some(kind);
    }

    method Close() returns (lines: seq<Wire>)
      modifies this
      ensures (State(), lines) == CloseBlock(old(State()))
    {
      lines := [];
      if currentBlock.Some? {
        var kind := currentBlock.value;
        currentBlock := None;
        if kind == ThinkingKind && pendingSignature.Some? {
          lines := [WBlockDelta(blockIndex, SignatureD(pendingSignature.value))];
          pendingSignature := None;
        }
        if kind == ToolUseKind && openToolIndex.Some? {
          toolBlocksOpen := toolBlocksOpen - {openToolIndex.value};
          openToolIndex := None;
        }
        lines := lines + [WBlockStop(blockIndex)];
        blockIndex := blockIndex + 1;
      }
    }
  }

  class AnthropicStreamDecoder {
    var started: bool
    var failed: bool
    var messageId: string
    var model: string
    var inputTokens: nat
    var stopEmitted: bool
    var pendingFinish: Option<FinishReason>
    var pendingUsage: Option<Usage>

    ghost function State(): Decoder
      reads this
    {
      Decoder(started, failed, messageId, model, inputTokens, stopEmitted, pendingFinish, pendingUsage)
    }

    constructor ()
      ensures State() == NEW_DECODER
    {
      started, failed, messageId, model, inputTokens := false, false, "", "", 0;
      stopEmitted, pendingFinish, pendingUsage := false, None, None;
    }

    /** `feed` on a payload that parses. */
    method FeedWire(w: Wire) returns (events: seq<Event>)
      modifies this
      ensures (State(), events) == Feed(old(State()), w)
    {
      events := [];
      match w {
        case WMessageStart(info) =>
          started := true;
          if info.Some? {
            messageId, model, inputTokens := info.value.id, info.value.model, info.value.inputTokens;
          }
          events := [MessageStart(messageId, model, Some(Usage(inputTokens, 0)))];
        case WBlockStart(i, head) =>
          if head.ToolUseHead? {
            events := [ToolCallDelta(i, head.toolId, head.toolName, [])];
          }
        case WBlockDelta(i, d) =>
          match d {
            case TextD(t) => events := [TextDelta(t)];
            case ThinkingD(t) => events := [ReasoningDelta(t)];
            case InputJsonD(j) => events := [ToolCallDelta(i, "", "", j)];
            case SignatureD(s) => events := [ReasoningSignature(s)];
            case OtherD =>
          }
        case WMessageDelta(reason, output) =>
          if reason.Some? {
            pendingFinish := Some(ParseStopReason(reason.value));
          }
          if output.Some? {
            pendingUsage := Some(Usage(inputTokens, output.value));
          }
        case WMessageStop =>
          if !stopEmitted {
            stopEmitted := true;
            events := [MessageStop(if pendingFinish.Some? then pendingFinish.value else Stop, pendingUsage)];
          }
        case WError(message) =>
          failed := true;
          events := [Error(Api(message))];
        case _ =>
      }
    }

    method FinishStream() returns (events: seq<Event>)
      modifies this
      ensures (State(), events) == Finish(old(State()))
    {
      if !started || failed {
        return [];
      }
      if stopEmitted {
        return [];
      }
      stopEmitted := true;
      events := [MessageStop(if pendingFinish.Some? then pendingFinish.value else Stop, pendingUsage)];
    }
  }
}
