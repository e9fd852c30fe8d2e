/** The Gemini stream decoder and encoder (src/adapters/gemini/stream.rs). */
module GeminiStream {
  import opened Bytes
  import opened Neutral
  import opened Ordered
  import opened TokenGrammar
  import opened JsonGrammar

  // ----- the decoder -----

  /** A parsed `GenerateContentResponse`; `error` holds the message of an error chunk. */
  datatype Chunk = Chunk(error: Option<Text>, modelVersion: string, candidate: Option<Candidate>,
                         usage: Option<Usage>)
  datatype Candidate = Candidate(parts: seq<Part>, finishReason: Option<string>)
  datatype Part = Part(text: Option<Text>, thought: bool, call: Option<Call>)
  datatype Call = Call(id: string, name: string, args: Option<Text>)

  datatype Decoder = Decoder(
    started: bool,
    failed: bool,
    stopEmitted: bool,
    pendingFinish: Option<FinishReason>,
    pendingUsage: Option<Usage>,
    toolIndex: nat)

  const NEW_DECODER := Decoder(false, false, false, None, None, 0)

  function ParseFinishReason(s: string): FinishReason {
    if s == "STOP" then Stop
    else if s == "MAX_TOKENS" then Length
    else if s == "SAFETY" || s == "RECITATION" then ContentFilter
    else Other(s)
  }

  function AsString(t: Text): string { seq(|t|, i requires 0 <= i < |t| => t[i] as char) }

  /** The id minted for the `n`-th call: `fc_<n>`. */
  function MintedId(n: nat): string { "fc_" + AsString(Decimal(n)) }

  lemma {:induction false} MintedIdsDiffer(n: nat, m: nat)
    requires MintedId(n) == MintedId(m)
    ensures n == m
  {
    var a, b := Decimal(n), Decimal(m);
    assert MintedId(n)[3..] == AsString(a) && MintedId(m)[3..] == AsString(b);
    assert |a| == |b|;
    forall i | 0 <= i < |a| ensures a[i] == b[i] {
      assert AsString(a)[i] == AsString(b)[i];
    }
    assert a == b;
    DecimalInjective(n, m);
  }

  function CallEvent(call: Call, index: nat): Event {
    ToolCallDelta(index, if call.id != "" then call.id else MintedId(index + 1), call.name,
                  if call.args.Some? then call.args.value else [LBRACE, RBRACE])
  }

  function PartEvents(p: Part, index: nat): (nat, seq<Event>) {
    var said := if p.text.None? then []
                else if p.thought then [ReasoningDelta(p.text.value)]
                else if p.text.value == [] then [] else [TextDelta(p.text.value)];
    if p.call.None? then (index, said) else (index + 1, said + [CallEvent(p.call.value, index)])
  }

  function PartsEvents(ps: seq<Part>, index: nat): (nat, seq<Event>) {
    if ps == [] then (index, [])
    else
      var (index1, es) := PartEvents(ps[0], index);
      var (index2, more) := PartsEvents(ps[1..], index1);
      (index2, es + more)
  }

  function StopEvent(dec: Decoder): Event {
    MessageStop(if dec.pendingFinish.Some? then dec.pendingFinish.value else Stop, dec.pendingUsage)
  }

  function Feed(dec: Decoder, c: Chunk): (Decoder, seq<Event>) {
    if c.error.Some? then (dec.(failed := true), [Error(Api(c.error.value))])
    else
      var start := if dec.started then [] else [MessageStart("", c.modelVersion, None)];
      var (index, said) := if c.candidate.None? then (dec.toolIndex, [])
                           else PartsEvents(c.candidate.value.parts, dec.toolIndex);
      var dec1 := dec.(
        started := true, toolIndex := index,
        pendingFinish := if c.candidate.Some? && c.candidate.value.finishReason.Some?
                         then Some(ParseFinishReason(c.candidate.value.finishReason.value))
                         else dec.pendingFinish,
        pendingUsage := if c.usage.Some? then c.usage else dec.pendingUsage);
      if dec1.pendingFinish.Some? && !dec1.stopEmitted
      then (dec1.(stopEmitted := true), start + said + [StopEvent(dec1)])
      else (dec1, start + said)
  }

  function Finish(dec: Decoder): (Decoder, seq<Event>) {
    if !dec.started || dec.failed || dec.stopEmitted then (dec, [])
    else (dec.(stopEmitted := true), [StopEvent(dec)])
  }

  lemma {:induction false} PartsHaveNoStops(ps: seq<Part>, index: nat)
    ensures forall e | e in PartsEvents(ps, index).1 :: !e.MessageStop?
  {
    if ps != [] {
      PartsHaveNoStops(ps[1..], PartEvents(ps[0], index).0);
    }
  }

  /** The calls among some events. */
  function CallsOf(es: seq<Event>): seq<Event> {
    if es == [] then [] else (if es[0].ToolCallDelta? then [es[0]] else []) + CallsOf(es[1..])
  }

  lemma {:induction false} CallsConcat(a: seq<Event>, b: seq<Event>)
    ensures CallsOf(a + b) == CallsOf(a) + CallsOf(b)
  {
    if a == [] {
      assert a + b == b;
    } else {
      var head := if a[0].ToolCallDelta? then [a[0]] else [];
      CallsConcat(a[1..], b);
      assert (a + b)[1..] == a[1..] + b;
      assert CallsOf(a + b) == head + CallsOf((a + b)[1..]);
      Assoc(head, CallsOf(a[1..]), CallsOf(b));
    }
  }

  /** Call indices run on contiguously over the parts, whatever stands between the calls. */
  lemma {:induction false} CallIndicesRunOn(ps: seq<Part>, index: nat)
    ensures var (index', es) := PartsEvents(ps, index);
            && |CallsOf(es)| == index' - index
            && forall k | 0 <= k < |CallsOf(es)| :: CallsOf(es)[k].ToolCallDelta? && CallsOf(es)[k].index == index + k
  {
    if ps != [] {
      var (index1, es) := PartEvents(ps[0], index);
      CallIndicesRunOn(ps[1..], index1);
      var (index2, more) := PartsEvents(ps[1..], index1);
      CallsConcat(es, more);
      CallsOfPart(ps[0], index);
      forall k | 0 <= k < |CallsOf(es + more)|
        ensures CallsOf(es + more)[k].ToolCallDelta? && CallsOf(es + more)[k].index == index + k
      {
        if k >= |CallsOf(es)| {
          assert CallsOf(es + more)[k] == CallsOf(more)[k - |CallsOf(es)|];
        }
      }
    }
  }

  lemma {:induction false} CallsOfPart(p: Part, index: nat)
    ensures CallsOf(PartEvents(p, index).1) == if p.call.None? then [] else [CallEvent(p.call.value, index)]
  {
    var es := PartEvents(p, index).1;
    if |es| >= 1 {
      assert CallsOf(es[1..]) == if |es| == 1 then [] else [es[1]] by {
        if |es| == 2 {
          assert es[1..][1..] == [];
        }
      }
    }
  }

  class GeminiStreamDecoder {
    var started: bool
    var failed: bool
    var stopEmitted: bool
    var pendingFinish: Option<FinishReason>
    var pendingUsage: Option<Usage>
    var toolIndex: nat

    ghost function State(): Decoder
      reads this
    {
      Decoder(started, failed, stopEmitted, pendingFinish, pendingUsage, toolIndex)
    }

    constructor ()
      ensures State() == NEW_DECODER
    {
      started, failed, stopEmitted, toolIndex := false, false, false, 0;
      pendingFinish, pendingUsage := None, None;
    }

    /** `feed` on a payload that parses. */
    method FeedChunk(c: Chunk) returns (events: seq<Event>)
      modifies this
      ensures (State(), events) == Feed(old(State()), c)
    {
      if c.error.Some? {
        failed := true;
        return [Error(Api(c.error.value))];
      }
      events := [];
      if !started {
        started := true;
        events := [MessageStart("", c.modelVersion, None)];
      }
      assert events + [] == events;
      if c.candidate.Some? {
        var said := PartsLoop(c.candidate.value.parts);
        events := events + said;
        if c.candidate.value.finishReason.Some? {
          pendingFinish := Some(ParseFinishReason(c.candidate.value.finishReason.value));
        }
      }
      if c.usage.Some? {
        pendingUsage := c.usage;
      }
      if pendingFinish.Some? && !stopEmitted {
        stopEmitted := true;
        events := events + [MessageStop(pendingFinish.value, pendingUsage)];
      }
    }

    /** One part of a candidate. */
    method TakePart(p: Part) returns (said: seq<Event>)
      modifies this`toolIndex
      ensures (toolIndex, said) == PartEvents(p, old(toolIndex))
    {
      hide CallEvent;
      said := [];
      if p.text.Some? {
        if p.thought {
          said := [ReasoningDelta(p.text.value)];
        } else if p.text.value != [] {
          said := [TextDelta(p.text.value)];
        }
      }
      if p.call.Some? {
        said := said + [CallEvent(p.call.value, toolIndex)];
        toolIndex := toolIndex + 1;
      }
    }

    method PartsLoop(ps: seq<Part>) returns (events: seq<Event>)
      modifies this`toolIndex
      ensures (toolIndex, events) == PartsEvents(ps, old(toolIndex))
    {
      hide PartEvents;
      events := [];
      var k := 0;
      ghost var all := PartsEvents(ps, toolIndex);
      assert ps[0..] == ps && [] + all.1 == all.1;
      while k < |ps|
        invariant 0 <= k <= |ps|
        invariant var (index, more) := PartsEvents(ps[k..], toolIndex);
                  all == (index, events + more)
      {
        assert ps[k..][1..] == ps[k + 1..];
        var said := TakePart(ps[k]);
        Assoc(events, said, PartsEvents(ps[k + 1..], toolIndex).1);
        events := events + said;
        k := k + 1;
      }
      assert events + [] == events;
    }

    method FinishStream() returns (events: seq<Event>)
      modifies this
      ensures (State(), events) == Finish(old(State()))
    {
      if !started || failed || stopEmitted {
        return [];
      }
      stopEmitted := true;
      events := [MessageStop(if pendingFinish.Some? then pendingFinish.value else Stop, pendingUsage)];
    }
  }

  // ----- the encoder -----

  /** Client chunks.  A call's `args` is its complete JSON text, or `None` for null. */
  datatype Wire =
    | WText(text: Text)
    | WThought(thought: Text)
    | WCall(candidate: nat, id: string, name: string, args: Option<Text>)
    | WFinish(finishReason: string, usage: Option<Usage>)
    | WError(message: Text)

  datatype Pending = Pending(id: string, name: string, args: Text)

  datatype Encoder = Encoder(started: bool, emittedStop: bool, pendingCalls: map<nat, Pending>)

  const NEW_ENCODER := Encoder(false, false, map[])

  function FinishReasonText(f: FinishReason): string {
    match f
    case Stop => "STOP"
    case Length => "MAX_TOKENS"
    case ContentFilter => "SAFETY"
    case ToolCalls => "STOP"
    case Other(s) => s
  }

  /** The calls in `indices` that never completed, with null arguments. */
  function NullCalls(pending: map<nat, Pending>, indices: seq<nat>): seq<Wire>
    requires forall x | 0 <= x < |indices| :: indices[x] in pending
  {
    if indices == [] then []
    else [WCall(indices[0], pending[indices[0]].id, pending[indices[0]].name, None)]
         + NullCalls(pending, indices[1..])
  }

  ghost function NullCallsAscending(pending: map<nat, Pending>, indices: set<nat>): seq<Wire>
    requires indices <= pending.Keys
  {
    AscendingMembers(indices);
    NullCalls(pending, Ascending(indices))
  }

  function Extended(enc: Encoder, i: nat, id: string, name: string, args: Text): Pending {
    if i in enc.pendingCalls then enc.pendingCalls[i].(args := enc.pendingCalls[i].args + args)
    else Pending(id, name, args)
  }

  ghost function Encode(enc: Encoder, e: Event): (Encoder, seq<Wire>) {
    match e
    case MessageStart(_, _, _) => (enc.(started := true), [])
    case TextDelta(t) => (enc, [WText(t)])
    case ReasoningDelta(t) => (enc, [WThought(t)])
    case ReasoningSignature(_) => (enc, [])
    case ToolCallDelta(i, id, name, args) =>
      var entry := Extended(enc, i, id, name, args);
      if IsJson(entry.args)
      then (enc.(pendingCalls := enc.pendingCalls - {i}), [WCall(0, entry.id, entry.name, Some(entry.args))])
      else (enc.(pendingCalls := enc.pendingCalls[i := entry]), [])
    case MessageStop(f, usage) =>
      if enc.emittedStop then (enc, [])
      else (Encoder(enc.started, true, map[]),
            NullCallsAscending(enc.pendingCalls, enc.pendingCalls.Keys) + [WFinish(FinishReasonText(f), usage)])
    case Error(err) => (enc, [WError(Display(err))])
  }

  // ----- buffering per index -----

  ghost function EncodeAll(enc: Encoder, es: seq<Event>): (Encoder, seq<Wire>)
    decreases |es|
  {
    if es == [] then (enc, [])
    else
      var (enc1, ws) := Encode(enc, es[0]);
      var (enc2, more) := EncodeAll(enc1, es[1..]);
      (enc2, ws + more)
  }

  predicate IsFragment(e: Event, i: nat) { e.ToolCallDelta? && e.index == i }

  /** The fragments of index `i`, in order. */
  function FragmentsOf(i: nat, es: seq<Event>): (fs: seq<Event>)
    ensures forall x | 0 <= x < |fs| :: IsFragment(fs[x], i)
  {
    if es == [] then [] else (if IsFragment(es[0], i) then [es[0]] else []) + FragmentsOf(i, es[1..])
  }

  /** What is emitted because of index `i` while its fragments arrive. */
  ghost function CallsFor(i: nat, enc: Encoder, es: seq<Event>): seq<Wire>
    decreases |es|
  {
    if es == [] then []
    else (if IsFragment(es[0], i) then Encode(enc, es[0]).1 else []) + CallsFor(i, Encode(enc, es[0]).0, es[1..])
  }

  predicate NoStops(es: seq<Event>) { forall x | 0 <= x < |es| :: !es[x].MessageStop? }

  function Arguments(fs: seq<Event>): Text
    requires forall x | 0 <= x < |fs| :: fs[x].ToolCallDelta?
  {
    if fs == [] then [] else fs[0].arguments + Arguments(fs[1..])
  }

  /** Events of other indices do not touch index `i`. */
  lemma {:induction false} OthersLeaveAlone(enc: Encoder, e: Event, i: nat)
    requires !IsFragment(e, i) && !e.MessageStop?
    ensures i in Encode(enc, e).0.pendingCalls <==> i in enc.pendingCalls
    ensures i in enc.pendingCalls ==> Encode(enc, e).0.pendingCalls[i] == enc.pendingCalls[i]
  {
    hide IsJson;
  }

  /** Only the whole text is JSON: the arguments seen before the last fragment are not. */
  predicate CompletesLast(before: Text, fs: seq<Event>)
    requires forall x | 0 <= x < |fs| :: fs[x].ToolCallDelta?
  {
    && IsJson(before + Arguments(fs))
    && forall k | 0 <= k < |fs| :: !IsJson(before + Arguments(fs[..k]))
  }

  lemma {:induction false} ArgumentsStep(before: Text, fs: seq<Event>, k: nat)
    requires fs != [] && 0 < k <= |fs|
    requires forall x | 0 <= x < |fs| :: fs[x].ToolCallDelta?
    ensures before + Arguments(fs[..k]) == before + fs[0].arguments + Arguments(fs[1..][..k - 1])
    ensures before + Arguments(fs) == before + fs[0].arguments + Arguments(fs[1..])
  {
    assert fs[..k][1..] == fs[1..][..k - 1];
  }

  lemma {:induction false} CompletesStep(before: Text, fs: seq<Event>)
    requires |fs| >= 2 && forall x | 0 <= x < |fs| :: fs[x].ToolCallDelta?
    requires CompletesLast(before, fs)
    ensures CompletesLast(before + fs[0].arguments, fs[1..])
    ensures !IsJson(before + fs[0].arguments)
  {
    hide IsJson, Arguments;
    ArgumentsStep(before, fs, 1);
    assert fs[1..][..0] == [];
    ArgumentsNothing();
    assert before + fs[0].arguments + [] == before + fs[0].arguments;
    assert !IsJson(before + Arguments(fs[..1]));
    forall k | 0 <= k < |fs| - 1 ensures !IsJson(before + fs[0].arguments + Arguments(fs[1..][..k])) {
      ArgumentsStep(before, fs, k + 1);
      assert !IsJson(before + Arguments(fs[..k + 1]));
    }
  }

  lemma {:induction false} ArgumentsNothing()
    ensures Arguments([]) == []
  {
  }

  lemma {:induction false} ArgumentsOne(e: Event)
    requires e.ToolCallDelta?
    ensures Arguments([e]) == e.arguments
  {
    assert [e][1..] == [];
    assert e.arguments + [] == e.arguments;
  }

  /** While the fragments of a waiting call arrive, interleaved with anything else. */
  lemma {:induction false} WaitingCall(i: nat, enc: Encoder, es: seq<Event>, p: Pending)
    requires NoStops(es) && i in enc.pendingCalls && enc.pendingCalls[i] == p
    requires FragmentsOf(i, es) != [] && CompletesLast(p.args, FragmentsOf(i, es))
    ensures CallsFor(i, enc, es) == [WCall(0, p.id, p.name, Some(p.args + Arguments(FragmentsOf(i, es))))]
    ensures i !in EncodeAll(enc, es).0.pendingCalls
    decreases |es|
  {
    hide IsJson, Arguments, CompletesLast;
    var e, rest := es[0], es[1..];
    var (enc1, ws) := Encode(enc, e);
    var fs := FragmentsOf(i, es);
    if !IsFragment(e, i) {
      OthersLeaveAlone(enc, e, i);
      assert fs == FragmentsOf(i, rest);
      WaitingCall(i, enc1, rest, p);
      assert [] + CallsFor(i, enc1, rest) == CallsFor(i, enc1, rest);
    } else {
      assert fs[1..] == FragmentsOf(i, rest) && fs[0] == e;
      var args := p.args + e.arguments;
      ArgumentsStep(p.args, fs, |fs|);
      if |fs| == 1 {
        ArgumentsNothing();
        assert args + [] == args;
        CompletesWhole(p.args, fs);
        NothingFor(i, enc1, rest);
        assert ws + [] == ws;
      } else {
        CompletesStep(p.args, fs);
        WaitingCall(i, enc1, rest, Pending(p.id, p.name, args));
        assert [] + CallsFor(i, enc1, rest) == CallsFor(i, enc1, rest);
      }
    }
  }

  lemma {:induction false} CompletesWhole(before: Text, fs: seq<Event>)
    requires forall x | 0 <= x < |fs| :: fs[x].ToolCallDelta?
    requires CompletesLast(before, fs)
    ensures IsJson(before + Arguments(fs))
  {
  }

  lemma {:induction false} NothingFor(i: nat, enc: Encoder, es: seq<Event>)
    requires NoStops(es) && FragmentsOf(i, es) == [] && i !in enc.pendingCalls
    ensures CallsFor(i, enc, es) == [] && i !in EncodeAll(enc, es).0.pendingCalls
    decreases |es|
  {
    hide Encode;
    if es != [] {
      assert !IsFragment(es[0], i);
      OthersLeaveAlone(enc, es[0], i);
      NothingFor(i, Encode(enc, es[0]).0, es[1..]);
    }
  }

  /** Whatever else is interleaved, a call whose fragments only form JSON when the last of them
      arrives is emitted exactly once, with the first fragment's id and name and the whole text. */
  lemma {:induction false} CallEmittedOnce(i: nat, enc: Encoder, es: seq<Event>)
    requires NoStops(es) && i !in enc.pendingCalls
    requires FragmentsOf(i, es) != [] && CompletesLast([], FragmentsOf(i, es))
    ensures var fs := FragmentsOf(i, es);
            CallsFor(i, enc, es) == [WCall(0, fs[0].id, fs[0].name, Some(Arguments(fs)))]
    ensures i !in EncodeAll(enc, es).0.pendingCalls
    decreases |es|
  {
    hide IsJson, Arguments, CompletesLast;
    var e, rest := es[0], es[1..];
    var (enc1, ws) := Encode(enc, e);
    var fs := FragmentsOf(i, es);
    if !IsFragment(e, i) {
      OthersLeaveAlone(enc, e, i);
      assert fs == FragmentsOf(i, rest);
      CallEmittedOnce(i, enc1, rest);
      assert [] + CallsFor(i, enc1, rest) == CallsFor(i, enc1, rest);
    } else {
      assert fs[1..] == FragmentsOf(i, rest) && fs[0] == e;
      ArgumentsStep([], fs, |fs|);
      assert [] + e.arguments == e.arguments && [] + Arguments(fs) == Arguments(fs);
      if |fs| == 1 {
        ArgumentsNothing();
        assert e.arguments + [] == e.arguments;
        CompletesWhole([], fs);
        NothingFor(i, enc1, rest);
        assert ws + [] == ws;
      } else {
        CompletesStep([], fs);
        WaitingCall(i, enc1, rest, Pending(e.id, e.name, e.arguments));
        assert [] + CallsFor(i, enc1, rest) == CallsFor(i, enc1, rest);
      }
    }
  }

  lemma {:induction false} ArgumentsConcat(a: seq<Event>, b: seq<Event>)
    requires forall x | 0 <= x < |a| :: a[x].ToolCallDelta?
    requires forall x | 0 <= x < |b| :: b[x].ToolCallDelta?
    ensures Arguments(a + b) == Arguments(a) + Arguments(b)
  {
    if a == [] {
      assert a + b == b;
    } else {
      ArgumentsConcat(a[1..], b);
      assert (a + b)[1..] == a[1..] + b;
    }
  }

  /** How many fragments it takes until the arguments so far are JSON; all of them if they never are. */
  function FirstComplete(fs: seq<Event>, from: nat): (k: nat)
    requires from <= |fs| && forall x | 0 <= x < |fs| :: fs[x].ToolCallDelta?
    ensures from <= k <= |fs|
    ensures forall m | from <= m < k :: !IsJson(Arguments(fs[..m]))
    ensures k < |fs| ==> IsJson(Arguments(fs[..k]))
    decreases |fs| - from
  {
    if from == |fs| || IsJson(Arguments(fs[..from])) then from else FirstComplete(fs, from + 1)
  }

  /** An object is complete at one fragment; whatever follows that fragment is white space. */
  lemma {:induction false} ObjectCompletesOnce(fs: seq<Event>)
    requires forall x | 0 <= x < |fs| :: fs[x].ToolCallDelta?
    requires ObjectJson(Arguments(fs))
    ensures var k := FirstComplete(fs, 0);
            && 0 < k && CompletesLast([], fs[..k])
            && (forall m | 0 < m <= |fs| - k :: !IsJson([] + Arguments(fs[k..][..m])))
            && IsSpace(Arguments(fs[k..]))
  {
    hide IsJson, Arguments, ObjectJson, IsSpace;
    var k := FirstComplete(fs, 0);
    NothingIsNoJson();
    assert fs[..0] == [] && fs[..|fs|] == fs;
    ArgumentsNothing();
    ObjectIsJson(Arguments(fs));
    assert fs == fs[..k] + fs[k..];
    ArgumentsConcat(fs[..k], fs[k..]);
    SpaceAfterObject(Arguments(fs[..k]), Arguments(fs[k..]));
    assert [] + Arguments(fs[..k]) == Arguments(fs[..k]);
    forall m | 0 <= m < k ensures !IsJson([] + Arguments(fs[..k][..m])) {
      assert fs[..k][..m] == fs[..m] && [] + Arguments(fs[..m]) == Arguments(fs[..m]);
    }
    var rest := fs[k..];
    forall m | 0 < m <= |fs| - k ensures !IsJson([] + Arguments(rest[..m])) {
      assert rest == rest[..m] + rest[m..];
      ArgumentsConcat(rest[..m], rest[m..]);
      assert [] + Arguments(rest[..m]) == Arguments(rest[..m]);
      SpaceIsNoJson(Arguments(rest[..m]), Arguments(rest[m..]));
    }
  }

  lemma {:induction false} FragmentsConcat(i: nat, a: seq<Event>, b: seq<Event>)
    ensures FragmentsOf(i, a + b) == FragmentsOf(i, a) + FragmentsOf(i, b)
  {
    if a == [] {
      assert a + b == b;
    } else {
      FragmentsConcat(i, a[1..], b);
      assert (a + b)[1..] == a[1..] + b;
      Assoc(if IsFragment(a[0], i) then [a[0]] else [], FragmentsOf(i, a[1..]), FragmentsOf(i, b));
    }
  }

  lemma {:induction false} RunConcat(i: nat, enc: Encoder, a: seq<Event>, b: seq<Event>)
    ensures EncodeAll(enc, a + b).0 == EncodeAll(EncodeAll(enc, a).0, b).0
    ensures CallsFor(i, enc, a + b) == CallsFor(i, enc, a) + CallsFor(i, EncodeAll(enc, a).0, b)
    decreases |a|
  {
    hide Encode, IsFragment;
    if a == [] {
      assert a + b == b;
      assert [] + CallsFor(i, enc, b) == CallsFor(i, enc, b);
    } else {
      var (enc1, ws) := Encode(enc, a[0]);
      RunConcat(i, enc1, a[1..], b);
      assert (a + b)[1..] == a[1..] + b && (a + b)[0] == a[0];
      Assoc(if IsFragment(a[0], i) then ws else [], CallsFor(i, enc1, a[1..]), CallsFor(i, EncodeAll(enc, a).0, b));
    }
  }

  /** Where the `k`-th fragment of index `i` stands. */
  lemma {:induction false} CutAfter(i: nat, es: seq<Event>, k: nat) returns (n: nat)
    requires 0 < k <= |FragmentsOf(i, es)|
    ensures n <= |es| && FragmentsOf(i, es[..n]) == FragmentsOf(i, es)[..k]
    ensures FragmentsOf(i, es[n..]) == FragmentsOf(i, es)[k..]
  {
    if es == [] {
      assert false;
    } else {
      var e, rest := es[0], es[1..];
      var fs := FragmentsOf(i, rest);
      FragmentsCons(i, e, rest);
      assert es == [e] + rest;
      if IsFragment(e, i) && k == 1 {
        n := 1;
        FragmentsCons(i, e, []);
        assert es[..1] == [e] + [] && es[1..] == rest && ([e] + fs)[..1] == [e] && ([e] + fs)[1..] == fs;
      } else {
        hide FragmentsOf;
        var m := CutAfter(i, rest, if IsFragment(e, i) then k - 1 else k);
        n := m + 1;
        FragmentsCons(i, e, rest[..m]);
        assert es[n..] == rest[m..] && es[..n] == [e] + rest[..m];
        if IsFragment(e, i) {
          assert ([e] + fs)[..k] == [e] + fs[..k - 1] && ([e] + fs)[k..] == fs[k - 1..];
        }
      }
    }
  }

  lemma {:induction false} FragmentsCons(i: nat, e: Event, rest: seq<Event>)
    ensures FragmentsOf(i, [e] + rest) == if IsFragment(e, i) then [e] + FragmentsOf(i, rest) else FragmentsOf(i, rest)
  {
    assert ([e] + rest)[1..] == rest;
  }

  /** The encoder buffers correctly, exactly: for every interleaving, an index whose fragments
      concatenate to a JSON object is emitted exactly once, at the fragment that completes the
      object, with the first fragment's id and name and the whole object.  Nothing of the index
      stays behind if and only if no fragment follows that one; otherwise a new call is pending,
      under the next fragment's id and name. */
  lemma {:induction false} EncoderBuffersCorrectly(i: nat, es: seq<Event>)
    requires NoStops(es) && ObjectJson(Arguments(FragmentsOf(i, es)))
    ensures var fs, last := FragmentsOf(i, es), EncodeAll(NEW_ENCODER, es).0;
            var k := FirstComplete(fs, 0);
            && 0 < k && ObjectJson(Arguments(fs[..k])) && IsSpace(Arguments(fs[k..]))
            && CallsFor(i, NEW_ENCODER, es) == [WCall(0, fs[0].id, fs[0].name, Some(Arguments(fs[..k])))]
            && (i in last.pendingCalls <==> k < |fs|)
            && (k < |fs| ==> last.pendingCalls[i] == Pending(fs[k].id, fs[k].name, Arguments(fs[k..])))
    ensures !EncodeAll(NEW_ENCODER, es).0.emittedStop
  {
    hide IsJson, CallsFor, EncodeAll, Arguments, FirstComplete, ObjectJson, IsSpace, CompletesLast, FragmentsOf;
    var fs := FragmentsOf(i, es);
    var k := FirstComplete(fs, 0);
    ObjectCompletesOnce(fs);
    CompletedObject(fs, k);
    var n := CutAfter(i, es, k);
    var a, b := es[..n], es[n..];
    assert es == a + b;
    RunConcat(i, NEW_ENCODER, a, b);
    CallEmittedOnce(i, NEW_ENCODER, a);
    NeverStopped(NEW_ENCODER, es);
    var enc := EncodeAll(NEW_ENCODER, a).0;
    var first := CallsFor(i, NEW_ENCODER, a);
    assert first + [] == first;
    if k == |fs| {
      NothingFor(i, enc, b);
    } else {
      IncompleteStaysPending(i, enc, b, []);
      assert [] + Arguments(fs[k..]) == Arguments(fs[k..]);
    }
  }

  lemma {:induction false} CompletedObject(fs: seq<Event>, k: nat)
    requires forall x | 0 <= x < |fs| :: fs[x].ToolCallDelta?
    requires 0 < k <= |fs| && ObjectJson(Arguments(fs)) && CompletesLast([], fs[..k])
    ensures ObjectJson(Arguments(fs[..k]))
  {
    hide IsJson, Arguments, ObjectJson;
    assert fs == fs[..k] + fs[k..];
    ArgumentsConcat(fs[..k], fs[k..]);
    assert [] + Arguments(fs[..k]) == Arguments(fs[..k]);
    ObjectPrefix(Arguments(fs[..k]), Arguments(fs[k..]));
  }

  lemma {:induction false} NeverStopped(enc: Encoder, es: seq<Event>)
    requires NoStops(es)
    ensures EncodeAll(enc, es).0.emittedStop == enc.emittedStop
    decreases |es|
  {
    hide IsJson;
    if es != [] {
      NeverStopped(Encode(enc, es[0]).0, es[1..]);
    }
  }

  /** When the object's text ends at its closing brace, the condition is on the last fragment alone:
      nothing stays behind if and only if it is not empty, and the call carries the whole text. */
  lemma {:induction false} EmptyTailStaysPending(i: nat, es: seq<Event>)
    requires NoStops(es) && ObjectText(Arguments(FragmentsOf(i, es)))
    ensures var fs := FragmentsOf(i, es);
            && fs != []
            && CallsFor(i, NEW_ENCODER, es) == [WCall(0, fs[0].id, fs[0].name, Some(Arguments(fs)))]
            && (i !in EncodeAll(NEW_ENCODER, es).0.pendingCalls <==> fs[|fs| - 1].arguments != [])
  {
    hide IsJson, CallsFor, EncodeAll, Arguments, IsSpace, FragmentsOf, FirstComplete;
    var fs := FragmentsOf(i, es);
    var k := FirstComplete(fs, 0);
    EncoderBuffersCorrectly(i, es);
    assert fs == fs[..k] + fs[k..];
    ArgumentsConcat(fs[..k], fs[k..]);
    NoSpaceAfterText(Arguments(fs[..k]), Arguments(fs[k..]));
    assert Arguments(fs[..k]) + [] == Arguments(fs[..k]);
    LastFragment(fs, k);
  }

  /** The fragment that completes the object is the last one exactly when the last one is not empty. */
  lemma {:induction false} LastFragment(fs: seq<Event>, k: nat)
    requires forall x | 0 <= x < |fs| :: fs[x].ToolCallDelta?
    requires 0 < k <= |fs| && k == FirstComplete(fs, 0) && Arguments(fs[k..]) == [] && IsJson(Arguments(fs[..k]))
    ensures k == |fs| <==> fs[|fs| - 1].arguments != []
  {
    hide IsJson, Arguments;
    var front, last := fs[..|fs| - 1], fs[|fs| - 1];
    ArgumentsOne(last);
    if k < |fs| {
      assert fs[k..] == fs[k..|fs| - 1] + [last];
      ArgumentsConcat(fs[k..|fs| - 1], [last]);
    }
    assert fs == front + [last] && fs[..|fs|] == fs && fs[..|fs| - 1] == front;
    ArgumentsConcat(front, [last]);
    assert Arguments(front) + [] == Arguments(front);
    assert k == |fs| ==> !IsJson(Arguments(fs[..|fs| - 1]));
  }

  /** Arguments that never complete stay pending under the first fragment's id and name. */
  lemma {:induction false} IncompleteStaysPending(i: nat, enc: Encoder, es: seq<Event>, before: Text)
    requires NoStops(es)
    requires i in enc.pendingCalls ==> before == enc.pendingCalls[i].args
    requires i !in enc.pendingCalls ==> before == [] && FragmentsOf(i, es) != []
    requires forall k | 0 < k <= |FragmentsOf(i, es)| :: !IsJson(before + Arguments(FragmentsOf(i, es)[..k]))
    ensures var fs, last := FragmentsOf(i, es), EncodeAll(enc, es).0;
            && CallsFor(i, enc, es) == [] && i in last.pendingCalls
            && last.pendingCalls[i] == (if i in enc.pendingCalls
                                        then enc.pendingCalls[i].(args := before + Arguments(fs))
                                        else Pending(fs[0].id, fs[0].name, before + Arguments(fs)))
    decreases |es|
  {
    hide IsJson, Arguments;
    if es == [] {
      ArgumentsNothing();
      assert before + [] == before;
    } else {
      var e, rest := es[0], es[1..];
      var enc1 := Encode(enc, e).0;
      var fs := FragmentsOf(i, es);
      if !IsFragment(e, i) {
        OthersLeaveAlone(enc, e, i);
        assert fs == FragmentsOf(i, rest);
        IncompleteStaysPending(i, enc1, rest, before);
      } else {
        assert fs[1..] == FragmentsOf(i, rest) && fs[0] == e;
        ArgumentsStep(before, fs, 1);
        ArgumentsNothing();
        assert fs[1..][..0] == [] && before + e.arguments + [] == before + e.arguments;
        assert !IsJson(before + Arguments(fs[..1]));
        assert before == [] ==> before + e.arguments == e.arguments;
        forall k | 0 < k <= |fs| - 1
          ensures !IsJson(before + e.arguments + Arguments(FragmentsOf(i, rest)[..k]))
        {
          ArgumentsStep(before, fs, k + 1);
          assert !IsJson(before + Arguments(fs[..k + 1]));
        }
        ArgumentsStep(before, fs, |fs|);
        IncompleteStaysPending(i, enc1, rest, before + e.arguments);
      }
    }
  }

  /** At the stop every call still pending is emitted exactly once, in ascending index order, with
      null arguments and its own id and name, before the one finish chunk; a second stop says nothing. */
  lemma {:induction false} StopFlushesPending(enc: Encoder, f: FinishReason, usage: Option<Usage>)
    requires !enc.emittedStop
    ensures var (enc', ws) := Encode(enc, MessageStop(f, usage));
            && enc'.pendingCalls == map[] && |ws| == |enc.pendingCalls| + 1
            && ws[|ws| - 1] == WFinish(FinishReasonText(f), usage)
            && (forall x | 0 <= x < |ws| - 1 ::
                  && ws[x].WCall? && ws[x].candidate in enc.pendingCalls && ws[x].args.None?
                  && ws[x].id == enc.pendingCalls[ws[x].candidate].id
                  && ws[x].name == enc.pendingCalls[ws[x].candidate].name)
            && (forall x, y | 0 <= x < y < |ws| - 1 :: ws[x].candidate < ws[y].candidate)
            && (forall i | i in enc.pendingCalls ::
                  WCall(i, enc.pendingCalls[i].id, enc.pendingCalls[i].name, None) in ws)
            && (forall f', u' :: Encode(enc', MessageStop(f', u')).1 == [])
  {
    hide NullCalls, Ascending, FinishReasonText, IsJson;
    var keys := enc.pendingCalls.Keys;
    AscendingMembers(keys);
    AscendingLength(keys);
    var calls := NullCalls(enc.pendingCalls, Ascending(keys));
    NullCallsAre(enc.pendingCalls, Ascending(keys));
    assert |keys| == |enc.pendingCalls|;
    forall i | i in enc.pendingCalls
      ensures WCall(i, enc.pendingCalls[i].id, enc.pendingCalls[i].name, None) in calls
    {
      assert i in Ascending(keys);
      var x :| 0 <= x < |Ascending(keys)| && Ascending(keys)[x] == i;
      assert calls[x] in calls;
    }
  }

  /** The whole story of an index at the stop: it is emitted again, with null arguments, if and only
      if a fragment followed the one that completed its object, under that fragment's id and name. */
  lemma {:induction false} StopRepeatsTrailingCall(i: nat, es: seq<Event>, f: FinishReason, usage: Option<Usage>)
    requires NoStops(es) && ObjectJson(Arguments(FragmentsOf(i, es)))
    ensures var fs := FragmentsOf(i, es);
            var k := FirstComplete(fs, 0);
            var ws := Encode(EncodeAll(NEW_ENCODER, es).0, MessageStop(f, usage)).1;
            && (k < |fs| <==> exists w | w in ws :: w.WCall? && w.candidate == i)
            && (k < |fs| ==> WCall(i, fs[k].id, fs[k].name, None) in ws)
  {
    hide IsJson, CallsFor, EncodeAll, Encode, Arguments, FirstComplete, ObjectJson, IsSpace, FragmentsOf;
    EncoderBuffersCorrectly(i, es);
    StopFlushesPending(EncodeAll(NEW_ENCODER, es).0, f, usage);
    var ws := Encode(EncodeAll(NEW_ENCODER, es).0, MessageStop(f, usage)).1;
    forall w | w in ws && w.WCall? ensures w.candidate in EncodeAll(NEW_ENCODER, es).0.pendingCalls {
      var x :| 0 <= x < |ws| && ws[x] == w;
    }
  }

  /** An input on which it happens: one empty fragment after `{}` makes a nameless call. */
  lemma {:induction false} EmptyFragmentAddsCall(id: string, name: string, f: FinishReason, usage: Option<Usage>)
    ensures var es := [ToolCallDelta(0, id, name, [LBRACE, RBRACE]), ToolCallDelta(0, "", "", [])];
            && EncodeAll(NEW_ENCODER, es).1 == [WCall(0, id, name, Some([LBRACE, RBRACE]))]
            && WCall(0, "", "", None) in Encode(EncodeAll(NEW_ENCODER, es).0, MessageStop(f, usage)).1
  {
    hide IsJson, FinishReasonText, NullCallsAscending;
    var e1, e2 := ToolCallDelta(0, id, name, [LBRACE, RBRACE]), ToolCallDelta(0, "", "", []);
    var es := [e1, e2];
    BracesAreJson();
    NothingIsNoJson();
    assert es[1..] == [e2] && es[1..][1..] == [];
    var enc1 := Encode(NEW_ENCODER, e1).0;
    assert enc1 == NEW_ENCODER.(pendingCalls := enc1.pendingCalls) && enc1.pendingCalls == map[];
    var enc2 := Encode(enc1, e2).0;
    assert enc2.pendingCalls == map[0 := Pending("", "", [])];
    assert EncodeAll(enc2, es[1..][1..]) == (enc2, []);
    assert EncodeAll(enc1, es[1..]) == (enc2, Encode(enc1, e2).1 + []);
    assert EncodeAll(NEW_ENCODER, es).0 == enc2;
    StopFlushesPending(enc2, f, usage);
  }

  lemma {:induction false} NullCallsAre(pending: map<nat, Pending>, indices: seq<nat>)
    requires forall x | 0 <= x < |indices| :: indices[x] in pending
    ensures |NullCalls(pending, indices)| == |indices|
    ensures forall x | 0 <= x < |indices| ::
              NullCalls(pending, indices)[x]
              == WCall(indices[x], pending[indices[x]].id, pending[indices[x]].name, None)
  {
    if indices != [] {
      NullCallsAre(pending, indices[1..]);
    }
  }

  // ----- the object -----

  class GeminiStreamEncoder {
    var started: bool
    var emittedStop: bool
    var pendingCalls: map<nat, Pending>

    ghost function State(): Encoder
      reads this
    {
      Encoder(started, emittedStop, pendingCalls)
    }

    constructor ()
      ensures State() == NEW_ENCODER
    {
      started, emittedStop, pendingCalls := false, false, map[];
    }

    method EncodeEvent(e: Event) returns (lines: seq<Wire>)
      modifies this
      ensures (State(), lines) == Encode(old(State()), e)
    {
      hide IsJson;
      lines := [];
      match e {
        case MessageStart(_, _, _) =>
          started := true;
        case TextDelta(t) =>
          lines := [WText(t)];
        case ReasoningDelta(t) =>
          lines := [WThought(t)];
        case ToolCallDelta(index, id, name, args) =>
          var entry := if index in pendingCalls then pendingCalls[index] else Pending(id, name, []);
          assert [] + args == args;
          entry := entry.(args := entry.args + args);
          pendingCalls := pendingCalls[index := entry];
          if !IsJson(entry.args) {
            return;
          }
          lines := [WCall(0, entry.id, entry.name, Some(entry.args))];
          pendingCalls := pendingCalls - {index};
          assert pendingCalls == old(pendingCalls) - {index};
        case ReasoningSignature(_) =>
        case MessageStop(f, usage) =>
          if emittedStop {
            return;
          }
          emittedStop := true;
          lines := FlushPending();
          lines := lines + [WFinish(FinishReasonText(f), usage)];
        case Error(err) =>
          lines := [WError(Display(err))];
      }
    }

    method FlushPending() returns (lines: seq<Wire>)
      modifies this`pendingCalls
      ensures pendingCalls == map[]
      ensures lines == NullCallsAscending(old(pendingCalls), old(pendingCalls).Keys)
    {
      hide NullCallsAscending;
      lines := [];
      ghost var all := pendingCalls;
      while pendingCalls != map[]
        invariant pendingCalls.Keys <= all.Keys && forall i | i in pendingCalls :: pendingCalls[i] == all[i]
        invariant lines + NullCallsAscending(all, pendingCalls.Keys) == NullCallsAscending(all, all.Keys)
        decreases pendingCalls.Keys
      {
        assert pendingCalls.Keys != {};
        var i := LeastOf(pendingCalls.Keys);
        NullCallsStep(all, pendingCalls.Keys, i);
        lines := lines + [WCall(i, pendingCalls[i].id, pendingCalls[i].name, None)];
        ghost var keys := pendingCalls.Keys;
        pendingCalls := pendingCalls - {i};
        assert pendingCalls.Keys == keys - {i};
      }
      assert pendingCalls.Keys == {};
      NullCallsNone(all);
      assert lines + [] == lines;
    }
  }

  lemma {:induction false} NullCallsNone(pending: map<nat, Pending>)
    ensures NullCallsAscending(pending, {}) == []
  {
  }

  lemma {:induction false} NullCallsStep(pending: map<nat, Pending>, rest: set<nat>, i: nat)
    requires rest <= pending.Keys && IsLeast(rest, i)
    ensures NullCallsAscending(pending, rest)
            == [WCall(i, pending[i].id, pending[i].name, None)] + NullCallsAscending(pending, rest - {i})
  {
    LeastUnique(rest, i);
    AscendingMembers(rest);
    AscendingMembers(rest - {i});
    assert Ascending(rest)[1..] == Ascending(rest - {i});
  }
}
