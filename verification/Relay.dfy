/** The streaming relay: framing, decoder, restorer, encoder and terminal ordering
    (src/core/pipeline.rs, `handle_streaming_response`, `process_payload`, `send_lines`). */
module Relay {
  import opened Bytes
  import opened Neutral
  import Sse = SseFraming
  import opened ChannelRestore
  import Ordered

  // ----- the stages -----

  /** A protocol's stream decoder on payload text; `stopped` reads its "stop emitted" flag. */
  datatype DecoderOps<!D> = DecoderOps(
    feed: (D, Text) -> (D, seq<Event>),
    finish: D -> (D, seq<Event>),
    stopped: D -> bool)

  /** A protocol's stream encoder: the lines of an event, and the terminal marker. */
  datatype EncoderOps<!E> = EncoderOps(encode: (E, Event) -> (E, seq<Text>), done: Text)

  function Stops(es: seq<Event>): seq<Event> {
    if es == [] then [] else (if es[0].MessageStop? then [es[0]] else []) + Stops(es[1..])
  }

  function Content(es: seq<Event>): seq<Event> {
    if es == [] then [] else (if es[0].MessageStop? then [] else [es[0]]) + Content(es[1..])
  }

  lemma {:induction false} StopsConcat(a: seq<Event>, b: seq<Event>)
    ensures Stops(a + b) == Stops(a) + Stops(b)
  {
    if a == [] {
      assert a + b == b;
    } else {
      var head := if a[0].MessageStop? then [a[0]] else [];
      StopsConcat(a[1..], b);
      assert (a + b)[1..] == a[1..] + b;
      assert Stops(a + b) == head + Stops((a + b)[1..]);
      Assoc(head, Stops(a[1..]), Stops(b));
    }
  }

  lemma {:induction false} ContentConcat(a: seq<Event>, b: seq<Event>)
    ensures Content(a + b) == Content(a) + Content(b)
  {
    if a == [] {
      assert a + b == b;
    } else {
      var head := if a[0].MessageStop? then [] else [a[0]];
      ContentConcat(a[1..], b);
      assert (a + b)[1..] == a[1..] + b;
      assert Content(a + b) == head + Content((a + b)[1..]);
      Assoc(head, Content(a[1..]), Content(b));
    }
  }

  lemma {:induction false} NoStopsHere(es: seq<Event>)
    requires forall e | e in es :: !e.MessageStop?
    ensures Stops(es) == []
  {
    if es != [] {
      assert es[0] in es && forall e | e in es[1..] :: e in es;
      NoStopsHere(es[1..]);
    }
  }

  lemma {:induction false} SplitOne(e: Event)
    ensures Stops([e]) == if e.MessageStop? then [e] else []
    ensures Content([e]) == if e.MessageStop? then [] else [e]
  {
    assert [e][1..] == [];
  }

  /** At most one stop ever, and none once one has been emitted. */
  ghost predicate StopsAtMostOnce<D>(ops: DecoderOps<D>, d: D, d': D, es: seq<Event>) {
    && |Stops(es)| <= (if ops.stopped(d) then 0 else 1)
    && (ops.stopped(d) || Stops(es) != [] ==> ops.stopped(d'))
  }

  ghost predicate FeedOk<D>(ops: DecoderOps<D>, d: D, p: Text) {
    var (d', es) := ops.feed(d, p);
    StopsAtMostOnce(ops, d, d', es) && (ValidUtf8(p) ==> forall e | e in es :: EventUtf8(e))
  }

  ghost predicate FinishOk<D>(ops: DecoderOps<D>, d: D) {
    var (d', es) := ops.finish(d);
    StopsAtMostOnce(ops, d, d', es) && forall e | e in es :: EventUtf8(e) && !e.Error?
  }

  /** What the relay relies on; all three decoders have it. */
  ghost predicate DecoderOk<D(!new)>(ops: DecoderOps<D>) {
    (forall d, p :: FeedOk(ops, d, p)) && (forall d :: FinishOk(ops, d))
  }

  // ----- what a clean run computes -----

  ghost function DecodeAll<D>(ops: DecoderOps<D>, d: D, payloads: seq<Text>): (D, seq<Event>)
    decreases |payloads|
  {
    if payloads == [] then (d, [])
    else
      var (d1, es) := ops.feed(d, payloads[0]);
      var (d2, more) := DecodeAll(ops, d1, payloads[1..]);
      (d2, es + more)
  }

  /** The privacy session, if there is one: its vault and its longest token. */
  datatype Guard = Off | On(v: map<Text, Text>, m: nat)

  ghost predicate GuardOk(g: Guard) { g.On? ==> VaultOk(g.v, g.m) }

  ghost function RestoreOne(g: Guard, st: Tails, e: Event): (Tails, Option<Event>)
    requires GuardOk(g)
  {
    if g.On? then RestoreEventSpec(g.v, g.m, st, e) else (st, Some(e))
  }

  ghost function RestoreSeq(g: Guard, st: Tails, es: seq<Event>): (Tails, seq<Event>)
    requires GuardOk(g)
    decreases |es|
  {
    if es == [] then (st, [])
    else
      var (st1, r) := RestoreOne(g, st, es[0]);
      var (st2, more) := RestoreSeq(g, st1, es[1..]);
      (st2, (if r.Some? then [r.value] else []) + more)
  }

  ghost function Flush(g: Guard, st: Tails): seq<Event> { if g.On? then FinishSpec(st) else [] }

  /** The events the encoder is given for a stream of payloads: content in order, then what the
      restorer still held, then the terminal event. */
  ghost function RelaySpec<D>(ops: DecoderOps<D>, d: D, g: Guard, payloads: seq<Text>): seq<Event>
    requires GuardOk(g)
  {
    var (d', es) := DecodeAll(ops, d, payloads);
    var (st, outs) := RestoreSeq(g, NO_TAILS, es + ops.finish(d').1);
    Content(outs) + Flush(g, st) + Stops(outs)
  }

  /** The same for a stream that was cut off: the decoder is not asked for its end, no stop is sent, and
      what the restorer still held is. */
  ghost function CutSpec<D>(ops: DecoderOps<D>, d: D, g: Guard, payloads: seq<Text>): seq<Event>
    requires GuardOk(g)
  {
    var (st, outs) := RestoreSeq(g, NO_TAILS, DecodeAll(ops, d, payloads).1);
    Content(outs) + Flush(g, st)
  }

  lemma {:induction false} DecodeAppend<D>(ops: DecoderOps<D>, d: D, ps: seq<Text>, p: Text)
    ensures var (d1, es) := DecodeAll(ops, d, ps);
            var (d2, more) := ops.feed(d1, p);
            DecodeAll(ops, d, ps + [p]) == (d2, es + more)
    decreases |ps|
  {
    if ps == [] {
      assert ps + [p] == [p] && [p][1..] == [];
      var more := ops.feed(d, p).1;
      assert DecodeAll(ops, ops.feed(d, p).0, []) == (ops.feed(d, p).0, []);
      assert [] + more == more && more + [] == more;
    } else {
      assert (ps + [p])[1..] == ps[1..] + [p];
      var (d1, es) := ops.feed(d, ps[0]);
      DecodeAppend(ops, d1, ps[1..], p);
      var (d2, mid) := DecodeAll(ops, d1, ps[1..]);
      var more := ops.feed(d2, p).1;
      assert es + (mid + more) == es + mid + more;
    }
  }

  lemma {:induction false} RestoreSeqConcat(g: Guard, st: Tails, a: seq<Event>, b: seq<Event>)
    requires GuardOk(g)
    ensures var (st1, x) := RestoreSeq(g, st, a);
            var (st2, y) := RestoreSeq(g, st1, b);
            RestoreSeq(g, st, a + b) == (st2, x + y)
    decreases |a|
  {
    hide RestoreOne;
    if a == [] {
      assert a + b == b;
      var y := RestoreSeq(g, st, b).1;
      assert [] + y == y;
    } else {
      assert (a + b)[1..] == a[1..] + b;
      var (st1, r) := RestoreOne(g, st, a[0]);
      RestoreSeqConcat(g, st1, a[1..], b);
      var first := if r.Some? then [r.value] else [];
      var (st2, x) := RestoreSeq(g, st1, a[1..]);
      var y := RestoreSeq(g, st2, b).1;
      assert first + (x + y) == first + x + y;
    }
  }

  lemma {:induction false} RestoreSeqOne(g: Guard, st: Tails, e: Event)
    requires GuardOk(g)
    ensures var (st1, r) := RestoreOne(g, st, e);
            RestoreSeq(g, st, [e]) == (st1, if r.Some? then [r.value] else [])
  {
    hide RestoreOne;
    assert [e][1..] == [];
    var (st1, r) := RestoreOne(g, st, e);
    assert RestoreSeq(g, st1, []) == (st1, []);
    var first := if r.Some? then [r.value] else [];
    assert first + [] == first;
  }

  // ----- the relay loop -----

  /** What the select of the relay loop sees next.  When the steps are used up, the upstream has
      closed its stream. */
  datatype Step = ChunkArrives(bytes: Text) | UpstreamError | IdleTimeout | UpstreamEnds | ClientCloses

  /** The chunks among the steps read: the loop stops at the first step that is none. */
  function Arrived(steps: seq<Step>, read: nat): seq<Step>
    requires read <= |steps|
  {
    if read > 0 && !steps[read - 1].ChunkArrives? then steps[..read - 1] else steps[..read]
  }

  predicate Fails(step: Step) { step.UpstreamError? || step.IdleTimeout? }

  const DONE: Text := [LBRACKET, 68, 79, 78, 69, RBRACKET] // "[DONE]"

  function EventsOf(log: seq<(Event, seq<Text>)>): (es: seq<Event>)
    ensures |es| == |log| && forall i | 0 <= i < |log| :: es[i] == log[i].0
  {
    seq(|log|, i requires 0 <= i < |log| => log[i].0)
  }

  /** An error reached the encoder and produced output. */
  predicate ErrorShown(log: seq<(Event, seq<Text>)>) {
    exists i | 0 <= i < |log| :: log[i].0.Error? && log[i].1 != []
  }

  predicate NoStop(es: seq<Event>) { forall i | 0 <= i < |es| :: !es[i].MessageStop? }

  predicate AllStops(es: seq<Event>) { forall i | 0 <= i < |es| :: es[i].MessageStop? }

  /** One streaming relay.  `encoded` logs every event given to the encoder with its lines; `closed`
      says that the client has dropped the receiving end, which may happen at any time. */
  class StreamRelay<D(!new), E> {
    const decoder: DecoderOps<D>
    const encoder: EncoderOps<E>
    const restorer: StreamRestorer?
    const framing: Sse.Framing
    var d: D
    var e: E
    var upstreamFailed: bool
    var sawErrorEvent: bool
    var clientGone: bool
    var terminalEvents: seq<Event>
    var closed: bool
    var encoded: seq<(Event, seq<Text>)>
    var doneSent: bool
    /** The decoder's first state and the payloads it has been fed. */
    ghost const d0: D
    ghost var processed: seq<Text>

    ghost function Footprint(): set<object>
      reads this, restorer
    {
      {this, framing}
      + (if restorer == null then {}
         else {restorer, restorer.text, restorer.reasoning, restorer.session}
              + (set i | i in restorer.toolArgs :: restorer.toolArgs[i] as object))
    }

    ghost function GuardNow(): Guard
      reads this, restorer, Footprint()
    {
      if restorer == null then Off
      else On(restorer.session.tokenToOriginal, restorer.session.engine.maxTokenLen)
    }

    ghost function TailsNow(): Tails
      reads this, restorer, Footprint()
    {
      if restorer == null then NO_TAILS else restorer.State()
    }

    ghost predicate Valid()
      reads this, restorer, Footprint()
    {
      framing.Valid() && (restorer != null ==> restorer.Valid()) && DecoderOk(decoder)
    }

    /** No stop has been encoded yet, only stops are waiting, and the error flag is exact. */
    ghost predicate LogOk()
      reads this
    {
      && NoStop(EventsOf(encoded)) && AllStops(terminalEvents)
      && (sawErrorEvent <==> ErrorShown(encoded)) && !doneSent
    }

    /** Safety so far: in addition, at most one stop is waiting. */
    ghost predicate Safe()
      reads this
    {
      LogOk() && |terminalEvents| <= 1 && (terminalEvents != [] ==> decoder.stopped(d))
    }

    /** The events decoded from the payloads processed so far. */
    ghost function Decoded(): seq<Event>
      reads this
    {
      DecodeAll(decoder, d0, processed).1
    }

    /** With what the decoder adds at the end. */
    ghost function AllDecoded(): seq<Event>
      reads this
    {
      Decoded() + decoder.finish(DecodeAll(decoder, d0, processed).0).1
    }

    ghost predicate Synced()
      reads this, restorer, Footprint()
      requires GuardOk(GuardNow())
    {
      d == DecodeAll(decoder, d0, processed).0 && Sourced(Decoded()) && (!closed ==> Faithful(Decoded()))
    }

    /** Stops and errors are never made up: one that waits or has been encoded was decoded. */
    ghost predicate Sourced(es: seq<Event>)
      reads this
    {
      (terminalEvents != [] ==> Stops(es) != []) && (ErrorIn(EventsOf(encoded)) ==> ErrorIn(es))
    }

    /** While the client is there, everything decoded so far has been restored and encoded, in
        order, except the stops, which wait. */
    ghost predicate Faithful(es: seq<Event>)
      reads this, restorer, Footprint()
      requires GuardOk(GuardNow())
    {
      var (st, outs) := RestoreSeq(GuardNow(), NO_TAILS, es);
      TailsNow() == st && EventsOf(encoded) == Content(outs) && terminalEvents == Stops(outs)
    }

    constructor (decoder: DecoderOps<D>, d: D, encoder: EncoderOps<E>, e: E, restorer: StreamRestorer?)
      requires DecoderOk(decoder)
      requires restorer != null ==> restorer.Valid() && restorer.State() == NO_TAILS
      ensures Valid() && Safe() && fresh(framing) && this.restorer == restorer
      ensures this.decoder == decoder && d0 == d == this.d && processed == []
      ensures encoded == [] && terminalEvents == [] && !upstreamFailed && !closed
      ensures framing.buffer == [] && framing.dataLines == []
    {
      this.decoder, this.encoder, this.restorer := decoder, encoder, restorer;
      this.d, this.e, d0 := d, e, d;
      framing := new Sse.Framing();
      upstreamFailed, sawErrorEvent, clientGone, closed, doneSent := false, false, false, false, false;
      terminalEvents, encoded, processed := [], [], [];
    }

    lemma {:induction false} GuardIsOk()
      requires Valid()
      ensures GuardOk(GuardNow())
    {
      if restorer != null {
        restorer.VaultIsOk();
      }
    }

    /** `send_lines`: the client may have gone before any send. */
    method SendLines(lines: seq<Text>) returns (ok: bool)
      modifies this`closed
      ensures old(closed) ==> closed
      ensures ok <==> lines == [] || !closed
    {
      if lines == [] {
        return true;
      }
      if * {
        closed := true;
      }
      return !closed;
    }

    method RestoreEvent(event: Event) returns (r: Option<Event>)
      requires Valid() && EventUtf8(event)
      modifies if restorer == null then {} else Footprint() - {this, framing}
      ensures Valid() && GuardNow() == old(GuardNow()) && GuardOk(GuardNow())
      ensures fresh(Footprint() - old(Footprint()))
      ensures (TailsNow(), r) == RestoreOne(GuardNow(), old(TailsNow()), event)
    {
      hide StreamRestorer.Valid, StreamRestorer.State, Sse.Framing.Valid, DecoderOk, RestoreEventSpec, VaultOk;
      hide EventUtf8;
      GuardIsOk();
      if restorer == null {
        return Some(event);
      }
      r := restorer.RestoreEvent(event);
    }

    /** One decoded event: restore it, hold it if it is the terminal event, else encode and send
        it.  The payload path flags errors that produced output; the finish path does not. */
    method RelayEvent(event: Event, flagErrors: bool, ghost es: seq<Event>) returns (ok: bool)
      requires Valid() && LogOk() && EventUtf8(event) && (flagErrors || !event.Error?)
      modifies Footprint() - {framing}
      ensures Valid() && LogOk() && GuardNow() == old(GuardNow()) && GuardOk(GuardNow())
      ensures fresh(Footprint() - old(Footprint()))
      ensures (old(closed) ==> closed) && (ok || closed)
      ensures d == old(d) && processed == old(processed) && upstreamFailed == old(upstreamFailed)
      ensures terminalEvents == old(terminalEvents) + (if event.MessageStop? then [event] else [])
      ensures ErrorIn(EventsOf(encoded)) ==> ErrorIn(EventsOf(old(encoded))) || event.Error?
      ensures !closed && GuardOk(old(GuardNow())) && old(Faithful(es)) ==> Faithful(es + [event])
    {
      hide StreamRestorer.Valid, StreamRestorer.State, Sse.Framing.Valid, DecoderOk, RestoreOne, EventUtf8, VaultOk;
      hide RestoreSeq, Content, Stops, ErrorShown, NoStop, AllStops, EventsOf, ErrorIn;
      ghost var g, st := GuardNow(), TailsNow();
      var r := RestoreEvent(event);
      KindSurvives(g, st, event);
      StepOutputs(g, es, event, st);
      if r.None? {
        assert terminalEvents + [] == terminalEvents && EventsOf(encoded) + [] == EventsOf(encoded);
        return true;
      }
      if r.value.MessageStop? {
        assert EventsOf(encoded) + [] == EventsOf(encoded);
        AllStopsAppend(terminalEvents, r.value);
        terminalEvents := terminalEvents + [r.value];
        return true;
      }
      assert terminalEvents + [] == terminalEvents;
      ErrorAppend(EventsOf(encoded), [r.value]);
      ErrorOne(r.value);
      ok := EncodeAndSend(r.value, flagErrors);
    }

    /** The loop over a decoder's events; it stops as soon as the client is gone. */
    method RelayEvents(events: seq<Event>, flagErrors: bool, ghost es: seq<Event>) returns (ok: bool)
      requires Valid() && LogOk() && (forall x | x in events :: EventUtf8(x) && (flagErrors || !x.Error?))
      requires |terminalEvents| + |Stops(events)| <= 1
      modifies Footprint() - {framing}
      ensures Valid() && LogOk() && GuardNow() == old(GuardNow()) && GuardOk(GuardNow())
      ensures fresh(Footprint() - old(Footprint()))
      ensures (old(closed) ==> closed) && (ok || closed)
      ensures d == old(d) && processed == old(processed) && upstreamFailed == old(upstreamFailed)
      ensures |terminalEvents| <= 1
      ensures terminalEvents != [] ==> old(terminalEvents) != [] || Stops(events) != []
      ensures ErrorIn(EventsOf(encoded)) ==> ErrorIn(EventsOf(old(encoded))) || ErrorIn(events)
      ensures !closed && GuardOk(old(GuardNow())) && old(Faithful(es)) ==> Faithful(es + events)
    {
      hide StreamRestorer.Valid, StreamRestorer.State, Sse.Framing.Valid, DecoderOk, EventUtf8, VaultOk;
      hide RestoreSeq, Content, Stops, ErrorShown, NoStop, AllStops, EventsOf, Faithful, Valid, LogOk, GuardNow;
      GuardIsOk();
      var k := 0;
      assert events[0..] == events && es + events[..0] == es;
      while k < |events|
        invariant 0 <= k <= |events|
        invariant Valid() && LogOk() && GuardNow() == old(GuardNow()) && GuardOk(GuardNow())
        invariant fresh(Footprint() - old(Footprint()))
        invariant old(closed) ==> closed
        invariant d == old(d) && processed == old(processed) && upstreamFailed == old(upstreamFailed)
        invariant |terminalEvents| + |Stops(events[k..])| <= 1
        invariant terminalEvents != [] ==> old(terminalEvents) != [] || Stops(events) != []
        invariant ErrorIn(EventsOf(encoded)) ==> ErrorIn(EventsOf(old(encoded))) || ErrorIn(events)
        invariant !closed && old(Faithful(es)) ==> Faithful(es + events[..k])
      {
        StopsStep(events, k);
        assert es + events[..k] + [events[k]] == es + events[..k + 1];
        ok := RelayEvent(events[k], flagErrors, es + events[..k]);
        if !ok {
          return false;
        }
        k := k + 1;
      }
      assert events[..k] == events;
      return true;
    }

    /** `process_payload`. */
    method ProcessPayload(payload: Text) returns (ok: bool)
      requires Valid() && Safe() && ValidUtf8(payload)
      modifies Footprint() - {framing}
      ensures Valid() && Safe() && GuardNow() == old(GuardNow()) && GuardOk(GuardNow())
      ensures fresh(Footprint() - old(Footprint()))
      ensures (old(closed) ==> closed) && (ok || closed) && upstreamFailed == old(upstreamFailed)
      ensures processed == old(processed) + [payload]
      ensures GuardOk(old(GuardNow())) && old(Synced()) ==> Synced()
    {
      hide StreamRestorer.Valid, StreamRestorer.State, Sse.Framing.Valid, EventUtf8, VaultOk;
      hide RestoreSeq, Stops, Content, ValidUtf8, DecodeAll, ErrorShown, NoStop, AllStops, EventsOf, ErrorIn;
      GuardIsOk();
      assert FeedOk(decoder, d, payload);
      ghost var es := Decoded();
      DecodeAppend(decoder, d0, processed, payload);
      var (d', events) := decoder.feed(d, payload);
      d := d';
      processed := processed + [payload];
      ErrorAppend(es, events);
      StopsConcat(es, events);
      ok := RelayEvents(events, true, es);
    }

    /** The payload `framing.finish()` still holds, unless it is the end marker. */
    method FlushFraming()
      requires Valid() && Safe()
      modifies Footprint()
      ensures Valid() && Safe() && GuardNow() == old(GuardNow()) && GuardOk(GuardNow())
      ensures fresh(Footprint() - old(Footprint()))
      ensures (old(closed) ==> closed) && upstreamFailed == old(upstreamFailed)
      ensures var held := Sse.FinishSpec(old(framing.dataLines));
              processed == old(processed) + (if held == [DONE] then [] else held)
      ensures GuardOk(old(GuardNow())) && old(Synced()) ==> Synced()
    {
      hide StreamRestorer.Valid, StreamRestorer.State, EventUtf8, VaultOk;
      hide RestoreSeq, Stops, Content, ValidUtf8, DecodeAll, ErrorShown, NoStop, AllStops, EventsOf, DecoderOk;
      GuardIsOk();
      var payloads := framing.Finish();
      if payloads != [] && payloads[0] != DONE {
        var ok := ProcessPayload(payloads[0]);
      } else {
        assert processed + [] == processed;
      }
    }

    /** `decoder.finish()`, relayed; not after a transport failure. */
    method FinishDecoder()
      requires Valid() && Safe() && !upstreamFailed
      modifies Footprint() - {framing}
      ensures Valid() && LogOk() && |terminalEvents| <= 1 && !upstreamFailed
      ensures GuardNow() == old(GuardNow()) && GuardOk(GuardNow())
      ensures fresh(Footprint() - old(Footprint())) && (old(closed) ==> closed)
      ensures processed == old(processed)
      ensures GuardOk(old(GuardNow())) && old(Synced()) ==> Sourced(AllDecoded())
      ensures GuardOk(old(GuardNow())) && old(Synced()) && !closed ==> Faithful(AllDecoded())
    {
      hide StreamRestorer.Valid, StreamRestorer.State, Sse.Framing.Valid, EventUtf8, VaultOk;
      hide RestoreSeq, Stops, Content, DecodeAll, ErrorShown, NoStop, AllStops, EventsOf, ErrorIn;
      GuardIsOk();
      assert FinishOk(decoder, d);
      ghost var es := Decoded();
      var (d', events) := decoder.finish(d);
      d := d';
      ErrorAppend(es, events);
      StopsConcat(es, events);
      var ok := RelayEvents(events, false, es);
    }

    /** `restorer.finish()`, encoded. */
    method FlushRestorer()
      requires Valid() && LogOk()
      modifies Footprint() - {framing}
      ensures LogOk() && terminalEvents == old(terminalEvents) && upstreamFailed == old(upstreamFailed)
      ensures (old(closed) ==> closed) && processed == old(processed)
      ensures ErrorIn(EventsOf(encoded)) ==> ErrorIn(EventsOf(old(encoded)))
      ensures !closed ==> EventsOf(encoded) == EventsOf(old(encoded)) + Flush(old(GuardNow()), old(TailsNow()))
    {
      hide StreamRestorer.Valid, StreamRestorer.State, Sse.Framing.Valid, FinishSpec, VaultOk, DecoderOk;
      hide ErrorShown, NoStop, AllStops, EventsOf, ErrorIn;
      ghost var log := EventsOf(encoded);
      assert log + [] == log;
      if restorer != null {
        FlushHasOnlyDeltas(TailsNow());
        var events := restorer.Finish();
        var k := 0;
        while k < |events|
          invariant 0 <= k <= |events|
          invariant LogOk() && terminalEvents == old(terminalEvents) && upstreamFailed == old(upstreamFailed)
          invariant (old(closed) ==> closed) && processed == old(processed)
          invariant ErrorIn(EventsOf(encoded)) ==> ErrorIn(log)
          invariant !closed ==> EventsOf(encoded) == log + events[..k]
        {
          ErrorAppend(EventsOf(encoded), [events[k]]);
          ErrorOne(events[k]);
          assert log + events[..k] + [events[k]] == log + events[..k + 1];
          var ok := EncodeAndSend(events[k], false);
          if !ok {
            return;
          }
          k := k + 1;
        }
        assert events[..k] == events;
      }
    }

    /** The terminal events, after everything else, and the end marker unless an error was shown. */
    method SendTerminals()
      requires LogOk() && |terminalEvents| <= 1 && !upstreamFailed
      modifies this`e, this`encoded, this`closed, this`doneSent
      ensures old(closed) ==> closed
      ensures EventsOf(encoded) == EventsOf(old(encoded)) + terminalEvents
      ensures doneSent <==> !closed && !sawErrorEvent
      ensures ErrorShown(encoded) <==> ErrorShown(old(encoded))
    {
      hide ErrorShown, EventsOf;
      if terminalEvents != [] {
        var event := terminalEvents[0];
        var (e', lines) := encoder.encode(e, event);
        e := e';
        LogAppend(encoded, event, lines);
        encoded := encoded + [(event, lines)];
        var ok := SendLines(lines);
        assert terminalEvents == [event];
      } else {
        assert EventsOf(encoded) + [] == EventsOf(encoded);
      }
      if !sawErrorEvent {
        if * {
          closed := true;
        }
        doneSent := !closed;
      }
    }

    /** A stop or an error given to the encoder is one the decoder made of the payloads processed. */
    ghost predicate StopsAreDecoded()
      reads this
    {
      && (NoStop(EventsOf(encoded)) || Stops(AllDecoded()) != [])
      && (ErrorIn(EventsOf(encoded)) ==> ErrorIn(AllDecoded()))
    }

    /** Everything after the loop, in the order the source fixes: framing, decoder, restorer, stop. */
    method Terminate()
      requires Valid() && Safe()
      modifies Footprint()
      ensures (old(closed) ==> closed) && upstreamFailed == old(upstreamFailed)
      ensures StopOnlyLast(EventsOf(encoded))
      ensures upstreamFailed ==> NoStop(EventsOf(encoded)) && !doneSent
      ensures ErrorShown(encoded) ==> !doneSent
      ensures GuardOk(old(GuardNow())) && old(Synced()) ==> StopsAreDecoded()
      ensures GuardOk(old(GuardNow())) && old(Synced()) && !closed && !upstreamFailed ==>
                var held := Sse.FinishSpec(old(framing.dataLines));
                var payloads := old(processed) + (if held == [DONE] then [] else held);
                && EventsOf(encoded) == RelaySpec(decoder, d0, old(GuardNow()), payloads)
                && (doneSent <==> !ErrorShown(encoded))
      ensures GuardOk(old(GuardNow())) && old(Synced()) && !closed && upstreamFailed ==>
                var held := Sse.FinishSpec(old(framing.dataLines));
                var payloads := old(processed) + (if held == [DONE] then [] else held);
                EventsOf(encoded) == CutSpec(decoder, d0, old(GuardNow()), payloads)
    {
      hide StreamRestorer.Valid, StreamRestorer.State, VaultOk, DecoderOk, Sse.Framing.Valid;
      hide RestoreSeq, Stops, Content, DecodeAll, ErrorShown, NoStop, AllStops, EventsOf, Flush, StopOnlyLast;
      hide ErrorIn;
      StopLastCases(EventsOf(encoded), []);
      assert EventsOf(encoded) + [] == EventsOf(encoded);
      if * {
        closed := true;
      }
      if closed {
        ErrorAppend(Decoded(), decoder.finish(DecodeAll(decoder, d0, processed).0).1);
        return;
      }
      FlushFraming();
      ErrorAppend(Decoded(), decoder.finish(DecodeAll(decoder, d0, processed).0).1);
      if !upstreamFailed {
        FinishDecoder();
      }
      FlushRestorer();
      ghost var content := EventsOf(encoded);
      StopLastCases(content, []);
      assert content + [] == content;
      if !upstreamFailed {
        StopLastCases(content, terminalEvents);
        StopsAreNoErrors(content, terminalEvents);
        SendTerminals();
      }
    }

    /** One chunk: every payload it completes, up to an end marker or the client's leaving. */
    method TakeChunk(bytes: Text) returns (go: bool)
      requires Valid() && Safe()
      modifies Footprint()
      ensures Valid() && Safe() && GuardNow() == old(GuardNow()) && GuardOk(GuardNow())
      ensures fresh(Footprint() - old(Footprint()))
      ensures (old(closed) ==> closed) && upstreamFailed == old(upstreamFailed)
      ensures var (data, buffer, outs) := Sse.PushSpec(old(framing.buffer), old(framing.dataLines), bytes);
              && framing.dataLines == data && framing.buffer == buffer
              && (go ==> DONE !in outs) && (!go ==> closed || DONE in outs)
              && (closed || processed == old(processed) + UpToDone(outs))
      ensures GuardOk(old(GuardNow())) && old(Synced()) ==> Synced()
    {
      hide StreamRestorer.Valid, StreamRestorer.State, EventUtf8, VaultOk, Sse.Framing.Valid;
      hide RestoreSeq, Stops, Content, ValidUtf8, DecodeAll, ErrorShown, NoStop, AllStops, EventsOf, DecoderOk;
      hide Sse.PushSpec;
      GuardIsOk();
      var payloads := framing.Push(bytes);
      ghost var data, buffer := framing.dataLines, framing.buffer;
      var k := 0;
      assert processed + [] == processed && payloads[..0] == [];
      while k < |payloads|
        invariant 0 <= k <= |payloads|
        invariant Valid() && Safe() && GuardNow() == old(GuardNow()) && GuardOk(GuardNow())
        invariant fresh(Footprint() - old(Footprint()))
        invariant (old(closed) ==> closed) && upstreamFailed == old(upstreamFailed)
        invariant framing.dataLines == data && framing.buffer == buffer
        invariant DONE !in payloads[..k] && processed == old(processed) + payloads[..k]
        invariant old(Synced()) ==> Synced()
      {
        if payloads[k] == DONE {
          UpToDoneAt(payloads, k);
          return false;
        }
        assert old(processed) + payloads[..k] + [payloads[k]] == old(processed) + payloads[..k + 1];
        assert payloads[..k + 1] == payloads[..k] + [payloads[k]];
        var ok := ProcessPayload(payloads[k]);
        if !ok {
          return false;
        }
        k := k + 1;
      }
      assert payloads[..k] == payloads;
      UpToDoneConcat(payloads, []);
      return true;
    }

    /** A relay that has read nothing yet. */
    ghost predicate Fresh()
      reads this, restorer, Footprint()
    {
      && processed == [] && encoded == [] && terminalEvents == [] && d == d0 && !closed && !upstreamFailed
      && framing.buffer == [] && framing.dataLines == [] && TailsNow() == NO_TAILS
    }

    /** `handle_streaming_response`: the relay loop and the terminal flush.

        Safety, over every interleaving of chunks, upstream errors, idle timeouts and client
        disconnects: a MessageStop is the last event encoded, so there is at most one and no content
        follows it; after a transport failure or timeout neither a stop nor the end marker is sent;
        after an error that showed the end marker is not sent.

        Content, on every run on which the client stays, if the bytes that arrived are under the cap and no
        payload follows an end marker in them: the encoder is given exactly what the simple
        specification of those bytes yields, all of it when the stream ended, everything but the
        decoder's end and the stop when it was cut off.

        End to end, when only chunks arrive and the whole stream is such: the same of the whole stream,
        however it was cut into chunks. */
    method Run(steps: seq<Step>) returns (read: nat)
      requires Valid() && Safe() && Fresh()
      modifies Footprint()
      ensures read <= |steps| && (upstreamFailed <==> read > 0 && Fails(steps[read - 1]))
      ensures StopOnlyLast(EventsOf(encoded))
      ensures upstreamFailed ==> NoStop(EventsOf(encoded)) && !doneSent
      ensures ErrorShown(encoded) ==> !doneSent
      ensures GuardOk(old(GuardNow())) && StopsAreDecoded()
      ensures !closed && CleanStream(Concat(BytesOf(Arrived(steps, read)))) ==>
                var payloads := UpToDone(Sse.StreamPayloads(Concat(BytesOf(Arrived(steps, read)))));
                && EventsOf(encoded) == (if upstreamFailed then CutSpec(decoder, d0, old(GuardNow()), payloads)
                                         else RelaySpec(decoder, d0, old(GuardNow()), payloads))
                && (doneSent <==> !upstreamFailed && !ErrorShown(encoded))
      ensures !closed && AllChunks(steps) && CleanStream(Concat(BytesOf(steps))) ==>
                && EventsOf(encoded) == RelaySpec(decoder, d0, old(GuardNow()),
                                                  UpToDone(Sse.StreamPayloads(Concat(BytesOf(steps)))))
                && (doneSent <==> !ErrorShown(encoded))
    {
      hide StreamRestorer.Valid, StreamRestorer.State, EventUtf8, VaultOk, Sse.Framing.Valid;
      hide Content, Stops, ValidUtf8, ErrorShown, NoStop, AllStops, EventsOf, DecoderOk, CleanStream;
      hide Sse.PushSpec, Sse.StreamPayloads, Sse.PushAll, Sse.FinishSpec, StopOnlyLast, RelaySpec, Safe, Synced;
      hide StopsAreDecoded, UpToDone, Valid, GuardNow, CutSpec;
      GuardIsOk();
      StartsSynced();
      read := ReadStream(steps);
      ghost var arrived := Arrived(steps, read);
      assert arrived[..|arrived|] == arrived;
      if CleanStream(Concat(BytesOf(arrived))) {
        PayloadsOfRun(arrived, |arrived|);
      }
      if AllChunks(steps) && CleanStream(Concat(BytesOf(steps))) && !closed {
        PayloadsOfRun(steps, read);
      }
      Terminate();
    }

    /** What has been read of a stream of chunks: framing is in step with the bytes, and every payload
        before an end marker has been processed unless the client has gone. */
    ghost predicate InStep(chunks: seq<Step>, running: bool)
      reads this, framing
    {
      && AllChunks(chunks)
      && var (data, buffer, pushed) := Sse.PushAll([], [], BytesOf(chunks));
         && framing.dataLines == data && framing.buffer == buffer
         && (closed || processed == UpToDone(pushed))
         && (running ==> DONE !in pushed)
    }

    /** The relay loop. */
    method ReadStream(steps: seq<Step>) returns (read: nat)
      requires Valid() && Safe() && Fresh() && GuardOk(GuardNow()) && Synced()
      modifies Footprint()
      ensures Valid() && Safe() && GuardNow() == old(GuardNow()) && GuardOk(GuardNow()) && Synced()
      ensures fresh(Footprint() - old(Footprint()))
      ensures read <= |steps| && (upstreamFailed <==> read > 0 && Fails(steps[read - 1]))
      ensures InStep(Arrived(steps, read), false)
      ensures !closed ==> read == |steps| || (read > 0 && !steps[read - 1].ChunkArrives?)
                          || DONE in Sse.PushAll([], [], BytesOf(steps[..read])).2
    {
      hide StreamRestorer.Valid, StreamRestorer.State, VaultOk, Sse.Framing.Valid, Sse.PushAll, Sse.PushSpec, UpToDone;
      hide DecoderOk, Safe, Synced, Valid, GuardNow;
      read := 0;
      var running := true;
      NothingPushed();
      assert BytesOf(steps[..0]) == [] && Arrived(steps, 0) == steps[..0];
      while running
        invariant 0 <= read <= |steps|
        invariant Valid() && Safe() && GuardNow() == old(GuardNow()) && GuardOk(GuardNow()) && Synced()
        invariant fresh(Footprint() - old(Footprint()))
        invariant upstreamFailed <==> read > 0 && Fails(steps[read - 1])
        invariant running ==> !upstreamFailed && InStep(steps[..read], true)
        invariant InStep(Arrived(steps, read), false)
        invariant !running && !closed ==> read == |steps| || (read > 0 && !steps[read - 1].ChunkArrives?)
                                          || DONE in Sse.PushAll([], [], BytesOf(steps[..read])).2
        decreases running, |steps| - read
      {
        if read == |steps| {
          running := false;
        } else {
          running := TakeStep(steps, read);
          read := read + 1;
        }
      }
    }

    /** One turn of the loop. */
    method TakeStep(steps: seq<Step>, read: nat) returns (running: bool)
      requires Valid() && Safe() && GuardOk(GuardNow()) && Synced() && !upstreamFailed
      requires read < |steps| && InStep(steps[..read], true)
      modifies Footprint()
      ensures Valid() && Safe() && GuardNow() == old(GuardNow()) && GuardOk(GuardNow()) && Synced()
      ensures fresh(Footprint() - old(Footprint()))
      ensures (upstreamFailed <==> Fails(steps[read])) && (running ==> steps[read].ChunkArrives?)
      ensures InStep(Arrived(steps, read + 1), running)
      ensures !running && !closed ==> !steps[read].ChunkArrives?
                                      || DONE in Sse.PushAll([], [], BytesOf(steps[..read + 1])).2
    {
      hide StreamRestorer.Valid, StreamRestorer.State, VaultOk, Sse.Framing.Valid, Sse.PushAll, Sse.PushSpec, UpToDone;
      hide DecoderOk, Safe, Synced, Valid, GuardNow, AllChunks;
      ChunksStep(steps, read, framing.buffer, framing.dataLines);
      running := false;
      match steps[read] {
        case ClientCloses =>
          LeaveLoop(false, true);
        case ChunkArrives(bytes) =>
          running := TakeChunk(bytes);
        case UpstreamEnds =>
        case _ =>
          LeaveLoop(true, false);
      }
    }

    /** The loop ends: the upstream failed or stalled, or the client has disconnected. */
    method LeaveLoop(failed: bool, gone: bool)
      requires Valid() && Safe() && GuardOk(GuardNow()) && Synced()
      modifies this`upstreamFailed, this`clientGone, this`closed
      ensures Valid() && Safe() && GuardNow() == old(GuardNow()) && GuardOk(GuardNow()) && Synced()
      ensures Footprint() == old(Footprint())
      ensures upstreamFailed == (old(upstreamFailed) || failed) && closed == (old(closed) || gone)
    {
      hide StreamRestorer.Valid, StreamRestorer.State, VaultOk, Sse.Framing.Valid, DecoderOk;
      hide RestoreSeq, Content, Stops, DecodeAll, ErrorShown, NoStop, AllStops, EventsOf;
      if failed {
        upstreamFailed := true;
      }
      if gone {
        clientGone, closed := true, true;
      }
    }

    lemma {:induction false} StartsSynced()
      requires Valid() && Fresh() && GuardOk(GuardNow())
      ensures Synced()
    {
      hide StreamRestorer.Valid;
      RestoreSeqNone(GuardNow());
      SplitNone();
    }

    /** Encode one event other than a stop, log it, flag it if it is an error that shows, send it. */
    method EncodeAndSend(event: Event, flagErrors: bool) returns (ok: bool)
      requires !event.MessageStop? && NoStop(EventsOf(encoded)) && (flagErrors || !event.Error?)
      requires sawErrorEvent <==> ErrorShown(encoded)
      modifies this`e, this`encoded, this`sawErrorEvent, this`closed
      ensures EventsOf(encoded) == EventsOf(old(encoded)) + [event] && NoStop(EventsOf(encoded))
      ensures sawErrorEvent <==> ErrorShown(encoded)
      ensures (old(closed) ==> closed) && (ok || closed)
    {
      hide ErrorShown, EventsOf;
      var (e', lines) := encoder.encode(e, event);
      e := e';
      LogAppend(encoded, event, lines);
      encoded := encoded + [(event, lines)];
      if flagErrors && event.Error? && lines != [] {
        sawErrorEvent := true;
      }
      ok := SendLines(lines);
    }
  }

  predicate ErrorIn(es: seq<Event>) { exists x | 0 <= x < |es| :: es[x].Error? }

  lemma {:induction false} ErrorAppend(a: seq<Event>, b: seq<Event>)
    ensures ErrorIn(a + b) <==> ErrorIn(a) || ErrorIn(b)
  {
    if x :| 0 <= x < |a| && a[x].Error? {
      assert (a + b)[x] == a[x];
    }
    if x :| 0 <= x < |b| && b[x].Error? {
      assert (a + b)[|a| + x] == b[x];
    }
    if x :| 0 <= x < |a + b| && (a + b)[x].Error? {
      assert if x < |a| then a[x].Error? else b[x - |a|].Error?;
    }
  }

  lemma {:induction false} StopsAreNoErrors(content: seq<Event>, stops: seq<Event>)
    requires AllStops(stops)
    ensures ErrorIn(content + stops) ==> ErrorIn(content)
  {
    ErrorAppend(content, stops);
  }

  lemma {:induction false} ErrorOne(e: Event)
    ensures ErrorIn([e]) <==> e.Error?
  {
    assert [e][0] == e;
  }

  lemma {:induction false} StopsStep(es: seq<Event>, k: nat)
    requires k < |es|
    ensures |Stops(es[k..])| == (if es[k].MessageStop? then 1 else 0) + |Stops(es[k + 1..])|
    ensures es[k].MessageStop? ==> Stops(es) != []
  {
    assert es[k..][1..] == es[k + 1..];
    assert es == es[..k] + es[k..];
    StopsConcat(es[..k], es[k..]);
  }

  /** A stop is the last event, so there is at most one and nothing follows it. */
  predicate StopOnlyLast(es: seq<Event>) {
    forall i | 0 <= i < |es| && es[i].MessageStop? :: i == |es| - 1
  }

  lemma {:induction false} StopLastCases(content: seq<Event>, stops: seq<Event>)
    requires NoStop(content) && |stops| <= 1
    ensures StopOnlyLast(content + stops)
  {
  }

  /** The payloads before the end marker. */
  function UpToDone(ps: seq<Text>): seq<Text> {
    if ps == [] || ps[0] == DONE then [] else [ps[0]] + UpToDone(ps[1..])
  }

  lemma {:induction false} UpToDoneConcat(a: seq<Text>, b: seq<Text>)
    ensures DONE !in a ==> UpToDone(a) == a && UpToDone(a + b) == a + UpToDone(b)
    ensures DONE in a ==> UpToDone(a + b) == UpToDone(a)
  {
    if a == [] {
      assert a + b == b;
    } else {
      assert (a + b)[1..] == a[1..] + b && a == [a[0]] + a[1..];
      UpToDoneConcat(a[1..], b);
    }
  }

  lemma {:induction false} UpToDoneAt(ps: seq<Text>, k: nat)
    requires k < |ps| && DONE !in ps[..k] && ps[k] == DONE
    ensures UpToDone(ps) == ps[..k] && DONE in ps
  {
    assert ps == ps[..k] + ps[k..];
    UpToDoneConcat(ps[..k], ps[k..]);
    assert UpToDone(ps[k..]) == [];
    assert ps[..k] + [] == ps[..k];
  }

  predicate AllChunks(steps: seq<Step>) { forall i | 0 <= i < |steps| :: steps[i].ChunkArrives? }

  function BytesOf(steps: seq<Step>): (cs: seq<Text>)
    ensures |cs| == |steps|
    ensures forall i | 0 <= i < |steps| && steps[i].ChunkArrives? :: cs[i] == steps[i].bytes
  {
    seq(|steps|, i requires 0 <= i < |steps| => if steps[i].ChunkArrives? then steps[i].bytes else [])
  }

  /** Under the cap, and no payload follows an end marker. */
  predicate CleanStream(s: Text) {
    && |s| <= Sse.MAX_BUFFER_BYTES
    && var ps := Sse.StreamPayloads(s);
       forall i | 0 <= i < |ps| && ps[i] == DONE :: i == |ps| - 1
  }

  lemma {:induction false} RestoreSeqNone(g: Guard)
    requires GuardOk(g)
    ensures RestoreSeq(g, NO_TAILS, []) == (NO_TAILS, [])
  {
  }

  lemma {:induction false} NothingPushed()
    ensures Sse.PushAll([], [], []) == ([], [], []) && UpToDone([]) == []
  {
  }

  /** One more chunk read. */
  lemma {:induction false} ChunksStep(steps: seq<Step>, read: nat, buffer: Text, data: Text)
    requires read < |steps|
    ensures AllChunks(steps[..read + 1]) <==> AllChunks(steps[..read]) && steps[read].ChunkArrives?
    ensures AllChunks(steps[..read + 1]) ==>
              var (data0, buffer0, pushed) := Sse.PushAll([], [], BytesOf(steps[..read]));
              data0 == data && buffer0 == buffer && DONE !in pushed ==>
                var (data1, buffer1, outs) := Sse.PushSpec(buffer, data, steps[read].bytes);
                && Sse.PushAll([], [], BytesOf(steps[..read + 1])) == (data1, buffer1, pushed + outs)
                && UpToDone(pushed + outs) == UpToDone(pushed) + UpToDone(outs)
  {
    hide Sse.PushAll, Sse.PushSpec;
    assert steps[..read + 1] == steps[..read] + [steps[read]];
    if AllChunks(steps[..read + 1]) {
      var cs, c := BytesOf(steps[..read]), steps[read].bytes;
      assert BytesOf(steps[..read + 1]) == cs + [c];
      Sse.PushAllConcat([], [], cs, [c]);
      PushOne(buffer, data, c);
      var pushed := Sse.PushAll([], [], cs).2;
      UpToDoneConcat(pushed, Sse.PushSpec(buffer, data, c).2);
    }
  }

  lemma {:induction false} PushOne(buffer: Text, data: Text, c: Text)
    ensures Sse.PushAll(buffer, data, [c]) == Sse.PushSpec(buffer, data, c)
  {
    hide Sse.PushSpec;
    assert [c][1..] == [];
    var outs := Sse.PushSpec(buffer, data, c).2;
    assert outs + [] == outs;
  }

  /** When reading stopped at the end of the stream or at an end marker, the payloads processed
      and the one framing still holds are the stream's payloads before its end marker. */
  lemma {:induction false} PayloadsOfRun(steps: seq<Step>, read: nat)
    requires read <= |steps| && AllChunks(steps) && CleanStream(Concat(BytesOf(steps)))
    requires read == |steps| || DONE in Sse.PushAll([], [], BytesOf(steps[..read])).2
    ensures var (data, buffer, pushed) := Sse.PushAll([], [], BytesOf(steps[..read]));
            var held := Sse.FinishSpec(data);
            UpToDone(pushed) + (if held == [DONE] then [] else held)
            == UpToDone(Sse.StreamPayloads(Concat(BytesOf(steps))))
  {
    hide Sse.PushAll, Sse.StreamPayloads, UpToDone, Sse.RunLines;
    var a, b := BytesOf(steps[..read]), BytesOf(steps[read..]);
    var all := BytesOf(steps);
    assert all == a + b;
    ConcatAppend(a, b);
    var (data, buffer, pushed) := Sse.PushAll([], [], a);
    var (data', buffer', more) := Sse.PushAll(buffer, data, b);
    Sse.PushAllConcat([], [], a, b);
    Sse.FramingMeetsSpec(all);
    var held, flush := Sse.FinishSpec(data), Sse.FinishSpec(data');
    var ps := Sse.StreamPayloads(Concat(all));
    assert ps == pushed + (more + flush);
    if DONE in pushed {
      var k :| 0 <= k < |pushed| && pushed[k] == DONE;
      assert ps[k] == DONE;
      assert more + flush == [];
      NothingPending(a, b);
      UpToDoneConcat(pushed, []);
      assert pushed + [] == pushed && UpToDone(pushed) + [] == UpToDone(pushed);
    } else {
      assert b == [];
      PushNone(buffer, data);
      assert ps == pushed + held;
      UpToDoneConcat(pushed, held);
      UpToDoneHeld(held);
    }
  }

  lemma {:induction false} PushNone(buffer: Text, data: Text)
    ensures Sse.PushAll(buffer, data, []) == (data, buffer, [])
  {
  }

  lemma {:induction false} UpToDoneHeld(held: seq<Text>)
    requires |held| <= 1
    ensures UpToDone(held) == if held == [DONE] then [] else held
  {
    if |held| == 1 {
      assert held[1..] == [] && held == [held[0]];
    }
  }

  /** If nothing more comes out of a stream, nothing was pending. */
  lemma {:induction false} NothingPending(a: seq<Text>, b: seq<Text>)
    requires |Concat(a + b)| <= Sse.MAX_BUFFER_BYTES
    requires var (data, buffer, pushed) := Sse.PushAll([], [], a);
             var (data', buffer', more) := Sse.PushAll(buffer, data, b);
             more + Sse.FinishSpec(data') == []
    ensures Sse.FinishSpec(Sse.PushAll([], [], a).0) == []
  {
    hide Sse.PushAll, Sse.RunLines;
    ConcatAppend(a, b);
    Sse.PushesAreOneRead([], [], a);
    assert [] + Concat(a) == Concat(a);
    Sse.RunLinesSize([], Concat(a));
    Sse.RestHasNoLf([], Concat(a));
    var (data, buffer, pushed) := Sse.PushAll([], [], a);
    Sse.PushesAreOneRead(buffer, data, b);
    if data != [] {
      Sse.PendingSurfaces(data, buffer + Concat(b));
    }
  }

  /** The restorer's flush is content: no stop and no error. */
  lemma {:induction false} FlushHasOnlyDeltas(st: Tails)
    ensures forall x | x in FinishSpec(st) :: !x.MessageStop? && !x.Error?
  {
    Ordered.AscendingMembers(st.tools.Keys);
    FlushToolsAreCalls(st.tools, Ordered.Ascending(st.tools.Keys));
  }

  lemma {:induction false} FlushToolsAreCalls(tools: map<nat, Text>, indices: seq<nat>)
    requires forall x | 0 <= x < |indices| :: indices[x] in tools
    ensures forall x | x in FlushTools(tools, indices) :: x.ToolCallDelta?
  {
    if indices != [] {
      FlushToolsAreCalls(tools, indices[1..]);
    }
  }

  lemma {:induction false} AllStopsAppend(es: seq<Event>, e: Event)
    requires AllStops(es) && e.MessageStop?
    ensures AllStops(es + [e])
  {
  }

  /** Restoring never turns an event into one of another kind, and leaves stops alone. */
  lemma {:induction false} KindSurvives(g: Guard, st: Tails, e: Event)
    requires GuardOk(g)
    ensures var r := RestoreOne(g, st, e).1;
            && (e.MessageStop? ==> r == Some(e))
            && (r.Some? ==> (r.value.MessageStop? <==> e.MessageStop?) && (r.value.Error? <==> e.Error?))
  {
  }

  /** What one more event adds to the content and to the waiting stops. */
  lemma {:induction false} StepOutputs(g: Guard, es: seq<Event>, e: Event, st: Tails)
    requires GuardOk(g)
    ensures var (st0, outs) := RestoreSeq(g, NO_TAILS, es);
            var (st1, r) := RestoreOne(g, st, e);
            var (st2, outs') := RestoreSeq(g, NO_TAILS, es + [e]);
            st0 == st ==>
              && st2 == st1
              && Content(outs') == Content(outs) + (if r.Some? && !r.value.MessageStop? then [r.value] else [])
              && Stops(outs') == Stops(outs) + (if r.Some? && r.value.MessageStop? then [r.value] else [])
  {
    hide RestoreOne, RestoreSeq, Content, Stops;
    var (st0, outs) := RestoreSeq(g, NO_TAILS, es);
    RestoreSeqConcat(g, NO_TAILS, es, [e]);
    RestoreSeqOne(g, st0, e);
    var r := RestoreOne(g, st0, e).1;
    var more := if r.Some? then [r.value] else [];
    ContentConcat(outs, more);
    StopsConcat(outs, more);
    SplitNone();
    if r.Some? {
      SplitOne(r.value);
    }
  }

  lemma {:induction false} SplitNone()
    ensures Stops([]) == [] && Content([]) == []
  {
  }

  lemma {:induction false} LogAppend(log: seq<(Event, seq<Text>)>, e: Event, lines: seq<Text>)
    ensures EventsOf(log + [(e, lines)]) == EventsOf(log) + [e]
    ensures ErrorShown(log + [(e, lines)]) <==> ErrorShown(log) || (e.Error? && lines != [])
  {
    var more := log + [(e, lines)];
    if ErrorShown(log) {
      var i :| 0 <= i < |log| && log[i].0.Error? && log[i].1 != [];
      assert more[i] == log[i];
    }
    if e.Error? && lines != [] {
      assert more[|log|] == (e, lines);
    }
  }
}
