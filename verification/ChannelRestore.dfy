/** One restorer per channel: text, reasoning, and each tool call's arguments
    (src/core/privacy.rs, `StreamRestorer`). */
module ChannelRestore {
  import opened Bytes
  import opened TokenSearch
  import opened Vault
  import opened JsonString
  import opened StreamingRestore
  import opened Neutral
  import opened Ordered

  /** The tails held back on every channel. */
  datatype Tails = Tails(text: Text, reasoning: Text, tools: map<nat, Text>)

  const NO_TAILS := Tails([], [], map[])

  datatype Channel = TextChannel | ReasoningChannel | ToolChannel(index: nat)

  function Held(st: Tails, c: Channel): Text {
    match c
    case TextChannel => st.text
    case ReasoningChannel => st.reasoning
    case ToolChannel(i) => if i in st.tools then st.tools[i] else []
  }

  /** What a channel's originals are spliced as. */
  function ChannelVault(v: map<Text, Text>, c: Channel): map<Text, Text> {
    Spliced(c.ToolChannel?, v)
  }

  // ----- what `restore_event` and `finish` compute -----

  ghost predicate VaultOk(v: map<Text, Text>, m: nat) {
    AllShaped(v.Keys) && m >= 1 && forall k | k in v.Keys :: |k| <= m
  }

  ghost function RestoreEventSpec(v: map<Text, Text>, m: nat, st: Tails, e: Event): (Tails, Option<Event>)
    requires VaultOk(v, m)
  {
    match e
    case TextDelta(t) =>
      var (o, held) := FeedSpec(v, m, st.text, t);
      (st.(text := held), if o == [] then None else Some(TextDelta(o)))
    case ReasoningDelta(t) =>
      var (o, held) := FeedSpec(v, m, st.reasoning, t);
      (st.(reasoning := held), if o == [] then None else Some(ReasoningDelta(o)))
    case ToolCallDelta(i, id, name, args) =>
      var (o, held) := FeedSpec(EscapedOriginals(v), m, Held(st, ToolChannel(i)), args);
      (st.(tools := st.tools[i := held]),
       if o == [] && id == "" && name == "" then None else Some(ToolCallDelta(i, id, name, o)))
    case Error(err) => (st, Some(Error(Api(Restore(v, Display(err))))))
    case _ => (st, Some(e))
  }

  function FlushTools(tools: map<nat, Text>, indices: seq<nat>): seq<Event>
    requires forall x | 0 <= x < |indices| :: indices[x] in tools
  {
    if indices == [] then []
    else
      var i := indices[0];
      (if tools[i] == [] then [] else [ToolCallDelta(i, "", "", tools[i])]) + FlushTools(tools, indices[1..])
  }

  function FlushPlain(st: Tails): seq<Event> {
    (if st.text == [] then [] else [TextDelta(st.text)])
    + (if st.reasoning == [] then [] else [ReasoningDelta(st.reasoning)])
  }

  /** The tails of the calls in `indices`, in ascending index order. */
  ghost function FlushAscending(tools: map<nat, Text>, indices: set<nat>): seq<Event>
    requires indices <= tools.Keys
  {
    AscendingMembers(indices);
    FlushTools(tools, Ascending(indices))
  }

  ghost function FinishSpec(st: Tails): seq<Event> {
    FlushPlain(st) + FlushAscending(st.tools, st.tools.Keys)
  }

  ghost function RestoreAll(v: map<Text, Text>, m: nat, st: Tails, es: seq<Event>): (Tails, seq<Event>)
    requires VaultOk(v, m)
    decreases |es|
  {
    if es == [] then (st, [])
    else
      var (st1, r) := RestoreEventSpec(v, m, st, es[0]);
      var (st2, more) := RestoreAll(v, m, st1, es[1..]);
      (st2, (if r.Some? then [r.value] else []) + more)
  }

  // ----- channels do not bleed -----

  /** What an event adds to a channel. */
  function Payload(c: Channel, e: Event): Text {
    if e.TextDelta? && c.TextChannel? then e.text
    else if e.ReasoningDelta? && c.ReasoningChannel? then e.reasoning
    else if e.ToolCallDelta? && c == ToolChannel(e.index) then e.arguments
    else []
  }

  function ChannelText(c: Channel, es: seq<Event>): Text {
    if es == [] then [] else Payload(c, es[0]) + ChannelText(c, es[1..])
  }

  lemma {:induction false} ChannelTextConcat(c: Channel, a: seq<Event>, b: seq<Event>)
    ensures ChannelText(c, a + b) == ChannelText(c, a) + ChannelText(c, b)
  {
    hide Payload;
    if a == [] {
      assert a + b == b;
    } else {
      var head := Payload(c, a[0]);
      ChannelTextConcat(c, a[1..], b);
      assert (a + b)[1..] == a[1..] + b;
      assert ChannelText(c, a + b) == head + ChannelText(c, (a + b)[1..]);
      Assoc(head, ChannelText(c, a[1..]), ChannelText(c, b));
    }
  }

  lemma {:induction false} ChannelTextOne(c: Channel, e: Event)
    ensures ChannelText(c, [e]) == Payload(c, e)
  {
    assert [e][1..] == [];
  }

  ghost predicate TailsOk(v: map<Text, Text>, st: Tails) {
    forall c :: NoHits(v.Keys, Held(st, c))
  }

  function Emitted(c: Channel, r: Option<Event>): Text { if r.Some? then Payload(c, r.value) else [] }

  lemma {:induction false} SplicedOk(v: map<Text, Text>, m: nat, c: Channel)
    requires VaultOk(v, m)
    ensures VaultOk(ChannelVault(v, c), m) && ChannelVault(v, c).Keys == v.Keys
  {
  }

  predicate IsDelta(e: Event) { e.TextDelta? || e.ReasoningDelta? || e.ToolCallDelta? }

  function ChannelOf(e: Event): Channel
    requires IsDelta(e)
  {
    if e.TextDelta? then TextChannel else if e.ReasoningDelta? then ReasoningChannel
    else ToolChannel(e.index)
  }

  /** A delta is one feed of its own channel and leaves every other channel alone. */
  lemma {:induction false} EventIsOneFeed(v: map<Text, Text>, m: nat, st: Tails, e: Event, c: Channel)
    requires VaultOk(v, m)
    ensures AllShaped(ChannelVault(v, c).Keys)
    ensures var (st', r) := RestoreEventSpec(v, m, st, e);
            if IsDelta(e) && ChannelOf(e) == c then
              (Emitted(c, r), Held(st', c)) == FeedSpec(ChannelVault(v, c), m, Held(st, c), Payload(c, e))
            else
              Emitted(c, r) == [] && Held(st', c) == Held(st, c) && Payload(c, e) == []
  {
    hide Restore, FeedSpec, EscapedOriginals, AllShaped;
    assert AllShaped(EscapedOriginals(v).Keys) by { SplicedOk(v, m, ToolChannel(0)); }
  }

  /** One event: on every channel, what comes out and what is held account for what went in. */
  lemma {:induction false} EventOk(v: map<Text, Text>, m: nat, st: Tails, e: Event, c: Channel, x: Text)
    requires VaultOk(v, m)
    ensures VaultOk(ChannelVault(v, c), m)
    ensures var (st', r) := RestoreEventSpec(v, m, st, e);
            Emitted(c, r) + Restore(ChannelVault(v, c), Held(st', c) + x)
            == Restore(ChannelVault(v, c), Held(st, c) + Payload(c, e) + x)
  {
    hide Restore, FeedSpec, RestoreEventSpec, Emitted, Held, Payload;
    SplicedOk(v, m, c);
    EventIsOneFeed(v, m, st, e, c);
    if IsDelta(e) && ChannelOf(e) == c {
      FeedOk(ChannelVault(v, c), m, Held(st, c), Payload(c, e), x);
    } else {
      assert Held(st, c) + [] + x == Held(st, c) + x;
      var rest := Restore(ChannelVault(v, c), Held(st, c) + x);
      assert [] + rest == rest;
    }
  }

  lemma {:induction false} EventKeepsTails(v: map<Text, Text>, m: nat, st: Tails, e: Event)
    requires VaultOk(v, m) && TailsOk(v, st)
    ensures TailsOk(v, RestoreEventSpec(v, m, st, e).0)
  {
    hide FeedSpec, NoHits, RestoreEventSpec, Held, Payload;
    var st' := RestoreEventSpec(v, m, st, e).0;
    forall c ensures NoHits(v.Keys, Held(st', c)) {
      SplicedOk(v, m, c);
      EventIsOneFeed(v, m, st, e, c);
      FeedNoHits(ChannelVault(v, c), m, Held(st, c), Payload(c, e));
      assert NoHits(v.Keys, Held(st, c));
    }
  }

  lemma {:induction false} EventsOk(v: map<Text, Text>, m: nat, st: Tails, es: seq<Event>, c: Channel)
    requires VaultOk(v, m) && TailsOk(v, st)
    ensures VaultOk(ChannelVault(v, c), m)
    ensures var (st', outs) := RestoreAll(v, m, st, es);
            && TailsOk(v, st')
            && ChannelText(c, outs) + Restore(ChannelVault(v, c), Held(st', c))
               == Restore(ChannelVault(v, c), Held(st, c) + ChannelText(c, es))
    decreases |es|
  {
    hide Restore, RestoreEventSpec, Payload, Held, TailsOk;
    SplicedOk(v, m, c);
    var w := ChannelVault(v, c);
    if es == [] {
      assert Held(st, c) + [] == Held(st, c);
      assert [] + Restore(w, Held(st, c)) == Restore(w, Held(st, c));
    } else {
      var (st1, r) := RestoreEventSpec(v, m, st, es[0]);
      var (st2, more) := RestoreAll(v, m, st1, es[1..]);
      var rest := ChannelText(c, es[1..]);
      EventOk(v, m, st, es[0], c, rest);
      EventKeepsTails(v, m, st, es[0]);
      EventsOk(v, m, st1, es[1..], c);
      var first := if r.Some? then [r.value] else [];
      ChannelTextConcat(c, first, more);
      if r.Some? {
        ChannelTextOne(c, r.value);
      }
      var tail := Restore(w, Held(st2, c));
      assert ChannelText(c, first) == Emitted(c, r);
      Assoc(Emitted(c, r), ChannelText(c, more), tail);
      Assoc(Held(st, c), Payload(c, es[0]), rest);
    }
  }

  lemma {:induction false} NoChannelText(c: Channel)
    ensures ChannelText(c, []) == []
  {
  }

  lemma {:induction false} FlushToolsText(tools: map<nat, Text>, indices: seq<nat>, c: Channel)
    requires forall x | 0 <= x < |indices| :: indices[x] in tools
    requires forall x, y | 0 <= x < y < |indices| :: indices[x] != indices[y]
    ensures ChannelText(c, FlushTools(tools, indices))
            == if c.ToolChannel? && c.index in indices then tools[c.index] else []
  {
    hide ChannelText;
    if indices == [] {
      NoChannelText(c);
    } else {
      var i := indices[0];
      FlushToolsText(tools, indices[1..], c);
      var first := if tools[i] == [] then [] else [ToolCallDelta(i, "", "", tools[i])];
      ChannelTextConcat(c, first, FlushTools(tools, indices[1..]));
      NoChannelText(c);
      if tools[i] != [] {
        ChannelTextOne(c, ToolCallDelta(i, "", "", tools[i]));
      }
      assert indices == [i] + indices[1..];
      assert i !in indices[1..];
    }
  }

  lemma {:induction false} FlushPlainText(st: Tails, c: Channel)
    ensures ChannelText(c, FlushPlain(st)) == if c.ToolChannel? then [] else Held(st, c)
  {
    var t := if st.text == [] then [] else [TextDelta(st.text)];
    var r := if st.reasoning == [] then [] else [ReasoningDelta(st.reasoning)];
    ChannelTextConcat(c, t, r);
    ChannelTextOne(c, TextDelta(st.text));
    ChannelTextOne(c, ReasoningDelta(st.reasoning));
  }

  /** The flush emits exactly what each channel still holds. */
  lemma {:induction false} FinishText(st: Tails, c: Channel)
    ensures ChannelText(c, FinishSpec(st)) == Held(st, c)
  {
    hide Ascending, FlushTools, FlushPlain, ChannelText;
    AscendingMembers(st.tools.Keys);
    ChannelTextConcat(c, FlushPlain(st), FlushTools(st.tools, Ascending(st.tools.Keys)));
    FlushPlainText(st, c);
    FlushToolsText(st.tools, Ascending(st.tools.Keys), c);
  }

  /** Channels do not bleed: for every event sequence and every channel, the restored deltas and
      the final flush concatenate to the one-shot restore of that channel's own text. */
  lemma {:induction false} ChannelsDoNotBleed(v: map<Text, Text>, m: nat, es: seq<Event>, c: Channel)
    requires VaultOk(v, m)
    ensures AllShaped(ChannelVault(v, c).Keys)
    ensures var (st, outs) := RestoreAll(v, m, NO_TAILS, es);
            ChannelText(c, outs + FinishSpec(st)) == Restore(ChannelVault(v, c), ChannelText(c, es))
  {
    hide Restore, RestoreAll, FinishSpec;
    SplicedOk(v, m, c);
    assert TailsOk(v, NO_TAILS) by { EmptyHasNoHits(v.Keys); }
    EventsOk(v, m, NO_TAILS, es, c);
    var (st, outs) := RestoreAll(v, m, NO_TAILS, es);
    ChannelTextConcat(c, outs, FinishSpec(st));
    FinishText(st, c);
    RestoreNothing(ChannelVault(v, c), Held(st, c));
    assert [] + ChannelText(c, es) == ChannelText(c, es);
  }

  // ----- everything that is not text passes through -----

  /** The part of an event that restoring must not touch: call ids and names, starts, stops,
      signatures, and errors (whose message is restored in one shot). */
  ghost function Marks(v: map<Text, Text>, e: Event): seq<Event>
    requires AllShaped(v.Keys)
  {
    match e
    case TextDelta(_) => []
    case ReasoningDelta(_) => []
    case ToolCallDelta(i, id, name, _) => if id == "" && name == "" then [] else [ToolCallDelta(i, id, name, [])]
    case Error(err) => [Error(Api(Restore(v, Display(err))))]
    case _ => [e]
  }

  function OutMarks(e: Event): seq<Event> {
    match e
    case TextDelta(_) => []
    case ReasoningDelta(_) => []
    case ToolCallDelta(i, id, name, _) => if id == "" && name == "" then [] else [ToolCallDelta(i, id, name, [])]
    case _ => [e]
  }

  ghost function AllMarks(v: map<Text, Text>, es: seq<Event>): seq<Event>
    requires AllShaped(v.Keys)
  {
    if es == [] then [] else Marks(v, es[0]) + AllMarks(v, es[1..])
  }

  function AllOutMarks(es: seq<Event>): seq<Event> {
    if es == [] then [] else OutMarks(es[0]) + AllOutMarks(es[1..])
  }

  lemma {:induction false} OutMarksConcat(a: seq<Event>, b: seq<Event>)
    ensures AllOutMarks(a + b) == AllOutMarks(a) + AllOutMarks(b)
  {
    hide OutMarks;
    if a == [] {
      assert a + b == b;
    } else {
      var head := OutMarks(a[0]);
      OutMarksConcat(a[1..], b);
      assert (a + b)[1..] == a[1..] + b;
      assert AllOutMarks(a + b) == head + AllOutMarks((a + b)[1..]);
      Assoc(head, AllOutMarks(a[1..]), AllOutMarks(b));
    }
  }

  lemma {:induction false} OutMarksOne(e: Event)
    ensures AllOutMarks([e]) == OutMarks(e)
  {
    assert [e][1..] == [];
  }

  lemma {:induction false} FlushToolsUnmarked(tools: map<nat, Text>, indices: seq<nat>)
    requires forall x | 0 <= x < |indices| :: indices[x] in tools
    ensures AllOutMarks(FlushTools(tools, indices)) == []
  {
    if indices != [] {
      FlushToolsUnmarked(tools, indices[1..]);
      var i := indices[0];
      var first := if tools[i] == [] then [] else [ToolCallDelta(i, "", "", tools[i])];
      OutMarksConcat(first, FlushTools(tools, indices[1..]));
      OutMarksOne(ToolCallDelta(i, "", "", tools[i]));
    }
  }

  lemma {:induction false} FinishUnmarked(st: Tails)
    ensures AllOutMarks(FinishSpec(st)) == []
  {
    hide Ascending, FlushTools;
    AscendingMembers(st.tools.Keys);
    var t := if st.text == [] then [] else [TextDelta(st.text)];
    var r := if st.reasoning == [] then [] else [ReasoningDelta(st.reasoning)];
    OutMarksConcat(t, r);
    OutMarksOne(TextDelta(st.text));
    OutMarksOne(ReasoningDelta(st.reasoning));
    OutMarksConcat(FlushPlain(st), FlushTools(st.tools, Ascending(st.tools.Keys)));
    FlushToolsUnmarked(st.tools, Ascending(st.tools.Keys));
  }

  lemma {:induction false} EventMarks(v: map<Text, Text>, m: nat, st: Tails, e: Event)
    requires VaultOk(v, m)
    ensures var r := RestoreEventSpec(v, m, st, e).1;
            (if r.Some? then OutMarks(r.value) else []) == Marks(v, e)
  {
    hide Restore, FeedSpec, EscapedOriginals;
  }

  lemma {:induction false} AllEventMarks(v: map<Text, Text>, m: nat, st: Tails, es: seq<Event>)
    requires VaultOk(v, m)
    ensures AllOutMarks(RestoreAll(v, m, st, es).1) == AllMarks(v, es)
    decreases |es|
  {
    hide RestoreEventSpec, OutMarks, Marks;
    if es != [] {
      var (st1, r) := RestoreEventSpec(v, m, st, es[0]);
      EventMarks(v, m, st, es[0]);
      AllEventMarks(v, m, st1, es[1..]);
      OutMarksConcat(if r.Some? then [r.value] else [], RestoreAll(v, m, st1, es[1..]).1);
      if r.Some? {
        OutMarksOne(r.value);
      }
    }
  }

  /** Every id, name, start, stop, signature and error passes through, in order, exactly once. */
  lemma {:induction false} MarksPassThrough(v: map<Text, Text>, m: nat, st: Tails, es: seq<Event>)
    requires VaultOk(v, m)
    ensures var (st', outs) := RestoreAll(v, m, st, es);
            AllOutMarks(outs + FinishSpec(st')) == AllMarks(v, es)
  {
    hide RestoreAll, FinishSpec, AllOutMarks, AllMarks;
    AllEventMarks(v, m, st, es);
    var (st', outs) := RestoreAll(v, m, st, es);
    FinishUnmarked(st');
    OutMarksConcat(outs, FinishSpec(st'));
  }

  // ----- the object -----

  /** `StreamRestorer`. */
  class StreamRestorer {
    const session: RedactionSession
    const text: RestoreStream
    const reasoning: RestoreStream
    var toolArgs: map<nat, RestoreStream>

    ghost predicate Owns(rs: RestoreStream, json: bool)
      reads rs, session
    {
      rs.session == session && rs.jsonEscape == json && rs.Valid()
    }

    ghost predicate Valid()
      reads this, session, text, reasoning, toolArgs.Values
    {
      && Owns(text, false) && Owns(reasoning, false) && text != reasoning
      && (forall i | i in toolArgs :: Owns(toolArgs[i], true) && toolArgs[i] != text && toolArgs[i] != reasoning)
      && (forall i, j | i in toolArgs && j in toolArgs && i != j :: toolArgs[i] != toolArgs[j])
    }

    ghost function State(): Tails
      reads this, text, reasoning, toolArgs.Values
    {
      Tails(text.buffer, reasoning.buffer, map i | i in toolArgs :: toolArgs[i].buffer)
    }

    constructor (session: RedactionSession)
      requires session.Valid()
      ensures Valid() && this.session == session && State() == NO_TAILS
      ensures fresh(text) && fresh(reasoning) && toolArgs == map[]
    {
      this.session := session;
      text := new RestoreStream(session, false);
      reasoning := new RestoreStream(session, false);
      toolArgs := map[];
    }

    lemma {:induction false} VaultIsOk()
      requires Valid()
      ensures VaultOk(session.tokenToOriginal, session.engine.maxTokenLen)
    {
      VaultTokensFit(session.engine, session.State());
    }

    /** `tool_args.entry(index).or_insert_with(...)`. */
    method ToolStream(index: nat) returns (rs: RestoreStream)
      requires Valid()
      modifies this
      ensures Valid() && index in toolArgs && toolArgs[index] == rs
      ensures fresh(toolArgs.Values - old(toolArgs.Values))
      ensures rs.buffer == Held(old(State()), ToolChannel(index))
      ensures State() == old(State()).(tools := old(State()).tools[index := rs.buffer])
    {
      hide ValidUtf8, RedactionSession.Valid;
      if index !in toolArgs {
        rs := new RestoreStream(session, true);
        toolArgs := toolArgs[index := rs];
      } else {
        rs := toolArgs[index];
      }
    }

    /** A fragment for an index whose stream exists. */
    method FeedOpened(index: nat, fragment: Text) returns (restored: Text)
      requires Valid() && ValidUtf8(fragment) && index in toolArgs
      modifies toolArgs[index], session`automaton
      ensures Valid() && session.State() == old(session.State())
      ensures VaultOk(session.tokenToOriginal, session.engine.maxTokenLen)
      ensures var (o, held) := FeedSpec(Spliced(true, session.tokenToOriginal), session.engine.maxTokenLen,
                                        old(toolArgs[index].buffer), fragment);
              restored == o && State() == old(State()).(tools := old(State()).tools[index := held])
    {
      hide FeedSpec, ValidUtf8, HeldTailOk, AllShaped, EscapedOriginals, VaultOk, Held, Spliced;
      hide RedactionSession.Valid;
      VaultIsOk();
      restored := toolArgs[index].Feed(fragment);
      assert State().tools == old(State()).tools[index := toolArgs[index].buffer];
    }

    method FeedTool(index: nat, fragment: Text) returns (restored: Text)
      requires Valid() && ValidUtf8(fragment)
      modifies this, toolArgs.Values, session`automaton
      ensures Valid() && session.State() == old(session.State())
      ensures fresh(toolArgs.Values - old(toolArgs.Values))
      ensures VaultOk(session.tokenToOriginal, session.engine.maxTokenLen)
      ensures var (o, held) := FeedSpec(Spliced(true, session.tokenToOriginal), session.engine.maxTokenLen,
                                        Held(old(State()), ToolChannel(index)), fragment);
              restored == o && State() == old(State()).(tools := old(State()).tools[index := held])
    {
      hide FeedSpec, ValidUtf8, RedactionSession.Valid, VaultOk, Held, Spliced, Valid;
      VaultIsOk();
      var rs := ToolStream(index);
      restored := FeedOpened(index, fragment);
    }

    /** `restore_event`. */
    method RestoreEvent(e: Event) returns (r: Option<Event>)
      requires Valid() && EventUtf8(e)
      modifies this, text, reasoning, toolArgs.Values, session`automaton
      ensures Valid() && session.State() == old(session.State())
      ensures fresh(toolArgs.Values - old(toolArgs.Values))
      ensures VaultOk(session.tokenToOriginal, session.engine.maxTokenLen)
      ensures (State(), r) == RestoreEventSpec(session.tokenToOriginal, session.engine.maxTokenLen, old(State()), e)
    {
      hide FeedSpec, ValidUtf8, HeldTailOk, AllShaped, Restore, RedactionSession.Valid, VaultOk, EscapedOriginals;
      VaultIsOk();
      match e {
        case TextDelta(t) =>
          var restored := text.Feed(t);
          r := if restored == [] then None else Some(TextDelta(restored));
          assert State().tools == old(State()).tools;
        case ReasoningDelta(t) =>
          var restored := reasoning.Feed(t);
          r := if restored == [] then None else Some(ReasoningDelta(restored));
          assert State().tools == old(State()).tools;
        case ToolCallDelta(index, id, name, args) =>
          var restored := FeedTool(index, args);
          r := if restored == [] && id == "" && name == "" then None
               else Some(ToolCallDelta(index, id, name, restored));
        case Error(err) =>
          var message := session.Restored(Display(err));
          r := Some(Error(Api(message)));
        case _ =>
          r := Some(e);
      }
    }

    /** `finish`: what every channel still holds, tool calls in ascending index order. */
    method Finish() returns (events: seq<Event>)
      requires Valid()
      modifies this, text, reasoning, toolArgs.Values
      ensures Valid() && State() == NO_TAILS && toolArgs == map[]
      ensures events == FinishSpec(old(State()))
    {
      hide VaultInv, ValidEngine, ValidUtf8;
      ghost var st := State();
      events := [];
      var tail := text.Finish();
      if tail != [] {
        events := events + [TextDelta(tail)];
      }
      tail := reasoning.Finish();
      if tail != [] {
        events := events + [ReasoningDelta(tail)];
      }
      assert events == FlushPlain(st) && State().tools == st.tools;
      var flushed := DrainTools();
      events := events + flushed;
    }

    method DrainTools() returns (events: seq<Event>)
      requires Valid()
      modifies this, toolArgs.Values
      ensures Valid() && toolArgs == map[]
      ensures text.buffer == old(text.buffer) && reasoning.buffer == old(reasoning.buffer)
      ensures events == FlushAscending(old(State()).tools, old(State()).tools.Keys)
    {
      hide ValidUtf8, FlushAscending, RedactionSession.Valid;
      ghost var tails := State().tools;
      events := [];
      var rest := toolArgs.Keys;
      assert tails.Keys == rest;
      while rest != {}
        invariant Valid() && rest <= tails.Keys == toolArgs.Keys && toolArgs == old(toolArgs)
        invariant text.buffer == old(text.buffer) && reasoning.buffer == old(reasoning.buffer)
        invariant forall i | i in rest :: toolArgs[i].buffer == tails[i]
        invariant events + FlushAscending(tails, rest) == FlushAscending(tails, tails.Keys)
        decreases rest
      {
        var i := LeastOf(rest);
        FlushStep(tails, rest, i);
        var tail := toolArgs[i].Finish();
        if tail != [] {
          events := events + [ToolCallDelta(i, "", "", tail)];
        }
        rest := rest - {i};
      }
      FlushNothing(tails);
      toolArgs := map[];
    }
  }

  lemma {:induction false} FlushNothing(tails: map<nat, Text>)
    ensures FlushAscending(tails, {}) == []
  {
  }

  lemma {:induction false} FlushStep(tails: map<nat, Text>, rest: set<nat>, i: nat)
    requires rest <= tails.Keys && IsLeast(rest, i)
    ensures FlushAscending(tails, rest)
            == (if tails[i] == [] then [] else [ToolCallDelta(i, "", "", tails[i])])
               + FlushAscending(tails, rest - {i})
  {
    LeastUnique(rest, i);
    AscendingMembers(rest);
    AscendingMembers(rest - {i});
    assert Ascending(rest)[1..] == Ascending(rest - {i});
  }

  // ----- the order of the flush -----

  /** Text first, then reasoning, then the calls in ascending index order. */
  predicate FlushedBefore(a: Event, b: Event) {
    || (a.TextDelta? && (b.ReasoningDelta? || b.ToolCallDelta?))
    || (a.ReasoningDelta? && b.ToolCallDelta?)
    || (a.ToolCallDelta? && b.ToolCallDelta? && a.index < b.index)
  }

  predicate IsToolOf(e: Event, indices: seq<nat>) { e.ToolCallDelta? && e.index in indices }

  lemma {:induction false} ToolsAscend(tools: map<nat, Text>, indices: seq<nat>)
    requires forall x | 0 <= x < |indices| :: indices[x] in tools
    requires forall x, y | 0 <= x < y < |indices| :: indices[x] < indices[y]
    ensures forall x | 0 <= x < |FlushTools(tools, indices)| :: IsToolOf(FlushTools(tools, indices)[x], indices)
    ensures forall x, y | 0 <= x < y < |FlushTools(tools, indices)| ::
              FlushedBefore(FlushTools(tools, indices)[x], FlushTools(tools, indices)[y])
  {
    if indices != [] {
      var all, rest := FlushTools(tools, indices), FlushTools(tools, indices[1..]);
      ToolsAscend(tools, indices[1..]);
      forall x | 0 <= x < |rest| ensures IsToolOf(rest[x], indices) && indices[0] < rest[x].index {
        assert IsToolOf(rest[x], indices[1..]);
        var y :| 0 <= y < |indices[1..]| && indices[1..][y] == rest[x].index;
        assert indices[y + 1] == rest[x].index;
      }
      var n := |all| - |rest|;
      assert forall x | n <= x < |all| :: all[x] == rest[x - n];
      forall x, y | 0 <= x < y < |all| ensures FlushedBefore(all[x], all[y]) {
        assert all[y] == rest[y - n];
        if x >= n {
          assert all[x] == rest[x - n];
        }
      }
    }
  }

  /** The flushed events come in that order. */
  lemma {:induction false} FlushIsOrdered(st: Tails)
    ensures forall x, y | 0 <= x < y < |FinishSpec(st)| :: FlushedBefore(FinishSpec(st)[x], FinishSpec(st)[y])
  {
    hide FlushPlain, FlushTools, FlushedBefore;
    AscendingMembers(st.tools.Keys);
    var indices := Ascending(st.tools.Keys);
    ToolsAscend(st.tools, indices);
    PlainAscends(st);
    OrderedOnBothSides(FlushPlain(st), FlushTools(st.tools, indices), indices);
  }

  lemma {:induction false} PlainAscends(st: Tails)
    ensures |FlushPlain(st)| <= 2
    ensures forall x | 0 <= x < |FlushPlain(st)| :: IsPlain(FlushPlain(st)[x])
    ensures forall x, y | 0 <= x < y < |FlushPlain(st)| :: FlushedBefore(FlushPlain(st)[x], FlushPlain(st)[y])
  {
  }

  predicate IsPlain(e: Event) { e.TextDelta? || e.ReasoningDelta? }

  lemma {:induction false} OrderedOnBothSides(plain: seq<Event>, tools: seq<Event>, indices: seq<nat>)
    requires forall x | 0 <= x < |plain| :: IsPlain(plain[x])
    requires forall x | 0 <= x < |tools| :: IsToolOf(tools[x], indices)
    requires forall x, y | 0 <= x < y < |plain| :: FlushedBefore(plain[x], plain[y])
    requires forall x, y | 0 <= x < y < |tools| :: FlushedBefore(tools[x], tools[y])
    ensures var all := plain + tools;
            forall x, y | 0 <= x < y < |all| :: FlushedBefore(all[x], all[y])
  {
    hide FlushedBefore;
    var all := plain + tools;
    forall x, y | 0 <= x < y < |all| ensures FlushedBefore(all[x], all[y]) {
      if y < |plain| {
        assert all[x] == plain[x] && all[y] == plain[y];
      } else if x >= |plain| {
        assert all[x] == tools[x - |plain|] && all[y] == tools[y - |plain|];
      } else {
        assert IsPlain(plain[x]) && IsToolOf(tools[y - |plain|], indices);
        PlainBeforeTool(plain[x], tools[y - |plain|]);
      }
    }
  }

  lemma {:induction false} PlainBeforeTool(a: Event, b: Event)
    requires IsPlain(a) && b.ToolCallDelta?
    ensures FlushedBefore(a, b)
  {
  }
}
