/** Tool calls and results through the Gemini request format (src/adapters/gemini/convert.rs,
    `serialize_request`, `serialize_part`, `parse_content`, `parse_part`). */
module GeminiTools {
  import opened Bytes
  import opened TokenGrammar
  import opened Messages
  import opened GeminiStream

  // ----- wire contents -----

  /** A `functionResponse`'s payload: a bare string, the gateway's own wrapper, or any other JSON. */
  datatype Reply = Bare(text: string) | Wrapped(result: string, isError: Option<bool>) | OtherJson(printed: string)

  datatype Part =
    | PText(text: string)
    | PThought(thought: string)
    | PInline(mimeType: string, data: string)
    | PCall(callId: Option<string>, callName: string, args: Option<Value>)
    | PResponse(responseId: Option<string>, responseName: Option<string>, response: Reply)

  /** One entry of `contents`: role `user` or `model`. */
  datatype Content = Content(fromUser: bool, parts: seq<Part>)

  // ----- the correlation pre-pass -----

  /** A call's key and function name. */
  type Call = (string, string)

  predicate IdLess(b: Block) { b.ToolUse? && b.id == "" }

  /** Id-less calls among some blocks. */
  function Count(blocks: seq<Block>): nat {
    if blocks == [] then 0
    else Count(blocks[..|blocks| - 1]) + (if IdLess(blocks[|blocks| - 1]) then 1 else 0)
  }

  function CountAll(msgs: seq<Message>): nat {
    if msgs == [] then 0 else CountAll(msgs[..|msgs| - 1]) + Count(msgs[|msgs| - 1].content)
  }

  /** A call's id, or the next id minted from the request-scoped counter. */
  function KeyOf(b: Block, n: nat): string
    requires b.ToolUse?
  {
    if b.id == "" then MintedId(n + 1) else b.id
  }

  function Calls(blocks: seq<Block>, n: nat): seq<Call> {
    if blocks == [] then []
    else
      var front, b := blocks[..|blocks| - 1], blocks[|blocks| - 1];
      Calls(front, n) + (if b.ToolUse? then [(KeyOf(b, n + Count(front)), b.name)] else [])
  }

  function AllCalls(msgs: seq<Message>): seq<Call> {
    if msgs == [] then []
    else
      var front := msgs[..|msgs| - 1];
      AllCalls(front) + Calls(msgs[|msgs| - 1].content, CountAll(front))
  }

  /** `call_names` and `id_by_name`: the first call of each id, the first call of each name. */
  datatype Names = Names(callNames: map<string, string>, idByName: map<string, string>)

  function Learn(ns: Names, c: Call): Names {
    Names(if c.0 in ns.callNames then ns.callNames else ns.callNames[c.0 := c.1],
          if c.1 in ns.idByName then ns.idByName else ns.idByName[c.1 := c.0])
  }

  function LearnAll(calls: seq<Call>): Names {
    if calls == [] then Names(map[], map[])
    else Learn(LearnAll(calls[..|calls| - 1]), calls[|calls| - 1])
  }

  // ----- serializing -----

  /** The id and name a result is sent with: by id, else by function name, else as it is. */
  function Correlate(ns: Names, t: string): (Option<string>, string) {
    if t in ns.callNames then (Some(t), ns.callNames[t])
    else if t in ns.idByName then (Some(ns.idByName[t]), t)
    else (None, t)
  }

  /** `serialize_part`, with the id the pre-pass synthesized for an id-less call. */
  function PartOf(b: Block, n: nat): seq<Part> {
    match b
    case TextBlock(t) => [PText(t)]
    case Image(m, d) => [PInline(m, d)]
    case Thinking(t, _) => [PThought(t)]
    case ToolUse(_, name, input) => [PCall(Some(KeyOf(b, n)), name, Some(input))]
    case ToolResult(_, _, _) => []
    case RedactedThinking(_) => []
  }

  function Parts(blocks: seq<Block>, n: nat): seq<Part> {
    if blocks == [] then []
    else
      var front := blocks[..|blocks| - 1];
      Parts(front, n) + PartOf(blocks[|blocks| - 1], n + Count(front))
  }

  function ResultPart(b: Block, ns: Names): seq<Part> {
    if b.ToolResult? then
      var (id, name) := Correlate(ns, b.toolUseId);
      [PResponse(id, Some(name), Wrapped(b.content, Some(b.isError)))]
    else []
  }

  function ResultParts(blocks: seq<Block>, ns: Names): seq<Part> {
    if blocks == [] then []
    else ResultParts(blocks[..|blocks| - 1], ns) + ResultPart(blocks[|blocks| - 1], ns)
  }

  function ContentOf(fromUser: bool, parts: seq<Part>): seq<Content> {
    if parts == [] then [] else [Content(fromUser, parts)]
  }

  function MessageContents(m: Message, n: nat, ns: Names): seq<Content> {
    match m.role
    case System => []
    case User => ContentOf(true, Parts(m.content, n))
    case Assistant => ContentOf(false, Parts(m.content, n))
    case Tool => ContentOf(true, ResultParts(m.content, ns))
  }

  function Contents(msgs: seq<Message>, ns: Names): seq<Content> {
    if msgs == [] then []
    else
      var front := msgs[..|msgs| - 1];
      Contents(front, ns) + MessageContents(msgs[|msgs| - 1], CountAll(front), ns)
  }

  /** `serialize_request`: the `contents` array. */
  function Serialize(msgs: seq<Message>): seq<Content> { Contents(msgs, LearnAll(AllCalls(msgs))) }

  // ----- parsing -----

  function ParsePart(p: Part, n: nat): (nat, Block) {
    match p
    case PText(t) => (n, TextBlock(t))
    case PThought(t) => (n, Thinking(t, None))
    case PInline(m, d) => (n, Image(m, d))
    case PCall(id, name, args) =>
      var input := if args.Some? then args.value else Obj(map[]);
      if id.Some? && id.value != "" then (n, ToolUse(id.value, name, input))
      else (n + 1, ToolUse(MintedId(n + 1), name, input))
    case PResponse(id, name, response) =>
      var t := if id.Some? && id.value != "" then id.value else if name.Some? then name.value else "";
      (n, match response
          case Bare(s) => ToolResult(t, s, false)
          case Wrapped(s, e) => ToolResult(t, s, e.Some? && e.value)
          case OtherJson(s) => ToolResult(t, s, false))
  }

  function ParseParts(ps: seq<Part>, n: nat): (nat, seq<Block>) {
    if ps == [] then (n, [])
    else
      var (n1, bs) := ParseParts(ps[..|ps| - 1], n);
      var (n2, b) := ParsePart(ps[|ps| - 1], n1);
      (n2, bs + [b])
  }

  function Results(bs: seq<Block>): seq<Block> {
    if bs == [] then []
    else Results(bs[..|bs| - 1]) + (if bs[|bs| - 1].ToolResult? then [bs[|bs| - 1]] else [])
  }

  function Others(bs: seq<Block>): seq<Block> {
    if bs == [] then []
    else Others(bs[..|bs| - 1]) + (if bs[|bs| - 1].ToolResult? then [] else [bs[|bs| - 1]])
  }

  /** `parse_content`: results inside a user message become a tool message of their own. */
  function ParseContent(c: Content, n: nat): (nat, seq<Message>) {
    var (n1, bs) := ParseParts(c.parts, n);
    if c.fromUser && Results(bs) != [] then
      (n1, [Message(Tool, Results(bs))] + (if Others(bs) == [] then [] else [Message(User, Others(bs))]))
    else (n1, [Message(if c.fromUser then User else Assistant, bs)])
  }

  function ParseContents(cs: seq<Content>, n: nat): (nat, seq<Message>) {
    if cs == [] then (n, [])
    else
      var (n1, ms) := ParseContents(cs[..|cs| - 1], n);
      var (n2, more) := ParseContent(cs[|cs| - 1], n1);
      (n2, ms + more)
  }

  function Parse(cs: seq<Content>): seq<Message> { ParseContents(cs, 0).1 }

  // ----- what serialized contents look like -----

  predicate ReadyCall(p: Part) { p.PCall? ==> p.callId.Some? && p.callId.value != "" && p.args.Some? }

  /** A response as `serialize_request` writes one. */
  predicate ReadyResponse(p: Part) {
    && p.PResponse? && p.responseName.Some? && p.response.Wrapped? && p.response.isError.Some?
    && (p.responseId.Some? ==> p.responseId.value != "")
  }

  predicate SpokenParts(ps: seq<Part>) { forall i | 0 <= i < |ps| :: !ps[i].PResponse? && ReadyCall(ps[i]) }

  predicate ResponseParts(ps: seq<Part>) { forall i | 0 <= i < |ps| :: ReadyResponse(ps[i]) }

  predicate ReadyContent(c: Content) {
    c.parts != [] && (SpokenParts(c.parts) || (c.fromUser && ResponseParts(c.parts)))
  }

  predicate Ready(cs: seq<Content>) { forall i | 0 <= i < |cs| :: ReadyContent(cs[i]) }

  predicate NoEmptyIds(ns: Names) {
    "" !in ns.callNames && forall t | t in ns.idByName :: ns.idByName[t] != ""
  }

  predicate NoEmptyKeys(calls: seq<Call>) { forall i | 0 <= i < |calls| :: calls[i].0 != "" }

  lemma {:induction false} PartsAreSpoken(blocks: seq<Block>, n: nat)
    ensures SpokenParts(Parts(blocks, n))
  {
    if blocks != [] {
      PartsAreSpoken(blocks[..|blocks| - 1], n);
    }
  }

  lemma {:induction false} ResultPartsAreResponses(blocks: seq<Block>, ns: Names)
    requires NoEmptyIds(ns)
    ensures ResponseParts(ResultParts(blocks, ns))
  {
    if blocks != [] {
      ResultPartsAreResponses(blocks[..|blocks| - 1], ns);
    }
  }

  lemma {:induction false} ContentsAreReady(msgs: seq<Message>, ns: Names)
    requires NoEmptyIds(ns)
    ensures Ready(Contents(msgs, ns))
  {
    hide NoEmptyIds, SpokenParts, ResponseParts, Parts, ResultParts, CountAll;
    if msgs != [] {
      var front, m := msgs[..|msgs| - 1], msgs[|msgs| - 1];
      ContentsAreReady(front, ns);
      PartsAreSpoken(m.content, CountAll(front));
      ResultPartsAreResponses(m.content, ns);
    }
  }

  lemma {:induction false} CallsHaveKeys(blocks: seq<Block>, n: nat)
    ensures NoEmptyKeys(Calls(blocks, n))
  {
    if blocks != [] {
      CallsHaveKeys(blocks[..|blocks| - 1], n);
    }
  }

  lemma {:induction false} AllCallsHaveKeys(msgs: seq<Message>)
    ensures NoEmptyKeys(AllCalls(msgs))
  {
    if msgs != [] {
      var front := msgs[..|msgs| - 1];
      AllCallsHaveKeys(front);
      CallsHaveKeys(msgs[|msgs| - 1].content, CountAll(front));
    }
  }

  lemma {:induction false} NamesHaveKeys(calls: seq<Call>)
    requires NoEmptyKeys(calls)
    ensures NoEmptyIds(LearnAll(calls))
  {
    if calls != [] {
      NamesHaveKeys(calls[..|calls| - 1]);
    }
  }

  // ----- one content through parse and serialize -----

  /** The calls a list of parts carries. */
  function CallsIn(ps: seq<Part>): seq<Call> {
    if ps == [] then []
    else
      var p := ps[|ps| - 1];
      CallsIn(ps[..|ps| - 1])
      + (if p.PCall? && p.callId.Some? then [(p.callId.value, p.callName)] else [])
  }

  function CallsInAll(cs: seq<Content>): seq<Call> {
    if cs == [] then [] else CallsInAll(cs[..|cs| - 1]) + CallsIn(cs[|cs| - 1].parts)
  }

  /** What one more block adds. */
  lemma {:induction false} AppendBlock(bs: seq<Block>, b: Block, j: nat)
    ensures Parts(bs + [b], j) == Parts(bs, j) + PartOf(b, j + Count(bs))
    ensures Calls(bs + [b], j) == Calls(bs, j) + (if b.ToolUse? then [(KeyOf(b, j + Count(bs)), b.name)] else [])
    ensures Count(bs + [b]) == Count(bs) + (if IdLess(b) then 1 else 0)
    ensures Results(bs + [b]) == Results(bs) + (if b.ToolResult? then [b] else [])
    ensures Others(bs + [b]) == Others(bs) + (if b.ToolResult? then [] else [b])
  {
    hide PartOf, KeyOf, IdLess;
    assert (bs + [b])[..|bs|] == bs;
  }

  /** What a spoken part adds is that part again. */
  lemma {:induction false} SpokenPartRoundTrip(p: Part, k: nat, j: nat)
    requires !p.PResponse? && ReadyCall(p)
    ensures var (k', b) := ParsePart(p, k);
            && k' == k && PartOf(b, j) == [p] && !b.ToolResult? && !IdLess(b)
            && (b.ToolUse? <==> p.PCall?) && (b.ToolUse? ==> (KeyOf(b, j), b.name) == (p.callId.value, p.callName))
  {
  }

  lemma {:induction false} SpokenRoundTrip(ps: seq<Part>, k: nat, j: nat)
    requires SpokenParts(ps)
    ensures var (k', bs) := ParseParts(ps, k);
            && k' == k && Parts(bs, j) == ps && Calls(bs, j) == CallsIn(ps) && Count(bs) == 0
            && Results(bs) == [] && |bs| == |ps|
  {
    hide ParsePart, PartOf, KeyOf, IdLess;
    if ps != [] {
      var front, p := ps[..|ps| - 1], ps[|ps| - 1];
      SpokenRoundTrip(front, k, j);
      var bs := ParseParts(front, k).1;
      SpokenPartRoundTrip(p, k, j);
      AppendBlock(bs, ParsePart(p, k).1, j);
      assert ps == front + [p];
      assert ReadyCall(p);
    }
  }

  /** A response serialized again after being parsed. */
  function Again(p: Part, ns: Names): Part
    requires ReadyResponse(p)
  {
    var t := if p.responseId.Some? then p.responseId.value else p.responseName.value;
    var (id, name) := Correlate(ns, t);
    PResponse(id, Some(name), p.response)
  }

  function AgainAll(ps: seq<Part>, ns: Names): seq<Part>
    requires ResponseParts(ps)
  {
    if ps == [] then [] else AgainAll(ps[..|ps| - 1], ns) + [Again(ps[|ps| - 1], ns)]
  }

  lemma {:induction false} ResponseRoundTrip(p: Part, k: nat, ns: Names)
    requires ReadyResponse(p)
    ensures var (k', b) := ParsePart(p, k);
            k' == k && b.ToolResult? && ResultPart(b, ns) == [Again(p, ns)] && !p.PCall? && !IdLess(b)
  {
  }

  lemma {:induction false} ResponsesRoundTrip(ps: seq<Part>, k: nat, ns: Names)
    requires ResponseParts(ps)
    ensures var (k', bs) := ParseParts(ps, k);
            && k' == k && ResultParts(bs, ns) == AgainAll(ps, ns) && Results(bs) == bs && Others(bs) == []
            && |bs| == |ps| && Count(bs) == 0 && (forall j :: Calls(bs, j) == []) && CallsIn(ps) == []
  {
    hide ParsePart, PartOf, KeyOf, IdLess, ResultPart, Again, ReadyResponse;
    if ps != [] {
      var front, p := ps[..|ps| - 1], ps[|ps| - 1];
      ResponsesRoundTrip(front, k, ns);
      var (k1, bs) := ParseParts(front, k);
      var b := ParsePart(p, k1).1;
      ResponseRoundTrip(p, k1, ns);
      assert (bs + [b])[..|bs|] == bs;
      forall j ensures Calls(bs + [b], j) == [] {
        AppendBlock(bs, b, j);
      }
      AppendBlock(bs, b, 0);
    }
  }

  /** A ready content parses to one message, which says the same again. */
  function AgainContent(c: Content, ns: Names): Content
    requires ReadyContent(c)
  {
    if SpokenParts(c.parts) then c else Content(true, AgainAll(c.parts, ns))
  }

  lemma {:induction false} ContentRoundTrip(c: Content, k: nat, j: nat, ns: Names)
    requires ReadyContent(c)
    ensures var (k', ms) := ParseContent(c, k);
            && k' == k && |ms| == 1 && Count(ms[0].content) == 0
            && Calls(ms[0].content, j) == CallsIn(c.parts)
            && MessageContents(ms[0], j, ns) == [AgainContent(c, ns)]
  {
    hide ParseParts, Parts, ResultParts, Calls, Count, CallsIn, Results, Others, AgainAll, ReadyResponse, ReadyCall;
    if SpokenParts(c.parts) {
      SpokenRoundTrip(c.parts, k, j);
    } else {
      ResponsesRoundTrip(c.parts, k, ns);
      AgainLength(c.parts, ns);
      var bs := ParseParts(c.parts, k).1;
      assert Results(bs) != [];
      assert ParseContent(c, k).1 == [Message(Tool, bs)];
    }
  }

  lemma {:induction false} AgainLength(ps: seq<Part>, ns: Names)
    requires ResponseParts(ps)
    ensures |AgainAll(ps, ns)| == |ps|
    ensures forall i | 0 <= i < |ps| :: AgainAll(ps, ns)[i] == Again(ps[i], ns)
  {
    if ps != [] {
      AgainLength(ps[..|ps| - 1], ns);
    }
  }

  function AgainContents(cs: seq<Content>, ns: Names): (r: seq<Content>)
    requires Ready(cs)
    ensures |r| == |cs| && forall i | 0 <= i < |cs| :: r[i] == AgainContent(cs[i], ns)
  {
    seq(|cs|, i requires 0 <= i < |cs| => AgainContent(cs[i], ns))
  }

  lemma {:induction false} AppendMessage(ms: seq<Message>, m: Message, ns: Names)
    ensures CountAll(ms + [m]) == CountAll(ms) + Count(m.content)
    ensures AllCalls(ms + [m]) == AllCalls(ms) + Calls(m.content, CountAll(ms))
    ensures Contents(ms + [m], ns) == Contents(ms, ns) + MessageContents(m, CountAll(ms), ns)
  {
    hide Count, Calls, MessageContents;
    assert (ms + [m])[..|ms|] == ms;
  }

  lemma {:induction false} ContentsRoundTrip(cs: seq<Content>, ns: Names)
    requires Ready(cs)
    ensures var (k, ms) := ParseContents(cs, 0);
            && k == 0 && CountAll(ms) == 0 && AllCalls(ms) == CallsInAll(cs)
            && Contents(ms, ns) == AgainContents(cs, ns)
  {
    hide ParseContent, MessageContents, Calls, Count, CallsIn, ReadyContent, AgainContent;
    if cs != [] {
      var front, c := cs[..|cs| - 1], cs[|cs| - 1];
      ContentsRoundTrip(front, ns);
      var ms := ParseContents(front, 0).1;
      ContentRoundTrip(c, 0, 0, ns);
      var m := ParseContent(c, 0).1[0];
      assert ParseContent(c, 0).1 == [m];
      AppendMessage(ms, m, ns);
      assert AgainContents(cs, ns) == AgainContents(front, ns) + [AgainContent(c, ns)];
    }
  }

  // ----- the calls survive -----

  /** Calls stand only in user and assistant messages. */
  predicate CallsInPlace(msgs: seq<Message>) {
    forall i | 0 <= i < |msgs| && (msgs[i].role == System || msgs[i].role == Tool) ::
      forall b | b in msgs[i].content :: !b.ToolUse?
  }

  lemma {:induction false} NoCallsHere(blocks: seq<Block>, n: nat)
    requires forall b | b in blocks :: !b.ToolUse?
    ensures Calls(blocks, n) == [] && Count(blocks) == 0
  {
    if blocks != [] {
      assert blocks[|blocks| - 1] in blocks;
      NoCallsHere(blocks[..|blocks| - 1], n);
    }
  }

  lemma {:induction false} PartsCarryCalls(blocks: seq<Block>, n: nat)
    ensures CallsIn(Parts(blocks, n)) == Calls(blocks, n)
  {
    hide Count, KeyOf;
    if blocks != [] {
      var front, b := blocks[..|blocks| - 1], blocks[|blocks| - 1];
      PartsCarryCalls(front, n);
      var ps, more := Parts(front, n), PartOf(b, n + Count(front));
      if more == [] {
        assert ps + more == ps;
      } else {
        assert (ps + more)[..|ps|] == ps && (ps + more)[|ps|] == more[0];
      }
    }
  }

  lemma {:induction false} ResultsCarryNoCalls(blocks: seq<Block>, ns: Names)
    ensures CallsIn(ResultParts(blocks, ns)) == []
  {
    if blocks != [] {
      var front, b := blocks[..|blocks| - 1], blocks[|blocks| - 1];
      ResultsCarryNoCalls(front, ns);
      var ps, more := ResultParts(front, ns), ResultPart(b, ns);
      if more == [] {
        assert ps + more == ps;
      } else {
        assert (ps + more)[..|ps|] == ps;
      }
    }
  }

  predicate Spoken(m: Message) { m.role == User || m.role == Assistant }

  /** The calls that are sent: those of the user and assistant messages. */
  function SentCalls(msgs: seq<Message>): seq<Call> {
    if msgs == [] then []
    else
      var front, m := msgs[..|msgs| - 1], msgs[|msgs| - 1];
      SentCalls(front) + (if Spoken(m) then Calls(m.content, CountAll(front)) else [])
  }

  lemma {:induction false} ContentsCarryCalls(msgs: seq<Message>, ns: Names)
    ensures CallsInAll(Contents(msgs, ns)) == SentCalls(msgs)
  {
    if msgs != [] {
      var front, m := msgs[..|msgs| - 1], msgs[|msgs| - 1];
      ContentsCarryCalls(front, ns);
      var n := CountAll(front);
      PartsCarryCalls(m.content, n);
      ResultsCarryNoCalls(m.content, ns);
      var cs, more := Contents(front, ns), MessageContents(m, n, ns);
      assert CallsIn([]) == [];
      if more == [] {
        assert cs + more == cs;
      } else {
        assert (cs + more)[..|cs|] == cs;
      }
    }
  }

  /** Calls that stand where calls belong are all sent. */
  lemma {:induction false} InPlaceIsSent(msgs: seq<Message>)
    requires CallsInPlace(msgs)
    ensures SentCalls(msgs) == AllCalls(msgs)
  {
    if msgs != [] {
      var front, m := msgs[..|msgs| - 1], msgs[|msgs| - 1];
      InPlaceIsSent(front);
      if !Spoken(m) {
        NoCallsHere(m.content, CountAll(front));
      }
    }
  }

  /** What the maps of the sent calls know, those of all calls know too. */
  lemma {:induction false} SentIsKnown(msgs: seq<Message>)
    ensures forall c | c in SentCalls(msgs) :: c in AllCalls(msgs)
  {
    if msgs != [] {
      SentIsKnown(msgs[..|msgs| - 1]);
    }
  }

  lemma {:induction false} KnownKeys(calls: seq<Call>)
    ensures forall t :: t in LearnAll(calls).callNames <==> exists c | c in calls :: c.0 == t
    ensures forall t :: t in LearnAll(calls).idByName <==> exists c | c in calls :: c.1 == t
  {
    if calls != [] {
      var front, last := calls[..|calls| - 1], calls[|calls| - 1];
      KnownKeys(front);
      assert calls == front + [last];
      forall t ensures t in LearnAll(calls).callNames <==> exists c | c in calls :: c.0 == t {
        if c :| c in front && c.0 == t {
          assert c in calls;
        }
        if t == last.0 {
          assert last in calls;
        }
      }
      forall t ensures t in LearnAll(calls).idByName <==> exists c | c in calls :: c.1 == t {
        if c :| c in front && c.1 == t {
          assert c in calls;
        }
        if t == last.1 {
          assert last in calls;
        }
      }
    }
  }

  predicate Within(sent: Names, ns: Names) {
    sent.callNames.Keys <= ns.callNames.Keys && sent.idByName.Keys <= ns.idByName.Keys
  }

  lemma {:induction false} SentNamesWithin(msgs: seq<Message>)
    ensures Within(LearnAll(SentCalls(msgs)), LearnAll(AllCalls(msgs)))
  {
    hide LearnAll, SentCalls, AllCalls;
    SentIsKnown(msgs);
    KnownKeys(SentCalls(msgs));
    KnownKeys(AllCalls(msgs));
  }

  // ----- the fixed point -----

  /** A result that names a call's id: the sent calls give that id the same name.  One that names a
      function: the sent calls give the id of its first call that name. */
  predicate Consistent(ns: Names, sent: Names, t: string) {
    if t in ns.callNames then t in sent.callNames && sent.callNames[t] == ns.callNames[t]
    else t in ns.idByName ==> ns.idByName[t] in sent.callNames && sent.callNames[ns.idByName[t]] == t
  }

  /** The result ids of the tool messages. */
  predicate AllConsistent(msgs: seq<Message>, ns: Names, sent: Names) {
    forall i | 0 <= i < |msgs| && msgs[i].role == Tool ::
      forall b | b in msgs[i].content && b.ToolResult? :: Consistent(ns, sent, b.toolUseId)
  }

  predicate ConsistentBlocks(blocks: seq<Block>, ns: Names, sent: Names) {
    forall b | b in blocks && b.ToolResult? :: Consistent(ns, sent, b.toolUseId)
  }

  /** One result, exactly: parsed and serialized again it is unchanged if and only if it is consistent. */
  lemma {:induction false} ResponseFixedIff(ns: Names, sent: Names, b: Block)
    requires NoEmptyIds(ns) && b.ToolResult? && KeysKnown(sent) && Within(sent, ns)
    ensures ReadyResponse(ResultPart(b, ns)[0])
    ensures Again(ResultPart(b, ns)[0], sent) == ResultPart(b, ns)[0] <==> Consistent(ns, sent, b.toolUseId)
  {
  }

  /** Every id the name map points to is a call's id. */
  predicate KeysKnown(ns: Names) { forall t | t in ns.idByName :: ns.idByName[t] in ns.callNames }

  lemma {:induction false} NamesKnowTheirKeys(calls: seq<Call>)
    ensures KeysKnown(LearnAll(calls))
  {
    if calls != [] {
      NamesKnowTheirKeys(calls[..|calls| - 1]);
    }
  }

  lemma {:induction false} ResultsFixedIff(blocks: seq<Block>, ns: Names, sent: Names)
    requires NoEmptyIds(ns) && KeysKnown(sent) && Within(sent, ns)
    ensures ResponseParts(ResultParts(blocks, ns))
    ensures AgainAll(ResultParts(blocks, ns), sent) == ResultParts(blocks, ns) <==> ConsistentBlocks(blocks, ns, sent)
  {
    hide Consistent, Again, Correlate, NoEmptyIds, KeysKnown, Within, ReadyResponse;
    ResultPartsAreResponses(blocks, ns);
    if blocks != [] {
      var front, b := blocks[..|blocks| - 1], blocks[|blocks| - 1];
      ResultsFixedIff(front, ns, sent);
      assert blocks == front + [b];
      assert ConsistentBlocks(blocks, ns, sent) <==> ConsistentBlocks(front, ns, sent) && (b.ToolResult? ==> Consistent(ns, sent, b.toolUseId));
      var ps, more := ResultParts(front, ns), ResultPart(b, ns);
      if b.ToolResult? {
        ResponseFixedIff(ns, sent, b);
        assert (ps + more)[..|ps|] == ps && (ps + more)[|ps|] == more[0];
        AgainLength(ps, sent);
        var again := AgainAll(ps + more, sent);
        assert again == AgainAll(ps, sent) + [Again(more[0], sent)];
        assert again[..|ps|] == AgainAll(ps, sent) && again[|ps|] == Again(more[0], sent);
      } else {
        assert ps + more == ps;
      }
    }
  }

  lemma {:induction false} MessageFixedIff(m: Message, n: nat, ns: Names, sent: Names)
    requires NoEmptyIds(ns) && KeysKnown(sent) && Within(sent, ns)
    ensures Ready(MessageContents(m, n, ns))
    ensures AgainContents(MessageContents(m, n, ns), sent) == MessageContents(m, n, ns)
            <==> (m.role == Tool ==> ConsistentBlocks(m.content, ns, sent))
  {
    hide Parts, ResultParts, AgainAll, ReadyResponse, ReadyCall, ConsistentBlocks;
    PartsAreSpoken(m.content, n);
    ResultPartsAreResponses(m.content, ns);
    ResultsFixedIff(m.content, ns, sent);
    var cs := MessageContents(m, n, ns);
    if cs != [] {
      assert cs == [cs[0]];
      if m.role == Tool {
        ResponsesAreNotSpoken(cs[0].parts);
      }
      assert AgainContents(cs, sent) == [AgainContent(cs[0], sent)];
    } else if m.role == Tool {
      NothingAgain(sent);
    }
  }

  lemma {:induction false} NothingAgain(ns: Names)
    ensures AgainAll([], ns) == []
  {
  }

  lemma {:induction false} ResponsesAreNotSpoken(ps: seq<Part>)
    requires ps != [] && ResponseParts(ps)
    ensures !SpokenParts(ps)
  {
    assert ReadyResponse(ps[0]);
  }

  lemma {:induction false} ConsistentAppend(front: seq<Message>, m: Message, ns: Names, sent: Names)
    ensures AllConsistent(front + [m], ns, sent)
            <==> AllConsistent(front, ns, sent) && (m.role == Tool ==> ConsistentBlocks(m.content, ns, sent))
  {
    hide Consistent;
    var msgs := front + [m];
    assert msgs[|front|] == m;
    assert forall i | 0 <= i < |front| :: msgs[i] == front[i];
  }

  lemma {:induction false} ContentsFixedIff(msgs: seq<Message>, ns: Names, sent: Names)
    requires NoEmptyIds(ns) && KeysKnown(sent) && Within(sent, ns)
    ensures Ready(Contents(msgs, ns))
    ensures AgainContents(Contents(msgs, ns), sent) == Contents(msgs, ns) <==> AllConsistent(msgs, ns, sent)
  {
    hide MessageContents, AgainContent, ReadyContent, ConsistentBlocks, CountAll, Consistent, NoEmptyIds, KeysKnown, Within;
    ContentsAreReady(msgs, ns);
    if msgs != [] {
      var front, m := msgs[..|msgs| - 1], msgs[|msgs| - 1];
      ContentsFixedIff(front, ns, sent);
      MessageFixedIff(m, CountAll(front), ns, sent);
      var cs, more := Contents(front, ns), MessageContents(m, CountAll(front), ns);
      assert AgainContents(cs + more, sent) == AgainContents(cs, sent) + AgainContents(more, sent);
      SplitEqual(AgainContents(cs, sent), AgainContents(more, sent), cs, more);
      assert msgs == front + [m];
      ConsistentAppend(front, m, ns, sent);
    }
  }

  lemma {:induction false} SplitEqual<T>(a: seq<T>, b: seq<T>, c: seq<T>, d: seq<T>)
    requires |a| == |c|
    ensures a + b == c + d <==> a == c && b == d
  {
    if a + b == c + d {
      assert a == (a + b)[..|a|] && c == (c + d)[..|a|];
      assert b == (a + b)[|a|..] && d == (c + d)[|a|..];
    }
  }

  /** Tool correlation is a fixed point, exactly: for every request, serialize, parse, serialize leaves
      every content unchanged if and only if each result is consistent with the calls that are sent;
      and the calls that are sent always survive, in order. */
  lemma {:induction false} SerializeIsFixedPoint(msgs: seq<Message>)
    ensures AllCalls(Parse(Serialize(msgs))) == SentCalls(msgs)
    ensures Serialize(Parse(Serialize(msgs))) == Serialize(msgs)
            <==> AllConsistent(msgs, LearnAll(AllCalls(msgs)), LearnAll(SentCalls(msgs)))
  {
    hide AllCalls, SentCalls, LearnAll, Contents, NoEmptyIds, KeysKnown, Within, AllConsistent;
    var calls := AllCalls(msgs);
    var ns, sent := LearnAll(calls), LearnAll(SentCalls(msgs));
    AllCallsHaveKeys(msgs);
    NamesHaveKeys(calls);
    NamesKnowTheirKeys(SentCalls(msgs));
    SentNamesWithin(msgs);
    ContentsAreReady(msgs, ns);
    ContentsRoundTrip(Serialize(msgs), sent);
    ContentsCarryCalls(msgs, ns);
    ContentsFixedIff(msgs, ns, sent);
  }

  // ----- distinct ids are enough -----

  predicate DistinctKeys(calls: seq<Call>) {
    forall i, j | 0 <= i < j < |calls| :: calls[i].0 != calls[j].0
  }

  /** What the maps hold: the first call of each id and of each name. */
  lemma {:induction false} NamesAreFirst(calls: seq<Call>, i: nat)
    requires i < |calls|
    ensures calls[i].0 in LearnAll(calls).callNames && calls[i].1 in LearnAll(calls).idByName
    ensures (forall k | 0 <= k < i :: calls[k].0 != calls[i].0) ==>
              LearnAll(calls).callNames[calls[i].0] == calls[i].1
    ensures (forall k | 0 <= k < i :: calls[k].1 != calls[i].1) ==>
              LearnAll(calls).idByName[calls[i].1] == calls[i].0
  {
    var front := calls[..|calls| - 1];
    if i < |calls| - 1 {
      NamesAreFirst(front, i);
      assert front[i] == calls[i] && forall k | 0 <= k < i :: front[k] == calls[k];
    } else {
      NamesOnlyFrom(front);
      if calls[i].0 in LearnAll(front).callNames {
        var k :| 0 <= k < |front| && front[k].0 == calls[i].0;
        assert calls[k].0 == calls[i].0;
      }
      if calls[i].1 in LearnAll(front).idByName {
        var k :| 0 <= k < |front| && front[k].1 == calls[i].1;
        assert calls[k].1 == calls[i].1;
      }
    }
  }

  lemma {:induction false} NamesOnlyFrom(calls: seq<Call>)
    ensures forall t | t in LearnAll(calls).callNames :: exists k | 0 <= k < |calls| :: calls[k].0 == t
    ensures forall t | t in LearnAll(calls).idByName ::
              exists k | 0 <= k < |calls| :: calls[k].1 == t && calls[k].0 == LearnAll(calls).idByName[t]
  {
    if calls != [] {
      var front, c := calls[..|calls| - 1], calls[|calls| - 1];
      NamesOnlyFrom(front);
      var ns, ns' := LearnAll(front), LearnAll(calls);
      forall t | t in ns'.callNames ensures exists k | 0 <= k < |calls| :: calls[k].0 == t {
        if t in ns.callNames {
          var k :| 0 <= k < |front| && front[k].0 == t;
          assert calls[k].0 == t;
        } else {
          assert calls[|front|].0 == t;
        }
      }
      forall t | t in ns'.idByName
        ensures exists k | 0 <= k < |calls| :: calls[k].1 == t && calls[k].0 == ns'.idByName[t]
      {
        if t in ns.idByName {
          var k :| 0 <= k < |front| && front[k].1 == t && front[k].0 == ns.idByName[t];
          assert calls[k] == front[k];
        } else {
          assert calls[|front|] == c;
        }
      }
    }
  }

  /** With distinct call ids, explicit and synthesized, every result is consistent. */
  lemma {:induction false} DistinctIsConsistent(calls: seq<Call>, t: string)
    requires DistinctKeys(calls)
    ensures Consistent(LearnAll(calls), LearnAll(calls), t)
  {
    var ns := LearnAll(calls);
    NamesOnlyFrom(calls);
    if t in ns.idByName {
      var k :| 0 <= k < |calls| && calls[k].1 == t && calls[k].0 == ns.idByName[t];
      NamesAreFirst(calls, k);
    }
  }

  lemma {:induction false} DistinctIdsAreEnough(msgs: seq<Message>)
    requires CallsInPlace(msgs) && DistinctKeys(AllCalls(msgs))
    ensures Serialize(Parse(Serialize(msgs))) == Serialize(msgs)
  {
    var ns := LearnAll(AllCalls(msgs));
    forall t ensures Consistent(ns, ns, t) {
      DistinctIsConsistent(AllCalls(msgs), t);
    }
    InPlaceIsSent(msgs);
    SerializeIsFixedPoint(msgs);
  }

  // ----- when ids are distinct -----

  /** Where a call's id comes from. */
  datatype Key = Given(id: string) | Minted(n: nat)

  function KeyText(k: Key): string { match k case Given(id) => id case Minted(n) => MintedId(n) }

  function Keys(blocks: seq<Block>, n: nat): seq<Key> {
    if blocks == [] then []
    else
      var front, b := blocks[..|blocks| - 1], blocks[|blocks| - 1];
      Keys(front, n)
      + (if !b.ToolUse? then [] else [if b.id == "" then Minted(n + Count(front) + 1) else Given(b.id)])
  }

  function AllKeys(msgs: seq<Message>): seq<Key> {
    if msgs == [] then []
    else
      var front := msgs[..|msgs| - 1];
      AllKeys(front) + Keys(msgs[|msgs| - 1].content, CountAll(front))
  }

  predicate KeysAre(calls: seq<Call>, keys: seq<Key>) {
    |calls| == |keys| && forall i | 0 <= i < |calls| :: calls[i].0 == KeyText(keys[i])
  }

  /** The minted numbers are those above `n` up to `m`, each once, in ascending order. */
  ghost predicate Numbers(keys: seq<Key>, n: nat, m: nat) {
    && (forall i | 0 <= i < |keys| && keys[i].Minted? :: n < keys[i].n <= m)
    && (forall i, j | 0 <= i < j < |keys| && keys[i].Minted? && keys[j].Minted? :: keys[i].n < keys[j].n)
    && (forall x | n < x <= m :: Minted(x) in keys)
  }

  lemma {:induction false} NumbersConcat(a: seq<Key>, b: seq<Key>, n: nat, m: nat, o: nat)
    requires n <= m <= o && Numbers(a, n, m) && Numbers(b, m, o)
    ensures Numbers(a + b, n, o)
  {
    forall x | n < x <= o ensures Minted(x) in a + b {
      assert if x <= m then Minted(x) in a else Minted(x) in b;
    }
  }

  lemma {:induction false} KeysConcat(c: seq<Call>, d: seq<Call>, a: seq<Key>, b: seq<Key>)
    requires KeysAre(c, a) && KeysAre(d, b)
    ensures KeysAre(c + d, a + b)
  {
  }

  lemma {:induction false} BlockKeys(blocks: seq<Block>, n: nat)
    ensures KeysAre(Calls(blocks, n), Keys(blocks, n)) && Numbers(Keys(blocks, n), n, n + Count(blocks))
  {
    hide MintedId, KeysAre, Numbers;
    if blocks == [] {
      NoKeys(n);
    } else {
      var front, b := blocks[..|blocks| - 1], blocks[|blocks| - 1];
      BlockKeys(front, n);
      OneKey(b, n + Count(front));
      var c, k := LastCall(b, n + Count(front)), LastKey(b, n + Count(front));
      KeysConcat(Calls(front, n), c, Keys(front, n), k);
      NumbersConcat(Keys(front, n), k, n, n + Count(front), n + Count(blocks));
    }
  }

  function LastCall(b: Block, n: nat): seq<Call> { if b.ToolUse? then [(KeyOf(b, n), b.name)] else [] }

  function LastKey(b: Block, n: nat): seq<Key> {
    if !b.ToolUse? then [] else [if b.id == "" then Minted(n + 1) else Given(b.id)]
  }

  lemma {:induction false} OneKey(b: Block, n: nat)
    ensures KeysAre(LastCall(b, n), LastKey(b, n))
    ensures Numbers(LastKey(b, n), n, n + if IdLess(b) then 1 else 0)
  {
    hide MintedId;
    if IdLess(b) {
      assert Minted(n + 1) in LastKey(b, n);
    }
  }

  lemma {:induction false} NoKeys(n: nat)
    ensures KeysAre([], []) && Numbers([], n, n)
  {
  }

  lemma {:induction false} MessageKeys(msgs: seq<Message>)
    ensures KeysAre(AllCalls(msgs), AllKeys(msgs)) && Numbers(AllKeys(msgs), 0, CountAll(msgs))
  {
    hide KeysAre, Numbers, Calls, Keys, Count;
    if msgs == [] {
      NoKeys(0);
    } else {
      var front, m := msgs[..|msgs| - 1], msgs[|msgs| - 1];
      MessageKeys(front);
      BlockKeys(m.content, CountAll(front));
      KeysConcat(AllCalls(front), Calls(m.content, CountAll(front)), AllKeys(front), Keys(m.content, CountAll(front)));
      NumbersConcat(AllKeys(front), Keys(m.content, CountAll(front)), 0, CountAll(front), CountAll(msgs));
    }
  }

  /** The ids the request gives are distinct, and none spells one the pre-pass will mint. */
  ghost predicate GivenDistinct(keys: seq<Key>, minted: nat) {
    && (forall i, j | 0 <= i < j < |keys| && keys[i].Given? && keys[j].Given? :: keys[i].id != keys[j].id)
    && (forall i, n: nat | 0 <= i < |keys| && keys[i].Given? && 0 < n <= minted :: keys[i].id != MintedId(n))
  }

  /** Call ids, given and synthesized, are distinct if and only if the given ones are and none of them
      spells `fc_1` to `fc_k`, where k is the number of id-less calls. */
  lemma {:induction false} DistinctIff(msgs: seq<Message>)
    ensures DistinctKeys(AllCalls(msgs)) <==> GivenDistinct(AllKeys(msgs), CountAll(msgs))
  {
    hide AllCalls, AllKeys, CountAll, MintedId;
    MessageKeys(msgs);
    var calls, keys, m := AllCalls(msgs), AllKeys(msgs), CountAll(msgs);
    if DistinctKeys(calls) {
      DistinctOnlyIf(calls, keys, m);
    }
    if GivenDistinct(keys, m) {
      DistinctIf(calls, keys, m);
    }
  }

  lemma {:induction false} DistinctOnlyIf(calls: seq<Call>, keys: seq<Key>, m: nat)
    requires KeysAre(calls, keys) && Numbers(keys, 0, m) && DistinctKeys(calls)
    ensures GivenDistinct(keys, m)
  {
    hide MintedId;
    forall i, j | 0 <= i < j < |keys| && keys[i].Given? && keys[j].Given? ensures keys[i].id != keys[j].id {
      assert calls[i].0 != calls[j].0;
    }
    forall i, n: nat | 0 <= i < |keys| && keys[i].Given? && 0 < n <= m ensures keys[i].id != MintedId(n) {
      var j :| 0 <= j < |keys| && keys[j] == Minted(n);
      assert calls[if i < j then i else j].0 != calls[if i < j then j else i].0;
    }
  }

  lemma {:induction false} DistinctIf(calls: seq<Call>, keys: seq<Key>, m: nat)
    requires KeysAre(calls, keys) && Numbers(keys, 0, m) && GivenDistinct(keys, m)
    ensures DistinctKeys(calls)
  {
    hide MintedId;
    forall i, j | 0 <= i < j < |calls| ensures calls[i].0 != calls[j].0 {
      if keys[i].Minted? && keys[j].Minted? && MintedId(keys[i].n) == MintedId(keys[j].n) {
        MintedIdsDiffer(keys[i].n, keys[j].n);
        assert false;
      }
    }
  }

  /** A result that names a call by its id carries that call's id and name; one that names it by
      function name carries the first such call's id and that name. */
  lemma {:induction false} ResultsFindTheirCall(calls: seq<Call>, i: nat)
    requires DistinctKeys(calls) && i < |calls|
    ensures Correlate(LearnAll(calls), calls[i].0) == (Some(calls[i].0), calls[i].1)
    ensures (forall k | 0 <= k < |calls| :: calls[k].0 != calls[i].1)
            && (forall k | 0 <= k < i :: calls[k].1 != calls[i].1) ==>
              Correlate(LearnAll(calls), calls[i].1) == (Some(calls[i].0), calls[i].1)
  {
    NamesAreFirst(calls, i);
    NamesOnlyFrom(calls);
  }

  /** In the wire format: with distinct call ids, a result naming a call by id, or by a function name
      that is no call's id, goes out under that call's id and name (the first such call's for a name),
      text and error flag untouched. */
  lemma {:induction false} ResultCarriesItsCall(msgs: seq<Message>, i: nat, content: string, isError: bool)
    requires DistinctKeys(AllCalls(msgs)) && i < |AllCalls(msgs)|
    ensures var calls := AllCalls(msgs);
            var (id, name) := calls[i];
            var part := PResponse(Some(id), Some(name), Wrapped(content, Some(isError)));
            && ResultPart(ToolResult(id, content, isError), LearnAll(calls)) == [part]
            && ((forall k | 0 <= k < |calls| :: calls[k].0 != name) && (forall k | 0 <= k < i :: calls[k].1 != name) ==>
                  ResultPart(ToolResult(name, content, isError), LearnAll(calls)) == [part])
  {
    ResultsFindTheirCall(AllCalls(msgs), i);
  }

  /** Two calls sharing an id are a request on which the fixed point fails: the result that named
      the second function comes back under the first one's name. */
  lemma {:induction false} SharedIdBreaksFixedPoint(a: Value, b: Value)
    ensures var msgs := [Message(Assistant, [ToolUse("x", "f", a), ToolUse("x", "g", b)]),
                         Message(Tool, [ToolResult("g", "22c", false)])];
            CallsInPlace(msgs) && Serialize(Parse(Serialize(msgs))) != Serialize(msgs)
  {
    hide AllCalls, SentCalls, LearnAll, Parse, Serialize, Consistent;
    var f, g, r := ToolUse("x", "f", a), ToolUse("x", "g", b), ToolResult("g", "22c", false);
    var said, told := Message(Assistant, [f, g]), Message(Tool, [r]);
    var msgs := [said, told];
    assert AllCalls(msgs) == [("x", "f"), ("x", "g")] by {
      TwoCalls(f, g, r);
    }
    SharedIdIsInconsistent();
    InPlaceIsSent(msgs);
    SerializeIsFixedPoint(msgs);
    assert msgs[1].role == Tool && r in msgs[1].content;
  }

  lemma {:induction false} NoCallsYet()
    ensures AllCalls([]) == [] && CountAll([]) == 0 && Calls([], 0) == [] && Count([]) == 0
  {
  }

  lemma {:induction false} TwoCalls(f: Block, g: Block, r: Block)
    requires f.ToolUse? && f.id != "" && g.ToolUse? && g.id != "" && r.ToolResult?
    ensures AllCalls([Message(Assistant, [f, g]), Message(Tool, [r])]) == [(f.id, f.name), (g.id, g.name)]
  {
    hide AllCalls, Calls, CountAll, Count, Contents, MessageContents, Parts, PartOf, Results, Others, LearnAll;
    var said, told := Message(Assistant, [f, g]), Message(Tool, [r]);
    NoCallsYet();
    AppendMessage([said], told, LearnAll([]));
    AppendMessage([], said, LearnAll([]));
    assert [said] + [told] == [said, told] && [] + [said] == [said];
    AppendBlock([f], g, 0);
    AppendBlock([], f, 0);
    assert [f] + [g] == [f, g] && [] + [f] == [f];
    NoCallsHere([r], CountAll([said]));
  }

  lemma {:induction false} SharedIdIsInconsistent()
    ensures var ns := LearnAll([("x", "f"), ("x", "g")]);
            !Consistent(ns, ns, "g")
  {
    var one: seq<Call> := [("x", "f")];
    LearnOne([], ("x", "f"));
    LearnOne(one, ("x", "g"));
    assert [] + one == one && one + [("x", "g")] == [("x", "f"), ("x", "g")];
  }

  // ----- what the results say -----

  /** The texts and error flags of the results among some blocks, in order. */
  function BlockOutcomes(bs: seq<Block>): seq<(string, bool)> {
    if bs == [] then []
    else
      var b := bs[|bs| - 1];
      BlockOutcomes(bs[..|bs| - 1]) + (if b.ToolResult? then [(b.content, b.isError)] else [])
  }

  /** Those of every message. */
  function AllOutcomes(msgs: seq<Message>): seq<(string, bool)> {
    if msgs == [] then [] else AllOutcomes(msgs[..|msgs| - 1]) + BlockOutcomes(msgs[|msgs| - 1].content)
  }

  /** Those of the tool messages. */
  function Outcomes(msgs: seq<Message>): seq<(string, bool)> {
    if msgs == [] then []
    else
      var m := msgs[|msgs| - 1];
      Outcomes(msgs[..|msgs| - 1]) + (if m.role == Tool then BlockOutcomes(m.content) else [])
  }

  function PartOutcome(p: Part): seq<(string, bool)> {
    if p.PResponse? && p.response.Wrapped?
    then [(p.response.result, p.response.isError.Some? && p.response.isError.value)] else []
  }

  function PartOutcomes(ps: seq<Part>): seq<(string, bool)> {
    if ps == [] then [] else PartOutcomes(ps[..|ps| - 1]) + PartOutcome(ps[|ps| - 1])
  }

  function ContentOutcomes(cs: seq<Content>): seq<(string, bool)> {
    if cs == [] then [] else ContentOutcomes(cs[..|cs| - 1]) + PartOutcomes(cs[|cs| - 1].parts)
  }

  lemma {:induction false} ResultPartsOutcomes(blocks: seq<Block>, ns: Names)
    ensures PartOutcomes(ResultParts(blocks, ns)) == BlockOutcomes(blocks)
  {
    hide Correlate;
    if blocks != [] {
      var front, b := blocks[..|blocks| - 1], blocks[|blocks| - 1];
      ResultPartsOutcomes(front, ns);
      var ps, more := ResultParts(front, ns), ResultPart(b, ns);
      if more == [] {
        assert ps + more == ps;
      } else {
        assert (ps + more)[..|ps|] == ps && (ps + more)[|ps|] == more[0];
      }
    }
  }

  lemma {:induction false} SpokenHasNoOutcomes(ps: seq<Part>)
    requires SpokenParts(ps)
    ensures PartOutcomes(ps) == []
  {
    if ps != [] {
      SpokenHasNoOutcomes(ps[..|ps| - 1]);
    }
  }

  lemma {:induction false} MessageOutcomes(m: Message, n: nat, ns: Names)
    ensures var more := MessageContents(m, n, ns);
            && |more| <= 1
            && (if more == [] then [] else PartOutcomes(more[0].parts))
               == (if m.role == Tool then BlockOutcomes(m.content) else [])
  {
    hide PartOutcomes, BlockOutcomes, Parts, ResultParts, SpokenParts;
    ResultPartsOutcomes(m.content, ns);
    PartsAreSpoken(m.content, n);
    SpokenHasNoOutcomes(Parts(m.content, n));
    NoOutcomes();
  }

  lemma {:induction false} ContentsOutcomes(msgs: seq<Message>, ns: Names)
    ensures ContentOutcomes(Contents(msgs, ns)) == Outcomes(msgs)
  {
    hide PartOutcomes, BlockOutcomes, MessageContents, CountAll;
    if msgs != [] {
      var front, m := msgs[..|msgs| - 1], msgs[|msgs| - 1];
      var n := CountAll(front);
      ContentsOutcomes(front, ns);
      MessageOutcomes(m, n, ns);
      var cs, more := Contents(front, ns), MessageContents(m, n, ns);
      if more == [] {
        assert cs + more == cs;
      } else {
        assert (cs + more)[..|cs|] == cs && (cs + more)[|cs|] == more[0];
      }
    }
  }

  lemma {:induction false} NoOutcomes()
    ensures PartOutcomes([]) == []
  {
  }

  lemma {:induction false} ParsedOutcomes(ps: seq<Part>, k: nat)
    requires ResponseParts(ps)
    ensures BlockOutcomes(ParseParts(ps, k).1) == PartOutcomes(ps)
  {
    if ps != [] {
      var front, p := ps[..|ps| - 1], ps[|ps| - 1];
      ParsedOutcomes(front, k);
      var (k1, bs) := ParseParts(front, k);
      var b := ParsePart(p, k1).1;
      assert ReadyResponse(p);
      assert (bs + [b])[..|bs|] == bs && (bs + [b])[|bs|] == b;
    }
  }

  lemma {:induction false} NoResultsNoOutcomes(bs: seq<Block>)
    ensures Results(bs) == [] <==> BlockOutcomes(bs) == []
    ensures Results(bs) == [] <==> forall b | b in bs :: !b.ToolResult?
  {
    if bs != [] {
      var front, last := bs[..|bs| - 1], bs[|bs| - 1];
      NoResultsNoOutcomes(front);
      assert bs == front + [last];
    }
  }

  lemma {:induction false} ParsedContentOutcomes(c: Content, k: nat, ns: Names)
    requires ReadyContent(c)
    ensures var (k', ms) := ParseContent(c, k);
            k' == k && |ms| == 1 && BlockOutcomes(ms[0].content) == PartOutcomes(c.parts)
  {
    hide ParseParts, PartOutcomes, BlockOutcomes, Results, Others, AgainAll, ReadyResponse, ReadyCall;
    if SpokenParts(c.parts) {
      SpokenRoundTrip(c.parts, k, 0);
      SpokenHasNoOutcomes(c.parts);
      NoResultsNoOutcomes(ParseParts(c.parts, k).1);
    } else {
      ResponsesRoundTrip(c.parts, k, ns);
      ParsedOutcomes(c.parts, k);
    }
  }

  lemma {:induction false} ParsedContentsOutcomes(cs: seq<Content>, ns: Names)
    requires Ready(cs)
    ensures ParseContents(cs, 0).0 == 0 && AllOutcomes(ParseContents(cs, 0).1) == ContentOutcomes(cs)
  {
    hide ParseContent, PartOutcomes, BlockOutcomes, ReadyContent;
    if cs != [] {
      var front, c := cs[..|cs| - 1], cs[|cs| - 1];
      ParsedContentsOutcomes(front, ns);
      var ms := ParseContents(front, 0).1;
      ParsedContentOutcomes(c, 0, ns);
      var m := ParseContent(c, 0).1[0];
      assert ParseContent(c, 0).1 == [m];
      assert (ms + [m])[..|ms|] == ms && (ms + [m])[|ms|] == m;
    }
  }

  /** Results stand only in tool messages. */
  predicate ResultsInPlace(msgs: seq<Message>) {
    forall i | 0 <= i < |msgs| && msgs[i].role != Tool :: forall b | b in msgs[i].content :: !b.ToolResult?
  }

  /** Counting every result gives more than the tool messages hold exactly when some stand elsewhere. */
  lemma {:induction false} StraysAreMore(msgs: seq<Message>)
    ensures ResultsInPlace(msgs) ==> AllOutcomes(msgs) == Outcomes(msgs)
    ensures |AllOutcomes(msgs)| >= |Outcomes(msgs)|
    ensures !ResultsInPlace(msgs) ==> |AllOutcomes(msgs)| > |Outcomes(msgs)|
  {
    hide BlockOutcomes, Results;
    if msgs != [] {
      var front, m := msgs[..|msgs| - 1], msgs[|msgs| - 1];
      StraysAreMore(front);
      NoResultsNoOutcomes(m.content);
      assert msgs == front + [m];
      assert ResultsInPlace(msgs) <==>
               ResultsInPlace(front) && (m.role != Tool ==> forall b | b in m.content :: !b.ToolResult?) by {
        InPlaceAppend(front, m);
      }
    }
  }

  lemma {:induction false} InPlaceAppend(front: seq<Message>, m: Message)
    ensures ResultsInPlace(front + [m]) <==>
              ResultsInPlace(front) && (m.role != Tool ==> forall b | b in m.content :: !b.ToolResult?)
  {
    var msgs := front + [m];
    assert msgs[|front|] == m;
    assert forall i | 0 <= i < |front| :: msgs[i] == front[i];
  }

  /** What comes back of a request's results is always those of its tool messages, texts and error
      flags, in order; so every result survives if and only if none stands in another message. */
  lemma {:induction false} ResultsSurvive(msgs: seq<Message>)
    ensures AllOutcomes(Parse(Serialize(msgs))) == Outcomes(msgs)
    ensures AllOutcomes(Parse(Serialize(msgs))) == AllOutcomes(msgs) <==> ResultsInPlace(msgs)
  {
    hide Outcomes, AllOutcomes, ContentOutcomes, Contents, ParseContents, AllCalls, LearnAll, ResultsInPlace;
    var calls := AllCalls(msgs);
    var ns := LearnAll(calls);
    AllCallsHaveKeys(msgs);
    NamesHaveKeys(calls);
    ContentsAreReady(msgs, ns);
    ContentsOutcomes(msgs, ns);
    ParsedContentsOutcomes(Serialize(msgs), ns);
    StraysAreMore(msgs);
  }

  /** A request on which a result is lost: a function response in a model content stays in the
      assistant message, and serializing drops it. */
  lemma {:induction false} ModelResultIsDropped(name: string, result: string, isError: bool)
    ensures var cs := [Content(false, [PResponse(None, Some(name), Wrapped(result, Some(isError)))])];
            && Parse(cs) == [Message(Assistant, [ToolResult(name, result, isError)])]
            && Serialize(Parse(cs)) == []
  {
    var p, b := PResponse(None, Some(name), Wrapped(result, Some(isError))), ToolResult(name, result, isError);
    var c, m := Content(false, [p]), Message(Assistant, [b]);
    assert [p][..0] == [] && ParseParts([], 0) == (0, []) && [] + [b] == [b];
    assert ParseParts([p], 0) == (0, [b]);
    assert ParseContent(c, 0) == (0, [m]);
    assert [c][..0] == [] && ParseContents([], 0) == (0, []) && [] + [m] == [m];
    assert ParseContents([c], 0) == (0, [m]);
    var ns := LearnAll(AllCalls([m]));
    AppendMessage([], m, ns);
    AppendBlock([], b, CountAll([]));
    assert [] + [b] == [b];
    assert Parts([b], 0) == [];
  }

  // ----- parsing any contents -----

  /** A call without an id, or with an empty one. */
  predicate Unnamed(p: Part) { p.PCall? && (p.callId.None? || p.callId.value == "") }

  function Unnameds(ps: seq<Part>): nat {
    if ps == [] then 0 else Unnameds(ps[..|ps| - 1]) + (if Unnamed(ps[|ps| - 1]) then 1 else 0)
  }

  function UnnamedsIn(cs: seq<Content>): nat {
    if cs == [] then 0 else UnnamedsIn(cs[..|cs| - 1]) + Unnameds(cs[|cs| - 1].parts)
  }

  /** A part and the block it is read as, field by field; `n` is the number an unnamed call would get. */
  predicate ReadsAs(p: Part, b: Block, n: nat) {
    match p
    case PText(t) => b == TextBlock(t)
    case PThought(t) => b == Thinking(t, None)
    case PInline(m, d) => b.Image? && b.mediaType == m && b.base64 == d
    case PCall(id, name, args) =>
      && b.ToolUse? && b.name == name
      && (args.Some? ==> b.input == args.value) && (args.None? ==> b.input == Obj(map[]))
      && (if Unnamed(p) then b.id == "fc_" + AsString(Decimal(n)) else b.id == id.value)
    case PResponse(id, name, response) =>
      && b.ToolResult?
      && (id.Some? && id.value != "" ==> b.toolUseId == id.value)
      && (!(id.Some? && id.value != "") ==> b.toolUseId == if name.Some? then name.value else "")
      && match response
         case Bare(s) => b.content == s && !b.isError
         case Wrapped(s, e) => b.content == s && (b.isError <==> e == Some(true))
         case OtherJson(s) => b.content == s && !b.isError
  }

  lemma {:induction false} PartIsRead(p: Part, n: nat)
    ensures ReadsAs(p, ParsePart(p, n).1, n + 1) && ParsePart(p, n).0 == n + (if Unnamed(p) then 1 else 0)
  {
  }

  /** Any parts: one block each, in order, unnamed calls numbered on from `n`. */
  lemma {:induction false} PartsAreRead(ps: seq<Part>, n: nat)
    ensures ParseParts(ps, n).0 == n + Unnameds(ps) && |ParseParts(ps, n).1| == |ps|
    ensures forall i | 0 <= i < |ps| :: ReadsAs(ps[i], ParseParts(ps, n).1[i], n + Unnameds(ps[..i]) + 1)
  {
    hide ReadsAs, ParsePart, ParseParts, Unnamed, Unnameds;
    if ps == [] {
      ParseAppend([], PText(""), n);
      UnnamedsAppend([], PText(""));
    } else {
      var front, p := ps[..|ps| - 1], ps[|ps| - 1];
      PartsAreRead(front, n);
      var n1, bs := ParseParts(front, n).0, ParseParts(front, n).1;
      PartIsRead(p, n1);
      ParseAppend(front, p, n);
      UnnamedsAppend(front, p);
      assert front + [p] == ps;
      var b := ParsePart(p, n1).1;
      assert ParseParts(ps, n).1 == bs + [b];
      ReadsExtend(front, p, bs, b, n);
    }
  }

  lemma {:induction false} UnnamedsAppend(ps: seq<Part>, p: Part)
    ensures Unnameds([]) == 0 && Unnameds(ps + [p]) == Unnameds(ps) + (if Unnamed(p) then 1 else 0)
  {
    hide Unnamed;
    assert (ps + [p])[..|ps|] == ps;
  }

  lemma {:induction false} ReadsExtend(ps: seq<Part>, p: Part, bs: seq<Block>, b: Block, n: nat)
    requires |bs| == |ps| && forall i | 0 <= i < |ps| :: ReadsAs(ps[i], bs[i], n + Unnameds(ps[..i]) + 1)
    requires ReadsAs(p, b, n + Unnameds(ps) + 1)
    ensures forall i | 0 <= i < |ps| + 1 :: ReadsAs((ps + [p])[i], (bs + [b])[i], n + Unnameds((ps + [p])[..i]) + 1)
  {
    hide ReadsAs, Unnameds;
    forall i | 0 <= i < |ps| + 1 ensures ReadsAs((ps + [p])[i], (bs + [b])[i], n + Unnameds((ps + [p])[..i]) + 1) {
      if i < |ps| {
        assert (ps + [p])[..i] == ps[..i];
      } else {
        assert (ps + [p])[..i] == ps;
      }
    }
  }

  /** `bs` interleaves `xs` and `ys`, each kept in its order. */
  predicate Interleaves(bs: seq<Block>, xs: seq<Block>, ys: seq<Block>) {
    if bs == [] then xs == [] && ys == []
    else
      var front, b := bs[..|bs| - 1], bs[|bs| - 1];
      || (xs != [] && xs[|xs| - 1] == b && Interleaves(front, xs[..|xs| - 1], ys))
      || (ys != [] && ys[|ys| - 1] == b && Interleaves(front, xs, ys[..|ys| - 1]))
  }

  /** Blocks are their results and the others interleaved; only results are among the former, none among the latter. */
  lemma {:induction false} ResultsAndOthers(bs: seq<Block>)
    ensures Interleaves(bs, Results(bs), Others(bs))
    ensures forall i | 0 <= i < |Results(bs)| :: Results(bs)[i].ToolResult?
    ensures forall i | 0 <= i < |Others(bs)| :: !Others(bs)[i].ToolResult?
  {
    hide Results, Others, Interleaves;
    NothingInterleaves();
    if bs != [] {
      var front := bs[..|bs| - 1];
      ResultsAndOthers(front);
      ResultsStep(bs);
      InterleavesStep(bs, Results(front), Others(front));
    }
  }

  lemma {:induction false} NothingInterleaves()
    ensures Interleaves([], [], []) && Results([]) == [] && Others([]) == []
  {
  }

  lemma {:induction false} ResultsStep(bs: seq<Block>)
    requires bs != []
    ensures var front, b := bs[..|bs| - 1], bs[|bs| - 1];
            && Results(bs) == (if b.ToolResult? then Results(front) + [b] else Results(front))
            && Others(bs) == (if b.ToolResult? then Others(front) else Others(front) + [b])
  {
  }

  lemma {:induction false} InterleavesStep(bs: seq<Block>, xs: seq<Block>, ys: seq<Block>)
    requires bs != [] && Interleaves(bs[..|bs| - 1], xs, ys)
    ensures Interleaves(bs, xs + [bs[|bs| - 1]], ys) && Interleaves(bs, xs, ys + [bs[|bs| - 1]])
  {
    var b := bs[|bs| - 1];
    assert (xs + [b])[..|xs|] == xs && (ys + [b])[..|ys|] == ys;
  }

  /** One content: a model's is one assistant message; a user's is one user message, unless it has results,
      which then come first, in a tool message of their own. */
  lemma {:induction false} ContentIsRead(c: Content, n: nat)
    ensures var (n', ms) := ParseContent(c, n);
            var bs := ParseParts(c.parts, n).1;
            && n' == n + Unnameds(c.parts)
            && (!c.fromUser ==> ms == [Message(Assistant, bs)])
            && (c.fromUser && (forall b | b in bs :: !b.ToolResult?) ==> ms == [Message(User, bs)])
            && (c.fromUser && (exists b | b in bs :: b.ToolResult?) ==>
                  && 1 <= |ms| <= 2 && ms[0] == Message(Tool, Results(bs))
                  && (|ms| == 2 ==> ms[1] == Message(User, Others(bs)))
                  && (|ms| == 1 <==> forall b | b in bs :: b.ToolResult?))
  {
    hide ParseParts;
    PartsAreRead(c.parts, n);
    var bs := ParseParts(c.parts, n).1;
    NoResultsNoOutcomes(bs);
    NoOthers(bs);
  }

  lemma {:induction false} NoOthers(bs: seq<Block>)
    ensures Others(bs) == [] <==> forall b | b in bs :: b.ToolResult?
  {
    if bs != [] {
      NoOthers(bs[..|bs| - 1]);
      assert bs == bs[..|bs| - 1] + [bs[|bs| - 1]];
    }
  }

  /** Any contents: each is read in turn, the numbering of unnamed calls running on across them. */
  lemma {:induction false} ContentsAreRead(cs: seq<Content>, j: nat)
    requires j < |cs|
    ensures ParseContents(cs, 0).0 == UnnamedsIn(cs)
    ensures exists before, after ::
              Parse(cs) == before + ParseContent(cs[j], UnnamedsIn(cs[..j])).1 + after && before == Parse(cs[..j])
  {
    hide ParseContent;
    CounterRunsOn(cs);
    var front, c := cs[..|cs| - 1], cs[|cs| - 1];
    CounterRunsOn(front);
    var last := ParseContent(c, UnnamedsIn(front)).1;
    assert Parse(cs) == Parse(front) + last;
    if j == |cs| - 1 {
      assert Parse(cs) == Parse(cs[..j]) + last + [];
    } else {
      ContentsAreRead(front, j);
      assert front[..j] == cs[..j] && front[j] == cs[j];
      var mid := ParseContent(cs[j], UnnamedsIn(cs[..j])).1;
      var before, after :| Parse(front) == before + mid + after && before == Parse(cs[..j]);
      assert Parse(cs) == before + mid + (after + last);
    }
  }

  lemma {:induction false} CounterRunsOn(cs: seq<Content>)
    ensures ParseContents(cs, 0).0 == UnnamedsIn(cs)
  {
    hide ParseContent;
    if cs != [] {
      CounterRunsOn(cs[..|cs| - 1]);
      ContentIsRead(cs[|cs| - 1], UnnamedsIn(cs[..|cs| - 1]));
    }
  }

  lemma {:induction false} UnnamedsGrow(ps: seq<Part>, i: nat)
    requires i < |ps|
    ensures Unnameds(ps[..i]) + (if Unnamed(ps[i]) then 1 else 0) <= Unnameds(ps)
    decreases |ps|
  {
    hide Unnamed;
    if i < |ps| - 1 {
      UnnamedsGrow(ps[..|ps| - 1], i);
      assert ps[..|ps| - 1][..i] == ps[..i];
    }
  }

  lemma {:induction false} UnnamedsInGrow(cs: seq<Content>, j: nat)
    requires j < |cs|
    ensures UnnamedsIn(cs[..j]) + Unnameds(cs[j].parts) <= UnnamedsIn(cs)
    decreases |cs|
  {
    hide Unnameds;
    if j < |cs| - 1 {
      UnnamedsInGrow(cs[..|cs| - 1], j);
      assert cs[..|cs| - 1][..j] == cs[..j];
    }
  }

  /** Two unnamed calls anywhere in a request are given different ids. */
  lemma {:induction false} MintedIdsAreDistinct(cs: seq<Content>, j: nat, i: nat, j': nat, i': nat)
    requires j < |cs| && i < |cs[j].parts| && Unnamed(cs[j].parts[i])
    requires j' < |cs| && i' < |cs[j'].parts| && Unnamed(cs[j'].parts[i'])
    requires j < j' || (j == j' && i < i')
    ensures var b := ParseParts(cs[j].parts, UnnamedsIn(cs[..j])).1;
            var b' := ParseParts(cs[j'].parts, UnnamedsIn(cs[..j'])).1;
            |b| == |cs[j].parts| && |b'| == |cs[j'].parts| && b[i].ToolUse? && b'[i'].ToolUse? && b[i].id != b'[i'].id
  {
    hide Unnamed, Unnameds, UnnamedsIn, ParseParts, ReadsAs, MintedId;
    MintedNumbersGrow(cs, j, i, j', i');
    UnnamedIsMinted(cs[j].parts, UnnamedsIn(cs[..j]), i);
    UnnamedIsMinted(cs[j'].parts, UnnamedsIn(cs[..j']), i');
    var n, n' := UnnamedsIn(cs[..j]) + Unnameds(cs[j].parts[..i]), UnnamedsIn(cs[..j']) + Unnameds(cs[j'].parts[..i']);
    if MintedId(n + 1) == MintedId(n' + 1) {
      MintedIdsDiffer(n + 1, n' + 1);
      assert false;
    }
  }

  lemma {:induction false} UnnamedIsMinted(ps: seq<Part>, n: nat, i: nat)
    requires i < |ps| && Unnamed(ps[i])
    ensures var bs := ParseParts(ps, n).1;
            |bs| == |ps| && bs[i].ToolUse? && bs[i].id == MintedId(n + Unnameds(ps[..i]) + 1)
  {
    hide Unnameds, ParseParts, ReadsAs, MintedId, Unnamed;
    PartsAreRead(ps, n);
    ReadCallIsMinted(ps[i], ParseParts(ps, n).1[i], n + Unnameds(ps[..i]) + 1);
  }

  lemma {:induction false} ReadCallIsMinted(p: Part, b: Block, n: nat)
    requires Unnamed(p) && ReadsAs(p, b, n)
    ensures b.ToolUse? && b.id == MintedId(n)
  {
  }

  lemma {:induction false} MintedNumbersGrow(cs: seq<Content>, j: nat, i: nat, j': nat, i': nat)
    requires j < |cs| && i < |cs[j].parts| && Unnamed(cs[j].parts[i])
    requires j' < |cs| && i' < |cs[j'].parts|
    requires j < j' || (j == j' && i < i')
    ensures UnnamedsIn(cs[..j]) + Unnameds(cs[j].parts[..i]) < UnnamedsIn(cs[..j']) + Unnameds(cs[j'].parts[..i'])
  {
    hide Unnamed, Unnameds, UnnamedsIn;
    if j < j' {
      UnnamedsGrow(cs[j].parts, i);
      UnnamedsInGrow(cs[..j'], j);
      assert cs[..j'][..j] == cs[..j];
    } else {
      var ps := cs[j].parts;
      UnnamedsGrow(ps[..i'], i);
      assert ps[..i'][..i] == ps[..i] && ps[..i'][i] == ps[i];
    }
  }

  // ----- what comes back of any request -----

  /** What the wire carries of one spoken block. */
  function CarriedBlock(b: Block, n: nat): seq<Block> {
    match b
    case TextBlock(_) => [b]
    case Image(_, _) => [b]
    case Thinking(t, _) => [Thinking(t, None)]
    case ToolUse(_, name, input) => [ToolUse(KeyOf(b, n), name, input)]
    case ToolResult(_, _, _) => []
    case RedactedThinking(_) => []
  }

  function CarriedBlocks(blocks: seq<Block>, n: nat): seq<Block> {
    if blocks == [] then []
    else
      var front := blocks[..|blocks| - 1];
      CarriedBlocks(front, n) + CarriedBlock(blocks[|blocks| - 1], n + Count(front))
  }

  /** A result comes back under the id it was sent with, or under its function's name. */
  function CarriedResult(b: Block, ns: Names): seq<Block> {
    if b.ToolResult? then
      var (id, name) := Correlate(ns, b.toolUseId);
      [ToolResult(if id.Some? then id.value else name, b.content, b.isError)]
    else []
  }

  function CarriedResults(blocks: seq<Block>, ns: Names): seq<Block> {
    if blocks == [] then []
    else CarriedResults(blocks[..|blocks| - 1], ns) + CarriedResult(blocks[|blocks| - 1], ns)
  }

  function CarriedMessage(m: Message, n: nat, ns: Names): seq<Message> {
    var bs := if m.role == Tool then CarriedResults(m.content, ns) else CarriedBlocks(m.content, n);
    if m.role == System || bs == [] then [] else [Message(m.role, bs)]
  }

  function CarriedRequest(msgs: seq<Message>, ns: Names): seq<Message> {
    if msgs == [] then []
    else
      var front := msgs[..|msgs| - 1];
      CarriedRequest(front, ns) + CarriedMessage(msgs[|msgs| - 1], CountAll(front), ns)
  }

  lemma {:induction false} ParseAppend(ps: seq<Part>, p: Part, k: nat)
    ensures ParseParts([], k) == (k, [])
    ensures var (n1, bs) := ParseParts(ps, k);
            var (n2, b) := ParsePart(p, n1);
            ParseParts(ps + [p], k) == (n2, bs + [b])
  {
    hide ParsePart;
    assert (ps + [p])[..|ps|] == ps;
  }

  lemma {:induction false} PartsCarry(blocks: seq<Block>, n: nat, k: nat)
    ensures ParseParts(Parts(blocks, n), k) == (k, CarriedBlocks(blocks, n)) && SpokenParts(Parts(blocks, n))
    ensures |Parts(blocks, n)| == |CarriedBlocks(blocks, n)|
  {
    hide Count, SpokenParts, PartOf, CarriedBlock, ParsePart, ParseParts;
    PartsAreSpoken(blocks, n);
    ParseAppend([], PText(""), k);
    if blocks != [] {
      var front, b := blocks[..|blocks| - 1], blocks[|blocks| - 1];
      PartsCarry(front, n, k);
      var ps, more := Parts(front, n), PartOf(b, n + Count(front));
      var bs, back := CarriedBlocks(front, n), CarriedBlock(b, n + Count(front));
      BlockCarries(b, n + Count(front), k);
      if more == [] {
        assert ps + more == ps && bs + back == bs;
      } else {
        assert more == [more[0]] && back == [back[0]];
        ParseAppend(ps, more[0], k);
      }
    }
  }

  lemma {:induction false} BlockCarries(b: Block, n: nat, k: nat)
    ensures |PartOf(b, n)| == |CarriedBlock(b, n)| <= 1
    ensures PartOf(b, n) != [] ==> ParsePart(PartOf(b, n)[0], k) == (k, CarriedBlock(b, n)[0])
  {
    if b.ToolUse? {
      assert KeyOf(b, n) != "";
    }
  }

  lemma {:induction false} ResultsCarry(blocks: seq<Block>, ns: Names, k: nat)
    requires NoEmptyIds(ns)
    ensures ParseParts(ResultParts(blocks, ns), k) == (k, CarriedResults(blocks, ns))
    ensures |ResultParts(blocks, ns)| == |CarriedResults(blocks, ns)|
  {
    hide ResultPart, CarriedResult, ParsePart, ParseParts, NoEmptyIds;
    ParseAppend([], PText(""), k);
    if blocks != [] {
      var front, b := blocks[..|blocks| - 1], blocks[|blocks| - 1];
      ResultsCarry(front, ns, k);
      var ps, more := ResultParts(front, ns), ResultPart(b, ns);
      var bs, back := CarriedResults(front, ns), CarriedResult(b, ns);
      ResultCarries(b, ns, k);
      if more == [] {
        assert ps + more == ps && bs + back == bs;
      } else {
        assert more == [more[0]] && back == [back[0]];
        ParseAppend(ps, more[0], k);
      }
    }
  }

  lemma {:induction false} ResultCarries(b: Block, ns: Names, k: nat)
    requires NoEmptyIds(ns)
    ensures |ResultPart(b, ns)| == |CarriedResult(b, ns)| <= 1
    ensures ResultPart(b, ns) != [] ==> ParsePart(ResultPart(b, ns)[0], k) == (k, CarriedResult(b, ns)[0])
  {
  }

  /** One message's content parses to what the wire carries of the message. */
  lemma {:induction false} MessageCarries(m: Message, n: nat, ns: Names, k: nat)
    requires NoEmptyIds(ns)
    ensures var cs := MessageContents(m, n, ns);
            && |cs| <= 1 && (cs == [] <==> CarriedMessage(m, n, ns) == [])
            && (cs != [] ==> ParseContent(cs[0], k) == (k, CarriedMessage(m, n, ns)))
  {
    hide Parts, ResultParts, CarriedBlocks, CarriedResults, ParseParts, Results, Others, NoEmptyIds, ReadyResponse;
    hide SpokenParts, ReadyCall;
    PartsCarry(m.content, n, k);
    ResultsCarry(m.content, ns, k);
    ResultPartsAreResponses(m.content, ns);
    if m.role == Tool {
      ResponsesRoundTrip(ResultParts(m.content, ns), k, ns);
      var told := [Message(Tool, CarriedResults(m.content, ns))];
      assert told + [] == told;
    } else {
      SpokenRoundTrip(Parts(m.content, n), k, 0);
    }
  }

  lemma {:induction false} ContentsCarry(msgs: seq<Message>, ns: Names)
    requires NoEmptyIds(ns)
    ensures ParseContents(Contents(msgs, ns), 0) == (0, CarriedRequest(msgs, ns))
  {
    hide ParseContent, MessageContents, CarriedMessage, NoEmptyIds, CountAll;
    if msgs != [] {
      var front, m := msgs[..|msgs| - 1], msgs[|msgs| - 1];
      ContentsCarry(front, ns);
      MessageCarries(m, CountAll(front), ns, 0);
      var cs, more := Contents(front, ns), MessageContents(m, CountAll(front), ns);
      if more == [] {
        assert cs + more == cs && CarriedRequest(front, ns) + [] == CarriedRequest(front, ns);
      } else {
        assert more == [more[0]];
        assert (cs + more)[..|cs|] == cs && (cs + more)[|cs|] == more[0];
      }
    }
  }

  /** A block that comes back as it was. */
  predicate IntactBlock(m: Message, b: Block, ns: Names) {
    if m.role == Tool then b.ToolResult? && (b.toolUseId in ns.callNames || b.toolUseId !in ns.idByName)
    else !b.ToolResult? && !b.RedactedThinking? && (b.Thinking? ==> b.signature.None?) && (b.ToolUse? ==> b.id != "")
  }

  /** A message that comes back as it was. */
  predicate Intact(m: Message, ns: Names) {
    m.role != System && m.content != [] && forall b | b in m.content :: IntactBlock(m, b, ns)
  }

  function CarriedBy(m: Message, blocks: seq<Block>, n: nat, ns: Names): seq<Block> {
    if m.role == Tool then CarriedResults(blocks, ns) else CarriedBlocks(blocks, n)
  }

  function CarriedLast(m: Message, b: Block, n: nat, ns: Names): seq<Block> {
    if m.role == Tool then CarriedResult(b, ns) else CarriedBlock(b, n)
  }

  predicate IntactBlocks(m: Message, blocks: seq<Block>, ns: Names) { forall b | b in blocks :: IntactBlock(m, b, ns) }

  lemma {:induction false} CarriedStep(m: Message, front: seq<Block>, b: Block, n: nat, ns: Names)
    ensures CarriedBy(m, front + [b], n, ns) == CarriedBy(m, front, n, ns) + CarriedLast(m, b, n + Count(front), ns)
    ensures IntactBlocks(m, front + [b], ns) <==> IntactBlocks(m, front, ns) && IntactBlock(m, b, ns)
  {
    hide CarriedBlock, CarriedResult, IntactBlock, Count;
    assert (front + [b])[..|front|] == front;
  }

  lemma {:induction false} BlocksIntact(m: Message, blocks: seq<Block>, n: nat, ns: Names)
    requires m.role != System && KeysKnown(ns)
    ensures |CarriedBy(m, blocks, n, ns)| <= |blocks|
    ensures CarriedBy(m, blocks, n, ns) == blocks <==> IntactBlocks(m, blocks, ns)
  {
    if blocks != [] {
      hide IntactBlock, Count, KeysKnown, CarriedBy, CarriedLast, IntactBlocks;
      var front, b := blocks[..|blocks| - 1], blocks[|blocks| - 1];
      BlocksIntact(m, front, n, ns);
      OneIntact(m, b, n + Count(front), ns);
      assert blocks == front + [b];
      CarriedStep(m, front, b, n, ns);
      var bs, more := CarriedBy(m, front, n, ns), CarriedLast(m, b, n + Count(front), ns);
      if |bs| == |front| && |more| == 1 {
        SplitEqual(bs, more, front, [b]);
      }
    }
  }

  lemma {:induction false} OneIntact(m: Message, b: Block, n: nat, ns: Names)
    requires m.role != System && KeysKnown(ns)
    ensures var more := CarriedLast(m, b, n, ns);
            |more| <= 1 && (more == [b] <==> IntactBlock(m, b, ns))
  {
    hide MintedId;
    if b.ToolUse? && b.id == "" {
      IdsAreNotEmpty(n + 1);
    }
  }

  lemma {:induction false} IdsAreNotEmpty(n: nat)
    ensures MintedId(n) != ""
  {
  }

  /** What comes back of any request, message by message: spoken messages without their signatures,
      redacted thinking and stray results, id-less calls with the ids minted for them; tool messages
      with their results under the ids they were sent with; no system message, which travels apart, and
      no empty one.  So a request comes back unchanged if and only if there is nothing of that kind in
      it. */
  lemma {:induction false} WhatComesBack(msgs: seq<Message>)
    ensures var ns := LearnAll(AllCalls(msgs));
            && Parse(Serialize(msgs)) == CarriedRequest(msgs, ns)
            && (Parse(Serialize(msgs)) == msgs <==> forall m | m in msgs :: Intact(m, ns))
  {
    hide AllCalls, LearnAll, Contents, ParseContents, CarriedRequest, Intact, NoEmptyIds, KeysKnown;
    var calls := AllCalls(msgs);
    var ns := LearnAll(calls);
    AllCallsHaveKeys(msgs);
    NamesHaveKeys(calls);
    NamesKnowTheirKeys(calls);
    ContentsCarry(msgs, ns);
    RequestIntact(msgs, ns);
  }

  lemma {:induction false} RequestIntact(msgs: seq<Message>, ns: Names)
    requires KeysKnown(ns)
    ensures |CarriedRequest(msgs, ns)| <= |msgs|
    ensures CarriedRequest(msgs, ns) == msgs <==> forall m | m in msgs :: Intact(m, ns)
  {
    hide Intact, CarriedMessage, CountAll, KeysKnown;
    if msgs != [] {
      var front, m := msgs[..|msgs| - 1], msgs[|msgs| - 1];
      RequestIntact(front, ns);
      MessageIntact(m, CountAll(front), ns);
      assert msgs == front + [m];
      var ms, more := CarriedRequest(front, ns), CarriedMessage(m, CountAll(front), ns);
      if |ms| == |front| && |more| == 1 {
        SplitEqual(ms, more, front, [m]);
      }
    }
  }

  lemma {:induction false} MessageIntact(m: Message, n: nat, ns: Names)
    requires KeysKnown(ns)
    ensures |CarriedMessage(m, n, ns)| <= 1 && (CarriedMessage(m, n, ns) == [m] <==> Intact(m, ns))
  {
    hide CarriedBlocks, CarriedResults, IntactBlock, KeysKnown, Count;
    if m.role != System {
      BlocksIntact(m, m.content, n, ns);
    }
  }

  // ----- the methods -----

  /** The ids the pre-pass synthesizes, keyed by message and block position. */
  type SynthIds = map<(nat, nat), string>

  /** Position p holds an id-less call, and the pre-pass has walked past it. */
  ghost predicate Due(msgs: seq<Message>, p: (nat, nat), upTo: nat, blocks: nat) {
    && p.0 < |msgs| && p.1 < |msgs[p.0].content| && IdLess(msgs[p.0].content[p.1])
    && (p.0 < upTo || (p.0 == upTo && p.1 < blocks))
  }

  /** The number the call at position p gets from the request-scoped counter. */
  ghost function Number(msgs: seq<Message>, p: (nat, nat)): nat
    requires p.0 < |msgs| && p.1 < |msgs[p.0].content|
  {
    CountAll(msgs[..p.0]) + Count(msgs[p.0].content[..p.1]) + 1
  }

  /** `synth` has exactly the id-less calls walked past, each with its own minted id. */
  ghost predicate SynthFor(synth: SynthIds, msgs: seq<Message>, upTo: nat, blocks: nat) {
    && (forall p :: p in synth <==> Due(msgs, p, upTo, blocks))
    && (forall p | p in synth :: Due(msgs, p, upTo, blocks) && synth[p] == MintedId(Number(msgs, p)))
  }

  lemma {:induction false} SynthStep(synth: SynthIds, msgs: seq<Message>, mi: nat, bi: nat)
    requires SynthFor(synth, msgs, mi, bi) && mi < |msgs| && bi < |msgs[mi].content|
    ensures !IdLess(msgs[mi].content[bi]) ==> SynthFor(synth, msgs, mi, bi + 1)
    ensures IdLess(msgs[mi].content[bi]) ==>
      SynthFor(synth[(mi, bi) := MintedId(Number(msgs, (mi, bi)))], msgs, mi, bi + 1)
  {
    hide MintedId, Number, IdLess;
    var next := if IdLess(msgs[mi].content[bi]) then synth[(mi, bi) := MintedId(Number(msgs, (mi, bi)))] else synth;
    forall p: (nat, nat) ensures p in next <==> Due(msgs, p, mi, bi + 1) {
      assert p in synth <==> Due(msgs, p, mi, bi);
    }
  }

  lemma {:induction false} SynthNextMessage(synth: SynthIds, msgs: seq<Message>, mi: nat)
    requires mi < |msgs| && SynthFor(synth, msgs, mi, |msgs[mi].content|)
    ensures SynthFor(synth, msgs, mi + 1, 0)
  {
    hide MintedId, Number, IdLess;
    forall p: (nat, nat) ensures p in synth <==> Due(msgs, p, mi + 1, 0) {
      assert p in synth <==> Due(msgs, p, mi, |msgs[mi].content|);
    }
  }

  lemma {:induction false} LearnOne(calls: seq<Call>, c: Call)
    ensures LearnAll(calls + [c]) == Learn(LearnAll(calls), c)
  {
    hide Learn;
    assert (calls + [c])[..|calls|] == calls;
  }

  /** What the pre-pass must learn from one more block. */
  lemma {:induction false} PrePassStep(blocks: seq<Block>, bi: nat, before: seq<Call>, n: nat)
    requires bi < |blocks|
    ensures Count(blocks[..bi + 1]) == Count(blocks[..bi]) + (if IdLess(blocks[bi]) then 1 else 0)
    ensures var known := LearnAll(before + Calls(blocks[..bi], n));
            LearnAll(before + Calls(blocks[..bi + 1], n)) ==
            if blocks[bi].ToolUse?
            then Learn(known, (KeyOf(blocks[bi], n + Count(blocks[..bi])), blocks[bi].name)) else known
  {
    hide Learn, LearnAll, Calls, Count, KeyOf, Parts, PartOf, Results, Others;
    var b, seen := blocks[bi], Calls(blocks[..bi], n);
    AppendBlock(blocks[..bi], b, n);
    assert blocks[..bi + 1] == blocks[..bi] + [b];
    if b.ToolUse? {
      var c := (KeyOf(b, n + Count(blocks[..bi])), b.name);
      LearnOne(before + seen, c);
      assert before + (seen + [c]) == before + seen + [c];
    } else {
      assert seen + [] == seen;
    }
  }

  /** The pre-pass over one message's blocks. */
  method PrePassMessage(msgs: seq<Message>, mi: nat, ns0: Names, synth0: SynthIds, counter0: nat,
                        ghost before: seq<Call>)
    returns (ns: Names, synth: SynthIds, counter: nat)
    requires mi < |msgs| && ns0 == LearnAll(before) && SynthFor(synth0, msgs, mi, 0)
    requires counter0 == CountAll(msgs[..mi])
    ensures ns == LearnAll(before + Calls(msgs[mi].content, counter0))
    ensures counter == counter0 + Count(msgs[mi].content)
    ensures SynthFor(synth, msgs, mi, |msgs[mi].content|)
  {
    hide MintedId, Learn, LearnAll, SynthFor, CountAll;
    ns, synth, counter := ns0, synth0, counter0;
    var blocks, bi := msgs[mi].content, 0;
    assert blocks[..0] == [] && before + [] == before;
    while bi < |blocks|
      invariant 0 <= bi <= |blocks| && counter == counter0 + Count(blocks[..bi])
      invariant ns == LearnAll(before + Calls(blocks[..bi], counter0))
      invariant SynthFor(synth, msgs, mi, bi)
    {
      hide Calls, Count;
      PrePassStep(blocks, bi, before, counter0);
      SynthStep(synth, msgs, mi, bi);
      var b := blocks[bi];
      if b.ToolUse? {
        var key := b.id;
        if b.id == "" {
          counter := counter + 1;
          key := MintedId(counter);
          synth := synth[(mi, bi) := key];
        }
        ns := Learn(ns, (key, b.name));
      }
      bi := bi + 1;
    }
    assert blocks[..bi] == blocks;
  }

  /** The correlation pre-pass over the whole request. */
  method PrePass(msgs: seq<Message>) returns (ns: Names, synth: SynthIds)
    ensures ns == LearnAll(AllCalls(msgs))
    ensures SynthFor(synth, msgs, |msgs|, 0)
  {
    hide MintedId, Learn, Count, Calls;
    ns, synth := Names(map[], map[]), map[];
    var counter, mi := 0, 0;
    while mi < |msgs|
      invariant 0 <= mi <= |msgs| && counter == CountAll(msgs[..mi])
      invariant ns == LearnAll(AllCalls(msgs[..mi]))
      invariant SynthFor(synth, msgs, mi, 0)
    {
      hide LearnAll, SynthFor;
      ns, synth, counter := PrePassMessage(msgs, mi, ns, synth, counter, AllCalls(msgs[..mi]));
      SynthNextMessage(synth, msgs, mi);
      assert msgs[..mi + 1][..mi] == msgs[..mi];
      mi := mi + 1;
    }
    assert msgs[..mi] == msgs;
  }

  /** What looking up the finished table gives. */
  lemma {:induction false} SynthIs(synth: SynthIds, msgs: seq<Message>, mi: nat, bi: nat)
    requires SynthFor(synth, msgs, |msgs|, 0) && mi < |msgs| && bi < |msgs[mi].content|
    requires msgs[mi].content[bi].ToolUse?
    ensures var b := msgs[mi].content[bi];
            var key := if (mi, bi) in synth then synth[(mi, bi)] else b.id;
            key != "" && key == KeyOf(b, CountAll(msgs[..mi]) + Count(msgs[mi].content[..bi]))
  {
    hide CountAll, Count;
    assert (mi, bi) in synth <==> Due(msgs, (mi, bi), |msgs|, 0);
  }

  /** `serialize_part`, given the synthesized id the table holds for the block, if any. */
  function SerializePart(b: Block, synthId: Option<string>): seq<Part>
  {
    match b
    case TextBlock(t) => [PText(t)]
    case Image(m, d) => [PInline(m, d)]
    case Thinking(t, _) => [PThought(t)]
    case ToolUse(id, name, input) =>
      var callId := if synthId.Some? then synthId.value else id;
      [PCall(if callId == "" then None else Some(callId), name, Some(input))]
    case ToolResult(_, _, _) => []
    case RedactedThinking(_) => []
  }

  /** What one more block adds, by way of the table. */
  lemma {:induction false} SpokenStep(msgs: seq<Message>, mi: nat, bi: nat, synth: SynthIds)
    requires SynthFor(synth, msgs, |msgs|, 0) && mi < |msgs| && bi < |msgs[mi].content|
    ensures var blocks, n := msgs[mi].content, CountAll(msgs[..mi]);
            var synthId := if (mi, bi) in synth then Some(synth[(mi, bi)]) else None;
            Parts(blocks[..bi + 1], n) == Parts(blocks[..bi], n) + SerializePart(blocks[bi], synthId)
  {
    hide MintedId, CountAll, SynthFor, SerializePart, Parts, PartOf, Count, Calls, KeyOf, Results, Others;
    var blocks, n := msgs[mi].content, CountAll(msgs[..mi]);
    var b := blocks[bi];
    AppendBlock(blocks[..bi], b, n);
    assert blocks[..bi + 1] == blocks[..bi] + [b];
    var k := n + Count(blocks[..bi]);
    if b.ToolUse? {
      SynthIs(synth, msgs, mi, bi);
      assert KeyOf(b, k) != "";
    }
    var synthId := if (mi, bi) in synth then Some(synth[(mi, bi)]) else None;
    SerializePartIs(b, synthId, k);
  }

  lemma {:induction false} SerializePartIs(b: Block, synthId: Option<string>, n: nat)
    requires b.ToolUse? ==> KeyOf(b, n) != "" && KeyOf(b, n) == if synthId.Some? then synthId.value else b.id
    ensures SerializePart(b, synthId) == PartOf(b, n)
  {
    hide MintedId, KeyOf;
  }

  /** `serialize_request`'s loop over one user or assistant message. */
  method SpokenMessage(msgs: seq<Message>, mi: nat, synth: SynthIds) returns (parts: seq<Part>)
    requires mi < |msgs| && SynthFor(synth, msgs, |msgs|, 0)
    ensures parts == Parts(msgs[mi].content, CountAll(msgs[..mi]))
  {
    hide MintedId, CountAll, SynthFor, SerializePart, PartOf, Count;
    var blocks := msgs[mi].content;
    ghost var n := CountAll(msgs[..mi]);
    parts := [];
    var bi := 0;
    assert blocks[..0] == [] && Parts([], n) == [];
    while bi < |blocks|
      invariant 0 <= bi <= |blocks| && parts == Parts(blocks[..bi], n)
    {
      SpokenStep(msgs, mi, bi, synth);
      parts := parts + SerializePart(blocks[bi], if (mi, bi) in synth then Some(synth[(mi, bi)]) else None);
      bi := bi + 1;
    }
    assert blocks[..bi] == blocks;
  }

  /** `serialize_request`. */
  method SerializeRequest(msgs: seq<Message>) returns (contents: seq<Content>)
    ensures contents == Serialize(msgs)
  {
    hide CountAll, LearnAll, AllCalls, Parts, ResultParts, MintedId;
    var ns, synth := PrePass(msgs);
    contents := [];
    var mi := 0;
    assert msgs[..0] == [];
    while mi < |msgs|
      invariant 0 <= mi <= |msgs| && contents == Contents(msgs[..mi], ns)
    {
      var m := msgs[mi];
      AppendMessage(msgs[..mi], m, ns);
      assert msgs[..mi + 1] == msgs[..mi] + [m];
      assert contents + [] == contents;
      match m.role {
        case System =>
        case Tool =>
          var parts := ResultParts(m.content, ns);
          if parts != [] {
            contents := contents + [Content(true, parts)];
          }
        case _ =>
          var parts := SpokenMessage(msgs, mi, synth);
          if parts != [] {
            contents := contents + [Content(m.role == User, parts)];
          }
      }
      mi := mi + 1;
    }
    assert msgs[..mi] == msgs;
  }

  /** `parse_parts`, which bumps the request's counter for every call without an id. */
  method ParsePartList(parts: seq<Part>, counter: nat) returns (next: nat, blocks: seq<Block>)
    ensures (next, blocks) == ParseParts(parts, counter)
  {
    hide ParsePart;
    next, blocks := counter, [];
    var i := 0;
    while i < |parts|
      invariant 0 <= i <= |parts| && (next, blocks) == ParseParts(parts[..i], counter)
    {
      assert parts[..i + 1][..i] == parts[..i];
      var (n, b) := ParsePart(parts[i], next);
      next, blocks := n, blocks + [b];
      i := i + 1;
    }
    assert parts[..i] == parts;
  }

  /** The `contents` of a request, one counter for all of them. */
  method ParseRequest(contents: seq<Content>) returns (msgs: seq<Message>)
    ensures msgs == Parse(contents)
  {
    hide ParseParts, Results, Others;
    var counter, i := 0, 0;
    msgs := [];
    while i < |contents|
      invariant 0 <= i <= |contents| && (counter, msgs) == ParseContents(contents[..i], 0)
    {
      assert contents[..i + 1][..i] == contents[..i];
      var c, blocks := contents[i], [];
      counter, blocks := ParsePartList(c.parts, counter);
      if c.fromUser && Results(blocks) != [] {
        var out := [Message(Tool, Results(blocks))];
        if Others(blocks) != [] {
          out := out + [Message(User, Others(blocks))];
        } else {
          assert out + [] == out;
        }
        msgs := msgs + out;
      } else {
        msgs := msgs + [Message(if c.fromUser then User else Assistant, blocks)];
      }
      i := i + 1;
    }
    assert contents[..i] == contents;
  }
}
