/** Anthropic response bodies (src/adapters/anthropic/convert.rs, `parse_response`,
    `serialize_response`), on parsed JSON values. */
module AnthropicConvert {
  import opened Bytes
  import opened Neutral
  import opened Messages
  import Stream = AnthropicStream

  // ----- printing -----

  /** `serialize_assistant_block`. */
  function SerializeBlock(b: Block): Option<Value> {
    match b
    case TextBlock(t) => Some(Obj(map["type" := Str("text"), "text" := Str(t)]))
    case Image(mediaType, data) =>
      var source := if mediaType == "url" then map["type" := Str("url"), "url" := Str(data)]
                    else map["type" := Str("base64"), "media_type" := Str(mediaType), "data" := Str(data)];
      Some(Obj(map["type" := Str("image"), "source" := Obj(source)]))
    case Thinking(t, signature) =>
      var block := map["type" := Str("thinking"), "thinking" := Str(t)];
      Some(Obj(if signature.None? then block else block["signature" := Str(signature.value)]))
    case ToolUse(id, name, input) =>
      Some(Obj(map["type" := Str("tool_use"), "id" := Str(id), "name" := Str(name), "input" := input]))
    case RedactedThinking(data) => Some(Obj(map["type" := Str("redacted_thinking"), "data" := Str(data)]))
    case ToolResult(_, _, _) => None
  }

  function SerializeBlocks(bs: seq<Block>): seq<Value> {
    if bs == [] then []
    else (match SerializeBlock(bs[0]) case Some(v) => [v] case None => []) + SerializeBlocks(bs[1..])
  }

  function SerializeUsage(u: Usage): Value {
    Obj(map["input_tokens" := PosInt(u.inputTokens), "output_tokens" := PosInt(u.outputTokens)])
  }

  function SerializeResponse(r: Response): Value {
    var root := map["id" := Str(r.id), "type" := Str("message"), "role" := Str("assistant"),
                    "model" := Str(r.model), "content" := Arr(SerializeBlocks(r.content)),
                    "stop_reason" := Str(Stream.StopReasonText(r.finish)), "stop_sequence" := Null];
    Obj(if r.usage.None? then root else root["usage" := SerializeUsage(r.usage.value)])
  }

  // ----- parsing -----

  function ParseSource(source: Value): Option<Block> {
    match GetStr(source, "type")
    case Some(kind) =>
      if kind == "base64" then
        match (GetStr(source, "media_type"), GetStr(source, "data"))
        case (Some(m), Some(d)) => Some(Image(m, d))
        case _ => None
      else if kind == "url" then
        match GetStr(source, "url")
        case Some(u) => Some(Image("url", u))
        case None => None
      else None
    case None => None
  }

  /** The texts of an array-valued tool result, joined by newlines. */
  function JoinTexts(items: seq<Value>): Option<string> {
    if items == [] then None
    else
      match (GetStr(items[0], "text"), JoinTexts(items[1..]))
      case (Some(t), Some(rest)) => Some(t + "\n" + rest)
      case (Some(t), None) => Some(t)
      case (None, rest) => rest
  }

  function ParseResult(block: Value): Option<Block> {
    var content := match Get(block, "content")
                   case Some(Str(s)) => s
                   case Some(Arr(items)) => var t := JoinTexts(items); if t.Some? then t.value else ""
                   case _ => "";
    var failed := match Get(block, "is_error")
                  case Some(Bool(b)) => b
                  case _ => false;
    match GetStr(block, "tool_use_id")
    case Some(id) => Some(ToolResult(id, content, failed))
    case None => None
  }

  /** `parse_block`. */
  function ParseBlock(block: Value): Option<Block> {
    match GetStr(block, "type")
    case None => None
    case Some(kind) =>
      if kind == "text" then
        match GetStr(block, "text")
        case Some(t) => Some(TextBlock(t))
        case None => None
      else if kind == "image" then
        match Get(block, "source")
        case Some(source) => ParseSource(source)
        case None => None
      else if kind == "thinking" then
        match GetStr(block, "thinking")
        case Some(t) => Some(Thinking(t, GetStr(block, "signature")))
        case None => None
      else if kind == "redacted_thinking" then
        match GetStr(block, "data")
        case Some(d) => Some(RedactedThinking(d))
        case None => None
      else if kind == "tool_use" then
        var input := match Get(block, "input") case Some(v) => v case None => Obj(map[]);
        match (GetStr(block, "id"), GetStr(block, "name"))
        case (Some(id), Some(name)) => Some(ToolUse(id, name, input))
        case _ => None
      else if kind == "tool_result" then ParseResult(block)
      else None
  }

  function ParseBlocks(vs: seq<Value>): seq<Block> {
    if vs == [] then []
    else (match ParseBlock(vs[0]) case Some(b) => [b] case None => []) + ParseBlocks(vs[1..])
  }

  /** `parse_content_blocks`. */
  function ParseContentBlocks(content: Option<Value>): seq<Block> {
    match content
    case Some(Str(s)) => if s == "" then [] else [TextBlock(s)]
    case Some(Arr(items)) => ParseBlocks(items)
    case _ => []
  }

  function ParseUsage(u: Value): Usage {
    var count := (key: string) => match GetNat(u, key) case Some(n) => n case None => 0;
    Usage(count("input_tokens"), count("output_tokens"))
  }

  datatype Parsed = Good(response: Response) | InvalidRequest | Upstream(status: nat)

  predicate IsErrorBody(v: Value) { Get(v, "error").Some? || GetStr(v, "type") == Some("error") }

  /** `parse_response` on a body that is JSON; the upstream status is cut to 16 bits. */
  function ParseResponse(v: Value): Parsed {
    if !v.Obj? then InvalidRequest
    else if IsErrorBody(v) then
      Upstream((match GetNat(v, "status") case Some(n) => n case None => 500) % 0x1_0000)
    else
      var id, model := GetStr(v, "id"), GetStr(v, "model");
      var finish := match GetStr(v, "stop_reason") case Some(s) => Stream.ParseStopReason(s) case None => Stop;
      var usage := match Get(v, "usage") case Some(u) => Some(ParseUsage(u)) case None => None;
      Good(Response(if id.Some? then id.value else "", if model.Some? then model.value else "",
                    ParseContentBlocks(Get(v, "content")), finish, usage))
  }

  // ----- printing then parsing -----

  lemma {:induction false} BlockRoundTrip(b: Block)
    ensures SerializeBlock(b).None? <==> b.ToolResult?
    ensures !b.ToolResult? ==> ParseBlock(SerializeBlock(b).value) == Some(b)
  {
  }

  function Speakable(bs: seq<Block>): (kept: seq<Block>)
    ensures |kept| <= |bs| && (kept == bs <==> forall b | b in bs :: !b.ToolResult?)
  {
    if bs == [] then []
    else
      var rest := Speakable(bs[1..]);
      assert bs == [bs[0]] + bs[1..];
      if bs[0].ToolResult? then rest else [bs[0]] + rest
  }

  lemma {:induction false} BlocksRoundTrip(bs: seq<Block>)
    ensures ParseBlocks(SerializeBlocks(bs)) == Speakable(bs)
  {
    hide SerializeBlock, ParseBlock;
    if bs != [] {
      BlocksRoundTrip(bs[1..]);
      BlockRoundTrip(bs[0]);
      var rest := SerializeBlocks(bs[1..]);
      if bs[0].ToolResult? {
        assert SerializeBlocks(bs) == rest;
      } else {
        var v := SerializeBlock(bs[0]).value;
        assert ([v] + rest)[0] == v && ([v] + rest)[1..] == rest;
      }
    }
  }

  /** The fields of a printed response. */
  lemma {:induction false} PrintedFields(r: Response)
    ensures var v := SerializeResponse(r);
            && v.Obj? && Get(v, "error").None? && Get(v, "type") == Some(Str("message"))
            && Get(v, "id") == Some(Str(r.id)) && Get(v, "model") == Some(Str(r.model))
            && Get(v, "content") == Some(Arr(SerializeBlocks(r.content)))
            && Get(v, "stop_reason") == Some(Str(Stream.StopReasonText(r.finish)))
            && Get(v, "usage") == if r.usage.Some? then Some(SerializeUsage(r.usage.value)) else None
  {
    hide SerializeBlocks, SerializeUsage, Stream.StopReasonText;
  }

  lemma {:induction false} UsageRoundTrip(u: Usage)
    ensures ParseUsage(SerializeUsage(u)) == u
  {
  }

  /** What comes back of any response: everything but its tool results and a reserved reason's name. */
  lemma {:induction false} ParseAfterSerialize(r: Response)
    ensures ParseResponse(SerializeResponse(r))
            == Good(r.(content := Speakable(r.content),
                       finish := Stream.ParseStopReason(Stream.StopReasonText(r.finish))))
  {
    hide SerializeBlocks, ParseBlocks, Speakable, Stream.ParseStopReason, Stream.StopReasonText;
    hide SerializeResponse, Get, ParseUsage, SerializeUsage;
    BlocksRoundTrip(r.content);
    PrintedFields(r);
    if r.usage.Some? {
      UsageRoundTrip(r.usage.value);
    }
  }

  /** Printing then parsing gives the response back exactly when it has no tool result and its
      finish reason is not a spelled-out reserved one. */
  lemma {:induction false} ResponseRoundTrip(r: Response)
    ensures ParseResponse(SerializeResponse(r)) == Good(r)
            <==> (forall b | b in r.content :: !b.ToolResult?) && !(r.finish.Other? && Stream.Reserved(r.finish.reason))
  {
    hide SerializeResponse, ParseResponse, Stream.Reserved, Stream.ParseStopReason, Stream.StopReasonText;
    ParseAfterSerialize(r);
    Stream.StopReasonSurvives(r.finish);
  }

  /** Hence whatever the parser accepts, tool results aside, survives being sent on and read again. */
  lemma {:induction false} ParsedResponseIsStable(v: Value)
    requires ParseResponse(v).Good?
    ensures var r := ParseResponse(v).response;
            ParseResponse(SerializeResponse(r)) == Good(r) <==> forall b | b in r.content :: !b.ToolResult?
  {
    hide SerializeResponse, ParseContentBlocks, ParseUsage, Stream.StopReasonText;
    var r := ParseResponse(v).response;
    assert !(r.finish.Other? && Stream.Reserved(r.finish.reason));
    ResponseRoundTrip(r);
  }

  // ----- parsing any body -----

  /** An error body: it has a member `error`, or its `type` is `error`. */
  predicate ShowsError(members: map<string, Value>) {
    "error" in members || ("type" in members && members["type"] == Str("error"))
  }

  /** Which bodies are refused: what is no object, and, as the upstream's error, exactly the error bodies,
      with their `status` cut to 16 bits or 500. */
  lemma {:induction false} RefusedBodies(v: Value)
    ensures ParseResponse(v).InvalidRequest? <==> !v.Obj?
    ensures ParseResponse(v).Upstream? <==> v.Obj? && ShowsError(v.members)
    ensures v.Obj? && ShowsError(v.members) ==>
              ParseResponse(v).status == if "status" in v.members && v.members["status"].PosInt?
                                         then v.members["status"].n % 65536 else 500
  {
    hide ParseContentBlocks, ParseUsage, Stream.ParseStopReason;
  }

  function StrOr(members: map<string, Value>, key: string, otherwise: string): string {
    if key in members && members[key].Str? then members[key].s else otherwise
  }

  function NatOr(v: Value, key: string, otherwise: nat): nat {
    if v.Obj? && key in v.members && v.members[key].PosInt? then v.members[key].n else otherwise
  }

  /** Every other object is read field by field, with defaults for what is missing. */
  lemma {:induction false} AcceptedBody(members: map<string, Value>)
    requires !ShowsError(members)
    ensures var p := ParseResponse(Obj(members));
            && p.Good? && p.response.id == StrOr(members, "id", "") && p.response.model == StrOr(members, "model", "")
            && p.response.finish == Stream.ParseStopReason(StrOr(members, "stop_reason", "end_turn"))
            && (p.response.usage.Some? <==> "usage" in members)
            && ("usage" in members ==>
                  && p.response.usage.value.inputTokens == NatOr(members["usage"], "input_tokens", 0)
                  && p.response.usage.value.outputTokens == NatOr(members["usage"], "output_tokens", 0))
            && ("content" !in members ==> p.response.content == [])
            && ("content" in members && members["content"].Str? ==>
                  p.response.content == if members["content"].s == "" then [] else [TextBlock(members["content"].s)])
            && ("content" in members && members["content"].Arr? ==>
                  p.response.content == ParseBlocks(members["content"].items))
  {
    hide ParseBlocks;
    Stream.StopReasonWords();
  }

  /** A tool result: its id, its text, an array's texts joined by newlines, and its flag. */
  lemma {:induction false} ResultIsRead(members: map<string, Value>)
    requires "type" in members && members["type"] == Str("tool_result")
    ensures ParseBlock(Obj(members)).Some? <==> "tool_use_id" in members && members["tool_use_id"].Str?
    ensures ParseBlock(Obj(members)).Some? ==>
              var b := ParseBlock(Obj(members)).value;
              && b.ToolResult? && b.toolUseId == members["tool_use_id"].s
              && (b.isError <==> "is_error" in members && members["is_error"] == Bool(true))
              && ("content" in members && members["content"].Str? ==> b.content == members["content"].s)
              && ("content" in members && members["content"].Arr? ==> b.content == Lines(TextsOf(members["content"].items)))
              && (!("content" in members && (members["content"].Str? || members["content"].Arr?)) ==> b.content == "")
  {
    if "content" in members && members["content"].Arr? {
      JoinIsLines(members["content"].items);
    }
  }

  /** The texts of the items that have one, in order. */
  function TextsOf(items: seq<Value>): seq<string> {
    if items == [] then [] else TextsOf(items[..|items| - 1]) + TextOf(items[|items| - 1])
  }

  function TextOf(v: Value): seq<string> {
    if v.Obj? && "text" in v.members && v.members["text"].Str? then [v.members["text"].s] else []
  }

  function Lines(ts: seq<string>): string {
    if ts == [] then "" else if |ts| == 1 then ts[0] else Lines(ts[..|ts| - 1]) + "\n" + ts[|ts| - 1]
  }

  lemma {:induction false} LinesCons(t: string, ts: seq<string>)
    requires ts != []
    ensures Lines([t] + ts) == t + "\n" + Lines(ts)
  {
    var all := [t] + ts;
    assert all[..|all| - 1] == [t] + ts[..|ts| - 1];
    if |ts| == 1 {
      assert all[..1] == [t];
    } else {
      LinesCons(t, ts[..|ts| - 1]);
    }
  }

  lemma {:induction false} TextsCons(items: seq<Value>)
    requires items != []
    ensures TextsOf(items) == (match GetStr(items[0], "text") case Some(t) => [t] case None => []) + TextsOf(items[1..])
  {
    hide TextsOf, TextOf;
    TextsLast(items);
    TextOfFirst(items[0]);
    if |items| == 1 {
      assert items[..0] == [] && items[1..] == [];
      NoTexts();
      assert TextsOf(items) == TextOf(items[0]) + [];
    } else {
      var front, rest, last := items[..|items| - 1], items[1..], items[|items| - 1];
      TextsCons(front);
      TextsLast(rest);
      assert rest[..|rest| - 1] == front[1..] && rest[|rest| - 1] == last && front[0] == items[0];
      Assoc(TextOf(items[0]), TextsOf(front[1..]), TextOf(last));
    }
  }

  lemma {:induction false} TextsLast(items: seq<Value>)
    requires items != []
    ensures TextsOf(items) == TextsOf(items[..|items| - 1]) + TextOf(items[|items| - 1])
  {
  }

  lemma {:induction false} NoTexts()
    ensures TextsOf([]) == []
  {
  }

  lemma {:induction false} TextOfFirst(v: Value)
    ensures TextOf(v) == match GetStr(v, "text") case Some(t) => [t] case None => []
  {
  }

  lemma {:induction false} JoinIsLines(items: seq<Value>)
    ensures JoinTexts(items).Some? <==> TextsOf(items) != []
    ensures JoinTexts(items).Some? ==> JoinTexts(items).value == Lines(TextsOf(items))
  {
    if items != [] {
      JoinIsLines(items[1..]);
      TextsCons(items);
      var rest := TextsOf(items[1..]);
      match GetStr(items[0], "text") {
        case Some(t) =>
          if rest != [] {
            LinesCons(t, rest);
          } else {
            assert [t] + rest == [t];
          }
        case None => assert [] + rest == rest;
      }
    }
  }

  /** The other blocks, member by member. */
  lemma {:induction false} BlockIsRead(members: map<string, Value>)
    requires "type" in members && members["type"].Str?
    ensures members["type"].s == "text" && "text" in members && members["text"].Str? ==>
              ParseBlock(Obj(members)) == Some(TextBlock(members["text"].s))
    ensures members["type"].s == "thinking" && "thinking" in members && members["thinking"].Str? ==>
              ParseBlock(Obj(members))
              == Some(Thinking(members["thinking"].s, if "signature" in members && members["signature"].Str?
                                                      then Some(members["signature"].s) else None))
    ensures members["type"].s == "redacted_thinking" && "data" in members && members["data"].Str? ==>
              ParseBlock(Obj(members)) == Some(RedactedThinking(members["data"].s))
    ensures members["type"].s == "tool_use" && "id" in members && members["id"].Str? && "name" in members
            && members["name"].Str? ==>
              ParseBlock(Obj(members)) == Some(ToolUse(members["id"].s, members["name"].s,
                                                       if "input" in members then members["input"] else Obj(map[])))
    ensures members["type"].s !in {"text", "image", "thinking", "redacted_thinking", "tool_use", "tool_result"} ==>
              ParseBlock(Obj(members)) == None
  {
    hide ParseSource, ParseResult;
  }

  /** An image: base64 data with its media type, or a URL. */
  lemma {:induction false} ImageIsRead(members: map<string, Value>, source: map<string, Value>)
    requires "type" in members && members["type"] == Str("image") && "source" in members && members["source"] == Obj(source)
    ensures "type" in source && source["type"] == Str("base64") && "media_type" in source && source["media_type"].Str?
            && "data" in source && source["data"].Str? ==>
              ParseBlock(Obj(members)) == Some(Image(source["media_type"].s, source["data"].s))
    ensures "type" in source && source["type"] == Str("url") && "url" in source && source["url"].Str? ==>
              ParseBlock(Obj(members)) == Some(Image("url", source["url"].s))
  {
    hide ParseResult;
  }
}
