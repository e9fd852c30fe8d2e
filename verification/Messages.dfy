/** Protocol-neutral messages (src/core/neutral.rs) and the JSON values they carry. */
module Messages {
  import opened Bytes
  import opened Neutral

  /** A parsed JSON value, as `serde_json::Value` holds one. */
  datatype Value =
    | Null
    | Bool(b: bool)
    | PosInt(n: nat)
    | OtherNumber(numeral: string)
    | Str(s: string)
    | Arr(items: seq<Value>)
    | Obj(members: map<string, Value>)

  /** `Value::get`. */
  function Get(v: Value, key: string): Option<Value> {
    if v.Obj? && key in v.members then Some(v.members[key]) else None
  }

  /** `get(key).and_then(Value::as_str)`. */
  function GetStr(v: Value, key: string): Option<string> {
    match Get(v, key)
    case Some(Str(s)) => Some(s)
    case _ => None
  }

  function GetNat(v: Value, key: string): Option<nat> {
    match Get(v, key)
    case Some(PosInt(n)) => Some(n)
    case _ => None
  }

  datatype Role = System | User | Assistant | Tool

  datatype Block =
    | TextBlock(text: string)
    | Image(mediaType: string, base64: string)
    | Thinking(thinking: string, signature: Option<string>)
    | ToolUse(id: string, name: string, input: Value)
    | ToolResult(toolUseId: string, content: string, isError: bool)
    | RedactedThinking(data: string)

  datatype Message = Message(role: Role, content: seq<Block>)

  datatype Response = Response(id: string, model: string, content: seq<Block>, finish: FinishReason, usage: Option<Usage>)
}
