/** The protocol-neutral stream (src/core/neutral.rs, src/core/error.rs). */
module Neutral {
  import opened Bytes

  datatype Usage = Usage(inputTokens: nat, outputTokens: nat)

  datatype FinishReason = Stop | Length | ToolCalls | ContentFilter | Other(reason: string)

  /** The one error variant a stream decoder produces. */
  datatype AdapterError = Api(message: Text)

  /** `to_string` of that variant. */
  function Display(e: AdapterError): Text { Ascii("upstream api error: ") + e.message }

  datatype Event =
    | MessageStart(startId: string, model: string, startUsage: Option<Usage>)
    | TextDelta(text: Text)
    | ReasoningDelta(reasoning: Text)
    | ReasoningSignature(signature: string)
    | ToolCallDelta(index: nat, id: string, name: string, arguments: Text)
    | MessageStop(finish: FinishReason, stopUsage: Option<Usage>)
    | Error(error: AdapterError)

  /** Every delta carries well-formed UTF-8, as a Rust `String` does. */
  predicate EventUtf8(e: Event) {
    match e
    case TextDelta(t) => ValidUtf8(t)
    case ReasoningDelta(t) => ValidUtf8(t)
    case ToolCallDelta(_, _, _, args) => ValidUtf8(args)
    case _ => true
  }
}
