# A verified model of the gateway's privacy guard and streaming core

The gateway sits between LLM clients and providers that speak different protocols. It redacts
sensitive values on the way out, restores them on the way back, and translates event streams
between the OpenAI, Anthropic and Gemini formats. This project models the parts of it whose
correctness spans many calls, and proves what they promise.

| files | what they model |
|---|---|
| `TokenGrammar`, `TokenSearch` | the `<NAME_n>` token grammar, the template and collision checks, finding and replacing tokens |
| `Vault`, `AutomatonCache` | minting tokens in a session, the version-stamped automaton cache, alone and under concurrent threads |
| `Redaction` | the multi-rule rewriting pass, and that restoring undoes it |
| `StreamingRestore`, `ChannelRestore` | restoring a stream fragment by fragment, one channel at a time |
| `JsonString`, `JsonReader`, `JsonText`, `JsonLexemes` | JSON escaping and a reader of escapes (section 7 of RFC 8259), printing, and texts spelled in any way |
| `JsonGrammar`, `JsonDerivation`, `GeminiObjects` | a recognizer of JSON texts, the derivation trees of RFC 8259 it agrees with, and the objects a streamed call may carry |
| `SseFraming`, `SseText` | server-sent-event framing, and event streams described line by line |
| `AnthropicStream`, `OpenAiStream`, `GeminiStream` | the stream decoders, and the Anthropic and Gemini encoders |
| `DecoderRuns` | whole streams of chunks through the OpenAI and Gemini decoders, and the Gemini encoder read back |
| `Relay`, `RelayDecoders`, `EndToEnd` | the relay loop with its terminal flush, the three decoders it runs with, and what a client reads from the first byte to the last |
| `GeminiTools`, `AnthropicConvert` | tool-call correlation in Gemini requests, Anthropic response bodies |
| `Bytes`, `Ordered`, `Neutral`, `Messages` | UTF-8 texts, ascending index sets, the protocol-neutral events and messages |

Content (text, tool arguments, payloads) is a sequence of bytes, because character boundaries and
byte offsets matter there; ids, names and models are strings. Every object that the source updates
in place (`RedactionSession`, `RestoreStream`, `StreamRestorer`, `SseFraming`, the decoders and
encoders, the relay) is a class whose methods are proved equal to a specification function; the
theorems are about those functions. `dafny verify dfyconfig.toml` checks the whole project.

Rules are arbitrary functions from a text to sorted, disjoint, non-empty spans; the allow-list is
an arbitrary predicate. A protocol's JSON parser is an arbitrary function from payloads to chunks.
Client disconnects, upstream errors and idle timeouts are steps that may come at any time.

## Where the code promises less than one might expect

- Redacting and restoring gives back what restoring the text itself with the vault before the call
  would have given, as long as that spells no token the engine could mint; so a text comes back exactly
  when that restore leaves it alone (`RestoreAsBefore`, `RestoreAfterRedact`;
  `LiteralTokenBreaksRoundTrip` has texts on which it fails, one of them a token that is minted only
  later). With no condition at all, `OnlyLiteralsAreAltered` says what comes back.
- An error does not keep an Anthropic or Gemini upstream from ending its message: a `message_stop`, or
  a finish reason, before the error or after it, still sends the client the stop that marks success
  (`AnthropicStopIff`, `GeminiStopIff`, and two inputs in `AnthropicStopFollowsError` and
  `GeminiStopFollowsError`). Only the end marker is withheld, and for clients of these two protocols
  it is empty. With the OpenAI decoder no stop is ever sent with an error.
- The Gemini encoder forgets a call once its object is complete: one more fragment of that index, even
  an empty one, opens a new call, which the stop sends with null arguments
  (`EncoderBuffersCorrectly`, `StopRepeatsTrailingCall`, `EmptyFragmentAddsCall`).
- The Anthropic encoder keeps one signature at a time. A second one in the same run of reasoning
  replaces the first, as it does when two signed thinking blocks come with nothing or a redacted block
  between them (`SecondSignatureWins`, `RedactedThinkingJoinsRuns`), and one that no thinking block
  takes up is never sent (`StraySignatureIsLost`). Two calls that share an index in a row become one
  (`SharedIndexMergesCalls`). `DecodeUndoesEncode` has the exact condition.
- `restore_json` leaves object keys alone and the streamed tool-argument channel does not. The two
  agree exactly on values no key of which restoring would change (`ToolArgumentsAgree`).
- The streamed tool-argument channel works on the text, the other path on the parsed value. A token
  that an upstream writes with an escape in it, say `\u003c` for `<`, is restored by the second and
  passed on by the first (`EscapedTokenPasses`); `StreamedTextAgrees` covers every text in which
  tokens are spelled without escapes.
- The Gemini fixed point fails when two calls share an id and a result names the second one's
  function, or when a result names a call that stands in a system or tool message and so is never
  sent; `SerializeIsFixedPoint` has the exact condition and `SharedIdBreaksFixedPoint` a request.
- A Gemini request drops what it has no place for: signatures, redacted thinking, and a result that
  does not stand in a tool message, such as a function response a client sends under role `model`
  (`WhatComesBack`, `ResultsSurvive`, `ModelResultIsDropped`).
- A stop reason survives the Anthropic wire exactly when it is not an `Other` that spells one of
  the five reserved words (`StopReasonSurvives`).
- The Gemini wire has no reason for stopping at tool calls: `ToolCalls` is sent as `STOP` and read back
  as `Stop` (`GeminiReasonSurvives`).
- The Gemini encoder sends a completed call with candidate index 0 but an incomplete one with its
  tool index as the candidate index (src/adapters/gemini/stream.rs:264-311); the model does the same.

## Model

| member | source | states |
|---|---|---|
| TokenGrammar.ValidateTemplateExact | src/core/privacy.rs:156-181 | the validator accepts a text if and only if it is `<NAME{n}>` for some name of the documented grammar, and then the extracted prefix is that name |
| TokenGrammar.MintedShape | src/core/privacy.rs:481 | replacing every slot of an accepted template by a counter gives the grammar's token for that name and counter |
| TokenGrammar.CollisionCheckExact | src/core/privacy.rs:190-207 | two distinct names are rejected if and only if some counters n, m >= 1 make them mint the same token |
| TokenGrammar.TokensDistinct | src/core/privacy.rs:262-287 | on an accepted template list, equal minted tokens come from the same template and the same counter |
| TokenGrammar.CheckNamespaces | src/core/privacy.rs:262-287 | the pairwise loop answers yes exactly when every template is in the grammar and no two could ever mint the same token |
| TokenSearch.NoOverlap | src/core/privacy.rs:13-18 | two token occurrences in any text that share a byte are the same occurrence of the same token |
| TokenSearch.PrefixFree | src/core/privacy.rs:13-18 | no token is a proper prefix of another |
| TokenSearch.AcceptedTokensSeparate | src/core/privacy.rs:262-287 | tokens of an accepted engine are equal only for the same template and counter; otherwise neither is a prefix of the other and no two occurrences overlap in any text |
| TokenSearch.FindFrom | src/core/privacy.rs:579-610 | the search finds the leftmost position where a pattern occurs, and the first pattern in list order there, or nothing if there is none |
| TokenSearch.FindIter | src/core/privacy.rs:512-526 | the collected matches are sorted, disjoint and contain every token occurrence, whatever the order of the patterns |
| TokenSearch.RestoreText | src/core/privacy.rs:512-526 | the cursor loop computes the left-to-right replacement of every vault token by its original |
| Vault.NewEngine | src/core/privacy.rs:146-313 | building an engine succeeds if and only if the backend is `memory`, every rule has a non-blank name, a template in the grammar and a compiling pattern that matches no probe emptily, no two templates could ever mint the same token, and the allow patterns compile; without rules the built-in ones are in force; `max_token_len` is the largest room any template needs |
| Vault.MaxTokenLen | src/core/privacy.rs:300-307 | the result is at least 16, covers every template's room and is needed by one of them or is 16 |
| Vault.TakenRuleIsProbed | src/core/privacy.rs:146-154 | a rule is taken only if its pattern has no empty match in any of the seven probes and none at all in the empty text |
| Vault.DefaultsAccepted | src/core/privacy.rs:48-66 | the built-in rules, which are not validated when used, are an accepted template list |
| Vault.NextTokenIsFresh | src/core/privacy.rs:479-492 | the token of a counter not yet used is not in the vault, even when rules share a name and so a counter |
| Vault.MintKeepsInv | src/core/privacy.rs:466-499 | one mint keeps the vault invariant, never changes an existing entry, fails only at the cap, and never reaches the different-original branch |
| Vault.VaultOverRuns | src/core/privacy.rs:466-499 | over every sequence of mints by any rules the maps agree, the vault stays within 4096 entries and nothing minted is lost |
| Vault.EqualPairsKeepTheirToken | src/core/privacy.rs:466-471 | asking again after any run of other mints, under any rule of the same name, gives the first token and leaves the vault alone |
| Vault.VaultTokensFit | src/core/privacy.rs:300-307 | every vault token has the token shape and fits `max_token_len` |
| Vault.RedactionSession.constructor | src/core/privacy.rs:371-377 | a new session is valid and empty |
| Vault.RedactionSession.TokenFor | src/core/privacy.rs:466-499 | the method mints as the specification does, keeps the session valid and the cache coherent |
| Vault.RedactionSession.ListTokens | src/core/privacy.rs:596-599 | the snapshot lists exactly the vault's tokens |
| Vault.RedactionSession.Automaton | src/core/privacy.rs:579-610 | the patterns handed out are exactly the vault's tokens, cached or rebuilt, and there are none exactly when the vault is empty |
| Vault.RedactionSession.Restored | src/core/privacy.rs:512-526 | restoring through the cached automaton is the one-shot restore of the session's vault |
| AutomatonCache.NextKeepsInv | src/core/privacy.rs:579-610 | every atomic step of any thread, and a mint between any two of them, keeps the stamping invariant and the exclusive write lock |
| AutomatonCache.CacheIsCoherent | src/core/privacy.rs:579-610 | in every reachable state of every interleaving, a cache stamped with the vault's version has exactly the vault's tokens, and a thread's patterns cover every token the vault held when its call began |
| Redaction.RestoreRender | src/core/privacy.rs:512-526 | restoring a mix of literal bytes and tokens gives its meaning, if the meaning holds no literal vault token |
| Redaction.SpansKeepMeaning | src/core/privacy.rs:430-461 | one rule's pass over any pieces yields pieces of the same meaning in a vault that extends the one before |
| Redaction.RuleReplacesExactly | src/core/privacy.rs:430-461 | a successful pass replaces exactly the matches that touch no earlier token and are not allow-listed, each by the token assigned to it under the rule's name, and changes no other byte |
| Redaction.NoRuleIsSkipped | src/core/privacy.rs:428-463 | for every successful redaction there are texts and vaults, one more than rules, from the input to the output, and each rule replaced exactly its wanted matches between two of them |
| Redaction.PassChangesText | src/core/privacy.rs:430-461 | a pass changes the text if and only if the rule has a match to replace, as long as the text does not spell a token minted in that very pass |
| Redaction.NoMatchIsForwarded | src/core/privacy.rs:428-463 | if the text spells no token the engine could mint, every rule's pass changes what it finds exactly when the rule has a match there that touches no earlier token and is not allow-listed |
| Redaction.OnlyTheCapRefuses | src/core/privacy.rs:428-499 | a redaction is refused only when the vault is full |
| Redaction.RestoreAfterRedact | src/core/privacy.rs:428-526 | for any rules, allow-list, session state and later vault, restoring the redacted text gives what restoring the text itself with the vault before the call gives, so the text comes back if and only if that restore leaves it alone; provided that restore spells no token of the later vault |
| Redaction.SessionRestores | src/core/privacy.rs:428-526 | the same for every text of a session, against the session's final vault and the vault before that text |
| Redaction.TokenSplits | src/core/privacy.rs:512-526 | a vault token anywhere in a text splits the restore: each side is restored on its own |
| Redaction.OnlyLiteralsAreAltered | src/core/privacy.rs:428-526 | with no condition on the text: what comes back is the text with each run of bytes the rules left standing restored on its own |
| Redaction.RedactThenRestore | src/core/privacy.rs:428-463 | in particular, restoring the redacted text with any later vault gives the original when it holds no literal token of that vault |
| Redaction.SessionRoundTrip | src/core/privacy.rs:428-526 | in particular, the final vault gives back every text of a session that holds none of its literal tokens |
| Redaction.SpellsNoVaultToken | src/core/privacy.rs:466-499 | a text that spells none of the tokens the engine's rules could mint in a session holds no token of any vault the engine's sessions can reach |
| Redaction.RestoreAsBefore | src/core/privacy.rs:428-526 | under a condition to be checked before the call, that restoring the text with the present vault spells no token the engine could mint: with any later vault that restore is what comes back, and the text comes back if and only if it leaves the text alone |
| Redaction.PlainTextComesBack | src/core/privacy.rs:428-526 | a text that spells no token the engine could mint always comes back, whatever the session before and after |
| Redaction.SessionRestoresAsBefore | src/core/privacy.rs:428-526 | the exact law for every text of a session, each under a condition that can be checked before its own call |
| Redaction.PlainSessionComesBack | src/core/privacy.rs:428-526 | the final vault gives back every text of a session that spells no token the engine could mint |
| Redaction.LiteralTokenBreaksRoundTrip | src/core/privacy.rs:428-463 | a text that spells a token of the vault, under every rule set, or one minted only later that no rule matches, passes redaction unchanged, and is given back if and only if the token stands for itself |
| Redaction.TokenSpans | src/core/privacy.rs:434-439 | the protected spans are exactly the token occurrences of the vault at the start of the pass |
| Redaction.RunRule | src/core/privacy.rs:430-461 | the inner loop computes the specified pass and leaves the session valid |
| Redaction.RedactText | src/core/privacy.rs:428-463 | the rule loop computes the specified redaction; on success every rule had its pass, in order, each on the text the one before left, and a refusal leaves a full vault |
| JsonString.PrefixSurvivesEscape | src/core/privacy.rs:666-673 | a text of unescaped bytes is a prefix of an escaped text exactly when it is one of the original |
| JsonString.EscapeCommutes | src/core/privacy.rs:666-673 | splicing escaped originals into escaped text is escaping the restored text; with `JsonReader.UnescapeEscape`, a client reads the restored text |
| JsonReader.UnescapeEscape | src/core/privacy.rs:666-673 | a reader of the escapes of section 7 of RFC 8259, surrogate pairs included, reads every escaped string back |
| JsonReader.PrintedEscape | src/core/privacy.rs:666-673 | what is written for a quote, a backslash or a control character stands for exactly that byte |
| JsonReader.SpellingReads | src/core/privacy.rs:666-673 | a string spelled with any escapes is read as what each of them means |
| JsonReader.ReadIsSpelled | src/core/privacy.rs:666-673 | and whatever the reader accepts is such a spelling |
| JsonReader.Utf8IsValid | src/core/privacy.rs:666-673 | every code point an escape can stand for is written as well-formed UTF-8 |
| StreamingRestore.DrainOk | src/core/privacy.rs:649-675 | whatever arrives next, splicing the complete tokens of the buffer first does not change the restored text |
| StreamingRestore.FeedOk | src/core/privacy.rs:649-697 | one feed neither loses nor invents text: its output and the restore of what it holds plus any continuation is the restore of everything |
| StreamingRestore.FeedHolds | src/core/privacy.rs:649-697 | after every feed the held tail has no complete token, is empty or starts with `<`, is shorter than `max_token_len` and is well-formed UTF-8 |
| StreamingRestore.HoldBound | src/core/privacy.rs:676-695 | the bound holds even after the window is rounded down to a character boundary |
| StreamingRestore.StreamRefinesOneShot | src/core/privacy.rs:649-703 | for every vault and every fragmentation the outputs of the feeds and the final flush concatenate to the one-shot restore |
| StreamingRestore.RestoreStream.constructor | src/core/privacy.rs:628-646 | a new stream holds nothing |
| StreamingRestore.RestoreStream.Feed | src/core/privacy.rs:649-697 | the method computes the specified feed and keeps the session's vault |
| StreamingRestore.RestoreStream.SpliceTokens | src/core/privacy.rs:652-675 | the matching loop drains every complete token of the buffer |
| StreamingRestore.RestoreStream.FirstMatch | src/core/privacy.rs:653-659 | the match found is the leftmost token in the buffer |
| StreamingRestore.RestoreStream.Finish | src/core/privacy.rs:701-703 | the held tail is handed over and the buffer emptied |
| ChannelRestore.EventOk | src/core/privacy.rs:727-781 | one event: on every channel, what comes out and what is held account for what went in |
| ChannelRestore.ChannelsDoNotBleed | src/core/privacy.rs:727-810 | for every event sequence and each of text, reasoning and every tool index, the restored deltas and the flush concatenate to the one-shot restore of that channel alone, JSON-escaped for tools |
| ChannelRestore.MarksPassThrough | src/core/privacy.rs:727-781 | every id, name, start, stop, signature and error passes through, in order, exactly once |
| ChannelRestore.StreamRestorer.constructor | src/core/privacy.rs:716-723 | a new restorer has empty channels |
| ChannelRestore.StreamRestorer.ToolStream | src/core/privacy.rs:751-755 | an index gets its own stream at its first fragment and keeps it |
| ChannelRestore.StreamRestorer.FeedOpened | src/core/privacy.rs:751-755 | a fragment changes the stream of its own index only |
| ChannelRestore.StreamRestorer.FeedTool | src/core/privacy.rs:745-770 | a fragment is one JSON-escaping feed of its own index and leaves the other channels alone |
| ChannelRestore.StreamRestorer.RestoreEvent | src/core/privacy.rs:727-781 | the method computes the specified event and channel states |
| ChannelRestore.StreamRestorer.Finish | src/core/privacy.rs:784-810 | the flush emits what every channel still holds, tool calls in ascending index order |
| ChannelRestore.FlushIsOrdered | src/core/privacy.rs:784-810 | the flushed events are text, then reasoning, then the calls in ascending index order |
| ChannelRestore.StreamRestorer.DrainTools | src/core/privacy.rs:794-808 | the tool tails come out in ascending index order and the map is emptied |
| JsonText.SeparatorSplits | src/core/privacy.rs:666-673 | a byte no token contains splits a text: each side is restored on its own |
| JsonText.ValuePasses | src/core/privacy.rs:559-574 | a printed value restores in any context as it does alone |
| JsonText.PrintTells | src/core/privacy.rs:559-574 | two restorings of one value that print alike are alike, so printed text tells whether a key was rewritten |
| JsonText.ToolArgumentsAgree | src/core/privacy.rs:559-574 | for every JSON value and every fragmentation of its printed text, the tool-argument stream equals the printed restore of all its strings, which a client reads as the restored strings, and equals printing `restore_json` if and only if restoring leaves every key alone |
| JsonText.CleanKeysAreFixed | src/core/privacy.rs:559-574 | a value no key of which holds a vault token has its keys left alone, so the two paths agree on it |
| JsonText.TokenKeyDisagrees | src/core/privacy.rs:559-574 | on an object keyed by a vault token the stream differs from printing `restore_json`, however the text is fragmented |
| JsonLexemes.StringMends | src/core/privacy.rs:666-673 | a string spelled in any way, its tokens without escapes: the stream makes of its spelling one that is read as the restored string |
| JsonLexemes.StreamedTextAgrees | src/core/privacy.rs:649-703 | for every JSON text, however spelled and fragmented, whose strings spell their tokens without escapes, what the stream gives is a JSON text of the same structure whose strings are read as the restored ones |
| JsonLexemes.JsonIsLexed | src/core/privacy.rs:666-673 | every JSON text is a text that law speaks of |
| JsonLexemes.EscapedTokenPasses | src/core/privacy.rs:652-675 | a string that is read as a token but writes its `<` as an escape passes the stream untouched |
| JsonLexemes.LtCanBeEscaped | src/core/privacy.rs:652-675 | `\u003c` is such an escape |
| SseFraming.PushKeepsBounds | src/core/sse.rs:42-123 | for any chunks at all: the buffer has no LF and is within the cap, the event data are within the cap, LF-terminated and valid UTF-8, and so is every payload |
| SseFraming.RunLinesSplit | src/core/sse.rs:62-122 | reading on after a chunk boundary is reading the concatenation |
| SseFraming.PushesAreOneRead | src/core/sse.rs:38-123 | under the cap, pushing chunk by chunk is reading the concatenation at once |
| SseFraming.FramingMeetsSpec | src/core/sse.rs:38-140 | for total input within the cap, any split pushed and finished yields exactly the payloads of the whole stream read at once |
| SseText.StreamIsRead | src/core/sse.rs:38-140 | every stream, by its lines ended by LF or CRLF: an event's payload is the values of its `data:` fields joined by LF, one space after the colon dropped and a second one kept; other lines, fields that are not UTF-8 and an unterminated last line add nothing |
| SseText.OneField | src/core/sse.rs:75-92 | `data: v` and `data:v`, with LF or CRLF and a blank line, have the one payload v |
| SseText.ChunksAreRead | src/core/sse.rs:38-140 | the same for the stream cut into any chunks, within the cap |
| SseText.OverTheBufferCap | src/core/sse.rs:42-59 | a chunk over the cap is ignored; one that would overflow the buffer is read as if nothing had come before |
| SseText.OverTheEventCap | src/core/sse.rs:87-104 | a field that would make its event exceed the cap is dropped with the event's data so far, and reading goes on |
| SseFraming.PendingSurfaces | src/core/sse.rs:75-140 | under the cap, pending event data always surface as a payload, at a blank line or at the end |
| SseFraming.Framing.constructor | src/core/sse.rs:33-35 | a new framing is empty |
| SseFraming.Framing.Push | src/core/sse.rs:38-123 | the cursor loop computes the specified payloads and state, and every payload is valid UTF-8 |
| SseFraming.Framing.TakeLine | src/core/sse.rs:69-118 | one line is taken as the specification does, of which `SseText.StreamIsRead` says what it reads: strip one CR, end the event at a blank line, keep a valid `data:` value while it fits, drop the event when it does not |
| SseFraming.Framing.Finish | src/core/sse.rs:127-140 | the pending event is handed over unaltered and the state reset |
| AnthropicStream.StopReasonSurvives | src/adapters/anthropic/stream.rs:223-232 | a finish reason survives the wire if and only if it is not an `Other` that spells a reserved stop reason |
| AnthropicStream.StopReasonWords | src/adapters/anthropic/stream.rs:223-232 | which word is which stop reason, read and written; `stop_sequence` is a plain stop, any other word is kept |
| AnthropicStream.EncodeKeepsOk | src/adapters/anthropic/stream.rs:283-415 | every event keeps the register: `tool_blocks_open` is exactly the open tool index, or empty |
| AnthropicStream.ChoreographyHolds | src/adapters/anthropic/stream.rs:283-490 | for every event sequence the output is accepted by an independent acceptor of the protocol: blocks 0, 1, 2, ... never nested, deltas of the open block's index and kind, a signature only just before a thinking block's stop |
| AnthropicStream.EventMeansTheSame | src/adapters/anthropic/stream.rs:283-490 | one event: decoding what was encoded for it means what the wire carries of it, whatever was said before |
| AnthropicStream.DecodeUndoesEncode | src/adapters/anthropic/stream.rs:48-415 | for every event sequence ending in one stop, decoding the encoded stream yields the same blocks with the same text, reasoning and calls, each thinking block with the last signature that arrived for it and each call with its first id and name; everything said is heard if and only if no thinking block has a second signature, no call a second name and no signature is left over; starts and errors all cross in order; exactly one stop at the end, with the same finish reason exactly when it is not a reserved word |
| AnthropicStream.HeraldsCross | src/adapters/anthropic/stream.rs:283-415 | every message start, with its input tokens, and every error crosses, in order |
| AnthropicStream.SecondSignatureWins | src/adapters/anthropic/stream.rs:330-334 | of two signatures in one run of reasoning the client hears the second alone |
| AnthropicStream.RedactedThinkingJoinsRuns | src/adapters/anthropic/stream.rs:87-177 | two signed thinking blocks around a redacted one are decoded as one run of reasoning with two signatures |
| AnthropicStream.StraySignatureIsLost | src/adapters/anthropic/stream.rs:452-485 | a signature after which no thinking block comes is never sent |
| AnthropicStream.SharedIndexMergesCalls | src/adapters/anthropic/stream.rs:335-376 | two calls sharing an index, one after the other, are heard as one under the first one's id and name |
| AnthropicStream.OneCallOneBlock | src/adapters/anthropic/stream.rs:335-376 | a call whose fragments are contiguous is exactly one block with the first fragment's id and name, the concatenated arguments, and whatever ids and names the later fragments carry |
| AnthropicStream.AnthropicStreamEncoder.constructor | src/adapters/anthropic/stream.rs:263-274 | a new encoder has no block open |
| AnthropicStream.AnthropicStreamEncoder.EncodeEvent | src/adapters/anthropic/stream.rs:283-415 | the method computes the specified lines and state and keeps the register exact |
| AnthropicStream.AnthropicStreamEncoder.EnsureOpen | src/adapters/anthropic/stream.rs:425-450 | a block of the wanted kind is open afterwards, the other one closed first |
| AnthropicStream.AnthropicStreamEncoder.Close | src/adapters/anthropic/stream.rs:452-485 | the open block is closed, its signature sent and its tool index released |
| AnthropicStream.AnthropicStreamDecoder.constructor | src/adapters/anthropic/stream.rs:26-39 | a new decoder has seen nothing |
| AnthropicStream.AnthropicStreamDecoder.FeedWire | src/adapters/anthropic/stream.rs:48-203 | the method computes the specified events and state |
| AnthropicStream.AnthropicStreamDecoder.FinishStream | src/adapters/anthropic/stream.rs:205-220 | a stop is synthesized exactly when the stream started, did not fail and has had none |
| OpenAiStream.FeedNeverStops | src/adapters/openai/stream.rs:45-128 | no chunk ever ends the message |
| OpenAiStream.IdsComeFirst | src/adapters/openai/stream.rs:144-175 | over a run of fragments each index is introduced with its id and name at its first fragment only, and every fragment's arguments pass through |
| OpenAiStream.OpenAiStreamDecoder.constructor | src/adapters/openai/stream.rs:25-36 | a new decoder has seen nothing |
| OpenAiStream.OpenAiStreamDecoder.FeedChunk | src/adapters/openai/stream.rs:45-128 | the method computes the specified events and state |
| OpenAiStream.OpenAiStreamDecoder.CallEvents | src/adapters/openai/stream.rs:144-175 | the loop over the fragments computes the specified events and the set of indices seen |
| OpenAiStream.OpenAiStreamDecoder.FinishStream | src/adapters/openai/stream.rs:130-141 | one stop at the end, with what was pending, and never after a failure |
| JsonGrammar.ValueExtends | src/adapters/gemini/stream.rs:254-259 | a value that ends before the text does, or is no number, is the same value whatever follows |
| JsonGrammar.ObjectsArePrefixFree | src/adapters/gemini/stream.rs:254-259 | no proper prefix of an object text is JSON |
| JsonGrammar.SpaceAfterObject | src/adapters/gemini/stream.rs:254-259 | what follows a prefix of an object that is already JSON is white space |
| JsonDerivation.DerivedIsJson | src/adapters/gemini/stream.rs:254-259 | every text the grammar of RFC 8259 derives, white space included, is accepted, and objects are objects |
| JsonDerivation.JsonIffDerived | src/adapters/gemini/stream.rs:254-259 | a text is accepted if and only if that grammar derives it, and taken for an object exactly when the derivation is one |
| GeminiStream.MintedIdsDiffer | src/adapters/gemini/stream.rs:99-108 | ids minted from different counters differ |
| GeminiStream.CallIndicesRunOn | src/adapters/gemini/stream.rs:86-123 | call indices run on contiguously over the parts, whatever stands between the calls |
| GeminiStream.CallEmittedOnce | src/adapters/gemini/stream.rs:239-276 | for every interleaving, a call whose fragments only form JSON when the last one arrives is emitted exactly once, with the first fragment's id and name and the whole text |
| GeminiStream.EncoderBuffersCorrectly | src/adapters/gemini/stream.rs:239-276 | for every interleaving, an index whose fragments concatenate to a JSON object is emitted exactly once, at the fragment that completes it, with the first fragment's id and name; nothing of it stays pending if and only if no fragment follows that one, else a new call is pending under the next fragment's id and name |
| GeminiObjects.PrintedIsJson | src/adapters/gemini/stream.rs:254-259 | every printed value with the numerals of RFC 8259 is JSON, every printed object an object |
| GeminiObjects.PrintedObjectIsSent | src/adapters/gemini/stream.rs:239-276 | for every interleaving and fragmentation of a printed object the call is emitted exactly once, whole, with the first fragment's id and name; nothing stays pending if and only if the last fragment is not empty |
| GeminiObjects.DerivedObjectIsSent | src/adapters/gemini/stream.rs:239-276 | the same for every object the grammar derives, with white space around it: the call is emitted at the fragment with which the closing brace arrives |
| GeminiStream.EmptyTailStaysPending | src/adapters/gemini/stream.rs:239-276 | when the object's text ends at its closing brace, nothing stays pending if and only if the last fragment is not empty, and the call carries the whole text |
| GeminiStream.IncompleteStaysPending | src/adapters/gemini/stream.rs:239-276 | arguments that never form JSON emit nothing and stay pending under the first fragment's id and name |
| GeminiStream.StopFlushesPending | src/adapters/gemini/stream.rs:280-334 | at the stop every pending call is emitted exactly once in ascending index order with null arguments, id and name, then one finish chunk; a second stop says nothing |
| GeminiStream.StopRepeatsTrailingCall | src/adapters/gemini/stream.rs:239-314 | the stop emits such an index again, with null arguments, if and only if a fragment followed the one that completed its object, under that fragment's id and name |
| GeminiStream.EmptyFragmentAddsCall | src/adapters/gemini/stream.rs:245-314 | after `{}` one empty fragment of the same index makes the stop send a nameless call |
| GeminiStream.GeminiStreamDecoder.constructor | src/adapters/gemini/stream.rs:24-35 | a new decoder has seen nothing |
| GeminiStream.GeminiStreamDecoder.FeedChunk | src/adapters/gemini/stream.rs:44-157 | the method computes the specified events and state |
| GeminiStream.GeminiStreamDecoder.TakePart | src/adapters/gemini/stream.rs:86-123 | one part gives the specified events and the next call index |
| GeminiStream.GeminiStreamDecoder.PartsLoop | src/adapters/gemini/stream.rs:86-123 | the loop over the parts computes the specified events and the next call index |
| GeminiStream.GeminiStreamDecoder.FinishStream | src/adapters/gemini/stream.rs:159-170 | a stop is synthesized exactly when the stream started, did not fail and has had none |
| GeminiStream.GeminiStreamEncoder.constructor | src/adapters/gemini/stream.rs:198-206 | a new encoder has nothing pending |
| GeminiStream.GeminiStreamEncoder.EncodeEvent | src/adapters/gemini/stream.rs:215-355 | the method computes the specified lines and state |
| GeminiStream.GeminiStreamEncoder.FlushPending | src/adapters/gemini/stream.rs:288-314 | the pending calls come out in ascending index order and the map is emptied |
| DecoderRuns.OpenAiStreamSays | src/adapters/openai/stream.rs:45-128 | over every stream of chunks, on the text, reasoning and every tool channel, the deltas concatenate to what the chunks say |
| DecoderRuns.OpenAiStreamStops | src/adapters/openai/stream.rs:45-141 | the end of the stream emits one stop, with the last reason and usage the chunks carried, if and only if there was a chunk and none was an error |
| DecoderRuns.OpenAiStreamCalls | src/adapters/openai/stream.rs:45-175 | the calls of a stream are its fragments in order, however spread over chunks, so each index is named once in the whole stream |
| DecoderRuns.OpenAiReasonWords | src/adapters/openai/stream.rs:177-185 | which word is which finish reason; any other word is kept |
| DecoderRuns.OpenAiStreamStarts | src/adapters/openai/stream.rs:63-80 | a stream starts once, with the id and model of its first chunk that is no error, and only errors come before |
| DecoderRuns.GeminiStreamSays | src/adapters/gemini/stream.rs:44-157 | over every stream of chunks the visible text and the thoughts concatenate to those of the parts, and the k-th call event has index k, the name and arguments of the k-th call, and its id or else `fc_` and the decimal of k + 1 |
| DecoderRuns.GeminiStreamStops | src/adapters/gemini/stream.rs:44-170 | an error-free stream has exactly one stop: at the first finish reason with the usage known by then, or at the end |
| DecoderRuns.EncoderKeepsText | src/adapters/gemini/stream.rs:215-355 | for every event sequence the text and the thoughts on the wire concatenate to those of the events |
| DecoderRuns.GeminiReasonSurvives | src/adapters/gemini/stream.rs:370-378 | a finish reason survives the Gemini wire if and only if it is neither the tool-call reason nor an `Other` spelling a reserved one |
| DecoderRuns.GeminiReasonWords | src/adapters/gemini/stream.rs:173-180 | which word is which finish reason, read and written; the tool-call reason is written `STOP`, any other word is kept |
| DecoderRuns.GeminiStreamStarts | src/adapters/gemini/stream.rs:62-74 | a stream starts once, with no id and the model of its first chunk that is no error, and only errors come before |
| DecoderRuns.GeminiErrorCrosses | src/adapters/gemini/stream.rs:335-355 | an error on the Gemini wire is decoded as one error with its rendered message |
| DecoderRuns.GeminiDecodeUndoesEncode | src/adapters/gemini/stream.rs:44-355 | for every body of content events and a stop, decoding what the encoder wrote gives the same text, the same thoughts, for the k-th call on the wire a call of index k with its name and its id or `fc_` and k + 1, and exactly one stop, with its usage and the reason that crossed |
| Relay.PayloadsOfRun | src/core/pipeline.rs:557-633 | when reading stopped at the end or at an end marker, the payloads processed and the one framing still holds are the stream's payloads before its end marker |
| Relay.StreamRelay.constructor | src/core/pipeline.rs:534-556 | a new relay has sent nothing |
| Relay.StreamRelay.RelayEvent | src/core/pipeline.rs:865-904 | one event is restored, held if it is a stop, else encoded, logged and sent; nothing already decoded is lost while the client is there |
| Relay.StreamRelay.RelayEvents | src/core/pipeline.rs:865-904 | the same over a decoder's events, stopping as soon as the client is gone |
| Relay.StreamRelay.ProcessPayload | src/core/pipeline.rs:865-904 | one payload keeps the relay safe and in step with the specification |
| Relay.StreamRelay.TakeChunk | src/core/pipeline.rs:570-591 | one chunk processes its payloads up to an end marker |
| Relay.StreamRelay.TakeStep | src/core/pipeline.rs:563-609 | one turn of the loop keeps the relay safe and framing in step with the chunks that arrived |
| Relay.StreamRelay.ReadStream | src/core/pipeline.rs:557-610 | the loop reads until the end, an end marker, a failure or the client's leaving; framing is in step with the chunks that arrived and every payload before an end marker processed |
| Relay.StreamRelay.FlushFraming | src/core/pipeline.rs:613-633 | the payload framing still holds is processed unless it is the end marker |
| Relay.StreamRelay.FinishDecoder | src/core/pipeline.rs:639-661 | the decoder's last events go through the restorer, stops are held |
| Relay.StreamRelay.FlushRestorer | src/core/pipeline.rs:662-670 | what the restorer holds is sent as content, before any stop |
| Relay.StreamRelay.SendTerminals | src/core/pipeline.rs:674-683 | the held stop is the last event, and the end marker is sent only when no error was shown |
| Relay.StreamRelay.Terminate | src/core/pipeline.rs:612-683 | after the loop: at most one stop and nothing after it; none and no end marker after a failure; stops and errors only if decoded; and with the client there, exactly the events of the specification, after a failure those of the cut-off one, the held tail included |
| Relay.StreamRelay.Run | src/core/pipeline.rs:534-683 | over every interleaving of chunks, errors, timeouts and disconnects: at most one stop, no content after it, no stop or end marker after a failure, no end marker after a shown error, no stop or error the decoder did not make; on every run on which the client stays and the bytes that arrived are clean, exactly the events specified for those bytes, ended or cut off; and for a clean stream under the cap, however it is cut into chunks, exactly those of the whole |
| RelayDecoders.AnthropicDecoderOk | src/adapters/anthropic/stream.rs:48-220 | the Anthropic decoder emits at most one stop ever, no error at the end and only valid UTF-8, as the relay needs |
| RelayDecoders.OpenAiDecoderOk | src/adapters/openai/stream.rs:45-141 | the same for the OpenAI decoder |
| RelayDecoders.GeminiDecoderOk | src/adapters/gemini/stream.rs:44-170 | the same for the Gemini decoder |
| RelayDecoders.ClientReadsRestoredText | src/core/pipeline.rs:534-683 | on every channel the text of the relay's specified events concatenates to the one-shot restore of that channel's concatenated upstream text |
| EndToEnd.AnthropicStreamSays | src/adapters/anthropic/stream.rs:48-203 | over every stream of Anthropic events, on every channel, the deltas concatenate to what the events say |
| EndToEnd.GeminiSaysAll | src/adapters/gemini/stream.rs:44-157 | over every stream of Gemini chunks each channel has what the parts say, tool channel i the arguments of the i-th call |
| EndToEnd.SpecEnds | src/core/pipeline.rs:534-683 | what the encoder is given has a stop, or an error, exactly when the decoder made one |
| EndToEnd.CutReads | src/core/pipeline.rs:662-670 | of a stream that was cut off, each channel is the one-shot restore of what was decoded of it |
| EndToEnd.CutEnds | src/core/pipeline.rs:671-683 | a stream that was cut off shows no stop, and an error exactly when one was decoded |
| EndToEnd.OpenAiStopIff | src/adapters/openai/stream.rs:45-141 | an OpenAI stream ends in a stop if and only if there are chunks and none is an error: never after an error |
| EndToEnd.AnthropicStopIff | src/adapters/anthropic/stream.rs:48-220 | an Anthropic stream ends in a stop if and only if it carries a `message_stop`, before an error or after it, or has started and carries no error |
| EndToEnd.AnthropicStreamStops | src/adapters/anthropic/stream.rs:48-220 | over any events, the one stop carries the last stop reason before it, and the last output tokens told with the input tokens known by then |
| EndToEnd.GeminiStopIff | src/adapters/gemini/stream.rs:44-170 | a Gemini stream ends in a stop if and only if a chunk that is no error carries a finish reason, before an error or after it, or there are chunks and none is an error |
| EndToEnd.AnthropicStopFollowsError | src/adapters/anthropic/stream.rs:179-201 | an error followed by `message_stop` sends the client the error and then the stop |
| EndToEnd.GeminiStopFollowsError | src/adapters/gemini/stream.rs:52-154 | an error chunk followed by a finish reason sends the client the error and then the stop |
| EndToEnd.RelayRun | src/core/pipeline.rs:534-683 | a relay built with any sound decoder, with a privacy session or without, has the safety of `Run` on every run, and is given exactly the specified events, of an ended stream or one cut off, whenever the client stays and what arrived is clean |
| EndToEnd.RelayOpenAi | src/core/pipeline.rs:534-683 | from the bytes to the client with the OpenAI decoder: on every run no stop is sent with an error; on every run on which the client stays and what arrived is clean, each channel is the one-shot restore of what the chunks say, and the stop comes exactly when the stream was not cut off, there are chunks and none is an error |
| EndToEnd.RelayAnthropic | src/core/pipeline.rs:534-683 | the same with the Anthropic decoder; a stop is sent with an error only if a `message_stop` was processed, on a run that is clean and not cut off exactly then |
| EndToEnd.RelayGemini | src/core/pipeline.rs:534-683 | the same with the Gemini decoder; a stop is sent with an error only if a finish reason was processed, on a run that is clean and not cut off exactly then |
| GeminiTools.PrePassMessage | src/adapters/gemini/convert.rs:295-311 | one message's blocks: the maps learn its calls and the id-less ones get the next minted ids |
| GeminiTools.PrePass | src/adapters/gemini/convert.rs:287-311 | the pre-pass learns the first call of each id and of each name, and numbers exactly the id-less calls in order |
| GeminiTools.SpokenMessage | src/adapters/gemini/convert.rs:326-340 | a user or assistant message becomes the specified parts, every call with its id or its synthesized one |
| GeminiTools.SerializeRequest | src/adapters/gemini/convert.rs:278-385 | the loops compute the specified contents |
| GeminiTools.ParsePartList | src/adapters/gemini/convert.rs:145-153 | the parts of one content are parsed with the request's counter running on |
| GeminiTools.ParseRequest | src/adapters/gemini/convert.rs:97-143 | the contents become messages, results inside a user message split off into a tool message |
| GeminiTools.PartsAreRead | src/adapters/gemini/convert.rs:145-244 | any parts become one block each, in order, field by field: unnamed calls are numbered on, missing arguments are an empty object, a result has its id or its name, and bare, wrapped and other replies their text and flag |
| GeminiTools.ResultsAndOthers | src/adapters/gemini/convert.rs:113-122 | blocks are their results and the others interleaved, each in order |
| GeminiTools.ContentIsRead | src/adapters/gemini/convert.rs:97-143 | a model content is one assistant message; a user content one user message, unless it has results, which come first in a tool message, the rest following in a user message if there is any |
| GeminiTools.ContentsAreRead | src/adapters/gemini/convert.rs:97-143 | any contents are read one after the other, the numbering of unnamed calls running on across them |
| GeminiTools.MintedIdsAreDistinct | src/adapters/gemini/convert.rs:184-193 | two unnamed calls anywhere in a request get different ids |
| GeminiTools.ResponseFixedIff | src/adapters/gemini/convert.rs:342-385 | one result parsed and serialized again is unchanged if and only if it is consistent with the calls that are sent |
| GeminiTools.SerializeIsFixedPoint | src/adapters/gemini/convert.rs:278-400 | for every request the calls that are sent survive serialize-parse, and serialize-parse-serialize leaves every content unchanged if and only if each result's id, or the id of its function's first call, has the same name among the calls that are sent |
| GeminiTools.DistinctIdsAreEnough | src/adapters/gemini/convert.rs:278-400 | with calls in user and assistant messages only, distinct call ids, explicit and synthesized, are enough for the fixed point |
| GeminiTools.DistinctIff | src/adapters/gemini/convert.rs:294-309 | call ids, given and synthesized, are distinct if and only if the given ones are and none of them spells `fc_1` to `fc_k`, k the number of id-less calls |
| GeminiTools.ResultsFindTheirCall | src/adapters/gemini/convert.rs:358-364 | a result naming a call by id gets that call's id and name; by function name, the first such call's id and that name |
| GeminiTools.ResultCarriesItsCall | src/adapters/gemini/convert.rs:352-377 | on the wire a result naming a call by id, or by a function name that is no call's id, carries that call's id and name (the first such call's for a name), its text and its error flag |
| GeminiTools.ResultsSurvive | src/adapters/gemini/convert.rs:342-385 | what serialize-parse gives back of a request's results is always those of its tool messages, text and error flag, in order; so every result survives if and only if none stands in another message |
| GeminiTools.ModelResultIsDropped | src/adapters/gemini/convert.rs:97-143 | a function response in a model content stays in the assistant message, and serializing drops it |
| GeminiTools.WhatComesBack | src/adapters/gemini/convert.rs:97-385 | what serialize-parse gives back of any request, message by message and block by block, and that it is the request itself if and only if it has no system or empty message, no signature, redacted thinking, id-less call, stray block or result that names a function instead of an id |
| GeminiTools.SharedIdBreaksFixedPoint | src/adapters/gemini/convert.rs:305-309 | two calls sharing an id give a request on which the fixed point fails |
| AnthropicConvert.BlockRoundTrip | src/adapters/anthropic/convert.rs:388-432 | every block but a tool result is printed, and parses back to itself |
| AnthropicConvert.ParseAfterSerialize | src/adapters/anthropic/convert.rs:445-558 | what comes back of any response: everything but its tool results and the name of a reserved reason |
| AnthropicConvert.ResponseRoundTrip | src/adapters/anthropic/convert.rs:445-558 | printing then parsing gives the response back if and only if it has no tool result and its finish reason is not a spelled-out reserved one |
| AnthropicConvert.ParsedResponseIsStable | src/adapters/anthropic/convert.rs:147-216 | whatever the parser accepts is given back by printing and parsing again if and only if it has no tool result |
| AnthropicConvert.RefusedBodies | src/adapters/anthropic/convert.rs:445-460 | a body is invalid exactly when it is no object, and an upstream error exactly when it is an error body, with its `status` cut to 16 bits or 500 |
| AnthropicConvert.AcceptedBody | src/adapters/anthropic/convert.rs:445-487 | every other object is accepted and read field by field, with the defaults for what is missing |
| AnthropicConvert.ResultIsRead | src/adapters/anthropic/convert.rs:193-214 | a tool result is read exactly when it has an id, with its text, the texts of an array joined by newlines, and its flag |
| AnthropicConvert.BlockIsRead | src/adapters/anthropic/convert.rs:155-216 | text, thinking, redacted thinking and tool use are read member by member; an unknown type is dropped |
| AnthropicConvert.ImageIsRead | src/adapters/anthropic/convert.rs:159-173 | an image is read from base64 data with its media type or from a URL |

## Left out

- Regular expressions and Aho-Corasick internals: a rule is an arbitrary span function that never matches the empty string (`can_match_empty` probes only a few strings), the automaton a naive leftmost search.
- `is_allowed`: an arbitrary predicate on the matched text.
- `redact_json`, `redact_request` and `restore_response`: traversals that apply the text operations to every string.
- `serde_json`: parsing is an arbitrary function where a stream is decoded, and values are taken as parsed in `AnthropicConvert` and `GeminiTools`; the recognizer in `JsonGrammar` is exactly RFC 8259 with surrogate escapes in pairs, so it has no limit on nesting depth or on the range of a number.
- Vault.RedactionSession.TokenFor: counters and versions are unbounded, so the 64-bit wrap-around is not modelled.
- Relay.StreamRelay.Run: says nothing about which payloads are read after an end marker in the same chunk, where the code makes no clean promise.
- System instructions, sampling parameters, tool declarations, contents of an unknown role and parts of an unknown kind in Gemini requests: field copying and dropping.
- Error variants other than the upstream API error in a stream, and their status codes.
- DecoderRuns.GeminiDecodeUndoesEncode: a call's arguments come back as an arbitrary reprinting of what was sent, because parsing and printing them is `serde_json`'s work.
- The OpenAI stream encoder and body conversion: the latter joins text blocks and is lossy by design.
- Anthropic request bodies, and Gemini response bodies.
- `handle_json_as_stream` and `response_to_events`: one event per block, which would only add easy members.
- HTTP, routing, keep-alive comments, real time, the memory store, configuration, authentication, model listings, token estimates and error bodies.
