# Kimi-Free-API controllers in Dafny

This project models the three request controllers of Kimi-Free-API:

- `src/api/controllers/chat-v2.ts`, the OpenAI-compatible chat controller over the Connect RPC backend;
- `src/api/controllers/claude-adapter.ts`, the Claude Messages front end;
- `src/api/controllers/gemini-adapter.ts`, the Gemini `generateContent` front end.

It covers credential extraction and token classification, and scenario and `thinking` selection from the model name. It covers the normalisers that turn Claude messages and Gemini contents into canonical `user`/`assistant` turns, including the "system text goes in front of the first user turn, once" placement. It covers the rule that only the last message reaches the backend, and the three non-streaming response mappers.

The three stream transcoders are folds over a sequence of inputs:

- the OpenAI emitter folds over backend messages;
- the Claude and Gemini transcoders fold over classified SSE lines. The Claude transcoder's state is `{isFirstChunk, buffer, ended}` and the Gemini transcoder's is `{buffer, ended}`.

The OpenAI emitter and each transcoder are composed end to end. For example, a Claude client streaming a backend answer of two non-empty texts and then `done` (say `"Hel"`, `"lo"`) receives exactly `message_start`, `content_block_start`, two `content_block_delta`s, `content_block_stop`, `message_delta`, `message_stop` (`Pipeline.ClaudeHello`).

Module layout, one file each:

- `Wrappers`: `Option` and `Result`.
- `Text`: the JavaScript string operations the source uses. These are `trim`, `split`/`join`, `startsWith`/`includes`, ASCII lower-casing and `.length` in UTF-16 code units.
- `Protocol`: the wire records, errors and the `Exchange` record of whether the backend was called.
- `Credentials`, `Scenarios`, `Canonical`, `ChatV2`, `OpenAIStream`: `chat-v2.ts`, plus the turn placement shared by both adapters.
- `Sse`: line classification, records and the reference definitions of a stream.
- `ClaudeAdapter`, `ClaudeStream`: `claude-adapter.ts`.
- `GeminiAdapter`, `GeminiStream`: `gemini-adapter.ts`.
- `Pipeline`: the composition of the OpenAI emitter with each transcoder, and the streaming entry points.

Things the controllers take from outside become parameters:

- the JWT payload decoder (`decode`);
- `JSON.stringify`/`JSON.parse` (`stringify`, `parse`);
- the RPC calls (`chatText`, `chat`);
- `util.uuid`/`util.unixTimestamp` (`freshId`, `messageId`, `now`, and `stamps`, indexed by chunk number).

The end-to-end lemmas assume only `Pipeline.JsonCodec`. It says that parsing a serialised chunk gives the chunk back, and that a serialised chunk is one line starting with `{`.

Places where the code throws a `TypeError` become explicit error results:

- an empty `messages` array (`NoMessages`);
- a completion body without `choices[0]` (`MalformedResponse`).

## Model

| member | source | states |
|---|---|---|
| Credentials.TokenFrom | src/api/controllers/chat-v2.ts:51-57 | a token taken from a header is never empty and has no surrounding white space; the header is rejected as malformed exactly when nothing but white space remains once the scheme is stripped |
| Credentials.ExtractAuthToken | src/api/controllers/chat-v2.ts:31-58 | the request fails for a missing credential exactly when neither `authorization` nor `x-goog-api-key` is truthy; any token returned is non-empty and trimmed; the only errors are "missing" and "malformed" |
| Credentials.ExtractBearerToken | src/api/controllers/chat-v2.ts:41-57 | `authorization` wins over the API key: a `Bearer` header in any letter case, white space, and any rest yields that rest trimmed whatever the API key is, and is malformed when the rest is only white space |
| Credentials.StripSchemeHeader | src/api/controllers/chat-v2.ts:51 | the case-insensitive `^Bearer\s+` strip removes the scheme and all of the white space after it and leaves the rest |
| Credentials.ExtractPlainHeader | src/api/controllers/chat-v2.ts:41-57 | an `authorization` header without the scheme and white space is used as it is, trimmed, and is malformed when it is only white space |
| Credentials.ExtractBareToken | src/api/controllers/chat-v2.ts:41-57 | a bare JWT sent in `authorization` without a scheme is accepted unchanged |
| Credentials.ExtractApiKey | src/api/controllers/chat-v2.ts:41-55 | without `authorization`, the API key becomes the token after trimming, and an all-white-space key is rejected as malformed |
| Credentials.StripKeyHeader | src/api/controllers/chat-v2.ts:43-51 | wrapping the API key as `Bearer <key>` and stripping again gives the key without its leading white space |
| Credentials.DetectTokenType | src/api/controllers/chat-v2.ts:66-84 | `jwt` only for a token that starts with `eyJ`, has exactly three `.`-separated segments, and whose middle segment decodes to `app_id == "kimi"` and `typ == "access"` |
| Credentials.JwtFromSegments | src/api/controllers/chat-v2.ts:66-84 | the converse: for three dot-free segments with an `eyJ` head, the token is `jwt` if and only if its decoded payload is accepted; a payload that does not decode gives `refresh` |
| Credentials.RefreshUnlessTwoDots | src/api/controllers/chat-v2.ts:69-83 | a token that does not split into exactly three segments is always `refresh` |
| Scenarios.FirstMatch | src/api/controllers/chat-v2.ts:139-146 | the scenario chosen belongs to a rule whose pattern occurs in the model name and no earlier rule's pattern occurs; no scenario means that no pattern occurs |
| Scenarios.SelectScenarioPrecedence | src/api/controllers/chat-v2.ts:139-146 | `search` gives `SCENARIO_SEARCH`, else `research` gives `SCENARIO_RESEARCH`, else `k1` gives `SCENARIO_K1`, else `SCENARIO_K2` |
| Scenarios.ResearchContainsSearch | src/api/controllers/chat-v2.ts:140-143 | every name that contains `research` also contains `search` |
| Scenarios.ResearchUnreachable | src/api/controllers/chat-v2.ts:265-272 | no model name selects SCENARIO_RESEARCH |
| Scenarios.SearchExactly | src/api/controllers/chat-v2.ts:265-272 | SEARCH, K1 and K2 are each selected exactly under their condition: `search`; no `search` but `k1`; neither |
| Canonical.TypedTextsAppend | src/api/controllers/chat-v2.ts:117-122 | the `type === "text"` filter keeps order: the texts of concatenated part lists are the concatenated texts |
| Canonical.TypedTextsMembers | src/api/controllers/chat-v2.ts:117-122 | every part typed `text` contributes its text (or `""` when it has none), and every kept text comes from such a part |
| Canonical.ContentTextRecoversParts | src/api/controllers/chat-v2.ts:117-122 | joining the `text` parts with `"\n"` loses nothing: when no part holds a newline, splitting the result gives the parts back in order |
| Canonical.PrependSystem | src/api/controllers/claude-adapter.ts:52-55 | placing the system text keeps the number of turns and every role, and never touches an assistant turn |
| Canonical.PlacedOnce | src/api/controllers/claude-adapter.ts:52-55 | at most one turn is changed by the placement: once a turn is changed, every later turn is as it was |
| Canonical.PrependSystemCons | src/api/controllers/gemini-adapter.ts:45-49 | the placement over a turn list, read from its head: a leading user turn takes the system text and the rest is untouched; otherwise the head is kept and the placement continues |
| Canonical.PrependNothing | src/api/controllers/claude-adapter.ts:52 | an empty system text changes nothing |
| Canonical.LastSent | src/api/controllers/chat-v2.ts:112-123 | the text the backend receives is the last placed turn; it is the last turn's own text when there is no system text or the last turn is an assistant turn |
| Canonical.SentOfPlaced | src/api/controllers/chat-v2.ts:112-116 | reading the last of the normalised chat messages gives that same text |
| ChatV2.LastMessageText | src/api/controllers/chat-v2.ts:112-123 | the text is the last message's content text; reading fails (as the source's `TypeError` does) exactly when there are no messages |
| ChatV2.PrepareRequest | src/api/controllers/chat-v2.ts:102-152 | a request is built exactly for a `jwt` token and a non-empty message list; a `refresh` token is refused first; the request carries the last message's text, the selected scenario, `thinking` iff the name contains `thinking`, the token and base URL, and the device id from the accepted claims |
| ChatV2.CompletionBody | src/api/controllers/chat-v2.ts:155-175 | one choice, with the reply text and finish reason `stop`; prompt, completion and total tokens are the UTF-16 lengths of the text sent, the reply, and both together; the id is the chat id when truthy, else a fresh id |
| ChatV2.CreateCompletionV2 | src/api/controllers/chat-v2.ts:94-176 | a `refresh` token fails before the backend is called; the backend is called exactly for a `jwt` token and some message, with the request `PrepareRequest` builds (the last message's text, the selected scenario, `thinking` exactly when the model name contains `thinking`, the client configuration); a backend error reaches the caller; a success is the completion body of that exchange |
| OpenAIStream.EmitStream | src/api/controllers/chat-v2.ts:286-327 | the loop writes exactly the reference frames: one content chunk per non-empty text up to and including the first `done` message, then the stop chunk and `[DONE]` if there is such a message, and nothing after it |
| OpenAIStream.ExpectedFramesShape | src/api/controllers/chat-v2.ts:307-326 | the stream ends with `[DONE]` if and only if some message is `done`, and every earlier frame is a chunk |
| OpenAIStream.UntilFirstDone | src/api/controllers/chat-v2.ts:307-326 | the loop's `break` stops at the first `done` message, which is itself processed |
| OpenAIStream.UntilNoDone | src/api/controllers/chat-v2.ts:286 | without a `done` message the loop visits every message |
| OpenAIStream.CreateCompletionStreamV2 | src/api/controllers/chat-v2.ts:222-337 | a `refresh` token fails before the backend is called; the backend is called exactly for a `jwt` token and some message, with the request `PrepareRequest` builds (the last message's text, the selected scenario, the `thinking` flag, the client configuration); a backend error destroys the stream; otherwise the stream ends after exactly the reference frames |
| Sse.ClassifyLine | src/api/controllers/claude-adapter.ts:129-133 | the four kinds partition the lines in the loop's order: blank exactly when the line trims to nothing; the `[DONE]` sentinel exactly when it trims to `data: [DONE]`; a data line, carrying the parse of what follows `data: `, exactly when it is neither and starts with `data: `; ignored otherwise |
| Sse.RecordOf | src/api/controllers/claude-adapter.ts:133-135 | a line is acted on exactly when it is a parsed data line with a `choices[0]`; the record is that choice and the chunk's usage |
| Sse.RecordsAppend | src/api/controllers/claude-adapter.ts:129-135 | reading lines one at a time: the records of concatenated lines are the concatenated records |
| Sse.RecordsMembers | src/api/controllers/claude-adapter.ts:129-135 | every line that carries a record contributes it, and every record comes from such a line |
| Sse.FinishedCons | src/api/controllers/claude-adapter.ts:174 | a stream holds a finishing record exactly when its head finishes or its rest does |
| Sse.UntilFinishEnds | src/api/controllers/claude-adapter.ts:174-194 | the prefix a transcoder acts on ends with a finishing record exactly when the stream has one; without one it is the whole stream; it is empty only for an empty stream |
| ClaudeAdapter.KeptTurn | src/api/controllers/claude-adapter.ts:36-80 | a message yields a turn exactly when its role is `user` or `assistant`; the turn keeps that role and the message's text |
| ClaudeAdapter.KeptAppend | src/api/controllers/claude-adapter.ts:36-80 | the conversion loop handles messages one at a time: the turns of concatenated messages are the concatenated turns |
| ClaudeAdapter.ClaudeTurnsPlace | src/api/controllers/claude-adapter.ts:33-81 | the loop with its `systemPrepended` flag is the reference placement over the kept turns |
| ClaudeAdapter.ConvertClaudeToKimiSpec | src/api/controllers/claude-adapter.ts:15-84 | `convertClaudeToKimi` keeps the `user` and `assistant` turns in order, with their texts, and puts a non-empty system text, as `system + "\n\n" + text`, in front of the first user turn only |
| ClaudeAdapter.ClaudeSentText | src/api/controllers/claude-adapter.ts:237-255 | what reaches the backend from a Claude request is the text of the last kept turn; it carries the system text only if that turn is also the first user turn |
| ClaudeAdapter.ConvertKimiToClaude | src/api/controllers/claude-adapter.ts:91-112 | one text block with the first choice's text; `stop` becomes `end_turn` and every other finish reason `max_tokens`; model `kimi`, no stop sequence; the body id or a fresh one; missing usage counts are 0; a body without choices is an error |
| ClaudeAdapter.ClaudeOfCompletionBody | src/api/controllers/claude-adapter.ts:251-256 | over a body the chat controller built, the Claude message always ends its turn and counts the UTF-16 lengths of the text sent and the reply |
| ClaudeAdapter.CreateClaudeCompletion | src/api/controllers/claude-adapter.ts:226-262 | a `refresh` token fails before the backend is called; the backend is called exactly when some turn is kept, with the request built from the converted messages (the last kept turn's text, the model's scenario and `thinking` flag); a backend error reaches the caller unchanged; a success holds the reply text, `end_turn` and the UTF-16 token counts |
| ClaudeStream.StepRecord | src/api/controllers/claude-adapter.ts:128-198 | a line that is not a parsed chunk with `choices[0]` (blank, `[DONE]`, another kind of line, unparsable JSON) changes nothing and writes nothing; any other line acts through its record |
| ClaudeStream.TailCons | src/api/controllers/claude-adapter.ts:164-194 | after the bootstrap, a record writes its delta and either closes the message or hands on to the rest |
| ClaudeStream.RunAfterEnd | src/api/controllers/claude-adapter.ts:193 | once the output has ended, nothing more is written and it stays ended |
| ClaudeStream.RunMatches | src/api/controllers/claude-adapter.ts:125-201 | the fold writes exactly the reference events over the records it reads: bootstrap on the first record, one delta per truthy text up to the first finishing record, and the closing events for that record |
| ClaudeStream.ClaudeEvents | src/api/controllers/claude-adapter.ts:119-215 | the transcoder's whole output over a line sequence is the reference output of its records |
| ClaudeStream.RunEnds | src/api/controllers/claude-adapter.ts:174-194 | the output ends exactly when some record has a delta and a truthy `finish_reason` |
| ClaudeStream.RunBuffer | src/api/controllers/claude-adapter.ts:164-165 | the buffer is the concatenation of all the delta texts read |
| ClaudeStream.OpenStreamBuffer | src/api/controllers/claude-adapter.ts:164-171 | while the output is open, the buffer equals the concatenation of the deltas written, which are bootstrap plus one delta per text |
| ClaudeStream.ClaudeGrammar | src/api/controllers/claude-adapter.ts:135-171 | something is written exactly when some record arrives; the output starts with `message_start` and `content_block_start`; every delta is at index 0 with non-empty text |
| ClaudeStream.ClaudeStops | src/api/controllers/claude-adapter.ts:174-212 | the output ends with `message_stop` exactly when a record finishes; an upstream that closes first leaves it without the closing events |
| GeminiAdapter.TruthyTexts | src/api/controllers/gemini-adapter.ts:39-42 | the kept part texts are all non-empty and never more than the parts |
| GeminiAdapter.TruthyTextsAppend | src/api/controllers/gemini-adapter.ts:39-42 | the filter keeps order: the texts of concatenated part lists are the concatenated texts |
| GeminiAdapter.TruthyTextsMembers | src/api/controllers/gemini-adapter.ts:39-42 | every part with a truthy `text` contributes it, and every kept text is some part's `text` |
| GeminiAdapter.ConvertGeminiToKimi | src/api/controllers/gemini-adapter.ts:33-55 | exactly one turn per content entry |
| GeminiAdapter.GeminiTurnsPlace | src/api/controllers/gemini-adapter.ts:31-55 | the loop with its `systemPrepended` flag is the reference placement over the mapped turns |
| GeminiAdapter.ConvertGeminiToKimiSpec | src/api/controllers/gemini-adapter.ts:15-58 | every content becomes one turn, in order; role `model` is the assistant and every other role the user; a non-empty system instruction goes in front of the first user turn only |
| GeminiAdapter.GeminiSentText | src/api/controllers/gemini-adapter.ts:205-222 | what reaches the backend from a Gemini request is the text of the last content; it carries the system instruction only if that content is also the first user turn |
| GeminiAdapter.ConvertKimiToGemini | src/api/controllers/gemini-adapter.ts:65-90 | one candidate with the first choice's text, role `model`, index 0; `stop` becomes `STOP` and every other reason `MAX_TOKENS`; usage copied with defaults of 0; a body without choices is an error |
| GeminiAdapter.TotalIsCopied | src/api/controllers/gemini-adapter.ts:84-88 | for every body with a choice, `promptTokenCount`, `candidatesTokenCount` and `totalTokenCount` repeat whatever `prompt_tokens`, `completion_tokens` and `total_tokens` the body claims; the total is not recomputed |
| GeminiAdapter.TotalNotSummed | src/api/controllers/gemini-adapter.ts:84-88 | an instance: a body claiming 1 + 2 = 7 keeps the total 7 |
| GeminiAdapter.GeminiOfCompletionBody | src/api/controllers/gemini-adapter.ts:219-226 | over a body the chat controller built, the answer stops with `STOP` and its total is the sum of the UTF-16 lengths of the text sent and the reply |
| GeminiAdapter.CreateGeminiCompletion | src/api/controllers/gemini-adapter.ts:196-232 | a `refresh` token fails before the backend is called; the backend is called exactly when there is some content, with the request built from the converted contents (the last content's text, the model's scenario and `thinking` flag); a backend error reaches the caller unchanged; a success holds one `STOP` candidate with the reply |
| GeminiStream.StepRecord | src/api/controllers/gemini-adapter.ts:105-168 | a line that is not a parsed chunk with `choices[0]` changes nothing and writes nothing; any other line acts through its record |
| GeminiStream.ExpectedCons | src/api/controllers/gemini-adapter.ts:116-163 | a record writes its text chunk and either writes the final chunk or hands on to the rest |
| GeminiStream.RunAfterEnd | src/api/controllers/gemini-adapter.ts:163 | once the output has ended, nothing more is written |
| GeminiStream.RunMatches | src/api/controllers/gemini-adapter.ts:102-171 | the fold writes exactly the reference chunks: one text chunk per truthy delta up to the first finishing record, then that record's final chunk; there is no bootstrap |
| GeminiStream.GeminiChunks | src/api/controllers/gemini-adapter.ts:97-185 | the transcoder's whole output over a line sequence is the reference output of its records |
| GeminiStream.RunEnds | src/api/controllers/gemini-adapter.ts:139-164 | the output ends exactly when some record has a delta and a truthy `finish_reason` |
| GeminiStream.RunBuffer | src/api/controllers/gemini-adapter.ts:116-117 | the buffer is the concatenation of all the delta texts read |
| GeminiStream.GeminiGrammar | src/api/controllers/gemini-adapter.ts:116-182 | the last chunk carries `usageMetadata` exactly when a record finishes; every earlier chunk is a text chunk with non-empty text and no usage; an upstream that closes first leaves only text chunks |
| Pipeline.WireLines | src/api/controllers/chat-v2.ts:304-324 | a frame as written, split at newlines and classified, reads back as its data line followed by two blank lines |
| Pipeline.WireAllLines | src/api/controllers/claude-adapter.ts:125-129 | the whole written stream reads back as the lines of its frames, one data event per frame |
| Pipeline.ExpectedRecords | src/api/controllers/chat-v2.ts:286-327 | the records a transcoder reads from the emitter are one content record per non-empty text, then the stop record exactly when a message is `done` |
| Pipeline.ClaudeOverOpenAI | src/api/controllers/claude-adapter.ts:119-215 | fed by the emitter, the Claude transcoder writes nothing for a silent, unfinished backend; otherwise the bootstrap, one delta per non-empty text, and the closing events exactly when a message is `done`, always with zero usage |
| Pipeline.GeminiOverOpenAI | src/api/controllers/gemini-adapter.ts:97-185 | fed by the emitter, the Gemini transcoder writes one text chunk per non-empty text and a final chunk with zero usage exactly when a message is `done` |
| Pipeline.OpenAIHello | src/api/controllers/chat-v2.ts:286-327 | a backend answer of two non-empty texts `a`, `b` and then `done` is written as the content chunks for `a` and `b`, the stop chunk and `[DONE]` |
| Pipeline.ClaudeHello | src/api/controllers/claude-adapter.ts:139-194 | a Claude client streaming that answer receives exactly `message_start`, `content_block_start`, the deltas `a` and `b`, `content_block_stop`, `message_delta` with `end_turn` and zero usage, and `message_stop` |
| Pipeline.AnswerEventOrder | src/api/controllers/claude-adapter.ts:138-194 | by `event:` name, a Claude client receives nothing exactly for a silent, unfinished backend; otherwise `message_start` and `content_block_start`, then only `content_block_delta`s, then `content_block_stop`, `message_delta` and `message_stop` exactly when a message is `done` |
| Pipeline.CreateClaudeCompletionStream | src/api/controllers/claude-adapter.ts:237-248 | the Claude stream over the chat controller's stream: a `refresh` token fails before the backend is called; the backend receives the request built from the converted messages (the last kept turn's text, the scenario and `thinking` flag of the model name); a backend error gives an empty Claude stream; otherwise the stream is the Claude answer to the backend's messages |
| Pipeline.CreateGeminiCompletionStream | src/api/controllers/gemini-adapter.ts:205-216 | the Gemini stream over the chat controller's stream, with the same guarantees (the request built from the converted contents, with the model's scenario and `thinking` flag), ending in the Gemini answer to the backend's messages |
| Text.TrimIsTrimmed | src/api/controllers/chat-v2.ts:51 | `trim` leaves no white space at either end and is idempotent |
| Text.SplitJoin | src/api/controllers/claude-adapter.ts:126 | splitting at a separator undoes joining with it, when no piece holds the separator |
| Text.JoinSplit | src/api/controllers/claude-adapter.ts:126 | joining the pieces of a split gives the text back |
| Text.Utf16LengthAppend | src/api/controllers/chat-v2.ts:169-171 | the JavaScript `.length` of a concatenation is the sum of the lengths, so `total_tokens` is the length of the sent text plus the reply |

## Left out

- The RPC client (`ConnectRPCClient`, `chatText`, `chat`) is not part of this model. Its answers are function parameters, and `Exchange` records whether it was called.
- Base64 decoding, `JSON.parse` and `JSON.stringify` are function parameters. The composition lemmas assume only that parse undoes stringify (`Pipeline.JsonCodec`).
- `util.uuid` and `util.unixTimestamp` are parameters. `stamps` gives the id and time of the n-th chunk.
- Logging and the `console.log` debugging of `extractAuthToken` have no effect on results and are left out.
- `PassThrough` plumbing, backpressure, `destroy` and the `closed` check are left out. An ended output is a state flag, and a write after `end()` is dropped rather than raising Node's write-after-end error.
- A `data` event is taken to hold whole lines, as the source assumes: it keeps no buffer of partial lines.
- Interleaving is not modelled. The transcoder sees the whole upstream in order, and the upstream's `error` and `close` only end the output, so an error stops the Claude or Gemini output where the fold stands.
- A rejected `chat` call destroys the chat controller's stream before it writes anything. The model gives an empty Claude or Gemini output for it.
- `safetyRatings` is always `[]`, and `type`, `role` and the `text` block kind of a Claude message are constants. They are not fields of the model's records.
- Gemini's `isFirstChunk` and the Claude and Gemini `contentBuffer` are never read by the output. The buffer is modelled and proved (`RunBuffer`); nothing else is.
- Content that is neither missing, a string nor an array is not modelled. `convertClaudeToKimi` passes an object or a number through unchanged, and the chat controller reads it as `""`. The exception is the first user turn when a system text is placed: there the content is turned into a string as `system + "\n\n" + String(content)` (for example `"S\n\n[object Object]"` or `"S\n\n42"`), and that string is what the backend receives.
- Gemini `parts` that are present but not an array are not modelled: `Option<seq<GeminiPart>>` has no such value.
- Routes (`src/api/routes/*.ts`) and the model catalog are not part of this model.
- `extractDeviceIdFromJWT`, `extractSessionIdFromJWT` and `extractUserIdFromJWT` are one function, `ChatV2.Claims`. Only the device id is stated in a contract.
