/**
  The JSON shapes the three controllers exchange, as datatypes. A JavaScript property
  that may be missing (or `null`) is an `Option`; everything else the controllers never
  read is left out.
 */
module Protocol {
  import opened Wrappers

  /** The errors the controllers raise (or let a `TypeError` raise) before answering. */
  datatype Error =
    | MissingCredential       // neither `authorization` nor `x-goog-api-key` is present
    | MalformedCredential     // nothing is left once the `Bearer` scheme is removed
    | NotJwt                  // the RPC transport needs a Kimi access JWT
    | NoMessages              // `messages[messages.length - 1]` is `undefined`
    | MalformedResponse       // a completion body without `choices[0]`
    | Upstream(reason: string) // the RPC call was rejected

  /** JavaScript truthiness of an optional string: present and non-empty. */
  predicate Truthy(s: Option<string>) {
    s.Some? && s.value != ""
  }

  /** The `usage` object of an OpenAI completion body or chunk. */
  datatype Usage = Usage(promptTokens: Option<int>, completionTokens: Option<int>, totalTokens: Option<int>)

  /** `usage?.prompt_tokens || 0`. */
  function PromptTokens(u: Option<Usage>): int {
    if u.Some? then u.value.promptTokens.GetOr(0) else 0
  }

  /** `usage?.completion_tokens || 0`. */
  function CompletionTokens(u: Option<Usage>): int {
    if u.Some? then u.value.completionTokens.GetOr(0) else 0
  }

  /** `usage?.total_tokens || 0`. */
  function TotalTokens(u: Option<Usage>): int {
    if u.Some? then u.value.totalTokens.GetOr(0) else 0
  }

  /** One element of an array-valued `content`: its `type` tag and its `text`. */
  datatype Part = Part(kind: string, text: Option<string>)

  /** A message `content`: missing or `null`, a string, or an array of typed parts. */
  datatype Content = NoContent | TextContent(text: string) | PartList(parts: seq<Part>)

  /** An inbound OpenAI or Claude message. */
  datatype Message = Message(role: string, content: Content)

  /** The two roles of the canonical message list. */
  datatype Role = User | Assistant

  /** A canonical message: what the Claude and Gemini normalisers produce. */
  datatype KimiMessage = KimiMessage(role: Role, content: string)

  /** `delta` of a streamed choice. */
  datatype Delta = Delta(content: Option<string>)

  /** `choices[i]` of a streamed chunk; `delta` may be missing in arbitrary upstream data. */
  datatype Choice = Choice(index: int, delta: Option<Delta>, finishReason: Option<string>)

  /** One `chat.completion.chunk` object. */
  datatype Chunk = Chunk(id: string, objectKind: string, created: int, model: string, choices: seq<Choice>, usage: Option<Usage>)

  /** `choices[i]` of a non-streaming completion body. */
  datatype BodyChoice = BodyChoice(index: int, role: string, content: string, finishReason: Option<string>)

  /** A non-streaming `chat.completion` body. */
  datatype Completion = Completion(id: string, model: string, objectKind: string, choices: seq<BodyChoice>, usage: Option<Usage>, created: int)
}
