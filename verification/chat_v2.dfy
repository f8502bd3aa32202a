/**
  The non-streaming half of `src/api/controllers/chat-v2.ts`: the checks made before any
  RPC client exists, the request the client is given, and the OpenAI `chat.completion`
  body built from the reply. The RPC call itself is a function parameter, and
  `util.uuid()` / `util.unixTimestamp()` are values passed in.
 */
module ChatV2 {
  import opened Wrappers
  import opened Text
  import opened Protocol
  import opened Credentials
  import opened Scenarios
  import opened Canonical

  /** The configuration `ConnectRPCClient` is built from. */
  datatype ConnectConfig = ConnectConfig(baseUrl: string, authToken: string, deviceId: Option<string>, sessionId: Option<string>, userId: Option<string>)

  /** Everything the RPC call receives: the text, the client configuration and the options. */
  datatype RpcRequest = RpcRequest(content: string, config: ConnectConfig, scenario: Scenario, thinking: bool)

  /** The reply of `client.chatText`. */
  datatype BackendReply = BackendReply(chatId: Option<string>, text: string)

  /**
    The outcome of one entry-point call: the RPC request, if one was made, and what the
    caller receives.
   */
  datatype Exchange<T> = Exchange(sent: Option<RpcRequest>, result: Result<T, Error>)

  /** The text sent to the backend: only the last message's content is used. */
  function LastMessageText(messages: seq<Message>): (r: Result<string, Error>)
    ensures r.Failure? <==> |messages| == 0
    ensures r.Failure? ==> r.error == NoMessages
    ensures r.Success? ==> r.value == ContentText(messages[|messages| - 1].content)
  {
    if |messages| == 0 then Failure(NoMessages) else Success(ContentText(messages[|messages| - 1].content))
  }

  /** The decoded claims of a token, absent where `extract*FromJWT` would catch an error. */
  function Claims(token: string, decode: string -> Option<Payload>): Option<Payload> {
    match MiddleSegment(token)
    case None => None
    case Some(segment) => decode(segment)
  }

  /** The client configuration: the token itself and the optional identifiers read from its claims. */
  function ConfigFor(token: string, decode: string -> Option<Payload>): ConnectConfig {
    var claims := Claims(token, decode);
    ConnectConfig("https://www.kimi.com", token,
      if claims.Some? then claims.value.deviceId else None,
      if claims.Some? then claims.value.ssid else None,
      if claims.Some? then claims.value.sub else None)
  }

  /**
    The synchronous part of both entry points: classify the token (failing before any
    client is built unless it is a JWT), read the last message, derive the scenario.
   */
  function PrepareRequest(model: string, messages: seq<Message>, token: string, decode: string -> Option<Payload>): (r: Result<RpcRequest, Error>)
    ensures r.Success? <==> DetectTokenType(token, decode) == Jwt && |messages| > 0
    ensures DetectTokenType(token, decode) == Refresh ==> r == Failure(NotJwt)
    ensures r.Success? ==> r.value.content == ContentText(messages[|messages| - 1].content)
    ensures r.Success? ==> r.value.scenario == SelectScenario(model) && r.value.thinking == Contains(model, "thinking")
    ensures r.Success? ==> r.value.config.authToken == token && r.value.config.baseUrl == "https://www.kimi.com"
    ensures r.Success? ==> Accepted(Claims(token, decode)) && r.value.config.deviceId == Claims(token, decode).value.deviceId
  {
    if DetectTokenType(token, decode) != Jwt then Failure(NotJwt)
    else
      match LastMessageText(messages)
      case Failure(e) => Failure(e)
      case Success(content) => Success(RpcRequest(content, ConfigFor(token, decode), SelectScenario(model), Thinking(model)))
  }

  /**
    The body returned to an OpenAI client: one `stop` choice carrying the reply, and
    usage counted in UTF-16 code units of the text sent and the text received.
   */
  function CompletionBody(model: string, sent: string, reply: BackendReply, freshId: string, now: int): (body: Completion)
    ensures |body.choices| == 1 && body.choices[0] == BodyChoice(0, "assistant", reply.text, Some("stop"))
    ensures body.usage == Some(Usage(Some(Utf16Length(sent)), Some(Utf16Length(reply.text)), Some(Utf16Length(sent + reply.text))))
    ensures body.id == if Truthy(reply.chatId) then reply.chatId.value else freshId
    ensures body.objectKind == "chat.completion" && body.model == model && body.created == now
  {
    Utf16LengthAppend(sent, reply.text);
    var prompt := Utf16Length(sent);
    var completion := Utf16Length(reply.text);
    Completion(
      if Truthy(reply.chatId) then reply.chatId.value else freshId,
      model, "chat.completion",
      [BodyChoice(0, "assistant", reply.text, Some("stop"))],
      Some(Usage(Some(prompt), Some(completion), Some(prompt + completion))),
      now)
  }

  /**
    `createCompletionV2`: no RPC call unless the token is a JWT and there is a message;
    otherwise one `chatText` call with the last message's text, whose rejection is
    passed on and whose reply becomes a completion body.
   */
  function CreateCompletionV2(model: string, messages: seq<Message>, token: string, decode: string -> Option<Payload>,
                              chatText: RpcRequest -> Result<BackendReply, string>, freshId: string, now: int): (x: Exchange<Completion>)
    ensures DetectTokenType(token, decode) == Refresh ==> x == Exchange(None, Failure(NotJwt))
    ensures x.sent.Some? <==> DetectTokenType(token, decode) == Jwt && |messages| > 0
    ensures x.sent.Some? ==> x.sent.value.content == ContentText(messages[|messages| - 1].content)
    ensures x.sent.Some? ==> x.sent.value.scenario == SelectScenario(model) && x.sent.value.thinking == Contains(model, "thinking")
    ensures x.sent.Some? ==> PrepareRequest(model, messages, token, decode) == Success(x.sent.value)
    ensures x.sent.Some? && chatText(x.sent.value).Failure? ==> x.result == Failure(Upstream(chatText(x.sent.value).error))
    ensures x.result.Success? ==> x.sent.Some? && chatText(x.sent.value).Success?
    ensures x.result.Success? ==> x.result.value == CompletionBody(model, x.sent.value.content, chatText(x.sent.value).value, freshId, now)
  {
    match PrepareRequest(model, messages, token, decode)
    case Failure(e) => Exchange(None, Failure(e))
    case Success(req) =>
      match chatText(req)
      case Failure(reason) => Exchange(Some(req), Failure(Upstream(reason)))
      case Success(reply) => Exchange(Some(req), Success(CompletionBody(model, req.content, reply, freshId, now)))
  }
}
