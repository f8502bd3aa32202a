/**
  The non-streaming half of `src/api/controllers/claude-adapter.ts`: Claude messages and
  `system` become canonical messages, the chat controller answers them, and its
  completion body becomes a Claude `message` object (`type: "message"`,
  `role: "assistant"`, one `text` content block, which are constants and not fields here).
 */
module ClaudeAdapter {
  import opened Wrappers
  import opened Text
  import opened Protocol
  import opened Credentials
  import opened Canonical
  import opened Scenarios
  import opened ChatV2

  /** The model name every Claude answer carries. */
  const ModelName: string := "kimi"

  /** A `user` or `assistant` turn keeps its text; a turn with any other role is dropped. */
  function KeptTurn(m: Message): (ks: seq<KimiMessage>)
    ensures |ks| <= 1
    ensures |ks| == 1 <==> m.role == "user" || m.role == "assistant"
    ensures |ks| == 1 ==> ks[0].content == ContentText(m.content) && RoleName(ks[0].role) == m.role
  {
    if m.role == "user" then [KimiMessage(User, ContentText(m.content))]
    else if m.role == "assistant" then [KimiMessage(Assistant, ContentText(m.content))]
    else []
  }

  /** The canonical turns of `ms` before any system text is placed: a filter and a map. */
  function Kept(ms: seq<Message>): (ks: seq<KimiMessage>)
    ensures |ks| <= |ms|
  {
    if |ms| == 0 then [] else KeptTurn(ms[0]) + Kept(ms[1..])
  }

  lemma {:induction false} KeptAppend(a: seq<Message>, b: seq<Message>)
    ensures Kept(a + b) == Kept(a) + Kept(b)
    decreases |a|
  {
    if a == [] {
      assert a + b == b;
    } else {
      assert (a + b)[0] == a[0];
      assert (a + b)[1..] == a[1..] + b;
      KeptAppend(a[1..], b);
    }
  }

  /**
    The loop of `convertClaudeToKimi`, one message at a time: `prepended` is
    `systemPrepended`, and `system` is the text of the `system` parameter.
   */
  function ClaudeTurns(ms: seq<Message>, system: string, prepended: bool): (ks: seq<KimiMessage>)
    ensures |ks| <= |ms|
  {
    if |ms| == 0 then []
    else
      var m := ms[0];
      if m.role == "user" then
        var content := ContentText(m.content);
        if system != "" && !prepended then
          [KimiMessage(User, WithSystem(system, content))] + ClaudeTurns(ms[1..], system, true)
        else
          [KimiMessage(User, content)] + ClaudeTurns(ms[1..], system, prepended)
      else if m.role == "assistant" then
        [KimiMessage(Assistant, ContentText(m.content))] + ClaudeTurns(ms[1..], system, prepended)
      else
        ClaudeTurns(ms[1..], system, prepended)
  }

  /**
    `convertClaudeToKimi`. A `system` that is missing, empty, or an array without text
    parts contributes nothing; otherwise it is joined the way message contents are.
   */
  function ConvertClaudeToKimi(ms: seq<Message>, system: Content): (ks: seq<KimiMessage>)
    ensures |ks| <= |ms|
  {
    ClaudeTurns(ms, ContentText(system), false)
  }

  /** Once the system text is placed (or there is none), the loop only filters. */
  lemma {:induction false} ClaudeTurnsPlain(ms: seq<Message>, system: string)
    ensures ClaudeTurns(ms, system, true) == Kept(ms)
    ensures ClaudeTurns(ms, "", false) == Kept(ms)
    decreases |ms|
  {
    if |ms| > 0 {
      ClaudeTurnsPlain(ms[1..], system);
    }
  }

  /** The loop before the system text is placed is the reference placement over the kept turns. */
  lemma {:induction false} ClaudeTurnsPlace(ms: seq<Message>, system: string)
    ensures ClaudeTurns(ms, system, false) == PrependSystem(Kept(ms), system)
    decreases |ms|
  {
    if |ms| == 0 {
    } else if system == "" {
      ClaudeTurnsPlain(ms, system);
      PrependNothing(Kept(ms));
    } else {
      var m := ms[0];
      ClaudeTurnsPlain(ms[1..], system);
      ClaudeTurnsPlace(ms[1..], system);
      assert Kept(ms) == KeptTurn(m) + Kept(ms[1..]);
      if m.role == "user" {
        var k := KimiMessage(User, ContentText(m.content));
        assert Kept(ms) == [k] + Kept(ms[1..]);
        PrependSystemCons(k, Kept(ms[1..]), system);
        assert ClaudeTurns(ms, system, false) == [KimiMessage(User, WithSystem(system, k.content))] + ClaudeTurns(ms[1..], system, true);
      } else if m.role == "assistant" {
        var k := KimiMessage(Assistant, ContentText(m.content));
        assert Kept(ms) == [k] + Kept(ms[1..]);
        PrependSystemCons(k, Kept(ms[1..]), system);
        assert ClaudeTurns(ms, system, false) == [k] + ClaudeTurns(ms[1..], system, false);
      } else {
        assert Kept(ms) == Kept(ms[1..]);
      }
    }
  }

  /**
    `convertClaudeToKimi` keeps the `user` and `assistant` turns in order, with their
    texts, and puts a non-empty system text in front of the first user turn only.
   */
  lemma ConvertClaudeToKimiSpec(ms: seq<Message>, system: Content)
    ensures ConvertClaudeToKimi(ms, system) == PrependSystem(Kept(ms), ContentText(system))
  {
    ClaudeTurnsPlace(ms, ContentText(system));
  }

  /**
    What reaches the backend from a Claude request: the text of the last kept turn, and
    the system text only when that turn is also the first user turn.
   */
  lemma ClaudeSentText(ms: seq<Message>, system: Content)
    ensures |ConvertClaudeToKimi(ms, system)| == |Kept(ms)|
    ensures |Kept(ms)| > 0 ==>
      LastMessageText(AsChatMessages(ConvertClaudeToKimi(ms, system))) == Success(LastSent(Kept(ms), ContentText(system)))
    ensures var cm := AsChatMessages(ConvertClaudeToKimi(ms, system));
      |cm| > 0 ==> ContentText(cm[|cm| - 1].content) == LastSent(Kept(ms), ContentText(system))
  {
    ConvertClaudeToKimiSpec(ms, system);
    if |Kept(ms)| > 0 {
      SentOfPlaced(Kept(ms), ContentText(system));
    }
  }

  /** `usage` of a Claude message. */
  datatype ClaudeUsage = ClaudeUsage(inputTokens: int, outputTokens: int)

  /** A Claude `message` object; `content` holds the texts of its `text` blocks. */
  datatype ClaudeMessage = ClaudeMessage(id: string, content: seq<string>, model: string,
                                         stopReason: Option<string>, stopSequence: Option<string>, usage: ClaudeUsage)

  /** The Claude usage of an OpenAI `usage`: each count defaults to 0. */
  function ClaudeUsageOf(u: Option<Usage>): ClaudeUsage {
    ClaudeUsage(PromptTokens(u), CompletionTokens(u))
  }

  /**
    `convertKimiToClaude`: the first choice's text in one block; `stop` becomes
    `end_turn` and any other finish reason `max_tokens`. A body without `choices[0]`
    makes the source throw.
   */
  function ConvertKimiToClaude(body: Completion, freshId: string): (r: Result<ClaudeMessage, Error>)
    ensures r.Failure? <==> |body.choices| == 0
    ensures r.Failure? ==> r.error == MalformedResponse
    ensures r.Success? ==> r.value.content == [body.choices[0].content]
    ensures r.Success? ==> (r.value.stopReason == Some("end_turn") <==> body.choices[0].finishReason == Some("stop"))
    ensures r.Success? ==> r.value.stopReason == Some("end_turn") || r.value.stopReason == Some("max_tokens")
    ensures r.Success? ==> r.value.model == ModelName && r.value.stopSequence == None
    ensures r.Success? ==> r.value.id == (if body.id != "" then body.id else freshId)
    ensures r.Success? ==> r.value.usage == ClaudeUsage(PromptTokens(body.usage), CompletionTokens(body.usage))
  {
    if |body.choices| == 0 then Failure(MalformedResponse)
    else
      var choice := body.choices[0];
      Success(ClaudeMessage(
        if body.id != "" then body.id else freshId,
        [choice.content],
        ModelName,
        Some(if choice.finishReason == Some("stop") then "end_turn" else "max_tokens"),
        None,
        ClaudeUsageOf(body.usage)))
  }

  /**
    Over a body the chat controller built, the Claude answer always ends its turn and
    counts the UTF-16 lengths of the text sent and the text received.
   */
  lemma ClaudeOfCompletionBody(model: string, sent: string, reply: BackendReply, freshId: string, now: int, messageId: string)
    ensures
      var body := CompletionBody(model, sent, reply, freshId, now);
      ConvertKimiToClaude(body, messageId)
        == Success(ClaudeMessage(if body.id != "" then body.id else messageId, [reply.text], ModelName, Some("end_turn"), None,
                                 ClaudeUsage(Utf16Length(sent), Utf16Length(reply.text))))
  {
  }

  /**
    `createClaudeCompletion` without streaming: convert, ask the chat controller, convert
    back; every error of the chat controller reaches the caller unchanged.
   */
  function CreateClaudeCompletion(model: string, messages: seq<Message>, system: Content, token: string,
                                  decode: string -> Option<Payload>, chatText: RpcRequest -> Result<BackendReply, string>,
                                  bodyId: string, messageId: string, now: int): (x: Exchange<ClaudeMessage>)
    ensures DetectTokenType(token, decode) == Refresh ==> x == Exchange(None, Failure(NotJwt))
    ensures x.sent.Some? <==> DetectTokenType(token, decode) == Jwt && |Kept(messages)| > 0
    ensures DetectTokenType(token, decode) == Jwt && |Kept(messages)| == 0 ==> x.result == Failure(NoMessages)
    ensures x.sent.Some? ==> x.sent.value.content == LastSent(Kept(messages), ContentText(system))
    ensures x.sent.Some? ==> x.sent.value.scenario == SelectScenario(model) && x.sent.value.thinking == Contains(model, "thinking")
    ensures x.sent.Some? ==> PrepareRequest(model, AsChatMessages(ConvertClaudeToKimi(messages, system)), token, decode) == Success(x.sent.value)
    ensures x.sent.Some? && chatText(x.sent.value).Failure? ==> x.result == Failure(Upstream(chatText(x.sent.value).error))
    ensures x.result.Success? ==> x.sent.Some? && chatText(x.sent.value).Success?
    ensures x.result.Success? ==>
      x.result.value.content == [chatText(x.sent.value).value.text] && x.result.value.stopReason == Some("end_turn")
    ensures x.result.Success? ==>
      x.result.value.usage == ClaudeUsage(Utf16Length(x.sent.value.content), Utf16Length(chatText(x.sent.value).value.text))
  {
    var kimi := ConvertClaudeToKimi(messages, system);
    ClaudeSentText(messages, system);
    var v2 := CreateCompletionV2(model, AsChatMessages(kimi), token, decode, chatText, bodyId, now);
    match v2.result
    case Failure(e) => Exchange(v2.sent, Failure(e))
    case Success(body) =>
      ClaudeOfCompletionBody(model, v2.sent.value.content, chatText(v2.sent.value).value, bodyId, now, messageId);
      Exchange(v2.sent, ConvertKimiToClaude(body, messageId))
  }
}
