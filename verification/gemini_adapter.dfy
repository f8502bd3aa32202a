/**
  The non-streaming half of `src/api/controllers/gemini-adapter.ts`: Gemini `contents`
  and `systemInstruction` become canonical messages, and a completion body becomes a
  `GenerateContentResponse` with one candidate (`safetyRatings` is always empty and is
  not a field here).
 */
module GeminiAdapter {
  import opened Wrappers
  import opened Text
  import opened Protocol
  import opened Credentials
  import opened Canonical
  import opened Scenarios
  import opened ChatV2

  /** A Gemini part; only its `text` is read. */
  datatype GeminiPart = GeminiPart(text: Option<string>)

  /** A Gemini content: an optional `role` and optional `parts`. */
  datatype GeminiContent = GeminiContent(role: Option<string>, parts: Option<seq<GeminiPart>>)

  /** `systemInstruction`: absent, a string, or an object with optional `parts`. */
  datatype SystemInstruction = NoInstruction | InstructionText(text: string) | InstructionParts(parts: Option<seq<GeminiPart>>)

  /** `.filter(part => part.text).map(part => part.text)`: the truthy texts, in order. */
  function TruthyTexts(ps: seq<GeminiPart>): (ts: seq<string>)
    ensures |ts| <= |ps|
    ensures forall j :: 0 <= j < |ts| ==> ts[j] != ""
  {
    if |ps| == 0 then []
    else (if Truthy(ps[0].text) then [ps[0].text.value] else []) + TruthyTexts(ps[1..])
  }

  /** `TruthyTexts` keeps order: the texts of a concatenation are the concatenated texts. */
  lemma {:induction false} TruthyTextsAppend(a: seq<GeminiPart>, b: seq<GeminiPart>)
    ensures TruthyTexts(a + b) == TruthyTexts(a) + TruthyTexts(b)
    decreases |a|
  {
    if a == [] {
      assert a + b == b;
    } else {
      assert (a + b)[0] == a[0];
      assert (a + b)[1..] == a[1..] + b;
      TruthyTextsAppend(a[1..], b);
    }
  }

  /** Every truthy text is kept, and every kept text is the text of some part. */
  lemma {:induction false} TruthyTextsMembers(ps: seq<GeminiPart>)
    ensures forall j :: 0 <= j < |ps| && Truthy(ps[j].text) ==> ps[j].text.value in TruthyTexts(ps)
    ensures forall t :: t in TruthyTexts(ps) ==> exists j :: 0 <= j < |ps| && ps[j].text == Some(t)
    decreases |ps|
  {
    if |ps| > 0 {
      TruthyTextsMembers(ps[1..]);
      assert forall j :: 0 < j < |ps| ==> ps[j] == ps[1..][j - 1];
      forall t | t in TruthyTexts(ps)
        ensures exists j :: 0 <= j < |ps| && ps[j].text == Some(t)
      {
        if t in TruthyTexts(ps[1..]) {
          var k :| 0 <= k < |ps[1..]| && ps[1..][k].text == Some(t);
          assert ps[k + 1].text == Some(t);
        } else {
          assert ps[0].text == Some(t);
        }
      }
    }
  }

  /** The text of optional parts: their truthy texts joined by "\n"; no parts is "". */
  function PartsText(parts: Option<seq<GeminiPart>>): string {
    match parts
    case None => ""
    case Some(ps) => Join(TruthyTexts(ps), "\n")
  }

  /** The text of the system instruction; empty means there is none to place. */
  function InstructionTextOf(si: SystemInstruction): string {
    match si
    case NoInstruction => ""
    case InstructionText(s) => s
    case InstructionParts(parts) => PartsText(parts)
  }

  /** `model` is the assistant; every other role, or none, is the user. */
  function RoleOf(c: GeminiContent): Role {
    if c.role == Some("model") then Assistant else User
  }

  /** One Gemini content as a canonical turn, before any system text is placed. */
  function Turn(c: GeminiContent): KimiMessage {
    KimiMessage(RoleOf(c), PartsText(c.parts))
  }

  function Turns(cs: seq<GeminiContent>): (ks: seq<KimiMessage>)
    ensures |ks| == |cs|
    ensures forall j :: 0 <= j < |cs| ==> ks[j] == Turn(cs[j])
  {
    seq(|cs|, j requires 0 <= j < |cs| => Turn(cs[j]))
  }

  /** The loop of `convertGeminiToKimi`, one content at a time; `prepended` is `systemPrepended`. */
  function GeminiTurns(cs: seq<GeminiContent>, system: string, prepended: bool): (ks: seq<KimiMessage>)
    ensures |ks| == |cs|
  {
    if |cs| == 0 then []
    else
      var k := Turn(cs[0]);
      if k.role == User && system != "" && !prepended then
        [KimiMessage(User, WithSystem(system, k.content))] + GeminiTurns(cs[1..], system, true)
      else
        [k] + GeminiTurns(cs[1..], system, prepended)
  }

  /** `convertGeminiToKimi`: one canonical turn per content, none dropped. */
  function ConvertGeminiToKimi(cs: seq<GeminiContent>, si: SystemInstruction): (ks: seq<KimiMessage>)
    ensures |ks| == |cs|
  {
    GeminiTurns(cs, InstructionTextOf(si), false)
  }

  /** Once the system text is placed, the loop only maps. */
  lemma {:induction false} GeminiTurnsPlain(cs: seq<GeminiContent>, system: string)
    ensures GeminiTurns(cs, system, true) == Turns(cs)
    decreases |cs|
  {
    if |cs| > 0 {
      GeminiTurnsPlain(cs[1..], system);
      assert Turns(cs) == [Turn(cs[0])] + Turns(cs[1..]);
    }
  }

  /** The loop before the system text is placed is the reference placement over the mapped turns. */
  lemma {:induction false} GeminiTurnsPlace(cs: seq<GeminiContent>, system: string)
    ensures GeminiTurns(cs, system, false) == PrependSystem(Turns(cs), system)
    decreases |cs|
  {
    if |cs| > 0 {
      var k := Turn(cs[0]);
      assert Turns(cs) == [k] + Turns(cs[1..]);
      GeminiTurnsPlain(cs[1..], system);
      GeminiTurnsPlace(cs[1..], system);
      PrependSystemCons(k, Turns(cs[1..]), system);
    }
  }

  /**
    `convertGeminiToKimi` keeps every content, in order, with its role and text, and puts
    a non-empty system text in front of the first user turn only.
   */
  lemma ConvertGeminiToKimiSpec(cs: seq<GeminiContent>, si: SystemInstruction)
    ensures ConvertGeminiToKimi(cs, si) == PrependSystem(Turns(cs), InstructionTextOf(si))
  {
    GeminiTurnsPlace(cs, InstructionTextOf(si));
  }

  /**
    What reaches the backend from a Gemini request: the text of the last content, and
    the system text only when that content is also the first user turn.
   */
  lemma GeminiSentText(cs: seq<GeminiContent>, si: SystemInstruction)
    ensures |cs| > 0 ==>
      LastMessageText(AsChatMessages(ConvertGeminiToKimi(cs, si))) == Success(LastSent(Turns(cs), InstructionTextOf(si)))
    ensures var cm := AsChatMessages(ConvertGeminiToKimi(cs, si));
      |cm| > 0 ==> ContentText(cm[|cm| - 1].content) == LastSent(Turns(cs), InstructionTextOf(si))
  {
    ConvertGeminiToKimiSpec(cs, si);
    if |Turns(cs)| > 0 {
      SentOfPlaced(Turns(cs), InstructionTextOf(si));
    }
  }

  /** `usageMetadata` of a Gemini response. */
  datatype UsageMetadata = UsageMetadata(promptTokenCount: int, candidatesTokenCount: int, totalTokenCount: int)

  /** A candidate: the texts of its parts, its role, its finish reason and its index. */
  datatype Candidate = Candidate(parts: seq<string>, role: string, finishReason: Option<string>, index: int)

  datatype GeminiResponse = GeminiResponse(candidates: seq<Candidate>, usageMetadata: Option<UsageMetadata>)

  /** The Gemini usage of an OpenAI `usage`: each count is copied, defaulting to 0. */
  function UsageMetadataOf(u: Option<Usage>): UsageMetadata {
    UsageMetadata(PromptTokens(u), CompletionTokens(u), TotalTokens(u))
  }

  /**
    `convertKimiToGemini`: the first choice's text as the one candidate; `stop` becomes
    `STOP` and any other finish reason `MAX_TOKENS`. A body without `choices[0]` makes
    the source throw.
   */
  function ConvertKimiToGemini(body: Completion): (r: Result<GeminiResponse, Error>)
    ensures r.Failure? <==> |body.choices| == 0
    ensures r.Failure? ==> r.error == MalformedResponse
    ensures r.Success? ==> |r.value.candidates| == 1
    ensures r.Success? ==> var c := r.value.candidates[0];
      c.parts == [body.choices[0].content] && c.role == "model" && c.index == 0
    ensures r.Success? ==>
      (r.value.candidates[0].finishReason == Some("STOP") <==> body.choices[0].finishReason == Some("stop"))
    ensures r.Success? ==>
      r.value.candidates[0].finishReason == Some("STOP") || r.value.candidates[0].finishReason == Some("MAX_TOKENS")
    ensures r.Success? ==> r.value.usageMetadata == Some(UsageMetadataOf(body.usage))
  {
    if |body.choices| == 0 then Failure(MalformedResponse)
    else
      var choice := body.choices[0];
      Success(GeminiResponse(
        [Candidate([choice.content], "model", Some(if choice.finishReason == Some("stop") then "STOP" else "MAX_TOKENS"), 0)],
        Some(UsageMetadataOf(body.usage))))
  }

  /**
    The three counts are copied from the body's `usage` one for one: whatever prompt,
    completion and total a body claims, the Gemini usage repeats, with no check that the
    total is the sum of the other two.
   */
  lemma TotalIsCopied(body: Completion, prompt: int, completion: int, total: int)
    requires |body.choices| > 0
    ensures var r := ConvertKimiToGemini(body.(usage := Some(Usage(Some(prompt), Some(completion), Some(total)))));
      r.Success? && r.value.usageMetadata == Some(UsageMetadata(prompt, completion, total))
  {
  }

  /** For instance, a body claiming 1 + 2 = 7 keeps 7. */
  lemma TotalNotSummed()
    ensures var body := Completion("id", "m", "chat.completion", [BodyChoice(0, "assistant", "", Some("stop"))],
                                   Some(Usage(Some(1), Some(2), Some(7))), 0);
      ConvertKimiToGemini(body).Success?
      && ConvertKimiToGemini(body).value.usageMetadata.value.totalTokenCount == 7
      && ConvertKimiToGemini(body).value.usageMetadata.value.promptTokenCount
         + ConvertKimiToGemini(body).value.usageMetadata.value.candidatesTokenCount == 3
  {
  }

  /**
    Over a body the chat controller built, the Gemini answer always stops and its total
    is the sum of the UTF-16 lengths of the text sent and the text received.
   */
  lemma GeminiOfCompletionBody(model: string, sent: string, reply: BackendReply, freshId: string, now: int)
    ensures
      ConvertKimiToGemini(CompletionBody(model, sent, reply, freshId, now))
        == Success(GeminiResponse([Candidate([reply.text], "model", Some("STOP"), 0)],
                                  Some(UsageMetadata(Utf16Length(sent), Utf16Length(reply.text),
                                                     Utf16Length(sent) + Utf16Length(reply.text)))))
  {
    var body := CompletionBody(model, sent, reply, freshId, now);
    var p, c := Utf16Length(sent), Utf16Length(reply.text);
    Utf16LengthAppend(sent, reply.text);
    assert UsageMetadataOf(body.usage) == UsageMetadata(p, c, p + c);
    assert ConvertKimiToGemini(body)
        == Success(GeminiResponse([Candidate([reply.text], "model", Some("STOP"), 0)], Some(UsageMetadataOf(body.usage))));
  }

  /**
    `createGeminiCompletion` without streaming: convert, ask the chat controller, convert
    back; every error of the chat controller reaches the caller unchanged.
   */
  function CreateGeminiCompletion(model: string, contents: seq<GeminiContent>, si: SystemInstruction, token: string,
                                  decode: string -> Option<Payload>, chatText: RpcRequest -> Result<BackendReply, string>,
                                  bodyId: string, now: int): (x: Exchange<GeminiResponse>)
    ensures DetectTokenType(token, decode) == Refresh ==> x == Exchange(None, Failure(NotJwt))
    ensures x.sent.Some? <==> DetectTokenType(token, decode) == Jwt && |contents| > 0
    ensures DetectTokenType(token, decode) == Jwt && |contents| == 0 ==> x.result == Failure(NoMessages)
    ensures x.sent.Some? ==> x.sent.value.content == LastSent(Turns(contents), InstructionTextOf(si))
    ensures x.sent.Some? ==> x.sent.value.scenario == SelectScenario(model) && x.sent.value.thinking == Contains(model, "thinking")
    ensures x.sent.Some? ==> PrepareRequest(model, AsChatMessages(ConvertGeminiToKimi(contents, si)), token, decode) == Success(x.sent.value)
    ensures x.sent.Some? && chatText(x.sent.value).Failure? ==> x.result == Failure(Upstream(chatText(x.sent.value).error))
    ensures x.result.Success? ==> x.sent.Some? && chatText(x.sent.value).Success?
    ensures x.result.Success? ==>
      x.result.value.candidates == [Candidate([chatText(x.sent.value).value.text], "model", Some("STOP"), 0)]
    ensures x.result.Success? ==> x.result.value.usageMetadata.Some?
    ensures x.result.Success? ==>
      x.result.value.usageMetadata.value.totalTokenCount
        == Utf16Length(x.sent.value.content) + Utf16Length(chatText(x.sent.value).value.text)
  {
    var kimi := ConvertGeminiToKimi(contents, si);
    GeminiSentText(contents, si);
    var v2 := CreateCompletionV2(model, AsChatMessages(kimi), token, decode, chatText, bodyId, now);
    match v2.result
    case Failure(e) => Exchange(v2.sent, Failure(e))
    case Success(body) =>
      GeminiOfCompletionBody(model, v2.sent.value.content, chatText(v2.sent.value).value, bodyId, now);
      Exchange(v2.sent, ConvertKimiToGemini(body))
  }
}
