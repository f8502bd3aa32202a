/**
  The streaming half of `src/api/controllers/chat-v2.ts`: `createCompletionStreamV2`
  collects the backend's messages with one `client.chat` call and writes one SSE record
  per non-empty text, in order, until the first `done` message, which is answered with a
  `stop` chunk and `data: [DONE]`. `util.uuid()` and `util.unixTimestamp()` are drawn
  from `stamps`, one pair per chunk written; `JSON.stringify` is the parameter of `Wire`.
 */
module OpenAIStream {
  import opened Wrappers
  import opened Text
  import opened Protocol
  import opened Credentials
  import opened Scenarios
  import opened Canonical
  import opened ChatV2

  /** One backend message: `block.text.content` ("" when missing) and `done`. */
  datatype BackendMsg = BackendMsg(text: string, done: bool)

  /** The identifier and timestamp one chunk draws. */
  datatype Stamp = Stamp(id: string, created: int)

  /** An SSE record: a chunk, or the `[DONE]` sentinel. */
  datatype Frame = ChunkFrame(chunk: Chunk) | DoneFrame

  /** What becomes of the stream: ended after the loop, or destroyed because the RPC call failed. */
  datatype StreamOutcome = Ended(frames: seq<Frame>) | Destroyed(reason: string)

  /** The chunk carrying one backend text, with `finish_reason: null`. */
  function ContentChunk(stamp: Stamp, model: string, text: string): Chunk {
    Chunk(stamp.id, "chat.completion.chunk", stamp.created, model, [Choice(0, Some(Delta(Some(text))), None)], None)
  }

  /** The closing chunk: an empty `delta` and `finish_reason: "stop"`. */
  function StopChunk(stamp: Stamp, model: string): Chunk {
    Chunk(stamp.id, "chat.completion.chunk", stamp.created, model, [Choice(0, Some(Delta(None)), Some("stop"))], None)
  }

  /** The SSE text of a record: `data: <json>` and a blank line. */
  function Wire(f: Frame, stringify: Chunk -> string): string {
    match f
    case ChunkFrame(c) => "data: " + stringify(c) + "\n\n"
    case DoneFrame => "data: [DONE]\n\n"
  }

  function WireAll(frames: seq<Frame>, stringify: Chunk -> string): (ws: seq<string>)
    ensures |ws| == |frames|
    ensures forall j :: 0 <= j < |frames| ==> ws[j] == Wire(frames[j], stringify)
  {
    seq(|frames|, j requires 0 <= j < |frames| => Wire(frames[j], stringify))
  }

  predicate HasDone(msgs: seq<BackendMsg>) {
    exists i :: 0 <= i < |msgs| && msgs[i].done
  }

  /** The messages the loop visits: all of them up to and including the first `done`. */
  function UntilDone(msgs: seq<BackendMsg>): seq<BackendMsg> {
    if |msgs| == 0 then []
    else if msgs[0].done then [msgs[0]]
    else [msgs[0]] + UntilDone(msgs[1..])
  }

  /** The non-empty texts of `msgs`, in order. */
  function NonEmptyTexts(msgs: seq<BackendMsg>): (ts: seq<string>)
    ensures forall j :: 0 <= j < |ts| ==> ts[j] != ""
  {
    if |msgs| == 0 then []
    else NonEmptyTexts(msgs[..|msgs| - 1]) + (if msgs[|msgs| - 1].text != "" then [msgs[|msgs| - 1].text] else [])
  }

  /** One content chunk per text; the `j`-th chunk written draws `stamps(j)`. */
  function ContentFrames(texts: seq<string>, model: string, stamps: nat -> Stamp): (fs: seq<Frame>)
    ensures |fs| == |texts|
  {
    seq(|texts|, j requires 0 <= j < |texts| => ChunkFrame(ContentChunk(stamps(j), model, texts[j])))
  }

  /**
    Reference definition of the stream: a content chunk per non-empty text up to the
    first `done`; then, only if there is a `done`, the stop chunk and `[DONE]`.
   */
  function ExpectedFrames(msgs: seq<BackendMsg>, model: string, stamps: nat -> Stamp): seq<Frame> {
    var texts := NonEmptyTexts(UntilDone(msgs));
    ContentFrames(texts, model, stamps)
      + (if HasDone(msgs) then [ChunkFrame(StopChunk(stamps(|texts|), model)), DoneFrame] else [])
  }

  /** The reference stream is content chunks, ending in `[DONE]` exactly when a message is `done`. */
  lemma ExpectedFramesShape(msgs: seq<BackendMsg>, model: string, stamps: nat -> Stamp)
    ensures var fs := ExpectedFrames(msgs, model, stamps);
      HasDone(msgs) <==> |fs| > 0 && fs[|fs| - 1] == DoneFrame
    ensures var fs := ExpectedFrames(msgs, model, stamps);
      forall j :: 0 <= j < |fs| - 1 ==> fs[j].ChunkFrame?
  {
    var texts := NonEmptyTexts(UntilDone(msgs));
    var cf := ContentFrames(texts, model, stamps);
    var fs := ExpectedFrames(msgs, model, stamps);
    assert forall j :: 0 <= j < |cf| ==> cf[j].ChunkFrame?;
    if !HasDone(msgs) {
      assert fs == cf + [];
    }
  }

  /** With the first `done` at `i`, the reference stream is the texts of `msgs[..i + 1]`, the stop chunk and `[DONE]`. */
  lemma DoneAt(msgs: seq<BackendMsg>, i: nat, model: string, stamps: nat -> Stamp)
    requires i < |msgs| && msgs[i].done
    requires forall j :: 0 <= j < i ==> !msgs[j].done
    ensures var texts := NonEmptyTexts(msgs[..i + 1]);
      ExpectedFrames(msgs, model, stamps)
        == ContentFrames(texts, model, stamps) + [ChunkFrame(StopChunk(stamps(|texts|), model)), DoneFrame]
  {
    assert forall j :: 0 <= j < i ==> msgs[..i][j] == msgs[j];
    UntilFirstDone(msgs, i);
    assert HasDone(msgs);
  }

  /** Without a `done`, the reference stream is the texts of all of `msgs`. */
  lemma NoneDone(msgs: seq<BackendMsg>, model: string, stamps: nat -> Stamp)
    requires forall j :: 0 <= j < |msgs| ==> !msgs[j].done
    ensures ExpectedFrames(msgs, model, stamps) == ContentFrames(NonEmptyTexts(msgs), model, stamps)
  {
    assert !HasDone(msgs);
    UntilNoDone(msgs);
    assert ContentFrames(NonEmptyTexts(msgs), model, stamps) + [] == ContentFrames(NonEmptyTexts(msgs), model, stamps);
  }

  /** One turn of the loop: a non-empty text adds its content chunk, stamped with the number of chunks before it. */
  lemma EmitStep(msgs: seq<BackendMsg>, i: nat, model: string, stamps: nat -> Stamp)
    requires i < |msgs|
    ensures var before := NonEmptyTexts(msgs[..i]);
      ContentFrames(NonEmptyTexts(msgs[..i + 1]), model, stamps)
        == ContentFrames(before, model, stamps)
           + (if msgs[i].text != "" then [ChunkFrame(ContentChunk(stamps(|before|), model, msgs[i].text))] else [])
  {
    NonEmptyTextsStep(msgs, i);
    var before := NonEmptyTexts(msgs[..i]);
    if msgs[i].text != "" {
      ContentFramesSnoc(before, msgs[i].text, model, stamps);
    } else {
      assert NonEmptyTexts(msgs[..i + 1]) == before + [];
      assert ContentFrames(before, model, stamps) + [] == ContentFrames(before, model, stamps);
    }
  }

  lemma ContentFramesSnoc(texts: seq<string>, t: string, model: string, stamps: nat -> Stamp)
    ensures ContentFrames(texts + [t], model, stamps)
         == ContentFrames(texts, model, stamps) + [ChunkFrame(ContentChunk(stamps(|texts|), model, t))]
  {
    var lhs := ContentFrames(texts + [t], model, stamps);
    var rhs := ContentFrames(texts, model, stamps) + [ChunkFrame(ContentChunk(stamps(|texts|), model, t))];
    forall j | 0 <= j < |lhs|
      ensures lhs[j] == rhs[j]
    {
    }
  }

  /** The texts of a prefix grow by the next message's text, if it has one. */
  lemma NonEmptyTextsStep(msgs: seq<BackendMsg>, i: nat)
    requires i < |msgs|
    ensures NonEmptyTexts(msgs[..i + 1])
         == NonEmptyTexts(msgs[..i]) + (if msgs[i].text != "" then [msgs[i].text] else [])
  {
    assert msgs[..i + 1][..i] == msgs[..i];
  }

  /** With the first `done` at `i`, the loop visits exactly `msgs[..i + 1]`. */
  lemma {:induction false} UntilFirstDone(msgs: seq<BackendMsg>, i: nat)
    requires i < |msgs| && msgs[i].done && !HasDone(msgs[..i])
    ensures UntilDone(msgs) == msgs[..i + 1]
    decreases i
  {
    if i > 0 {
      assert msgs[..i][0] == msgs[0];
      var before := msgs[1..][..i - 1];
      assert before == msgs[..i][1..];
      forall j | 0 <= j < i - 1
        ensures !before[j].done
      {
        assert before[j] == msgs[..i][j + 1];
      }
      UntilFirstDone(msgs[1..], i - 1);
      assert msgs[..i + 1] == [msgs[0]] + msgs[1..][..i];
    }
  }

  /** Without a `done`, the loop visits every message. */
  lemma {:induction false} UntilNoDone(msgs: seq<BackendMsg>)
    requires !HasDone(msgs)
    ensures UntilDone(msgs) == msgs
    decreases |msgs|
  {
    if |msgs| > 0 {
      forall j | 0 <= j < |msgs| - 1
        ensures !msgs[1..][j].done
      {
        assert msgs[1..][j] == msgs[j + 1];
      }
      UntilNoDone(msgs[1..]);
      assert msgs == [msgs[0]] + msgs[1..];
    }
  }

  /**
    The emit loop of `createCompletionStreamV2`: for each message, a content chunk if its
    text is non-empty, then, if it is `done`, the stop chunk and `[DONE]`, and the loop
    stops. Nothing follows `[DONE]`, and `[DONE]` is written exactly when a message is
    `done`.
   */
  method EmitStream(msgs: seq<BackendMsg>, model: string, stamps: nat -> Stamp) returns (frames: seq<Frame>)
    ensures frames == ExpectedFrames(msgs, model, stamps)
  {
    frames := [];
    var i := 0;
    while i < |msgs|
      invariant 0 <= i <= |msgs|
      invariant forall j :: 0 <= j < i ==> !msgs[j].done
      invariant frames == ContentFrames(NonEmptyTexts(msgs[..i]), model, stamps)
    {
      var msg := msgs[i];
      EmitStep(msgs, i, model, stamps);
      if msg.text != "" {
        frames := frames + [ChunkFrame(ContentChunk(stamps(|frames|), model, msg.text))];
      }
      if msg.done {
        frames := frames + [ChunkFrame(StopChunk(stamps(|frames|), model)), DoneFrame];
        DoneAt(msgs, i, model, stamps);
        return;
      }
      i := i + 1;
    }
    assert msgs[..i] == msgs;
    NoneDone(msgs, model, stamps);
  }

  /**
    `createCompletionStreamV2`: the same checks as the non-streaming entry point, then one
    `client.chat` call; its rejection destroys the stream before anything is written,
    and its messages are written by the emit loop.
   */
  method CreateCompletionStreamV2(model: string, messages: seq<Message>, token: string, decode: string -> Option<Payload>,
                                  chat: RpcRequest -> Result<seq<BackendMsg>, string>, stamps: nat -> Stamp)
    returns (x: Exchange<StreamOutcome>)
    ensures DetectTokenType(token, decode) == Refresh ==> x == Exchange(None, Failure(NotJwt))
    ensures x.sent.Some? <==> DetectTokenType(token, decode) == Jwt && |messages| > 0
    ensures x.sent.None? ==> x.result.Failure?
    ensures x.sent.Some? ==> x.sent.value.content == ContentText(messages[|messages| - 1].content)
    ensures x.sent.Some? ==> x.sent.value.scenario == SelectScenario(model) && x.sent.value.thinking == Contains(model, "thinking")
    ensures x.sent.Some? ==> PrepareRequest(model, messages, token, decode) == Success(x.sent.value)
    ensures x.sent.Some? && chat(x.sent.value).Failure? ==> x.result == Success(Destroyed(chat(x.sent.value).error))
    ensures x.sent.Some? && chat(x.sent.value).Success?
        ==> x.result == Success(Ended(ExpectedFrames(chat(x.sent.value).value, model, stamps)))
  {
    var prepared := PrepareRequest(model, messages, token, decode);
    if prepared.Failure? {
      return Exchange(None, Failure(prepared.error));
    }
    var request := prepared.value;
    var reply := chat(request);
    if reply.Failure? {
      return Exchange(Some(request), Success(Destroyed(reply.error)));
    }
    var frames := EmitStream(reply.value, model, stamps);
    x := Exchange(Some(request), Success(Ended(frames)));
  }
}
