/**
  The streaming entry points of the two adapters: the chat controller's SSE output is
  read back by a transcoder. The proofs here go through the wire: for any JSON codec
  that round-trips chunks and never writes a raw newline, the transcoders see exactly
  the chunks that were written, and the composed outputs have a closed form in the
  backend's messages.
 */
module Pipeline {
  import opened Wrappers
  import opened Text
  import opened Protocol
  import opened Credentials
  import opened Scenarios
  import opened Canonical
  import opened ChatV2
  import opened OpenAIStream
  import opened Sse
  import ClaudeAdapter
  import ClaudeStream
  import GeminiAdapter
  import GeminiStream

  /**
    What the proofs assume of `JSON.stringify` and `JSON.parse` on chunks: parsing gives
    back the chunk, and the text is a one-line object.
   */
  ghost predicate JsonCodec(stringify: Chunk -> string, parse: string -> Option<Chunk>) {
    forall c: Chunk :: parse(stringify(c)) == Some(c) && '\n' !in stringify(c) && |stringify(c)| > 0 && stringify(c)[0] == '{'
  }

  /** The lines a transcoder sees for one SSE record: the payload line and two blank lines. */
  function FrameLines(f: Frame): seq<Line> {
    match f
    case ChunkFrame(c) => [Data(Some(c)), Blank, Blank]
    case DoneFrame => [DoneSentinel, Blank, Blank]
  }

  function FramesLines(frames: seq<Frame>): seq<Line> {
    if |frames| == 0 then [] else FrameLines(frames[0]) + FramesLines(frames[1..])
  }

  lemma {:induction false} FramesLinesAppend(a: seq<Frame>, b: seq<Frame>)
    ensures FramesLines(a + b) == FramesLines(a) + FramesLines(b)
    decreases |a|
  {
    if a == [] {
      assert a + b == b;
    } else {
      assert (a + b)[0] == a[0];
      assert (a + b)[1..] == a[1..] + b;
      FramesLinesAppend(a[1..], b);
    }
  }

  lemma EmptyIsBlank(parse: string -> Option<Chunk>)
    ensures ClassifyLine("", parse) == Blank
  {
    TrimOfTrimmed("");
  }

  /** The payload line of a written chunk reads back as that chunk. */
  lemma ChunkLine(c: Chunk, stringify: Chunk -> string, parse: string -> Option<Chunk>)
    requires JsonCodec(stringify, parse)
    ensures ClassifyLine("data: " + stringify(c), parse) == Data(Some(c))
  {
    var head := "data: " + stringify(c);
    assert head[6] == stringify(c)[0] == '{';
    TrimKeeps(head, 6);
    assert Trim(head)[6] == '{';
    assert "data: [DONE]"[6] == '[';
    assert StartsWith(head, "data: ") && head[6..] == stringify(c);
  }

  /** The `[DONE]` line reads back as the sentinel. */
  lemma DoneLine(parse: string -> Option<Chunk>)
    ensures ClassifyLine("data: [DONE]", parse) == DoneSentinel
  {
    TrimOfTrimmed("data: [DONE]");
  }

  /** A written record splits into its payload line and two empty lines. */
  lemma WireSplit(head: string)
    requires '\n' !in head
    ensures Split(head + "\n\n", '\n') == [head, "", ""]
  {
    assert Join(["", ""], "\n") == "\n" by {
      assert ["", ""][1..] == [""];
    }
    assert Join([head, "", ""], "\n") == head + "\n" + "\n" by {
      assert [head, "", ""][1..] == ["", ""];
    }
    assert head + "\n\n" == head + "\n" + "\n";
    SplitJoin([head, "", ""], '\n');
  }

  /** Splitting and classifying one written record gives back the record: the wire loses nothing. */
  lemma WireLines(f: Frame, stringify: Chunk -> string, parse: string -> Option<Chunk>)
    requires JsonCodec(stringify, parse)
    ensures ClassifyAll(Split(Wire(f, stringify), '\n'), parse) == FrameLines(f)
  {
    match f
    case ChunkFrame(c) =>
      var head := "data: " + stringify(c);
      assert Wire(f, stringify) == head + "\n\n";
      WireSplit(head);
      ChunkLine(c, stringify, parse);
      PayloadLines(head, Data(Some(c)), parse);
    case DoneFrame =>
      var head := "data: [DONE]";
      assert Wire(f, stringify) == head + "\n\n";
      WireSplit(head);
      DoneLine(parse);
      PayloadLines(head, DoneSentinel, parse);
  }

  lemma ClassifyThree(a: string, b: string, c: string, parse: string -> Option<Chunk>)
    ensures ClassifyAll([a, b, c], parse) == [ClassifyLine(a, parse), ClassifyLine(b, parse), ClassifyLine(c, parse)]
  {
    var raws := [a, b, c];
    assert raws[0] == a && raws[1] == b && raws[2] == c;
  }

  /** A payload line and two empty lines classify as that line's kind and two blanks. */
  lemma PayloadLines(head: string, kind: Line, parse: string -> Option<Chunk>)
    requires ClassifyLine(head, parse) == kind
    ensures ClassifyAll([head, "", ""], parse) == [kind, Blank, Blank]
  {
    ClassifyThree(head, "", "", parse);
    EmptyIsBlank(parse);
  }

  /** The record a written chunk carries back; `[DONE]` and the blank lines carry none. */
  lemma FrameLinesRecords(f: Frame)
    ensures Records(FrameLines(f))
         == match f
            case ChunkFrame(c) => if |c.choices| > 0 then [Record(c.choices[0], c.usage)] else []
            case DoneFrame => []
  {
    var ls := FrameLines(f);
    assert ls[1..] == [Blank, Blank];
    assert ls[1..][1..] == [Blank];
    assert [Blank][1..] == [];
    assert Records([Blank]) == [];
    assert Records([Blank, Blank]) == [];
  }

  /** The lines of everything written are the lines of the records, in order. */
  lemma {:induction false} WireAllLines(frames: seq<Frame>, stringify: Chunk -> string, parse: string -> Option<Chunk>)
    requires JsonCodec(stringify, parse)
    ensures LinesOf(WireAll(frames, stringify), parse) == FramesLines(frames)
    decreases |frames|
  {
    if |frames| > 0 {
      assert WireAll(frames, stringify)[1..] == WireAll(frames[1..], stringify);
      WireLines(frames[0], stringify, parse);
      WireAllLines(frames[1..], stringify, parse);
    }
  }

  /** The record of a content chunk: its text and no finish reason. */
  function ContentRecord(t: string): Record {
    Record(Choice(0, Some(Delta(Some(t))), None), None)
  }

  /** The record of the stop chunk: an empty delta and `stop`. */
  const StopRecord: Record := Record(Choice(0, Some(Delta(None)), Some("stop")), None)

  function ContentRecords(ts: seq<string>): (rs: seq<Record>)
    ensures |rs| == |ts|
    ensures forall j :: 0 <= j < |ts| ==> rs[j] == ContentRecord(ts[j])
  {
    seq(|ts|, j requires 0 <= j < |ts| => ContentRecord(ts[j]))
  }

  lemma ContentRecordsSnoc(ts: seq<string>, t: string)
    ensures ContentRecords(ts + [t]) == ContentRecords(ts) + [ContentRecord(t)]
  {
    assert forall j :: 0 <= j < |ts| + 1 ==> ContentRecords(ts + [t])[j] == (ContentRecords(ts) + [ContentRecord(t)])[j];
  }

  /** The content chunks read back as their records, in order. */
  lemma {:induction false} ContentFramesRecords(ts: seq<string>, model: string, stamps: nat -> Stamp)
    ensures Records(FramesLines(ContentFrames(ts, model, stamps))) == ContentRecords(ts)
    decreases |ts|
  {
    if |ts| == 0 {
      assert ContentFrames(ts, model, stamps) == [];
    } else {
      var init := ts[..|ts| - 1];
      var t := ts[|ts| - 1];
      assert ts == init + [t];
      var before := ContentFrames(init, model, stamps);
      var f := ChunkFrame(ContentChunk(stamps(|init|), model, t));
      ContentFramesSnoc(init, t, model, stamps);
      assert ContentFrames(ts, model, stamps) == before + [f];
      ContentFramesRecords(init, model, stamps);
      FramesLinesAppend(before, [f]);
      assert FramesLines([f]) == FrameLines(f) by {
        assert [f][1..] == [];
        assert FrameLines(f) + [] == FrameLines(f);
      }
      RecordsAppend(FramesLines(before), FrameLines(f));
      FrameLinesRecords(f);
      ContentRecordsSnoc(init, t);
    }
  }

  /** The texts of the content records are the texts written, and none of them finishes. */
  lemma {:induction false} ContentRecordsTexts(ts: seq<string>)
    requires forall j :: 0 <= j < |ts| ==> ts[j] != ""
    ensures Texts(ContentRecords(ts)) == ts
    ensures !Finished(ContentRecords(ts))
    decreases |ts|
  {
    var rs := ContentRecords(ts);
    if |ts| > 0 {
      assert rs[1..] == ContentRecords(ts[1..]);
      ContentRecordsTexts(ts[1..]);
      assert TextOf(rs[0]) == [ts[0]];
      assert ts == [ts[0]] + ts[1..];
    }
    assert forall j :: 0 <= j < |ts| ==> !Finishes(rs[j]);
  }

  /** A record sequence whose last record is the first to finish is kept whole. */
  lemma UntilFinishWhole(rs: seq<Record>)
    requires |rs| > 0 && Finishes(rs[|rs| - 1])
    requires forall j :: 0 <= j < |rs| - 1 ==> !Finishes(rs[j])
    ensures UntilFinish(rs) == rs
  {
    UntilFinishEnds(rs);
    var u := UntilFinish(rs);
    assert Finishes(u[|u| - 1]);
    assert u[|u| - 1] == rs[|u| - 1];
  }

  /** The records behind a sequence of content texts, then the stop record when `done`. */
  function ReadBack(ts: seq<string>, done: bool): seq<Record> {
    ContentRecords(ts) + (if done then [StopRecord] else [])
  }

  /** The stop chunk and `[DONE]` read back as the stop record alone. */
  lemma StopFramesRecords(stamp: Stamp, model: string)
    ensures Records(FramesLines([ChunkFrame(StopChunk(stamp, model)), DoneFrame])) == [StopRecord]
  {
    var f := ChunkFrame(StopChunk(stamp, model));
    var fs := [f, DoneFrame];
    assert fs[1..] == [DoneFrame] && [DoneFrame][1..] == [];
    assert FramesLines([DoneFrame]) == FrameLines(DoneFrame) + [];
    assert FramesLines(fs) == FrameLines(f) + FrameLines(DoneFrame) + [];
    FrameLinesRecords(f);
    FrameLinesRecords(DoneFrame);
    RecordsAppend(FrameLines(f), FrameLines(DoneFrame));
    assert FrameLines(f) + FrameLines(DoneFrame) + [] == FrameLines(f) + FrameLines(DoneFrame);
  }

  /**
    What the transcoders read from the chat controller's stream: a record per
    non-empty text, and the stop record when a message is `done`.
   */
  lemma ExpectedRecords(msgs: seq<BackendMsg>, model: string, stamps: nat -> Stamp, stringify: Chunk -> string, parse: string -> Option<Chunk>)
    requires JsonCodec(stringify, parse)
    ensures Records(LinesOf(WireAll(ExpectedFrames(msgs, model, stamps), stringify), parse))
         == ReadBack(NonEmptyTexts(UntilDone(msgs)), HasDone(msgs))
  {
    var texts := NonEmptyTexts(UntilDone(msgs));
    var content := ContentFrames(texts, model, stamps);
    var stop := if HasDone(msgs) then [ChunkFrame(StopChunk(stamps(|texts|), model)), DoneFrame] else [];
    var frames := ExpectedFrames(msgs, model, stamps);
    assert frames == content + stop;
    WireAllLines(frames, stringify, parse);
    FramesLinesAppend(content, stop);
    RecordsAppend(FramesLines(content), FramesLines(stop));
    ContentFramesRecords(texts, model, stamps);
    if HasDone(msgs) {
      StopFramesRecords(stamps(|texts|), model);
    } else {
      assert FramesLines(stop) == [];
    }
  }

  /** Of those records the stop record is the only one that finishes, and the texts are read back whole. */
  lemma ReadBackFacts(ts: seq<string>, done: bool)
    requires forall j :: 0 <= j < |ts| ==> ts[j] != ""
    ensures var rs := ReadBack(ts, done);
      UntilFinish(rs) == rs && Texts(rs) == ts && (Finished(rs) <==> done)
    ensures done ==> var rs := ReadBack(ts, done); rs[|rs| - 1] == StopRecord
    ensures !done ==> ReadBack(ts, done) == ContentRecords(ts)
  {
    ContentRecordsTexts(ts);
    var cr := ContentRecords(ts);
    if done {
      var rs := cr + [StopRecord];
      forall j | 0 <= j < |rs| - 1
        ensures !Finishes(rs[j])
      {
        assert rs[j] == cr[j];
      }
      UntilFinishWhole(rs);
      TextsAppend(cr, [StopRecord]);
      assert Texts([StopRecord]) == [] + Texts([]);
      assert Finishes(rs[|rs| - 1]);
    } else {
      assert cr + [] == cr;
      UntilFinishEnds(cr);
    }
  }

  /**
    What a Claude client receives from a backend that sends `msgs`: nothing if the
    backend neither says anything nor finishes, otherwise the bootstrap, a delta per
    non-empty text up to the first `done`, and the closing events if there is a `done`.
   */
  function ClaudeAnswer(msgs: seq<BackendMsg>, messageId: string): seq<ClaudeStream.ClaudeEvent> {
    var texts := NonEmptyTexts(UntilDone(msgs));
    if |texts| == 0 && !HasDone(msgs) then []
    else ClaudeStream.Bootstrap(messageId) + ClaudeStream.DeltaEvents(texts)
         + (if HasDone(msgs) then ClaudeStream.Closing(None) else [])
  }

  /**
    The order of the events a Claude client receives, by their `event:` names: once
    anything is written, `message_start` and `content_block_start`, then only
    `content_block_delta`s, then, exactly when a message is `done`,
    `content_block_stop`, `message_delta` and `message_stop`.
   */
  lemma AnswerEventOrder(msgs: seq<BackendMsg>, messageId: string)
    ensures ClaudeAnswer(msgs, messageId) == [] <==> NonEmptyTexts(UntilDone(msgs)) == [] && !HasDone(msgs)
    ensures var ev := ClaudeAnswer(msgs, messageId);
      ev != [] ==>
        |ev| >= (if HasDone(msgs) then 5 else 2)
        && ClaudeStream.EventName(ev[0]) == "message_start" && ClaudeStream.EventName(ev[1]) == "content_block_start"
        && (forall i :: 2 <= i < |ev| - (if HasDone(msgs) then 3 else 0) ==> ClaudeStream.EventName(ev[i]) == "content_block_delta")
        && (HasDone(msgs) ==>
              ClaudeStream.EventName(ev[|ev| - 3]) == "content_block_stop"
              && ClaudeStream.EventName(ev[|ev| - 2]) == "message_delta"
              && ClaudeStream.EventName(ev[|ev| - 1]) == "message_stop")
  {
    var texts := NonEmptyTexts(UntilDone(msgs));
    var ev := ClaudeAnswer(msgs, messageId);
    if ev != [] {
      var boot := ClaudeStream.Bootstrap(messageId);
      var deltas := ClaudeStream.DeltaEvents(texts);
      var tail := if HasDone(msgs) then ClaudeStream.Closing(None) else [];
      assert ev == boot + deltas + tail;
      assert |ev| == 2 + |deltas| + |tail|;
      assert ev[0] == boot[0] && ev[1] == boot[1];
      assert forall i :: 2 <= i < 2 + |deltas| ==> ev[i] == deltas[i - 2];
      if HasDone(msgs) {
        assert ev[|ev| - 3] == tail[0] && ev[|ev| - 2] == tail[1] && ev[|ev| - 1] == tail[2];
      }
    }
  }

  /** What a Gemini client receives from a backend that sends `msgs`. */
  function GeminiAnswer(msgs: seq<BackendMsg>): seq<GeminiAdapter.GeminiResponse> {
    GeminiStream.TextChunks(NonEmptyTexts(UntilDone(msgs)))
      + (if HasDone(msgs) then [GeminiStream.FinalChunk(None)] else [])
  }

  /**
    The Claude transcoder fed by the chat controller: the bootstrap once anything was
    written, a delta per non-empty text, and the closing events exactly when a message
    is `done`. The chat controller's chunks carry no `usage`, so the closing events
    always report zero tokens.
   */
  lemma ClaudeOverOpenAI(msgs: seq<BackendMsg>, model: string, stamps: nat -> Stamp,
                         stringify: Chunk -> string, parse: string -> Option<Chunk>, messageId: string)
    requires JsonCodec(stringify, parse)
    ensures ClaudeStream.ClaudeEvents(LinesOf(WireAll(ExpectedFrames(msgs, model, stamps), stringify), parse), messageId)
         == ClaudeAnswer(msgs, messageId)
  {
    var texts := NonEmptyTexts(UntilDone(msgs));
    var lines := LinesOf(WireAll(ExpectedFrames(msgs, model, stamps), stringify), parse);
    ExpectedRecords(msgs, model, stamps, stringify, parse);
    assert ClaudeStream.ClaudeEvents(lines, messageId) == ClaudeStream.ClaudeExpected(ReadBack(texts, HasDone(msgs)), messageId);
    ClaudeReadBack(texts, HasDone(msgs), messageId);
  }

  /** The Claude reference output over the records the chat controller writes. */
  lemma ClaudeReadBack(ts: seq<string>, done: bool, messageId: string)
    requires forall j :: 0 <= j < |ts| ==> ts[j] != ""
    ensures ClaudeStream.ClaudeExpected(ReadBack(ts, done), messageId)
         == if |ts| == 0 && !done then []
            else ClaudeStream.Bootstrap(messageId) + ClaudeStream.DeltaEvents(ts)
                 + (if done then ClaudeStream.Closing(None) else [])
  {
    ReadBackFacts(ts, done);
    if done {
      ClaudeReadBackDone(ts, messageId);
    } else if |ts| > 0 {
      ClaudeReadBackOpen(ts, messageId);
    }
  }

  lemma ClaudeReadBackDone(ts: seq<string>, messageId: string)
    requires forall j :: 0 <= j < |ts| ==> ts[j] != ""
    ensures ClaudeStream.ClaudeExpected(ReadBack(ts, true), messageId)
         == ClaudeStream.Bootstrap(messageId) + ClaudeStream.DeltaEvents(ts) + ClaudeStream.Closing(None)
  {
    ReadBackFacts(ts, true);
    var rs := ReadBack(ts, true);
    var deltas := ClaudeStream.DeltaEvents(ts);
    assert rs[|rs| - 1] == StopRecord && Finishes(StopRecord);
    assert ClaudeStream.Tail(rs) == deltas + ClaudeStream.Closing(None);
    ClaudeStream.AppendAssoc(ClaudeStream.Bootstrap(messageId), deltas, ClaudeStream.Closing(None));
  }

  lemma ClaudeReadBackOpen(ts: seq<string>, messageId: string)
    requires forall j :: 0 <= j < |ts| ==> ts[j] != ""
    requires |ts| > 0
    ensures ClaudeStream.ClaudeExpected(ReadBack(ts, false), messageId)
         == ClaudeStream.Bootstrap(messageId) + ClaudeStream.DeltaEvents(ts)
  {
    ReadBackFacts(ts, false);
    var rs := ReadBack(ts, false);
    assert rs[|rs| - 1] == ContentRecord(ts[|ts| - 1]);
    assert !Finishes(rs[|rs| - 1]);
    assert ClaudeStream.Tail(rs) == ClaudeStream.DeltaEvents(ts) + [];
  }

  /**
    The Gemini transcoder fed by the chat controller: a chunk per non-empty text, then
    the final chunk with zero usage exactly when a message is `done`.
   */
  lemma GeminiOverOpenAI(msgs: seq<BackendMsg>, model: string, stamps: nat -> Stamp,
                         stringify: Chunk -> string, parse: string -> Option<Chunk>)
    requires JsonCodec(stringify, parse)
    ensures GeminiStream.GeminiChunks(LinesOf(WireAll(ExpectedFrames(msgs, model, stamps), stringify), parse))
         == GeminiAnswer(msgs)
  {
    ExpectedRecords(msgs, model, stamps, stringify, parse);
    ReadBackFacts(NonEmptyTexts(UntilDone(msgs)), HasDone(msgs));
  }

  /** A backend that answers `a`, then `b`, then finishes with an empty `done` message. */
  function TwoTexts(a: string, b: string): seq<BackendMsg> {
    [BackendMsg(a, false), BackendMsg(b, false), BackendMsg("", true)]
  }

  /** The loop visits all three messages and keeps both texts. */
  lemma TwoTextsRead(a: string, b: string)
    requires a != "" && b != ""
    ensures HasDone(TwoTexts(a, b)) && NonEmptyTexts(UntilDone(TwoTexts(a, b))) == [a, b]
  {
    var msgs := TwoTexts(a, b);
    assert msgs[2].done;
    assert !HasDone(msgs[..2]) by {
      assert msgs[..2] == [BackendMsg(a, false), BackendMsg(b, false)];
    }
    UntilFirstDone(msgs, 2);
    assert msgs[..3] == msgs;
    assert NonEmptyTexts(msgs) == NonEmptyTexts(msgs[..2]) + [] by { assert msgs[..|msgs| - 1] == msgs[..2]; }
    assert NonEmptyTexts(msgs[..2]) == NonEmptyTexts(msgs[..1]) + [b] by { assert msgs[..2][..1] == msgs[..1]; }
    assert NonEmptyTexts(msgs[..1]) == NonEmptyTexts([]) + [a] by { assert msgs[..1][..0] == []; }
  }

  /** The chat controller writes two content chunks, the stop chunk and `[DONE]` for it. */
  lemma OpenAIHello(a: string, b: string, model: string, stamps: nat -> Stamp)
    requires a != "" && b != ""
    ensures ExpectedFrames(TwoTexts(a, b), model, stamps)
         == [ChunkFrame(ContentChunk(stamps(0), model, a)), ChunkFrame(ContentChunk(stamps(1), model, b)),
             ChunkFrame(StopChunk(stamps(2), model)), DoneFrame]
  {
    TwoTextsRead(a, b);
  }

  /**
    A Claude client streaming that answer (say "Hel", then "lo") receives exactly seven
    events.
   */
  lemma ClaudeHello(a: string, b: string, model: string, stamps: nat -> Stamp,
                    stringify: Chunk -> string, parse: string -> Option<Chunk>, messageId: string)
    requires a != "" && b != ""
    requires JsonCodec(stringify, parse)
    ensures
      ClaudeStream.ClaudeEvents(LinesOf(WireAll(ExpectedFrames(TwoTexts(a, b), model, stamps), stringify), parse), messageId)
        == [ClaudeStream.MessageStart(ClaudeAdapter.ClaudeMessage(messageId, [], "kimi", None, None, ClaudeAdapter.ClaudeUsage(0, 0))),
            ClaudeStream.ContentBlockStart(0, ""),
            ClaudeStream.ContentBlockDelta(0, a),
            ClaudeStream.ContentBlockDelta(0, b),
            ClaudeStream.ContentBlockStop(0),
            ClaudeStream.MessageDelta("end_turn", None, ClaudeAdapter.ClaudeUsage(0, 0)),
            ClaudeStream.MessageStop]
  {
    ClaudeOverOpenAI(TwoTexts(a, b), model, stamps, stringify, parse, messageId);
    HelloAnswer(a, b, messageId);
  }

  lemma HelloAnswer(a: string, b: string, messageId: string)
    requires a != "" && b != ""
    ensures ClaudeAnswer(TwoTexts(a, b), messageId)
         == [ClaudeStream.MessageStart(ClaudeAdapter.ClaudeMessage(messageId, [], "kimi", None, None, ClaudeAdapter.ClaudeUsage(0, 0))),
             ClaudeStream.ContentBlockStart(0, ""),
             ClaudeStream.ContentBlockDelta(0, a),
             ClaudeStream.ContentBlockDelta(0, b),
             ClaudeStream.ContentBlockStop(0),
             ClaudeStream.MessageDelta("end_turn", None, ClaudeAdapter.ClaudeUsage(0, 0)),
             ClaudeStream.MessageStop]
  {
    TwoTextsRead(a, b);
    var boot := ClaudeStream.Bootstrap(messageId);
    var deltas := ClaudeStream.DeltaEvents([a, b]);
    var close := ClaudeStream.Closing(None);
    assert ClaudeAnswer(TwoTexts(a, b), messageId) == boot + deltas + close;
    assert deltas == [ClaudeStream.ContentBlockDelta(0, a), ClaudeStream.ContentBlockDelta(0, b)];
    assert close == [ClaudeStream.ContentBlockStop(0), ClaudeStream.MessageDelta("end_turn", None, ClaudeAdapter.ClaudeUsage(0, 0)),
                     ClaudeStream.MessageStop];
  }

  /** The Claude transcoder reading what the chat controller's stream ended with; a destroyed stream gives nothing. */
  function ClaudeRead(o: StreamOutcome, stringify: Chunk -> string, parse: string -> Option<Chunk>, messageId: string)
    : seq<ClaudeStream.ClaudeEvent>
  {
    match o
    case Destroyed(_) => []
    case Ended(frames) => ClaudeStream.ClaudeEvents(LinesOf(WireAll(frames, stringify), parse), messageId)
  }

  /** The Gemini transcoder reading what the chat controller's stream ended with. */
  function GeminiRead(o: StreamOutcome, stringify: Chunk -> string, parse: string -> Option<Chunk>)
    : seq<GeminiAdapter.GeminiResponse>
  {
    match o
    case Destroyed(_) => []
    case Ended(frames) => GeminiStream.GeminiChunks(LinesOf(WireAll(frames, stringify), parse))
  }

  /**
    `createClaudeCompletion` with streaming: the messages are converted, the chat
    controller's stream is created, and the Claude transcoder reads it. A rejected RPC
    call destroys the upstream stream before anything is written, which ends the Claude
    stream empty.
   */
  method CreateClaudeCompletionStream(model: string, messages: seq<Message>, system: Content, token: string,
                                      decode: string -> Option<Payload>, chat: RpcRequest -> Result<seq<BackendMsg>, string>,
                                      stamps: nat -> Stamp, stringify: Chunk -> string, parse: string -> Option<Chunk>,
                                      messageId: string)
    returns (x: Exchange<seq<ClaudeStream.ClaudeEvent>>)
    ensures DetectTokenType(token, decode) == Refresh ==> x == Exchange(None, Failure(NotJwt))
    ensures x.sent.Some? <==> DetectTokenType(token, decode) == Jwt && |ClaudeAdapter.Kept(messages)| > 0
    ensures x.sent.None? ==> x.result.Failure?
    ensures x.sent.Some? ==> x.sent.value.content == LastSent(ClaudeAdapter.Kept(messages), ContentText(system))
    ensures x.sent.Some? ==> x.sent.value.scenario == SelectScenario(model) && x.sent.value.thinking == Contains(model, "thinking")
    ensures x.sent.Some? ==> PrepareRequest(model, AsChatMessages(ClaudeAdapter.ConvertClaudeToKimi(messages, system)), token, decode) == Success(x.sent.value)
    ensures x.sent.Some? && chat(x.sent.value).Failure? ==> x.result == Success([])
    ensures JsonCodec(stringify, parse) && x.sent.Some? && chat(x.sent.value).Success? ==>
      x.result == Success(ClaudeAnswer(chat(x.sent.value).value, messageId))
  {
    var converted := AsChatMessages(ClaudeAdapter.ConvertClaudeToKimi(messages, system));
    ClaudeAdapter.ClaudeSentText(messages, system);
    var upstream := CreateCompletionStreamV2(model, converted, token, decode, chat, stamps);
    if upstream.result.Failure? {
      x := Exchange(upstream.sent, Failure(upstream.result.error));
    } else {
      x := Exchange(upstream.sent, Success(ClaudeRead(upstream.result.value, stringify, parse, messageId)));
      if JsonCodec(stringify, parse) && chat(upstream.sent.value).Success? {
        ClaudeOverOpenAI(chat(upstream.sent.value).value, model, stamps, stringify, parse, messageId);
      }
    }
  }

  /**
    `createGeminiCompletion` with streaming: the contents are converted, the chat
    controller's stream is created, and the Gemini transcoder reads it.
   */
  method CreateGeminiCompletionStream(model: string, contents: seq<GeminiAdapter.GeminiContent>, si: GeminiAdapter.SystemInstruction,
                                      token: string, decode: string -> Option<Payload>,
                                      chat: RpcRequest -> Result<seq<BackendMsg>, string>,
                                      stamps: nat -> Stamp, stringify: Chunk -> string, parse: string -> Option<Chunk>)
    returns (x: Exchange<seq<GeminiAdapter.GeminiResponse>>)
    ensures DetectTokenType(token, decode) == Refresh ==> x == Exchange(None, Failure(NotJwt))
    ensures x.sent.Some? <==> DetectTokenType(token, decode) == Jwt && |contents| > 0
    ensures x.sent.None? ==> x.result.Failure?
    ensures x.sent.Some? ==> x.sent.value.content == LastSent(GeminiAdapter.Turns(contents), GeminiAdapter.InstructionTextOf(si))
    ensures x.sent.Some? ==> x.sent.value.scenario == SelectScenario(model) && x.sent.value.thinking == Contains(model, "thinking")
    ensures x.sent.Some? ==> PrepareRequest(model, AsChatMessages(GeminiAdapter.ConvertGeminiToKimi(contents, si)), token, decode) == Success(x.sent.value)
    ensures x.sent.Some? && chat(x.sent.value).Failure? ==> x.result == Success([])
    ensures JsonCodec(stringify, parse) && x.sent.Some? && chat(x.sent.value).Success? ==>
      x.result == Success(GeminiAnswer(chat(x.sent.value).value))
  {
    var converted := AsChatMessages(GeminiAdapter.ConvertGeminiToKimi(contents, si));
    GeminiAdapter.GeminiSentText(contents, si);
    var upstream := CreateCompletionStreamV2(model, converted, token, decode, chat, stamps);
    if upstream.result.Failure? {
      x := Exchange(upstream.sent, Failure(upstream.result.error));
    } else {
      x := Exchange(upstream.sent, Success(GeminiRead(upstream.result.value, stringify, parse)));
      if JsonCodec(stringify, parse) && chat(upstream.sent.value).Success? {
        GeminiOverOpenAI(chat(upstream.sent.value).value, model, stamps, stringify, parse);
      }
    }
  }
}
