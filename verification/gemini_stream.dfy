/**
  `convertKimiStreamToGemini` of `src/api/controllers/gemini-adapter.ts` as a fold over
  the classified upstream lines: a Gemini chunk per text, and a final chunk with usage
  when a record finishes. There is no opening event, and a record without `delta`
  writes nothing. The fold is proved equal to a reference chunk sequence.
 */
module GeminiStream {
  import opened Wrappers
  import opened Protocol
  import opened Sse
  import opened GeminiAdapter

  /** A streamed chunk carrying one text; it has no finish reason and no usage. */
  function TextChunk(text: string): GeminiResponse {
    GeminiResponse([Candidate([text], "model", None, 0)], None)
  }

  /** The last chunk: an empty text, `STOP` whatever the upstream finish reason, and the usage copied. */
  function FinalChunk(usage: Option<Usage>): GeminiResponse {
    GeminiResponse([Candidate([""], "model", Some("STOP"), 0)], Some(UsageMetadataOf(usage)))
  }

  function TextChunks(texts: seq<string>): (cs: seq<GeminiResponse>)
    ensures |cs| == |texts|
    ensures forall j :: 0 <= j < |texts| ==> cs[j] == TextChunk(texts[j])
  {
    seq(|texts|, j requires 0 <= j < |texts| => TextChunk(texts[j]))
  }

  lemma TextChunksAppend(a: seq<string>, b: seq<string>)
    ensures TextChunks(a + b) == TextChunks(a) + TextChunks(b)
  {
    assert forall j :: 0 <= j < |a| + |b| ==> TextChunks(a + b)[j] == (TextChunks(a) + TextChunks(b))[j];
  }

  /** `contentBuffer` and whether `transStream.end()` has been called. */
  datatype GeminiState = GeminiState(buffer: string, ended: bool)

  const Fresh: GeminiState := GeminiState("", false)

  datatype Progress = Progress(state: GeminiState, chunks: seq<GeminiResponse>)

  /** A write reaches the client only while the output has not been ended. */
  function Written(st: GeminiState, chunks: seq<GeminiResponse>): seq<GeminiResponse> {
    if st.ended then [] else chunks
  }

  /** The body of the per-line loop; a missing `delta` throws before anything is written. */
  function Step(st: GeminiState, line: Line): Progress {
    match line
    case Data(Some(data)) =>
      if |data.choices| == 0 then Progress(st, [])
      else
        var choice := data.choices[0];
        (match choice.delta
         case None => Progress(st, [])
         case Some(delta) =>
           var text := if Truthy(delta.content) then [TextChunk(delta.content.value)] else [];
           var buffered := if Truthy(delta.content) then st.(buffer := st.buffer + delta.content.value) else st;
           if Truthy(choice.finishReason) then
             Progress(buffered.(ended := true), Written(st, text + [FinalChunk(data.usage)]))
           else
             Progress(buffered, Written(st, text)))
    case _ => Progress(st, [])
  }

  /**
    What a step does with a record: a chunk for its text and the final chunk if it
    finishes, only while the output is open; the buffer grows by the text regardless.
   */
  function Effect(st: GeminiState, r: Record): Progress {
    Progress(GeminiState(st.buffer + Concat(TextOf(r)), st.ended || Finishes(r)),
             Written(st, TextChunks(TextOf(r)) + (if Finishes(r) then [FinalChunk(r.usage)] else [])))
  }

  /** A step does nothing with a line without a record, and `Effect` with one that has a record. */
  lemma StepRecord(st: GeminiState, line: Line)
    ensures RecordOf(line).None? ==> Step(st, line) == Progress(st, [])
    ensures RecordOf(line).Some? ==> Step(st, line) == Effect(st, RecordOf(line).value)
  {
    if RecordOf(line).Some? {
      var r := RecordOf(line).value;
      var ts := TextOf(r);
      if |ts| == 1 {
        assert Concat(ts) == ts[0] + Concat([]);
        assert TextChunks(ts) == [TextChunk(ts[0])];
      } else {
        assert TextChunks(ts) == [];
      }
    }
  }

  /** The transcoder over a sequence of lines. */
  function Run(st: GeminiState, lines: seq<Line>): Progress
    decreases |lines|
  {
    if |lines| == 0 then Progress(st, [])
    else
      var p := Step(st, lines[0]);
      var q := Run(p.state, lines[1..]);
      Progress(q.state, p.chunks + q.chunks)
  }

  lemma RunRecord(st: GeminiState, lines: seq<Line>)
    requires |lines| > 0 && RecordOf(lines[0]).Some?
    ensures var e := Effect(st, RecordOf(lines[0]).value);
      Run(st, lines) == Progress(Run(e.state, lines[1..]).state, e.chunks + Run(e.state, lines[1..]).chunks)
    ensures Records(lines) == [RecordOf(lines[0]).value] + Records(lines[1..])
  {
    StepRecord(st, lines[0]);
  }

  lemma RunSkip(st: GeminiState, lines: seq<Line>)
    requires |lines| > 0 && RecordOf(lines[0]).None?
    ensures Run(st, lines) == Run(st, lines[1..])
    ensures Records(lines) == Records(lines[1..])
  {
    StepRecord(st, lines[0]);
  }

  /**
    Reference definition of the Gemini stream: a chunk per text up to the first
    finishing record, then the final chunk if a record finishes.
   */
  function GeminiExpected(rs: seq<Record>): seq<GeminiResponse> {
    var u := UntilFinish(rs);
    TextChunks(Texts(u)) + (if |u| > 0 && Finishes(u[|u| - 1]) then [FinalChunk(u[|u| - 1].usage)] else [])
  }

  /** How `GeminiExpected` unfolds over its first record. */
  lemma ExpectedCons(r: Record, rs: seq<Record>)
    ensures GeminiExpected([r] + rs)
         == TextChunks(TextOf(r)) + (if Finishes(r) then [FinalChunk(r.usage)] else GeminiExpected(rs))
  {
    if Finishes(r) {
      ExpectedConsStop(r, rs);
    } else {
      ExpectedConsGo(r, rs);
    }
  }

  lemma ExpectedConsStop(r: Record, rs: seq<Record>)
    requires Finishes(r)
    ensures GeminiExpected([r] + rs) == TextChunks(TextOf(r)) + [FinalChunk(r.usage)]
  {
    var all := [r] + rs;
    assert all[0] == r;
    var u := UntilFinish(all);
    assert u == [r];
    assert Texts(u) == TextOf(r) + Texts([]);
  }

  lemma ExpectedConsGo(r: Record, rs: seq<Record>)
    requires !Finishes(r)
    ensures GeminiExpected([r] + rs) == TextChunks(TextOf(r)) + GeminiExpected(rs)
  {
    var all := [r] + rs;
    assert all[0] == r && all[1..] == rs;
    var u := UntilFinish(all);
    var v := UntilFinish(rs);
    assert u == [r] + v;
    assert Texts(u) == TextOf(r) + Texts(v) by { assert u[0] == r && u[1..] == v; }
    TextChunksAppend(TextOf(r), Texts(v));
    var close := if |v| > 0 && Finishes(v[|v| - 1]) then [FinalChunk(v[|v| - 1].usage)] else [];
    if |v| > 0 {
      assert u[|u| - 1] == v[|v| - 1];
    }
    assert GeminiExpected(all) == TextChunks(Texts(u)) + close;
    assert GeminiExpected(rs) == TextChunks(Texts(v)) + close;
    AppendAssoc(TextChunks(TextOf(r)), TextChunks(Texts(v)), close);
  }

  lemma AppendAssoc(a: seq<GeminiResponse>, b: seq<GeminiResponse>, c: seq<GeminiResponse>)
    ensures a + b + c == a + (b + c)
  {
  }

  /** After the output has ended, the transcoder writes nothing more and stays ended. */
  lemma {:induction false} RunAfterEnd(st: GeminiState, lines: seq<Line>)
    requires st.ended
    ensures Run(st, lines).chunks == []
    ensures Run(st, lines).state.ended
    decreases |lines|
  {
    if |lines| > 0 {
      RunAfterEnd(Step(st, lines[0]).state, lines[1..]);
    }
  }

  /** The fold agrees with the reference definition from any state whose output is open. */
  lemma {:induction false} RunMatches(st: GeminiState, lines: seq<Line>)
    requires !st.ended
    ensures Run(st, lines).chunks == GeminiExpected(Records(lines))
    decreases |lines|
  {
    if |lines| == 0 {
      assert UntilFinish([]) == [];
    } else if RecordOf(lines[0]).None? {
      RunSkip(st, lines);
      RunMatches(st, lines[1..]);
    } else {
      var rest := lines[1..];
      var r := RecordOf(lines[0]).value;
      var e := Effect(st, r);
      RunRecord(st, lines);
      ExpectedCons(r, Records(rest));
      assert Run(st, lines).chunks == e.chunks + Run(e.state, rest).chunks;
      if Finishes(r) {
        RunAfterEnd(e.state, rest);
        assert e.chunks + [] == e.chunks;
      } else {
        RunMatches(e.state, rest);
        assert e.chunks == TextChunks(TextOf(r)) + [];
        assert e.chunks == TextChunks(TextOf(r));
      }
    }
  }

  /** The transcoder's output for a whole upstream stream. */
  function GeminiChunks(lines: seq<Line>): (cs: seq<GeminiResponse>)
    ensures cs == GeminiExpected(Records(lines))
  {
    RunMatches(Fresh, lines);
    Run(Fresh, lines).chunks
  }

  /** The output ends exactly when some record finishes. */
  lemma {:induction false} RunEnds(st: GeminiState, lines: seq<Line>)
    requires !st.ended
    ensures Run(st, lines).state.ended <==> Finished(Records(lines))
    decreases |lines|
  {
    if |lines| == 0 {
    } else if RecordOf(lines[0]).None? {
      RunSkip(st, lines);
      RunEnds(st, lines[1..]);
    } else {
      var rest := lines[1..];
      var r := RecordOf(lines[0]).value;
      var e := Effect(st, r);
      RunRecord(st, lines);
      FinishedCons(r, Records(rest));
      if Finishes(r) {
        RunAfterEnd(e.state, rest);
      } else {
        RunEnds(e.state, rest);
      }
    }
  }

  /** `contentBuffer` collects every text read, in order, including texts read after the output has ended. */
  lemma {:induction false} RunBuffer(st: GeminiState, lines: seq<Line>)
    ensures Run(st, lines).state.buffer == st.buffer + Concat(Texts(Records(lines)))
    decreases |lines|
  {
    if |lines| == 0 {
    } else if RecordOf(lines[0]).None? {
      RunSkip(st, lines);
      RunBuffer(st, lines[1..]);
    } else {
      var rest := lines[1..];
      var r := RecordOf(lines[0]).value;
      var e := Effect(st, r);
      RunRecord(st, lines);
      assert Run(st, lines).state == Run(e.state, rest).state;
      assert e.state.buffer == st.buffer + Concat(TextOf(r));
      RunBuffer(e.state, rest);
      TextsCons(r, Records(rest));
      ConcatAppend(TextOf(r), Texts(Records(rest)));
      var c1, c2 := Concat(TextOf(r)), Concat(Texts(Records(rest)));
      assert st.buffer + c1 + c2 == st.buffer + (c1 + c2);
    }
  }

  /**
    The chunk grammar: every chunk but the last carries a non-empty text and no usage,
    and the last is the final chunk exactly when some record finishes.
   */
  lemma GeminiGrammar(lines: seq<Line>)
    ensures var cs := GeminiChunks(lines);
      (|cs| > 0 && cs[|cs| - 1].usageMetadata.Some?) <==> Finished(Records(lines))
    ensures var cs := GeminiChunks(lines);
      forall j :: 0 <= j < |cs| - 1 ==> cs[j].usageMetadata.None? && cs[j].candidates[0].parts[0] != ""
    ensures !Finished(Records(lines)) ==> GeminiChunks(lines) == TextChunks(Texts(Records(lines)))
  {
    var rs := Records(lines);
    UntilFinishEnds(rs);
    if Finished(rs) {
      GrammarFinished(rs);
    } else {
      GrammarOpen(rs);
    }
  }

  lemma GrammarFinished(rs: seq<Record>)
    requires Finished(rs)
    ensures var cs := GeminiExpected(rs);
      |cs| > 0 && cs[|cs| - 1].usageMetadata.Some?
    ensures var cs := GeminiExpected(rs);
      forall j :: 0 <= j < |cs| - 1 ==> cs[j].usageMetadata.None? && cs[j].candidates[0].parts[0] != ""
  {
    UntilFinishEnds(rs);
    var u := UntilFinish(rs);
    var tc := TextChunks(Texts(u));
    var cs := GeminiExpected(rs);
    assert cs == tc + [FinalChunk(u[|u| - 1].usage)];
    forall j | 0 <= j < |cs| - 1
      ensures cs[j].usageMetadata.None? && cs[j].candidates[0].parts[0] != ""
    {
      assert cs[j] == tc[j] == TextChunk(Texts(u)[j]);
    }
  }

  lemma GrammarOpen(rs: seq<Record>)
    requires !Finished(rs)
    ensures GeminiExpected(rs) == TextChunks(Texts(rs))
    ensures var cs := GeminiExpected(rs);
      |cs| == 0 || cs[|cs| - 1].usageMetadata.None?
    ensures var cs := GeminiExpected(rs);
      forall j :: 0 <= j < |cs| ==> cs[j].usageMetadata.None? && cs[j].candidates[0].parts[0] != ""
  {
    UntilFinishEnds(rs);
    var cs := GeminiExpected(rs);
    assert cs == TextChunks(Texts(rs)) + [];
    forall j | 0 <= j < |cs|
      ensures cs[j].usageMetadata.None? && cs[j].candidates[0].parts[0] != ""
    {
      assert cs[j] == TextChunk(Texts(rs)[j]);
    }
  }
}
