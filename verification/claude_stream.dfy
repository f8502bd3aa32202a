/**
  `convertKimiStreamToClaude` of `src/api/controllers/claude-adapter.ts` as a fold over
  the classified upstream lines. The state holds `isFirstChunk`, `contentBuffer` and
  whether the output stream has been ended; once it has, writes produce nothing. The
  fold is proved equal to a reference event sequence computed from the records alone.
 */
module ClaudeStream {
  import opened Wrappers
  import opened Protocol
  import opened Sse
  import opened ClaudeAdapter

  /** A Claude SSE event; each is written as `event: <name>` and its JSON payload. */
  datatype ClaudeEvent =
    | MessageStart(message: ClaudeMessage)
    | ContentBlockStart(index: int, text: string)
    | ContentBlockDelta(index: int, text: string)
    | ContentBlockStop(index: int)
    | MessageDelta(stopReason: string, stopSequence: Option<string>, usage: ClaudeUsage)
    | MessageStop

  function EventName(e: ClaudeEvent): string {
    match e
    case MessageStart(_) => "message_start"
    case ContentBlockStart(_, _) => "content_block_start"
    case ContentBlockDelta(_, _) => "content_block_delta"
    case ContentBlockStop(_) => "content_block_stop"
    case MessageDelta(_, _, _) => "message_delta"
    case MessageStop => "message_stop"
  }

  /** The two events written before the first record is handled: an empty message and an empty text block. */
  function Bootstrap(messageId: string): seq<ClaudeEvent> {
    [MessageStart(ClaudeMessage(messageId, [], ModelName, None, None, ClaudeUsage(0, 0))), ContentBlockStart(0, "")]
  }

  /** One delta event per text, all in block 0. */
  function DeltaEvents(texts: seq<string>): (es: seq<ClaudeEvent>)
    ensures |es| == |texts|
    ensures forall j :: 0 <= j < |texts| ==> es[j] == ContentBlockDelta(0, texts[j])
  {
    seq(|texts|, j requires 0 <= j < |texts| => ContentBlockDelta(0, texts[j]))
  }

  lemma DeltaEventsAppend(a: seq<string>, b: seq<string>)
    ensures DeltaEvents(a + b) == DeltaEvents(a) + DeltaEvents(b)
  {
    assert forall j :: 0 <= j < |a| + |b| ==> DeltaEvents(a + b)[j] == (DeltaEvents(a) + DeltaEvents(b))[j];
  }

  /** The three events that end the message; `end_turn` whatever the upstream finish reason. */
  function Closing(usage: Option<Usage>): seq<ClaudeEvent> {
    [ContentBlockStop(0), MessageDelta("end_turn", None, ClaudeUsageOf(usage)), MessageStop]
  }

  /** `isFirstChunk`, `contentBuffer`, and whether `transStream.end()` has been called. */
  datatype ClaudeState = ClaudeState(isFirstChunk: bool, buffer: string, ended: bool)

  const Fresh: ClaudeState := ClaudeState(true, "", false)

  /** The state after a step and the events that step put on the output. */
  datatype Progress = Progress(state: ClaudeState, events: seq<ClaudeEvent>)

  /** A write reaches the client only while the output has not been ended. */
  function Written(st: ClaudeState, events: seq<ClaudeEvent>): seq<ClaudeEvent> {
    if st.ended then [] else events
  }

  /**
    The body of the per-line loop. The bootstrap is written as soon as a chunk has a
    `choices[0]`, before `delta` is read; a missing `delta` then throws, the error is
    logged, and nothing else of that line happens.
   */
  function Step(st: ClaudeState, line: Line, messageId: string): Progress {
    match line
    case Data(Some(data)) =>
      if |data.choices| == 0 then Progress(st, [])
      else
        var choice := data.choices[0];
        var boot := if st.isFirstChunk then Bootstrap(messageId) else [];
        var started := st.(isFirstChunk := false);
        (match choice.delta
         case None => Progress(started, Written(st, boot))
         case Some(delta) =>
           var text := if Truthy(delta.content) then [ContentBlockDelta(0, delta.content.value)] else [];
           var buffered := if Truthy(delta.content) then started.(buffer := started.buffer + delta.content.value) else started;
           if Truthy(choice.finishReason) then
             Progress(buffered.(ended := true), Written(st, boot + text + Closing(data.usage)))
           else
             Progress(buffered, Written(st, boot + text)))
    case _ => Progress(st, [])
  }

  /**
    What a step does with a record: the bootstrap if it is the first, a delta for its
    text, the closing events if it finishes, all only while the output is open; the
    buffer grows by the text whether or not the output is open.
   */
  function Effect(st: ClaudeState, r: Record, messageId: string): Progress {
    Progress(ClaudeState(false, st.buffer + Concat(TextOf(r)), st.ended || Finishes(r)),
             Written(st, (if st.isFirstChunk then Bootstrap(messageId) else [])
                         + DeltaEvents(TextOf(r)) + (if Finishes(r) then Closing(r.usage) else [])))
  }

  /** A step does nothing with a line without a record, and `Effect` with one that has a record. */
  lemma StepRecord(st: ClaudeState, line: Line, messageId: string)
    ensures RecordOf(line).None? ==> Step(st, line, messageId) == Progress(st, [])
    ensures RecordOf(line).Some? ==> Step(st, line, messageId) == Effect(st, RecordOf(line).value, messageId)
  {
    if RecordOf(line).Some? {
      var r := RecordOf(line).value;
      var ts := TextOf(r);
      if |ts| == 1 {
        assert Concat(ts) == ts[0] + Concat([]);
        assert DeltaEvents(ts) == [ContentBlockDelta(0, ts[0])];
      } else {
        assert DeltaEvents(ts) == [];
      }
    }
  }

  /** The transcoder over a sequence of lines: the states thread through, the events concatenate. */
  function Run(st: ClaudeState, lines: seq<Line>, messageId: string): Progress
    decreases |lines|
  {
    if |lines| == 0 then Progress(st, [])
    else
      var p := Step(st, lines[0], messageId);
      var q := Run(p.state, lines[1..], messageId);
      Progress(q.state, p.events + q.events)
  }

  /** `Run` over a first line with a record, through `Effect`. */
  lemma RunRecord(st: ClaudeState, lines: seq<Line>, messageId: string)
    requires |lines| > 0 && RecordOf(lines[0]).Some?
    ensures var e := Effect(st, RecordOf(lines[0]).value, messageId);
      Run(st, lines, messageId) == Progress(Run(e.state, lines[1..], messageId).state, e.events + Run(e.state, lines[1..], messageId).events)
    ensures Records(lines) == [RecordOf(lines[0]).value] + Records(lines[1..])
  {
    StepRecord(st, lines[0], messageId);
  }

  /** `Run` over a first line without a record. */
  lemma RunSkip(st: ClaudeState, lines: seq<Line>, messageId: string)
    requires |lines| > 0 && RecordOf(lines[0]).None?
    ensures Run(st, lines, messageId) == Run(st, lines[1..], messageId)
    ensures Records(lines) == Records(lines[1..])
  {
    StepRecord(st, lines[0], messageId);
  }

  /** Everything after the bootstrap: a delta per text up to the first finishing record, then the closing events if there is one. */
  function Tail(rs: seq<Record>): seq<ClaudeEvent> {
    var u := UntilFinish(rs);
    DeltaEvents(Texts(u)) + (if |u| > 0 && Finishes(u[|u| - 1]) then Closing(u[|u| - 1].usage) else [])
  }

  /**
    Reference definition of the Claude stream: nothing without a record; otherwise the
    bootstrap, the texts up to the first finishing record, and the closing events when
    a record finishes.
   */
  function ClaudeExpected(rs: seq<Record>, messageId: string): seq<ClaudeEvent> {
    if |rs| == 0 then [] else Bootstrap(messageId) + Tail(rs)
  }

  lemma AppendAssoc(a: seq<ClaudeEvent>, b: seq<ClaudeEvent>, c: seq<ClaudeEvent>)
    ensures a + b + c == a + (b + c)
  {
  }

  /** How `Tail` unfolds over its first record. */
  lemma TailCons(r: Record, rs: seq<Record>)
    ensures Tail([r] + rs) == DeltaEvents(TextOf(r)) + (if Finishes(r) then Closing(r.usage) else Tail(rs))
  {
    if Finishes(r) {
      TailConsStop(r, rs);
    } else {
      TailConsGo(r, rs);
    }
  }

  lemma TailConsStop(r: Record, rs: seq<Record>)
    requires Finishes(r)
    ensures Tail([r] + rs) == DeltaEvents(TextOf(r)) + Closing(r.usage)
  {
    var all := [r] + rs;
    assert all[0] == r;
    var u := UntilFinish(all);
    assert u == [r];
    assert Texts(u) == TextOf(r) + Texts([]);
  }

  lemma TailConsGo(r: Record, rs: seq<Record>)
    requires !Finishes(r)
    ensures Tail([r] + rs) == DeltaEvents(TextOf(r)) + Tail(rs)
  {
    var all := [r] + rs;
    assert all[0] == r && all[1..] == rs;
    var u := UntilFinish(all);
    var v := UntilFinish(rs);
    assert u == [r] + v;
    assert Texts(u) == TextOf(r) + Texts(v) by { assert u[0] == r && u[1..] == v; }
    DeltaEventsAppend(TextOf(r), Texts(v));
    var close := if |v| > 0 && Finishes(v[|v| - 1]) then Closing(v[|v| - 1].usage) else [];
    if |v| > 0 {
      assert u[|u| - 1] == v[|v| - 1];
    }
    assert Tail(all) == DeltaEvents(Texts(u)) + close;
    assert Tail(rs) == DeltaEvents(Texts(v)) + close;
    AppendAssoc(DeltaEvents(TextOf(r)), DeltaEvents(Texts(v)), close);
  }

  /** After the output has ended, the transcoder writes nothing more and stays ended. */
  lemma {:induction false} RunAfterEnd(st: ClaudeState, lines: seq<Line>, messageId: string)
    requires st.ended
    ensures Run(st, lines, messageId).events == []
    ensures Run(st, lines, messageId).state.ended
    decreases |lines|
  {
    if |lines| > 0 {
      RunAfterEnd(Step(st, lines[0], messageId).state, lines[1..], messageId);
    }
  }

  /**
    The fold agrees with the reference definition from any state whose output is still
    open: from a fresh state it writes `ClaudeExpected`, from a bootstrapped one `Tail`.
   */
  lemma {:induction false} RunMatches(st: ClaudeState, lines: seq<Line>, messageId: string)
    requires !st.ended
    ensures Run(st, lines, messageId).events
         == (if st.isFirstChunk then ClaudeExpected(Records(lines), messageId) else Tail(Records(lines)))
    decreases |lines|
  {
    if |lines| == 0 {
      assert UntilFinish([]) == [];
    } else if RecordOf(lines[0]).None? {
      RunSkip(st, lines, messageId);
      RunMatches(st, lines[1..], messageId);
    } else {
      var rest := lines[1..];
      var r := RecordOf(lines[0]).value;
      var e := Effect(st, r, messageId);
      var boot := if st.isFirstChunk then Bootstrap(messageId) else [];
      RunRecord(st, lines, messageId);
      TailCons(r, Records(rest));
      var tail := Tail(Records(lines));
      assert Records(lines) != [];
      assert Run(st, lines, messageId).events == e.events + Run(e.state, rest, messageId).events;
      if Finishes(r) {
        RunAfterEnd(e.state, rest, messageId);
        assert e.events == boot + DeltaEvents(TextOf(r)) + Closing(r.usage);
        assert tail == DeltaEvents(TextOf(r)) + Closing(r.usage);
        AppendAssoc(boot, DeltaEvents(TextOf(r)), Closing(r.usage));
        assert Run(st, lines, messageId).events == boot + tail;
      } else {
        RunMatches(e.state, rest, messageId);
        assert e.events == boot + DeltaEvents(TextOf(r)) + [];
        if Records(rest) == [] {
          assert UntilFinish(Records(rest)) == [];
        }
        assert Run(e.state, rest, messageId).events == Tail(Records(rest));
        assert tail == DeltaEvents(TextOf(r)) + Tail(Records(rest));
        assert boot + DeltaEvents(TextOf(r)) + [] == boot + DeltaEvents(TextOf(r));
        AppendAssoc(boot, DeltaEvents(TextOf(r)), Tail(Records(rest)));
        assert Run(st, lines, messageId).events == boot + tail;
      }
    }
  }

  /** The transcoder's output for a whole upstream stream. */
  function ClaudeEvents(lines: seq<Line>, messageId: string): (es: seq<ClaudeEvent>)
    ensures es == ClaudeExpected(Records(lines), messageId)
  {
    RunMatches(Fresh, lines, messageId);
    Run(Fresh, lines, messageId).events
  }

  /** The output ends exactly when some record finishes. */
  lemma {:induction false} RunEnds(st: ClaudeState, lines: seq<Line>, messageId: string)
    requires !st.ended
    ensures Run(st, lines, messageId).state.ended <==> Finished(Records(lines))
    decreases |lines|
  {
    if |lines| == 0 {
    } else if RecordOf(lines[0]).None? {
      RunSkip(st, lines, messageId);
      RunEnds(st, lines[1..], messageId);
    } else {
      var rest := lines[1..];
      var r := RecordOf(lines[0]).value;
      var e := Effect(st, r, messageId);
      RunRecord(st, lines, messageId);
      FinishedCons(r, Records(rest));
      if Finishes(r) {
        RunAfterEnd(e.state, rest, messageId);
      } else {
        RunEnds(e.state, rest, messageId);
      }
    }
  }

  /**
    `contentBuffer` collects every text read, in order, including texts read after the
    output has ended.
   */
  lemma {:induction false} RunBuffer(st: ClaudeState, lines: seq<Line>, messageId: string)
    ensures Run(st, lines, messageId).state.buffer == st.buffer + Concat(Texts(Records(lines)))
    decreases |lines|
  {
    if |lines| == 0 {
    } else if RecordOf(lines[0]).None? {
      RunSkip(st, lines, messageId);
      RunBuffer(st, lines[1..], messageId);
    } else {
      var rest := lines[1..];
      var r := RecordOf(lines[0]).value;
      var e := Effect(st, r, messageId);
      RunRecord(st, lines, messageId);
      assert Run(st, lines, messageId).state == Run(e.state, rest, messageId).state;
      assert e.state.buffer == st.buffer + Concat(TextOf(r));
      RunBuffer(e.state, rest, messageId);
      TextsCons(r, Records(rest));
      ConcatAppend(TextOf(r), Texts(Records(rest)));
      var c1, c2 := Concat(TextOf(r)), Concat(Texts(Records(rest)));
      assert st.buffer + c1 + c2 == st.buffer + (c1 + c2);
    }
  }

  /**
    While the output is open, the buffer holds exactly what the delta events carried:
    with no finishing record the client received a delta for every text read.
   */
  lemma OpenStreamBuffer(lines: seq<Line>, messageId: string)
    requires !Run(Fresh, lines, messageId).state.ended
    ensures Run(Fresh, lines, messageId).state.buffer == Concat(Texts(Records(lines)))
    ensures |Records(lines)| > 0 ==> ClaudeEvents(lines, messageId) == Bootstrap(messageId) + DeltaEvents(Texts(Records(lines)))
  {
    RunBuffer(Fresh, lines, messageId);
    RunEnds(Fresh, lines, messageId);
    UntilFinishEnds(Records(lines));
  }

  /**
    The event grammar: a message that starts opens one text block first, and every
    delta after it adds a non-empty text to block 0.
   */
  lemma ClaudeGrammar(lines: seq<Line>, messageId: string)
    ensures var es := ClaudeEvents(lines, messageId);
            |es| > 0 <==> |Records(lines)| > 0
    ensures var es := ClaudeEvents(lines, messageId);
            |es| > 0 ==> es[0].MessageStart? && es[1] == ContentBlockStart(0, "")
    ensures var es := ClaudeEvents(lines, messageId);
            forall j :: 2 <= j < |es| && es[j].ContentBlockDelta? ==> es[j].index == 0 && es[j].text != ""
  {
    var rs := Records(lines);
    var es := ClaudeEvents(lines, messageId);
    if |rs| > 0 {
      var ds := DeltaEvents(Texts(UntilFinish(rs)));
      var tail := Tail(rs);
      assert es == Bootstrap(messageId) + tail;
      forall j | 2 <= j < |es| && es[j].ContentBlockDelta?
        ensures es[j].index == 0 && es[j].text != ""
      {
        assert es[j] == tail[j - 2];
        if j - 2 < |ds| {
          assert tail[j - 2] == ds[j - 2];
        }
      }
    }
  }

  /** `message_stop` is written, as the last event, exactly when some record finishes. */
  lemma ClaudeStops(lines: seq<Line>, messageId: string)
    ensures var es := ClaudeEvents(lines, messageId);
            (|es| > 0 && es[|es| - 1] == MessageStop) <==> Finished(Records(lines))
  {
    var rs := Records(lines);
    if Finished(rs) {
      StopsWhenFinished(rs, messageId);
    } else if |rs| > 0 {
      OpenWhenUnfinished(rs, messageId);
    }
  }

  lemma StopsWhenFinished(rs: seq<Record>, messageId: string)
    requires Finished(rs)
    ensures var es := ClaudeExpected(rs, messageId);
            |es| > 0 && es[|es| - 1] == MessageStop
  {
    UntilFinishEnds(rs);
    var u := UntilFinish(rs);
    var close := Closing(u[|u| - 1].usage);
    var es := ClaudeExpected(rs, messageId);
    assert Tail(rs) == DeltaEvents(Texts(u)) + close;
    assert es[|es| - 1] == close[2];
  }

  lemma OpenWhenUnfinished(rs: seq<Record>, messageId: string)
    requires !Finished(rs) && |rs| > 0
    ensures var es := ClaudeExpected(rs, messageId);
            |es| > 0 && es[|es| - 1] != MessageStop
  {
    UntilFinishEnds(rs);
    var ds := DeltaEvents(Texts(rs));
    var es := ClaudeExpected(rs, messageId);
    assert Tail(rs) == ds + [];
    assert es == Bootstrap(messageId) + ds;
    if |ds| > 0 {
      assert es[|es| - 1] == ds[|ds| - 1];
    }
  }
}
