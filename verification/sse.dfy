/**
  The upstream side of the two stream transcoders in `src/api/controllers/claude-adapter.ts`
  and `src/api/controllers/gemini-adapter.ts`: every `data` event is split on "\n", and
  each line is classified before the transcoder looks at it. A line carrying a chunk with
  a `choices[0]` is a record; the rest of the line kinds are skipped. `JSON.parse` is the
  parameter `parse`, and a line whose payload does not parse is `Data(None)`.
 */
module Sse {
  import opened Wrappers
  import opened Text
  import opened Protocol

  /** What a transcoder sees in one line. */
  datatype Line =
    | Blank                       // empty after `trim()`
    | DoneSentinel                // `data: [DONE]` after `trim()`
    | Data(chunk: Option<Chunk>)  // `data: ` followed by a payload, parsed or not
    | Other                       // any other line, ignored

  /** The tests at the head of the per-line loop, in their order. */
  function ClassifyLine(raw: string, parse: string -> Option<Chunk>): (l: Line)
    ensures l.Blank? <==> Trim(raw) == ""
    ensures l.DoneSentinel? <==> Trim(raw) == "data: [DONE]"
    ensures l.Data? <==> Trim(raw) != "" && Trim(raw) != "data: [DONE]" && StartsWith(raw, "data: ")
    ensures l.Data? ==> l.chunk == parse(raw[6..])
    ensures l.Other? <==> Trim(raw) != "" && Trim(raw) != "data: [DONE]" && !StartsWith(raw, "data: ")
  {
    var t := Trim(raw);
    if t == "" then Blank
    else if t == "data: [DONE]" then DoneSentinel
    else if StartsWith(raw, "data: ") then Data(parse(raw[6..]))
    else Other
  }

  function ClassifyAll(raws: seq<string>, parse: string -> Option<Chunk>): (ls: seq<Line>)
    ensures |ls| == |raws|
    ensures forall j :: 0 <= j < |raws| ==> ls[j] == ClassifyLine(raws[j], parse)
  {
    seq(|raws|, j requires 0 <= j < |raws| => ClassifyLine(raws[j], parse))
  }

  /** The lines of a sequence of `data` events: each event is split on "\n" by itself. */
  function LinesOf(events: seq<string>, parse: string -> Option<Chunk>): seq<Line> {
    if |events| == 0 then []
    else ClassifyAll(Split(events[0], '\n'), parse) + LinesOf(events[1..], parse)
  }

  /** `choices[0]` of a chunk, and the chunk's `usage`. */
  datatype Record = Record(choice: Choice, usage: Option<Usage>)

  /** The record a line carries: only a parsed chunk with a `choices[0]` has one. */
  function RecordOf(line: Line): (r: Option<Record>)
    ensures r.Some? <==> line.Data? && line.chunk.Some? && |line.chunk.value.choices| > 0
    ensures r.Some? ==> r.value == Record(line.chunk.value.choices[0], line.chunk.value.usage)
  {
    match line
    case Data(Some(c)) => if |c.choices| > 0 then Some(Record(c.choices[0], c.usage)) else None
    case _ => None
  }

  /** The records of `lines`, in order. */
  function Records(lines: seq<Line>): (rs: seq<Record>)
    ensures |rs| <= |lines|
  {
    if |lines| == 0 then []
    else (if RecordOf(lines[0]).Some? then [RecordOf(lines[0]).value] else []) + Records(lines[1..])
  }

  lemma {:induction false} RecordsAppend(a: seq<Line>, b: seq<Line>)
    ensures Records(a + b) == Records(a) + Records(b)
    decreases |a|
  {
    if a == [] {
      assert a + b == b;
    } else {
      assert (a + b)[0] == a[0];
      assert (a + b)[1..] == a[1..] + b;
      RecordsAppend(a[1..], b);
    }
  }

  /** Every line that carries a record contributes it, and every record comes from such a line. */
  lemma {:induction false} RecordsMembers(lines: seq<Line>)
    ensures forall j :: 0 <= j < |lines| && RecordOf(lines[j]).Some? ==> RecordOf(lines[j]).value in Records(lines)
    ensures forall r :: r in Records(lines) ==> exists j :: 0 <= j < |lines| && RecordOf(lines[j]) == Some(r)
    decreases |lines|
  {
    if |lines| > 0 {
      RecordsMembers(lines[1..]);
      assert forall j :: 0 < j < |lines| ==> lines[j] == lines[1..][j - 1];
      forall r | r in Records(lines)
        ensures exists j :: 0 <= j < |lines| && RecordOf(lines[j]) == Some(r)
      {
        if r in Records(lines[1..]) {
          var k :| 0 <= k < |lines[1..]| && RecordOf(lines[1..][k]) == Some(r);
          assert lines[k + 1] == lines[1..][k];
        } else {
          assert RecordOf(lines[0]) == Some(r);
        }
      }
    }
  }

  /**
    A record ends the transcoder's output when its `finish_reason` is truthy, provided it
    has a `delta`: reading `delta.content` of a missing `delta` throws first, and the
    finish branch is never reached.
   */
  predicate Finishes(r: Record) {
    r.choice.delta.Some? && Truthy(r.choice.finishReason)
  }

  /** The text a record adds to the output: its `delta.content`, when truthy. */
  function TextOf(r: Record): (ts: seq<string>)
    ensures |ts| <= 1
    ensures |ts| == 1 <==> r.choice.delta.Some? && Truthy(r.choice.delta.value.content)
    ensures forall j :: 0 <= j < |ts| ==> ts[j] != ""
  {
    if r.choice.delta.Some? && Truthy(r.choice.delta.value.content) then [r.choice.delta.value.content.value] else []
  }

  /** The texts of `rs`, in order. */
  function Texts(rs: seq<Record>): (ts: seq<string>)
    ensures |ts| <= |rs|
    ensures forall j :: 0 <= j < |ts| ==> ts[j] != ""
  {
    if |rs| == 0 then [] else TextOf(rs[0]) + Texts(rs[1..])
  }

  lemma {:induction false} TextsAppend(a: seq<Record>, b: seq<Record>)
    ensures Texts(a + b) == Texts(a) + Texts(b)
    decreases |a|
  {
    if a == [] {
      assert a + b == b;
    } else {
      assert (a + b)[0] == a[0];
      assert (a + b)[1..] == a[1..] + b;
      TextsAppend(a[1..], b);
    }
  }

  /** Some record of `rs` finishes. */
  predicate Finished(rs: seq<Record>) {
    exists i :: 0 <= i < |rs| && Finishes(rs[i])
  }

  /** Some record of `[r] + rs` finishes exactly when `r` or some record of `rs` does. */
  lemma FinishedCons(r: Record, rs: seq<Record>)
    ensures Finished([r] + rs) <==> Finishes(r) || Finished(rs)
  {
    var all := [r] + rs;
    if Finished(all) && !Finishes(r) {
      var i :| 0 <= i < |all| && Finishes(all[i]);
      assert i > 0 && all[i] == rs[i - 1];
    }
    if Finished(rs) {
      var i :| 0 <= i < |rs| && Finishes(rs[i]);
      assert all[i + 1] == rs[i];
    }
    if Finishes(r) {
      assert all[0] == r;
    }
  }

  /** The texts of `[r] + rs`: those of `r`, then those of `rs`. */
  lemma TextsCons(r: Record, rs: seq<Record>)
    ensures Texts([r] + rs) == TextOf(r) + Texts(rs)
  {
    var all := [r] + rs;
    assert all[0] == r && all[1..] == rs;
  }

  /** The records a transcoder acts on: all of them up to and including the first that finishes. */
  function UntilFinish(rs: seq<Record>): (u: seq<Record>)
    ensures |u| <= |rs| && u == rs[..|u|]
    ensures forall j :: 0 <= j < |u| - 1 ==> !Finishes(u[j])
  {
    if |rs| == 0 then []
    else if Finishes(rs[0]) then [rs[0]]
    else
      var rest := UntilFinish(rs[1..]);
      assert forall j :: 0 < j < |rest| + 1 ==> ([rs[0]] + rest)[j] == rest[j - 1];
      [rs[0]] + rest
  }

  /**
    `UntilFinish` ends with a finishing record exactly when some record finishes, and
    keeps every record otherwise.
   */
  lemma {:induction false} UntilFinishEnds(rs: seq<Record>)
    ensures var u := UntilFinish(rs); Finished(rs) <==> |u| > 0 && Finishes(u[|u| - 1])
    ensures !Finished(rs) ==> UntilFinish(rs) == rs
    ensures |UntilFinish(rs)| == 0 <==> |rs| == 0
    decreases |rs|
  {
    if |rs| > 0 && !Finishes(rs[0]) {
      UntilFinishEnds(rs[1..]);
      if Finished(rs) {
        var i :| 0 <= i < |rs| && Finishes(rs[i]);
        assert rs[1..][i - 1] == rs[i];
      }
      if Finished(rs[1..]) {
        var i :| 0 <= i < |rs[1..]| && Finishes(rs[1..][i]);
        assert rs[i + 1] == rs[1..][i];
      }
      assert rs == [rs[0]] + rs[1..];
    }
  }

  /** The concatenation of `ts`: what a transcoder's `contentBuffer` accumulates. */
  function Concat(ts: seq<string>): (s: string)
    ensures |ts| == 0 ==> s == ""
  {
    if |ts| == 0 then "" else ts[0] + Concat(ts[1..])
  }

  lemma {:induction false} ConcatAppend(a: seq<string>, b: seq<string>)
    ensures Concat(a + b) == Concat(a) + Concat(b)
    decreases |a|
  {
    if a == [] {
      assert a + b == b;
    } else {
      assert (a + b)[0] == a[0];
      assert (a + b)[1..] == a[1..] + b;
      ConcatAppend(a[1..], b);
    }
  }
}
