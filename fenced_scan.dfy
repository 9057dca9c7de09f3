/**
  The file-update directive scan: a three-state line scanner (idle, armed,
  collecting) over the agent's reply. A line that starts with the marker arms
  the scanner and sets the path; the first line after it that starts with a
  fence switches to collecting; every following line is appended to the body
  with a newline until the next fence line, which emits one block and resets
  the scanner. A block that is never closed emits nothing.
 */
module FencedScan {
  import opened JsStrings
  import opened Tasks
  import LineScan

  const Fence := "```"

  /** How the path is read off the marker line. */
  datatype PathRule =
    | AfterMarker  // the trimmed text after the marker's first occurrence
    | ColonField   // the trimmed text between the first and second ':'

  /** The scanner's four variables: armed, the path, collecting, and the body so far. */
  datatype ScanState = ScanState(isInTask: bool, path: string, inCode: bool, code: string)

  const Idle := ScanState(false, "", false, "")

  /** A closed block: the path from its marker line and its body. */
  datatype Block = Block(path: string, body: string)

  function PathOf(rule: PathRule, marker: string, line: string): string {
    match rule
    case AfterMarker => LineScan.ArgAfter(line, marker, |marker|)
    case ColonField => var fields := Split(line, ':'); if |fields| > 1 then Trim(fields[1]) else ""
  }

  /** One iteration of the scan: the next state and the blocks emitted on `line`. */
  function Step(rule: PathRule, marker: string, st: ScanState, line: string): (ScanState, seq<Block>) {
    if StartsWith(line, marker) then
      (st.(isInTask := true, path := PathOf(rule, marker, line)), [])
    else if !st.isInTask then
      (st, [])
    else if st.inCode then
      if StartsWith(line, Fence) then (Idle, [Block(st.path, st.code)])
      else (st.(code := st.code + line + "\n"), [])
    else if StartsWith(line, Fence) then
      (st.(inCode := true), [])
    else
      (st, [])
  }

  /** The blocks the scan emits over `lines`, starting in state `st`. */
  function Scan(rule: PathRule, marker: string, lines: seq<string>, st: ScanState): seq<Block>
    decreases |lines|
  {
    if lines == [] then []
    else
      var next := Step(rule, marker, st, lines[0]);
      next.1 + Scan(rule, marker, lines[1..], next.0)
  }

  /** The blocks as tasks tagged with the marker. */
  function AsTasks(marker: string, blocks: seq<Block>): (r: seq<Task>)
    ensures |r| == |blocks|
    decreases |blocks|
  {
    if blocks == [] then [] else [Task(marker, [blocks[0].path, blocks[0].body])] + AsTasks(marker, blocks[1..])
  }

  lemma {:induction false} AsTasksAppend(marker: string, a: seq<Block>, b: seq<Block>)
    ensures AsTasks(marker, a + b) == AsTasks(marker, a) + AsTasks(marker, b)
    decreases |a|
  {
    if a == [] {
      assert a + b == b;
    } else {
      assert (a + b)[1..] == a[1..] + b;
      AsTasksAppend(marker, a[1..], b);
    }
  }

  /** The k-th task carries the k-th block's path and body. */
  lemma {:induction false} AsTasksShape(marker: string, blocks: seq<Block>)
    ensures forall k :: 0 <= k < |blocks| ==>
      AsTasks(marker, blocks)[k] == Task(marker, [blocks[k].path, blocks[k].body])
    decreases |blocks|
  {
    if blocks != [] {
      AsTasksShape(marker, blocks[1..]);
    }
  }

  /** Each line terminated by a newline, concatenated: the body collected from `lines`. */
  function Terminated(lines: seq<string>): string
    decreases |lines|
  {
    if lines == [] then "" else lines[0] + "\n" + Terminated(lines[1..])
  }

  /** The number of lines that start with a fence. */
  function FenceCount(lines: seq<string>): nat
    decreases |lines|
  {
    if lines == [] then 0 else (if StartsWith(lines[0], Fence) then 1 else 0) + FenceCount(lines[1..])
  }

  /** Neither a marker line nor a fence line. */
  predicate Plain(marker: string, line: string) {
    !StartsWith(line, marker) && !StartsWith(line, Fence)
  }

  /** The extraction loop over the reply's lines, with the path read after the marker. */
  method ExtractBlocks(text: string, marker: string) returns (out: seq<Task>)
    ensures out == AsTasks(marker, Scan(AfterMarker, marker, SplitLines(text), Idle))
  {
    var lines := SplitLines(text);
    var isInTask, path, inCode, code := false, "", false, "";
    out := [];
    assert lines[0..] == lines;
    for i := 0 to |lines|
      invariant out + AsTasks(marker, Scan(AfterMarker, marker, lines[i..], ScanState(isInTask, path, inCode, code)))
             == AsTasks(marker, Scan(AfterMarker, marker, lines, Idle))
    {
      ghost var before := out;
      ghost var st := ScanState(isInTask, path, inCode, code);
      ghost var next := Step(AfterMarker, marker, st, lines[i]);
      ScanUnfold(AfterMarker, marker, lines, i, st);
      AppendStep(marker, before, next.1, Scan(AfterMarker, marker, lines[i + 1..], next.0));
      var line := lines[i];
      if StartsWith(line, marker) {
        isInTask := true;
        path := PathOf(AfterMarker, marker, line);
      } else if isInTask {
        if inCode {
          if StartsWith(line, Fence) {
            out := out + [Task(marker, [path, code])];
            code := "";
            inCode := false;
            isInTask := false;
            path := "";
          } else {
            code := code + line + "\n";
          }
        } else {
          if StartsWith(line, Fence) {
            inCode := true;
          }
        }
      }
      assert ScanState(isInTask, path, inCode, code) == next.0;
      assert out == before + AsTasks(marker, next.1);
    }
  }

  lemma AppendStep(marker: string, before: seq<Task>, emitted: seq<Block>, tail: seq<Block>)
    ensures (before + AsTasks(marker, emitted)) + AsTasks(marker, tail) == before + AsTasks(marker, emitted + tail)
  {
    AsTasksAppend(marker, emitted, tail);
  }

  lemma ScanUnfold(rule: PathRule, marker: string, lines: seq<string>, i: nat, st: ScanState)
    requires i < |lines|
    ensures Scan(rule, marker, lines[i..], st)
         == Step(rule, marker, st, lines[i]).1 + Scan(rule, marker, lines[i + 1..], Step(rule, marker, st, lines[i]).0)
  {
    assert lines[i..][1..] == lines[i + 1..];
  }

  /** Only lines that start with the marker arm the scanner: without one, nothing is emitted. */
  lemma {:induction false} NoMarkerLineNoBlocks(rule: PathRule, marker: string, lines: seq<string>)
    requires forall k :: 0 <= k < |lines| ==> !StartsWith(lines[k], marker)
    ensures Scan(rule, marker, lines, Idle) == []
    decreases |lines|
  {
    if lines != [] {
      NoMarkerLineNoBlocks(rule, marker, lines[1..]);
    }
  }

  /** Without a fence line nothing is ever emitted, whatever the state. */
  lemma {:induction false} NoFenceNoBlocks(rule: PathRule, marker: string, lines: seq<string>, st: ScanState)
    requires forall k :: 0 <= k < |lines| ==> !StartsWith(lines[k], Fence)
    ensures Scan(rule, marker, lines, st) == []
    decreases |lines|
  {
    if lines != [] {
      NoFenceNoBlocks(rule, marker, lines[1..], Step(rule, marker, st, lines[0]).0);
    }
  }

  /** Every block uses an opening and a closing fence line. */
  lemma {:induction false} BlocksNeedTwoFences(rule: PathRule, marker: string, lines: seq<string>, st: ScanState)
    ensures 2 * |Scan(rule, marker, lines, st)| <= FenceCount(lines) + (if st.inCode then 1 else 0)
    decreases |lines|
  {
    if lines != [] {
      BlocksNeedTwoFences(rule, marker, lines[1..], Step(rule, marker, st, lines[0]).0);
    }
  }

  /** While collecting, plain lines are appended to the body, each with a newline. */
  lemma {:induction false} CollectBody(rule: PathRule, marker: string, body: seq<string>, rest: seq<string>, st: ScanState)
    requires st.isInTask && st.inCode
    requires forall k :: 0 <= k < |body| ==> Plain(marker, body[k])
    ensures Scan(rule, marker, body + rest, st) == Scan(rule, marker, rest, st.(code := st.code + Terminated(body)))
    decreases |body|
  {
    if body == [] {
      assert body + rest == rest;
      assert st.code + Terminated(body) == st.code;
    } else {
      var st' := st.(code := st.code + body[0] + "\n");
      var tail := body[1..];
      assert Plain(marker, body[0]);
      assert Step(rule, marker, st, body[0]) == (st', []);
      forall k | 0 <= k < |tail| ensures Plain(marker, tail[k]) {
        assert tail[k] == body[k + 1];
      }
      calc {
        Scan(rule, marker, body + rest, st);
        { assert body + rest == [body[0]] + (tail + rest); }
        Scan(rule, marker, [body[0]] + (tail + rest), st);
        { ScanCons(rule, marker, body[0], tail + rest, st); }
        Scan(rule, marker, tail + rest, st');
        { CollectBody(rule, marker, tail, rest, st'); }
        Scan(rule, marker, rest, st'.(code := st'.code + Terminated(tail)));
        { assert st'.code + Terminated(tail) == st.code + Terminated(body); }
        Scan(rule, marker, rest, st.(code := st.code + Terminated(body)));
      }
    }
  }

  /** While armed and not collecting, plain lines are skipped. */
  lemma {:induction false} SkipGap(rule: PathRule, marker: string, gap: seq<string>, rest: seq<string>, st: ScanState)
    requires st.isInTask && !st.inCode
    requires forall k :: 0 <= k < |gap| ==> Plain(marker, gap[k])
    ensures Scan(rule, marker, gap + rest, st) == Scan(rule, marker, rest, st)
    decreases |gap|
  {
    if gap == [] {
      assert gap + rest == rest;
    } else {
      assert gap + rest == [gap[0]] + (gap[1..] + rest);
      ScanCons(rule, marker, gap[0], gap[1..] + rest, st);
      assert Step(rule, marker, st, gap[0]) == (st, []);
      SkipGap(rule, marker, gap[1..], rest, st);
    }
  }

  /**
    A marker line, plain lines, an opening fence, plain body lines and a
    closing fence emit exactly one block: the marker line's path and the body
    lines each terminated by a newline. The scan then starts afresh.
   */
  lemma {:induction false} BlockRecovered(rule: PathRule, marker: string, markerLine: string, gap: seq<string>,
                                          opening: string, body: seq<string>, closing: string, rest: seq<string>)
    requires StartsWith(markerLine, marker)
    requires !StartsWith(opening, marker) && StartsWith(opening, Fence)
    requires !StartsWith(closing, marker) && StartsWith(closing, Fence)
    requires forall k :: 0 <= k < |gap| ==> Plain(marker, gap[k])
    requires forall k :: 0 <= k < |body| ==> Plain(marker, body[k])
    ensures Scan(rule, marker, [markerLine] + gap + [opening] + body + [closing] + rest, Idle)
         == [Block(PathOf(rule, marker, markerLine), Terminated(body))] + Scan(rule, marker, rest, Idle)
  {
    var armed := ScanState(true, PathOf(rule, marker, markerLine), false, "");
    var collecting := armed.(inCode := true);
    var filled := collecting.(code := "" + Terminated(body));
    var afterBody := [closing] + rest;
    var afterGap := [opening] + (body + afterBody);
    calc {
      Scan(rule, marker, [markerLine] + gap + [opening] + body + [closing] + rest, Idle);
      { assert [markerLine] + gap + [opening] + body + [closing] + rest == [markerLine] + (gap + afterGap); }
      Scan(rule, marker, [markerLine] + (gap + afterGap), Idle);
      { ScanCons(rule, marker, markerLine, gap + afterGap, Idle);
        assert Step(rule, marker, Idle, markerLine) == (armed, []); }
      Scan(rule, marker, gap + afterGap, armed);
      { SkipGap(rule, marker, gap, afterGap, armed); }
      Scan(rule, marker, [opening] + (body + afterBody), armed);
      { ScanCons(rule, marker, opening, body + afterBody, armed);
        assert Step(rule, marker, armed, opening) == (collecting, []); }
      Scan(rule, marker, body + afterBody, collecting);
      { CollectBody(rule, marker, body, afterBody, collecting); }
      Scan(rule, marker, [closing] + rest, filled);
      { ScanCons(rule, marker, closing, rest, filled);
        assert "" + Terminated(body) == Terminated(body);
        assert Step(rule, marker, filled, closing) == (Idle, [Block(PathOf(rule, marker, markerLine), Terminated(body))]); }
      [Block(PathOf(rule, marker, markerLine), Terminated(body))] + Scan(rule, marker, rest, Idle);
    }
  }

  /** One step of the scan over a line put in front. */
  lemma ScanCons(rule: PathRule, marker: string, line: string, rest: seq<string>, st: ScanState)
    ensures Scan(rule, marker, [line] + rest, st)
         == Step(rule, marker, st, line).1 + Scan(rule, marker, rest, Step(rule, marker, st, line).0)
  {
    assert ([line] + rest)[1..] == rest;
  }

  /**
    A marker line met while collecting re-arms the scanner with the new path
    but keeps the body collected so far and stays in collecting mode.
   */
  lemma {:induction false} RearmWhileCollecting(rule: PathRule, marker: string, first: string, opening: string,
                                                x: string, second: string, y: string, closing: string)
    requires StartsWith(first, marker) && StartsWith(second, marker)
    requires !StartsWith(opening, marker) && StartsWith(opening, Fence)
    requires !StartsWith(closing, marker) && StartsWith(closing, Fence)
    requires Plain(marker, x) && Plain(marker, y)
    ensures Scan(rule, marker, [first, opening, x, second, y, closing], Idle)
         == [Block(PathOf(rule, marker, second), x + "\n" + y + "\n")]
  {
    var p1, p2 := PathOf(rule, marker, first), PathOf(rule, marker, second);
    var s1 := ScanState(true, p1, false, "");
    var s2 := ScanState(true, p1, true, "");
    var s3 := ScanState(true, p1, true, x + "\n");
    var s4 := ScanState(true, p2, true, x + "\n");
    var s5 := ScanState(true, p2, true, x + "\n" + y + "\n");
    assert Step(rule, marker, Idle, first) == (s1, []);
    assert Step(rule, marker, s1, opening) == (s2, []);
    assert "" + x + "\n" == x + "\n";
    assert Step(rule, marker, s2, x) == (s3, []);
    assert Step(rule, marker, s3, second) == (s4, []);
    assert Step(rule, marker, s4, y) == (s5, []);
    assert Step(rule, marker, s5, closing) == (Idle, [Block(p2, x + "\n" + y + "\n")]);
    assert Scan(rule, marker, [closing], s5) == [Block(p2, x + "\n" + y + "\n")];
    assert [y, closing][1..] == [closing];
    assert Scan(rule, marker, [y, closing], s4) == Scan(rule, marker, [closing], s5);
    assert [second, y, closing][1..] == [y, closing];
    assert Scan(rule, marker, [second, y, closing], s3) == Scan(rule, marker, [y, closing], s4);
    assert [x, second, y, closing][1..] == [second, y, closing];
    assert Scan(rule, marker, [x, second, y, closing], s2) == Scan(rule, marker, [second, y, closing], s3);
    assert [opening, x, second, y, closing][1..] == [x, second, y, closing];
    assert Scan(rule, marker, [opening, x, second, y, closing], s1) == Scan(rule, marker, [x, second, y, closing], s2);
    assert [first, opening, x, second, y, closing][1..] == [opening, x, second, y, closing];
  }

  /**
    A reply made of a marker line, a fence line, the file's lines and a closing
    fence line gives back exactly one block: the marker line's path and the
    file, each line newline-terminated.
   */
  lemma {:induction false} DirectiveRoundTrip(rule: PathRule, marker: string, markerLine: string, fileLines: seq<string>)
    requires StartsWith(markerLine, marker) && '\n' !in markerLine && !StartsWith(Fence, marker)
    requires forall k :: 0 <= k < |fileLines| ==> '\n' !in fileLines[k] && Plain(marker, fileLines[k])
    ensures Scan(rule, marker, SplitLines(JoinLines([markerLine, Fence] + fileLines + [Fence])), Idle)
         == [Block(PathOf(rule, marker, markerLine), Terminated(fileLines))]
  {
    var lines := [markerLine, Fence] + fileLines + [Fence];
    forall k | 0 <= k < |lines| ensures '\n' !in lines[k] {
      if 2 <= k < 2 + |fileLines| {
        assert lines[k] == fileLines[k - 2];
      }
    }
    SplitJoin(lines, '\n');
    assert StartsWith(Fence, Fence);
    assert lines == [markerLine] + [] + [Fence] + fileLines + [Fence] + [];
    BlockRecovered(rule, marker, markerLine, [], Fence, fileLines, Fence, []);
  }

  /**
    A block whose closing fence never comes is dropped: a marker line and an
    opening fence followed by lines none of which starts with a fence emit nothing.
   */
  lemma {:induction false} UnclosedBlockDropped(rule: PathRule, marker: string, markerLine: string, gap: seq<string>, body: seq<string>)
    requires StartsWith(markerLine, marker) && !StartsWith(Fence, marker)
    requires forall k :: 0 <= k < |gap| ==> Plain(marker, gap[k])
    requires forall k :: 0 <= k < |body| ==> !StartsWith(body[k], Fence)
    ensures Scan(rule, marker, [markerLine] + gap + [Fence] + body, Idle) == []
  {
    var armed := ScanState(true, PathOf(rule, marker, markerLine), false, "");
    var collecting := armed.(inCode := true);
    var lines := [markerLine] + gap + [Fence] + body;
    assert Step(rule, marker, Idle, markerLine) == (armed, []);
    assert lines[1..] == gap + ([Fence] + body);
    assert Scan(rule, marker, lines, Idle) == Scan(rule, marker, gap + ([Fence] + body), armed);
    SkipGap(rule, marker, gap, [Fence] + body, armed);
    assert StartsWith(Fence, Fence);
    assert Step(rule, marker, armed, Fence) == (collecting, []);
    assert ([Fence] + body)[1..] == body;
    assert Scan(rule, marker, [Fence] + body, armed) == Scan(rule, marker, body, collecting);
    NoFenceNoBlocks(rule, marker, body, collecting);
  }
}
