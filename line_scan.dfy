/**
  The single-line directive scan shared by the read-file and package-install
  directives: the reply is split into lines, and every line that contains the
  marker anywhere yields one task whose only argument is the trimmed text a
  fixed offset past the marker's first occurrence.
 */
module LineScan {
  import opened JsStrings
  import opened Tasks

  /** The argument taken from `line`: the trimmed text `offset` characters past the first `marker`. */
  function ArgAfter(line: string, marker: string, offset: nat): string {
    Trim(Substring(line, IndexOf(line, marker) + offset))
  }

  /** The tasks one line yields. */
  function LineTasks(line: string, marker: string, offset: nat): seq<Task> {
    if Contains(line, marker) then [Task(marker, [ArgAfter(line, marker, offset)])] else []
  }

  /** The tasks the scan has pushed once it has seen `lines`. */
  function Scanned(lines: seq<string>, marker: string, offset: nat): (r: seq<Task>)
    ensures |r| <= |lines|
    ensures forall k :: 0 <= k < |r| ==> r[k].kind == marker && |r[k].args| == 1
    decreases |lines|
  {
    if lines == [] then []
    else Scanned(lines[..|lines| - 1], marker, offset) + LineTasks(lines[|lines| - 1], marker, offset)
  }

  /** The lines that contain the marker, in order: the reference the scan is measured against. */
  function MarkedLines(lines: seq<string>, marker: string): seq<string>
    decreases |lines|
  {
    if lines == [] then []
    else MarkedLines(lines[..|lines| - 1], marker)
         + (if Contains(lines[|lines| - 1], marker) then [lines[|lines| - 1]] else [])
  }

  /** The extraction loop: one pass over the lines, pushing a task for each marked line. */
  method ScanMarkedLines(text: string, marker: string, offset: nat) returns (out: seq<Task>)
    ensures out == Scanned(SplitLines(text), marker, offset)
  {
    var lines := SplitLines(text);
    out := [];
    for i := 0 to |lines|
      invariant out == Scanned(lines[..i], marker, offset)
    {
      ScannedStep(lines, i, marker, offset);
      var line := lines[i];
      if Contains(line, marker) {
        var name := ArgAfter(line, marker, offset);
        out := out + [Task(marker, [name])];
      }
    }
    assert lines[..|lines|] == lines;
  }

  lemma ScannedStep(lines: seq<string>, i: nat, marker: string, offset: nat)
    requires i < |lines|
    ensures Scanned(lines[..i + 1], marker, offset)
         == Scanned(lines[..i], marker, offset) + LineTasks(lines[i], marker, offset)
  {
    assert lines[..i + 1][..i] == lines[..i];
  }

  /** The scan of a concatenation is the concatenation of the scans. */
  lemma {:induction false} ScannedAppend(a: seq<string>, b: seq<string>, marker: string, offset: nat)
    ensures Scanned(a + b, marker, offset) == Scanned(a, marker, offset) + Scanned(b, marker, offset)
    decreases |b|
  {
    if b != [] {
      var last := b[|b| - 1];
      assert (a + b)[..|a + b| - 1] == a + b[..|b| - 1];
      ScannedAppend(a, b[..|b| - 1], marker, offset);
    } else {
      assert a + b == a;
    }
  }

  /**
    Every marked line yields exactly one task, in line order: the k-th task
    carries the argument taken from the k-th line that contains the marker.
   */
  lemma {:induction false} ScannedIsMarkedLines(lines: seq<string>, marker: string, offset: nat)
    ensures |Scanned(lines, marker, offset)| == |MarkedLines(lines, marker)|
    ensures forall k :: 0 <= k < |MarkedLines(lines, marker)| ==>
      Scanned(lines, marker, offset)[k] == Task(marker, [ArgAfter(MarkedLines(lines, marker)[k], marker, offset)])
    decreases |lines|
  {
    if lines != [] {
      ScannedIsMarkedLines(lines[..|lines| - 1], marker, offset);
    }
  }

  /** A text with no marked line yields no task. */
  lemma {:induction false} NoMarkerNoTasks(lines: seq<string>, marker: string, offset: nat)
    requires forall k :: 0 <= k < |lines| ==> !Contains(lines[k], marker)
    ensures Scanned(lines, marker, offset) == []
    decreases |lines|
  {
    if lines != [] {
      NoMarkerNoTasks(lines[..|lines| - 1], marker, offset);
    }
  }

  /**
    On a line that begins with the marker, the argument is the text after the
    marker with `skip` more characters dropped, trimmed; it is empty when the
    marker (and the skipped characters) end the line. Whatever follows the
    first marker, a second marker included, stays in the argument.
   */
  lemma ArgAfterLeadingMarker(marker: string, rest: string, skip: nat)
    ensures ArgAfter(marker + rest, marker, |marker| + skip) == Trim(Substring(rest, skip))
  {
    var line := marker + rest;
    LeadingOccurrence(marker, rest);
    if skip <= |rest| {
      assert line[|marker| + skip..] == rest[skip..];
    }
    assert Substring(line, IndexOf(line, marker) + |marker| + skip) == Substring(rest, skip);
  }

  /** A marker followed by one space and a trimmed argument gives that argument back. */
  lemma ArgAfterSpacedMarker(marker: string, arg: string)
    requires IsTrimmed(arg)
    ensures ArgAfter(marker + " " + arg, marker, |marker|) == arg
  {
    var rest := " " + arg;
    calc {
      ArgAfter(marker + " " + arg, marker, |marker|);
      { assert marker + " " + arg == marker + rest; }
      ArgAfter(marker + rest, marker, |marker| + 0);
      { ArgAfterLeadingMarker(marker, rest, 0); }
      Trim(Substring(rest, 0));
      { assert rest == [' '] + arg + []; }
      Trim([' '] + arg + []);
      { TrimPadded([' '], arg, []); }
      arg;
    }
  }

  /** One directive line per argument: the marker, a space, the argument. */
  function SpacedLines(marker: string, args: seq<string>): seq<string> {
    seq(|args|, k requires 0 <= k < |args| => marker + " " + args[k])
  }

  /** The tasks those lines stand for, one per argument, in order. */
  function TasksFor(marker: string, args: seq<string>): seq<Task> {
    seq(|args|, k requires 0 <= k < |args| => Task(marker, [args[k]]))
  }

  lemma SpacedLineTask(marker: string, arg: string)
    requires IsTrimmed(arg)
    ensures LineTasks(marker + " " + arg, marker, |marker|) == [Task(marker, [arg])]
  {
    assert marker + " " + arg == marker + (" " + arg);
    LeadingOccurrence(marker, " " + arg);
    ArgAfterSpacedMarker(marker, arg);
  }

  /** Lines that each yield one given task scan to those tasks, in order. */
  lemma {:induction false} ScannedEach(lines: seq<string>, marker: string, offset: nat, args: seq<string>)
    requires |lines| == |args|
    requires forall k :: 0 <= k < |lines| ==> LineTasks(lines[k], marker, offset) == [Task(marker, [args[k]])]
    ensures Scanned(lines, marker, offset) == TasksFor(marker, args)
    decreases |lines|
  {
    if lines != [] {
      var n := |lines|;
      var front, init := lines[..n - 1], args[..n - 1];
      forall k | 0 <= k < |front| ensures LineTasks(front[k], marker, offset) == [Task(marker, [init[k]])] {
        assert front[k] == lines[k] && init[k] == args[k];
      }
      ScannedEach(front, marker, offset, init);
      ScannedStep(lines, n - 1, marker, offset);
      assert lines[..n] == lines;
      TasksForSnoc(marker, args);
    }
  }

  lemma TasksForSnoc(marker: string, args: seq<string>)
    requires args != []
    ensures TasksFor(marker, args) == TasksFor(marker, args[..|args| - 1]) + [Task(marker, [args[|args| - 1]])]
  {
    var n := |args|;
    var lhs, rhs := TasksFor(marker, args), TasksFor(marker, args[..n - 1]) + [Task(marker, [args[n - 1]])];
    assert |lhs| == |rhs|;
    forall k | 0 <= k < n ensures lhs[k] == rhs[k] {
      if k < n - 1 {
        assert args[..n - 1][k] == args[k];
      }
    }
  }

  lemma {:induction false} SpacedLinesScanned(marker: string, args: seq<string>)
    requires forall k :: 0 <= k < |args| ==> IsTrimmed(args[k])
    ensures Scanned(SpacedLines(marker, args), marker, |marker|) == TasksFor(marker, args)
  {
    var lines := SpacedLines(marker, args);
    forall k | 0 <= k < |lines| ensures LineTasks(lines[k], marker, |marker|) == [Task(marker, [args[k]])] {
      SpacedLineTask(marker, args[k]);
    }
    ScannedEach(lines, marker, |marker|, args);
  }

  /**
    A reply written as the instruction asks, one directive line per argument,
    yields one task per argument, in order, carrying that argument.
   */
  lemma {:induction false} DirectiveLinesRoundTrip(marker: string, args: seq<string>)
    requires '\n' !in marker && |args| >= 1
    requires forall k :: 0 <= k < |args| ==> IsTrimmed(args[k]) && '\n' !in args[k]
    ensures Scanned(SplitLines(JoinLines(SpacedLines(marker, args))), marker, |marker|) == TasksFor(marker, args)
  {
    var lines := SpacedLines(marker, args);
    forall k | 0 <= k < |lines| ensures '\n' !in lines[k] {
      assert lines[k] == marker + (" " + args[k]);
    }
    SplitJoin(lines, '\n');
    SpacedLinesScanned(marker, args);
  }
}
