/** Line buffering of a project's log: tools/taskline/server/project_log.go. */
module ProjectLogs {
  import opened Common

  const NEWLINE: byte := 10

  /** An emitted line and the task whose name prefixes it. */
  datatype Line = Line(task: string, content: seq<byte>)

  // ---------------------------------------------------------------------
  // Splitting at newlines
  // ---------------------------------------------------------------------

  datatype Cut = Cut(lines: seq<seq<byte>>, rest: seq<byte>)

  /** The text that consists of the given lines, each ended by a newline, and a last partial line. */
  function Join(c: Cut): seq<byte>
    decreases |c.lines|
  {
    if c.lines == [] then c.rest else c.lines[0] + [NEWLINE] + Join(Cut(c.lines[1..], c.rest))
  }

  predicate NoNewline(c: Cut) {
    NEWLINE !in c.rest && forall i :: 0 <= i < |c.lines| ==> NEWLINE !in c.lines[i]
  }

  /** bytes.IndexByte(s, '\n') */
  function IndexNewline(s: seq<byte>): (i: int)
    ensures -1 <= i < |s|
    ensures i < 0 ==> NEWLINE !in s
    ensures i >= 0 ==> s[i] == NEWLINE && forall j :: 0 <= j < i ==> s[j] != NEWLINE
  {
    if s == [] then -1
    else if s[0] == NEWLINE then 0
    else
      var i := IndexNewline(s[1..]);
      if i < 0 then -1 else i + 1
  }

  /** The complete lines of `s` and what follows the last newline. */
  function Split(s: seq<byte>): (c: Cut)
    ensures NoNewline(c)
    decreases |s|
  {
    var i := IndexNewline(s);
    if i < 0 then Cut([], s)
    else
      var c := Split(s[i + 1..]);
      Cut([s[..i]] + c.lines, c.rest)
  }

  lemma {:induction false} JoinAfterSplit(s: seq<byte>)
    ensures Join(Split(s)) == s
    decreases |s|
  {
    var i := IndexNewline(s);
    SplitStep(s);
    hide Split, IndexNewline;
    if i >= 0 {
      JoinAfterSplit(s[i + 1..]);
      JoinStep(s[..i], Split(s[i + 1..]));
      assert s == s[..i] + [NEWLINE] + s[i + 1..];
    }
  }

  lemma JoinStep(line: seq<byte>, c: Cut)
    ensures Join(Cut([line] + c.lines, c.rest)) == line + [NEWLINE] + Join(c)
  {
    assert ([line] + c.lines)[1..] == c.lines;
  }

  lemma SplitStep(s: seq<byte>)
    ensures var i := IndexNewline(s);
            if i < 0 then Split(s) == Cut([], s)
            else Split(s) == Cut([s[..i]] + Split(s[i + 1..]).lines, Split(s[i + 1..]).rest)
  {
  }

  /** There is only one way to cut a text at its newlines, so Split is the inverse of Join both ways. */
  lemma {:induction false} SplitAfterJoin(c: Cut)
    requires NoNewline(c)
    ensures Split(Join(c)) == c
    decreases |c.lines|
  {
    if c.lines != [] {
      var tail := Cut(c.lines[1..], c.rest);
      SplitAfterJoin(tail);
      FirstNewline(c.lines[0], Join(tail));
      hide IndexNewline, NoNewline;
      assert c.lines == [c.lines[0]] + tail.lines;
    }
  }

  lemma FirstNewline(line: seq<byte>, tail: seq<byte>)
    requires NEWLINE !in line
    ensures var s := line + [NEWLINE] + tail;
            IndexNewline(s) == |line| && s[..|line|] == line && s[|line| + 1..] == tail
  {
    var s := line + [NEWLINE] + tail;
    assert s[|line|] == NEWLINE;
    assert forall j :: 0 <= j < |line| ==> s[j] == line[j];
  }

  lemma {:induction false} JoinAppend(a: seq<seq<byte>>, b: Cut)
    ensures Join(Cut(a + b.lines, b.rest)) == Join(Cut(a, [])) + Join(b)
    decreases |a|
  {
    if a == [] {
      assert a + b.lines == b.lines;
    } else {
      JoinAppend(a[1..], b);
      assert (a + b.lines)[0] == a[0] && (a + b.lines)[1..] == a[1..] + b.lines;
      assert a[0] + [NEWLINE] + (Join(Cut(a[1..], [])) + Join(b)) == (a[0] + [NEWLINE] + Join(Cut(a[1..], []))) + Join(b);
    }
  }

  lemma JoinRest(lines: seq<seq<byte>>, rest: seq<byte>)
    ensures Join(Cut(lines, rest)) == Join(Cut(lines, [])) + rest
  {
    JoinAppend(lines, Cut([], rest));
    assert lines + [] == lines;
  }

  /** Splitting may be interrupted anywhere and resumed with the rest. */
  lemma SplitResumes(a: seq<byte>, b: seq<byte>)
    ensures var c, d := Split(a), Split(Split(a).rest + b);
            Split(a + b) == Cut(c.lines + d.lines, d.rest)
  {
    hide Split, Join;
    var c := Split(a);
    var d := Split(c.rest + b);
    JoinAfterSplit(a);
    JoinAfterSplit(c.rest + b);
    JoinRest(c.lines, c.rest);
    JoinAppend(c.lines, d);
    var whole := Cut(c.lines + d.lines, d.rest);
    assert Join(Cut(c.lines, [])) + (c.rest + b) == a + b;
    SplitAfterJoin(whole);
  }

  function Contents(lines: seq<Line>): (r: seq<seq<byte>>)
    ensures |r| == |lines|
  {
    seq(|lines|, i requires 0 <= i < |lines| => lines[i].content)
  }

  /** What a log contains once it is closed: every line, and a last partial one if it is not empty. */
  function Closed(s: seq<byte>): seq<seq<byte>> {
    var c := Split(s);
    if c.rest == [] then c.lines else c.lines + [c.rest]
  }

  // ---------------------------------------------------------------------
  // The log
  // ---------------------------------------------------------------------

  class ProjectLog {
    var file: seq<Line>
    var currentTask: string
    var buf: seq<byte>
    ghost var written: seq<byte>  // every byte ever passed to Write

    ghost predicate Valid()
      reads this
    {
      Split(written) == Cut(Contents(file), buf)
    }

    constructor ()
      ensures Valid() && written == []
    {
      file, currentTask, buf, written := [], "", [], [];
    }

    method SetCurrentTask(name: string)
      requires Valid()
      modifies this`currentTask
      ensures Valid() && currentTask == name
    {
      currentTask := name;
    }

    /** The lines already in the file stay; those a write completes carry the current task's name. */
    method Write(p: seq<byte>) returns (n: nat)
      requires Valid()
      modifies this`file, this`buf, this`written
      ensures Valid()
      ensures n == |p| && written == old(written) + p
      ensures |file| >= |old(file)| && file[..|old(file)|] == old(file)
      ensures forall i :: |old(file)| <= i < |file| ==> file[i].task == currentTask
    {
      hide Split, Contents;
      ghost var c, before := Split(written), file;
      buf := buf + p;
      ghost var emitted := EmitLines();
      SplitResumes(written, p);
      assert emitted == file[|before|..];
      ContentsConcat(before, emitted);
      written := written + p;
      return |p|;
    }

    /** Emits every complete line of the buffer. */
    method EmitLines() returns (ghost emitted: seq<Line>)
      modifies this`file, this`buf
      ensures file == old(file) + emitted
      ensures Split(old(buf)) == Cut(Contents(emitted), buf)
      ensures forall i :: 0 <= i < |emitted| ==> emitted[i].task == currentTask
    {
      hide Split, Contents;
      ghost var goal := Split(buf);
      emitted := [];
      ContentsNone();
      while true
        invariant file == old(file) + emitted
        invariant forall i :: 0 <= i < |emitted| ==> emitted[i].task == currentTask
        invariant goal == Cut(Contents(emitted) + Split(buf).lines, Split(buf).rest)
        decreases |buf|
      {
        var idx := IndexNewline(buf);
        SplitStep(buf);
        if idx < 0 {
          break;
        }
        var line := buf[..idx];
        buf := buf[idx + 1..];
        Emit(line);
        ContentsAppend(emitted, Line(currentTask, line));
        assert Contents(emitted) + ([line] + Split(buf).lines) == (Contents(emitted) + [line]) + Split(buf).lines;
        emitted := emitted + [Line(currentTask, line)];
      }
    }

    method Emit(line: seq<byte>)
      modifies this`file
      ensures file == old(file) + [Line(currentTask, line)]
    {
      file := file + [Line(currentTask, line)];
    }

    /** Whatever the writes were, the file now holds the newline split of all bytes written. */
    method Close()
      requires Valid()
      modifies this`file, this`buf
      ensures Contents(file) == Closed(written)
      ensures |file| >= |old(file)| && file[..|old(file)|] == old(file)
    {
      if |buf| > 0 {
        ContentsAppend(file, Line(currentTask, buf));
        Emit(buf);
        buf := [];
      }
    }
  }

  lemma ContentsNone()
    ensures Contents([]) == []
  {
  }

  lemma ContentsAppend(lines: seq<Line>, l: Line)
    ensures Contents(lines + [l]) == Contents(lines) + [l.content]
  {
  }

  lemma ContentsConcat(a: seq<Line>, b: seq<Line>)
    ensures Contents(a + b) == Contents(a) + Contents(b)
  {
  }

  // ---------------------------------------------------------------------
  // The lines do not depend on how the output is cut into writes
  // ---------------------------------------------------------------------

  /** What the log holds and buffers after the given writes: the effect of Write, one chunk at a time. */
  function Feed(c: Cut, chunks: seq<seq<byte>>): Cut
    decreases |chunks|
  {
    if chunks == [] then c
    else
      var d := Split(c.rest + chunks[0]);
      Feed(Cut(c.lines + d.lines, d.rest), chunks[1..])
  }

  lemma {:induction false} FeedIsSplit(s: seq<byte>, chunks: seq<seq<byte>>)
    ensures Feed(Split(s), chunks) == Split(s + Flatten(chunks))
    decreases |chunks|
  {
    hide Split;
    if chunks == [] {
      assert s + [] == s;
    } else {
      SplitResumes(s, chunks[0]);
      FeedIsSplit(s + chunks[0], chunks[1..]);
      assert (s + chunks[0]) + Flatten(chunks[1..]) == s + Flatten(chunks);
    }
  }

  /** Two ways of cutting the same output give the same lines and the same last partial line. */
  lemma ChunkingDoesNotMatter(a: seq<seq<byte>>, b: seq<seq<byte>>)
    requires Flatten(a) == Flatten(b)
    ensures Feed(Cut([], []), a) == Feed(Cut([], []), b)
  {
    FeedIsSplit([], a);
    FeedIsSplit([], b);
    assert [] + Flatten(a) == [] + Flatten(b);
  }
}
