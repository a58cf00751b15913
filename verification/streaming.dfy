/**
 * The streaming runner: a wrapper around the child's standard output that checks the exit code
 * only when a read returns no data, a line reader over it, and the single-use line sequence.
 */
module Streaming {
  import opened Wrappers
  import opened Text
  import opened CommandLine
  import opened PathSearch
  import opened StartInfo
  import opened Failures
  import opened Execution

  /** The data of successive pipe chunks, in order. */
  function Concat(chunks: seq<string>): string {
    if chunks == [] then "" else chunks[0] + Concat(chunks[1..])
  }

  lemma ConcatCons(chunk: string, chunks: seq<string>)
    ensures Concat([chunk] + chunks) == chunk + Concat(chunks)
  {
    assert ([chunk] + chunks)[1..] == chunks;
  }

  /** What one read of the pipe returns: at most `count` bytes of the next chunk, and 0 once it is drained. */
  function BaseReadCount(pending: seq<string>, count: nat): nat {
    if pending == [] then 0 else if count < |pending[0]| then count else |pending[0]|
  }

  /** The size of the buffer through which the line reader pulls data. */
  const BufferSize: nat := 1024

  /**
   * WrappedStreamReader: the child's standard output (a pipe delivering `pending` chunk by chunk),
   * the process (`hasExited`, `exitCode`, `killed`, `disposed`) and the standard-error accumulator.
   */
  class WrappedStreamReader {
    var pending: seq<string>
    var hasExited: bool
    const exitCode: int
    const stderr: string
    var killed: bool
    var disposed: bool

    /** The pipe never delivers an empty chunk before the end of its data. */
    ghost predicate Valid()
      reads this
    {
      forall k :: 0 <= k < |pending| ==> pending[k] != ""
    }

    /** Everything the pipe still holds. */
    ghost function Remaining(): string
      reads this
    {
      Concat(pending)
    }

    constructor (output: seq<string>, hasExited: bool, exitCode: int, stderr: string)
      requires forall k :: 0 <= k < |output| ==> output[k] != ""
      ensures Valid()
      ensures pending == output && this.hasExited == hasExited
      ensures this.exitCode == exitCode && this.stderr == stderr
      ensures !killed && !disposed
    {
      pending := output;
      this.hasExited := hasExited;
      this.exitCode := exitCode;
      this.stderr := stderr;
      killed := false;
      disposed := false;
    }

    /**
     * Read: a read that returns data passes its count through untouched; only a read that returns
     * nothing waits for the process and, for a nonzero exit code, raises with the standard-error text.
     */
    method Read(count: nat) returns (r: Result<string, ProcessException>)
      requires Valid() && !disposed
      modifies this
      ensures Valid() && !disposed && killed == old(killed)
      ensures BaseReadCount(old(pending), count) > 0 ==>
                var k := BaseReadCount(old(pending), count);
                && k <= count && k <= |old(Remaining())|
                && r == Success(old(Remaining())[..k])
                && Remaining() == old(Remaining())[k..]
                && hasExited == old(hasExited)
      ensures BaseReadCount(old(pending), count) == 0 ==>
                && pending == old(pending) && hasExited
                && r == (if exitCode == 0 then Success("") else Failure(ProcessException(exitCode, Some(stderr))))
    {
      // the next bytes the pipe delivers
      var k := BaseReadCount(pending, count);
      var data := "";
      if k > 0 {
        var chunk := pending[0];
        data := chunk[..k];
        ConcatCons(chunk, pending[1..]);
        assert pending == [chunk] + pending[1..];
        assert (chunk + Concat(pending[1..]))[..k] == chunk[..k];
        if k == |chunk| {
          pending := pending[1..];
        } else {
          ConcatCons(chunk[k..], pending[1..]);
          pending := [chunk[k..]] + pending[1..];
        }
      }
      if k == 0 {
        hasExited := true; // wait for the process to exit
        if exitCode != 0 {
          return Failure(ProcessException(exitCode, Some(stderr)));
        }
      }
      return Success(data);
    }

    /**
     * Dispose: kill the process only if it has not exited; a Kill that throws (killRefused) is
     * ignored, so disposal never raises. The process handle is released either way.
     */
    method Dispose(killRefused: bool)
      modifies this
      ensures disposed && pending == old(pending)
      ensures old(hasExited) || killRefused ==> killed == old(killed) && hasExited == old(hasExited)
      ensures !old(hasExited) && !killRefused ==> killed && hasExited
    {
      if !hasExited && !killRefused {
        killed := true; // kill the process
        hasExited := true;
      }
      disposed := true; // release the process handle
    }
  }

  /**
   * The StreamReader placed over the wrapped stream, reduced to ReadLine: lines end at '\n';
   * text decoding is not modelled (each character stands for what the pipe delivered).
   */
  class LineReader {
    const stream: WrappedStreamReader
    var buffer: string

    ghost predicate Valid()
      reads this, stream
    {
      stream.Valid()
    }

    /** The text not yet returned by ReadLine. */
    ghost function Unread(): string
      reads this, stream
    {
      buffer + stream.Remaining()
    }

    constructor (stream: WrappedStreamReader)
      ensures this.stream == stream && buffer == ""
    {
      this.stream := stream;
      buffer := "";
    }

    /**
     * The next line of the unread text; at the end of the data the wrapped stream's exit check runs,
     * so an unterminated last line is returned only when the process succeeded. The buffer is emptied
     * before the read that raises, so a failure drops the partial line and a later call fails again.
     */
    method ReadLine() returns (r: Result<Option<string>, ProcessException>)
      requires Valid() && !stream.disposed
      modifies this, stream
      ensures Valid() && !stream.disposed && stream.killed == old(stream.killed)
      ensures var u := old(Unread()); var i := FirstNewline(u);
                i < |u| ==> r == Success(Some(u[..i])) && Unread() == u[i + 1..] &&
                            stream.hasExited == old(stream.hasExited)
      ensures var u := old(Unread());
                FirstNewline(u) == |u| ==>
                  && stream.hasExited && stream.pending == []
                  && r == (if stream.exitCode != 0 then Failure(ProcessException(stream.exitCode, Some(stream.stderr)))
                           else if u == "" then Success(None) else Success(Some(u)))
                  && Unread() == ""
    {
      ghost var u := Unread();
      while true
        invariant Valid() && !stream.disposed && stream.killed == old(stream.killed)
        invariant stream.hasExited == old(stream.hasExited)
        invariant Unread() == u
        decreases |stream.Remaining()|
      {
        var i := FirstNewline(buffer);
        if i < |buffer| {
          NewlineInPrefix(buffer, stream.Remaining());
          var line := buffer[..i];
          buffer := buffer[i + 1..];
          return Success(Some(line));
        }
        var more := Fill();
        if more != Success(true) {
          assert u == buffer;
          if more.Failure? {
            buffer := "";
            return Failure(more.error);
          }
          if buffer == "" {
            return Success(None);
          }
          var line := buffer;
          buffer := "";
          return Success(Some(line));
        }
      }
    }

    /**
     * The refill of the reader's buffer: one read of the wrapped stream appended to the buffer.
     * A read that returns nothing ends the data, after the stream's exit check.
     */
    method Fill() returns (r: Result<bool, ProcessException>)
      requires Valid() && !stream.disposed
      modifies this, stream
      ensures Valid() && !stream.disposed && stream.killed == old(stream.killed)
      ensures Unread() == old(Unread())
      ensures r == Success(true) ==>
                |stream.Remaining()| < |old(stream.Remaining())| && stream.hasExited == old(stream.hasExited)
      ensures r != Success(true) ==>
                && stream.pending == [] && stream.hasExited && buffer == old(buffer)
                && r == (if stream.exitCode != 0 then Failure(ProcessException(stream.exitCode, Some(stream.stderr)))
                         else Success(false))
    {
      ghost var rem := stream.Remaining();
      var data := stream.Read(BufferSize);
      if data.Failure? {
        return Failure(data.error);
      }
      if data.value == "" {
        return Success(false);
      }
      assert rem == data.value + stream.Remaining() by {
        assert rem == rem[..|data.value|] + rem[|data.value|..];
      }
      buffer := buffer + data.value;
      return Success(true);
    }

    /** StreamReader.Dispose: disposes the wrapped stream. */
    method Dispose(killRefused: bool)
      modifies stream
      ensures stream.disposed && stream.pending == old(stream.pending)
      ensures old(stream.hasExited) || killRefused ==>
                stream.killed == old(stream.killed) && stream.hasExited == old(stream.hasExited)
      ensures !old(stream.hasExited) && !killRefused ==> stream.killed && stream.hasExited
    {
      stream.Dispose(killRefused);
    }
  }

  /** A first '\n' inside a prefix is the first '\n' of the whole text. */
  lemma NewlineInPrefix(a: string, b: string)
    requires FirstNewline(a) < |a|
    ensures FirstNewline(a + b) == FirstNewline(a)
    ensures (a + b)[..FirstNewline(a)] == a[..FirstNewline(a)]
    ensures (a + b)[FirstNewline(a) + 1..] == a[FirstNewline(a) + 1..] + b
  {
    var i := FirstNewline(a);
    assert (a + b)[..i] == a[..i];
    assert forall k :: 0 <= k < i ==> (a + b)[k] == a[..i][k];
    FirstNewlineIs(a + b, i);
  }

  /** The lines a full enumeration yields: the complete lines, and the unterminated tail only after a success. */
  function OutputLines(text: string, exitCode: int): seq<string> {
    CompleteLines(text) + (if exitCode == 0 && Tail(text) != "" then [Tail(text)] else [])
  }

  /** Reading one complete line moves it from the unread text to the yielded lines. */
  lemma OutputLinesStep(u: string, exitCode: int)
    requires FirstNewline(u) < |u|
    ensures OutputLines(u, exitCode) == [u[..FirstNewline(u)]] + OutputLines(u[FirstNewline(u) + 1..], exitCode)
  {
    LinesStep(u);
  }

  /** Text without a '\n' holds at most its unterminated tail. */
  lemma OutputLinesEnd(u: string, exitCode: int)
    requires FirstNewline(u) == |u|
    ensures OutputLines(u, exitCode) == if exitCode == 0 && u != "" then [u] else []
  {
  }

  /**
   * The `while (true)` loop of MakeEnumerable, driven by a consumer that takes lines until it holds
   * `limit` of them (all of them for None): ReadLine until it returns null, yielding each line.
   * A ProcessException from the final read ends the loop.
   */
  method PullLines(reader: LineReader, limit: Option<nat>) returns (yielded: seq<string>, failure: Option<ProcessException>)
    requires reader.Valid() && !reader.stream.disposed && limit != Some(0)
    modifies reader, reader.stream
    ensures reader.Valid() && !reader.stream.disposed && reader.stream.killed == old(reader.stream.killed)
    ensures var all := OutputLines(old(reader.Unread()), reader.stream.exitCode);
              limit.Some? && limit.value <= |all| ==> yielded == all[..limit.value] && failure == None
    ensures var all := OutputLines(old(reader.Unread()), reader.stream.exitCode);
              limit.None? || limit.value > |all| ==>
                && yielded == all && reader.stream.hasExited
                && failure == if reader.stream.exitCode == 0 then None
                              else Some(ProcessException(reader.stream.exitCode, Some(reader.stream.stderr)))
    ensures limit.Some? && limit.value <= |CompleteLines(old(reader.Unread()))| ==>
              reader.stream.hasExited == old(reader.stream.hasExited)
    ensures limit.None? || limit.value > |CompleteLines(old(reader.Unread()))| ==> reader.stream.hasExited
  {
    yielded, failure := [], None;
    var stream := reader.stream;
    ghost var text := reader.Unread();
    ghost var all, complete := OutputLines(text, stream.exitCode), CompleteLines(text);
    ghost var exited := stream.hasExited;
    ghost var ended := false;
    ghost var rest := text;
    while true
      invariant reader.Valid() && !stream.disposed && stream.killed == old(stream.killed)
      invariant rest == reader.Unread()
      invariant all == yielded + OutputLines(rest, stream.exitCode)
      invariant limit.None? || |yielded| < limit.value
      invariant !ended ==> stream.hasExited == exited && complete == yielded + CompleteLines(rest)
      invariant ended ==> rest == "" && stream.hasExited && |yielded| == |complete| + 1
      decreases |rest|
    {
      var line := reader.ReadLine();
      if line.Failure? || line.value.None? {
        AtEnd(all, complete, yielded, rest, stream.exitCode, ended, limit);
        if line.Failure? {
          failure := Some(line.error);
        }
        return;
      }
      if FirstNewline(rest) < |rest| {
        StepLine(all, complete, yielded, rest, stream.exitCode);
      } else {
        StepTail(all, complete, yielded, rest, stream.exitCode);
        ended := true;
      }
      yielded := yielded + [line.value.value];
      rest := reader.Unread();
      if limit.Some? && |yielded| == limit.value {
        AtLimit(all, complete, yielded, OutputLines(rest, stream.exitCode), ended);
        return;
      }
    }
  }

  lemma StepLine(all: seq<string>, complete: seq<string>, yielded: seq<string>, u: string, exitCode: int)
    requires FirstNewline(u) < |u|
    requires all == yielded + OutputLines(u, exitCode)
    requires complete == yielded + CompleteLines(u)
    ensures var i := FirstNewline(u);
      && all == (yielded + [u[..i]]) + OutputLines(u[i + 1..], exitCode)
      && complete == (yielded + [u[..i]]) + CompleteLines(u[i + 1..])
  {
    var i := FirstNewline(u);
    var line, rest := u[..i], u[i + 1..];
    LinesStep(u);
    OutputLinesStep(u, exitCode);
    Regroup(yielded, line, CompleteLines(rest));
    Regroup(yielded, line, OutputLines(rest, exitCode));
  }

  lemma Regroup<T>(front: seq<T>, x: T, back: seq<T>)
    ensures front + ([x] + back) == (front + [x]) + back
  {
  }

  lemma StepTail(all: seq<string>, complete: seq<string>, yielded: seq<string>, u: string, exitCode: int)
    requires FirstNewline(u) == |u| && u != "" && exitCode == 0
    requires all == yielded + OutputLines(u, exitCode)
    requires complete == yielded + CompleteLines(u)
    ensures all == (yielded + [u]) + OutputLines("", exitCode)
    ensures |yielded + [u]| == |complete| + 1
  {
    OutputLinesEnd(u, exitCode);
    OutputLinesEnd("", exitCode);
  }

  /** When the data runs out, every line has been yielded and the consumer's limit was not reached. */
  lemma AtEnd(all: seq<string>, complete: seq<string>, yielded: seq<string>, u: string, exitCode: int,
              ended: bool, limit: Option<nat>)
    requires FirstNewline(u) == |u|
    requires all == yielded + OutputLines(u, exitCode)
    requires limit.None? || |yielded| < limit.value
    requires !ended ==> complete == yielded + CompleteLines(u)
    requires ended ==> u == "" && |yielded| == |complete| + 1
    ensures exitCode != 0 || u == "" ==> yielded == all
    ensures yielded == all ==> limit.None? || limit.value > |all|
    ensures limit.None? || limit.value > |complete|
  {
    OutputLinesEnd(u, exitCode);
  }

  /** When the consumer has its lines, they are the first lines of the output. */
  lemma AtLimit(all: seq<string>, complete: seq<string>, yielded: seq<string>, rest: seq<string>, ended: bool)
    requires all == yielded + rest
    requires ended ==> |yielded| == |complete| + 1
    ensures |yielded| <= |all| && yielded == all[..|yielded|]
    ensures |yielded| <= |complete| ==> !ended
  {
  }

  /**
   * MakeEnumerable, seen from a consumer that pulls lines until it holds `limit` of them (all of them
   * for None) and then disposes the enumerator. The iterator body, with the `used` check and the
   * `using (reader)`, runs on the first MoveNext: a consumer that pulls nothing changes nothing.
   */
  method MakeEnumerable(reader: LineReader, used: array<bool>, limit: Option<nat>, killRefused: bool)
    returns (yielded: seq<string>, error: Option<Failure>)
    requires used.Length == 1 && reader.Valid()
    requires !used[0] ==> !reader.stream.disposed
    modifies used, reader, reader.stream
    ensures limit == Some(0) ==>
              yielded == [] && error == None && unchanged(used) && unchanged(reader, reader.stream)
    ensures limit != Some(0) && old(used[0]) ==>
              yielded == [] && error == Some(InvalidOperation) && unchanged(used) && unchanged(reader, reader.stream)
    ensures limit != Some(0) && !old(used[0]) ==>
              var all := OutputLines(old(reader.Unread()), reader.stream.exitCode);
              && used[0] && reader.stream.disposed
              && (limit.Some? && limit.value <= |all| ==> yielded == all[..limit.value] && error == None)
              && (limit.None? || limit.value > |all| ==>
                    && yielded == all && reader.stream.hasExited && reader.stream.killed == old(reader.stream.killed)
                    && error == if reader.stream.exitCode == 0 then None
                                else Some(ProcessFailed(ProcessException(reader.stream.exitCode, Some(reader.stream.stderr)))))
    ensures limit != Some(0) && !old(used[0]) && limit.Some? &&
            limit.value <= |CompleteLines(old(reader.Unread()))| ==>
              reader.stream.killed == (old(reader.stream.killed) || (!old(reader.stream.hasExited) && !killRefused))
    ensures limit != Some(0) && !old(used[0]) &&
            (limit.None? || limit.value > |CompleteLines(old(reader.Unread()))|) ==>
              reader.stream.hasExited && reader.stream.killed == old(reader.stream.killed)
  {
    yielded, error := [], None;
    if limit == Some(0) {
      return;
    }
    if used[0] {
      return [], Some(InvalidOperation);
    }
    used[0] := true;
    var failure;
    yielded, failure := PullLines(reader, limit);
    reader.Dispose(killRefused);
    if failure.Some? {
      error := Some(ProcessFailed(failure.value));
    }
  }

  /**
   * RunFromRaw: the command is built as for every runner, standard error is gathered by the error
   * callback, and standard output is read through the wrapped stream. `output` is what the pipe
   * delivers, chunk by chunk; `hasExited` says whether the process is already gone at that point.
   */
  method RunFromRaw(workingDirectory: string, command: string, args: seq<Arg>, path: seq<string>, files: set<string>,
                    output: seq<string>, errorEvents: seq<DataEvent>, hasExited: bool, exitCode: int)
    returns (r: Result<LineReader, Failure>)
    requires forall k :: 0 <= k < |output| ==> output[k] != ""
    ensures Lookup(command, None, path, files).None? <==> r.Failure?
    ensures r.Failure? ==> r.error == FileNotFound(command)
    ensures r.Success? ==>
              && fresh(r.value) && fresh(r.value.stream) && r.value.Valid()
              && r.value.Unread() == Concat(output)
              && r.value.stream.exitCode == exitCode && r.value.stream.stderr == ErrorOutput(errorEvents)
              && r.value.stream.hasExited == hasExited && !r.value.stream.killed && !r.value.stream.disposed
  {
    var psi := CreateProcessStartInfo(workingDirectory, command, args, path, files);
    if psi.Failure? {
      return Failure(psi.error);
    }
    var _, stderr := Collect(errorEvents);
    var wrapped := new WrappedStreamReader(output, hasExited, exitCode, stderr);
    var reader := new LineReader(wrapped);
    return Success(reader);
  }

  /** RunFromRawEnumerable: the reader and a fresh `used` flag, unset. */
  method RunFromRawEnumerable(workingDirectory: string, command: string, args: seq<Arg>, path: seq<string>,
                              files: set<string>, output: seq<string>, errorEvents: seq<DataEvent>,
                              hasExited: bool, exitCode: int)
    returns (r: Result<(LineReader, array<bool>), Failure>)
    requires forall k :: 0 <= k < |output| ==> output[k] != ""
    ensures Lookup(command, None, path, files).None? <==> r.Failure?
    ensures r.Failure? ==> r.error == FileNotFound(command)
    ensures r.Success? ==>
              var (reader, used) := r.value;
              && fresh(reader) && fresh(reader.stream) && fresh(used) && reader.Valid()
              && used.Length == 1 && !used[0] && !reader.stream.disposed
              && reader.Unread() == Concat(output) && reader.stream.exitCode == exitCode
              && reader.stream.stderr == ErrorOutput(errorEvents) && reader.stream.hasExited == hasExited
              && !reader.stream.killed
  {
    var raw := RunFromRaw(workingDirectory, command, args, path, files, output, errorEvents, hasExited, exitCode);
    if raw.Failure? {
      return Failure(raw.error);
    }
    var used := new bool[1];
    used[0] := false;
    return Success((raw.value, used));
  }

  /**
   * A client of RunFromRawEnumerable that enumerates the lines to the end: it sees every output line
   * (the unterminated last one only on success) and then the exit code with the standard-error text.
   */
  method EnumerateRawOutput(workingDirectory: string, command: string, args: seq<Arg>, path: seq<string>,
                            files: set<string>, output: seq<string>, errorEvents: seq<DataEvent>,
                            hasExited: bool, exitCode: int)
    returns (lines: seq<string>, error: Option<Failure>)
    requires forall k :: 0 <= k < |output| ==> output[k] != ""
    ensures Lookup(command, None, path, files).None? ==> lines == [] && error == Some(FileNotFound(command))
    ensures Lookup(command, None, path, files).Some? ==>
              && lines == OutputLines(Concat(output), exitCode)
              && error == if exitCode == 0 then None
                          else Some(ProcessFailed(ProcessException(exitCode, Some(ErrorOutput(errorEvents)))))
  {
    var r := RunFromRawEnumerable(workingDirectory, command, args, path, files, output, errorEvents, hasExited, exitCode);
    if r.Failure? {
      return [], Some(r.error);
    }
    var (reader, used) := r.value;
    lines, error := MakeEnumerable(reader, used, None, false);
  }

  /** Each of the three lines ends in '\n': three complete lines and no tail. */
  lemma ThreeTerminatedLines()
    ensures CompleteLines("a\nb\nc\n") == ["a", "b", "c"] && Tail("a\nb\nc\n") == ""
  {
    var lines := ["a", "b", "c"];
    assert forall k :: 0 <= k < |lines| ==> NoNewline(lines[k]);
    assert Terminated(lines) == "a\nb\nc\n" by {
      assert lines[..2] == ["a", "b"];
      assert ["a", "b"][..1] == ["a"];
      assert ["a"][..0] == [];
    }
    LinesOfTerminated(lines);
  }

  /** The last line lacks its '\n': two complete lines and the tail "c". */
  lemma TwoLinesAndTail()
    ensures CompleteLines("a\nb\nc") == ["a", "b"] && Tail("a\nb\nc") == "c"
  {
    assert NoNewline("a") && NoNewline("b");
    assert FirstNewline("c") == 1;
    assert CompleteLines("c") == [] && Tail("c") == "c";
    assert "b\nc" == "b" + "\n" + "c";
    SplitFirstLine("b", "c");
    assert "a\nb\nc" == "a" + "\n" + "b\nc";
    SplitFirstLine("a", "b\nc");
  }

  /**
   * Three lines then exit code 1: all three are yielded before the failure when each ends in '\n';
   * an unterminated last line is yielded only by a successful run.
   */
  lemma OutputLinesExamples()
    ensures OutputLines("a\nb\nc\n", 1) == ["a", "b", "c"]
    ensures OutputLines("a\nb\nc", 1) == ["a", "b"]
    ensures OutputLines("a\nb\nc", 0) == ["a", "b", "c"]
  {
    ThreeTerminatedLines();
    TwoLinesAndTail();
  }

  /** A client: stop after one line of a failing three-line run; no failure is reported. */
  method PartialConsumptionExample() {
    var stream := new WrappedStreamReader(["a\nb\nc\n"], false, 1, "oops\n");
    var reader := new LineReader(stream);
    var used := new bool[1];
    used[0] := false;
    assert reader.Unread() == "a\nb\nc\n";
    OutputLinesExamples();
    ghost var all := OutputLines(reader.Unread(), 1);
    assert all[..1] == ["a"];
    var lines, error := MakeEnumerable(reader, used, Some(1), false);
    assert lines == ["a"];
    assert error == None;
  }

  /** A caller that catches the failure and reads on: the partial line is gone and the failure repeats. */
  method RepeatedFailureExample() {
    var stream := new WrappedStreamReader(["x"], false, 1, "e\n");
    var reader := new LineReader(stream);
    assert reader.Unread() == "x";
    assert FirstNewline("x") == 1;
    var r1 := reader.ReadLine();
    assert r1 == Failure(ProcessException(1, Some("e\n")));
    var r2 := reader.ReadLine();
    assert r2 == Failure(ProcessException(1, Some("e\n")));
  }

  /** Enumerating a second time fails and touches nothing. */
  method SecondEnumeration(reader: LineReader, used: array<bool>)
    requires used.Length == 1 && used[0] && reader.Valid()
    modifies used, reader, reader.stream
  {
    var lines, error := MakeEnumerable(reader, used, None, false);
    assert lines == [] && error == Some(InvalidOperation);
  }

  /** A client: read a failing three-line run to its end. */
  method FullConsumptionExample() {
    var stream := new WrappedStreamReader(["a\nb\n", "c\n"], false, 1, "oops\n");
    var reader := new LineReader(stream);
    var used := new bool[1];
    used[0] := false;
    assert reader.Unread() == "a\nb\nc\n";
    OutputLinesExamples();
    var lines, error := MakeEnumerable(reader, used, None, false);
    assert lines == ["a", "b", "c"];
    assert error == Some(ProcessFailed(ProcessException(1, Some("oops\n"))));
    assert !stream.killed && stream.disposed;
  }

  /**
   * A client: take exactly the three lines of a successful run whose last line lacks its '\n'.
   * Reading that line needed the end of the data, so the process has exited and disposal kills nothing.
   */
  method TailLimitExample() {
    var stream := new WrappedStreamReader(["a\nb\nc"], false, 0, "");
    var reader := new LineReader(stream);
    var used := new bool[1];
    used[0] := false;
    assert reader.Unread() == "a\nb\nc";
    OutputLinesExamples();
    TwoLinesAndTail();
    ghost var all := OutputLines(reader.Unread(), 0);
    assert all[..3] == all;
    var lines, error := MakeEnumerable(reader, used, Some(3), false);
    assert lines == ["a", "b", "c"] && error == None;
    assert stream.hasExited && !stream.killed && stream.disposed;
  }
}
