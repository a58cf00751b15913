/**
 * The buffered runner (RunFrom) and the pass-through runner (RunPassThroughFrom), over an
 * abstract process: the output callbacks it raises, in arrival order, and its exit code.
 */
module Execution {
  import opened Wrappers
  import opened Text
  import opened CommandLine
  import opened PathSearch
  import opened StartInfo
  import opened Failures

  datatype Origin = StandardOutput | StandardError

  /** One OutputDataReceived / ErrorDataReceived callback; data is None where Data is null. */
  datatype DataEvent = DataEvent(origin: Origin, data: Option<string>)

  /** The non-null lines among the events, in arrival order; with onlyErrors, those of standard error only. */
  function Received(events: seq<DataEvent>, onlyErrors: bool): seq<string> {
    if events == [] then []
    else
      var last := events[|events| - 1];
      Received(events[..|events| - 1], onlyErrors) +
        (if last.data.Some? && (!onlyErrors || last.origin == StandardError) then [last.data.value] else [])
  }

  /** The text of the combined accumulator. */
  function AllOutput(events: seq<DataEvent>): string {
    Terminated(Received(events, false))
  }

  /** The text of the standard-error accumulator. */
  function ErrorOutput(events: seq<DataEvent>): string {
    Terminated(Received(events, true))
  }

  /** The error text of a failed buffered run: standard error, or everything when that is blank. */
  function FailureText(events: seq<DataEvent>): string {
    if IsNullOrWhiteSpace(ErrorOutput(events)) then AllOutput(events) else ErrorOutput(events)
  }

  method RunFrom(workingDirectory: string, command: string, args: seq<Arg>, path: seq<string>, files: set<string>,
                 events: seq<DataEvent>, exitCode: int)
    returns (r: Result<string, Failure>)
    ensures Lookup(command, None, path, files).None? ==> r == Failure(FileNotFound(command))
    ensures Lookup(command, None, path, files).Some? && exitCode == 0 ==> r == Success(AllOutput(events))
    ensures Lookup(command, None, path, files).Some? && exitCode != 0 ==>
              r == Failure(ProcessFailed(ProcessException(exitCode, Some(FailureText(events)))))
  {
    var psi := CreateProcessStartInfo(workingDirectory, command, args, path, files);
    if psi.Failure? {
      return Failure(psi.error);
    }
    var allOutput, stderr := Collect(events);
    if exitCode != 0 {
      var err := stderr;
      if IsNullOrWhiteSpace(err) {
        err := allOutput;
      }
      return Failure(ProcessFailed(ProcessException(exitCode, Some(err))));
    }
    return Success(allOutput);
  }

  /**
   * The two data callbacks of RunFrom, applied to the events in arrival order: every non-null line
   * goes to the combined accumulator, standard-error lines also to the error accumulator.
   */
  method Collect(events: seq<DataEvent>) returns (allOutput: string, stderr: string)
    ensures allOutput == AllOutput(events)
    ensures stderr == ErrorOutput(events)
  {
    allOutput, stderr := "", "";
    var i := 0;
    while i < |events|
      invariant 0 <= i <= |events|
      invariant allOutput == AllOutput(events[..i])
      invariant stderr == ErrorOutput(events[..i])
    {
      var e := events[i];
      AccumulateStep(events, i);
      if e.data.Some? {
        allOutput := allOutput + e.data.value + "\n";
        if e.origin == StandardError {
          stderr := stderr + e.data.value + "\n";
        }
      }
      i := i + 1;
    }
    assert events[..|events|] == events;
  }

  lemma AccumulateStep(events: seq<DataEvent>, i: nat)
    requires i < |events|
    ensures var e := events[i];
      && AllOutput(events[..i + 1]) == AllOutput(events[..i]) + (if e.data.Some? then e.data.value + "\n" else "")
      && ErrorOutput(events[..i + 1]) ==
           ErrorOutput(events[..i]) + (if e.data.Some? && e.origin == StandardError then e.data.value + "\n" else "")
  {
    var e := events[i];
    var pre := events[..i + 1];
    assert pre[..|pre| - 1] == events[..i] && pre[|pre| - 1] == e;
    assert Received(pre, false) ==
      Received(events[..i], false) + (if e.data.Some? then [e.data.value] else []);
    assert Received(pre, true) ==
      Received(events[..i], true) + (if e.data.Some? && e.origin == StandardError then [e.data.value] else []);
    if e.data.Some? {
      TerminatedSnoc(Received(events[..i], false), e.data.value);
    } else {
      assert Received(events[..i], false) + [] == Received(events[..i], false);
    }
    if e.data.Some? && e.origin == StandardError {
      TerminatedSnoc(Received(events[..i], true), e.data.value);
    } else {
      assert Received(events[..i], true) + [] == Received(events[..i], true);
    }
  }

  method RunPassThroughFrom(workingDirectory: string, command: string, args: seq<Arg>, path: seq<string>,
                            files: set<string>, exitCode: int)
    returns (r: Result<(), Failure>)
    ensures Lookup(command, None, path, files).None? ==> r == Failure(FileNotFound(command))
    ensures Lookup(command, None, path, files).Some? ==>
              (r.Success? <==> exitCode == 0) &&
              (r.Failure? ==> r.error == ProcessFailed(ProcessException(exitCode, None)))
  {
    var psi := CreateProcessStartInfo(workingDirectory, command, args, path, files);
    if psi.Failure? {
      return Failure(psi.error);
    }
    if exitCode != 0 {
      return Failure(ProcessFailed(ProcessException(exitCode, None)));
    }
    return Success(());
  }

  /** Every standard-error line is also in the combined accumulator. */
  lemma {:induction false} ErrorsAmongAll(events: seq<DataEvent>)
    ensures multiset(Received(events, true)) <= multiset(Received(events, false))
    decreases |events|
  {
    if events != [] {
      ErrorsAmongAll(events[..|events| - 1]);
    }
  }

  /** The combined accumulator splits back into exactly the lines received, in arrival order. */
  lemma AllOutputLines(events: seq<DataEvent>)
    requires forall k :: 0 <= k < |events| && events[k].data.Some? ==> NoNewline(events[k].data.value)
    ensures CompleteLines(AllOutput(events)) == Received(events, false)
    ensures Tail(AllOutput(events)) == ""
  {
    ReceivedNoNewline(events, false);
    LinesOfTerminated(Received(events, false));
  }

  lemma {:induction false} ReceivedNoNewline(events: seq<DataEvent>, onlyErrors: bool)
    requires forall k :: 0 <= k < |events| && events[k].data.Some? ==> NoNewline(events[k].data.value)
    ensures forall k :: 0 <= k < |Received(events, onlyErrors)| ==> NoNewline(Received(events, onlyErrors)[k])
    decreases |events|
  {
    if events != [] {
      ReceivedNoNewline(events[..|events| - 1], onlyErrors);
    }
  }

  /** A failed run reports a blank error text only when every line the process wrote was blank. */
  lemma FailureTextBlank(events: seq<DataEvent>)
    ensures IsNullOrWhiteSpace(FailureText(events)) <==>
            forall k :: 0 <= k < |Received(events, false)| ==> IsNullOrWhiteSpace(Received(events, false)[k])
  {
    var all, errs := Received(events, false), Received(events, true);
    BlankTerminated(all);
    BlankTerminated(errs);
    if IsNullOrWhiteSpace(ErrorOutput(events)) {
      assert FailureText(events) == Terminated(all);
    } else {
      assert FailureText(events) == Terminated(errs);
      var k :| 0 <= k < |errs| && !IsNullOrWhiteSpace(errs[k]);
      ErrorsAmongAll(events);
      assert errs[k] in multiset(errs);
      assert errs[k] in all;
      var j :| 0 <= j < |all| && all[j] == errs[k];
      assert !IsNullOrWhiteSpace(all[j]);
    }
  }

  /** A command that prints `hello` and exits with 0 yields "hello\n". */
  lemma BufferedSuccessExample()
    ensures AllOutput([DataEvent(StandardOutput, Some("hello")), DataEvent(StandardOutput, None)]) == "hello\n"
  {
    var events := [DataEvent(StandardOutput, Some("hello")), DataEvent(StandardOutput, None)];
    assert events[..1] == [DataEvent(StandardOutput, Some("hello"))];
    assert Received(events, false) == ["hello"];
    assert ["hello"][..0] == [];
  }

  /** A command that writes `bad input` to standard error fails with that line (and its terminator) as error text. */
  lemma BufferedFailureExample()
    ensures FailureText([DataEvent(StandardError, Some("bad input"))]) == "bad input\n"
  {
    var events := [DataEvent(StandardError, Some("bad input"))];
    assert Received(events, true) == ["bad input"];
    assert ["bad input"][..0] == [];
    assert ErrorOutput(events) == "bad input\n";
    assert !IsWhiteSpace(ErrorOutput(events)[0]);
  }
}
