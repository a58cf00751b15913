/** CreateProcessStartInfo: from a command name and arguments to what is launched. */
module StartInfo {
  import opened Wrappers
  import opened Text
  import opened CommandLine
  import opened PathSearch
  import opened Failures

  /** The fields of ProcessStartInfo that the builder sets (UseShellExecute is always false). */
  datatype ProcessStartInfo = ProcessStartInfo(FileName: string, WorkingDirectory: string, Arguments: string)

  /** A resolved path that must be run through the command interpreter. */
  predicate IsScript(resolved: string) {
    EndsWithIgnoreCase(resolved, ".cmd") || EndsWithIgnoreCase(resolved, ".bat")
  }

  method CreateProcessStartInfo(workingDirectory: string, command: string, args: seq<Arg>,
                                path: seq<string>, files: set<string>)
    returns (r: Result<ProcessStartInfo, Failure>)
    ensures Lookup(command, None, path, files).None? <==> r.Failure?
    ensures r.Failure? ==> r.error == FileNotFound(command)
    ensures r.Success? ==> r.value.WorkingDirectory == workingDirectory
    ensures r.Success? && IsScript(Lookup(command, None, path, files).value) ==>
              r.value.FileName == "cmd.exe" &&
              r.value.Arguments == "/c " + RenderValue(command) + (if args == [] then "" else " " + GetArguments(args))
    ensures r.Success? && !IsScript(Lookup(command, None, path, files).value) ==>
              r.value.FileName == command && r.value.Arguments == GetArguments(args)
  {
    var resolved := PathLookup(command, None, path, files);
    if resolved.None? {
      return Failure(FileNotFound(command));
    }
    var args', command' := args, command;
    if EndsWithIgnoreCase(resolved.value, ".cmd") || EndsWithIgnoreCase(resolved.value, ".bat") {
      args' := [Plain("/c"), Plain(command)] + args;
      command' := "cmd.exe";
      ScriptArguments(command, args);
    }
    r := Success(ProcessStartInfo(command', workingDirectory, GetArguments(args')));
  }

  /** The interpreter is told `/c`, then the original command name as a plain value, then the original arguments. */
  lemma ScriptArguments(command: string, args: seq<Arg>)
    ensures GetArguments([Plain("/c"), Plain(command)] + args) ==
            "/c " + RenderValue(command) + (if args == [] then "" else " " + GetArguments(args))
  {
    SwitchRendersAsIs();
    PrependTwo(Plain("/c"), Plain(command), args);
  }

  /** Two arguments put in front contribute their tokens, each followed by one separating space. */
  lemma PrependTwo(a: Arg, b: Arg, args: seq<Arg>)
    ensures GetArguments([a, b] + args) ==
            Render(a) + " " + Render(b) + (if args == [] then "" else " " + GetArguments(args))
  {
    var rest := [b] + args;
    var tail := if args == [] then "" else " " + GetArguments(args);
    ConsTwo(a, b, args);
    GetArgumentsPrepend(a, rest);
    GetArgumentsPrepend(b, args);
    Associate(Render(a) + " ", Render(b), tail);
  }

  lemma ConsTwo<T>(a: T, b: T, xs: seq<T>)
    ensures [a, b] + xs == [a] + ([b] + xs)
  {
  }

  lemma Associate(x: string, y: string, z: string)
    ensures (x + y) + z == x + (y + z)
  {
  }

  /** The `/c` switch needs no quoting. */
  lemma SwitchRendersAsIs()
    ensures Render(Plain("/c")) == "/c"
  {
    var c := "/c";
    assert IsSafeChar(c[0]) && IsSafeChar(c[1]);
  }

  /**
   * A bare script name found on the search path is handed to cmd.exe by its original name:
   * `run` resolved to `C:\tools\run.bat` launches `cmd.exe /c run`.
   */
  lemma ScriptExample()
    ensures Lookup("run", None, ["C:\\tools"], {"C:\\tools\\run.bat"}) == Some("C:\\tools\\run.bat")
    ensures IsScript("C:\\tools\\run.bat")
    ensures "/c " + RenderValue("run") == "/c run"
  {
    var files := {"C:\\tools\\run.bat"};
    assert !HasSeparator("run");
    assert NormalizeDir("C:\\tools") == "C:\\tools\\";
    assert "C:\\tools\\" + "run" == "C:\\tools\\run";
    assert "C:\\tools\\run" + ".bat" == "C:\\tools\\run.bat";
    assert "C:\\tools\\run" !in files;
    assert "C:\\tools\\run.exe" !in files;
    assert "C:\\tools\\run.cmd" !in files;
    assert Probe("C:\\tools", "run", files) == Some("C:\\tools\\run.bat");
    SearchFirstHit(["C:\\tools"], 0, "run", files);
    assert ToLower(".bat") == ".bat";
    assert IsSafeValue("run");
  }
}
