# Shaman.ProcessUtils, modelled in Dafny

Shaman.ProcessUtils is a small C# helper for running external programs. This model covers the part
that decides *what* is launched and *how the outcome is judged*:

- **Argument rendering.** Three kinds of argument are rendered to tokens, using a whitelist of safe
  characters. Plain values that need quoting get one pair of double quotes and no escaping. A raw
  literal is copied verbatim. A named argument is its name glued to its (possibly quoted) value.
  `GetArguments` joins the tokens with single spaces. `GetCommandLine` puts the quoted file name in
  front (`command_line.dfy`).
- **Executable lookup.** `PathLookup` searches an optional extra folder and then the PATH
  directories. In each directory it probes four candidates in a fixed order. The file system is a
  set of existing paths, and PATH arrives already split and expanded (`path_lookup.dfy`).
- **Command building.** `CreateProcessStartInfo` fails with "file not found" when the lookup fails.
  It hands `.cmd`/`.bat` scripts to `cmd.exe /c <original name>`. Otherwise it launches the
  original name (`start_info.dfy`).
- **Outcome of the runners, over an abstract process.**
  - The buffered runner `RunFrom` folds the output callbacks into two accumulators. Its error text is
    standard error, or everything when standard error is blank (`execution.dfy`).
  - `RunPassThroughFrom` reports only the exit code.
  - The streaming runner wraps standard output in `WrappedStreamReader`. The exit code is checked only
    when a read returns no data. Disposal kills a process that is still running.
  - `MakeEnumerable` turns the reader into a sequence of lines that can be enumerated once
    (`streaming.dfy`).

An abstract process is the sequence of output callbacks it raises, in arrival order, plus its exit
code. For the streaming runner it is instead the chunks its output pipe delivers, whether it has
already exited, and its exit code. `ProcessException` and the other failures are values of
`Failures.Failure`. `FileNotFoundException` becomes `FileNotFound`, `ProcessException(ExitCode,
ErrorText)` becomes `ProcessFailed`, and the second-enumeration `InvalidOperationException` becomes
`InvalidOperation`. A null `ErrorText` is `None`. A null lookup result is `None`.

The same idea is specified as a function and implemented as a method, so the two are separate
members:

- `Lookup` and `PathLookup`;
- `AllOutput`/`ErrorOutput` and `Collect`;
- `OutputLines` and `MakeEnumerable`.

Properties are stated about the function and connected to the method by the method's `ensures`.

The error callback appends `'\n'` to every standard-error line (`ProcessUtils.cs:168-169`), so a
process that writes `bad input` to standard error fails with the error text `bad input\n`
(`Execution.BufferedFailureExample`).

## Model

| member | source | states |
|---|---|---|
| CommandLine.RenderValue | Shaman.ProcessUtils/ProcessUtils.cs:82-84 | a plain value renders unchanged exactly when it is non-empty and every character is a letter, a digit or one of `\ \| / . : -`; otherwise it renders as one pair of quotes around the unchanged value |
| CommandLine.ContainsSpecialCharacters | Shaman.ProcessUtils/ProcessUtils.cs:45-48 | a value has a special character exactly when not every character is a letter, a digit or one of `\ \| / . : -`; the empty value has none |
| CommandLine.SpecialCharactersConcat | Shaman.ProcessUtils/ProcessUtils.cs:45-48 | the test is per character: two values joined have a special character exactly when one of them has |
| CommandLine.Quote | Shaman.ProcessUtils/ProcessUtils.cs:83 | quoting adds exactly two characters, a `"` at each end, and leaves the inside unescaped |
| CommandLine.Render | Shaman.ProcessUtils/ProcessUtils.cs:78-84 | a raw argument renders verbatim; a plain one as RenderValue; a named one as its name followed by its value, quoted only when the value has a special character, so an empty named value gives just the name while an empty plain value gives `""` |
| CommandLine.GetArguments | Shaman.ProcessUtils/ProcessUtils.cs:76-86 | no arguments give the empty string; otherwise the first argument's token, then, when there are more, one space and the remaining tokens joined with single spaces |
| CommandLine.GetArgumentsPrepend | Shaman.ProcessUtils/ProcessUtils.cs:76-86 | the argument string of a list is the first token, then one space and the rest's argument string when there is a rest |
| CommandLine.GetCommandLine | Shaman.ProcessUtils/ProcessUtils.cs:88-91 | the command line is `"`, the file, `"`, one space, then the argument string; with no arguments it ends in that space |
| CommandLine.SplitJoin | Shaman.ProcessUtils/ProcessUtils.cs:78 | joining space-free tokens with single spaces can be undone by splitting at spaces |
| CommandLine.SafeArgumentsRoundTrip | Shaman.ProcessUtils/ProcessUtils.cs:76-86 | a non-empty list of whitelisted plain values is recovered from its argument string by splitting at spaces |
| CommandLine.UnquoteRenderValue | Shaman.ProcessUtils/ProcessUtils.cs:82-84 | removing one enclosing pair of quotes from a plain value's token gives the value back, so the rendering of a single value is injective |
| CommandLine.QuoteCollision | Shaman.ProcessUtils/ProcessUtils.cs:83 | because inner quotes are not escaped, for any two values `x` and `y` that both need quoting, the single value `x" "y` yields the same argument string as the two values `x` and `y` |
| PathSearch.ExtensionShape | Shaman.ProcessUtils/ProcessUtils.cs:64 | a non-empty extension is a suffix of the path that starts with `.` and has no later `.`, `\`, `/` or `:` |
| PathSearch.NormalizeDir | Shaman.ProcessUtils/ProcessUtils.cs:60 | a probed directory ends with `\`; a directory already ending with `\` is left as it is, and any other gets exactly one `\` appended |
| PathSearch.PathLookup | Shaman.ProcessUtils/ProcessUtils.cs:50-73 | the loop returns what Lookup specifies: the name itself when it contains `/` or `\` or is `cmd.exe`, otherwise the first hit over the extra folder and then PATH, or None |
| PathSearch.ProbeDir | Shaman.ProcessUtils/ProcessUtils.cs:59-69 | the loop body probes one directory exactly as Probe specifies, whose order and acceptance rule ProbeFirstAccepted states |
| PathSearch.ProbeFirstAccepted | Shaman.ProcessUtils/ProcessUtils.cs:59-69 | within one directory the result is the first accepted candidate in the order name, name.exe, name.cmd, name.bat (the bare name only with a lower-cased `.exe`/`.cmd`/`.bat` extension), and None exactly when none is accepted |
| PathSearch.SearchNone | Shaman.ProcessUtils/ProcessUtils.cs:57-72 | the search yields null exactly when no directory has a hit |
| PathSearch.SearchFirstHit | Shaman.ProcessUtils/ProcessUtils.cs:57-72 | the first directory in search order with a hit decides the result |
| PathSearch.SearchResultShape | Shaman.ProcessUtils/ProcessUtils.cs:61-69 | a search result is an existing file and one of the four candidates of some searched directory |
| PathSearch.ExtraFolderFirst | Shaman.ProcessUtils/ProcessUtils.cs:55 | a hit in the extra folder wins over every PATH directory |
| PathSearch.ExecutableExtensionIff | Shaman.ProcessUtils/ProcessUtils.cs:64-65 | the lower-cased extension is `.exe`, `.cmd` or `.bat` exactly when the path ends in one of them, ignoring case |
| PathSearch.CandidateHasSeparator | Shaman.ProcessUtils/ProcessUtils.cs:60-61 | every candidate contains a `\` |
| PathSearch.LookupIdempotent | Shaman.ProcessUtils/ProcessUtils.cs:52-69 | looking up a lookup result again, with any extra folder, PATH or file set, returns it unchanged |
| StartInfo.CreateProcessStartInfo | Shaman.ProcessUtils/ProcessUtils.cs:28-42 | fails with not-found for the command exactly when the lookup yields null; a resolved `.cmd`/`.bat` (any case) launches `cmd.exe` with `/c`, the original name and the arguments; otherwise the original name with the arguments unchanged; the working directory is copied |
| StartInfo.ScriptArguments | Shaman.ProcessUtils/ProcessUtils.cs:32 | the rewritten argument string is `/c `, the rendered command name, then a space and the original argument string when there are arguments |
| StartInfo.ScriptExample | Shaman.ProcessUtils/ProcessUtils.cs:28-34 | `run` with `C:\tools\run.bat` on PATH resolves to that file, is a script, and becomes `cmd.exe /c run` |
| Execution.Collect | Shaman.ProcessUtils/ProcessUtils.cs:154-171 | the callbacks leave every non-null line plus `\n` in the combined accumulator, and the standard-error lines also in the error accumulator, in arrival order |
| Execution.RunFrom | Shaman.ProcessUtils/ProcessUtils.cs:144-184 | fails with not-found when the lookup fails; returns the combined text on exit code 0; otherwise fails with that exit code and the error text, or with the combined text when the error text is blank |
| Execution.RunPassThroughFrom | Shaman.ProcessUtils/ProcessUtils.cs:188-200 | fails with not-found when the lookup fails; otherwise succeeds exactly on exit code 0, and the failure carries the exit code and a null error text |
| Execution.ErrorsAmongAll | Shaman.ProcessUtils/ProcessUtils.cs:162-170 | every standard-error line is also a line of the combined text |
| Execution.AllOutputLines | Shaman.ProcessUtils/ProcessUtils.cs:154-171 | the combined text splits back into exactly the received lines, with nothing after the last `\n` |
| Execution.FailureTextBlank | Shaman.ProcessUtils/ProcessUtils.cs:178-179 | the reported error text is blank exactly when every line the process wrote is blank |
| Execution.BufferedSuccessExample | Shaman.ProcessUtils/ProcessUtils.cs:182 | a process that prints `hello` returns `hello\n` |
| Execution.BufferedFailureExample | Shaman.ProcessUtils/ProcessUtils.cs:176-180 | a process that writes `bad input` to standard error fails with error text `bad input\n` |
| Text.LinesOfTerminated | Shaman.ProcessUtils/ProcessUtils.cs:158-159 | lines without `\n`, each written with a `\n` after it, read back as exactly those lines and no tail |
| Text.Reassemble | Shaman.ProcessUtils/ProcessUtils.cs:134 | the complete lines of a text, each with its `\n`, followed by the unterminated tail, give the text back |
| Text.BlankTerminated | Shaman.ProcessUtils/ProcessUtils.cs:179 | an accumulator is null-or-whitespace exactly when each of its lines is |
| Streaming.WrappedStreamReader.constructor | Shaman.ProcessUtils/ProcessUtils.cs:257-263 | the wrapper holds the pipe's chunks, the process state and the error text, and nothing is killed or disposed yet |
| Streaming.WrappedStreamReader.Read | Shaman.ProcessUtils/ProcessUtils.cs:280-295 | a read that returns data returns the next bytes of the pipe (at most count) and checks nothing; a read that returns nothing waits for the exit and fails with the exit code and error text when it is nonzero |
| Streaming.WrappedStreamReader.Dispose | Shaman.ProcessUtils/ProcessUtils.cs:297-310 | kills the process only when it has not exited, ignores a refused kill, never fails, and always releases the process |
| Streaming.LineReader.ReadLine | Shaman.ProcessUtils/ProcessUtils.cs:134 | returns the next `\n`-terminated line without touching the exit code; at the end of the data it fails on a nonzero exit code, otherwise returns the unterminated tail or null; either way nothing is left unread, so a failure drops the partial last line and a later call fails again |
| Streaming.LineReader.Fill | Shaman.ProcessUtils/ProcessUtils.cs:134 | the reader's buffer refill keeps the unread text unchanged; it either moves data from the pipe into the buffer without touching the exit state, or meets the end of the data, where the exit check has run and fails on a nonzero exit code |
| Streaming.LineReader.Dispose | Shaman.ProcessUtils/ProcessUtils.cs:130 | disposing the reader disposes the wrapped stream |
| Streaming.PullLines | Shaman.ProcessUtils/ProcessUtils.cs:132-137 | a consumer wanting `limit` lines gets the first `limit` lines of the output; one reading to the end gets all of them, and then the exit code's failure; the process has exited whenever the consumer took more lines than there are complete lines, and its exit state is untouched when it took no more |
| Streaming.MakeEnumerable | Shaman.ProcessUtils/ProcessUtils.cs:126-139 | a second enumeration fails before any reading and changes nothing; a first one sets the flag, yields the output lines (an unterminated last line only after exit code 0), fails at the end on a nonzero exit code, disposes the stream, and kills the process when it stops within the complete lines while the process runs; taking more lines than there are complete lines (the unterminated last line of a successful run included) needed the end-of-data read, so the process has exited and is not killed |
| Streaming.RunFromRaw | Shaman.ProcessUtils/ProcessUtils.cs:93-117 | fails with not-found when the lookup fails; otherwise a fresh reader over everything the pipe will deliver, with the process's exit code and error text |
| Streaming.RunFromRawEnumerable | Shaman.ProcessUtils/ProcessUtils.cs:119-124 | fails with not-found exactly when the lookup fails; otherwise the reader RunFromRaw builds (everything the pipe will deliver, the exit code, the standard-error text, the has-exited state, nothing killed or disposed) together with a fresh, unset single-use flag |
| Streaming.EnumerateRawOutput | Shaman.ProcessUtils/ProcessUtils.cs:119-139 | enumerating RunFromRawEnumerable's lines to the end yields every output line (the unterminated last one only on exit code 0), then fails with the exit code and the standard-error text when it is nonzero; an unresolvable command fails with not-found |
| Streaming.OutputLinesExamples | Shaman.ProcessUtils/ProcessUtils.cs:284-291 | three `\n`-terminated lines followed by exit code 1 are all yielded before the failure; an unterminated third line is lost on exit code 1 and yielded on exit code 0 |

## Left out

- Starting the process, waiting for it and killing it are not modelled. The process is an abstract
  value: callback events, pipe chunks, a has-exited flag and an exit code. `Process.Start` failures
  do not arise.
- The asynchronous callbacks are modelled as a fold over an already-interleaved event sequence,
  which leaves out concurrency. For the streaming runner, standard error is complete before the
  first read.
- Environment access is left out:
  - Reading and expanding `PATH` are replaced by a pre-split `seq<string>`. A missing `PATH`
    variable, which makes the C# throw, is not modelled.
  - `File.Exists` is replaced by membership in a set.
  - `Run` and `RunPassThrough` only supply the `SystemRoot ?? "/"` working directory, so they are
    not modelled.
- `NamedArgument` only calls the `CommandLineNamedArgument` constructor, so it is modelled by the
  `Named` constructor.
- Plain values are strings. `Convert.ToString` on other objects is not modelled.
- The `string.Format` message text of the exceptions is not modelled. Only the exit code and the
  error text are kept.
- `ProcessException(int)`, which leaves `ErrorText` null, is modelled as `ErrorText == None`.
- Text decoding and encodings are not modelled. `StreamReader` is reduced to `ReadLine` over `\n`;
  `\r` and `\r\n` line ends are not modelled.
- The buffer and offset parameters of `Read`, and its byte counts, are modelled as characters.
- A read after disposal is excluded by the precondition.
- `Dispose(false)` (finalizer) is not modelled.
- The `NotSupportedException` members (`Flush`, `Seek`, `SetLength`, `Write`, `Length`,
  `Position`) and the constant `CanRead`/`CanSeek`/`CanWrite` are not modelled.
- The commented-out block at `ProcessUtils.cs:16-25` is not modelled.
- `PathSearch.NormalizeDir` models the culture-sensitive `EndsWith("\\")` of `ProcessUtils.cs:60` as an
  ordinal suffix test, so a PATH entry whose trailing `\` is followed by characters the current culture
  ignores (U+00AD, U+200D) gets a second `\` in the model but not in C#.
- `Text.IsLetterOrDigit` is exact only up to U+00FF. Above that it treats every character as
  special, where `char.IsLetterOrDigit` follows the Unicode categories.
- `Text.ToLower` lowers ASCII letters only. That is exact for the comparisons made, because no
  other character lower-cases to a letter of `.exe`, `.cmd` or `.bat`.
- `Streaming.MakeEnumerable` models the consumer as "take `limit` lines, then dispose". A consumer
  that never calls `MoveNext` is the `Some(0)` case, which neither sets the flag nor disposes the
  reader, as the C# iterator only runs its body on the first `MoveNext`. Consumers that stop for
  other reasons are not modelled.
- `Streaming.WrappedStreamReader.constructor` assumes that the pipe never delivers an empty chunk
  before its end, so a read that returns no data means the end of the output.
