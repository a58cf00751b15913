/** The errors the process utilities raise, as values. */
module Failures {
  import opened Wrappers

  /**
   * ProcessException: the exit code of the failed process and the captured error text.
   * ErrorText is None where the C# field stays null (the one-argument constructor and the
   * pass-through runner). The human-readable message is not modelled.
   */
  datatype ProcessException = ProcessException(ExitCode: int, ErrorText: Option<string>)

  /** Everything a caller of the utilities can see thrown. */
  datatype Failure =
    | FileNotFound(fileName: string)          // FileNotFoundException from CreateProcessStartInfo
    | ProcessFailed(exception: ProcessException)
    | InvalidOperation                        // a second enumeration of a process's output lines
}
