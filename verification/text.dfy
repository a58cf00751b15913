/** Character classes and line handling shared by the argument renderer and the output readers. */
module Text {

  /**
   * char.IsLetterOrDigit, exact for the code points U+0000..U+00FF (Basic Latin and
   * Latin-1 Supplement); every character above U+00FF counts as neither.
   */
  predicate IsLetterOrDigit(c: char) {
    || ('a' <= c <= 'z') || ('A' <= c <= 'Z') || ('0' <= c <= '9')
    || c == '\U{AA}' || c == '\U{B5}' || c == '\U{BA}'
    || ('\U{C0}' <= c <= '\U{D6}') || ('\U{D8}' <= c <= '\U{F6}') || ('\U{F8}' <= c <= '\U{FF}')
  }

  /** char.IsWhiteSpace: the separators of categories Zs, Zl, Zp and the controls U+0009..U+000D, U+0085. */
  predicate IsWhiteSpace(c: char) {
    || ('\t' <= c <= '\r') || c == ' ' || c == '\U{85}' || c == '\U{A0}' || c == '\U{1680}'
    || ('\U{2000}' <= c <= '\U{200A}') || c == '\U{2028}' || c == '\U{2029}'
    || c == '\U{202F}' || c == '\U{205F}' || c == '\U{3000}'
  }

  /** string.IsNullOrWhiteSpace of a non-null string. */
  predicate IsNullOrWhiteSpace(s: string) {
    forall i :: 0 <= i < |s| ==> IsWhiteSpace(s[i])
  }

  /** ASCII lower-casing; the only comparisons made after lowering are against ASCII suffixes. */
  function ToLowerChar(c: char): char {
    if 'A' <= c <= 'Z' then (c as int + 32) as char else c
  }

  function ToLower(s: string): (r: string)
    ensures |r| == |s|
    ensures forall i :: 0 <= i < |s| ==> r[i] == ToLowerChar(s[i])
  {
    seq(|s|, i requires 0 <= i < |s| => ToLowerChar(s[i]))
  }

  predicate EndsWith(s: string, suffix: string) {
    |suffix| <= |s| && s[|s| - |suffix|..] == suffix
  }

  /** The string ends with the suffix when both are compared with letter case ignored. */
  predicate EndsWithIgnoreCase(s: string, suffix: string) {
    |suffix| <= |s| && ToLower(s[|s| - |suffix|..]) == ToLower(suffix)
  }

  /**
   * The text an accumulator holds after each line has been written to it followed by '\n', in order.
   */
  function Terminated(lines: seq<string>): string {
    if lines == [] then "" else Terminated(lines[..|lines| - 1]) + lines[|lines| - 1] + "\n"
  }

  lemma TerminatedSnoc(lines: seq<string>, line: string)
    ensures Terminated(lines + [line]) == Terminated(lines) + line + "\n"
  {
    assert (lines + [line])[..|lines|] == lines;
  }

  predicate NoNewline(s: string) {
    forall i :: 0 <= i < |s| ==> s[i] != '\n'
  }

  /** Index of the first '\n' in s at or after j, or |s| when there is none. */
  function FirstNewlineFrom(s: string, j: nat): (i: nat)
    requires j <= |s|
    ensures j <= i <= |s|
    ensures i < |s| ==> s[i] == '\n'
    ensures forall k :: j <= k < i ==> s[k] != '\n'
    decreases |s| - j
  {
    if j == |s| || s[j] == '\n' then j else FirstNewlineFrom(s, j + 1)
  }

  /** Index of the first '\n' in s, or |s| when there is none. */
  function FirstNewline(s: string): (i: nat)
    ensures i <= |s|
    ensures i < |s| ==> s[i] == '\n'
    ensures forall k :: 0 <= k < i ==> s[k] != '\n'
  {
    FirstNewlineFrom(s, 0)
  }

  /** The first '\n' is the only index with a '\n' there (or the end) and none before it. */
  lemma FirstNewlineIs(s: string, i: nat)
    requires i <= |s| && (i < |s| ==> s[i] == '\n')
    requires forall k :: 0 <= k < i ==> s[k] != '\n'
    ensures FirstNewline(s) == i
  {
  }

  /** The '\n'-terminated lines of s, without their terminators. */
  function CompleteLines(s: string): (ls: seq<string>)
    decreases |s|
  {
    var i := FirstNewline(s);
    if i == |s| then [] else [s[..i]] + CompleteLines(s[i + 1..])
  }

  /** What follows the last '\n' of s: an unterminated last line, or "". */
  function Tail(s: string): (t: string)
    decreases |s|
  {
    var i := FirstNewline(s);
    if i == |s| then s else Tail(s[i + 1..])
  }

  lemma {:induction false} TerminatedCons(line: string, lines: seq<string>)
    ensures Terminated([line] + lines) == line + "\n" + Terminated(lines)
    decreases |lines|
  {
    if lines == [] {
      assert [line] + lines == [line];
      assert [line][..0] == [];
    } else {
      var init := lines[..|lines| - 1];
      var last := lines[|lines| - 1];
      assert ([line] + lines)[..|lines|] == [line] + init;
      TerminatedCons(line, init);
    }
  }

  /** Splitting a Terminated text back into lines gives the lines written, and nothing is left over. */
  lemma {:induction false} LinesOfTerminated(lines: seq<string>)
    requires forall k :: 0 <= k < |lines| ==> NoNewline(lines[k])
    ensures CompleteLines(Terminated(lines)) == lines
    ensures Tail(Terminated(lines)) == ""
    decreases |lines|
  {
    if lines != [] {
      var rest := lines[1..];
      assert lines == [lines[0]] + rest;
      TerminatedCons(lines[0], rest);
      LinesOfTerminated(rest);
      SplitFirstLine(lines[0], Terminated(rest));
    }
  }

  lemma SplitFirstLine(line: string, rest: string)
    requires NoNewline(line)
    ensures CompleteLines(line + "\n" + rest) == [line] + CompleteLines(rest)
    ensures Tail(line + "\n" + rest) == Tail(rest)
  {
    var s := line + "\n" + rest;
    FirstNewlineIs(s, |line|);
    assert s[..|line|] == line;
    assert s[|line| + 1..] == rest;
  }

  /** The complete lines, each with its terminator, followed by the tail, give back the text. */
  lemma {:induction false} Reassemble(s: string)
    ensures Terminated(CompleteLines(s)) + Tail(s) == s
    decreases |s|
  {
    var i := FirstNewline(s);
    if i < |s| {
      var line, rest := s[..i], s[i + 1..];
      Reassemble(rest);
      LinesStep(s);
      ConsLine(line, rest, CompleteLines(rest), Tail(rest));
      assert s == line + "\n" + rest by {
        assert s == s[..i] + [s[i]] + s[i + 1..];
      }
    }
  }

  /** One '\n'-terminated line at the front of a text: its first complete line. */
  lemma LinesStep(s: string)
    requires FirstNewline(s) < |s|
    ensures CompleteLines(s) == [s[..FirstNewline(s)]] + CompleteLines(s[FirstNewline(s) + 1..])
    ensures Tail(s) == Tail(s[FirstNewline(s) + 1..])
  {
  }

  lemma ConsLine(line: string, rest: string, lines: seq<string>, tail: string)
    requires Terminated(lines) + tail == rest
    ensures Terminated([line] + lines) + tail == line + "\n" + rest
  {
    TerminatedCons(line, lines);
  }

  /** A Terminated text is blank exactly when every line in it is blank ('\n' itself is white space). */
  lemma {:induction false} BlankTerminated(lines: seq<string>)
    ensures IsNullOrWhiteSpace(Terminated(lines)) <==>
            forall k :: 0 <= k < |lines| ==> IsNullOrWhiteSpace(lines[k])
    decreases |lines|
  {
    if lines != [] {
      var init := lines[..|lines| - 1];
      var last := lines[|lines| - 1];
      BlankTerminated(init);
      var t := Terminated(init);
      assert Terminated(lines) == t + last + "\n";
      if IsNullOrWhiteSpace(Terminated(lines)) {
        forall k | 0 <= k < |lines| ensures IsNullOrWhiteSpace(lines[k]) {
          if k < |lines| - 1 {
            forall j | 0 <= j < |t| ensures IsWhiteSpace(t[j]) {
              assert Terminated(lines)[j] == t[j];
            }
            assert lines[k] == init[k];
          } else {
            forall j | 0 <= j < |last| ensures IsWhiteSpace(last[j]) {
              assert Terminated(lines)[|t| + j] == last[j];
            }
          }
        }
      }
      if forall k :: 0 <= k < |lines| ==> IsNullOrWhiteSpace(lines[k]) {
        assert forall k :: 0 <= k < |init| ==> init[k] == lines[k];
        assert IsNullOrWhiteSpace(last);
      }
    }
  }
}
