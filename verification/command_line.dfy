/**
 * Rendering of command-line arguments: the quoting whitelist, the three argument kinds,
 * and the joining of rendered tokens into one argument string.
 */
module CommandLine {
  import opened Text

  /** The whitelist: characters that never force a value into quotes. */
  predicate IsSafeChar(c: char) {
    IsLetterOrDigit(c) || c == '\\' || c == '|' || c == '/' || c == '.' || c == ':' || c == '-'
  }

  /** ContainsSpecialCharacters: some character of s lies outside the whitelist; the empty string has none. */
  predicate ContainsSpecialCharacters(s: string)
    ensures ContainsSpecialCharacters(s) <==> !forall i :: 0 <= i < |s| ==> IsSafeChar(s[i])
    ensures ContainsSpecialCharacters(s) ==> s != ""
  {
    exists i :: 0 <= i < |s| && !IsSafeChar(s[i])
  }

  /** The test is per character: a concatenation has a special character exactly when one of its parts has. */
  lemma SpecialCharactersConcat(a: string, b: string)
    ensures ContainsSpecialCharacters(a + b) <==> ContainsSpecialCharacters(a) || ContainsSpecialCharacters(b)
  {
    if ContainsSpecialCharacters(a + b) {
      var i :| 0 <= i < |a + b| && !IsSafeChar((a + b)[i]);
      if i < |a| {
        assert !IsSafeChar(a[i]);
      } else {
        assert !IsSafeChar(b[i - |a|]);
      }
    }
    if ContainsSpecialCharacters(a) {
      var i :| 0 <= i < |a| && !IsSafeChar(a[i]);
      assert (a + b)[i] == a[i];
    }
    if ContainsSpecialCharacters(b) {
      var i :| 0 <= i < |b| && !IsSafeChar(b[i]);
      assert (a + b)[|a| + i] == b[i];
    }
  }

  /** Wrapping in exactly one pair of double quotes, with nothing inside escaped. */
  function Quote(s: string): (r: string)
    ensures |r| == |s| + 2
    ensures r[0] == '"' && r[|r| - 1] == '"'
    ensures r[1..|r| - 1] == s
  {
    "\"" + s + "\""
  }

  /** One command-line argument: a value, a verbatim literal, or a name glued to a value. */
  datatype Arg =
    | Plain(value: string)                  // any other object, converted with Convert.ToString
    | Raw(text: string)                     // RawCommandLineArgument
    | Named(name: string, argValue: string) // CommandLineNamedArgument

  /** How GetArguments renders a plain value: bare when non-empty and whitelisted, quoted otherwise. */
  function RenderValue(s: string): (r: string)
    ensures r == s <==> s != "" && forall i :: 0 <= i < |s| ==> IsSafeChar(s[i])
    ensures r != s ==> r == Quote(s)
  {
    if ContainsSpecialCharacters(s) || s == "" then Quote(s) else s
  }

  /** The token an argument contributes to the argument string (the ToString overrides and GetArguments' lambda). */
  function Render(a: Arg): (r: string)
    ensures a.Raw? ==> r == a.text
    ensures a.Plain? ==> r == RenderValue(a.value)
    ensures a.Named? ==> |a.name| <= |r| && r[..|a.name|] == a.name
    ensures a.Named? ==> (r[|a.name|..] == a.argValue <==> !ContainsSpecialCharacters(a.argValue))
    ensures a.Named? && r[|a.name|..] != a.argValue ==> r[|a.name|..] == Quote(a.argValue)
    ensures a.Named? && a.argValue == "" ==> r == a.name
    ensures a.Plain? && a.value == "" ==> r == "\"\""
  {
    match a
    case Plain(v) => RenderValue(v)
    case Raw(t) => t
    case Named(n, v) => n + (if ContainsSpecialCharacters(v) then Quote(v) else v)
  }

  /** The tokens one after another, with a single space between neighbours. */
  function Join(tokens: seq<string>): string
    decreases |tokens|
  {
    if tokens == [] then ""
    else if |tokens| == 1 then tokens[0]
    else tokens[0] + " " + Join(tokens[1..])
  }

  /** The rendered tokens of the arguments, in order. */
  function Tokens(args: seq<Arg>): seq<string> {
    seq(|args|, i requires 0 <= i < |args| => Render(args[i]))
  }

  /**
   * GetArguments: every argument rendered, joined with single spaces. No arguments give the empty
   * string; otherwise the first token comes first, then one space and the joined tokens of the rest.
   */
  function GetArguments(args: seq<Arg>): (r: string)
    ensures args == [] ==> r == ""
    ensures args != [] ==> r == Render(args[0]) + (if |args| == 1 then "" else " " + Join(Tokens(args[1..])))
  {
    assert args != [] ==> Tokens(args)[1..] == Tokens(args[1..]);
    Join(Tokens(args))
  }

  /** An argument put in front contributes its own token and one separating space. */
  lemma GetArgumentsPrepend(a: Arg, args: seq<Arg>)
    ensures GetArguments([a] + args) == Render(a) + (if args == [] then "" else " " + GetArguments(args))
  {
    assert ([a] + args)[1..] == args;
  }

  /** GetCommandLine: the file in quotes, one space, then the arguments (the space stays when there are none). */
  function GetCommandLine(file: string, args: seq<Arg>): (r: string)
    ensures |r| == |file| + 3 + |GetArguments(args)|
    ensures r[0] == '"' && r[1..|file| + 1] == file && r[|file| + 1] == '"' && r[|file| + 2] == ' '
    ensures r[|file| + 3..] == GetArguments(args)
    ensures args == [] ==> r == Quote(file) + " "
  {
    Quote(file) + " " + GetArguments(args)
  }

  /** Splitting at every space, keeping empty pieces: the reading of a command line that Join writes. */
  function Split(s: string): (r: seq<string>)
    ensures |r| >= 1
    decreases |s|
  {
    if s == [] then [""]
    else if s[0] == ' ' then [""] + Split(s[1..])
    else var rest := Split(s[1..]); [[s[0]] + rest[0]] + rest[1..]
  }

  predicate NoSpace(s: string) {
    forall i :: 0 <= i < |s| ==> s[i] != ' '
  }

  lemma {:induction false} SplitToken(t: string, rest: string)
    requires NoSpace(t)
    ensures Split(t) == [t]
    ensures Split(t + " " + rest) == [t] + Split(rest)
    decreases |t|
  {
    if t == [] {
      assert t + " " + rest == [' '] + rest;
    } else {
      SplitToken(t[1..], rest);
      assert (t + " " + rest)[1..] == t[1..] + " " + rest;
      assert [t[0]] + t[1..] == t;
    }
  }

  /** Joined tokens that contain no space split back into exactly those tokens. */
  lemma {:induction false} SplitJoin(tokens: seq<string>)
    requires tokens != []
    requires forall k :: 0 <= k < |tokens| ==> NoSpace(tokens[k])
    ensures Split(Join(tokens)) == tokens
    decreases |tokens|
  {
    if |tokens| == 1 {
      SplitToken(tokens[0], "");
    } else {
      SplitJoin(tokens[1..]);
      SplitToken(tokens[0], Join(tokens[1..]));
      assert tokens == [tokens[0]] + tokens[1..];
    }
  }

  predicate IsSafeValue(s: string) {
    s != "" && forall i :: 0 <= i < |s| ==> IsSafeChar(s[i])
  }

  /** Whitelisted plain values pass through the argument string unquoted and can be read back one by one. */
  lemma SafeArgumentsRoundTrip(values: seq<string>)
    requires values != []
    requires forall k :: 0 <= k < |values| ==> IsSafeValue(values[k])
    ensures Split(GetArguments(seq(|values|, i requires 0 <= i < |values| => Plain(values[i])))) == values
  {
    var args := seq(|values|, i requires 0 <= i < |values| => Plain(values[i]));
    var tokens := seq(|args|, i requires 0 <= i < |args| => Render(args[i]));
    assert tokens == values;
    forall k | 0 <= k < |values| ensures NoSpace(values[k]) {
      assert !IsSafeChar(' ');
    }
    SplitJoin(values);
  }

  /** Removes one enclosing pair of double quotes, if there is one. */
  function Unquote(t: string): string {
    if |t| >= 2 && t[0] == '"' && t[|t| - 1] == '"' then t[1..|t| - 1] else t
  }

  /** A single plain value is always recovered from its token: the rendering of one value is injective. */
  lemma UnquoteRenderValue(s: string)
    ensures Unquote(RenderValue(s)) == s
  {
    if RenderValue(s) == s && |s| >= 2 {
      assert !IsSafeChar('"');
      assert s[0] != '"';
    }
  }

  /**
   * Inner quotes are not escaped, so two different argument lists can produce the same
   * argument string: whenever x and y both need quotes, the single value `x" "y` renders
   * exactly like the two values x and y (for instance `x!" "y!` against `x!` and `y!`).
   */
  lemma QuoteCollision(x: string, y: string)
    requires ContainsSpecialCharacters(x) && ContainsSpecialCharacters(y)
    ensures GetArguments([Plain(x + "\" \"" + y)]) == GetArguments([Plain(x), Plain(y)])
  {
    var v := x + "\" \"" + y;
    assert v[|x|] == '"' && !IsSafeChar('"');
    GetArgumentsSingle(Plain(v));
    GetArgumentsPair(Plain(x), Plain(y));
    QuoteJoined(x, y);
  }

  lemma QuoteJoined(x: string, y: string)
    ensures Quote(x + "\" \"" + y) == Quote(x) + " " + Quote(y)
  {
    var q := "\"";
    assert "\" \"" == q + " " + q;
    calc {
      Quote(x + "\" \"" + y);
      q + (x + (q + " " + q) + y) + q;
      (q + x + q) + " " + (q + y + q);
    }
  }

  lemma GetArgumentsSingle(a: Arg)
    ensures GetArguments([a]) == Render(a)
  {
    var tokens := seq(1, i requires 0 <= i < 1 => Render([a][i]));
    assert tokens == [Render(a)];
  }

  lemma GetArgumentsPair(a: Arg, b: Arg)
    ensures GetArguments([a, b]) == Render(a) + " " + Render(b)
  {
    var tokens := seq(2, i requires 0 <= i < 2 => Render([a, b][i]));
    assert tokens == [Render(a), Render(b)];
    assert tokens[1..] == [Render(b)];
    assert Join(tokens[1..]) == Render(b);
  }
}
