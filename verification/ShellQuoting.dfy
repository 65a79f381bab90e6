/** Quoting of command arguments for a POSIX shell, against word splitting and quote removal of the
    shell (XCU sections 2.2.1 to 2.2.3 and 2.3 of POSIX.1-2017). */
module ShellQuoting {
  import opened Wrappers
  import opened Strings

  // ---------------------------------------------------------------------------------------
  // Quoting

  const QUOTED_QUOTE := "'\"'\"'"

  function QuoteArg(value: string): string {
    "'" + ReplaceAll(value, "'", QUOTED_QUOTE) + "'"
  }

  function Joined(words: seq<string>): string {
    if words == [] then "" else if |words| == 1 then words[0] else words[0] + " " + Joined(words[1..])
  }

  function Quoted(args: seq<string>): seq<string> {
    seq(|args|, i requires 0 <= i < |args| => QuoteArg(args[i]))
  }

  /** The command line of an argument list. */
  method ShellCommand(args: seq<string>) returns (line: string)
    ensures line == Joined(Quoted(args))
    ensures Words(line) == Some(args)
  {
    var quoted: seq<string> := [];
    for i := 0 to |args|
      invariant quoted == Quoted(args[..i])
    {
      quoted := quoted + [QuoteArg(args[i])];
    }
    assert args[..|args|] == args;
    line := Joined(quoted);
    CommandLineRoundTrip(args);
  }

  // ---------------------------------------------------------------------------------------
  // The shell's reading of a line

  predicate IsSeparator(c: char) {
    c == ' ' || c == '\t'
  }

  /** Characters that mean something else than themselves outside quotes: operators, expansions,
      patterns and comments. A line that uses them is not a plain list of words. */
  predicate IsSpecial(c: char) {
    c in "|&;<>()$`*?[#~=%!{}\n"
  }

  function Start(word: Option<string>): string {
    if word.Some? then word.value else ""
  }

  function Finish(word: Option<string>): seq<string> {
    if word.Some? then [word.value] else []
  }

  /** The words of a line from here on, given the word read so far. */
  function Plain(s: string, word: Option<string>): Option<seq<string>>
    decreases |s|
  {
    if s == "" then Some(Finish(word))
    else if IsSeparator(s[0]) then
      match Plain(s[1..], None)
      case None => None
      case Some(words) => Some(Finish(word) + words)
    else if s[0] == '\'' then InSingle(s[1..], Start(word))
    else if s[0] == '"' then InDouble(s[1..], Start(word))
    else if s[0] == '\\' then
      if |s| == 1 then None
      else if s[1] == '\n' then Plain(s[2..], word)
      else Plain(s[2..], Some(Start(word) + [s[1]]))
    else if IsSpecial(s[0]) then None
    else Plain(s[1..], Some(Start(word) + [s[0]]))
  }

  /** Inside single quotes everything up to the next one stands for itself. */
  function InSingle(s: string, word: string): Option<seq<string>>
    decreases |s|
  {
    if s == "" then None
    else if s[0] == '\'' then Plain(s[1..], Some(word))
    else InSingle(s[1..], word + [s[0]])
  }

  /** Inside double quotes expansions remain, and a backslash quotes only a few characters. */
  function InDouble(s: string, word: string): Option<seq<string>>
    decreases |s|
  {
    if s == "" || s[0] == '$' || s[0] == '`' then None
    else if s[0] == '"' then Plain(s[1..], Some(word))
    else if s[0] == '\\' && |s| > 1 && s[1] in "$`\"\\\n" then InDouble(s[2..], if s[1] == '\n' then word else word + [s[1]])
    else InDouble(s[1..], word + [s[0]])
  }

  function Words(line: string): Option<seq<string>> {
    Plain(line, None)
  }

  // ---------------------------------------------------------------------------------------
  // The round trip

  /** A quoted quote in the middle of a single-quoted text. */
  lemma QuotedQuoteRead(word: string, rest: string)
    ensures InSingle(QUOTED_QUOTE + rest, word) == InSingle(rest, word + "'")
  {
    var s := QUOTED_QUOTE + rest;
    var s1, s2, s3, s4 := "\"'\"'" + rest, "'\"'" + rest, "\"'" + rest, "'" + rest;
    assert s[1..] == s1 && s1[1..] == s2 && s2[1..] == s3 && s3[1..] == s4 && s4[1..] == rest;
    assert InSingle(s, word) == Plain(s1, Some(word));
    assert Plain(s1, Some(word)) == InDouble(s2, word);
    assert InDouble(s2, word) == InDouble(s3, word + "'");
    assert InDouble(s3, word + "'") == Plain(s4, Some(word + "'"));
  }

  lemma {:induction false} BodyRead(value: string, word: string, rest: string)
    ensures InSingle(ReplaceAll(value, "'", QUOTED_QUOTE) + "'" + rest, word) == Plain(rest, Some(word + value))
  {
    var tail := ReplaceAll(if value == "" then "" else value[1..], "'", QUOTED_QUOTE) + "'" + rest;
    if value == "" {
      assert tail[1..] == rest;
      assert word + value == word;
    } else if value[0] == '\'' {
      assert value[..1] == "'";
      assert ReplaceAll(value, "'", QUOTED_QUOTE) + "'" + rest == QUOTED_QUOTE + tail;
      QuotedQuoteRead(word, tail);
      BodyRead(value[1..], word + "'", rest);
      assert word + "'" + value[1..] == word + value;
    } else {
      var s := ReplaceAll(value, "'", QUOTED_QUOTE) + "'" + rest;
      assert value[..1][0] == value[0];
      assert s == [value[0]] + tail;
      assert s[1..] == tail;
      BodyRead(value[1..], word + [value[0]], rest);
      assert word + [value[0]] + value[1..] == word + value;
    }
  }

  lemma ArgumentRead(value: string, rest: string)
    ensures Plain(QuoteArg(value) + rest, None) == Plain(rest, Some(value))
  {
    var s := QuoteArg(value) + rest;
    assert s[1..] == ReplaceAll(value, "'", QUOTED_QUOTE) + "'" + rest;
    BodyRead(value, "", rest);
    assert "" + value == value;
  }

  /** The shell reads back exactly the arguments that were quoted and joined. */
  lemma {:induction false} CommandLineRoundTrip(args: seq<string>)
    ensures Words(Joined(Quoted(args))) == Some(args)
  {
    if |args| == 1 {
      ArgumentRead(args[0], "");
      assert QuoteArg(args[0]) + "" == QuoteArg(args[0]);
      assert args == [args[0]];
    } else if |args| > 1 {
      var rest := Joined(Quoted(args[1..]));
      assert Quoted(args)[1..] == Quoted(args[1..]);
      assert Joined(Quoted(args)) == QuoteArg(args[0]) + (" " + rest);
      ArgumentRead(args[0], " " + rest);
      assert (" " + rest)[1..] == rest;
      CommandLineRoundTrip(args[1..]);
      assert args == [args[0]] + args[1..];
    }
  }

  /** Different argument lists have different command lines. */
  lemma CommandLineInjective(a: seq<string>, b: seq<string>)
    requires Joined(Quoted(a)) == Joined(Quoted(b))
    ensures a == b
  {
    CommandLineRoundTrip(a);
    CommandLineRoundTrip(b);
  }
}
