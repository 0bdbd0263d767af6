/** The command tokenizer (parseCommand in pkg/executor/config_builder.go). */
module ParseCommand {

  datatype Quote = Plain | Single | Double

  // ---------------------------------------------------------------- specification

  /** Does the character switch quoting in this mode, rather than stand for itself? */
  predicate Toggles(c: char, q: Quote) {
    (c == '\'' && q != Double) || (c == '"' && q != Single)
  }

  function Toggled(c: char, q: Quote): Quote {
    if q != Plain then Plain else if c == '\'' then Single else Double
  }

  predicate Separates(c: char, q: Quote) {
    c == ' ' && q == Plain
  }

  function AsArgument(word: string): seq<string> {
    if word == "" then [] else [word]
  }

  /** The arguments of what is left of a command, in quote mode `q`, `word` being the
      argument under construction. */
  function Parse(cmd: string, q: Quote, word: string): seq<string> {
    if cmd == "" then AsArgument(word)
    else if Toggles(cmd[0], q) then Parse(cmd[1..], Toggled(cmd[0], q), word)
    else if Separates(cmd[0], q) then AsArgument(word) + Parse(cmd[1..], Plain, "")
    else Parse(cmd[1..], q, word + [cmd[0]])
  }

  function Arguments(cmd: string): seq<string> {
    Parse(cmd, Plain, "")
  }

  /** The quote mode in which a command ends. */
  function EndMode(cmd: string, q: Quote): Quote {
    if cmd == "" then q
    else EndMode(cmd[1..], if Toggles(cmd[0], q) then Toggled(cmd[0], q) else q)
  }

  // ---------------------------------------------------------------- the loop

  function Mode(inSingleQuote: bool, inDoubleQuote: bool): Quote {
    if inSingleQuote then Single else if inDoubleQuote then Double else Plain
  }

  method ParseCommand(cmd: string) returns (args: seq<string>)
    ensures args == Arguments(cmd)
  {
    args := [];
    var current := "";
    var inSingleQuote, inDoubleQuote := false, false;
    for i := 0 to |cmd|
      invariant !(inSingleQuote && inDoubleQuote)
      invariant args + Parse(cmd[i..], Mode(inSingleQuote, inDoubleQuote), current) == Arguments(cmd)
    {
      var ch := cmd[i];
      assert cmd[i..][1..] == cmd[i + 1..];
      if ch == '\'' && !inDoubleQuote {
        inSingleQuote := !inSingleQuote;
      } else if ch == '"' && !inSingleQuote {
        inDoubleQuote := !inDoubleQuote;
      } else if ch == ' ' && !inSingleQuote && !inDoubleQuote {
        if |current| > 0 {
          args := args + [current];
          current := "";
        }
      } else {
        current := current + [ch];
      }
    }
    if |current| > 0 {
      args := args + [current];
    }
  }

  // ---------------------------------------------------------------- what the arguments are

  function Concat(args: seq<string>): string {
    if args == [] then "" else args[0] + Concat(args[1..])
  }

  /** A command without its quoting characters and separators. */
  function Bare(cmd: string, q: Quote): string {
    if cmd == "" then ""
    else if Toggles(cmd[0], q) then Bare(cmd[1..], Toggled(cmd[0], q))
    else if Separates(cmd[0], q) then Bare(cmd[1..], q)
    else [cmd[0]] + Bare(cmd[1..], q)
  }

  lemma {:induction false} ConcatAppend(a: seq<string>, b: seq<string>)
    ensures Concat(a + b) == Concat(a) + Concat(b)
  {
    if a == [] {
      assert a + b == b;
    } else {
      assert (a + b)[1..] == a[1..] + b;
      ConcatAppend(a[1..], b);
    }
  }

  lemma {:induction false} ParseContent(cmd: string, q: Quote, word: string)
    ensures Concat(Parse(cmd, q, word)) == word + Bare(cmd, q)
    decreases |cmd|
  {
    assert Concat(AsArgument(word)) == word;
    if cmd != "" {
      if Toggles(cmd[0], q) {
        ParseContent(cmd[1..], Toggled(cmd[0], q), word);
      } else if Separates(cmd[0], q) {
        ParseContent(cmd[1..], Plain, "");
        ConcatAppend(AsArgument(word), Parse(cmd[1..], Plain, ""));
      } else {
        ParseContent(cmd[1..], q, word + [cmd[0]]);
        assert word + [cmd[0]] + Bare(cmd[1..], q) == word + Bare(cmd, q);
      }
    }
  }

  lemma {:induction false} NoEmptyArgument(cmd: string, q: Quote, word: string)
    ensures "" !in Parse(cmd, q, word)
    decreases |cmd|
  {
    if cmd != "" {
      if Toggles(cmd[0], q) {
        NoEmptyArgument(cmd[1..], Toggled(cmd[0], q), word);
      } else if Separates(cmd[0], q) {
        NoEmptyArgument(cmd[1..], Plain, "");
      } else {
        NoEmptyArgument(cmd[1..], q, word + [cmd[0]]);
      }
    }
  }

  /** No argument is empty, and together they are the command's characters in order, less
      exactly the quoting characters and the unquoted spaces. */
  lemma ArgumentsContent(cmd: string)
    ensures Concat(Arguments(cmd)) == Bare(cmd, Plain)
    ensures "" !in Arguments(cmd)
  {
    ParseContent(cmd, Plain, "");
    NoEmptyArgument(cmd, Plain, "");
  }

  /** Where the arguments of a continued command come from: the second part is parsed in
      the mode, and with the word, that the first part leaves behind. */
  lemma {:induction false} ParseSplits(a: string, b: string, q: Quote, word: string)
    requires EndMode(a, q) == Plain
    ensures Parse(a + " " + b, q, word) == Parse(a, q, word) + Arguments(b)
    decreases |a|
  {
    if a == "" {
      assert a + " " + b == " " + b;
      assert (" " + b)[1..] == b;
    } else {
      assert (a + " " + b)[1..] == a[1..] + " " + b;
      if Toggles(a[0], q) {
        ParseSplits(a[1..], b, Toggled(a[0], q), word);
      } else if Separates(a[0], q) {
        ParseSplits(a[1..], b, Plain, "");
      } else {
        ParseSplits(a[1..], b, q, word + [a[0]]);
      }
    }
  }

  lemma ArgumentsSplit(a: string, b: string)
    requires EndMode(a, Plain) == Plain
    ensures Arguments(a + " " + b) == Arguments(a) + Arguments(b)
  {
    ParseSplits(a, b, Plain, "");
  }

  lemma {:induction false} BareConcat(a: string, b: string, q: Quote)
    ensures Bare(a + b, q) == Bare(a, q) + Bare(b, EndMode(a, q))
  {
    if a == "" {
      assert a + b == b;
    } else {
      assert (a + b)[1..] == a[1..] + b;
      BareConcat(a[1..], b, if Toggles(a[0], q) then Toggled(a[0], q) else q);
    }
  }

  /** MAIN RESULT.  A space separates what follows from a first part, whatever follows, if and
      only if the first part leaves no quote open. */
  lemma SpaceSeparatesIff(a: string)
    ensures (forall b :: Arguments(a + " " + b) == Arguments(a) + Arguments(b)) <==> EndMode(a, Plain) == Plain
  {
    if EndMode(a, Plain) == Plain {
      forall b ensures Arguments(a + " " + b) == Arguments(a) + Arguments(b) {
        ArgumentsSplit(a, b);
      }
    } else {
      ArgumentsContent(a + " " + "");
      ArgumentsContent(a);
      assert a + " " + "" == a + " " && Arguments("") == [];
      BareConcat(a, " ", Plain);
      assert Arguments(a) + [] == Arguments(a);
      assert Arguments(a + " " + "") != Arguments(a) + Arguments("");
    }
  }

  /** One character read. */
  lemma ReadOne(c: char, rest: string, q: Quote, word: string)
    ensures Toggles(c, q) ==> Parse([c] + rest, q, word) == Parse(rest, Toggled(c, q), word)
    ensures !Toggles(c, q) && !Separates(c, q) ==> Parse([c] + rest, q, word) == Parse(rest, q, word + [c])
    ensures EndMode([c] + rest, q) == EndMode(rest, if Toggles(c, q) then Toggled(c, q) else q)
  {
    assert ([c] + rest)[1..] == rest;
  }

  lemma {:induction false} PlainWord(b: string, q: Quote, word: string)
    requires forall k | 0 <= k < |b| :: b[k] !in " '\""
    ensures Parse(b, q, word) == AsArgument(word + b)
  {
    if b == "" {
      assert word + b == word;
    } else {
      assert b[0] !in " '\"";
      assert ' ' in " '\"" && '\'' in " '\"" && '"' in " '\"";
      PlainWord(b[1..], q, word + [b[0]]);
      assert word + [b[0]] + b[1..] == word + b;
    }
  }

  /** The plainest case: a lone quote takes the space and the word after it into one
      argument. */
  lemma OpenQuoteJoins(c: char, b: string)
    requires c == '\'' || c == '"'
    requires b != "" && forall k | 0 <= k < |b| :: b[k] !in " '\""
    ensures EndMode([c], Plain) != Plain
    ensures Arguments([c] + " " + b) == [" " + b]
    ensures Arguments([c]) + Arguments(b) == [b]
  {
    var q := Toggled(c, Plain);
    assert [c] + " " + b == [c] + (" " + b);
    ReadOne(c, " " + b, Plain, "");
    ReadOne(' ', b, q, "");
    PlainWord(b, q, " ");
    ReadOne(c, "", Plain, "");
    assert [c] + "" == [c];
    PlainWord(b, Plain, "");
    assert "" + b == b && "" + " " == " ";
  }

  // ---------------------------------------------------------------- quoting and back

  /** Shell-style quoting: single quotes around the argument, and each single quote inside
      it closes them, appears between double quotes, and opens them again. */
  function Escape(arg: string): string {
    if arg == "" then ""
    else (if arg[0] == '\'' then "'\"'\"'" else [arg[0]]) + Escape(arg[1..])
  }

  function QuoteArgument(arg: string): string {
    "'" + Escape(arg) + "'"
  }

  /** The quoted arguments, joined by single spaces. */
  function JoinQuoted(args: seq<string>): string {
    if args == [] then ""
    else if |args| == 1 then QuoteArgument(args[0])
    else QuoteArgument(args[0]) + " " + JoinQuoted(args[1..])
  }

  lemma QuotedQuote(rest: string, word: string)
    ensures Parse("'\"'\"'" + rest, Single, word) == Parse(rest, Single, word + "'")
    ensures EndMode("'\"'\"'" + rest, Single) == EndMode(rest, Single)
  {
    var s1, s2, s3, s4 := "'" + rest, "\"'" + rest, "'\"'" + rest, "\"'\"'" + rest;
    assert "'\"'\"'" + rest == ['\''] + s4;
    assert s4 == ['"'] + s3 && s3 == ['\''] + s2 && s2 == ['"'] + s1;
    ReadOne('\'', s4, Single, word);
    ReadOne('"', s3, Plain, word);
    ReadOne('\'', s2, Double, word);
    ReadOne('"', s1, Double, word + "'");
    ReadOne('\'', rest, Plain, word + "'");
  }

  lemma {:induction false} EscapeIsRead(arg: string, rest: string, word: string)
    ensures Parse(Escape(arg) + rest, Single, word) == Parse(rest, Single, word + arg)
    ensures EndMode(Escape(arg) + rest, Single) == EndMode(rest, Single)
    decreases |arg|
  {
    if arg == "" {
      assert Escape(arg) + rest == rest && word + arg == word;
    } else {
      var tail := Escape(arg[1..]) + rest;
      EscapeIsRead(arg[1..], rest, word + [arg[0]]);
      assert word + [arg[0]] + arg[1..] == word + arg;
      if arg[0] == '\'' {
        assert Escape(arg) + rest == "'\"'\"'" + tail;
        QuotedQuote(tail, word);
      } else {
        assert Escape(arg) + rest == [arg[0]] + tail;
        assert ([arg[0]] + tail)[1..] == tail;
      }
    }
  }

  lemma QuotedArgument(arg: string)
    ensures Arguments(QuoteArgument(arg)) == AsArgument(arg)
    ensures EndMode(QuoteArgument(arg), Plain) == Plain
  {
    var s := QuoteArgument(arg);
    assert s[1..] == Escape(arg) + "'";
    EscapeIsRead(arg, "'", "");
    assert "" + arg == arg;
    assert "'"[1..] == "";
  }

  /** MAIN RESULT.  Parsing undoes quoting: any list of non-empty arguments, spaces and both
      kinds of quote included, comes back as it was. */
  lemma {:induction false} ParseUndoesQuoting(args: seq<string>)
    requires "" !in args
    ensures Arguments(JoinQuoted(args)) == args
    decreases |args|
  {
    if args != [] {
      QuotedArgument(args[0]);
      assert args[0] != "";
      if |args| > 1 {
        ParseUndoesQuoting(args[1..]);
        ArgumentsSplit(QuoteArgument(args[0]), JoinQuoted(args[1..]));
      }
      assert args == [args[0]] + args[1..];
    }
  }

  /** Hence the argument lists some command produces are exactly those without an empty
      argument; an empty argument cannot be expressed. */
  lemma ExpressibleArguments(args: seq<string>)
    ensures (exists cmd :: Arguments(cmd) == args) <==> "" !in args
  {
    if "" !in args {
      ParseUndoesQuoting(args);
    }
    forall cmd ensures "" !in Arguments(cmd) {
      ArgumentsContent(cmd);
    }
  }
}
