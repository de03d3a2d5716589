/**
 Quoting for /bin/sh. The reader follows sections 2.2.2 (single quotes) and 2.2.3 (double
 quotes) of the POSIX Shell Command Language for the part a quoted word needs: blanks
 separate words, '&' is an operator, and what else has a meaning of its own is not read.
*/
module ShellQuote {
  import opened Options

  const SINGLE := '\''
  const DOUBLE := '"'
  const NUL: char := 0 as char

  /** strings.ReplaceAll of each single quote by the five characters that stand for it. */
  function Escaped(s: string): string {
    if s == [] then []
    else (if s[0] == SINGLE then [SINGLE, DOUBLE, SINGLE, DOUBLE, SINGLE] else [s[0]]) + Escaped(s[1..])
  }

  function Quote(s: string): string {
    [SINGLE] + Escaped(s) + [SINGLE]
  }

  // ----------------------------------------------------------------- the reader

  datatype Mode = Plain | InSingle | InDouble
  datatype Token = Word(text: string) | Operator(text: string)

  /** Characters that the part of the grammar modelled here does not read outside quotes. */
  predicate Special(c: char) {
    || c == '|' || c == ';' || c == '<' || c == '>' || c == '(' || c == ')' || c == '$' || c == '`' || c == '\\' || c == '*'
    || c == '?' || c == '[' || c == '#' || c == '~' || c == '=' || c == '%' || c == '\n' || c == NUL
  }

  predicate SpecialInDouble(c: char) {
    c == '$' || c == '`' || c == '\\' || c == NUL
  }

  /** The tokens of `s`, with `word` the word begun so far; None where the reader gives up. */
  function Read(s: string, mode: Mode, word: Option<string>): Option<seq<Token>>
    decreases |s|
  {
    if s == [] then
      if mode != Plain then None else Some(if word == None then [] else [Word(word.value)])
    else
      var c, text := s[0], if word == None then [] else word.value;
      match mode
      case InSingle =>
        if c == NUL then None
        else if c == SINGLE then Read(s[1..], Plain, Some(text)) else Read(s[1..], InSingle, Some(text + [c]))
      case InDouble =>
        if SpecialInDouble(c) then None
        else if c == DOUBLE then Read(s[1..], Plain, Some(text)) else Read(s[1..], InDouble, Some(text + [c]))
      case Plain =>
        if c == SINGLE then Read(s[1..], InSingle, Some(text))
        else if c == DOUBLE then Read(s[1..], InDouble, Some(text))
        else if c == ' ' || c == '\t' then After(word, Read(s[1..], Plain, None))
        else if c == '&' then
          if |s| > 1 && s[1] == '&' then After(word, Before(Operator("&&"), Read(s[2..], Plain, None)))
          else After(word, Before(Operator("&"), Read(s[1..], Plain, None)))
        else if Special(c) then None
        else Read(s[1..], Plain, Some(text + [c]))
  }

  function Before(t: Token, rest: Option<seq<Token>>): Option<seq<Token>> {
    if rest == None then None else Some([t] + rest.value)
  }

  function After(word: Option<string>, rest: Option<seq<Token>>): Option<seq<Token>> {
    if word == None then rest else Before(Word(word.value), rest)
  }

  function Tokens(s: string): Option<seq<Token>> {
    Read(s, Plain, None)
  }

  // -------------------------------------------------------------- the round trip

  lemma ReadStep(c: char, rest: string, mode: Mode, text: string)
    ensures mode == InSingle && c != SINGLE && c != NUL ==>
              Read([c] + rest, mode, Some(text)) == Read(rest, InSingle, Some(text + [c]))
    ensures mode == InSingle && c == SINGLE ==> Read([c] + rest, mode, Some(text)) == Read(rest, Plain, Some(text))
    ensures mode == Plain && c == SINGLE ==> Read([c] + rest, mode, Some(text)) == Read(rest, InSingle, Some(text))
    ensures mode == Plain && c == DOUBLE ==> Read([c] + rest, mode, Some(text)) == Read(rest, InDouble, Some(text))
    ensures mode == InDouble && c == DOUBLE ==> Read([c] + rest, mode, Some(text)) == Read(rest, Plain, Some(text))
    ensures mode == InDouble && c != DOUBLE && !SpecialInDouble(c) ==>
              Read([c] + rest, mode, Some(text)) == Read(rest, InDouble, Some(text + [c]))
  {
    assert ([c] + rest)[1..] == rest;
  }

  /** Leaving the single quotes for one quoted quote comes back with that quote. */
  lemma EscapeIsRead(rest: string, text: string)
    ensures Read([SINGLE, DOUBLE, SINGLE, DOUBLE, SINGLE] + rest, InSingle, Some(text)) == Read(rest, InSingle, Some(text + [SINGLE]))
  {
    hide Read;
    var t := text + [SINGLE];
    ReadStep(SINGLE, rest, Plain, t);
    ReadStep(DOUBLE, [SINGLE] + rest, InDouble, t);
    ReadStep(SINGLE, [DOUBLE] + ([SINGLE] + rest), InDouble, text);
    ReadStep(DOUBLE, [SINGLE] + ([DOUBLE] + ([SINGLE] + rest)), Plain, text);
    ReadStep(SINGLE, [DOUBLE] + ([SINGLE] + ([DOUBLE] + ([SINGLE] + rest))), InSingle, text);
    assert [SINGLE, DOUBLE, SINGLE, DOUBLE, SINGLE] + rest
        == [SINGLE] + ([DOUBLE] + ([SINGLE] + ([DOUBLE] + ([SINGLE] + rest))));
  }

  /** Inside single quotes the escaped text reads as the text. */
  lemma {:induction false} EscapedIsRead(s: string, rest: string, text: string)
    requires NUL !in s
    ensures Read(Escaped(s) + rest, InSingle, Some(text)) == Read(rest, InSingle, Some(text + s))
  {
    hide Read;
    if s == [] {
      assert Escaped(s) + rest == rest && text + s == text;
    } else {
      var more := Escaped(s[1..]) + rest;
      assert s == [s[0]] + s[1..] && s[0] in s;
      assert text + [s[0]] + s[1..] == text + s;
      EscapedIsRead(s[1..], rest, text + [s[0]]);
      if s[0] == SINGLE {
        EscapeIsRead(more, text);
        assert Escaped(s) + rest == [SINGLE, DOUBLE, SINGLE, DOUBLE, SINGLE] + more;
      } else {
        ReadStep(s[0], more, InSingle, text);
        assert Escaped(s) + rest == [s[0]] + more;
      }
    }
  }

  /** A quoted text before `rest` is read as the word begun so far with the text added. */
  lemma QuoteIsRead(s: string, rest: string)
    requires NUL !in s
    ensures Read(Quote(s) + rest, Plain, None) == Read(rest, Plain, Some(s))
  {
    var tail := Escaped(s) + ([SINGLE] + rest);
    assert Quote(s) + rest == [SINGLE] + tail;
    assert ([SINGLE] + tail)[1..] == tail;
    assert Read([SINGLE] + tail, Plain, None) == Read(tail, InSingle, Some([]));
    hide Read;
    EscapedIsRead(s, [SINGLE] + rest, []);
    ReadStep(SINGLE, rest, InSingle, s);
    assert [] + s == s;
  }

  lemma {:induction false} NulIsNotRead(s: string, rest: string, text: string)
    requires NUL in s
    ensures Read(Escaped(s) + rest, InSingle, Some(text)) == None
  {
    var more := Escaped(s[1..]) + rest;
    assert s == [s[0]] + s[1..];
    if s[0] == NUL {
      assert Escaped(s) + rest == [NUL] + more;
    } else {
      hide Read;
      NulIsNotRead(s[1..], rest, text + [s[0]]);
      if s[0] == SINGLE {
        EscapeIsRead(more, text);
        assert Escaped(s) + rest == [SINGLE, DOUBLE, SINGLE, DOUBLE, SINGLE] + more;
      } else {
        ReadStep(s[0], more, InSingle, text);
        assert Escaped(s) + rest == [s[0]] + more;
      }
    }
  }

  /** A quoted text is one word, equal to the text, exactly when the text has no NUL. */
  lemma QuoteRoundTrip(s: string)
    ensures Tokens(Quote(s)) == Some([Word(s)]) <==> NUL !in s
  {
    assert Quote(s) + [] == Quote(s);
    if NUL !in s {
      QuoteIsRead(s, []);
    } else {
      var tail := Escaped(s) + [SINGLE];
      assert Quote(s) == [SINGLE] + tail && Quote(s)[1..] == tail;
      NulIsNotRead(s, [SINGLE], []);
    }
  }

  // ------------------------------------------------------------------ the command

  /** The script given to /bin/sh -lc; `trim` is strings.TrimSpace. */
  function Script(command: string, workdir: string, trim: string -> string): string {
    if trim(workdir) == "" then trim(command)
    else "cd " + Quote(trim(workdir)) + " && " + trim(command)
  }

  /** buildContainerShellCommand. */
  function ShellCommand(command: string, workdir: string, trim: string -> string): seq<string> {
    ["/bin/sh", "-lc", Script(command, workdir, trim)]
  }

  predicate Ordinary(c: char) {
    c != SINGLE && c != DOUBLE && c != ' ' && c != '\t' && c != '&' && !Special(c)
  }

  lemma LetterIsRead(c: char, rest: string, word: Option<string>)
    requires Ordinary(c)
    ensures Read([c] + rest, Plain, word) == Read(rest, Plain, Some((if word == None then [] else word.value) + [c]))
  {
    hide Special;
    assert ([c] + rest)[1..] == rest;
  }

  lemma BlankIsRead(rest: string, word: Option<string>)
    ensures Read([' '] + rest, Plain, word) == After(word, Read(rest, Plain, None))
  {
    assert ([' '] + rest)[1..] == rest;
  }

  lemma CdIsRead(rest: string)
    ensures Read("cd " + rest, Plain, None) == Before(Word("cd"), Read(rest, Plain, None))
  {
    hide Read;
    assert Ordinary('c') && Ordinary('d');
    LetterIsRead('c', ['d'] + ([' '] + rest), None);
    LetterIsRead('d', [' '] + rest, Some("c"));
    BlankIsRead(rest, Some("cd"));
    assert "cd " + rest == ['c'] + (['d'] + ([' '] + rest));
    assert "c" + ['d'] == "cd" && [] + ['c'] == "c";
  }

  lemma AndIsRead(rest: string, word: string)
    ensures Read(" && " + rest, Plain, Some(word)) == Before(Word(word), Before(Operator("&&"), Read(rest, Plain, None)))
  {
    assert (" && " + rest)[1..] == "&& " + rest && ("&& " + rest)[2..] == " " + rest && (" " + rest)[1..] == rest;
    assert Read(" " + rest, Plain, None) == Read(rest, Plain, None);
    assert Read("&& " + rest, Plain, None) == Before(Operator("&&"), Read(" " + rest, Plain, None));
  }

  lemma ThreeBefore(a: Token, b: Token, c: Token, rest: Option<seq<Token>>)
    ensures Before(a, Before(b, Before(c, rest))) == if rest == None then None else Some([a, b, c] + rest.value)
  {
    if rest.Some? {
      assert [a] + ([b] + ([c] + rest.value)) == [a, b, c] + rest.value;
    }
  }

  /**
   A login shell runs the script. With a working directory the shell reads cd, the directory as
   one word, &&, then the trimmed command; without one the script is the trimmed command.
  */
  lemma ScriptIsRead(command: string, workdir: string, trim: string -> string)
    ensures var argv := ShellCommand(command, workdir, trim);
            && |argv| == 3 && argv[0] == "/bin/sh" && argv[1] == "-lc"
            && (trim(workdir) == "" ==> argv[2] == trim(command))
            && (trim(workdir) != "" && NUL !in trim(workdir) ==>
                  Tokens(argv[2]) ==
                    if Tokens(trim(command)) == None then None
                    else Some([Word("cd"), Word(trim(workdir)), Operator("&&")] + Tokens(trim(command)).value))
  {
    hide Read, Quote, Before;
    var wd, cmd := trim(workdir), trim(command);
    if wd != "" && NUL !in wd {
      assert Script(command, workdir, trim) == "cd " + (Quote(wd) + (" && " + cmd));
      CdIsRead(Quote(wd) + (" && " + cmd));
      QuoteIsRead(wd, " && " + cmd);
      AndIsRead(cmd, wd);
      ThreeBefore(Word("cd"), Word(wd), Operator("&&"), Tokens(cmd));
    }
  }
}
