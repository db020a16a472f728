/** Quoting a string for a POSIX shell: internal/trust/quote.go. */
module Quote {
  import opened Basics

  /** strings.ReplaceAll of a single quote by quote, backslash, quote, quote. */
  function Escaped(s: string): string {
    if s == "" then "" else (if s[0] == '\'' then "'\\''" else [s[0]]) + Escaped(s[1..])
  }

  function ShellQuote(s: string): string {
    if s == "" then "''" else "'" + Escaped(s) + "'"
  }

  // ----- the shell, by sections 2.2.1 and 2.2.2 of the POSIX Shell Command Language

  /** Where the lexer stands: between words, inside a word, or inside single quotes of a word. */
  datatype Mode = Between | InWord | InQuotes

  /** Characters that mean something to the shell when they are not quoted. */
  predicate Special(c: char) {
    c in "|&;<>()$`\"*?[#~=%\n\t {}!"
  }

  /** The words of an input, None when it is not a plain list of words: an
      unquoted special character other than a blank, or a quote left open. */
  function Lex(input: string, mode: Mode, word: string): Option<seq<string>>
    decreases |input|
  {
    if input == "" then
      match mode case Between => Some([]) case InWord => Some([word]) case InQuotes => None
    else
      var c, rest := input[0], input[1..];
      if mode == InQuotes then
        if c == '\'' then Lex(rest, InWord, word) else Lex(rest, InQuotes, word + [c])
      else if c == '\'' then Lex(rest, InQuotes, word)
      else if c == '\\' then
        if rest == "" || rest[0] == '\n' then None else Lex(rest[1..], InWord, word + [rest[0]])
      else if c == ' ' || c == '\t' then
        match Lex(rest, Between, "")
        case None => None
        case Some(words) => Some(if mode == InWord then [word] + words else words)
      else if Special(c) then None
      else Lex(rest, InWord, word + [c])
  }

  function Words(input: string): Option<seq<string>> {
    Lex(input, Between, "")
  }

  lemma {:induction false} EscapedReadsBack(s: string, word: string)
    ensures Lex(Escaped(s) + "'", InQuotes, word) == Some([word + s])
    decreases |s|
  {
    if s == "" {
      assert word + s == word && Escaped(s) + "'" == "'" && "'"[1..] == "";
    } else {
      var rest := Escaped(s[1..]) + "'";
      EscapedReadsBack(s[1..], word + [s[0]]);
      assert word + [s[0]] + s[1..] == word + s;
      if s[0] == '\'' {
        EscapedQuote(rest, word);
        assert Escaped(s) + "'" == "'\\''" + rest;
      } else {
        assert Escaped(s) + "'" == [s[0]] + rest;
      }
    }
  }

  /** Closing, an escaped quote, and opening again adds a quote to the word. */
  lemma {:induction false} EscapedQuote(rest: string, word: string)
    ensures Lex("'\\''" + rest, InQuotes, word) == Lex(rest, InQuotes, word + ['\''])
  {
    var input := "'\\''" + rest;
    var closed := input[1..];
    var reopened := closed[1..][1..];
    assert Lex(input, InQuotes, word) == Lex(closed, InWord, word);
    assert closed[0] == '\\' && closed[1..][0] == '\'';
    assert Lex(closed, InWord, word) == Lex(reopened, InWord, word + ['\'']);
    assert reopened[0] == '\'' && reopened[1..] == rest;
  }

  /** For every string, the shell reads the quoted form as exactly one word, that string. */
  lemma {:induction false} QuotedIsOneWord(s: string)
    ensures Words(ShellQuote(s)) == Some([s])
  {
    if s == "" {
      assert "''"[1..] == "'" && "'"[1..] == "";
    } else {
      EscapedReadsBack(s, "");
      assert ("'" + Escaped(s) + "'")[1..] == Escaped(s) + "'";
      assert "" + s == s;
    }
  }
}
