/** Globs of policy rules, compiled to anchored regular expressions: internal/policy/match.go. */
module Glob {
  import opened Basics

  // ----- the compiler

  /** A compiled glob: what it was written as, and its regular expression. */
  datatype GlobPattern = GlobPattern(raw: string, re: string)

  predicate IsMeta(c: char) {
    c in "\\.+*?()|[]{}^$"
  }

  /** regexp.QuoteMeta of one character. */
  function QuoteMeta(c: char): string {
    if IsMeta(c) then ['\\', c] else [c]
  }

  function Translated(c: char): string {
    match c
    case '*' => ".*"
    case '?' => "."
    case _ => QuoteMeta(c)
  }

  function Translation(glob: string): string {
    if glob == "" then "" else Translated(glob[0]) + Translation(glob[1..])
  }

  /** None for the empty glob, which the source rejects. */
  function Compiled(glob: string): Option<GlobPattern> {
    if glob == "" then None else Some(GlobPattern(glob, "^" + Translation(glob) + "$"))
  }

  /** The switch of the loop below. */
  method CompileChar(c: char) returns (piece: string)
    ensures piece == Translated(c)
  {
    match c {
      case '*' => piece := ".*";
      case '?' => piece := ".";
      case _ => piece := QuoteMeta(c);
    }
  }

  method CompileGlob(glob: string) returns (g: Option<GlobPattern>)
    ensures g == Compiled(glob)
  {
    if glob == "" {
      return None;
    }
    var b := "^";
    var i := 0;
    while i < |glob|
      invariant 0 <= i <= |glob|
      invariant b + Translation(glob[i..]) == "^" + Translation(glob)
    {
      assert glob[i..][1..] == glob[i + 1..];
      var piece := CompileChar(glob[i]);
      b := b + piece;
      i := i + 1;
    }
    assert Translation(glob[i..]) == "" && b + "" == b;
    return Some(GlobPattern(glob, b + "$"));
  }

  // ----- how the regexp package reads such an expression

  datatype Token = AnyRun | AnyOne | Exactly(c: char)

  /** The characters that the syntax of regular expressions gives a meaning. */
  predicate InSyntax(c: char) {
    || c == '\\' || c == '.' || c == '+' || c == '*' || c == '?' || c == '(' || c == ')' || c == '|'
    || c == '[' || c == ']' || c == '{' || c == '}' || c == '^' || c == '$'
  }

  /** The tokens of an expression without anchors, None outside the part of the
      syntax that consists of `.`, `.*`, escaped and plain characters. */
  function Tokens(re: string): Option<seq<Token>>
    decreases |re|
  {
    if re == "" then Some([])
    else if |re| >= 2 && re[0] == '.' && re[1] == '*' then Prepend(AnyRun, Tokens(re[2..]))
    else if re[0] == '.' then Prepend(AnyOne, Tokens(re[1..]))
    else if |re| >= 2 && re[0] == '\\' && InSyntax(re[1]) then Prepend(Exactly(re[1]), Tokens(re[2..]))
    else if InSyntax(re[0]) then None
    else Prepend(Exactly(re[0]), Tokens(re[1..]))
  }

  function Prepend(t: Token, rest: Option<seq<Token>>): Option<seq<Token>> {
    match rest case None => None case Some(ts) => Some([t] + ts)
  }

  /** Without flags a dot matches any character but a newline. */
  predicate TokensMatch(ts: seq<Token>, name: string)
    decreases |ts| + |name|
  {
    if ts == [] then name == ""
    else match ts[0]
      case AnyRun => TokensMatch(ts[1..], name) || (name != "" && name[0] != '\n' && TokensMatch(ts, name[1..]))
      case AnyOne => name != "" && name[0] != '\n' && TokensMatch(ts[1..], name[1..])
      case Exactly(c) => name != "" && name[0] == c && TokensMatch(ts[1..], name[1..])
  }

  /** MatchString for an expression anchored at both ends. */
  predicate AnchoredMatch(re: string, name: string) {
    && |re| >= 2 && re[0] == '^' && re[|re| - 1] == '$'
    && var ts := Tokens(re[1..|re| - 1]);
       ts.Some? && TokensMatch(ts.value, name)
  }

  /** The match method of a compiled glob. */
  predicate MatchesCompiled(g: Option<GlobPattern>, name: string) {
    g.Some? && AnchoredMatch(g.value.re, name)
  }

  // ----- what a glob means

  predicate NoNewline(s: string) {
    forall i :: 0 <= i < |s| ==> s[i] != '\n'
  }

  /** A star is any run of characters and a question mark any one character,
      from those that `wild` admits; everything else is itself. */
  ghost predicate GlobMatches(glob: string, name: string, wild: string -> bool)
    decreases |glob|
  {
    if glob == "" then name == ""
    else match glob[0]
      case '*' => exists k :: 0 <= k <= |name| && wild(name[..k]) && GlobMatches(glob[1..], name[k..], wild)
      case '?' => name != "" && wild(name[..1]) && GlobMatches(glob[1..], name[1..], wild)
      case _ => name != "" && name[0] == glob[0] && GlobMatches(glob[1..], name[1..], wild)
  }

  function TokenOf(c: char): Token {
    match c
    case '*' => AnyRun
    case '?' => AnyOne
    case _ => Exactly(c)
  }

  function TokensOf(glob: string): seq<Token> {
    if glob == "" then [] else [TokenOf(glob[0])] + TokensOf(glob[1..])
  }

  lemma {:induction false} TranslationStart(glob: string)
    ensures Translation(glob) == "" || Translation(glob)[0] != '*'
  {}

  /** Quoting keeps characters of a glob from being read as regular-expression syntax. */
  lemma {:induction false} TokensOfTranslation(glob: string)
    ensures Tokens(Translation(glob)) == Some(TokensOf(glob))
  {
    if glob != "" {
      var c, rest := glob[0], Translation(glob[1..]);
      var re := Translation(glob);
      TokensOfTranslation(glob[1..]);
      TranslationStart(glob[1..]);
      if c == '*' {
        assert re[2..] == rest;
      } else if c == '?' {
        assert re[1..] == rest && (|re| >= 2 ==> re[1] == rest[0]);
      } else if IsMeta(c) {
        assert re[2..] == rest;
      } else {
        assert re[1..] == rest;
      }
    }
  }

  lemma {:induction false} TokensMatchGlob(glob: string, name: string)
    ensures TokensMatch(TokensOf(glob), name) <==> GlobMatches(glob, name, NoNewline)
    decreases |glob| + |name|
  {
    if glob != "" {
      var ts, rest := TokensOf(glob), TokensOf(glob[1..]);
      assert ts[1..] == rest;
      match glob[0] {
        case '*' =>
          TokensMatchGlob(glob[1..], name);
          if name != "" {
            TokensMatchGlob(glob, name[1..]);
          }
          StarUnfolds(glob, name);
        case '?' =>
          if name != "" { TokensMatchGlob(glob[1..], name[1..]); }
        case _ =>
          if name != "" { TokensMatchGlob(glob[1..], name[1..]); }
      }
    }
  }

  /** A star takes nothing, or one character and then more. */
  lemma {:induction false} StarUnfolds(glob: string, name: string)
    requires glob != "" && glob[0] == '*'
    ensures GlobMatches(glob, name, NoNewline) <==>
              || GlobMatches(glob[1..], name, NoNewline)
              || (name != "" && name[0] != '\n' && GlobMatches(glob, name[1..], NoNewline))
  {
    if GlobMatches(glob[1..], name, NoNewline) {
      assert NoNewline(name[..0]) && name[0..] == name;
    }
    if name != "" && name[0] != '\n' && GlobMatches(glob, name[1..], NoNewline) {
      var tail := name[1..];
      var k :| 0 <= k <= |tail| && NoNewline(tail[..k]) && GlobMatches(glob[1..], tail[k..], NoNewline);
      assert name[..k + 1] == [name[0]] + tail[..k] && name[k + 1..] == tail[k..];
      assert NoNewline(name[..k + 1]);
    }
    if GlobMatches(glob, name, NoNewline) {
      var k :| 0 <= k <= |name| && NoNewline(name[..k]) && GlobMatches(glob[1..], name[k..], NoNewline);
      if k == 0 {
        assert name[0..] == name;
      } else {
        var tail := name[1..];
        assert name[..k][0] == name[0] && tail[..k - 1] == name[..k][1..] && tail[k - 1..] == name[k..];
        assert NoNewline(tail[..k - 1]);
      }
    }
  }

  lemma {:induction false} NewlineFree(glob: string, name: string)
    requires NoNewline(name)
    ensures GlobMatches(glob, name, NoNewline) <==> GlobMatches(glob, name, _ => true)
    decreases |glob|
  {
    if glob != "" {
      forall k | 0 <= k <= |name|
        ensures GlobMatches(glob[1..], name[k..], NoNewline) <==> GlobMatches(glob[1..], name[k..], _ => true)
        ensures NoNewline(name[..k])
      {
        NewlineFree(glob[1..], name[k..]);
      }
    }
  }

  /** For every glob that compiles and every name, the compiled expression
      matches exactly when the glob does with wildcards that stop at a newline;
      on names without a newline, exactly when the glob does. */
  lemma {:induction false} CompiledGlobIsTheGlob(glob: string, name: string)
    requires glob != ""
    ensures MatchesCompiled(Compiled(glob), name) <==> GlobMatches(glob, name, NoNewline)
    ensures NoNewline(name) ==> (MatchesCompiled(Compiled(glob), name) <==> GlobMatches(glob, name, _ => true))
  {
    var re := Compiled(glob).value.re;
    assert re[1..|re| - 1] == Translation(glob);
    TokensOfTranslation(glob);
    TokensMatchGlob(glob, name);
    if NoNewline(name) { NewlineFree(glob, name); }
  }
}
