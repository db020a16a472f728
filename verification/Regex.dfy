/** Regular expressions over byte strings, as far as the detectors need them:
    which stretches of a text an expression matches, and how short a match can be. */
module Regex {
  import opened Basics

  /** `Class` is a set of characters given by ranges, or its complement; `folded`
      under the case-insensitive flag. `Folded` is a literal under that flag. */
  datatype Regex =
    | Boundary
    | Literal(text: string)
    | Folded(text: string)
    | Class(ranges: seq<(char, char)>, negated: bool, folded: bool)
    | Cat(first: Regex, second: Regex)
    | Alt(left: Regex, right: Regex)
    | Repeat(body: Regex, min: nat, max: Option<nat>)

  predicate InRanges(ranges: seq<(char, char)>, c: char) {
    exists i :: 0 <= i < |ranges| && ranges[i].0 <= c <= ranges[i].1
  }

  predicate WordChar(c: char) {
    'a' <= c <= 'z' || 'A' <= c <= 'Z' || '0' <= c <= '9' || c == '_'
  }

  /** A word character on exactly one side. */
  predicate AtBoundary(t: string, s: nat)
    requires s <= |t|
  {
    (s > 0 && WordChar(t[s - 1])) != (s < |t| && WordChar(t[s]))
  }

  /** The encoding of one character beyond ASCII, in bytes. */
  predicate MultiByte(bytes: string) {
    2 <= |bytes| <= 4 && forall i :: 0 <= i < |bytes| ==> bytes[i] >= 128 as char
  }

  function OtherCase(c: char): char {
    if 'a' <= c <= 'z' then (c as int - 32) as char
    else if 'A' <= c <= 'Z' then (c as int + 32) as char
    else c
  }

  /** Under case folding the letters k and s also have partners beyond ASCII. A
      byte that begins no character counts as one that only a complement contains. */
  predicate OneChar(ranges: seq<(char, char)>, negated: bool, folded: bool, bytes: string) {
    || (|bytes| == 1 && bytes[0] < 128 as char
        && (InRanges(ranges, bytes[0]) || (folded && InRanges(ranges, OtherCase(bytes[0])))) != negated)
    || (MultiByte(bytes) && (negated || folded))
    || (|bytes| == 1 && bytes[0] >= 128 as char && negated)
  }

  ghost predicate FoldedMatches(word: string, t: string, s: nat, e: nat)
    requires s <= e <= |t|
    decreases |word|
  {
    if word == "" then s == e
    else
      exists m | s <= m <= e ::
        OneChar([(word[0], word[0])], false, true, t[s..m]) && FoldedMatches(word[1..], t, m, e)
  }

  ghost predicate Matches(r: Regex, t: string, s: nat, e: nat)
    requires s <= e <= |t|
    decreases r, 0
  {
    match r
    case Boundary => s == e && AtBoundary(t, s)
    case Literal(text) => t[s..e] == text
    case Folded(text) => FoldedMatches(text, t, s, e)
    case Class(ranges, negated, folded) => OneChar(ranges, negated, folded, t[s..e])
    case Cat(a, b) => exists m | s <= m <= e :: Matches(a, t, s, m) && Matches(b, t, m, e)
    case Alt(a, b) => Matches(a, t, s, e) || Matches(b, t, s, e)
    case Repeat(body, min, max) =>
      exists n: nat :: min <= n && (max.Some? ==> n <= max.value) && Times(body, n, t, s, e)
  }

  ghost predicate Times(r: Regex, n: nat, t: string, s: nat, e: nat)
    requires s <= e <= |t|
    decreases r, n + 1
  {
    if n == 0 then s == e
    else exists m | s <= m <= e :: Matches(r, t, s, m) && Times(r, n - 1, t, m, e)
  }

  function MinLength(r: Regex): nat {
    match r
    case Boundary => 0
    case Literal(text) => |text|
    case Folded(text) => |text|
    case Class(_, _, _) => 1
    case Cat(a, b) => MinLength(a) + MinLength(b)
    case Alt(a, b) => if MinLength(a) <= MinLength(b) then MinLength(a) else MinLength(b)
    case Repeat(body, min, _) => min * MinLength(body)
  }

  lemma {:induction false} FoldedLength(word: string, t: string, s: nat, e: nat)
    requires s <= e <= |t| && FoldedMatches(word, t, s, e)
    ensures e - s >= |word|
    decreases |word|
  {
    if word != "" {
      var m :| s <= m <= e && OneChar([(word[0], word[0])], false, true, t[s..m]) && FoldedMatches(word[1..], t, m, e);
      FoldedLength(word[1..], t, m, e);
    }
  }

  /** Every match of an expression is at least as long as its minimum. */
  lemma {:induction false} MinLengthSound(r: Regex, t: string, s: nat, e: nat)
    requires s <= e <= |t| && Matches(r, t, s, e)
    ensures e - s >= MinLength(r)
    decreases r, 0
  {
    match r {
      case Boundary =>
      case Literal(text) => assert |t[s..e]| == e - s;
      case Folded(text) => FoldedLength(text, t, s, e);
      case Class(_, _, _) => assert |t[s..e]| == e - s;
      case Cat(a, b) =>
        var m :| s <= m <= e && Matches(a, t, s, m) && Matches(b, t, m, e);
        MinLengthSound(a, t, s, m);
        MinLengthSound(b, t, m, e);
      case Alt(a, b) =>
        if Matches(a, t, s, e) { MinLengthSound(a, t, s, e); } else { MinLengthSound(b, t, s, e); }
      case Repeat(body, min, max) =>
        var n: nat :| min <= n && (max.Some? ==> n <= max.value) && Times(body, n, t, s, e);
        TimesLength(body, n, t, s, e);
        MultiplyMonotone(min, n, MinLength(body));
    }
  }

  lemma {:induction false} TimesLength(r: Regex, n: nat, t: string, s: nat, e: nat)
    requires s <= e <= |t| && Times(r, n, t, s, e)
    ensures e - s >= n * MinLength(r)
    decreases r, n + 1
  {
    if n > 0 {
      var m :| s <= m <= e && Matches(r, t, s, m) && Times(r, n - 1, t, m, e);
      MinLengthSound(r, t, s, m);
      TimesLength(r, n - 1, t, m, e);
      assert n * MinLength(r) == MinLength(r) + (n - 1) * MinLength(r);
    }
  }

  lemma {:induction false} MultiplyMonotone(a: nat, b: nat, c: nat)
    requires a <= b
    ensures a * c <= b * c
  {
    assert b * c == a * c + (b - a) * c;
  }
}
