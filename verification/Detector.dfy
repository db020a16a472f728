/** Scanning a text for secrets: internal/detector/detector.go. */
module Detector {
  import opened Basics
  import opened Regex

  datatype Severity = Low | Medium | High

  datatype Finding = Finding(pattern: string, severity: Severity, offset: int, length: int)

  /** `entropy` tells whether matches are filtered by entropy, which is then
      measured from `skip` bytes into the match. */
  datatype Pattern = Pattern(name: string, severity: Severity, entropy: bool, skip: nat, regex: Regex)

  /** What a scan takes as given: regexp's matches, the entropy filter, and
      sort.Slice by offset, which may order findings of one offset as it likes. */
  datatype Engine = Engine(
    findAll: (Regex, string) -> seq<(nat, nat)>,
    highEntropy: (Pattern, string) -> bool,
    sortFindings: seq<Finding> -> seq<Finding>)
  {
    ghost predicate Lawful() {
      && (forall r, t, i :: 0 <= i < |findAll(r, t)| ==>
            findAll(r, t)[i].0 <= findAll(r, t)[i].1 <= |t| && Matches(r, t, findAll(r, t)[i].0, findAll(r, t)[i].1))
      && (forall fs :: multiset(sortFindings(fs)) == multiset(fs) && ByOffset(sortFindings(fs)))
    }
  }

  ghost predicate ByOffset(fs: seq<Finding>) {
    forall i, j :: 0 <= i < j < |fs| ==> fs[i].offset <= fs[j].offset
  }

  /** Whether a match passes the entropy filter of its pattern. */
  predicate Passes(engine: Engine, p: Pattern, text: string, m: (nat, nat)) {
    !p.entropy || (m.0 + p.skip < m.1 <= |text| && engine.highEntropy(p, text[m.0 + p.skip..m.1]))
  }

  function FindingOf(p: Pattern, m: (nat, nat)): Finding {
    Finding(p.name, p.severity, m.0, m.1 - m.0)
  }

  /** The findings of one pattern among its matches from i on. */
  function PatternHits(engine: Engine, p: Pattern, text: string, matches: seq<(nat, nat)>, i: nat): seq<Finding>
    requires i <= |matches|
    decreases |matches| - i
  {
    if i == |matches| then []
    else (if Passes(engine, p, text, matches[i]) then [FindingOf(p, matches[i])] else [])
         + PatternHits(engine, p, text, matches, i + 1)
  }

  function Hits(engine: Engine, patterns: seq<Pattern>, text: string, k: nat): seq<Finding>
    requires k <= |patterns|
    decreases |patterns| - k
  {
    if k == |patterns| then []
    else PatternHits(engine, patterns[k], text, engine.findAll(patterns[k].regex, text), 0)
         + Hits(engine, patterns, text, k + 1)
  }

  /** Scan as a function of the registered patterns. */
  function Findings(engine: Engine, patterns: seq<Pattern>, text: string): seq<Finding> {
    if text == "" then [] else engine.sortFindings(Hits(engine, patterns, text, 0))
  }

  /** The registered patterns. */
  class Registry {
    var patterns: seq<Pattern>

    constructor ()
      ensures patterns == []
    {
      patterns := [];
    }

    method AddPattern(p: Pattern)
      modifies this
      ensures patterns == old(patterns) + [p]
    {
      patterns := patterns + [p];
    }

    method Scan(engine: Engine, text: string) returns (out: seq<Finding>)
      ensures out == Findings(engine, patterns, text)
    {
      if text == "" {
        return [];
      }
      out := [];
      var k := 0;
      while k < |patterns|
        invariant 0 <= k <= |patterns|
        invariant out + Hits(engine, patterns, text, k) == Hits(engine, patterns, text, 0)
      {
        var p := patterns[k];
        var matches := engine.findAll(p.regex, text);
        ghost var before, rest := out, Hits(engine, patterns, text, k + 1);
        var i := 0;
        while i < |matches|
          invariant 0 <= i <= |matches|
          invariant out + PatternHits(engine, p, text, matches, i) == before + PatternHits(engine, p, text, matches, 0)
        {
          var m := matches[i];
          var (start, end) := (m.0 + p.skip, m.1);
          i := i + 1;
          if p.entropy && (end <= start || end > |text| || !engine.highEntropy(p, text[start..end])) {
            continue;
          }
          out := out + [FindingOf(p, m)];
        }
        assert PatternHits(engine, p, text, matches, i) == [];
        assert out == before + PatternHits(engine, p, text, matches, 0);
        assert out + rest == before + (PatternHits(engine, p, text, matches, 0) + rest);
        k := k + 1;
      }
      assert Hits(engine, patterns, text, k) == [] && out + [] == out;
      out := engine.sortFindings(out);
    }
  }

  // ----- what the findings of a scan are

  /** A finding tells of the i-th match of a pattern: it carries the pattern's name
      and severity and the place of the match, which has high entropy, measured
      after the part to skip, where the pattern asks for it. */
  ghost predicate Tells(engine: Engine, p: Pattern, text: string, matches: seq<(nat, nat)>, i: nat, f: Finding)
    requires i < |matches|
  {
    var (start, end) := matches[i];
    && f.pattern == p.name && f.severity == p.severity && f.offset == start && f.length == end - start
    && (p.entropy ==>
          start + p.skip < end && end <= |text| && engine.highEntropy(p, text[start + p.skip..end]))
  }

  /** A finding comes from a match of a pattern that passes its filter. */
  ghost predicate FoundBy(engine: Engine, p: Pattern, text: string, f: Finding) {
    exists i :: 0 <= i < |engine.findAll(p.regex, text)|
      && Tells(engine, p, text, engine.findAll(p.regex, text), i, f)
  }

  lemma {:induction false} PatternHitsAre(engine: Engine, p: Pattern, text: string, matches: seq<(nat, nat)>, i: nat,
                                          f: Finding)
    requires i <= |matches|
    ensures f in PatternHits(engine, p, text, matches, i) <==>
            exists j :: i <= j < |matches| && Tells(engine, p, text, matches, j, f)
    decreases |matches| - i
  {
    if i < |matches| {
      PatternHitsAre(engine, p, text, matches, i + 1, f);
      TellsExactly(engine, p, text, matches, i, f);
    }
  }

  lemma {:induction false} TellsExactly(engine: Engine, p: Pattern, text: string, matches: seq<(nat, nat)>, i: nat,
                                        f: Finding)
    requires i < |matches|
    ensures Tells(engine, p, text, matches, i, f) <==>
            Passes(engine, p, text, matches[i]) && f == FindingOf(p, matches[i])
  {}

  ghost predicate IsTold(engine: Engine, p: Pattern, text: string, matches: seq<(nat, nat)>, i: nat)
    requires i < |matches|
  {
    exists f :: Tells(engine, p, text, matches, i, f)
  }

  /** The matches from i on that some finding tells of. */
  ghost function Told(engine: Engine, p: Pattern, text: string, matches: seq<(nat, nat)>, i: nat): set<nat> {
    set j: nat | i <= j < |matches| && IsTold(engine, p, text, matches, j)
  }

  lemma {:induction false} ToldOneMore(engine: Engine, p: Pattern, text: string, matches: seq<(nat, nat)>, i: nat)
    requires i < |matches|
    ensures Told(engine, p, text, matches, i)
            == Told(engine, p, text, matches, i + 1) + (if Passes(engine, p, text, matches[i]) then {i} else {})
  {
    TellsExactly(engine, p, text, matches, i, FindingOf(p, matches[i]));
    if !Passes(engine, p, text, matches[i]) {
      forall f ensures !Tells(engine, p, text, matches, i, f) { TellsExactly(engine, p, text, matches, i, f); }
    }
  }

  /** Each match is told of once. */
  lemma {:induction false} PatternHitsCount(engine: Engine, p: Pattern, text: string, matches: seq<(nat, nat)>, i: nat)
    requires i <= |matches|
    ensures |PatternHits(engine, p, text, matches, i)|
            == |Told(engine, p, text, matches, i)|
    decreases |matches| - i
  {
    if i < |matches| {
      PatternHitsCount(engine, p, text, matches, i + 1);
      ToldOneMore(engine, p, text, matches, i);
    } else {
      assert Told(engine, p, text, matches, i) == {};
    }
  }

  lemma {:induction false} HitsAre(engine: Engine, patterns: seq<Pattern>, text: string, k: nat, f: Finding)
    requires k <= |patterns|
    ensures f in Hits(engine, patterns, text, k) <==>
              exists j :: k <= j < |patterns| && FoundBy(engine, patterns[j], text, f)
    decreases |patterns| - k
  {
    if k < |patterns| {
      PatternHitsAre(engine, patterns[k], text, engine.findAll(patterns[k].regex, text), 0, f);
      HitsAre(engine, patterns, text, k + 1, f);
    }
  }

  lemma {:induction false} FoundInRange(engine: Engine, p: Pattern, text: string, f: Finding)
    requires engine.Lawful() && FoundBy(engine, p, text, f)
    ensures 0 <= f.offset && f.offset + f.length <= |text| && f.length >= MinLength(p.regex)
  {
    var matches := engine.findAll(p.regex, text);
    var i :| 0 <= i < |matches| && Tells(engine, p, text, matches, i, f);
    var m := matches[i];
    MinLengthSound(p.regex, text, m.0, m.1);
  }

  /** How many matches of the patterns from k on findings tell of. */
  ghost function TotalTold(engine: Engine, patterns: seq<Pattern>, text: string, k: nat): nat
    requires k <= |patterns|
    decreases |patterns| - k
  {
    if k == |patterns| then 0
    else
      |Told(engine, patterns[k], text, engine.findAll(patterns[k].regex, text), 0)|
      + TotalTold(engine, patterns, text, k + 1)
  }

  lemma {:induction false} HitsCount(engine: Engine, patterns: seq<Pattern>, text: string, k: nat)
    requires k <= |patterns|
    ensures |Hits(engine, patterns, text, k)| == TotalTold(engine, patterns, text, k)
    decreases |patterns| - k
  {
    if k < |patterns| {
      PatternHitsCount(engine, patterns[k], text, engine.findAll(patterns[k].regex, text), 0);
      HitsCount(engine, patterns, text, k + 1);
    }
  }

  /** A scan of a text that is not empty finds exactly the matches that pass
      their filters, sorted by offset; each lies within the text and is at
      least as long as its pattern's minimum. */
  lemma {:induction false} ScanFindsExactly(engine: Engine, patterns: seq<Pattern>, text: string)
    requires engine.Lawful() && text != ""
    ensures var fs := Findings(engine, patterns, text);
            && ByOffset(fs) && |fs| == TotalTold(engine, patterns, text, 0)
            && (forall f :: f in fs <==> exists k :: 0 <= k < |patterns| && FoundBy(engine, patterns[k], text, f))
            && (forall f, k :: f in fs && 0 <= k < |patterns| && FoundBy(engine, patterns[k], text, f) ==>
                  && 0 <= f.offset && f.offset + f.length <= |text|
                  && f.length >= MinLength(patterns[k].regex))
  {
    var hits := Hits(engine, patterns, text, 0);
    var fs := Findings(engine, patterns, text);
    HitsCount(engine, patterns, text, 0);
    assert |fs| == |multiset(fs)| == |multiset(hits)| == |hits|;
    forall f ensures f in fs <==> exists k :: 0 <= k < |patterns| && FoundBy(engine, patterns[k], text, f) {
      assert f in fs <==> f in multiset(fs);
      assert f in hits <==> f in multiset(hits);
      HitsAre(engine, patterns, text, 0, f);
    }
    forall f, k | f in fs && 0 <= k < |patterns| && FoundBy(engine, patterns[k], text, f)
      ensures 0 <= f.offset && f.offset + f.length <= |text| && f.length >= MinLength(patterns[k].regex)
    {
      FoundInRange(engine, patterns[k], text, f);
    }
  }
}
