/** Masking of byte spans: `applySpans` of internal/parser/redact.go.

    A text is a `string` whose characters stand for bytes. Splicing is written
    for sequences of any element type, so that the run over the bytes can be
    compared with a run over cells that remember where each byte came from. */
module Spans {
  import opened Basics

  /** The half-open range [offset, offset+length) of a text. */
  datatype Span = Span(offset: int, length: int) {
    predicate InRange(n: nat) {
      0 <= offset && 0 <= length && offset + length <= n
    }

    predicate Covers(i: int) {
      offset <= i < offset + length
    }
  }

  const MASK: string := "[REDACTED]"

  /** `sort.Slice` is unstable: of two spans with one offset either may come first. */
  ghost predicate Descending(spans: seq<Span>) {
    forall i, j :: 0 <= i < j < |spans| ==> spans[i].offset >= spans[j].offset
  }

  ghost predicate IsOrdering(spans: seq<Span>, ordered: seq<Span>) {
    multiset(ordered) == multiset(spans) && Descending(ordered)
  }

  function Splice<T>(b: seq<T>, s: Span, mask: seq<T>): seq<T>
    requires s.InRange(|b|)
  {
    b[..s.offset] + mask + b[s.offset + s.length..]
  }

  /** The spans spliced out one after the other, each at its offset in what the
      earlier ones left; None when one of them is out of range there. */
  function SpliceAll<T>(b: seq<T>, ordered: seq<Span>, mask: seq<T>): Option<seq<T>>
    decreases |ordered|
  {
    if ordered == [] then Some(b)
    else if !ordered[0].InRange(|b|) then None
    else SpliceAll(Splice(b, ordered[0], mask), ordered[1..], mask)
  }

  method ApplySpans(sort: seq<Span> -> seq<Span>, content: string, spans: seq<Span>)
    returns (masked: Option<string>)
    ensures masked == SpliceAll(content, sort(spans), MASK)
  {
    var ordered := sort(spans);
    var b := content;
    var i := 0;
    while i < |ordered|
      invariant 0 <= i <= |ordered|
      invariant SpliceAll(b, ordered[i..], MASK) == SpliceAll(content, ordered, MASK)
    {
      var s := ordered[i];
      if s.offset < 0 || s.length < 0 || s.offset + s.length > |b| {
        return None;
      }
      assert b[..s.offset] + (MASK + b[s.offset + s.length..]) == Splice(b, s, MASK);
      assert ordered[i..][1..] == ordered[i + 1..];
      b := b[..s.offset] + (MASK + b[s.offset + s.length..]);
      i := i + 1;
    }
    return Some(b);
  }

  // ----- where each byte of a masked text comes from

  /** A byte of a masked text: byte k of the mask, or byte i of the original text. */
  datatype Cell = MaskByte(k: nat) | Source(i: nat)

  function Sources(n: nat): (r: seq<Cell>)
    ensures |r| == n && forall q :: 0 <= q < n ==> r[q] == Source(q)
  {
    seq(n, q requires 0 <= q => Source(q))
  }

  function MaskCells(): (r: seq<Cell>)
    ensures |r| == |MASK| && forall q :: 0 <= q < |r| ==> r[q] == MaskByte(q)
  {
    seq(|MASK|, q requires 0 <= q => MaskByte(q))
  }

  ghost predicate CellsOf(content: string, cells: seq<Cell>) {
    forall c :: c in cells ==> match c case MaskByte(k) => k < |MASK| case Source(i) => i < |content|
  }

  /** The bytes that a sequence of cells stands for. */
  ghost function Erase(content: string, cells: seq<Cell>): (r: string)
    requires CellsOf(content, cells)
    ensures |r| == |cells|
  {
    seq(|cells|, q requires 0 <= q < |cells| =>
      assert cells[q] in cells;
      match cells[q] case MaskByte(k) => MASK[k] case Source(i) => content[i])
  }

  /** What masking does to the origins of the bytes. */
  function Origins(n: nat, ordered: seq<Span>): Option<seq<Cell>> {
    SpliceAll(Sources(n), ordered, MaskCells())
  }

  lemma {:induction false} SplicedCells(content: string, cells: seq<Cell>, s: Span)
    requires CellsOf(content, cells) && s.InRange(|cells|)
    ensures CellsOf(content, Splice(cells, s, MaskCells()))
    ensures Erase(content, Splice(cells, s, MaskCells())) == Splice(Erase(content, cells), s, MASK)
  {
    var spliced := Splice(cells, s, MaskCells());
    forall q | 0 <= q < |spliced|
      ensures match spliced[q] case MaskByte(k) => k < |MASK| case Source(i) => i < |content|
    {
      if q < s.offset {
        assert spliced[q] == cells[q] && cells[q] in cells;
      } else if q >= s.offset + |MASK| {
        assert spliced[q] == cells[q - |MASK| + s.length] && cells[q - |MASK| + s.length] in cells;
      } else {
        assert spliced[q] == MaskByte(q - s.offset);
      }
    }
    assert CellsOf(content, spliced);
    assert Erase(content, spliced) == Splice(Erase(content, cells), s, MASK);
  }

  /** The bytes and the origins move together. */
  lemma {:induction false} SpliceAllCells(content: string, cells: seq<Cell>, ordered: seq<Span>)
    requires CellsOf(content, cells)
    ensures var tracked := SpliceAll(cells, ordered, MaskCells());
            var bytes := SpliceAll(Erase(content, cells), ordered, MASK);
            match tracked
            case None => bytes.None?
            case Some(t) => CellsOf(content, t) && bytes == Some(Erase(content, t))
    decreases |ordered|
  {
    if ordered != [] && ordered[0].InRange(|cells|) {
      SplicedCells(content, cells, ordered[0]);
      SpliceAllCells(content, Splice(cells, ordered[0], MaskCells()), ordered[1..]);
    }
  }

  /** Masking a text is masking its origins and reading the bytes off afterwards. */
  lemma {:induction false} MaskingTracksOrigins(content: string, ordered: seq<Span>)
    ensures match Origins(|content|, ordered)
            case None => SpliceAll(content, ordered, MASK).None?
            case Some(t) =>
              CellsOf(content, t) && SpliceAll(content, ordered, MASK) == Some(Erase(content, t))
  {
    assert Erase(content, Sources(|content|)) == content;
    SpliceAllCells(content, Sources(|content|), ordered);
  }

  // ----- no covered byte survives

  /** The surviving bytes are in their first order and none has moved right. */
  ghost predicate Leftward(cells: seq<Cell>) {
    && (forall q :: 0 <= q < |cells| && cells[q].Source? ==> q <= cells[q].i)
    && (forall p, q :: 0 <= p < q < |cells| && cells[p].Source? && cells[q].Source? ==> cells[p].i < cells[q].i)
  }

  ghost predicate Untouched(cells: seq<Cell>, lo: int) {
    forall q :: 0 <= q < lo && q < |cells| ==> cells[q] == Source(q)
  }

  ghost predicate AtLeast(spans: seq<Span>, least: nat) {
    forall s :: s in spans ==> s.length >= least
  }

  ghost predicate LongEnough(spans: seq<Span>) {
    AtLeast(spans, |MASK|)
  }

  ghost predicate NoneCovered(cells: seq<Cell>, spans: seq<Span>) {
    forall c, s :: c in cells && c.Source? && s in spans ==> !s.Covers(c.i)
  }

  lemma {:induction false} SplicedAt(cells: seq<Cell>, s: Span, q: nat)
    requires s.InRange(|cells|) && q < |Splice(cells, s, MaskCells())|
    ensures var c := Splice(cells, s, MaskCells())[q];
            if q < s.offset then c == cells[q]
            else if q < s.offset + |MASK| then c.MaskByte?
            else q - |MASK| + s.length < |cells| && c == cells[q - |MASK| + s.length]
  {}

  lemma {:induction false} SpliceIsLeftward(cells: seq<Cell>, s: Span, lo: int)
    requires Leftward(cells) && Untouched(cells, lo) && s.offset <= lo
    requires s.InRange(|cells|) && s.length >= |MASK|
    ensures var spliced := Splice(cells, s, MaskCells());
            && Leftward(spliced) && Untouched(spliced, s.offset)
            && (forall c :: c in spliced && c.Source? ==> c in cells && !s.Covers(c.i))
  {
    var spliced := Splice(cells, s, MaskCells());
    forall q | 0 <= q < |spliced| && spliced[q].Source?
      ensures q <= spliced[q].i && spliced[q] in cells && !s.Covers(spliced[q].i)
    {
      SplicedAt(cells, s, q);
    }
    forall p, q | 0 <= p < q < |spliced| && spliced[p].Source? && spliced[q].Source?
      ensures spliced[p].i < spliced[q].i
    {
      SplicedAt(cells, s, p);
      SplicedAt(cells, s, q);
    }
    forall q | 0 <= q < s.offset ensures spliced[q] == Source(q) {
      SplicedAt(cells, s, q);
    }
  }

  /** Any spans at least as long as the mask, in any descending order, whatever
      they overlap: what survives was there before, and none of them covers it. */
  lemma {:induction false} SurvivorsUncovered(cells: seq<Cell>, ordered: seq<Span>, lo: int)
    requires Leftward(cells) && Untouched(cells, lo)
    requires Descending(ordered) && LongEnough(ordered)
    requires ordered != [] ==> ordered[0].offset <= lo
    ensures match SpliceAll(cells, ordered, MaskCells())
            case None => true
            case Some(t) =>
              Leftward(t) && NoneCovered(t, ordered) && forall c :: c in t && c.Source? ==> c in cells
    decreases |ordered|
  {
    if ordered != [] && ordered[0].InRange(|cells|) {
      var s, rest := ordered[0], ordered[1..];
      assert s in ordered;
      SpliceIsLeftward(cells, s, lo);
      assert LongEnough(rest) by {
        forall x | x in rest ensures x.length >= |MASK| { assert x in ordered; }
      }
      var spliced := Splice(cells, s, MaskCells());
      SurvivorsUncovered(spliced, rest, s.offset);
      var t := SpliceAll(spliced, rest, MaskCells());
      if t.Some? {
        forall c, x | c in t.value && c.Source? && x in ordered
          ensures !x.Covers(c.i)
        {
          assert c in spliced;
          if x != s { assert x in rest; }
        }
      }
    }
  }

  /** For every text and every list of spans at least as long as the mask,
      overlapping, nested, repeated or tied, masking either fails or leaves no
      byte that a span covers, and the bytes left keep their order and never
      move right. */
  lemma {:induction false} NoCoveredByteSurvives(content: string, spans: seq<Span>, ordered: seq<Span>)
    requires IsOrdering(spans, ordered) && LongEnough(spans)
    ensures match Origins(|content|, ordered)
            case None => SpliceAll(content, ordered, MASK).None?
            case Some(t) =>
              && CellsOf(content, t) && SpliceAll(content, ordered, MASK) == Some(Erase(content, t))
              && NoneCovered(t, spans) && Leftward(t)
  {
    MaskingTracksOrigins(content, ordered);
    forall s ensures s in ordered <==> s in spans {
      assert s in ordered <==> s in multiset(ordered);
      assert s in spans <==> s in multiset(spans);
    }
    var lo := if ordered == [] then 0 else ordered[0].offset;
    SurvivorsUncovered(Sources(|content|), ordered, lo);
  }

  /** A span one byte shorter than the mask pushes a byte that a later span
      covers out of that span's reach. */
  lemma {:induction false} NineByteSpansCanLeak()
    ensures var ordered := [Span(1, 9), Span(0, 11)];
            && IsOrdering(ordered, ordered)
            && Origins(12, ordered).Some?
            && Source(10) in Origins(12, ordered).value && ordered[1].Covers(10)
  {
    var ordered := [Span(1, 9), Span(0, 11)];
    var first := Splice(Sources(12), ordered[0], MaskCells());
    assert |first| == 13 && first[11] == Source(10);
    var second := Splice(first, ordered[1], MaskCells());
    assert second[10] == Source(10);
    assert ordered[1..] == [Span(0, 11)] && ordered[1..][1..] == [];
    assert SpliceAll(first, ordered[1..], MaskCells()) == SpliceAll(second, [], MaskCells());
    assert Source(10) in second;
  }

  /** Spans of at least `least` bytes never leave a byte that one of them covers. */
  ghost predicate SafeBound(least: nat) {
    forall n: nat, spans: seq<Span>, ordered: seq<Span> ::
      IsOrdering(spans, ordered) && Origins(n, ordered).Some? && AtLeast(spans, least)
      ==> NoneCovered(Origins(n, ordered).value, spans)
  }

  /** The least length that makes masking safe for every text and list of spans is the mask's own. */
  lemma {:induction false} SafeFromTheMaskOn(least: nat)
    ensures SafeBound(least) <==> least >= |MASK|
  {
    if least >= |MASK| {
      forall n: nat, spans: seq<Span>, ordered: seq<Span> |
        IsOrdering(spans, ordered) && Origins(n, ordered).Some? && AtLeast(spans, least)
        ensures NoneCovered(Origins(n, ordered).value, spans)
      {
        NoCoveredByteSurvives(seq(n, _ => ' '), spans, ordered);
      }
    } else {
      NineByteSpansCanLeak();
      var spans := [Span(1, 9), Span(0, 11)];
      assert spans[1] in spans && AtLeast(spans, least);
      assert !NoneCovered(Origins(12, spans).value, spans);
    }
  }

  // ----- disjoint spans: the exact text, in any order

  ghost predicate Disjoint(spans: seq<Span>) {
    forall i, j :: 0 <= i < j < |spans| ==>
      spans[i].offset + spans[i].length <= spans[j].offset || spans[j].offset + spans[j].length <= spans[i].offset
  }

  ghost predicate Within(spans: seq<Span>, n: nat) {
    forall s :: s in spans ==> s.InRange(n) && s.length > 0
  }

  function SpanAt(spans: seq<Span>, p: int): Option<Span> {
    if spans == [] then None
    else if spans[0].offset == p then Some(spans[0])
    else SpanAt(spans[1..], p)
  }

  /** Reading from left to right: a mask where a span starts, else the byte itself. */
  function LeftToRight(content: string, spans: seq<Span>, p: nat): string
    decreases |content| - p
  {
    if p >= |content| then ""
    else match SpanAt(spans, p)
      case Some(s) => if s.length > 0 then MASK + LeftToRight(content, spans, p + s.length) else ""
      case None => [content[p]] + LeftToRight(content, spans, p + 1)
  }

  lemma {:induction false} SpanAtIsMember(spans: seq<Span>, p: int)
    ensures match SpanAt(spans, p)
            case Some(s) => s in spans && s.offset == p
            case None => forall s :: s in spans ==> s.offset != p
  {
    if spans != [] && spans[0].offset != p {
      SpanAtIsMember(spans[1..], p);
      forall s | s in spans ensures SpanAt(spans, p).None? ==> s.offset != p {
        if s != spans[0] { assert s in spans[1..]; }
      }
    }
  }

  lemma {:induction false} SpanAtDetermined(spans: seq<Span>, n: nat, s: Span)
    requires Disjoint(spans) && Within(spans, n) && s in spans
    ensures SpanAt(spans, s.offset) == Some(s)
  {
    SpanAtIsMember(spans, s.offset);
    var t := SpanAt(spans, s.offset).value;
    var i :| 0 <= i < |spans| && spans[i] == s;
    var j :| 0 <= j < |spans| && spans[j] == t;
  }

  lemma {:induction false} PlainTail(content: string, spans: seq<Span>, p: nat)
    requires p <= |content| && forall s :: s in spans ==> s.offset < p
    ensures LeftToRight(content, spans, p) == content[p..]
    decreases |content| - p
  {
    if p < |content| {
      SpanAtIsMember(spans, p);
      PlainTail(content, spans, p + 1);
    }
  }

  /** The rightmost span splits the left-to-right text. */
  lemma {:induction false} RightmostSplits(content: string, spans: seq<Span>, p: nat)
    requires spans != [] && Disjoint(spans) && Within(spans, |content|) && p <= spans[0].offset
    requires forall s :: s in spans[1..] ==> s.offset + s.length <= spans[0].offset
    ensures var s := spans[0];
            LeftToRight(content, spans, p)
            == LeftToRight(content[..s.offset], spans[1..], p) + MASK + content[s.offset + s.length..]
    decreases |content| - p
  {
    var s, rest := spans[0], spans[1..];
    assert s in spans;
    var left, right := content[..s.offset], content[s.offset + s.length..];
    if p == s.offset {
      PlainTail(content, spans, s.offset + s.length);
      assert LeftToRight(left, rest, p) == "";
    } else {
      assert SpanAt(spans, p) == SpanAt(rest, p);
      SpanAtIsMember(rest, p);
      match SpanAt(rest, p) {
        case Some(t) =>
          assert t in spans && t.InRange(|content|) && t.length > 0;
          RightmostSplits(content, spans, p + t.length);
          Associates(MASK, LeftToRight(left, rest, p + t.length), MASK, right);
        case None =>
          RightmostSplits(content, spans, p + 1);
          Associates([content[p]], LeftToRight(left, rest, p + 1), MASK, right);
      }
    }
  }

  lemma {:induction false} Associates<T>(a: seq<T>, b: seq<T>, c: seq<T>, d: seq<T>)
    ensures a + (b + c + d) == a + b + c + d
  {}

  lemma {:induction false} RestStaysLeft(spans: seq<Span>, n: nat)
    requires spans != [] && Descending(spans) && Disjoint(spans) && Within(spans, n)
    ensures var s, rest := spans[0], spans[1..];
            Descending(rest) && Disjoint(rest) && Within(rest, s.offset)
  {
    var s, rest := spans[0], spans[1..];
    assert s in spans;
    forall t | t in rest ensures t.InRange(s.offset) && t.length > 0 {
      var j :| 0 <= j < |rest| && rest[j] == t;
      assert spans[j + 1] == t && t in spans;
    }
  }

  lemma {:induction false} DisjointFrom(content: string, ordered: seq<Span>, tail: string)
    requires Descending(ordered) && Disjoint(ordered) && Within(ordered, |content|)
    ensures SpliceAll(content + tail, ordered, MASK) == Some(LeftToRight(content, ordered, 0) + tail)
    decreases |ordered|
  {
    if ordered == [] {
      PlainTail(content, ordered, 0);
    } else {
      var s, rest := ordered[0], ordered[1..];
      assert s in ordered;
      RestStaysLeft(ordered, |content|);
      var left, right := content[..s.offset], content[s.offset + s.length..];
      assert Splice(content + tail, s, MASK) == left + (MASK + right + tail);
      DisjointFrom(left, rest, MASK + right + tail);
      RightmostSplits(content, ordered, 0);
      var l := LeftToRight(left, rest, 0);
      assert l + (MASK + right + tail) == l + MASK + right + tail;
    }
  }

  lemma {:induction false} SameSpanAt(a: seq<Span>, b: seq<Span>, n: nat, p: int)
    requires Disjoint(b) && Within(b, n)
    requires forall s :: s in a <==> s in b
    ensures SpanAt(a, p) == SpanAt(b, p)
  {
    SpanAtIsMember(a, p);
    SpanAtIsMember(b, p);
    match SpanAt(a, p) {
      case Some(s) => SpanAtDetermined(b, n, s);
      case None =>
    }
  }

  lemma {:induction false} SameSpansSameText(content: string, a: seq<Span>, b: seq<Span>, p: nat)
    requires Disjoint(b) && Within(b, |content|)
    requires forall s :: s in a <==> s in b
    ensures LeftToRight(content, a, p) == LeftToRight(content, b, p)
    decreases |content| - p
  {
    if p < |content| {
      SameSpanAt(a, b, |content|, p);
      match SpanAt(a, p) {
        case Some(s) => if s.length > 0 { SameSpansSameText(content, a, b, p + s.length); }
        case None => SameSpansSameText(content, a, b, p + 1);
      }
    }
  }

  lemma {:induction false} PermutedDisjoint(a: seq<Span>, b: seq<Span>, n: nat)
    requires multiset(a) == multiset(b) && Disjoint(a) && Within(a, n)
    ensures Disjoint(b) && Within(b, n)
  {
    forall s | s in b ensures s in a { assert s in multiset(b); }
    forall i, j | 0 <= i < j < |b|
      ensures b[i].offset + b[i].length <= b[j].offset || b[j].offset + b[j].length <= b[i].offset
    {
      assert b[i] in a && b[j] in a;
      if b[i] == b[j] {
        OccursOnce(a, b[i], n);
        TwicePresent(b, i, j);
      }
    }
  }

  lemma {:induction false} OccursOnce(a: seq<Span>, s: Span, n: nat)
    requires Disjoint(a) && Within(a, n) && s in a
    ensures multiset(a)[s] == 1
  {
    var i :| 0 <= i < |a| && a[i] == s;
    assert a == a[..i] + [s] + a[i + 1..];
    assert s !in a[..i] && s !in a[i + 1..];
    assert multiset(a) == multiset(a[..i]) + multiset{s} + multiset(a[i + 1..]);
  }

  lemma {:induction false} TwicePresent(b: seq<Span>, i: nat, j: nat)
    requires i < j < |b| && b[i] == b[j]
    ensures multiset(b)[b[i]] >= 2
  {
    assert b == b[..i] + [b[i]] + b[i + 1..j] + [b[j]] + b[j + 1..];
  }

  /** For pairwise disjoint spans of positive length within the text, masking
      cannot fail and gives the left-to-right text of the unsorted list; so
      neither the list's order nor the sort's treatment of it matters. */
  lemma {:induction false} DisjointMasking(content: string, spans: seq<Span>, ordered: seq<Span>)
    requires IsOrdering(spans, ordered) && Disjoint(spans) && Within(spans, |content|)
    ensures SpliceAll(content, ordered, MASK) == Some(LeftToRight(content, spans, 0))
  {
    PermutedDisjoint(spans, ordered, |content|);
    forall s ensures s in ordered <==> s in spans {
      assert s in ordered <==> s in multiset(ordered);
      assert s in spans <==> s in multiset(spans);
    }
    SameSpansSameText(content, spans, ordered, 0);
    assert content + "" == content;
    assert LeftToRight(content, ordered, 0) + "" == LeftToRight(content, ordered, 0);
    DisjointFrom(content, ordered, "");
  }

  // ----- length

  function TotalLength(spans: seq<Span>): int {
    if spans == [] then 0 else spans[0].length + TotalLength(spans[1..])
  }

  lemma {:induction false} TotalLengthRemoves(spans: seq<Span>, i: nat)
    requires i < |spans|
    ensures TotalLength(spans) == spans[i].length + TotalLength(spans[..i] + spans[i + 1..])
  {
    if i == 0 {
      assert spans[..0] + spans[1..] == spans[1..];
    } else {
      TotalLengthRemoves(spans[1..], i - 1);
      assert (spans[..i] + spans[i + 1..])[1..] == spans[1..][..i - 1] + spans[1..][i..];
    }
  }

  lemma {:induction false} MultisetWithout(a: seq<Span>, i: nat)
    requires i < |a|
    ensures multiset(a[..i] + a[i + 1..]) == multiset(a) - multiset{a[i]}
  {
    assert a == a[..i] + [a[i]] + a[i + 1..];
  }

  lemma {:induction false} MultisetOfRest(a: seq<Span>)
    requires a != []
    ensures multiset(a[1..]) == multiset(a) - multiset{a[0]}
  {
    MultisetWithout(a, 0);
    assert a[..0] + a[1..] == a[1..];
  }

  lemma {:induction false} SameLength(a: seq<Span>, b: seq<Span>)
    requires multiset(a) == multiset(b)
    ensures |a| == |b|
  {
    assert |a| == |multiset(a)| && |b| == |multiset(b)|;
  }

  /** The first span of one list is somewhere in the other; the rest permute. */
  lemma {:induction false} FirstIsElsewhere(a: seq<Span>, b: seq<Span>) returns (i: nat)
    requires multiset(a) == multiset(b) && a != []
    ensures i < |b| && b[i] == a[0] && multiset(a[1..]) == multiset(b[..i] + b[i + 1..])
  {
    assert a[0] in multiset(b);
    i :| 0 <= i < |b| && b[i] == a[0];
    MultisetOfRest(a);
    MultisetWithout(b, i);
  }

  lemma {:induction false} TotalLengthPermutes(a: seq<Span>, b: seq<Span>)
    requires multiset(a) == multiset(b)
    ensures TotalLength(a) == TotalLength(b)
    decreases |a|
  {
    SameLength(a, b);
    if a != [] {
      var i := FirstIsElsewhere(a, b);
      TotalLengthPermutes(a[1..], b[..i] + b[i + 1..]);
      TotalLengthRemoves(b, i);
    }
  }

  lemma {:induction false} SpliceAllLength<T>(b: seq<T>, ordered: seq<Span>, mask: seq<T>)
    ensures match SpliceAll(b, ordered, mask)
            case None => true
            case Some(t) =>
              && |t| == |b| - TotalLength(ordered) + |mask| * |ordered|
              && (ordered != [] ==> |t| >= |mask|)
    decreases |ordered|
  {
    if ordered != [] && ordered[0].InRange(|b|) {
      SpliceAllLength(Splice(b, ordered[0], mask), ordered[1..], mask);
      assert |mask| * |ordered| == |mask| + |mask| * |ordered[1..]|;
    }
  }

  /** Whenever masking succeeds each span costs its length and adds ten bytes, and a
      text that was not empty stays so. */
  lemma {:induction false} MaskedLength(content: string, spans: seq<Span>, ordered: seq<Span>)
    requires IsOrdering(spans, ordered)
    ensures match SpliceAll(content, ordered, MASK)
            case None => true
            case Some(t) =>
              && |t| == |content| - TotalLength(spans) + 10 * |spans|
              && (content != "" ==> t != "")
  {
    SpliceAllLength(content, ordered, MASK);
    TotalLengthPermutes(spans, ordered);
    SameLength(spans, ordered);
  }
}
