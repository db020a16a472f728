/** What redaction does to the prose a parser finds: parsing the redacted body
    gives the masked segments of the original one. */
module RedactProofs {
  import opened Basics
  import opened Spans
  import opened Wire
  import opened Parser
  import opened Redact

  // ----- one text

  /** What a text becomes under the redactions; itself when masking it fails. */
  function Masked(lib: Library, reds: seq<Redaction>, role: string, index: int, content: string): string {
    match MaskText(lib, reds, role, index, content)
    case Ok(t) => t.value
    case Err(_) => content
  }

  /** An empty text may be named, but only without spans. */
  predicate NoSpansOnEmptyText(reds: seq<Redaction>) {
    forall k :: 0 <= k < |reds| && reds[k].content == "" ==> reds[k].spans == []
  }

  /** A masked text begins as before or with the mask. */
  ghost predicate SameStart(before: string, after: string)
    requires before != ""
  {
    after != "" && (after[0] == before[0] || after[0] == MASK[0])
  }

  lemma {:induction false} SpliceAllStart(b: string, ordered: seq<Span>)
    requires b != ""
    ensures match SpliceAll(b, ordered, MASK)
            case None => true
            case Some(t) => t != "" && (t[0] == b[0] || t[0] == MASK[0])
    decreases |ordered|
  {
    if ordered != [] && ordered[0].InRange(|b|) {
      var next := Splice(b, ordered[0], MASK);
      assert next != "" && (next[0] == b[0] || next[0] == MASK[0]);
      SpliceAllStart(next, ordered[1..]);
    }
  }

  lemma {:induction false} MaskFromFacts(lib: Library, reds: seq<Redaction>, text: TextSegment, out: string, k: nat)
    requires k <= |reds| && out != ""
    ensures match MaskFrom(lib, reds, text, out, k)
            case Err(e) => e == SpanOutOfRange
            case Ok(t) =>
              && t.value != "" && (t.value[0] == out[0] || t.value[0] == MASK[0])
              && (!t.changed ==> t.value == out)
              && (t.changed <==> exists j :: k <= j < |reds| && reds[j].Key() == text)
    decreases |reds| - k
  {
    if k < |reds| {
      if reds[k].Key() != text {
        MaskFromFacts(lib, reds, text, out, k + 1);
      } else {
        SpliceAllStart(out, lib.sortSpans(reds[k].spans));
        var spliced := SpliceAll(out, lib.sortSpans(reds[k].spans), MASK);
        if spliced.Some? {
          MaskFromFacts(lib, reds, text, spliced.value, k + 1);
        }
      }
    }
  }

  lemma {:induction false} MaskFromUnnamed(lib: Library, reds: seq<Redaction>, text: TextSegment, out: string, k: nat)
    requires k <= |reds| && forall j :: k <= j < |reds| ==> reds[j].Key() != text
    ensures MaskFrom(lib, reds, text, out, k) == Ok(Edit(out, false))
    decreases |reds| - k
  {
    if k < |reds| {
      MaskFromUnnamed(lib, reds, text, out, k + 1);
    }
  }

  lemma {:induction false} NothingToSort(lib: Library)
    requires lib.Lawful()
    ensures lib.sortSpans([]) == []
  {
    var none: seq<Span> := [];
    var ordered := lib.sortSpans(none);
    assert IsOrdering(none, ordered);
    assert |ordered| == |multiset(ordered)| == |multiset(none)| == 0;
  }

  lemma {:induction false} MaskFromEmpty(lib: Library, reds: seq<Redaction>, text: TextSegment, k: nat)
    requires lib.Lawful() && NoSpansOnEmptyText(reds) && k <= |reds| && text.content == ""
    ensures MaskFrom(lib, reds, text, "", k).Ok? && MaskFrom(lib, reds, text, "", k).value.value == ""
    decreases |reds| - k
  {
    if k < |reds| {
      NothingToSort(lib);
      MaskFromEmpty(lib, reds, text, k + 1);
    }
  }

  /** An empty text that can be masked stays empty if and only if nothing that
      names it has spans. */
  lemma {:induction false} EmptyStaysEmpty(lib: Library, reds: seq<Redaction>, text: TextSegment, k: nat)
    requires lib.Lawful() && k <= |reds| && text.content == "" && MaskFrom(lib, reds, text, "", k).Ok?
    ensures MaskFrom(lib, reds, text, "", k).value.value == "" <==>
            forall j :: k <= j < |reds| && reds[j].Key() == text ==> reds[j].spans == []
    decreases |reds| - k
  {
    if k < |reds| {
      if reds[k].Key() != text || reds[k].spans == [] {
        NothingToSort(lib);
        EmptyStaysEmpty(lib, reds, text, k + 1);
      } else {
        var ordered := lib.sortSpans(reds[k].spans);
        assert IsOrdering(reds[k].spans, ordered);
        SameLength(reds[k].spans, ordered);
        SpliceAllLength("", ordered, MASK);
        MaskFromFacts(lib, reds, text, SpliceAll("", ordered, MASK).value, k + 1);
      }
    }
  }

  lemma {:induction false} MaskTextFacts(lib: Library, reds: seq<Redaction>, role: string, index: int, content: string)
    requires lib.Lawful() && NoSpansOnEmptyText(reds)
    ensures Masked(lib, reds, role, index, content) == "" <==> content == ""
    ensures content != "" ==> SameStart(content, Masked(lib, reds, role, index, content))
    ensures match MaskText(lib, reds, role, index, content)
            case Err(e) => e == SpanOutOfRange
            case Ok(t) => t.changed || t.value == content
  {
    if content == "" {
      MaskFromEmpty(lib, reds, TextSegment(role, index, content), 0);
    } else {
      MaskFromFacts(lib, reds, TextSegment(role, index, content), content, 0);
    }
  }

  // ----- pieces and prose

  function ReplacedText(lib: Library, reds: seq<Redaction>, role: string, index: int, text: string,
                        verbatim: bool): string
  {
    var masked := Masked(lib, reds, role, index, text);
    if verbatim then lib.compact(masked) else masked
  }

  function Replaced(lib: Library, reds: seq<Redaction>, role: string, index: int, pieces: seq<Piece>): (r: seq<Piece>)
    ensures |r| == |pieces|
  {
    seq(|pieces|, i requires 0 <= i < |pieces| =>
      Piece(ReplacedText(lib, reds, role, index, pieces[i].text, pieces[i].verbatim), pieces[i].verbatim))
  }

  function MaskedProse(lib: Library, reds: seq<Redaction>, p: Prose): Prose {
    var s := p.segment;
    Prose(TextSegment(s.role, s.index, ReplacedText(lib, reds, s.role, s.index, s.content, p.verbatim)), p.verbatim)
  }

  function AllMasked(lib: Library, reds: seq<Redaction>, prose: seq<Prose>): (r: seq<Prose>)
    ensures |r| == |prose|
  {
    seq(|prose|, i requires 0 <= i < |prose| => MaskedProse(lib, reds, prose[i]))
  }

  lemma {:induction false} ReplacedAppend(lib: Library, reds: seq<Redaction>, role: string, index: int, a: seq<Piece>,
                                          b: seq<Piece>)
    ensures Replaced(lib, reds, role, index, a + b)
            == Replaced(lib, reds, role, index, a) + Replaced(lib, reds, role, index, b)
  {}

  lemma {:induction false} AllMaskedAppend(lib: Library, reds: seq<Redaction>, a: seq<Prose>, b: seq<Prose>)
    ensures AllMasked(lib, reds, a + b) == AllMasked(lib, reds, a) + AllMasked(lib, reds, b)
  {}

  lemma {:induction false} LocatedReplaced(lib: Library, reds: seq<Redaction>, role: string, index: int,
                                           pieces: seq<Piece>)
    requires lib.Lawful() && NoSpansOnEmptyText(reds)
    ensures Located(role, index, Replaced(lib, reds, role, index, pieces))
            == AllMasked(lib, reds, Located(role, index, pieces))
  {
    if pieces != [] {
      var p, rest := pieces[0], pieces[1..];
      var head := if p.text == "" then [] else [Prose(TextSegment(role, index, p.text), p.verbatim)];
      LocatedReplaced(lib, reds, role, index, rest);
      AllMaskedAppend(lib, reds, head, Located(role, index, rest));
      HeadReplaced(lib, reds, role, index, p);
      var replaced := Replaced(lib, reds, role, index, pieces);
      assert replaced[1..] == Replaced(lib, reds, role, index, rest);
    }
  }

  lemma {:induction false} HeadReplaced(lib: Library, reds: seq<Redaction>, role: string, index: int, p: Piece)
    requires lib.Lawful() && NoSpansOnEmptyText(reds)
    ensures var text := ReplacedText(lib, reds, role, index, p.text, p.verbatim);
            && (text == "" <==> p.text == "")
            && (p.text != "" ==>
                  AllMasked(lib, reds, [Prose(TextSegment(role, index, p.text), p.verbatim)])
                  == [Prose(TextSegment(role, index, text), p.verbatim)])
    ensures AllMasked(lib, reds, []) == []
  {
    MaskTextFacts(lib, reds, role, index, p.text);
  }

  function NonEmpty(pieces: seq<Piece>): seq<Piece> {
    if pieces == [] then []
    else (if pieces[0].text == "" then [] else [pieces[0]]) + NonEmpty(pieces[1..])
  }

  /** Some pieces have become others: each one masked, but for those without text. */
  predicate Masks(lib: Library, reds: seq<Redaction>, role: string, index: int, before: seq<Piece>, after: seq<Piece>) {
    NonEmpty(after) == Replaced(lib, reds, role, index, NonEmpty(before))
  }

  lemma {:induction false} NonEmptyAppend(a: seq<Piece>, b: seq<Piece>)
    ensures NonEmpty(a + b) == NonEmpty(a) + NonEmpty(b)
  {
    if a == [] {
      assert a + b == b;
    } else {
      assert (a + b)[1..] == a[1..] + b;
      NonEmptyAppend(a[1..], b);
    }
  }

  lemma {:induction false} LocatedNonEmpty(role: string, index: int, pieces: seq<Piece>)
    ensures Located(role, index, NonEmpty(pieces)) == Located(role, index, pieces)
  {
    if pieces != [] {
      var rest := NonEmpty(pieces[1..]);
      LocatedNonEmpty(role, index, pieces[1..]);
      if pieces[0].text == "" {
        assert [] + rest == rest;
      } else {
        assert ([pieces[0]] + rest)[1..] == rest;
      }
    }
  }

  lemma {:induction false} ReplacedMasks(lib: Library, reds: seq<Redaction>, role: string, index: int,
                                         pieces: seq<Piece>)
    requires lib.Lawful() && NoSpansOnEmptyText(reds)
    ensures Masks(lib, reds, role, index, pieces, Replaced(lib, reds, role, index, pieces))
  {
    if pieces != [] {
      var replaced := Replaced(lib, reds, role, index, pieces);
      assert replaced[1..] == Replaced(lib, reds, role, index, pieces[1..]);
      ReplacedMasks(lib, reds, role, index, pieces[1..]);
      HeadReplaced(lib, reds, role, index, pieces[0]);
      var head := if pieces[0].text == "" then [] else [pieces[0]];
      ReplacedAppend(lib, reds, role, index, head, NonEmpty(pieces[1..]));
    }
  }

  lemma {:induction false} MasksAppend(lib: Library, reds: seq<Redaction>, role: string, index: int,
                                       a: seq<Piece>, a': seq<Piece>, b: seq<Piece>, b': seq<Piece>)
    requires Masks(lib, reds, role, index, a, a') && Masks(lib, reds, role, index, b, b')
    ensures Masks(lib, reds, role, index, a + b, a' + b')
  {
    NonEmptyAppend(a, b);
    NonEmptyAppend(a', b');
    ReplacedAppend(lib, reds, role, index, NonEmpty(a), NonEmpty(b));
  }

  lemma {:induction false} MasksLocated(lib: Library, reds: seq<Redaction>, role: string, index: int,
                                        before: seq<Piece>, after: seq<Piece>)
    requires lib.Lawful() && NoSpansOnEmptyText(reds) && Masks(lib, reds, role, index, before, after)
    ensures Located(role, index, after) == AllMasked(lib, reds, Located(role, index, before))
  {
    LocatedNonEmpty(role, index, before);
    LocatedNonEmpty(role, index, after);
    LocatedReplaced(lib, reds, role, index, NonEmpty(before));
  }

  // ----- content

  lemma {:induction false} StringInCompacted(lib: Library, j: Json, key: string)
    requires j.Obj?
    ensures StringIn(lib.Compacted(j).fields, key) == StringIn(j.fields, key)
  {}

  lemma {:induction false} KindOfAfter(lib: Library, ep: Endpoint, b: Json, key: string, v: Json)
    requires b.Obj? && key != "type"
    ensures KindOf(ep, lib.Compacted(lib.Encoded(Obj("", b.fields[key := v]))).fields) == KindOf(ep, b.fields)
    ensures KindOf(ep, lib.Compacted(b).fields) == KindOf(ep, b.fields)
  {
    var b' := lib.Encoded(Obj("", b.fields[key := v]));
    StringInCompacted(lib, b', "type");
    StringInCompacted(lib, b, "type");
    assert StringIn(b'.fields, "type") == StringIn(b.fields, "type");
  }

  /** `after` is what the walk makes of the block b. */
  ghost predicate IsBlock(lib: Library, reds: seq<Redaction>, ep: Endpoint, role: string, index: int, b: Json,
                          after: Json)
  {
    var r := Block(lib, reds, ep, role, index, b);
    r.Ok? && after == r.value.value
  }

  /** `after` is what the walk makes of some blocks, one by one. */
  ghost predicate AreBlocks(lib: Library, reds: seq<Redaction>, ep: Endpoint, role: string, index: int,
                            blocks: seq<Json>, after: seq<Json>)
  {
    && |after| == |blocks|
    && forall q :: 0 <= q < |blocks| ==> IsBlock(lib, reds, ep, role, index, blocks[q], after[q])
  }

  lemma {:induction false} OneMoreBlock(lib: Library, reds: seq<Redaction>, ep: Endpoint, role: string, index: int,
                                        b: Json, after: Json, blocks: seq<Json>, rest: seq<Json>)
    requires IsBlock(lib, reds, ep, role, index, b, after) && AreBlocks(lib, reds, ep, role, index, blocks, rest)
    ensures AreBlocks(lib, reds, ep, role, index, [b] + blocks, [after] + rest)
  {}

  lemma {:induction false} BlocksPointwise(lib: Library, reds: seq<Redaction>, ep: Endpoint, role: string, index: int,
                                           j: Json, i: nat)
    requires j.Arr? && i <= |j.items| && Blocks(lib, reds, ep, role, index, j, i).Ok?
    ensures var r := Blocks(lib, reds, ep, role, index, j, i).value;
            AreBlocks(lib, reds, ep, role, index, j.items[i..], r.value) && (!r.changed ==> r.value == j.items[i..])
    decreases |j.items| - i
  {
    if i < |j.items| {
      BlocksPointwise(lib, reds, ep, role, index, j, i + 1);
      var b := Block(lib, reds, ep, role, index, j.items[i]).value;
      var rest := Blocks(lib, reds, ep, role, index, j, i + 1).value;
      OneMoreBlock(lib, reds, ep, role, index, j.items[i], b.value, j.items[i + 1..], rest.value);
      assert [j.items[i]] + j.items[i + 1..] == j.items[i..];
    }
  }

  /** Redacted content is an array exactly as before, block by block. */
  lemma {:induction false} ContentOfArray(lib: Library, reds: seq<Redaction>, ep: Endpoint, role: string, index: int,
                                          j: Json)
    requires j.Arr? && Content(lib, reds, ep, role, index, j).Ok?
    ensures var r := Content(lib, reds, ep, role, index, j).value;
            && r.Arr? && |r.items| == |j.items|
            && forall q :: 0 <= q < |j.items| ==> IsBlock(lib, reds, ep, role, index, j.items[q], r.items[q])
  {
    BlocksPointwise(lib, reds, ep, role, index, j, 0);
    assert j.items[0..] == j.items;
  }

  lemma {:induction false} ContentCommutes(lib: Library, reds: seq<Redaction>, ep: Endpoint, role: string, index: int,
                                           j: Json)
    requires lib.Lawful() && NoSpansOnEmptyText(reds) && Content(lib, reds, ep, role, index, j).Ok?
    ensures Masks(lib, reds, role, index, ContentOf(ep, j),
                  ContentOf(ep, lib.Compacted(Content(lib, reds, ep, role, index, j).value)))
    decreases j, 2
  {
    if j.AsString().Some? {
      StringContentCommutes(lib, reds, ep, role, index, j);
    } else if j.Arr? {
      var r := Content(lib, reds, ep, role, index, j).value;
      ContentOfArray(lib, reds, ep, role, index, j);
      var c := lib.Compacted(r);
      forall q | 0 <= q < |j.items| ensures c.items[q].AsObject().Some? == j.items[q].AsObject().Some? {
        BlockKeepsShape(lib, reds, ep, role, index, j.items[q]);
      }
      assert AllObjects(c.items) == AllObjects(j.items);
      if AllObjects(j.items) {
        BlocksCommute(lib, reds, ep, role, index, j, r);
      }
    }
  }

  lemma {:induction false} StringContentCommutes(lib: Library, reds: seq<Redaction>, ep: Endpoint, role: string,
                                                 index: int, j: Json)
    requires lib.Lawful() && NoSpansOnEmptyText(reds) && Content(lib, reds, ep, role, index, j).Ok?
    requires j.AsString().Some?
    ensures Masks(lib, reds, role, index, ContentOf(ep, j),
                  ContentOf(ep, lib.Compacted(Content(lib, reds, ep, role, index, j).value)))
  {
    var s := j.AsString().value;
    MaskTextFacts(lib, reds, role, index, s);
    ReplacedMasks(lib, reds, role, index, [Piece(s, false)]);
    assert j.Null? ==> [Piece("", false)][1..] == [];
  }

  lemma {:induction false} BlockKeepsShape(lib: Library, reds: seq<Redaction>, ep: Endpoint, role: string, index: int,
                                           b: Json)
    requires Block(lib, reds, ep, role, index, b).Ok?
    ensures var r := lib.Compacted(Block(lib, reds, ep, role, index, b).value.value);
            (r.Obj? <==> b.Obj?) && (r.Null? <==> b.Null?)
  {}

  /** The array of blocks, from the i-th on. */
  function BlockPieces(ep: Endpoint, j: Json, i: nat): seq<Piece>
    requires j.Arr? && i <= |j.items|
  {
    if ep == Anthropic then AnthropicBlocks(j, i) else OpenAIParts(j.items, i)
  }

  function OneBlock(ep: Endpoint, b: Json): seq<Piece> {
    if ep == Anthropic then AnthropicBlock(b) else OpenAIPart(b)
  }

  /** c[q] holds what redaction makes of the pieces of the q-th block. */
  ghost predicate BlocksReplaced(lib: Library, reds: seq<Redaction>, ep: Endpoint, role: string, index: int, j: Json,
                                 c: Json)
  {
    && j.Arr? && c.Arr? && |c.items| == |j.items|
    && forall q :: 0 <= q < |j.items| ==>
         Masks(lib, reds, role, index, OneBlock(ep, j.items[q]), OneBlock(ep, c.items[q]))
  }

  lemma {:induction false} BlocksConcatenate(lib: Library, reds: seq<Redaction>, ep: Endpoint, role: string, index: int,
                                             j: Json, c: Json, i: nat)
    requires BlocksReplaced(lib, reds, ep, role, index, j, c) && i <= |j.items|
    ensures Masks(lib, reds, role, index, BlockPieces(ep, j, i), BlockPieces(ep, c, i))
    decreases |j.items| - i
  {
    if i < |j.items| {
      BlocksConcatenate(lib, reds, ep, role, index, j, c, i + 1);
      MasksAppend(lib, reds, role, index, OneBlock(ep, j.items[i]), OneBlock(ep, c.items[i]),
                  BlockPieces(ep, j, i + 1), BlockPieces(ep, c, i + 1));
      assert BlockPieces(ep, c, i) == OneBlock(ep, c.items[i]) + BlockPieces(ep, c, i + 1);
    }
  }

  lemma {:induction false} BlocksCommute(lib: Library, reds: seq<Redaction>, ep: Endpoint, role: string, index: int,
                                         j: Json, r: Json)
    requires lib.Lawful() && NoSpansOnEmptyText(reds) && j.Arr? && r.Arr? && |r.items| == |j.items|
    requires forall q :: 0 <= q < |j.items| ==> IsBlock(lib, reds, ep, role, index, j.items[q], r.items[q])
    ensures Masks(lib, reds, role, index, BlockPieces(ep, j, 0), BlockPieces(ep, lib.Compacted(r), 0))
    decreases j, 1
  {
    var c := lib.Compacted(r);
    forall q | 0 <= q < |j.items|
      ensures Masks(lib, reds, role, index, OneBlock(ep, j.items[q]), OneBlock(ep, c.items[q]))
    {
      assert IsBlock(lib, reds, ep, role, index, j.items[q], r.items[q]);
      BlockCommutes(lib, reds, ep, role, index, j.items[q]);
    }
    BlocksConcatenate(lib, reds, ep, role, index, j, c, 0);
  }

  lemma {:induction false} BlockCommutes(lib: Library, reds: seq<Redaction>, ep: Endpoint, role: string, index: int,
                                         b: Json)
    requires lib.Lawful() && NoSpansOnEmptyText(reds) && Block(lib, reds, ep, role, index, b).Ok?
    ensures Masks(lib, reds, role, index, OneBlock(ep, b),
                  OneBlock(ep, lib.Compacted(Block(lib, reds, ep, role, index, b).value.value)))
    decreases b, 3
  {
    var r := Block(lib, reds, ep, role, index, b).value.value;
    var c := lib.Compacted(r);
    ReplacedMasks(lib, reds, role, index, OneBlock(ep, b));
    if b.Obj? {
      match KindOf(ep, b.fields) {
        case Text => TextBlockCommutes(lib, reds, ep, role, index, b);
        case ToolUse => ToolUseBlockCommutes(lib, reds, ep, role, index, b);
        case ToolResult =>
          ToolResultBlock(lib, reds, ep, role, index, b);
          if ep == Anthropic && "content" in b.fields {
            ContentCommutes(lib, reds, ep, role, index, b.fields["content"]);
          }
        case OtherBlock => KindOfAfter(lib, ep, b, "text", b);
      }
    }
  }

  lemma {:induction false} TextBlockShape(lib: Library, reds: seq<Redaction>, ep: Endpoint, role: string, index: int,
                                          b: Json)
    requires lib.Lawful() && NoSpansOnEmptyText(reds) && Block(lib, reds, ep, role, index, b).Ok?
    requires b.Obj? && KindOf(ep, b.fields) == Text
    ensures var c := lib.Compacted(Block(lib, reds, ep, role, index, b).value.value);
            && c.Obj? && KindOf(ep, c.fields) == Text
            && StringIn(c.fields, "text") == Masked(lib, reds, role, index, StringIn(b.fields, "text"))
  {
    var r := Block(lib, reds, ep, role, index, b).value.value;
    var text := StringIn(b.fields, "text");
    MaskTextFacts(lib, reds, role, index, text);
    var masked := MaskText(lib, reds, role, index, text).value;
    assert "text" != "type" by { assert "text"[1] != "type"[1]; }
    KindOfAfter(lib, ep, b, "text", lib.Encoded(Str("", masked.value)));
    StringInCompacted(lib, r, "text");
    assert StringIn(r.fields, "text") == masked.value;
  }

  lemma {:induction false} TextBlockCommutes(lib: Library, reds: seq<Redaction>, ep: Endpoint, role: string, index: int,
                                             b: Json)
    requires lib.Lawful() && NoSpansOnEmptyText(reds) && Block(lib, reds, ep, role, index, b).Ok?
    requires b.Obj? && KindOf(ep, b.fields) == Text
    ensures OneBlock(ep, lib.Compacted(Block(lib, reds, ep, role, index, b).value.value))
            == Replaced(lib, reds, role, index, OneBlock(ep, b))
  {
    var c := lib.Compacted(Block(lib, reds, ep, role, index, b).value.value);
    TextBlockShape(lib, reds, ep, role, index, b);
    MaskTextFacts(lib, reds, role, index, StringIn(b.fields, "text"));
    assert OneBlock(ep, b) == TextPiece(b.fields);
    assert OneBlock(ep, c) == TextPiece(c.fields);
  }

  lemma {:induction false} MaskRawText(lib: Library, reds: seq<Redaction>, role: string, index: int, j: Json)
    requires j.raw != "" && MaskRaw(lib, reds, role, index, j).Ok?
    ensures MaskRaw(lib, reds, role, index, j).value.value.raw == Masked(lib, reds, role, index, j.raw)
    ensures !MaskRaw(lib, reds, role, index, j).value.changed ==> MaskRaw(lib, reds, role, index, j).value.value == j
  {
    MaskFromFacts(lib, reds, TextSegment(role, index, j.raw), j.raw, 0);
  }

  lemma {:induction false} ToolUseBlockShape(lib: Library, reds: seq<Redaction>, ep: Endpoint, role: string, index: int,
                                             b: Json)
    requires Block(lib, reds, ep, role, index, b).Ok? && b.Obj? && KindOf(ep, b.fields) == ToolUse
    ensures var r := Block(lib, reds, ep, role, index, b).value.value;
            && r.Obj? && KindOf(ep, lib.Compacted(r).fields) == ToolUse && r.fields.Keys == b.fields.Keys
            && ("input" in b.fields ==>
                  var raw := b.fields["input"].raw;
                  r.fields["input"].raw == if raw == "" then "" else Masked(lib, reds, role, index, raw))
  {
    assert "input" != "type" by { assert |"input"| != |"type"|; }
    var input := ToolUseInput(lib, reds, role, index, b.fields).value;
    KindOfAfter(lib, ep, b, "input", input.value);
    if "input" in b.fields && b.fields["input"].raw != "" {
      MaskRawText(lib, reds, role, index, b.fields["input"]);
    }
  }

  lemma {:induction false} ToolUseBlockCommutes(lib: Library, reds: seq<Redaction>, ep: Endpoint, role: string,
                                                index: int, b: Json)
    requires lib.Lawful() && NoSpansOnEmptyText(reds) && Block(lib, reds, ep, role, index, b).Ok?
    requires b.Obj? && KindOf(ep, b.fields) == ToolUse
    ensures OneBlock(ep, lib.Compacted(Block(lib, reds, ep, role, index, b).value.value))
            == Replaced(lib, reds, role, index, OneBlock(ep, b))
  {
    var r := Block(lib, reds, ep, role, index, b).value.value;
    var c := lib.Compacted(r);
    ToolUseBlockShape(lib, reds, ep, role, index, b);
    if "input" in b.fields {
      MaskTextFacts(lib, reds, role, index, b.fields["input"].raw);
      assert c.fields["input"].raw == lib.compact(r.fields["input"].raw);
    }
  }

  lemma {:induction false} ToolResultBlock(lib: Library, reds: seq<Redaction>, ep: Endpoint, role: string, index: int,
                                           b: Json)
    requires Block(lib, reds, ep, role, index, b).Ok? && b.Obj? && KindOf(ep, b.fields) == ToolResult
    ensures var r := Block(lib, reds, ep, role, index, b).value.value;
            && r.Obj? && KindOf(ep, lib.Compacted(r).fields) == ToolResult && r.fields.Keys == b.fields.Keys
            && ("content" in b.fields ==>
                  var content := Content(lib, reds, ep, role, index, b.fields["content"]);
                  content.Ok? && r.fields["content"] == content.value)
  {
    assert "content" != "type" by { assert |"content"| != |"type"|; }
    if "content" in b.fields {
      var content := Content(lib, reds, ep, role, index, b.fields["content"]);
      KindOfAfter(lib, ep, b, "content", content.value);
    } else {
      KindOfAfter(lib, ep, b, "content", b);
    }
  }

  // ----- tool calls

  /** Tool-call arguments keep their form: a string stays a string, and what was
      inline stays inline, because masking cannot make a text begin with a quote or an n. */
  lemma {:induction false} ArgumentsCommute(lib: Library, reds: seq<Redaction>, role: string, index: int, args: Json)
    requires lib.Lawful() && NoSpansOnEmptyText(reds) && args.KindShows()
    requires ToolArguments(lib, reds, role, index, args).Ok?
    ensures [Arguments(lib.Compacted(ToolArguments(lib, reds, role, index, args).value.value))]
            == Replaced(lib, reds, role, index, [Arguments(args)])
  {
    var r := ToolArguments(lib, reds, role, index, args).value.value;
    match args.AsString() {
      case Some(s) =>
        MaskTextFacts(lib, reds, role, index, s);
        assert r.AsString() == Some(Masked(lib, reds, role, index, s));
      case None =>
        MaskTextFacts(lib, reds, role, index, args.raw);
        MaskRawText(lib, reds, role, index, args);
        InlineStaysInline(lib, reds, role, index, args);
    }
  }

  lemma {:induction false} InlineStaysInline(lib: Library, reds: seq<Redaction>, role: string, index: int, args: Json)
    requires lib.Lawful() && NoSpansOnEmptyText(reds) && args.KindShows() && args.AsString().None?
    requires MaskRaw(lib, reds, role, index, args).Ok?
    ensures MaskRaw(lib, reds, role, index, args).value.value.AsString().None?
  {
    MaskTextFacts(lib, reds, role, index, args.raw);
    var t := MaskText(lib, reds, role, index, args.raw).value;
    if t.changed {
      var masked := lib.Reparsed(t.value).value;
      assert masked == lib.decode(t.value).value.(raw := t.value);
      assert masked.KindShows();
    }
  }

  lemma {:induction false} ToolCallsPointwise(lib: Library, reds: seq<Redaction>, role: string, index: int,
                                              calls: seq<Json>, i: nat)
    requires i <= |calls|
    ensures match ToolCalls(lib, reds, role, index, calls, i)
            case Err(_) => true
            case Ok(e) =>
              && |e.value| == |calls| - i
              && (forall q :: i <= q < |calls| ==> IsToolCall(lib, reds, role, index, calls[q], e.value[q - i]))
              && (!e.changed ==> e.value == calls[i..])
    decreases |calls| - i
  {
    var now := ToolCalls(lib, reds, role, index, calls, i);
    if i < |calls| && now.Ok? {
      ToolCallsPointwise(lib, reds, role, index, calls, i + 1);
      var rest := ToolCalls(lib, reds, role, index, calls, i + 1).value.value;
      forall q | i <= q < |calls| ensures IsToolCall(lib, reds, role, index, calls[q], now.value.value[q - i]) {
        if q > i { assert now.value.value[q - i] == rest[q - (i + 1)]; }
      }
    }
  }

  /** `after` is what the walk makes of a tool call. */
  ghost predicate IsToolCall(lib: Library, reds: seq<Redaction>, role: string, index: int, call: Json, after: Json) {
    var r := ToolCall(lib, reds, role, index, call);
    r.Ok? && after == r.value.value
  }

  /** Every value that tool-call arguments may hold, anywhere in a message, shows its kind. */
  lemma {:induction false} WellFormedField(j: Json, key: string)
    requires WellFormed(j) && j.Obj? && key in j.fields
    ensures WellFormed(j.fields[key]) && j.fields[key].KindShows()
  {}

  lemma {:induction false} ToolCallShape(lib: Library, reds: seq<Redaction>, role: string, index: int, call: Json)
    requires call.Obj? && "arguments" in FunctionOf(call.fields) && ToolCall(lib, reds, role, index, call).Ok?
    ensures var args := ToolArguments(lib, reds, role, index, FunctionOf(call.fields)["arguments"]);
            var r := ToolCall(lib, reds, role, index, call).value.value;
            && args.Ok?
            && r.Obj? && r.fields["function" := call.fields["function"]] == call.fields
            && r.fields["function"].Obj?
            && r.fields["function"].fields == call.fields["function"].fields["arguments" := args.value.value]
  {
    var f := call.fields["function"];
    var args := ToolArguments(lib, reds, role, index, f.fields["arguments"]);
    ToolArgumentsUnchanged(lib, reds, role, index, f.fields["arguments"]);
    var r := ToolCall(lib, reds, role, index, call).value.value;
    assert r.fields["function" := f] == call.fields;
    assert r.fields["function"].fields == f.fields["arguments" := args.value.value];
  }

  lemma {:induction false} ToolArgumentsUnchanged(lib: Library, reds: seq<Redaction>, role: string, index: int,
                                                  args: Json)
    ensures var r := ToolArguments(lib, reds, role, index, args);
            r.Ok? && !r.value.changed ==> r.value.value == args
  {}

  lemma {:induction false} ToolCallCommutes(lib: Library, reds: seq<Redaction>, role: string, index: int, call: Json)
    requires lib.Lawful() && NoSpansOnEmptyText(reds) && WellFormed(call) && ToolCall(lib, reds, role, index, call).Ok?
    ensures ToolCallPieces(lib.Compacted(ToolCall(lib, reds, role, index, call).value.value))
            == Replaced(lib, reds, role, index, ToolCallPieces(call))
  {
    var r := ToolCall(lib, reds, role, index, call).value.value;
    var c := lib.Compacted(r);
    if call.Obj? && "arguments" in FunctionOf(call.fields) {
      var f := call.fields["function"];
      WellFormedField(call, "function");
      WellFormedField(f, "arguments");
      ToolCallShape(lib, reds, role, index, call);
      assert "function" != "type" by { assert |"function"| != |"type"|; }
      StringInCompacted(lib, r, "type");
      assert StringIn(r.fields, "type") == StringIn(call.fields, "type") by {
        assert "type" in r.fields <==> "type" in r.fields["function" := f];
      }
      ArgumentsCommute(lib, reds, role, index, f.fields["arguments"]);
      assert c.fields["function"] == lib.Compacted(r.fields["function"]);
      assert FunctionOf(c.fields)["arguments"] == lib.Compacted(r.fields["function"].fields["arguments"]);
    } else if call.Obj? {
      StringInCompacted(lib, call, "type");
      assert "arguments" !in FunctionOf(c.fields);
    }
  }

  /** r is what the walk makes of an array of tool calls. */
  ghost predicate AreToolCalls(lib: Library, reds: seq<Redaction>, role: string, index: int, tc: Json, r: Json) {
    && tc.Arr? && r.Arr? && |r.items| == |tc.items|
    && forall q :: 0 <= q < |tc.items| ==> IsToolCall(lib, reds, role, index, tc.items[q], r.items[q])
  }

  /** c[q] holds what redaction makes of the pieces of the q-th tool call. */
  ghost predicate CallsReplaced(lib: Library, reds: seq<Redaction>, role: string, index: int, calls: seq<Json>,
                                c: seq<Json>)
  {
    && |c| == |calls|
    && forall q :: 0 <= q < |calls| ==>
        ToolCallPieces(c[q]) == Replaced(lib, reds, role, index, ToolCallPieces(calls[q]))
  }

  lemma {:induction false} CallsConcatenate(lib: Library, reds: seq<Redaction>, role: string, index: int,
                                            calls: seq<Json>, c: seq<Json>, i: nat)
    requires CallsReplaced(lib, reds, role, index, calls, c) && i <= |calls|
    ensures ToolCallsPieces(c, i) == Replaced(lib, reds, role, index, ToolCallsPieces(calls, i))
    decreases |calls| - i
  {
    if i < |calls| {
      CallsConcatenate(lib, reds, role, index, calls, c, i + 1);
      ReplacedAppend(lib, reds, role, index, ToolCallPieces(calls[i]), ToolCallsPieces(calls, i + 1));
    }
  }

  lemma {:induction false} ToolCallsCommute(lib: Library, reds: seq<Redaction>, role: string, index: int, tc: Json,
                                            r: Json)
    requires lib.Lawful() && NoSpansOnEmptyText(reds) && WellFormed(tc)
    requires AreToolCalls(lib, reds, role, index, tc, r)
    ensures ToolCallsPieces(lib.Compacted(r).items, 0) == Replaced(lib, reds, role, index, ToolCallsPieces(tc.items, 0))
  {
    var c := lib.Compacted(r).items;
    forall q | 0 <= q < |tc.items|
      ensures ToolCallPieces(c[q]) == Replaced(lib, reds, role, index, ToolCallPieces(tc.items[q]))
    {
      ToolCallAt(lib, reds, role, index, tc, r, q);
    }
    CallsConcatenate(lib, reds, role, index, tc.items, c, 0);
  }

  lemma {:induction false} ToolCallAt(lib: Library, reds: seq<Redaction>, role: string, index: int, tc: Json, r: Json,
                                      i: nat)
    requires lib.Lawful() && NoSpansOnEmptyText(reds) && WellFormed(tc)
    requires AreToolCalls(lib, reds, role, index, tc, r) && i < |tc.items|
    ensures ToolCallPieces(lib.Compacted(r).items[i]) == Replaced(lib, reds, role, index, ToolCallPieces(tc.items[i]))
  {
    assert IsToolCall(lib, reds, role, index, tc.items[i], r.items[i]);
    ToolCallCommutes(lib, reds, role, index, tc.items[i]);
  }

  lemma {:induction false} ToolCallArrayShape(lib: Library, reds: seq<Redaction>, role: string, index: int, tc: Json)
    requires ToolCallArray(lib, reds, role, index, tc).Ok?
    ensures var r := ToolCallArray(lib, reds, role, index, tc).value;
            && (!tc.Arr? ==> r.value == tc) && (!r.changed ==> r.value == tc)
            && (tc.Arr? ==> r.value.Arr? && |r.value.items| == |tc.items|
                            && forall q :: 0 <= q < |tc.items| ==>
                                IsToolCall(lib, reds, role, index, tc.items[q], r.value.items[q]))
  {
    if tc.Arr? {
      ToolCallsPointwise(lib, reds, role, index, tc.items, 0);
      var calls := ToolCalls(lib, reds, role, index, tc.items, 0).value;
      forall q | 0 <= q < |tc.items| ensures IsToolCall(lib, reds, role, index, tc.items[q], calls.value[q]) {
        assert calls.value[q - 0] == calls.value[q];
      }
    }
  }

  // ----- messages and input items

  lemma {:induction false} KeysDiffer()
    ensures "content" != "role" && "content" != "type" && "content" != "tool_calls"
    ensures "output" != "role" && "output" != "type" && "arguments" != "role" && "arguments" != "type"
    ensures "tool_calls" != "role" && "output" != "arguments" && "messages" != "system"
    ensures "instructions" != "input"
  {
    assert |"content"| == 7 && |"role"| == 4 && |"type"| == 4 && |"tool_calls"| == 10 && |"output"| == 6;
    assert |"arguments"| == 9 && |"messages"| == 8 && |"system"| == 6 && |"instructions"| == 12 && |"input"| == 5;
  }

  /** Content that is a string stays one; anything else does not become one. */
  lemma {:induction false} ContentAsString(lib: Library, reds: seq<Redaction>, ep: Endpoint, role: string, index: int,
                                           j: Json)
    requires lib.Lawful() && NoSpansOnEmptyText(reds) && Content(lib, reds, ep, role, index, j).Ok?
    ensures Content(lib, reds, ep, role, index, j).value.AsString() ==
            match j.AsString() case Some(s) => Some(Masked(lib, reds, role, index, s)) case None => None
  {
    if j.AsString().Some? {
      MaskTextFacts(lib, reds, role, index, j.AsString().value);
    }
  }

  /** A message whose content was rebuilt keeps its other fields. */
  lemma {:induction false} RewrittenShape(lib: Library, reds: seq<Redaction>, ep: Endpoint, role: string, i: int,
                                          item: Json, key: string)
    requires item.Obj? && Rewritten(lib, reds, ep, role, i, item, key).Ok?
    ensures var r := Rewritten(lib, reds, ep, role, i, item, key).value;
            && r.Obj? && r.fields.Keys == item.fields.Keys
            && (forall k :: k in item.fields && k != key ==> r.fields[k] == item.fields[k])
            && (key in item.fields ==>
                  var c := Content(lib, reds, ep, role, i, item.fields[key]);
                  c.Ok? && r.fields[key] == c.value)
  {}

  lemma {:induction false} SameString(lib: Library, a: Json, b: Json, key: string)
    requires a.Obj? && b.Obj? && (key in a.fields <==> key in b.fields)
    requires key in a.fields ==> a.fields[key] == b.fields[key]
    ensures StringIn(lib.Compacted(b).fields, key) == StringIn(a.fields, key)
    ensures key in lib.Compacted(b).fields <==> key in a.fields
  {
    StringInCompacted(lib, b, key);
  }

  lemma {:induction false} MessageContentCommutes(lib: Library, reds: seq<Redaction>, ep: Endpoint, role: string,
                                                  i: int, item: Json)
    requires lib.Lawful() && NoSpansOnEmptyText(reds) && item.Obj?
    requires Rewritten(lib, reds, ep, role, i, item, "content").Ok?
    ensures var c := lib.Compacted(Rewritten(lib, reds, ep, role, i, item, "content").value);
            && c.Obj?
            && Located(role, i, ContentIn(ep, c.fields, "content"))
               == AllMasked(lib, reds, Located(role, i, ContentIn(ep, item.fields, "content")))
            && StringIn(c.fields, "role") == StringIn(item.fields, "role")
            && StringIn(c.fields, "type") == StringIn(item.fields, "type")
            && ("role" in c.fields <==> "role" in item.fields)
  {
    var r := Rewritten(lib, reds, ep, role, i, item, "content").value;
    RewrittenShape(lib, reds, ep, role, i, item, "content");
    KeysDiffer();
    SameString(lib, item, r, "role");
    SameString(lib, item, r, "type");
    if "content" in item.fields {
      ContentCommutes(lib, reds, ep, role, i, item.fields["content"]);
    }
    MasksLocated(lib, reds, role, i, ContentIn(ep, item.fields, "content"),
                 ContentIn(ep, lib.Compacted(r).fields, "content"));
  }

  /** What redaction leaves of a chat message, field by field. */
  lemma {:induction false} ChatMessageShape(lib: Library, reds: seq<Redaction>, i: nat, item: Json)
    requires item.Obj? && ChatMessage(lib, reds, i, item).Ok?
    ensures var m, role := item.fields, StringIn(item.fields, "role");
            var r := ChatMessage(lib, reds, i, item).value;
            && r.Obj? && r.fields.Keys == m.Keys
            && (forall k :: k in m && k != "content" && k != "tool_calls" ==> r.fields[k] == m[k])
            && ("content" in m ==>
                  Content(lib, reds, Chat, role, i, m["content"]).Ok?
                  && r.fields["content"] == Content(lib, reds, Chat, role, i, m["content"]).value)
            && ("tool_calls" in m ==>
                  ToolCallArray(lib, reds, role, i, m["tool_calls"]).Ok?
                  && r.fields["tool_calls"] == ToolCallArray(lib, reds, role, i, m["tool_calls"]).value.value)
  {
    KeysDiffer();
    if "tool_calls" in item.fields {
      var tc := ToolCallArray(lib, reds, StringIn(item.fields, "role"), i, item.fields["tool_calls"]);
      if tc.Ok? {
        ToolCallArrayShape(lib, reds, StringIn(item.fields, "role"), i, item.fields["tool_calls"]);
      }
    }
  }

  lemma {:induction false} ChatMessageCommutes(lib: Library, reds: seq<Redaction>, i: nat, item: Json)
    requires lib.Lawful() && NoSpansOnEmptyText(reds) && WellFormed(item) && item.Obj?
    requires ChatMessage(lib, reds, i, item).Ok?
    ensures ItemProse(Chat, i, lib.Compacted(ChatMessage(lib, reds, i, item).value))
            == AllMasked(lib, reds, ItemProse(Chat, i, item))
  {
    var m, role := item.fields, StringIn(item.fields, "role");
    var r := ChatMessage(lib, reds, i, item).value;
    var c := lib.Compacted(r);
    ChatMessageShape(lib, reds, i, item);
    KeysDiffer();
    SameString(lib, item, r, "role");
    if "content" in m {
      ContentCommutes(lib, reds, Chat, role, i, m["content"]);
    }
    MasksLocated(lib, reds, role, i, ContentIn(Chat, m, "content"), ContentIn(Chat, c.fields, "content"));
    ChatCallsCommute(lib, reds, i, item);
    LocatedReplaced(lib, reds, role, i, CallsIn(m));
    AllMaskedAppend(lib, reds, Located(role, i, ContentIn(Chat, m, "content")), Located(role, i, CallsIn(m)));
  }

  lemma {:induction false} ChatCallsCommute(lib: Library, reds: seq<Redaction>, i: nat, item: Json)
    requires lib.Lawful() && NoSpansOnEmptyText(reds) && WellFormed(item) && item.Obj?
    requires ChatMessage(lib, reds, i, item).Ok?
    ensures var c := lib.Compacted(ChatMessage(lib, reds, i, item).value);
            c.Obj? && CallsIn(c.fields) == Replaced(lib, reds, StringIn(item.fields, "role"), i, CallsIn(item.fields))
  {
    var m, role := item.fields, StringIn(item.fields, "role");
    var r := ChatMessage(lib, reds, i, item).value;
    ChatMessageShape(lib, reds, i, item);
    if "tool_calls" in m {
      WellFormedField(item, "tool_calls");
      ToolCallArrayShape(lib, reds, role, i, m["tool_calls"]);
      assert lib.Compacted(r).fields["tool_calls"] == lib.Compacted(r.fields["tool_calls"]);
      if m["tool_calls"].Arr? {
        ToolCallsCommute(lib, reds, role, i, m["tool_calls"], r.fields["tool_calls"]);
      }
    }
  }

  lemma {:induction false} OutputCommutes(lib: Library, reds: seq<Redaction>, i: nat, item: Json)
    requires lib.Lawful() && NoSpansOnEmptyText(reds) && item.Obj? && "role" !in item.fields
    requires StringIn(item.fields, "type") == "function_call_output" && Item(lib, reds, Responses, i, item).Ok?
    ensures ItemProse(Responses, i, lib.Compacted(Item(lib, reds, Responses, i, item).value))
            == AllMasked(lib, reds, ItemProse(Responses, i, item))
  {
    var r := Item(lib, reds, Responses, i, item).value;
    var c := lib.Compacted(r);
    RewrittenShape(lib, reds, Responses, "tool", i, item, "output");
    KeysDiffer();
    SameString(lib, item, r, "role");
    SameString(lib, item, r, "type");
    var s := StringIn(item.fields, "output");
    MaskTextFacts(lib, reds, "tool", i, s);
    if "output" in item.fields {
      ContentAsString(lib, reds, Responses, "tool", i, item.fields["output"]);
    }
    StringInCompacted(lib, r, "output");
    assert StringIn(c.fields, "output") == Masked(lib, reds, "tool", i, s);
    LocatedReplaced(lib, reds, "tool", i, [Piece(s, false)]);
    assert Replaced(lib, reds, "tool", i, [Piece(s, false)]) == [Piece(Masked(lib, reds, "tool", i, s), false)];
  }

  lemma {:induction false} FunctionCallCommutes(lib: Library, reds: seq<Redaction>, i: nat, item: Json)
    requires lib.Lawful() && NoSpansOnEmptyText(reds) && WellFormed(item) && item.Obj? && "role" !in item.fields
    requires StringIn(item.fields, "type") == "function_call" && "arguments" in item.fields
    requires Item(lib, reds, Responses, i, item).Ok?
    ensures ItemProse(Responses, i, lib.Compacted(Item(lib, reds, Responses, i, item).value))
            == AllMasked(lib, reds, ItemProse(Responses, i, item))
  {
    var r := Item(lib, reds, Responses, i, item).value;
    var c := lib.Compacted(r);
    assert "function_call" != "function_call_output" by { assert |"function_call"| != |"function_call_output"|; }
    var args := item.fields["arguments"];
    WellFormedField(item, "arguments");
    ToolArgumentsUnchanged(lib, reds, "assistant", i, args);
    var a := ToolArguments(lib, reds, "assistant", i, args).value.value;
    assert r.Obj? && r.fields == item.fields["arguments" := a];
    KeysDiffer();
    SameString(lib, item, r, "role");
    SameString(lib, item, r, "type");
    ArgumentsCommute(lib, reds, "assistant", i, args);
    assert c.fields["arguments"] == lib.Compacted(a);
    LocatedReplaced(lib, reds, "assistant", i, ArgumentsIn(item.fields));
  }

  lemma {:induction false} ItemCommutes(lib: Library, reds: seq<Redaction>, ep: Endpoint, i: nat, item: Json)
    requires lib.Lawful() && NoSpansOnEmptyText(reds) && WellFormed(item) && Item(lib, reds, ep, i, item).Ok?
    ensures ItemProse(ep, i, lib.Compacted(Item(lib, reds, ep, i, item).value))
            == AllMasked(lib, reds, ItemProse(ep, i, item))
  {
    if item.Obj? {
      var m := item.fields;
      var role := StringIn(m, "role");
      match ep {
        case Anthropic => MessageContentCommutes(lib, reds, ep, role, i, item);
        case Chat => ChatMessageCommutes(lib, reds, i, item);
        case Responses =>
          StringInCompacted(lib, item, "role");
          StringInCompacted(lib, item, "type");
          if "role" in m {
            if role != "" { MessageContentCommutes(lib, reds, ep, role, i, item); }
          } else if StringIn(m, "type") == "function_call_output" {
            OutputCommutes(lib, reds, i, item);
          } else if StringIn(m, "type") == "function_call" && "arguments" in m {
            FunctionCallCommutes(lib, reds, i, item);
          }
      }
    }
  }

  // ----- the whole body

  lemma {:induction false} ItemsPointwise(lib: Library, reds: seq<Redaction>, ep: Endpoint, items: seq<Json>, i: nat)
    requires i <= |items|
    ensures match Items(lib, reds, ep, items, i)
            case Err(_) => true
            case Ok(after) =>
              |after| == |items| - i && forall q :: i <= q < |items| ==>
                  IsItem(lib, reds, ep, q, items[q], after[q - i])
    decreases |items| - i
  {
    var now := Items(lib, reds, ep, items, i);
    if i < |items| && now.Ok? {
      ItemsPointwise(lib, reds, ep, items, i + 1);
      var rest := Items(lib, reds, ep, items, i + 1).value;
      forall q | i <= q < |items| ensures IsItem(lib, reds, ep, q, items[q], now.value[q - i]) {
        if q > i { assert now.value[q - i] == rest[q - (i + 1)]; }
      }
    }
  }

  /** `after` is what the walk makes of the i-th message or input item. */
  ghost predicate IsItem(lib: Library, reds: seq<Redaction>, ep: Endpoint, i: nat, item: Json, after: Json) {
    var r := Item(lib, reds, ep, i, item);
    r.Ok? && after == r.value
  }

  /** r is what the walk makes of an array of messages or input items. */
  ghost predicate AreItems(lib: Library, reds: seq<Redaction>, ep: Endpoint, j: Json, r: Json) {
    && j.Arr? && r.Arr? && |r.items| == |j.items|
    && forall q :: 0 <= q < |j.items| ==> IsItem(lib, reds, ep, q, j.items[q], r.items[q])
  }

  /** c[q] holds what redaction makes of the prose of the q-th item. */
  ghost predicate ItemsMasked(lib: Library, reds: seq<Redaction>, ep: Endpoint, items: seq<Json>, c: seq<Json>) {
    && |c| == |items|
    && forall q :: 0 <= q < |items| ==> ItemProse(ep, q, c[q]) == AllMasked(lib, reds, ItemProse(ep, q, items[q]))
  }

  lemma {:induction false} ItemsConcatenate(lib: Library, reds: seq<Redaction>, ep: Endpoint, items: seq<Json>,
                                            c: seq<Json>, i: nat)
    requires ItemsMasked(lib, reds, ep, items, c) && i <= |items|
    ensures ItemsProse(ep, c, i) == AllMasked(lib, reds, ItemsProse(ep, items, i))
    decreases |items| - i
  {
    if i < |items| {
      ItemsConcatenate(lib, reds, ep, items, c, i + 1);
      AllMaskedAppend(lib, reds, ItemProse(ep, i, items[i]), ItemsProse(ep, items, i + 1));
    }
  }

  lemma {:induction false} ItemsCommute(lib: Library, reds: seq<Redaction>, ep: Endpoint, j: Json, r: Json)
    requires lib.Lawful() && NoSpansOnEmptyText(reds) && WellFormed(j) && AreItems(lib, reds, ep, j, r)
    ensures ItemsProse(ep, lib.Compacted(r).items, 0) == AllMasked(lib, reds, ItemsProse(ep, j.items, 0))
  {
    var c := lib.Compacted(r).items;
    forall q | 0 <= q < |j.items| ensures ItemProse(ep, q, c[q]) == AllMasked(lib, reds, ItemProse(ep, q, j.items[q])) {
      ItemAt(lib, reds, ep, j, r, q);
    }
    ItemsConcatenate(lib, reds, ep, j.items, c, 0);
  }

  lemma {:induction false} ItemAt(lib: Library, reds: seq<Redaction>, ep: Endpoint, j: Json, r: Json, i: nat)
    requires lib.Lawful() && NoSpansOnEmptyText(reds) && WellFormed(j)
    requires AreItems(lib, reds, ep, j, r) && i < |j.items|
    ensures ItemProse(ep, i, lib.Compacted(r).items[i]) == AllMasked(lib, reds, ItemProse(ep, i, j.items[i]))
  {
    assert IsItem(lib, reds, ep, i, j.items[i], r.items[i]);
    ItemCommutes(lib, reds, ep, i, j.items[i]);
  }

  lemma {:induction false} ItemArrayShape(lib: Library, reds: seq<Redaction>, ep: Endpoint, j: Json)
    requires ItemArray(lib, reds, ep, j).Ok?
    ensures var r := ItemArray(lib, reds, ep, j).value;
            && (j.Null? ==> r == j) && (j.Null? || j.Arr?)
            && (j.Arr? ==> r.Arr? && |r.items| == |j.items|
                           && forall q :: 0 <= q < |j.items| ==> IsItem(lib, reds, ep, q, j.items[q], r.items[q]))
  {
    if j.Arr? {
      ItemsPointwise(lib, reds, ep, j.items, 0);
      var items := Items(lib, reds, ep, j.items, 0).value;
      forall q | 0 <= q < |j.items| ensures IsItem(lib, reds, ep, q, j.items[q], items[q]) {
        assert items[q - 0] == items[q];
      }
    }
  }

  // ----- a redacted body still decodes into the endpoint's structs

  lemma {:induction false} SameStringField(lib: Library, a: Json, b: Json, key: string)
    requires a.Obj? && b.Obj? && (key in a.fields <==> key in b.fields)
    requires key in a.fields ==> a.fields[key] == b.fields[key]
    requires StringField(a.fields, key)
    ensures StringField(lib.Compacted(b).fields, key)
  {
    if key in b.fields {
      assert lib.Compacted(b).fields[key] == lib.Compacted(b.fields[key]);
    }
  }

  lemma {:induction false} ToolCallStillDecodes(lib: Library, reds: seq<Redaction>, role: string, index: int,
                                                call: Json)
    requires ToolCallDecodes(call) && ToolCall(lib, reds, role, index, call).Ok?
    ensures ToolCallDecodes(lib.Compacted(ToolCall(lib, reds, role, index, call).value.value))
  {
    if call.Obj? {
      var r := ToolCall(lib, reds, role, index, call).value.value;
      if "arguments" in FunctionOf(call.fields) {
        ToolCallShape(lib, reds, role, index, call);
        FunctionKept(lib, call.fields["function"], r.fields["function"],
                     ToolArguments(lib, reds, role, index, call.fields["function"].fields["arguments"]).value.value);
        OtherCallFieldsKept(lib, call, r);
      } else {
        OtherCallFieldsKept(lib, call, call);
        if "function" in call.fields && call.fields["function"].Obj? {
          SameStringField(lib, call.fields["function"], call.fields["function"], "name");
        }
      }
    }
  }

  lemma {:induction false} FunctionKept(lib: Library, f: Json, after: Json, args: Json)
    requires f.Obj? && after.Obj? && after.fields == f.fields["arguments" := args] && StringField(f.fields, "name")
    ensures StringField(lib.Compacted(after).fields, "name")
  {
    assert "arguments" != "name" by { assert |"arguments"| != |"name"|; }
    SameStringField(lib, f, after, "name");
  }

  lemma {:induction false} OtherCallFieldsKept(lib: Library, call: Json, r: Json)
    requires ToolCallDecodes(call) && call.Obj? && r.Obj?
    requires r == call || ("function" in call.fields && "function" in r.fields
                           && r.fields["function" := call.fields["function"]] == call.fields)
    ensures StringField(lib.Compacted(r).fields, "id") && StringField(lib.Compacted(r).fields, "type")
  {
    assert "function" != "id" && "function" != "type" by { assert |"function"| == 8 && |"id"| == 2 && |"type"| == 4; }
    assert forall k :: k != "function" ==> (k in r.fields <==> k in call.fields) by {
      if r != call {
        forall k | k != "function" ensures k in r.fields <==> k in call.fields {
          assert k in r.fields["function" := call.fields["function"]] <==> k in call.fields;
        }
      }
    }
    SameStringField(lib, call, r, "id");
    SameStringField(lib, call, r, "type");
  }

  lemma {:induction false} ToolCallsStillDecode(lib: Library, reds: seq<Redaction>, role: string, index: int, tc: Json)
    requires ToolCallArray(lib, reds, role, index, tc).Ok?
    requires tc.AsArray().Some? && forall q :: 0 <= q < |tc.AsArray().value| ==> ToolCallDecodes(tc.AsArray().value[q])
    ensures var r := lib.Compacted(ToolCallArray(lib, reds, role, index, tc).value.value);
            r.AsArray().Some? && forall q :: 0 <= q < |r.AsArray().value| ==> ToolCallDecodes(r.AsArray().value[q])
  {
    ToolCallArrayShape(lib, reds, role, index, tc);
    if tc.Arr? {
      var r := ToolCallArray(lib, reds, role, index, tc).value.value;
      forall q | 0 <= q < |tc.items| ensures ToolCallDecodes(lib.Compacted(r).items[q]) {
        assert IsToolCall(lib, reds, role, index, tc.items[q], r.items[q]);
        ToolCallStillDecodes(lib, reds, role, index, tc.items[q]);
      }
    }
  }

  lemma {:induction false} MessageStillDecodes(lib: Library, reds: seq<Redaction>, ep: Endpoint, i: nat, item: Json)
    requires ep != Responses && MessageDecodes(ep, item) && Item(lib, reds, ep, i, item).Ok?
    ensures MessageDecodes(ep, lib.Compacted(Item(lib, reds, ep, i, item).value))
  {
    if item.Obj? {
      var r := Item(lib, reds, ep, i, item).value;
      KeysDiffer();
      if ep == Anthropic {
        RewrittenShape(lib, reds, ep, StringIn(item.fields, "role"), i, item, "content");
        SameStringField(lib, item, r, "role");
      } else {
        ChatMessageShape(lib, reds, i, item);
        SameStringField(lib, item, r, "role");
        if "tool_calls" in item.fields {
          ToolCallsStillDecode(lib, reds, StringIn(item.fields, "role"), i, item.fields["tool_calls"]);
          assert lib.Compacted(r).fields["tool_calls"] == lib.Compacted(r.fields["tool_calls"]);
        }
      }
    }
  }

  // ----- the theorem

  /** The top-level object: only the two scanned keys change. */
  lemma {:induction false} TopShape(lib: Library, reds: seq<Redaction>, ep: Endpoint, m: map<string, Json>)
    requires Top(lib, reds, ep, m).Ok?
    ensures var top := Top(lib, reds, ep, m).value;
            && top.Keys == m.Keys
            && (forall k :: k in m && k != HeadKey(ep) && k != BodyKey(ep) ==> top[k] == m[k])
            && (ep != Chat && HeadKey(ep) in m ==>
                  Content(lib, reds, ep, "system", -1, m[HeadKey(ep)]).Ok?
                  && top[HeadKey(ep)] == Content(lib, reds, ep, "system", -1, m[HeadKey(ep)]).value)
            && (BodyKey(ep) in m ==>
                  MainPart(lib, reds, ep, m[BodyKey(ep)]).Ok?
                  && top[BodyKey(ep)] == MainPart(lib, reds, ep, m[BodyKey(ep)]).value)
  {
    KeysDiffer();
  }

  lemma {:induction false} MessagesCommute(lib: Library, reds: seq<Redaction>, ep: Endpoint, j: Json)
    requires lib.Lawful() && NoSpansOnEmptyText(reds) && WellFormed(j) && j.Arr? && ItemArray(lib, reds, ep, j).Ok?
    ensures var c := lib.Compacted(ItemArray(lib, reds, ep, j).value);
            && c.Arr? && |c.items| == |j.items|
            && ItemsProse(ep, c.items, 0) == AllMasked(lib, reds, ItemsProse(ep, j.items, 0))
            && (AllObjects(c.items) <==> AllObjects(j.items))
            && (ep != Responses && (forall q :: 0 <= q < |j.items| ==> MessageDecodes(ep, j.items[q]))
                ==> forall q :: 0 <= q < |c.items| ==> MessageDecodes(ep, c.items[q]))
  {
    ItemArrayShape(lib, reds, ep, j);
    var r := ItemArray(lib, reds, ep, j).value;
    ItemsCommute(lib, reds, ep, j, r);
    forall q | 0 <= q < |j.items|
      ensures lib.Compacted(r).items[q].AsObject().Some? && j.items[q].AsObject().Some?
      ensures ep != Responses && MessageDecodes(ep, j.items[q]) ==> MessageDecodes(ep, lib.Compacted(r).items[q])
    {
      assert IsItem(lib, reds, ep, q, j.items[q], r.items[q]);
      ItemStaysObject(lib, reds, ep, q, j.items[q]);
      if ep != Responses && MessageDecodes(ep, j.items[q]) {
        MessageStillDecodes(lib, reds, ep, q, j.items[q]);
      }
    }
  }

  lemma {:induction false} ItemStaysObject(lib: Library, reds: seq<Redaction>, ep: Endpoint, i: nat, item: Json)
    requires Item(lib, reds, ep, i, item).Ok?
    ensures item.AsObject().Some? && lib.Compacted(Item(lib, reds, ep, i, item).value).AsObject().Some?
  {
    if item.Obj? && ep == Chat {
      ChatMessageShape(lib, reds, i, item);
    }
  }

  lemma {:induction false} InputCommutes(lib: Library, reds: seq<Redaction>, m: map<string, Json>, top: Json)
    requires lib.Lawful() && NoSpansOnEmptyText(reds) && top.Obj? && top.fields.Keys == m.Keys
    requires "input" in m ==>
               && WellFormed(m["input"]) && MainPart(lib, reds, Responses, m["input"]).Ok?
               && top.fields["input"] == MainPart(lib, reds, Responses, m["input"]).value
    ensures InputProse(lib.Compacted(top).fields) == AllMasked(lib, reds, InputProse(m))
  {
    if "input" in m {
      var j := m["input"];
      var c := lib.Compacted(top.fields["input"]);
      assert lib.Compacted(top).fields["input"] == c;
      match j.AsString() {
        case Some(s) =>
          ContentAsString(lib, reds, Responses, "user", 0, j);
          LocatedReplaced(lib, reds, "user", 0, [Piece(s, false)]);
          assert Replaced(lib, reds, "user", 0, [Piece(s, false)]) == [Piece(Masked(lib, reds, "user", 0, s), false)];
        case None =>
          ItemArrayShape(lib, reds, Responses, j);
          MessagesCommute(lib, reds, Responses, j);
      }
    }
  }

  lemma {:induction false} HeadCommutes(lib: Library, reds: seq<Redaction>, ep: Endpoint, m: map<string, Json>,
                                        top: Json)
    requires lib.Lawful() && NoSpansOnEmptyText(reds) && ep != Chat && top.Obj? && top.fields.Keys == m.Keys
    requires HeadKey(ep) in m ==>
               && Content(lib, reds, ep, "system", -1, m[HeadKey(ep)]).Ok?
               && top.fields[HeadKey(ep)] == Content(lib, reds, ep, "system", -1, m[HeadKey(ep)]).value
    ensures Masks(lib, reds, "system", -1, ContentIn(ep, m, HeadKey(ep)),
                  ContentIn(ep, lib.Compacted(top).fields, HeadKey(ep)))
    ensures StringField(m, HeadKey(ep)) ==>
              && StringField(lib.Compacted(top).fields, HeadKey(ep))
              && StringIn(lib.Compacted(top).fields, HeadKey(ep))
                  == Masked(lib, reds, "system", -1, StringIn(m, HeadKey(ep)))
  {
    if HeadKey(ep) in m {
      ContentCommutes(lib, reds, ep, "system", -1, m[HeadKey(ep)]);
      ContentAsString(lib, reds, ep, "system", -1, m[HeadKey(ep)]);
      assert lib.Compacted(top).fields[HeadKey(ep)] == lib.Compacted(top.fields[HeadKey(ep)]);
    } else {
      MaskTextFacts(lib, reds, "system", -1, "");
    }
  }

  lemma {:induction false} ResponsesCommute(lib: Library, reds: seq<Redaction>, body: Json, top: Json)
    requires lib.Lawful() && NoSpansOnEmptyText(reds) && WellFormed(body) && Decodes(Responses, body) && body.Obj?
    requires top.Obj? && Top(lib, reds, Responses, body.fields) == Ok(top.fields)
    ensures var c := lib.Compacted(top);
            Decodes(Responses, c)
                && ProseIn(Responses, c.fields) == AllMasked(lib, reds, ProseIn(Responses, body.fields))
  {
    var m := body.fields;
    TopShape(lib, reds, Responses, m);
    HeadCommutes(lib, reds, Responses, m, top);
    if "input" in m { WellFormedField(body, "input"); }
    InputCommutes(lib, reds, m, top);
    var instructions := StringIn(m, "instructions");
    LocatedReplaced(lib, reds, "system", -1, [Piece(instructions, false)]);
    assert Replaced(lib, reds, "system", -1, [Piece(instructions, false)])
           == [Piece(Masked(lib, reds, "system", -1, instructions), false)];
    AllMaskedAppend(lib, reds, Located("system", -1, [Piece(instructions, false)]), InputProse(m));
  }

  lemma {:induction false} MessagesBodyCommutes(lib: Library, reds: seq<Redaction>, ep: Endpoint, body: Json, top: Json)
    requires lib.Lawful() && NoSpansOnEmptyText(reds) && WellFormed(body) && ep != Responses && Decodes(ep, body)
             && body.Obj?
    requires top.Obj? && Top(lib, reds, ep, body.fields) == Ok(top.fields)
    ensures var c := lib.Compacted(top);
            && Decodes(ep, c)
            && ItemsProse(ep, MessagesIn(c.fields), 0)
                == AllMasked(lib, reds, ItemsProse(ep, MessagesIn(body.fields), 0))
  {
    var j := body.fields["messages"];
    TopShape(lib, reds, ep, body.fields);
    WellFormedField(body, "messages");
    MessagesCommute(lib, reds, ep, j);
    var c := lib.Compacted(ItemArray(lib, reds, ep, j).value);
    assert lib.Compacted(top).fields["messages"] == c;
    assert MessagesIn(lib.Compacted(top).fields) == c.items && MessagesIn(body.fields) == j.items;
  }

  lemma {:induction false} AnthropicCommutes(lib: Library, reds: seq<Redaction>, body: Json, top: Json)
    requires lib.Lawful() && NoSpansOnEmptyText(reds) && WellFormed(body) && Decodes(Anthropic, body) && body.Obj?
    requires top.Obj? && Top(lib, reds, Anthropic, body.fields) == Ok(top.fields)
    ensures var c := lib.Compacted(top);
            Decodes(Anthropic, c)
                && ProseIn(Anthropic, c.fields) == AllMasked(lib, reds, ProseIn(Anthropic, body.fields))
  {
    var m := body.fields;
    KeysDiffer();
    TopShape(lib, reds, Anthropic, m);
    HeadCommutes(lib, reds, Anthropic, m, top);
    MessagesBodyCommutes(lib, reds, Anthropic, body, top);
    MasksLocated(lib, reds, "system", -1, ContentIn(Anthropic, m, "system"),
                 ContentIn(Anthropic, lib.Compacted(top).fields, "system"));
    AllMaskedAppend(lib, reds, Located("system", -1, ContentIn(Anthropic, m, "system")),
                    ItemsProse(Anthropic, MessagesIn(m), 0));
  }

  lemma {:induction false} ProseCommutes(lib: Library, reds: seq<Redaction>, ep: Endpoint, body: Json)
    requires lib.Lawful() && NoSpansOnEmptyText(reds) && WellFormed(body) && Decodes(ep, body) && body.Obj?
    requires Top(lib, reds, ep, body.fields).Ok?
    ensures var c := lib.Compacted(lib.Encoded(Obj("", Top(lib, reds, ep, body.fields).value)));
            && Decodes(ep, c) && ProseIn(ep, c.fields) == AllMasked(lib, reds, ProseIn(ep, body.fields))
  {
    var top := lib.Encoded(Obj("", Top(lib, reds, ep, body.fields).value));
    match ep {
      case Anthropic => AnthropicCommutes(lib, reds, body, top);
      case Chat => MessagesBodyCommutes(lib, reds, ep, body, top);
      case Responses => ResponsesCommute(lib, reds, body, top);
    }
  }

  /** Parsing and redacting commute, on all three endpoints and for any
      redactions of texts that are not empty, whatever their spans: a body that
      parses still parses after redaction, and its prose is the original prose
      in the original order, each text masked where a redaction names it. */
  lemma {:induction false} ParseAfterRedact(lib: Library, reds: seq<Redaction>, ep: Endpoint, body: Json)
    requires lib.Lawful() && NoSpansOnEmptyText(reds) && WellFormed(body) && BodyProse(ep, body).Some?
    requires Redacted(lib, reds, ep, body).Ok?
    ensures BodyProse(ep, Redacted(lib, reds, ep, body).value)
            == Some(AllMasked(lib, reds, BodyProse(ep, body).value))
  {
    if body.Obj? {
      ProseCommutes(lib, reds, ep, body);
    } else {
      EmptyBody(lib, reds, ep, body);
    }
  }

  /** A body of null has no prose. */
  lemma {:induction false} EmptyBody(lib: Library, reds: seq<Redaction>, ep: Endpoint, body: Json)
    requires body.Null? && BodyProse(ep, body).Some? && Redacted(lib, reds, ep, body).Ok?
    ensures BodyProse(ep, body) == Some([]) && BodyProse(ep, Redacted(lib, reds, ep, body).value) == Some([])
  {
    var c := Redacted(lib, reds, ep, body).value;
    assert c.Obj? && c.fields.Keys == {};
    assert c.fields == map[];
    assert ep == Responses;
    assert Located("system", -1, [Piece("", false)]) == [] by {
      assert [Piece("", false)][1..] == [];
    }
  }

  const EMPTY_INSTRUCTIONS := Obj("{", map["instructions" := Str("\"", "")])

  const NAMING_IT := [Redaction("system", -1, "", [Span(0, 0)])]

  /** Empty texts must not be named: masking empty instructions adds a segment
      that the body did not have. */
  lemma {:induction false} NamingAnEmptyTextAddsProse(lib: Library)
    requires lib.Lawful()
    ensures WellFormed(EMPTY_INSTRUCTIONS) && BodyProse(Responses, EMPTY_INSTRUCTIONS) == Some([])
    ensures var r := Redacted(lib, NAMING_IT, Responses, EMPTY_INSTRUCTIONS);
            r.Ok? && BodyProse(Responses, r.value) == Some([Prose(TextSegment("system", -1, MASK), false)])
  {
    EmptyInstructionsHaveNoProse();
    MaskedInstructions(lib);
    InstructionsAfter(lib);
  }

  lemma {:induction false} EmptyInstructionsHaveNoProse()
    ensures WellFormed(EMPTY_INSTRUCTIONS) && BodyProse(Responses, EMPTY_INSTRUCTIONS) == Some([])
  {
    OnlyInstructions(EMPTY_INSTRUCTIONS, "");
  }

  lemma {:induction false} InstructionsAfter(lib: Library)
    ensures BodyProse(Responses, lib.Compacted(lib.Encoded(Obj("", map["instructions" := lib.Encoded(Str("", MASK))]))))
            == Some([Prose(TextSegment("system", -1, MASK), false)])
  {
    var field := lib.Encoded(Str("", MASK));
    var after := lib.Compacted(lib.Encoded(Obj("", map["instructions" := field])));
    assert after.fields["instructions"] == lib.Compacted(field);
    OnlyInstructions(after, MASK);
  }

  lemma {:induction false} MaskedInstructions(lib: Library)
    requires lib.Lawful()
    ensures Redacted(lib, NAMING_IT, Responses, EMPTY_INSTRUCTIONS)
            == Ok(lib.Compacted(lib.Encoded(Obj("", map["instructions" := lib.Encoded(Str("", MASK))]))))
  {
    var fields := EMPTY_INSTRUCTIONS.fields;
    KeysDiffer();
    MaskedEmptyText(lib);
    PlacesOfOne("system", -1, Look("", false));
    assert TopVisits(Responses, fields) == At("system", -1, [Look("", false)]);
    var top := Top(lib, NAMING_IT, Responses, fields).value;
    assert top == map["instructions" := lib.Encoded(Str("", MASK))];
  }

  lemma {:induction false} OnlyInstructions(body: Json, text: string)
    requires body.Obj? && body.fields.Keys == {"instructions"} && body.fields["instructions"].AsString() == Some(text)
    ensures BodyProse(Responses, body)
            == Some(if text == "" then [] else [Prose(TextSegment("system", -1, text), false)])
  {
    KeysDiffer();
    assert [Piece(text, false)][1..] == [];
    assert Located("system", -1, [Piece(text, false)])
           == if text == "" then [] else [Prose(TextSegment("system", -1, text), false)];
  }

  lemma {:induction false} MaskedEmptyText(lib: Library)
    requires lib.Lawful()
    ensures MaskText(lib, NAMING_IT, "system", -1, "") == Ok(Edit(MASK, true))
  {
    var span := Span(0, 0);
    OneSpanOrdered(lib, span);
    assert Splice("", span, MASK) == MASK && [span][1..] == [];
    assert MaskFrom(lib, NAMING_IT, TextSegment("system", -1, ""), MASK, 1) == Ok(Edit(MASK, false));
  }

  lemma {:induction false} OneSpanOrdered(lib: Library, span: Span)
    requires lib.Lawful()
    ensures lib.sortSpans([span]) == [span]
  {
    var ordered := lib.sortSpans([span]);
    assert IsOrdering([span], ordered);
    assert |ordered| == |multiset(ordered)| == |multiset([span])| == 1;
    assert ordered[0] in multiset(ordered);
  }
}
