/** From findings to the forwarded body: no byte of a finding that a policy
    wants redacted reaches the vendor. */
module EndToEnd {
  import opened Basics
  import opened Spans
  import opened Wire
  import opened Parser
  import opened Redact
  import opened RedactProofs
  import opened Coverage
  import Detector
  import Patterns
  import Policy
  import opened Pipeline
  import opened SecretScan

  // ----- grouping is exact

  predicate Distinct<T(==)>(s: seq<T>) {
    forall i, j :: 0 <= i < j < |s| ==> s[i] != s[j]
  }

  /** The span a finding asks to mask, with its segment. */
  function Request(f: EnrichedFinding): (TextSegment, Span) {
    (f.Key(), f.Span())
  }

  function RequestsOf(fs: Findings): multiset<(TextSegment, Span)> {
    if fs == [] then multiset{} else RequestsOf(fs[..|fs| - 1]) + multiset{Request(fs[|fs| - 1])}
  }

  function Tagged(key: TextSegment, spans: seq<Span>): multiset<(TextSegment, Span)> {
    if spans == [] then multiset{} else Tagged(key, spans[..|spans| - 1]) + multiset{(key, spans[|spans| - 1])}
  }

  function SpansOf(reds: seq<Redaction>): multiset<(TextSegment, Span)> {
    if reds == [] then multiset{}
    else SpansOf(reds[..|reds| - 1]) + Tagged(reds[|reds| - 1].Key(), reds[|reds| - 1].spans)
  }

  lemma {:induction false} KeysDistinct(fs: Findings)
    ensures Distinct(Keys(fs))
  {
    if fs != [] { KeysDistinct(fs[..|fs| - 1]); }
  }

  /** First-seen order: the keys of a list begin with the keys of what came before. */
  lemma {:induction false} KeysGrow(fs: Findings, more: Findings)
    ensures Keys(fs) <= Keys(fs + more)
    decreases |more|
  {
    if more == [] {
      assert fs + more == fs;
    } else {
      var shorter := more[..|more| - 1];
      assert (fs + more)[..|fs + more| - 1] == fs + shorter;
      KeysGrow(fs, shorter);
    }
  }

  lemma {:induction false} TaggedAppend(key: TextSegment, spans: seq<Span>, s: Span)
    ensures Tagged(key, spans + [s]) == Tagged(key, spans) + multiset{(key, s)}
  {
    assert (spans + [s])[..|spans|] == spans;
  }

  /** The spans of the first k segments, as found in fs. */
  function SpansUpTo(keys: seq<TextSegment>, fs: Findings): multiset<(TextSegment, Span)> {
    if keys == [] then multiset{}
    else SpansUpTo(keys[..|keys| - 1], fs) + Tagged(keys[|keys| - 1], SpansFor(keys[|keys| - 1], fs))
  }

  lemma {:induction false} GroupsUpTo(keys: seq<TextSegment>, groups: seq<Redaction>, fs: Findings)
    requires |groups| == |keys| && forall k :: 0 <= k < |keys| ==> groups[k] == GroupFor(keys[k], fs)
    ensures SpansOf(groups) == SpansUpTo(keys, fs)
  {
    if keys != [] {
      GroupsUpTo(keys[..|keys| - 1], groups[..|keys| - 1], fs);
    }
  }

  /** One more finding adds its span to its own segment only. */
  lemma {:induction false} SpansUpToGrow(keys: seq<TextSegment>, fs: Findings, f: EnrichedFinding)
    requires Distinct(keys)
    ensures SpansUpTo(keys, fs + [f])
            == SpansUpTo(keys, fs) + (if f.Key() in keys then multiset{Request(f)} else multiset{})
  {
    if keys != [] {
      var front, last := keys[..|keys| - 1], keys[|keys| - 1];
      SpansUpToGrow(front, fs, f);
      OwnSpansGrow(last, fs, f);
      var one := multiset{Request(f)};
      Regroup(SpansUpTo(front, fs), if f.Key() in front then one else multiset{},
              Tagged(last, SpansFor(last, fs)), if f.Key() == last then one else multiset{});
    }
  }

  lemma {:induction false} Regroup<T>(a: multiset<T>, x: multiset<T>, b: multiset<T>, y: multiset<T>)
    ensures (a + x) + (b + y) == (a + b) + (x + y)
  {}

  lemma {:induction false} OwnSpansGrow(key: TextSegment, fs: Findings, f: EnrichedFinding)
    ensures Tagged(key, SpansFor(key, fs + [f]))
            == Tagged(key, SpansFor(key, fs)) + (if f.Key() == key then multiset{Request(f)} else multiset{})
  {
    assert (fs + [f])[..|fs|] == fs;
    if f.Key() == key {
      TaggedAppend(key, SpansFor(key, fs), f.Span());
    } else {
      assert SpansFor(key, fs) + [] == SpansFor(key, fs);
    }
  }

  lemma {:induction false} AllSpansKept(fs: Findings)
    ensures SpansUpTo(Keys(fs), fs) == RequestsOf(fs)
  {
    if fs != [] {
      var front, f := fs[..|fs| - 1], fs[|fs| - 1];
      assert fs == front + [f];
      AllSpansKept(front);
      KeysDistinct(front);
      SpansUpToGrow(Keys(front), front, f);
      if f.Key() !in Keys(front) {
        NewKey(front, f);
      }
    }
  }

  lemma {:induction false} NewKey(front: Findings, f: EnrichedFinding)
    requires f.Key() !in Keys(front)
    ensures SpansUpTo(Keys(front) + [f.Key()], front + [f])
            == SpansUpTo(Keys(front), front + [f]) + multiset{Request(f)}
  {
    var keys := Keys(front) + [f.Key()];
    assert keys[..|keys| - 1] == Keys(front);
    UnseenHasNoSpans(f.Key(), front);
    assert (front + [f])[..|front|] == front;
    assert SpansFor(f.Key(), front + [f]) == [f.Span()];
    TaggedAppend(f.Key(), [], f.Span());
    assert [] + [f.Span()] == [f.Span()];
  }

  /** The redactions a policy asks for name distinct segments, each one a segment
      with findings, and their spans together are exactly those of the findings. */
  lemma {:induction false} GroupingIsExact(fs: Findings)
    ensures Distinct(Keys(fs))
    ensures forall key :: key in Keys(fs) <==> exists i :: 0 <= i < |fs| && fs[i].Key() == key
    ensures SpansOf(Groups(fs)) == RequestsOf(fs)
  {
    KeysDistinct(fs);
    forall key ensures key in Keys(fs) <==> exists i :: 0 <= i < |fs| && fs[i].Key() == key {
      UnseenHasNoSpans(key, fs);
    }
    GroupsUpTo(Keys(fs), Groups(fs), fs);
    AllSpansKept(fs);
  }

  // ----- so each text is masked at most once, by its own redaction

  lemma {:induction false} MaskFromLater(lib: Library, reds: seq<Redaction>, text: TextSegment, out: string, k: nat,
                                         j: nat)
    requires k <= j < |reds| && reds[j].Key() == text && forall i :: 0 <= i < |reds| && i != j ==> reds[i].Key() != text
    ensures MaskFrom(lib, reds, text, out, k) ==
            match SpliceAll(out, lib.sortSpans(reds[j].spans), MASK)
            case None => Err(SpanOutOfRange)
            case Some(masked) => Ok(Edit(masked, true))
    decreases j - k
  {
    if k < j {
      MaskFromLater(lib, reds, text, out, k + 1, j);
    } else {
      var spliced := SpliceAll(out, lib.sortSpans(reds[j].spans), MASK);
      if spliced.Some? { MaskFromUnnamed(lib, reds, text, spliced.value, k + 1); }
    }
  }

  /** A text is masked by all the spans found in its segment, and by nothing else. */
  lemma {:induction false} MaskedByGroup(lib: Library, fs: Findings, key: TextSegment)
    requires lib.Lawful()
    ensures MaskText(lib, Groups(fs), key.role, key.index, key.content) ==
            if key in Keys(fs) then
              match SpliceAll(key.content, lib.sortSpans(SpansFor(key, fs)), MASK)
              case None => Err(SpanOutOfRange)
              case Some(masked) => Ok(Edit(masked, true))
            else Ok(Edit(key.content, false))
  {
    var reds := Groups(fs);
    KeysDistinct(fs);
    assert TextSegment(key.role, key.index, key.content) == key;
    if key in Keys(fs) {
      var j :| 0 <= j < |reds| && Keys(fs)[j] == key;
      MaskFromLater(lib, reds, key, key.content, 0, j);
    } else {
      MaskFromUnnamed(lib, reds, key, key.content, 0);
    }
  }

  /** When the findings of a segment are disjoint, masking cannot fail and the
      text becomes its left-to-right masking, whatever order they were found in. */
  lemma {:induction false} DisjointFindingsExact(lib: Library, fs: Findings, key: TextSegment)
    requires lib.Lawful() && Disjoint(SpansFor(key, fs)) && Within(SpansFor(key, fs), |key.content|)
    ensures var r := MaskText(lib, Groups(fs), key.role, key.index, key.content);
            r.Ok? && r.value.value == LeftToRight(key.content, SpansFor(key, fs), 0)
  {
    MaskedByGroup(lib, fs, key);
    if key in Keys(fs) {
      assert IsOrdering(SpansFor(key, fs), lib.sortSpans(SpansFor(key, fs)));
      DisjointMasking(key.content, SpansFor(key, fs), lib.sortSpans(SpansFor(key, fs)));
    } else {
      UnseenHasNoSpans(key, fs);
      PlainTail(key.content, [], 0);
    }
  }

  // ----- what the vendor gets

  /** `after` is `before` with no byte left that a redact-decided finding of its
      segment covers: some of its bytes, in their order and never further right,
      and bytes of masks; compacted, when it is the text of a tool input. */
  ghost predicate Sanitised(lib: Library, fs: Findings, before: Prose, after: Prose) {
    var key := before.segment;
    var origins := Origins(|key.content|, lib.sortSpans(SpansFor(key, fs)));
    && after.segment.role == key.role && after.segment.index == key.index && after.verbatim == before.verbatim
    && origins.Some? && Leftward(origins.value) && CellsOf(key.content, origins.value)
    && NoFindingSurvives(fs, key, origins.value)
    && after.segment.content == (var text := Erase(key.content, origins.value);
                                 if before.verbatim then lib.compact(text) else text)
  }

  ghost predicate NoFindingSurvives(fs: Findings, key: TextSegment, cells: seq<Cell>) {
    forall f, c :: f in fs && f.Key() == key && c in cells && c.Source? ==>
      !(f.finding.offset <= c.i < f.finding.offset + f.finding.length)
  }

  /** Findings such as scans with the built-in patterns return. */
  ghost predicate FromScan(fs: Findings) {
    forall f :: f in fs ==> f.finding.length >= |MASK|
  }

  lemma {:induction false} SpansForAre(key: TextSegment, fs: Findings, s: Span)
    ensures s in SpansFor(key, fs) <==> exists i :: 0 <= i < |fs| && fs[i].Key() == key && fs[i].Span() == s
  {
    if fs != [] {
      var front := fs[..|fs| - 1];
      SpansForAre(key, front, s);
      if exists i :: 0 <= i < |fs| && fs[i].Key() == key && fs[i].Span() == s {
        var i :| 0 <= i < |fs| && fs[i].Key() == key && fs[i].Span() == s;
        if i < |front| { assert front[i].Key() == key && front[i].Span() == s; }
      }
      if s in SpansFor(key, front) {
        var i :| 0 <= i < |front| && front[i].Key() == key && front[i].Span() == s;
        assert fs[i].Key() == key && fs[i].Span() == s;
      }
    }
  }

  lemma {:induction false} OneSegmentSanitised(lib: Library, fs: Findings, p: Prose)
    requires lib.Lawful() && FromScan(fs)
    requires MaskText(lib, Groups(fs), p.segment.role, p.segment.index, p.segment.content).Ok?
    ensures Sanitised(lib, fs, p, MaskedProse(lib, Groups(fs), p))
  {
    var key := p.segment;
    var spans := SpansFor(key, fs);
    var ordered := lib.sortSpans(spans);
    forall s | s in spans ensures s.length >= |MASK| {
      SpansForAre(key, fs, s);
      var i :| 0 <= i < |fs| && fs[i].Key() == key && fs[i].Span() == s;
      assert fs[i] in fs;
    }
    assert IsOrdering(spans, ordered);
    NoCoveredByteSurvives(key.content, spans, ordered);
    MaskedByGroup(lib, fs, key);
    UnseenHasNoSpans(key, fs);
    if key !in Keys(fs) { NothingToSort(lib); }
    var cells := Origins(|key.content|, ordered).value;
    forall f, c | f in fs && f.Key() == key && c in cells && c.Source?
      ensures !(f.finding.offset <= c.i < f.finding.offset + f.finding.length)
    {
      var i :| 0 <= i < |fs| && fs[i] == f;
      SpansForAre(key, fs, f.Span());
      assert f.Span() in spans && !f.Span().Covers(c.i);
    }
  }

  lemma {:induction false} LocatedNotEmpty(role: string, index: int, pieces: seq<Piece>)
    ensures forall p :: p in Located(role, index, pieces) ==> p.segment.content != ""
  {
    if pieces != [] { LocatedNotEmpty(role, index, pieces[1..]); }
  }

  lemma {:induction false} ItemNotEmpty(ep: Endpoint, i: nat, item: Json)
    ensures forall p :: p in ItemProse(ep, i, item) ==> p.segment.content != ""
  {
    if item.AsObject().Some? {
      var m := item.AsObject().value;
      LocatedNotEmpty(StringIn(m, "role"), i, ContentIn(ep, m, "content"));
      LocatedNotEmpty(StringIn(m, "role"), i, CallsIn(m));
      LocatedNotEmpty("tool", i, [Piece(StringIn(m, "output"), false)]);
      LocatedNotEmpty("assistant", i, ArgumentsIn(m));
    }
  }

  lemma {:induction false} ItemsNotEmpty(ep: Endpoint, items: seq<Json>, i: nat)
    requires i <= |items|
    ensures forall p :: p in ItemsProse(ep, items, i) ==> p.segment.content != ""
    decreases |items| - i
  {
    if i < |items| {
      ItemNotEmpty(ep, i, items[i]);
      ItemsNotEmpty(ep, items, i + 1);
    }
  }

  lemma {:induction false} SegmentsNotEmpty(ep: Endpoint, body: Json)
    requires BodyProse(ep, body).Some?
    ensures forall p :: p in BodyProse(ep, body).value ==> p.segment.content != ""
  {
    var m := body.AsObject().value;
    LocatedNotEmpty("system", -1, ContentIn(ep, m, "system"));
    LocatedNotEmpty("system", -1, [Piece(StringIn(m, "instructions"), false)]);
    ItemsNotEmpty(ep, MessagesIn(m), 0);
    if "input" in m {
      if m["input"].AsString().Some? {
        LocatedNotEmpty("user", 0, [Piece(m["input"].AsString().value, false)]);
      } else if m["input"].Arr? {
        ItemsNotEmpty(Responses, m["input"].items, 0);
      }
    }
  }

  /** Findings located in segments of a body. */
  ghost predicate LocatedIn(fs: Findings, prose: seq<Prose>) {
    forall f :: f in fs ==> f.Key() in SegmentsOf(prose)
  }

  lemma {:induction false} GroupsAreOwn(fs: Findings, ep: Endpoint, body: Json)
    requires BodyProse(ep, body).Some? && LocatedIn(fs, BodyProse(ep, body).value)
    ensures OwnSegments(Groups(fs), BodyProse(ep, body).value) && NoSpansOnEmptyText(Groups(fs))
  {
    var prose := BodyProse(ep, body).value;
    SegmentsNotEmpty(ep, body);
    forall k | 0 <= k < |Groups(fs)|
      ensures Groups(fs)[k].Key() in SegmentsOf(prose) && Groups(fs)[k].content != ""
    {
      var key := Keys(fs)[k];
      assert key in Keys(fs);
      UnseenHasNoSpans(key, fs);
      var i :| 0 <= i < |fs| && fs[i].Key() == key;
      assert fs[i] in fs;
      var j :| 0 <= j < |prose| && SegmentsOf(prose)[j] == key;
      assert prose[j] in prose;
    }
  }

  /** Redacting what a policy asks to redact, for any findings in any segments,
      overlapping or repeated: when it succeeds, the new body parses into the
      same segments in the same order, each one sanitised. */
  lemma {:induction false} RedactedBodyIsSanitised(lib: Library, fs: Findings, ep: Endpoint, body: Json)
    requires lib.Lawful() && WellFormed(body) && body.Obj? && BodyProse(ep, body).Some?
    requires FromScan(fs) && LocatedIn(fs, BodyProse(ep, body).value)
    requires Redacted(lib, Groups(fs), ep, body).Ok?
    ensures var before := BodyProse(ep, body).value;
            var after := BodyProse(ep, Redacted(lib, Groups(fs), ep, body).value);
            && after.Some? && |after.value| == |before|
            && forall i :: 0 <= i < |before| ==> Sanitised(lib, fs, before[i], after.value[i])
  {
    var reds := Groups(fs);
    var before := BodyProse(ep, body).value;
    GroupsAreOwn(fs, ep, body);
    ParseAfterRedact(lib, reds, ep, body);
    RedactionSucceedsExactly(lib, reds, ep, body);
    EverySegmentVisited(ep, body);
    forall i | 0 <= i < |before| ensures Sanitised(lib, fs, before[i], MaskedProse(lib, reds, before[i])) {
      var key := before[i].segment;
      assert before[i] in before;
      var v :| v in TopVisits(ep, body.fields) && v.segment == key;
      assert Fits(lib, reds, v);
      OneSegmentSanitised(lib, fs, before[i]);
    }
  }

  // ----- what a scan of a body finds

  /** The segments of a request's body; none unless the request is one the parser takes. */
  function BodySegments(s: State<Findings>): seq<TextSegment> {
    if s.verb != "POST" || !s.body.Doc? || EndpointOf(s.host, s.path).None? then []
    else match BodyProse(EndpointOf(s.host, s.path).value, s.body.json)
      case None => []
      case Some(prose) => SegmentsOf(prose)
  }

  /** A pattern detects a finding in a text; texts that are not valid UTF-8 are not scanned. */
  ghost predicate DetectedIn(env: Env, patterns: seq<Detector.Pattern>, text: string, f: Detector.Finding) {
    env.validUtf8(text) && exists k :: 0 <= k < |patterns| && Detector.FoundBy(env.engine, patterns[k], text, f)
  }

  ghost predicate Detected(env: Env, patterns: seq<Detector.Pattern>, s: State<Findings>, seg: TextSegment,
                           f: Detector.Finding)
  {
    seg in BodySegments(s) && DetectedIn(env, patterns, seg.content, f)
  }

  lemma {:induction false} SegmentFindingsExactly(env: Env, patterns: seq<Detector.Pattern>, seg: TextSegment,
                                                  g: EnrichedFinding)
    requires env.engine.Lawful() && seg.content != ""
    ensures g in SegmentFindings(env, patterns, seg) <==>
            g.Key() == seg && g.rule == "" && DetectedIn(env, patterns, seg.content, g.finding)
  {
    Detector.ScanFindsExactly(env.engine, patterns, seg.content);
    var fs := Detector.Findings(env.engine, patterns, seg.content);
    if g.Key() == seg && g.rule == "" && DetectedIn(env, patterns, seg.content, g.finding) {
      assert g.finding in fs;
      var k :| 0 <= k < |fs| && fs[k] == g.finding;
      assert SegmentFindings(env, patterns, seg)[k] == g;
    }
    if g in SegmentFindings(env, patterns, seg) {
      var k :| 0 <= k < |fs| && g == SegmentFindings(env, patterns, seg)[k];
      assert fs[k] in fs;
    }
  }

  lemma {:induction false} RawFindingsFrom(env: Env, patterns: seq<Detector.Pattern>, texts: seq<TextSegment>, i: nat,
                                           g: EnrichedFinding)
    requires i <= |texts|
    ensures g in RawFindings(env, patterns, texts, i) <==>
            exists k :: i <= k < |texts| && g in SegmentFindings(env, patterns, texts[k])
    decreases |texts| - i
  {
    if i < |texts| {
      RawFindingsFrom(env, patterns, texts, i + 1, g);
    }
  }

  lemma {:induction false} RawFindingsExactly(env: Env, patterns: seq<Detector.Pattern>, texts: seq<TextSegment>,
                                              g: EnrichedFinding)
    requires env.engine.Lawful() && forall k :: 0 <= k < |texts| ==> texts[k].content != ""
    ensures g in RawFindings(env, patterns, texts, 0) <==>
            g.Key() in texts && g.rule == "" && DetectedIn(env, patterns, g.segmentText, g.finding)
  {
    RawFindingsFrom(env, patterns, texts, 0, g);
    forall k | 0 <= k < |texts|
      ensures g in SegmentFindings(env, patterns, texts[k]) <==>
              g.Key() == texts[k] && g.rule == "" && DetectedIn(env, patterns, g.segmentText, g.finding)
    {
      SegmentFindingsExactly(env, patterns, texts[k], g);
    }
  }

  /** What the scan raises for a request is exactly what is detected in the segments
      of its body, each finding with its segment. */
  lemma {:induction false} FoundExactly(env: Env, patterns: seq<Detector.Pattern>, s: State<Findings>,
                                        g: EnrichedFinding)
    requires env.engine.Lawful()
    ensures g in Found(env, patterns, s) <==> g.rule == "" && Detected(env, patterns, s, g.Key(), g.finding)
  {
    if s.verb == "POST" && s.body.Doc? && EndpointOf(s.host, s.path).Some? {
      var ep := EndpointOf(s.host, s.path).value;
      if BodyProse(ep, s.body.json).Some? {
        var prose := BodyProse(ep, s.body.json).value;
        SegmentsNotEmpty(ep, s.body.json);
        forall k | 0 <= k < |prose| ensures SegmentsOf(prose)[k].content != "" { assert prose[k] in prose; }
        RawFindingsExactly(env, patterns, SegmentsOf(prose), g);
      }
    }
  }

  /** Some finding detected in a request's body has an action decided for it. */
  ghost predicate Wants(env: Env, patterns: seq<Detector.Pattern>, pol: Policy.Policy, s: State<Findings>,
                        action: Policy.Action)
  {
    exists seg, f :: Detected(env, patterns, s, seg, f) && Policy.Decide(Some(pol), f).0 == action
  }

  lemma {:induction false} WantsExactly(env: Env, patterns: seq<Detector.Pattern>, pol: Policy.Policy,
                                        s: State<Findings>, action: Policy.Action)
    requires env.engine.Lawful()
    ensures Wants(env, patterns, pol, s, action) <==> Decided(pol, Found(env, patterns, s), action) != []
  {
    var raw := Found(env, patterns, s);
    var fs := Decided(pol, raw, action);
    if Wants(env, patterns, pol, s, action) {
      var seg, f :| Detected(env, patterns, s, seg, f) && Policy.Decide(Some(pol), f).0 == action;
      var g := EnrichedFinding(f, seg.role, seg.index, seg.content, "");
      FoundExactly(env, patterns, s, g);
      DecidedAre(pol, raw, action, g);
    }
    if fs != [] {
      DecidedAre(pol, raw, action, fs[0]);
      FoundExactly(env, patterns, s, fs[0]);
    }
  }

  // ----- the stage

  lemma {:induction false} DecidedAre(pol: Policy.Policy, raw: Findings, action: Policy.Action, f: EnrichedFinding)
    ensures f in Decided(pol, raw, action) <==> f in raw && ActionOf(pol, f) == action
  {
    if raw != [] {
      var front, last := raw[..|raw| - 1], raw[|raw| - 1];
      DecidedAre(pol, front, action, f);
      assert raw == front + [last];
    }
  }

  /** Only when every finding is allowed is nothing kept. */
  lemma {:induction false} KeptWhenDecided(pol: Policy.Policy, raw: Findings, f: EnrichedFinding)
    requires f in raw && ActionOf(pol, f) != Policy.Allow
    ensures Kept(pol, raw) != []
  {
    var front, last := raw[..|raw| - 1], raw[|raw| - 1];
    assert raw == front + [last];
    if f != last { KeptWhenDecided(pol, front, f); }
  }

  /** A raw finding lies in a scanned segment and is as long as the mask or longer. */
  lemma {:induction false} RawFindingsAre(env: Env, patterns: seq<Detector.Pattern>, texts: seq<TextSegment>, i: nat,
                                          f: EnrichedFinding)
    requires env.engine.Lawful() && Patterns.AllLong(patterns) && i <= |texts|
             && f in RawFindings(env, patterns, texts, i)
    ensures f.Key() in texts && f.finding.length >= |MASK|
    ensures 0 <= f.finding.offset && f.finding.offset + f.finding.length <= |f.segmentText|
    decreases |texts| - i
  {
    if f in SegmentFindings(env, patterns, texts[i]) {
      Patterns.LongPatternsScan(env.engine, patterns, texts[i].content);
      var fs := Detector.Findings(env.engine, patterns, texts[i].content);
      var k :| 0 <= k < |fs| && f == SegmentFindings(env, patterns, texts[i])[k];
      assert fs[k] in fs && f.Key() == texts[i];
    } else {
      RawFindingsAre(env, patterns, texts, i + 1, f);
    }
  }

  /** What a request's body yields: the raw findings of its segments. */
  function Found(env: Env, patterns: seq<Detector.Pattern>, s: State<Findings>): Findings {
    match Parse(s.host, s.verb, s.path, s.body.AsJson())
    case Request(_, _, texts) => RawFindings(env, patterns, texts, 0)
    case _ => []
  }

  /** The body a request was sent with and the one a stage leaves, segment by segment. */
  ghost predicate BodySanitised(lib: Library, fs: Findings, s: State<Findings>, body: Body) {
    && EndpointOf(s.host, s.path).Some? && s.body.Doc? && body.Doc?
    && var ep := EndpointOf(s.host, s.path).value;
       var before, after := BodyProse(ep, s.body.json), BodyProse(ep, body.json);
       && before.Some? && after.Some? && |after.value| == |before.value|
       && forall i :: 0 <= i < |before.value| ==> Sanitised(lib, fs, before.value[i], after.value[i])
  }

  ghost predicate GoodBody(s: State<Findings>) {
    s.body.Doc? ==> WellFormed(s.body.json)
  }

  lemma {:induction false} RedactableAre(env: Env, patterns: seq<Detector.Pattern>, pol: Policy.Policy,
                                         s: State<Findings>)
    requires env.engine.Lawful() && Patterns.AllLong(patterns)
    requires Decided(pol, Found(env, patterns, s), Policy.Redact) != []
    ensures s.body.Doc? && s.body.json.Obj? && EndpointOf(s.host, s.path).Some?
    ensures var ep := EndpointOf(s.host, s.path).value;
            var fs := Decided(pol, Found(env, patterns, s), Policy.Redact);
            && BodyProse(ep, s.body.json).Some? && FromScan(fs) && LocatedIn(fs, BodyProse(ep, s.body.json).value)
  {
    var raw := Found(env, patterns, s);
    var fs := Decided(pol, raw, Policy.Redact);
    var ep := EndpointOf(s.host, s.path).value;
    var texts := Parse(s.host, s.verb, s.path, s.body.AsJson()).texts;
    forall f | f in fs ensures f.finding.length >= |MASK| && f.Key() in texts {
      DecidedAre(pol, raw, Policy.Redact, f);
      RawFindingsAre(env, patterns, texts, 0, f);
    }
    NullFindsNothing(env, patterns, s);
  }

  lemma {:induction false} NullFindsNothing(env: Env, patterns: seq<Detector.Pattern>, s: State<Findings>)
    ensures s.body.Doc? && s.body.json.Null? ==> Found(env, patterns, s) == []
  {
    assert Located("system", -1, [Piece("", false)]) == [] by {
      assert [Piece("", false)][1..] == [];
    }
  }

  /** What the stage does under a policy: a finding decided to block, or a
      redaction that fails, blocks; else every finding decided to be redacted
      is gone from the body that is left, and without one the body is untouched. */
  lemma {:induction false} StageSanitises(env: Env, patterns: seq<Detector.Pattern>, pol: Policy.Policy,
                                          blockOnDetect: bool, s: State<Findings>)
    requires env.lib.Lawful() && env.engine.Lawful() && Patterns.AllLong(patterns) && GoodBody(s)
    ensures var raw := Found(env, patterns, s);
            var fs := Decided(pol, raw, Policy.Redact);
            var (decision, after) := Processed(env, patterns, Some(pol), blockOnDetect, s);
            && ((exists f :: f in raw && ActionOf(pol, f) == Policy.Block) ==> decision == Block)
            && (fs != [] && RedactBody(env.lib, s.host, s.path, s.body.AsJson(), Groups(fs)).Err? ==> decision == Block)
            && (fs != [] && decision != Block ==> decision == Modify && BodySanitised(env.lib, fs, s, after.body))
            && (fs == [] ==> decision != Modify && after.body == s.body)
  {
    var raw := Found(env, patterns, s);
    var fs := Decided(pol, raw, Policy.Redact);
    if exists f :: f in raw && ActionOf(pol, f) == Policy.Block {
      var f :| f in raw && ActionOf(pol, f) == Policy.Block;
      DecidedAre(pol, raw, Policy.Block, f);
      KeptWhenDecided(pol, raw, f);
    }
    if fs != [] {
      RedactionSanitises(env, patterns, pol, blockOnDetect, s);
    }
  }

  /** A segment before and after: it keeps no byte that a detected finding which
      is to be redacted covers. */
  ghost predicate SegmentCleaned(env: Env, patterns: seq<Detector.Pattern>, pol: Policy.Policy, before: Prose,
                                 after: Prose)
  {
    var key := before.segment;
    && after.segment.role == key.role && after.segment.index == key.index && after.verbatim == before.verbatim
    && exists cells ::
         && Leftward(cells) && CellsOf(key.content, cells)
         && after.segment.content == (var text := Erase(key.content, cells);
                                      if before.verbatim then env.lib.compact(text) else text)
         && NoneLeft(env, patterns, pol, key.content, cells)
  }

  ghost predicate NoneLeft(env: Env, patterns: seq<Detector.Pattern>, pol: Policy.Policy, text: string,
                           cells: seq<Cell>)
  {
    forall f, c ::
      DetectedIn(env, patterns, text, f) && Policy.Decide(Some(pol), f).0 == Policy.Redact && c in cells && c.Source?
      ==> !(f.offset <= c.i < f.offset + f.length)
  }

  ghost predicate BodyCleaned(env: Env, patterns: seq<Detector.Pattern>, pol: Policy.Policy, s: State<Findings>,
                              body: Body)
  {
    && EndpointOf(s.host, s.path).Some? && s.body.Doc? && body.Doc?
    && var ep := EndpointOf(s.host, s.path).value;
       var before, after := BodyProse(ep, s.body.json), BodyProse(ep, body.json);
       && before.Some? && after.Some? && |after.value| == |before.value|
       && forall i :: 0 <= i < |before.value| ==> SegmentCleaned(env, patterns, pol, before.value[i], after.value[i])
  }

  lemma {:induction false} SanitisedIsCleaned(env: Env, patterns: seq<Detector.Pattern>, pol: Policy.Policy,
                                              s: State<Findings>, before: Prose, after: Prose)
    requires env.engine.Lawful() && before.segment in BodySegments(s)
    requires Sanitised(env.lib, Decided(pol, Found(env, patterns, s), Policy.Redact), before, after)
    ensures SegmentCleaned(env, patterns, pol, before, after)
  {
    var raw := Found(env, patterns, s);
    var fs := Decided(pol, raw, Policy.Redact);
    var key := before.segment;
    var cells := Origins(|key.content|, env.lib.sortSpans(SpansFor(key, fs))).value;
    forall f, c | DetectedIn(env, patterns, key.content, f) && Policy.Decide(Some(pol), f).0 == Policy.Redact
                  && c in cells && c.Source?
      ensures !(f.offset <= c.i < f.offset + f.length)
    {
      var g := EnrichedFinding(f, key.role, key.index, key.content, "");
      FoundExactly(env, patterns, s, g);
      DecidedAre(pol, raw, Policy.Redact, g);
      assert g in fs && g.Key() == key;
    }
    assert NoneLeft(env, patterns, pol, key.content, cells);
  }

  lemma {:induction false} BodyIsCleaned(env: Env, patterns: seq<Detector.Pattern>, pol: Policy.Policy,
                                         s: State<Findings>, body: Body)
    requires env.engine.Lawful() && s.verb == "POST"
    requires BodySanitised(env.lib, Decided(pol, Found(env, patterns, s), Policy.Redact), s, body)
    ensures BodyCleaned(env, patterns, pol, s, body)
  {
    var ep := EndpointOf(s.host, s.path).value;
    var before, after := BodyProse(ep, s.body.json).value, BodyProse(ep, body.json).value;
    forall i | 0 <= i < |before| ensures SegmentCleaned(env, patterns, pol, before[i], after[i]) {
      assert SegmentsOf(before)[i] == before[i].segment;
      SanitisedIsCleaned(env, patterns, pol, s, before[i], after[i]);
    }
  }

  /** Redacting what is to be redacted cannot be done. */
  ghost predicate RedactionFails(env: Env, patterns: seq<Detector.Pattern>, pol: Policy.Policy, s: State<Findings>) {
    RedactBody(env.lib, s.host, s.path, s.body.AsJson(),
               Groups(Decided(pol, Found(env, patterns, s), Policy.Redact))).Err?
  }

  /** Findings are kept, each with the rule that decided it, unless they are allowed. */
  lemma {:induction false} KeptExactly(pol: Policy.Policy, raw: Findings, g: EnrichedFinding)
    ensures g in Kept(pol, raw) <==>
            exists i :: 0 <= i < |raw| && Policy.Decide(Some(pol), raw[i].finding).0 != Policy.Allow
                        && g == raw[i].(rule := Policy.Decide(Some(pol), raw[i].finding).1)
  {
    if raw != [] {
      var front, last := raw[..|raw| - 1], raw[|raw| - 1];
      KeptExactly(pol, front, g);
      assert raw == front + [last];
      if g in Kept(pol, front) {
        var i :| 0 <= i < |front| && Policy.Decide(Some(pol), front[i].finding).0 != Policy.Allow
                 && g == front[i].(rule := Policy.Decide(Some(pol), front[i].finding).1);
        assert raw[i] == front[i];
      }
    }
  }

  /** What the stage decides under a policy, exactly: it blocks if and only if a
      finding detected in the body is decided to block or one is decided to be
      redacted and the redaction fails; it replaces the body if and only if one is to
      be redacted and neither holds; and otherwise it lets the request be. */
  lemma {:induction false} StageDecidesExactly(env: Env, patterns: seq<Detector.Pattern>, pol: Policy.Policy,
                                               blockOnDetect: bool, s: State<Findings>)
    requires env.engine.Lawful()
    ensures var (decision, after) := Processed(env, patterns, Some(pol), blockOnDetect, s);
            var blocks := Wants(env, patterns, pol, s, Policy.Block);
            var redacts := Wants(env, patterns, pol, s, Policy.Redact);
            && (decision == Block <==> blocks || (redacts && RedactionFails(env, patterns, pol, s)))
            && (decision == Modify <==> !blocks && redacts && !RedactionFails(env, patterns, pol, s))
            && (decision != Modify ==> after.body == s.body)
            && after.findings
                == (var kept := Kept(pol, Found(env, patterns, s)); if kept == [] then s.findings else Some(kept))
  {
    var raw := Found(env, patterns, s);
    ProcessedFrom(env, patterns, Some(pol), blockOnDetect, s);
    WantsExactly(env, patterns, pol, s, Policy.Block);
    WantsExactly(env, patterns, pol, s, Policy.Redact);
    PolicyDecisionExactly(env, pol, raw, s);
  }

  lemma {:induction false} PolicyDecisionExactly(env: Env, pol: Policy.Policy, raw: Findings, s: State<Findings>)
    ensures var (decision, after) := PolicyDecision(env, pol, raw, s);
            var blocks, redacts := Decided(pol, raw, Policy.Block) != [], Decided(pol, raw, Policy.Redact) != [];
            var fails :=
              RedactBody(env.lib, s.host, s.path, s.body.AsJson(), Groups(Decided(pol, raw, Policy.Redact))).Err?;
            && (decision == Block <==> blocks || (redacts && fails))
            && (decision == Modify <==> !blocks && redacts && !fails)
            && (decision != Modify ==> after.body == s.body)
            && after.findings == (var kept := Kept(pol, raw); if kept == [] then s.findings else Some(kept))
  {
    DecidedMeansKept(pol, raw, Policy.Block);
    DecidedMeansKept(pol, raw, Policy.Redact);
  }

  lemma {:induction false} DecidedMeansKept(pol: Policy.Policy, raw: Findings, action: Policy.Action)
    requires action != Policy.Allow
    ensures Decided(pol, raw, action) != [] ==> Kept(pol, raw) != []
  {
    var fs := Decided(pol, raw, action);
    if fs != [] {
      DecidedAre(pol, raw, action, fs[0]);
      KeptWhenDecided(pol, raw, fs[0]);
    }
  }

  ghost predicate DetectsHigh(env: Env, patterns: seq<Detector.Pattern>, s: State<Findings>) {
    exists seg, f :: Detected(env, patterns, s, seg, f) && f.severity == Detector.High
  }

  predicate HasHigh(raw: Findings) {
    exists i :: 0 <= i < |raw| && raw[i].finding.severity == Detector.High
  }

  lemma {:induction false} HighExactly(env: Env, patterns: seq<Detector.Pattern>, s: State<Findings>)
    requires env.engine.Lawful()
    ensures HasHigh(Found(env, patterns, s)) <==> DetectsHigh(env, patterns, s)
  {
    var raw := Found(env, patterns, s);
    if DetectsHigh(env, patterns, s) {
      var seg, f :| Detected(env, patterns, s, seg, f) && f.severity == Detector.High;
      var g := EnrichedFinding(f, seg.role, seg.index, seg.content, "");
      FoundExactly(env, patterns, s, g);
      var i :| 0 <= i < |raw| && raw[i] == g;
    }
    if HasHigh(raw) {
      var i :| 0 <= i < |raw| && raw[i].finding.severity == Detector.High;
      assert raw[i] in raw;
      FoundExactly(env, patterns, s, raw[i]);
    }
  }

  /** The stage's decision from what it found. */
  lemma {:induction false} ProcessedFrom(env: Env, patterns: seq<Detector.Pattern>, pol: Option<Policy.Policy>,
                                         blockOnDetect: bool, s: State<Findings>)
    ensures var raw := Found(env, patterns, s);
            Processed(env, patterns, pol, blockOnDetect, s)
            == if raw == [] then (Continue, s)
               else if pol.None? then FlagDecision(blockOnDetect, raw, s)
               else PolicyDecision(env, pol.value, raw, s)
  {}

  lemma {:induction false} FlagDecisionIs(blockOnDetect: bool, raw: Findings, s: State<Findings>)
    ensures FlagDecision(blockOnDetect, raw, s)
            == (if blockOnDetect && HasHigh(raw) then Block else Continue, s.(findings := Some(raw)))
  {}

  /** Without a policy the stage blocks if and only if blocking is switched on and a
      finding of high severity is detected in the body, which it never changes. */
  lemma {:induction false} FlagDecidesExactly(env: Env, patterns: seq<Detector.Pattern>, blockOnDetect: bool,
                                              s: State<Findings>)
    requires env.engine.Lawful()
    ensures var (decision, after) := Processed(env, patterns, None, blockOnDetect, s);
            && (decision == Block <==> blockOnDetect && DetectsHigh(env, patterns, s))
            && decision != Modify && after.body == s.body
            && after.findings == (var raw := Found(env, patterns, s); if raw == [] then s.findings else Some(raw))
  {
    ProcessedFrom(env, patterns, None, blockOnDetect, s);
    HighExactly(env, patterns, s);
    FlagDecisionIs(blockOnDetect, Found(env, patterns, s), s);
  }

  lemma {:induction false} RedactionSanitises(env: Env, patterns: seq<Detector.Pattern>, pol: Policy.Policy,
                                              blockOnDetect: bool, s: State<Findings>)
    requires env.lib.Lawful() && env.engine.Lawful() && Patterns.AllLong(patterns) && GoodBody(s)
    requires Decided(pol, Found(env, patterns, s), Policy.Redact) != []
    ensures var fs := Decided(pol, Found(env, patterns, s), Policy.Redact);
            var (decision, after) := Processed(env, patterns, Some(pol), blockOnDetect, s);
            && (RedactBody(env.lib, s.host, s.path, s.body.AsJson(), Groups(fs)).Err? ==> decision == Block)
            && (decision != Block ==> decision == Modify && BodySanitised(env.lib, fs, s, after.body))
  {
    var raw := Found(env, patterns, s);
    var fs := Decided(pol, raw, Policy.Redact);
    DecidedAre(pol, raw, Policy.Redact, fs[0]);
    KeptWhenDecided(pol, raw, fs[0]);
    KeysOfSome(fs);
    RedactableAre(env, patterns, pol, s);
    var ep := EndpointOf(s.host, s.path).value;
    if Redacted(env.lib, Groups(fs), ep, s.body.json).Ok? {
      RedactedBodyIsSanitised(env.lib, fs, ep, s.body.json);
    }
  }

  // ----- the proxy

  /** Stage j of a chain is the secret stage under a policy, and no other replaces the body. */
  ghost predicate Guarded(stages: seq<Pipeline.Stage<Findings>>, j: nat, env: Env, patterns: seq<Detector.Pattern>,
                          pol: Policy.Policy, blockOnDetect: bool)
  {
    && OneEditor(stages, j)
    && forall t: State<Findings> ::
         var (decision, after) := Processed(env, patterns, Some(pol), blockOnDetect, t);
         stages[j].process(t) == Effect(decision, false, after.body, after.findings)
  }

  /** Another stage refuses a request when it reaches that stage. */
  ghost predicate RefusedElsewhere(stages: seq<Pipeline.Stage<Findings>>, j: nat, s: State<Findings>) {
    exists i :: 0 <= i < |stages| && i != j && BlocksAt(stages, s, i)
  }

  /** Up to the editing stage a request stays as it came. */
  lemma {:induction false} ReachesEditor(stages: seq<Pipeline.Stage<Findings>>, j: nat, s: State<Findings>, i: nat)
    requires OneEditor(stages, j) && i <= j
    ensures Reaches(s, StateAt(stages, s, i))
  {
    if i > 0 {
      ReachesEditor(stages, j, s, i - 1);
      assert KeepsBody(stages[i - 1]);
    }
  }

  lemma {:induction false} BodyStaysAfter(stages: seq<Pipeline.Stage<Findings>>, j: nat, s: State<Findings>, i: nat)
    requires OneEditor(stages, j) && j < i <= |stages|
    ensures StateAt(stages, s, i).body == stages[j].process(StateAt(stages, s, j)).body
  {
    if i > j + 1 {
      BodyStaysAfter(stages, j, s, i - 1);
      assert KeepsBody(stages[i - 1]);
    }
  }

  /** Requests that agree but for what is recorded about them are decided alike. */
  lemma {:induction false} SameRequestSameFindings(env: Env, patterns: seq<Detector.Pattern>, pol: Policy.Policy,
                                                   s: State<Findings>, t: State<Findings>, action: Policy.Action)
    requires Reaches(s, t)
    ensures Found(env, patterns, t) == Found(env, patterns, s) && BodySegments(t) == BodySegments(s)
    ensures Wants(env, patterns, pol, t, action) <==> Wants(env, patterns, pol, s, action)
    ensures RedactionFails(env, patterns, pol, t) <==> RedactionFails(env, patterns, pol, s)
  {
    forall seg, f ensures Detected(env, patterns, t, seg, f) <==> Detected(env, patterns, s, seg, f) {}
  }

  /** For every request through a chain guarded by the secret stage with patterns no
      shorter than the mask, told by what the patterns detect in the segments of its
      body: it is refused if and only if another stage blocks it, a finding is decided
      to block, or one is to be redacted and that fails. What is forwarded parses into
      the same segments, none of which keeps a byte of a finding to be redacted; and
      with nothing to redact it is the body as it came. */
  lemma {:induction false} NothingRedactableIsForwarded(stages: seq<Pipeline.Stage<Findings>>, j: nat, env: Env,
                                                        patterns: seq<Detector.Pattern>, pol: Policy.Policy,
                                                        blockOnDetect: bool, s: State<Findings>)
    requires env.lib.Lawful() && env.engine.Lawful() && Patterns.AllLong(patterns) && GoodBody(s)
    requires Guarded(stages, j, env, patterns, pol, blockOnDetect)
    ensures var blocks := Wants(env, patterns, pol, s, Policy.Block);
            var redacts := Wants(env, patterns, pol, s, Policy.Redact);
            var handled := Handling(stages, s).1;
            && (handled == Refused <==>
                  RefusedElsewhere(stages, j, s) || blocks || (redacts && RedactionFails(env, patterns, pol, s)))
            && (handled.Forwarded? && redacts ==> BodyCleaned(env, patterns, pol, s, handled.body))
            && (handled.Forwarded? && !redacts ==> handled.body == s.body)
  {
    var t := StateAt(stages, s, j);
    HandledExactly(stages, s);
    ReachesEditor(stages, j, s, j);
    StageDecidesExactly(env, patterns, pol, blockOnDetect, t);
    SameRequestSameFindings(env, patterns, pol, s, t, Policy.Block);
    SameRequestSameFindings(env, patterns, pol, s, t, Policy.Redact);
    BlockedHereOrElsewhere(stages, j, env, patterns, pol, blockOnDetect, s);
    if Handling(stages, s).1.Forwarded? {
      BodyStaysAfter(stages, j, s, |stages|);
      if Wants(env, patterns, pol, s, Policy.Redact) {
        CleanedAtStage(env, patterns, pol, blockOnDetect, s, t);
      }
    }
  }

  lemma {:induction false} BlockedHereOrElsewhere(stages: seq<Pipeline.Stage<Findings>>, j: nat, env: Env,
                                                  patterns: seq<Detector.Pattern>, pol: Policy.Policy,
                                                  blockOnDetect: bool, s: State<Findings>)
    requires Guarded(stages, j, env, patterns, pol, blockOnDetect)
    ensures (exists i :: 0 <= i < |stages| && BlocksAt(stages, s, i)) <==>
            RefusedElsewhere(stages, j, s)
            || Processed(env, patterns, Some(pol), blockOnDetect, StateAt(stages, s, j)).0 == Block
  {
    assert BlocksAt(stages, s, j) <==>
        Processed(env, patterns, Some(pol), blockOnDetect, StateAt(stages, s, j)).0 == Block;
  }

  lemma {:induction false} CleanedAtStage(env: Env, patterns: seq<Detector.Pattern>, pol: Policy.Policy,
                                          blockOnDetect: bool, s: State<Findings>, t: State<Findings>)
    requires env.lib.Lawful() && env.engine.Lawful() && Patterns.AllLong(patterns) && GoodBody(s) && Reaches(s, t)
    requires Wants(env, patterns, pol, s, Policy.Redact)
    requires Processed(env, patterns, Some(pol), blockOnDetect, t).0 != Block
    ensures var body := Processed(env, patterns, Some(pol), blockOnDetect, t).1.body;
            body.Doc? && BodyCleaned(env, patterns, pol, s, body)
  {
    SameRequestSameFindings(env, patterns, pol, s, t, Policy.Redact);
    WantsExactly(env, patterns, pol, s, Policy.Redact);
    StageSanitises(env, patterns, pol, blockOnDetect, t);
    BodyIsCleaned(env, patterns, pol, s, Processed(env, patterns, Some(pol), blockOnDetect, t).1.body);
  }
}
