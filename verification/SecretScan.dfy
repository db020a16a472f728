/** The secret-scanning stage: internal/stage/secretscan/stage.go. */
module SecretScan {
  import opened Basics
  import opened Spans
  import opened Wire
  import opened Parser
  import opened Redact
  import Detector
  import Policy
  import opened Provider
  import opened Pipeline

  datatype EnrichedFinding =
    EnrichedFinding(finding: Detector.Finding, role: string, index: int, segmentText: string, rule: string)
  {
    /** The segment the finding was located in. */
    function Key(): TextSegment {
      TextSegment(role, index, segmentText)
    }

    function Span(): Span {
      Spans.Span(finding.offset, finding.length)
    }
  }

  type Findings = seq<EnrichedFinding>

  /** What the stage takes as given; segments that are not valid UTF-8 are not scanned. */
  datatype Env = Env(lib: Library, engine: Detector.Engine, validUtf8: string -> bool)

  // ----- scanning

  function SegmentFindings(env: Env, patterns: seq<Detector.Pattern>, seg: TextSegment): Findings {
    if !env.validUtf8(seg.content) then []
    else
      var fs := Detector.Findings(env.engine, patterns, seg.content);
      seq(|fs|, i requires 0 <= i < |fs| => EnrichedFinding(fs[i], seg.role, seg.index, seg.content, ""))
  }

  function RawFindings(env: Env, patterns: seq<Detector.Pattern>, texts: seq<TextSegment>, i: nat): Findings
    requires i <= |texts|
    decreases |texts| - i
  {
    if i == |texts| then [] else SegmentFindings(env, patterns, texts[i]) + RawFindings(env, patterns, texts, i + 1)
  }

  method ScanTexts(env: Env, registry: Detector.Registry, texts: seq<TextSegment>) returns (raw: Findings)
    ensures raw == RawFindings(env, registry.patterns, texts, 0)
  {
    raw := [];
    var i := 0;
    while i < |texts|
      invariant 0 <= i <= |texts|
      invariant raw + RawFindings(env, registry.patterns, texts, i) == RawFindings(env, registry.patterns, texts, 0)
    {
      var found := ScanSegment(env, registry, texts[i]);
      ghost var rest := RawFindings(env, registry.patterns, texts, i + 1);
      assert raw + (found + rest) == (raw + found) + rest;
      raw := raw + found;
      i := i + 1;
    }
  }

  /** The body of the loop over segments. */
  method ScanSegment(env: Env, registry: Detector.Registry, seg: TextSegment) returns (out: Findings)
    ensures out == SegmentFindings(env, registry.patterns, seg)
  {
    out := [];
    if !env.validUtf8(seg.content) {
      return;
    }
    var fs := registry.Scan(env.engine, seg.content);
    var k := 0;
    while k < |fs|
      invariant 0 <= k <= |fs| && out == SegmentFindings(env, registry.patterns, seg)[..k]
    {
      out := out + [EnrichedFinding(fs[k], seg.role, seg.index, seg.content, "")];
      k := k + 1;
    }
  }

  // ----- deciding

  function ActionOf(pol: Policy.Policy, f: EnrichedFinding): Policy.Action {
    Policy.Decide(Some(pol), f.finding).0
  }

  function Ruled(pol: Policy.Policy, f: EnrichedFinding): EnrichedFinding {
    f.(rule := Policy.Decide(Some(pol), f.finding).1)
  }

  /** The findings a policy does not suppress, with the rule that decided each. */
  function Kept(pol: Policy.Policy, raw: Findings): Findings {
    if raw == [] then []
    else
      var f := raw[|raw| - 1];
      Kept(pol, raw[..|raw| - 1]) + (if ActionOf(pol, f) == Policy.Allow then [] else [Ruled(pol, f)])
  }

  /** The findings decided in a given way, in order. */
  function Decided(pol: Policy.Policy, raw: Findings, action: Policy.Action): Findings {
    if raw == [] then []
    else
      var f := raw[|raw| - 1];
      Decided(pol, raw[..|raw| - 1], action) + (if ActionOf(pol, f) == action then [f] else [])
  }

  // ----- grouping

  /** The segments with findings, in the order in which they are first seen. */
  function Keys(fs: Findings): seq<TextSegment> {
    if fs == [] then []
    else
      var earlier, key := Keys(fs[..|fs| - 1]), fs[|fs| - 1].Key();
      if key in earlier then earlier else earlier + [key]
  }

  /** The spans found in one segment, in order. */
  function SpansFor(key: TextSegment, fs: Findings): seq<Span> {
    if fs == [] then []
    else
      var f := fs[|fs| - 1];
      SpansFor(key, fs[..|fs| - 1]) + (if f.Key() == key then [f.Span()] else [])
  }

  function GroupFor(key: TextSegment, fs: Findings): Redaction {
    Redaction(key.role, key.index, key.content, SpansFor(key, fs))
  }

  /** One redaction for each segment with findings. */
  function Groups(fs: Findings): (r: seq<Redaction>)
    ensures |r| == |Keys(fs)|
    ensures forall k :: 0 <= k < |r| ==> r[k] == GroupFor(Keys(fs)[k], fs) && r[k].Key() == Keys(fs)[k]
  {
    seq(|Keys(fs)|, k requires 0 <= k < |Keys(fs)| => GroupFor(Keys(fs)[k], fs))
  }

  // ----- the decision

  function RedactDecision(env: Env, s: State<Findings>, kept: Findings, redactable: Findings)
    : (Decision, State<Findings>)
  {
    match RedactBody(env.lib, s.host, s.path, s.body.AsJson(), Groups(redactable))
    case Err(_) => (Block, s.(findings := Some(kept)))
    case Ok(body) =>
      (Modify, s.(findings := Some(kept), body := match body case Some(j) => Doc(j) case None => s.body))
  }

  function PolicyDecision(env: Env, pol: Policy.Policy, raw: Findings, s: State<Findings>)
    : (Decision, State<Findings>)
  {
    var kept, redactable := Kept(pol, raw), Decided(pol, raw, Policy.Redact);
    if kept == [] then (Continue, s)
    else if Decided(pol, raw, Policy.Block) != [] then (Block, s.(findings := Some(kept)))
    else if redactable == [] then (Continue, s.(findings := Some(kept)))
    else RedactDecision(env, s, kept, redactable)
  }

  function FlagDecision(blockOnDetect: bool, raw: Findings, s: State<Findings>): (Decision, State<Findings>) {
    var anyHigh := exists i :: 0 <= i < |raw| && raw[i].finding.severity == Detector.High;
    (if anyHigh && blockOnDetect then Block else Continue, s.(findings := Some(raw)))
  }

  /** The stage as a function of what it sees; `pol` is the active policy. */
  function Processed(env: Env, patterns: seq<Detector.Pattern>, pol: Option<Policy.Policy>, blockOnDetect: bool,
                     s: State<Findings>)
    : (Decision, State<Findings>)
  {
    if s.body.Missing? then (Continue, s)
    else match Parse(s.host, s.verb, s.path, s.body.AsJson())
      case NotRecognised => (Continue, s)
      case Malformed => (Continue, s)
      case Request(_, _, texts) =>
        var raw := RawFindings(env, patterns, texts, 0);
        if raw == [] then (Continue, s)
        else match pol
          case None => FlagDecision(blockOnDetect, raw, s)
          case Some(p) => PolicyDecision(env, p, raw, s)
  }

  class Stage {
    const env: Env
    const registry: Detector.Registry
    const blockOnDetect: bool
    const policies: Provider?

    constructor (env: Env, registry: Detector.Registry, blockOnDetect: bool, policies: Provider?)
      ensures this.env == env && this.registry == registry
      ensures this.blockOnDetect == blockOnDetect && this.policies == policies
    {
      this.env := env;
      this.registry := registry;
      this.blockOnDetect := blockOnDetect;
      this.policies := policies;
    }

    /** The policy a request is decided by; none without a provider. */
    function Active(): Option<Policy.Policy>
      reads policies
    {
      if policies == null then None else policies.p
    }

    method Process(rc: RequestCtx<Findings>) returns (decision: Decision)
      modifies rc
      ensures (decision, rc.Now()) == Processed(env, registry.patterns, Active(), blockOnDetect, old(rc.Now()))
    {
      if rc.body.Missing? {
        return Continue;
      }
      var parsed := ParseRequest(rc.host, rc.verb, rc.path, rc.body.AsJson());
      if !parsed.Request? {
        return Continue;
      }
      var raw := ScanTexts(env, registry, parsed.texts);
      if |raw| == 0 {
        return Continue;
      }
      var pol := None;
      if policies != null {
        pol := policies.Get();
      }
      match pol {
        case Some(p) => decision := DecideWithPolicy(rc, raw, p);
        case None => decision := DecideWithFlag(rc, raw);
      }
    }

    method DecideWithFlag(rc: RequestCtx<Findings>, raw: Findings) returns (decision: Decision)
      modifies rc
      ensures (decision, rc.Now()) == FlagDecision(blockOnDetect, raw, old(rc.Now()))
    {
      var highCount := 0;
      var i := 0;
      while i < |raw|
        invariant 0 <= i <= |raw| && highCount >= 0
        invariant highCount > 0 <==> exists k :: 0 <= k < i && raw[k].finding.severity == Detector.High
      {
        if raw[i].finding.severity == Detector.High {
          highCount := highCount + 1;
        }
        i := i + 1;
      }
      rc.findings := Some(raw);
      if highCount > 0 && blockOnDetect {
        return Block;
      }
      return Continue;
    }

    method DecideWithPolicy(rc: RequestCtx<Findings>, raw: Findings, pol: Policy.Policy) returns (decision: Decision)
      modifies rc
      ensures (decision, rc.Now()) == PolicyDecision(env, pol, raw, old(rc.Now()))
    {
      var kept, anyBlock, reds := Sort(raw, pol);
      if |kept| == 0 {
        return Continue;
      }
      rc.findings := Some(kept);
      if anyBlock {
        return Block;
      }
      if |reds| > 0 {
        var redacted := RedactRequest(env.lib, rc.host, rc.path, rc.body.AsJson(), reds);
        match redacted {
          case Err(_) =>
            return Block;
          case Ok(body) =>
            if body.Some? {
              rc.body := Doc(body.value);
            }
            return Modify;
        }
      }
      return Continue;
    }

    /** The loop over findings: which are kept, whether any blocks, and the redactions. */
    method Sort(raw: Findings, pol: Policy.Policy) returns (kept: Findings, anyBlock: bool, reds: seq<Redaction>)
      ensures kept == Kept(pol, raw)
      ensures anyBlock <==> Decided(pol, raw, Policy.Block) != []
      ensures reds == Groups(Decided(pol, raw, Policy.Redact))
      ensures reds == [] <==> Decided(pol, raw, Policy.Redact) == []
    {
      kept, anyBlock := [], false;
      var redByKey: map<TextSegment, seq<Span>> := map[];
      var redOrder: seq<TextSegment> := [];
      ghost var redactable: Findings := [];
      var i := 0;
      while i < |raw|
        invariant 0 <= i <= |raw|
        invariant kept == Kept(pol, raw[..i])
        invariant anyBlock <==> Decided(pol, raw[..i], Policy.Block) != []
        invariant redactable == Decided(pol, raw[..i], Policy.Redact)
        invariant redOrder == Keys(redactable) && IsGrouping(redByKey, redactable)
      {
        var f := raw[i];
        OneMore(pol, raw, i);
        var (action, ruleName) := Policy.Decide(Some(pol), f.finding);
        if action != Policy.Allow {
          kept := kept + [f.(rule := ruleName)];
        }
        match action {
          case Block =>
            anyBlock := true;
          case Redact =>
            redOrder, redByKey := AddSpan(redOrder, redByKey, f, redactable);
            redactable := redactable + [f];
          case _ =>
        }
        i := i + 1;
      }
      assert raw[..i] == raw;
      KeysOfSome(redactable);
      reds := Collect(redOrder, redByKey, redactable);
    }

    /** The finding's span joins those of its segment. */
    method AddSpan(redOrder: seq<TextSegment>, redByKey: map<TextSegment, seq<Span>>, f: EnrichedFinding,
                   ghost fs: Findings)
      returns (order: seq<TextSegment>, byKey: map<TextSegment, seq<Span>>)
      requires redOrder == Keys(fs) && IsGrouping(redByKey, fs)
      ensures order == Keys(fs + [f]) && IsGrouping(byKey, fs + [f])
    {
      var key := f.Key();
      Regrouped(redByKey, fs, f);
      if key !in redByKey {
        return redOrder + [key], redByKey[key := [f.Span()]];
      }
      return redOrder, redByKey[key := redByKey[key] + [f.Span()]];
    }

    /** The loop that lists the redactions in first-seen order. */
    method Collect(redOrder: seq<TextSegment>, redByKey: map<TextSegment, seq<Span>>, ghost fs: Findings)
      returns (reds: seq<Redaction>)
      requires redOrder == Keys(fs) && IsGrouping(redByKey, fs)
      ensures reds == Groups(fs)
    {
      reds := [];
      var k := 0;
      while k < |redOrder|
        invariant 0 <= k <= |redOrder|
        invariant reds == Groups(fs)[..k]
      {
        var key := redOrder[k];
        assert key in Keys(fs);
        reds := reds + [Redaction(key.role, key.index, key.content, redByKey[key])];
        k := k + 1;
      }
    }
  }

  lemma {:induction false} OneMore(pol: Policy.Policy, raw: Findings, i: nat)
    requires i < |raw|
    ensures var f, action := raw[i], ActionOf(pol, raw[i]);
            && Kept(pol, raw[..i + 1]) == Kept(pol, raw[..i]) + (if action == Policy.Allow then [] else [Ruled(pol, f)])
            && Decided(pol, raw[..i + 1], Policy.Block)
               == Decided(pol, raw[..i], Policy.Block) + (if action == Policy.Block then [f] else [])
            && Decided(pol, raw[..i + 1], Policy.Redact)
               == Decided(pol, raw[..i], Policy.Redact) + (if action == Policy.Redact then [f] else [])
  {
    assert raw[..i + 1][..i] == raw[..i] && raw[..i + 1][i] == raw[i];
  }

  /** The map from segments to the spans found in them. */
  ghost predicate IsGrouping(redByKey: map<TextSegment, seq<Span>>, fs: Findings) {
    && (forall key :: key in redByKey <==> key in Keys(fs))
    && (forall key :: key in redByKey ==> redByKey[key] == SpansFor(key, fs))
  }

  lemma {:induction false} KeysOfSome(fs: Findings)
    ensures Keys(fs) == [] <==> fs == []
  {}

  lemma {:induction false} UnseenHasNoSpans(key: TextSegment, fs: Findings)
    ensures key !in Keys(fs) ==> SpansFor(key, fs) == []
    ensures key in Keys(fs) <==> exists i :: 0 <= i < |fs| && fs[i].Key() == key
  {
    if fs != [] {
      var front := fs[..|fs| - 1];
      UnseenHasNoSpans(key, front);
      if exists i :: 0 <= i < |fs| && fs[i].Key() == key {
        var i :| 0 <= i < |fs| && fs[i].Key() == key;
        if i < |front| { assert front[i].Key() == key; }
      }
      if key in Keys(front) {
        var i :| 0 <= i < |front| && front[i].Key() == key;
        assert fs[i].Key() == key;
      }
    }
  }

  lemma {:induction false} Regrouped(redByKey: map<TextSegment, seq<Span>>, fs: Findings, f: EnrichedFinding)
    requires IsGrouping(redByKey, fs)
    ensures var key := f.Key();
            var spans := (if key in redByKey then redByKey[key] else []) + [f.Span()];
            && IsGrouping(redByKey[key := spans], fs + [f])
            && Keys(fs + [f]) == if key in redByKey then Keys(fs) else Keys(fs) + [key]
  {
    var key := f.Key();
    assert (fs + [f])[..|fs|] == fs;
    UnseenHasNoSpans(key, fs);
  }
}
