/** RedactRequest of internal/parser/redact.go: masks the texts that redactions
    name, walking the same document the parser walked.

    The source's loops are the methods at the end; the functions say what each
    part of the walk returns, and `*Looks` and `*Visits` which texts it looks at. */
module Redact {
  import opened Basics
  import opened Spans
  import opened Wire
  import opened Parser

  datatype Redaction = Redaction(role: string, index: int, content: string, spans: seq<Span>) {
    /** What a text must equal for this redaction to apply. */
    function Key(): TextSegment {
      TextSegment(role, index, content)
    }
  }

  datatype RedactError = UnsupportedEndpoint | BadStructure | SpanOutOfRange | NotJsonAfterMasking | NotFound

  datatype Edit<T> = Edit(value: T, changed: bool)

  type Outcome<T> = Result<Edit<T>, RedactError>

  // ----- one text

  /** The redactions from k on that name a text, applied to `out`, what the earlier ones made of it. */
  function MaskFrom(lib: Library, reds: seq<Redaction>, text: TextSegment, out: string, k: nat): Outcome<string>
    requires k <= |reds|
    decreases |reds| - k
  {
    if k == |reds| then Ok(Edit(out, false))
    else if reds[k].Key() != text then MaskFrom(lib, reds, text, out, k + 1)
    else match SpliceAll(out, lib.sortSpans(reds[k].spans), MASK)
      case None => Err(SpanOutOfRange)
      case Some(masked) =>
        match MaskFrom(lib, reds, text, masked, k + 1)
        case Err(e) => Err(e)
        case Ok(rest) => Ok(Edit(rest.value, true))
  }

  function MaskText(lib: Library, reds: seq<Redaction>, role: string, index: int, content: string): Outcome<string> {
    MaskFrom(lib, reds, TextSegment(role, index, content), content, 0)
  }

  /** Masks a text that sits in the body as a JSON string. */
  function MaskString(lib: Library, reds: seq<Redaction>, role: string, index: int, j: Json, s: string): Outcome<Json> {
    match MaskText(lib, reds, role, index, s)
    case Err(e) => Err(e)
    case Ok(t) => Ok(Edit(if t.changed then lib.Encoded(Str("", t.value)) else j, t.changed))
  }

  /** Masks a value's own text; what comes out must still be JSON. */
  function MaskRaw(lib: Library, reds: seq<Redaction>, role: string, index: int, j: Json): Outcome<Json> {
    match MaskText(lib, reds, role, index, j.raw)
    case Err(e) => Err(e)
    case Ok(t) =>
      if !t.changed then Ok(Edit(j, false))
      else match lib.Reparsed(t.value)
        case None => Err(NotJsonAfterMasking)
        case Some(masked) => Ok(Edit(masked, true))
  }

  // ----- content

  /** The block types whose text is redactable on an endpoint: anthropicTextTypes and openAITextTypes. */
  predicate TextType(ep: Endpoint, kind: string) {
    if ep == Anthropic then kind == "text"
    else kind == "text" || kind == "input_text" || kind == "output_text"
  }

  /** The redactor's switch on the type of a block. */
  function KindOf(ep: Endpoint, fields: map<string, Json>): BlockKind {
    var kind := StringIn(fields, "type");
    if TextType(ep, kind) then Text
    else if kind == "tool_use" then ToolUse
    else if kind == "tool_result" then ToolResult
    else OtherBlock
  }

  function Content(lib: Library, reds: seq<Redaction>, ep: Endpoint, role: string, index: int,
                   j: Json): Result<Json, RedactError>
    decreases j
  {
    match j.AsString()
    case Some(s) => ValueOf(MaskString(lib, reds, role, index, j, s))
    case None =>
      if !j.Arr? then Ok(j)
      else match Blocks(lib, reds, ep, role, index, j, 0)
        case Err(e) => Err(e)
        case Ok(blocks) => Ok(if blocks.changed then lib.Encoded(Arr("", blocks.value)) else j)
  }

  function ValueOf<T>(r: Outcome<T>): Result<T, RedactError> {
    match r case Err(e) => Err(e) case Ok(edit) => Ok(edit.value)
  }

  function Blocks(lib: Library, reds: seq<Redaction>, ep: Endpoint, role: string, index: int, j: Json,
                  i: nat): Outcome<seq<Json>>
    requires j.Arr? && i <= |j.items|
    decreases j, |j.items| - i
  {
    if i == |j.items| then Ok(Edit([], false))
    else match Block(lib, reds, ep, role, index, j.items[i])
      case Err(e) => Err(e)
      case Ok(b) => Prepended(b, Blocks(lib, reds, ep, role, index, j, i + 1))
  }

  function Prepended(b: Edit<Json>, rest: Outcome<seq<Json>>): Outcome<seq<Json>> {
    match rest
    case Err(e) => Err(e)
    case Ok(r) => Ok(Edit([b.value] + r.value, b.changed || r.changed))
  }

  function Block(lib: Library, reds: seq<Redaction>, ep: Endpoint, role: string, index: int,
                 b: Json): (r: Outcome<Json>)
    ensures r.Ok? && !r.value.changed ==> r.value.value == b
    decreases b
  {
    if !b.Obj? then Ok(Edit(b, false))
    else match KindOf(ep, b.fields)
      case Text => WithField(lib, b, "text", MaskString(lib, reds, role, index, b, StringIn(b.fields, "text")))
      case ToolUse => WithField(lib, b, "input", ToolUseInput(lib, reds, role, index, b.fields))
      case ToolResult =>
        if "content" !in b.fields then Ok(Edit(b, false))
        else WithField(lib, b, "content",
                       IfDifferent(b.fields["content"], Content(lib, reds, ep, role, index, b.fields["content"])))
      case OtherBlock => Ok(Edit(b, false))
  }

  /** An object with one field replaced, re-encoded, when that field changed. */
  function WithField(lib: Library, b: Json, key: string, field: Outcome<Json>): Outcome<Json>
    requires b.Obj?
  {
    match field
    case Err(e) => Err(e)
    case Ok(f) => Ok(Edit(if f.changed then lib.Encoded(Obj("", b.fields[key := f.value])) else b, f.changed))
  }

  /** bytes.Equal between a value and its redacted form; equal texts are equal values. */
  function IfDifferent(before: Json, after: Result<Json, RedactError>): Outcome<Json> {
    match after
    case Err(e) => Err(e)
    case Ok(j) => Ok(Edit(j, j != before))
  }

  function ToolUseInput(lib: Library, reds: seq<Redaction>, role: string, index: int,
                        fields: map<string, Json>): Outcome<Json>
  {
    if "input" !in fields || fields["input"].raw == "" then Ok(Edit(Null(""), false))
    else MaskRaw(lib, reds, role, index, fields["input"])
  }

  // ----- tool calls

  function ToolArguments(lib: Library, reds: seq<Redaction>, role: string, index: int, args: Json): Outcome<Json> {
    if args.raw == "" then Ok(Edit(args, false))
    else match args.AsString()
      case None => MaskRaw(lib, reds, role, index, args)
      case Some(s) =>
        match MaskText(lib, reds, role, index, s)
        case Err(e) => Err(e)
        case Ok(t) =>
          if t.changed && lib.Reparsed(t.value).None? then Err(NotJsonAfterMasking)
          else Ok(Edit(if t.changed then lib.Encoded(Str("", t.value)) else args, t.changed))
  }

  function ToolCall(lib: Library, reds: seq<Redaction>, role: string, index: int, call: Json): (r: Outcome<Json>)
    ensures r.Ok? && !r.value.changed ==> r.value.value == call
  {
    if !call.Obj? || "arguments" !in FunctionOf(call.fields) then Ok(Edit(call, false))
    else
      var f := call.fields["function"];
      WithField(lib, call, "function",
                WithField(lib, f, "arguments", ToolArguments(lib, reds, role, index, f.fields["arguments"])))
  }

  function ToolCalls(lib: Library, reds: seq<Redaction>, role: string, index: int, calls: seq<Json>,
                     i: nat): Outcome<seq<Json>>
    requires i <= |calls|
    decreases |calls| - i
  {
    if i == |calls| then Ok(Edit([], false))
    else match ToolCall(lib, reds, role, index, calls[i])
      case Err(e) => Err(e)
      case Ok(c) => Prepended(c, ToolCalls(lib, reds, role, index, calls, i + 1))
  }

  function ToolCallArray(lib: Library, reds: seq<Redaction>, role: string, index: int, tc: Json): Outcome<Json> {
    if !tc.Arr? then Ok(Edit(tc, false))
    else match ToolCalls(lib, reds, role, index, tc.items, 0)
      case Err(e) => Err(e)
      case Ok(calls) => Ok(Edit(if calls.changed then lib.Encoded(Arr("", calls.value)) else tc, calls.changed))
  }

  // ----- one message or input item

  function Item(lib: Library, reds: seq<Redaction>, ep: Endpoint, i: nat, item: Json): Result<Json, RedactError> {
    match item.AsObject()
    case None => Err(BadStructure)
    case Some(m) =>
      match ep
      case Anthropic => Rewritten(lib, reds, ep, StringIn(m, "role"), i, item, "content")
      case Chat => ChatMessage(lib, reds, i, item)
      case Responses =>
        if "role" in m then
          if StringIn(m, "role") == "" then Ok(item)
          else Rewritten(lib, reds, ep, StringIn(m, "role"), i, item, "content")
        else if StringIn(m, "type") == "function_call_output" then
          Rewritten(lib, reds, ep, "tool", i, item, "output")
        else if StringIn(m, "type") == "function_call" && "arguments" in m then
          ValueOf(WithField(lib, item, "arguments", ToolArguments(lib, reds, "assistant", i, m["arguments"])))
        else Ok(item)
  }

  /** An object whose field holds content, rebuilt whether or not it changed. */
  function Rewritten(lib: Library, reds: seq<Redaction>, ep: Endpoint, role: string, i: int, item: Json,
                     key: string): Result<Json, RedactError>
  {
    if !item.Obj? || key !in item.fields then Ok(item)
    else match Content(lib, reds, ep, role, i, item.fields[key])
      case Err(e) => Err(e)
      case Ok(c) => Ok(lib.Encoded(Obj("", item.fields[key := c])))
  }

  function ChatMessage(lib: Library, reds: seq<Redaction>, i: nat, item: Json): Result<Json, RedactError> {
    if !item.Obj? then Ok(item)
    else
      var m, role := item.fields, StringIn(item.fields, "role");
      match (if "content" in m then IfDifferent(m["content"], Content(lib, reds, Chat, role, i, m["content"]))
             else Ok(Edit(item, false)))
      case Err(e) => Err(e)
      case Ok(c) =>
        match (if "tool_calls" in m then ToolCallArray(lib, reds, role, i, m["tool_calls"]) else Ok(Edit(item, false)))
        case Err(e) => Err(e)
        case Ok(tc) =>
          var m1 := if c.changed then m["content" := c.value] else m;
          var m2 := if tc.changed then m1["tool_calls" := tc.value] else m1;
          Ok(if c.changed || tc.changed then lib.Encoded(Obj("", m2)) else item)
  }

  function Items(lib: Library, reds: seq<Redaction>, ep: Endpoint, items: seq<Json>,
                 i: nat): Result<seq<Json>, RedactError>
    requires i <= |items|
    decreases |items| - i
  {
    if i == |items| then Ok([])
    else match Item(lib, reds, ep, i, items[i])
      case Err(e) => Err(e)
      case Ok(j) => Joined([j], Items(lib, reds, ep, items, i + 1))
  }

  function Joined(front: seq<Json>, rest: Result<seq<Json>, RedactError>): Result<seq<Json>, RedactError> {
    match rest case Err(e) => Err(e) case Ok(r) => Ok(front + r)
  }

  function ItemArray(lib: Library, reds: seq<Redaction>, ep: Endpoint, j: Json): Result<Json, RedactError> {
    match j
    case Null(_) => Ok(j)
    case Arr(_, items) =>
      (match Items(lib, reds, ep, items, 0)
       case Err(e) => Err(e)
       case Ok(redacted) => Ok(lib.Encoded(Arr("", redacted))))
    case _ => Err(BadStructure)
  }

  // ----- the whole body

  function HeadKey(ep: Endpoint): string {
    match ep case Anthropic => "system" case Chat => "" case Responses => "instructions"
  }

  function BodyKey(ep: Endpoint): string {
    if ep == Responses then "input" else "messages"
  }

  /** The system prompt or instructions, then the messages or the input. */
  function Top(lib: Library, reds: seq<Redaction>, ep: Endpoint,
               m: map<string, Json>): Result<map<string, Json>, RedactError>
  {
    match (if ep != Chat && HeadKey(ep) in m then Content(lib, reds, ep, "system", -1, m[HeadKey(ep)])
           else Ok(Null("")))
    case Err(e) => Err(e)
    case Ok(head) =>
      var m1 := if ep != Chat && HeadKey(ep) in m then m[HeadKey(ep) := head] else m;
      if BodyKey(ep) !in m then Ok(m1)
      else match MainPart(lib, reds, ep, m[BodyKey(ep)])
        case Err(e) => Err(e)
        case Ok(main) => Ok(m1[BodyKey(ep) := main])
  }

  function MainPart(lib: Library, reds: seq<Redaction>, ep: Endpoint, j: Json): Result<Json, RedactError> {
    if ep == Responses && j.AsString().Some? then Content(lib, reds, ep, "user", 0, j)
    else ItemArray(lib, reds, ep, j)
  }

  /** Every redaction names a text the walk looked at. */
  predicate AllFound(reds: seq<Redaction>, visits: seq<Visit>) {
    forall k :: 0 <= k < |reds| ==> reds[k].Key() in Places(visits)
  }

  function Redacted(lib: Library, reds: seq<Redaction>, ep: Endpoint, body: Json): Result<Json, RedactError> {
    match body.AsObject()
    case None => Err(BadStructure)
    case Some(m) =>
      match Top(lib, reds, ep, m)
      case Err(e) => Err(e)
      case Ok(top) =>
        if AllFound(reds, TopVisits(ep, m)) then Ok(lib.Compacted(lib.Encoded(Obj("", top)))) else Err(NotFound)
  }

  /** RedactRequest as a function; a body of None is not JSON at all. */
  function RedactBody(lib: Library, host: string, path: string, body: Option<Json>,
                      reds: seq<Redaction>): Result<Option<Json>, RedactError>
  {
    if reds == [] then Ok(body)
    else match EndpointOf(host, path)
      case None => Err(UnsupportedEndpoint)
      case Some(ep) =>
        if body.None? then Err(BadStructure)
        else match Redacted(lib, reds, ep, body.value)
          case Err(e) => Err(e)
          case Ok(j) => Ok(Some(j))
  }

  // ----- the texts the walk looks at

  /** A text the walk compares with the redactions; `json` when it must still be JSON once masked. */
  datatype Look = Look(text: string, json: bool)

  datatype Visit = Visit(segment: TextSegment, json: bool)

  function At(role: string, index: int, looks: seq<Look>): (r: seq<Visit>)
    ensures |r| == |looks|
  {
    seq(|looks|, i requires 0 <= i < |looks| => Visit(TextSegment(role, index, looks[i].text), looks[i].json))
  }

  /** The segments a walk looked at. */
  function Places(visits: seq<Visit>): set<TextSegment> {
    set v | v in visits :: v.segment
  }

  function ContentLooks(ep: Endpoint, j: Json): seq<Look>
    decreases j
  {
    match j.AsString()
    case Some(s) => [Look(s, false)]
    case None => if j.Arr? then BlocksLooks(ep, j, 0) else []
  }

  function BlocksLooks(ep: Endpoint, j: Json, i: nat): seq<Look>
    requires j.Arr? && i <= |j.items|
    decreases j, |j.items| - i
  {
    if i == |j.items| then [] else BlockLooks(ep, j.items[i]) + BlocksLooks(ep, j, i + 1)
  }

  function BlockLooks(ep: Endpoint, b: Json): seq<Look>
    decreases b
  {
    if !b.Obj? then []
    else match KindOf(ep, b.fields)
      case Text => [Look(StringIn(b.fields, "text"), false)]
      case ToolUse =>
        if "input" in b.fields && b.fields["input"].raw != "" then [Look(b.fields["input"].raw, true)] else []
      case ToolResult => if "content" in b.fields then ContentLooks(ep, b.fields["content"]) else []
      case OtherBlock => []
  }

  function ArgumentsLooks(args: Json): seq<Look> {
    if args.raw == "" then [] else [Look(Arguments(args).text, true)]
  }

  function ToolCallLooks(call: Json): seq<Look> {
    if !call.Obj? || "arguments" !in FunctionOf(call.fields) then []
    else ArgumentsLooks(FunctionOf(call.fields)["arguments"])
  }

  function ToolCallsLooks(calls: seq<Json>, i: nat): seq<Look>
    requires i <= |calls|
    decreases |calls| - i
  {
    if i == |calls| then [] else ToolCallLooks(calls[i]) + ToolCallsLooks(calls, i + 1)
  }

  function ToolCallArrayLooks(tc: Json): seq<Look> {
    if tc.Arr? then ToolCallsLooks(tc.items, 0) else []
  }

  function FieldLooks(ep: Endpoint, m: map<string, Json>, key: string): seq<Look> {
    if key in m then ContentLooks(ep, m[key]) else []
  }

  function ItemVisits(ep: Endpoint, i: nat, item: Json): seq<Visit> {
    if !item.Obj? then []
    else
      var m := item.fields;
      match ep
      case Anthropic => At(StringIn(m, "role"), i, FieldLooks(ep, m, "content"))
      case Chat =>
        At(StringIn(m, "role"), i, FieldLooks(ep, m, "content"))
        + At(StringIn(m, "role"), i, if "tool_calls" in m then ToolCallArrayLooks(m["tool_calls"]) else [])
      case Responses =>
        if "role" in m then
          if StringIn(m, "role") == "" then [] else At(StringIn(m, "role"), i, FieldLooks(ep, m, "content"))
        else if StringIn(m, "type") == "function_call_output" then At("tool", i, FieldLooks(ep, m, "output"))
        else if StringIn(m, "type") == "function_call" && "arguments" in m then
          At("assistant", i, ArgumentsLooks(m["arguments"]))
        else []
  }

  function ItemsVisits(ep: Endpoint, items: seq<Json>, i: nat): seq<Visit>
    requires i <= |items|
    decreases |items| - i
  {
    if i == |items| then [] else ItemVisits(ep, i, items[i]) + ItemsVisits(ep, items, i + 1)
  }

  function MainVisits(ep: Endpoint, j: Json): seq<Visit> {
    if ep == Responses && j.AsString().Some? then At("user", 0, ContentLooks(ep, j))
    else if j.Arr? then ItemsVisits(ep, j.items, 0)
    else []
  }

  function HeadVisits(ep: Endpoint, m: map<string, Json>): seq<Visit> {
    if ep != Chat && HeadKey(ep) in m then At("system", -1, ContentLooks(ep, m[HeadKey(ep)])) else []
  }

  function TopVisits(ep: Endpoint, m: map<string, Json>): seq<Visit> {
    HeadVisits(ep, m) + (if BodyKey(ep) in m then MainVisits(ep, m[BodyKey(ep)]) else [])
  }

  // ----- marking what was applied

  /** `applied` after a walk over some texts. */
  function Marked(flags: seq<bool>, reds: seq<Redaction>, visits: seq<Visit>): (r: seq<bool>)
    requires |flags| == |reds|
    ensures |r| == |reds|
  {
    seq(|reds|, k requires 0 <= k < |reds| => flags[k] || reds[k].Key() in Places(visits))
  }

  lemma {:induction false} MarkedTwice(flags: seq<bool>, reds: seq<Redaction>, a: seq<Visit>, b: seq<Visit>)
    requires |flags| == |reds|
    ensures Marked(Marked(flags, reds, a), reds, b) == Marked(flags, reds, a + b)
  {
    assert Places(a + b) == Places(a) + Places(b);
  }

  lemma {:induction false} PlacesOfOne(role: string, index: int, look: Look)
    ensures Places(At(role, index, [look])) == {TextSegment(role, index, look.text)}
  {
    var at := At(role, index, [look]);
    assert at == [Visit(TextSegment(role, index, look.text), look.json)];
    assert at[0] in at;
  }

  lemma {:induction false} MarkedNothing(flags: seq<bool>, reds: seq<Redaction>)
    requires |flags| == |reds|
    ensures Marked(flags, reds, []) == flags
  {}

  lemma {:induction false} AtAppend(role: string, index: int, a: seq<Look>, b: seq<Look>)
    ensures At(role, index, a + b) == At(role, index, a) + At(role, index, b)
  {}

  // ----- the source's loops

  method MaybeRedact(lib: Library, reds: seq<Redaction>, role: string, index: int, content: string,
                     applied: array<bool>)
    returns (r: Outcome<string>)
    requires applied.Length == |reds|
    modifies applied
    ensures r == MaskText(lib, reds, role, index, content)
    ensures r.Ok? ==> applied[..] == Marked(old(applied[..]), reds, At(role, index, [Look(content, false)]))
  {
    ghost var text := TextSegment(role, index, content);
    var out := content;
    var changed := false;
    var k := 0;
    while k < |reds|
      invariant 0 <= k <= |reds|
      invariant forall j :: 0 <= j < k ==> applied[j] == (old(applied[j]) || reds[j].Key() == text)
      invariant forall j :: k <= j < |reds| ==> applied[j] == old(applied[j])
      invariant MaskText(lib, reds, role, index, content) ==
                match MaskFrom(lib, reds, text, out, k)
                case Err(e) => Err(e)
                case Ok(rest) => Ok(Edit(rest.value, changed || rest.changed))
    {
      if reds[k].role == role && reds[k].index == index && reds[k].content == content {
        var masked := ApplySpans(lib.sortSpans, out, reds[k].spans);
        if masked.None? {
          return Err(SpanOutOfRange);
        }
        out := masked.value;
        applied[k] := true;
        changed := true;
      }
      k := k + 1;
    }
    assert applied[..] == Marked(old(applied[..]), reds, At(role, index, [Look(content, false)])) by {
      PlacesOfOne(role, index, Look(content, false));
    }
    return Ok(Edit(out, changed));
  }

  method RedactContent(lib: Library, reds: seq<Redaction>, ep: Endpoint, role: string, index: int, j: Json,
                       applied: array<bool>)
    returns (r: Result<Json, RedactError>)
    requires applied.Length == |reds|
    modifies applied
    ensures r == Content(lib, reds, ep, role, index, j)
    ensures r.Ok? ==> applied[..] == Marked(old(applied[..]), reds, At(role, index, ContentLooks(ep, j)))
    decreases j, 1
  {
    var s := j.AsString();
    if s.Some? {
      var masked := MaybeRedact(lib, reds, role, index, s.value, applied);
      match masked {
        case Err(e) => return Err(e);
        case Ok(t) => return Ok(if t.changed then lib.Encoded(Str("", t.value)) else j);
      }
    }
    if !j.Arr? {
      MarkedNothing(applied[..], reds);
      return Ok(j);
    }
    r := RedactBlocks(lib, reds, ep, role, index, j, applied);
  }

  /** The loop over the blocks of an array. */
  method RedactBlocks(lib: Library, reds: seq<Redaction>, ep: Endpoint, role: string, index: int, j: Json,
                      applied: array<bool>)
    returns (r: Result<Json, RedactError>)
    requires applied.Length == |reds| && j.Arr?
    modifies applied
    ensures r == match Blocks(lib, reds, ep, role, index, j, 0)
                 case Err(e) => Err(e)
                 case Ok(b) => Ok(if b.changed then lib.Encoded(Arr("", b.value)) else j)
    ensures r.Ok? ==> applied[..] == Marked(old(applied[..]), reds, At(role, index, BlocksLooks(ep, j, 0)))
    decreases j, 0
  {
    var blocks := j.items;
    var anyChange := false;
    var bi := 0;
    PrependedNothing(Blocks(lib, reds, ep, role, index, j, 0));
    while bi < |blocks|
      invariant 0 <= bi <= |blocks| == |j.items|
      invariant blocks[bi..] == j.items[bi..]
      invariant Blocks(lib, reds, ep, role, index, j, 0) ==
                PrependedAll(blocks[..bi], anyChange, Blocks(lib, reds, ep, role, index, j, bi))
      invariant Marked(applied[..], reds, At(role, index, BlocksLooks(ep, j, bi))) ==
                Marked(old(applied[..]), reds, At(role, index, BlocksLooks(ep, j, 0)))
    {
      ReplacedOne(blocks, j.items, bi, j.items[bi]);
      ghost var before, flags := blocks, applied[..];
      var b := RedactBlock(lib, reds, ep, role, index, blocks[bi], applied);
      if b.Err? {
        return Err(b.error);
      }
      PrependedStep(before[..bi], anyChange, b.value, Blocks(lib, reds, ep, role, index, j, bi + 1));
      MarkedMerge(flags, reds, role, index, BlockLooks(ep, j.items[bi]), BlocksLooks(ep, j, bi + 1));
      if b.value.changed {
        blocks := blocks[bi := b.value.value];
        anyChange := true;
      }
      ReplacedOne(before, j.items, bi, b.value.value);
      bi := bi + 1;
    }
    assert blocks[..bi] + [] == blocks;
    assert BlocksLooks(ep, j, bi) == [];
    MarkedNothing(applied[..], reds);
    return Ok(if anyChange then lib.Encoded(Arr("", blocks)) else j);
  }

  ghost function PrependedAll(front: seq<Json>, changed: bool, rest: Outcome<seq<Json>>): Outcome<seq<Json>> {
    match rest
    case Err(e) => Err(e)
    case Ok(r) => Ok(Edit(front + r.value, changed || r.changed))
  }

  lemma {:induction false} JoinedStep(front: seq<Json>, j: Json, rest: Result<seq<Json>, RedactError>)
    ensures Joined(front, Joined([j], rest)) == Joined(front + [j], rest)
    ensures Joined([], rest) == rest
  {
    if rest.Ok? {
      assert front + ([j] + rest.value) == front + [j] + rest.value;
      assert [] + rest.value == rest.value;
    }
  }

  /** One turn of a loop that replaces the elements of a slice in place. */
  lemma {:induction false} ReplacedOne(before: seq<Json>, items: seq<Json>, i: nat, j: Json)
    requires i < |before| == |items| && before[i..] == items[i..]
    ensures before[i] == items[i]
    ensures before[i := j][..i + 1] == before[..i] + [j] && before[i := j][i + 1..] == items[i + 1..]
    ensures before[i := items[i]] == before
  {
    assert before[i] == before[i..][0];
    assert before[i..][1..] == items[i..][1..];
  }

  lemma {:induction false} PrependedNothing(rest: Outcome<seq<Json>>)
    ensures PrependedAll([], false, rest) == rest
  {
    if rest.Ok? {
      assert [] + rest.value.value == rest.value.value;
    }
  }

  lemma {:induction false} PrependedStep(front: seq<Json>, changed: bool, b: Edit<Json>, rest: Outcome<seq<Json>>)
    ensures PrependedAll(front, changed, Prepended(b, rest))
            == PrependedAll(front + [b.value], changed || b.changed, rest)
  {
    if rest.Ok? {
      assert front + ([b.value] + rest.value.value) == front + [b.value] + rest.value.value;
    }
  }

  lemma {:induction false} MarkedMerge(flags: seq<bool>, reds: seq<Redaction>, role: string, index: int, a: seq<Look>,
                                       b: seq<Look>)
    requires |flags| == |reds|
    ensures Marked(Marked(flags, reds, At(role, index, a)), reds, At(role, index, b))
            == Marked(flags, reds, At(role, index, a + b))
  {
    MarkedTwice(flags, reds, At(role, index, a), At(role, index, b));
    AtAppend(role, index, a, b);
  }

  /** The switch on a block's type. */
  method RedactBlock(lib: Library, reds: seq<Redaction>, ep: Endpoint, role: string, index: int, b: Json,
                     applied: array<bool>)
    returns (r: Outcome<Json>)
    requires applied.Length == |reds|
    modifies applied
    ensures r == Block(lib, reds, ep, role, index, b)
    ensures r.Ok? ==> applied[..] == Marked(old(applied[..]), reds, At(role, index, BlockLooks(ep, b)))
    decreases b, 2
  {
    MarkedNothing(applied[..], reds);
    if !b.Obj? {
      return Ok(Edit(b, false));
    }
    match KindOf(ep, b.fields) {
      case Text =>
        var masked := MaybeRedact(lib, reds, role, index, StringIn(b.fields, "text"), applied);
        match masked {
          case Err(e) => return Err(e);
          case Ok(t) =>
            return Ok(Edit(if t.changed then lib.Encoded(Obj("", b.fields["text" := lib.Encoded(Str("", t.value))]))
                           else b, t.changed));
        }
      case ToolUse =>
        if "input" !in b.fields || |b.fields["input"].raw| == 0 {
          return Ok(Edit(b, false));
        }
        var input := RedactToolUseInput(lib, reds, role, index, b.fields["input"], applied);
        return WithField(lib, b, "input", input);
      case ToolResult =>
        if "content" !in b.fields {
          return Ok(Edit(b, false));
        }
        var content := RedactContent(lib, reds, ep, role, index, b.fields["content"], applied);
        return WithField(lib, b, "content", IfDifferent(b.fields["content"], content));
      case OtherBlock =>
        return Ok(Edit(b, false));
    }
  }

  method RedactToolUseInput(lib: Library, reds: seq<Redaction>, role: string, index: int, input: Json,
                            applied: array<bool>)
    returns (r: Outcome<Json>)
    requires applied.Length == |reds|
    modifies applied
    ensures r == MaskRaw(lib, reds, role, index, input)
    ensures r.Ok? ==> applied[..] == Marked(old(applied[..]), reds, At(role, index, [Look(input.raw, true)]))
  {
    PlacesOfOne(role, index, Look(input.raw, false));
    PlacesOfOne(role, index, Look(input.raw, true));
    var masked := MaybeRedact(lib, reds, role, index, input.raw, applied);
    match masked {
      case Err(e) => return Err(e);
      case Ok(t) =>
        if !t.changed {
          return Ok(Edit(input, false));
        }
        var reparsed := lib.Reparsed(t.value);
        return if reparsed.None? then Err(NotJsonAfterMasking) else Ok(Edit(reparsed.value, true));
    }
  }

  method RedactToolArguments(lib: Library, reds: seq<Redaction>, role: string, index: int, args: Json,
                             applied: array<bool>)
    returns (r: Outcome<Json>)
    requires applied.Length == |reds|
    modifies applied
    ensures r == ToolArguments(lib, reds, role, index, args)
    ensures r.Ok? ==> applied[..] == Marked(old(applied[..]), reds, At(role, index, ArgumentsLooks(args)))
  {
    if |args.raw| == 0 {
      MarkedNothing(applied[..], reds);
      return Ok(Edit(args, false));
    }
    var s := args.AsString();
    var inner := if s.Some? then s.value else args.raw;
    PlacesOfOne(role, index, Look(inner, false));
    PlacesOfOne(role, index, Look(inner, true));
    var masked := MaybeRedact(lib, reds, role, index, inner, applied);
    match masked {
      case Err(e) => return Err(e);
      case Ok(t) =>
        if !t.changed {
          return Ok(Edit(args, false));
        }
        var reparsed := lib.Reparsed(t.value);
        if reparsed.None? {
          return Err(NotJsonAfterMasking);
        }
        return Ok(Edit(if s.Some? then lib.Encoded(Str("", t.value)) else reparsed.value, true));
    }
  }

  method RedactToolCalls(lib: Library, reds: seq<Redaction>, role: string, index: int, tc: Json, applied: array<bool>)
    returns (r: Outcome<Json>)
    requires applied.Length == |reds|
    modifies applied
    ensures r == ToolCallArray(lib, reds, role, index, tc)
    ensures r.Ok? ==> applied[..] == Marked(old(applied[..]), reds,
                                            At(role, index, ToolCallArrayLooks(tc)))
  {
    MarkedNothing(applied[..], reds);
    if !tc.Arr? {
      return Ok(Edit(tc, false));
    }
    var calls := tc.items;
    var anyChange := false;
    var ci := 0;
    PrependedNothing(ToolCalls(lib, reds, role, index, tc.items, 0));
    while ci < |calls|
      invariant 0 <= ci <= |calls| == |tc.items|
      invariant calls[ci..] == tc.items[ci..]
      invariant ToolCalls(lib, reds, role, index, tc.items, 0) ==
                PrependedAll(calls[..ci], anyChange, ToolCalls(lib, reds, role, index, tc.items, ci))
      invariant Marked(applied[..], reds, At(role, index, ToolCallsLooks(tc.items, ci))) ==
                Marked(old(applied[..]), reds, At(role, index, ToolCallsLooks(tc.items, 0)))
    {
      ReplacedOne(calls, tc.items, ci, tc.items[ci]);
      ghost var before, flags := calls, applied[..];
      var c := RedactToolCall(lib, reds, role, index, calls[ci], applied);
      if c.Err? {
        return Err(c.error);
      }
      PrependedStep(before[..ci], anyChange, c.value, ToolCalls(lib, reds, role, index, tc.items, ci + 1));
      MarkedMerge(flags, reds, role, index, ToolCallLooks(tc.items[ci]), ToolCallsLooks(tc.items, ci + 1));
      if c.value.changed {
        calls := calls[ci := c.value.value];
        anyChange := true;
      }
      ReplacedOne(before, tc.items, ci, c.value.value);
      ci := ci + 1;
    }
    assert calls[..ci] + [] == calls;
    assert ToolCallsLooks(tc.items, ci) == [];
    MarkedNothing(applied[..], reds);
    return Ok(Edit(if anyChange then lib.Encoded(Arr("", calls)) else tc, anyChange));
  }

  /** The body of the loop over tool calls. */
  method RedactToolCall(lib: Library, reds: seq<Redaction>, role: string, index: int, call: Json, applied: array<bool>)
    returns (r: Outcome<Json>)
    requires applied.Length == |reds|
    modifies applied
    ensures r == ToolCall(lib, reds, role, index, call)
    ensures r.Ok? ==> applied[..] == Marked(old(applied[..]), reds, At(role, index, ToolCallLooks(call)))
  {
    if !call.Obj? || "arguments" !in FunctionOf(call.fields) {
      MarkedNothing(applied[..], reds);
      return Ok(Edit(call, false));
    }
    var f := call.fields["function"];
    var args := RedactToolArguments(lib, reds, role, index, f.fields["arguments"], applied);
    match args {
      case Err(e) => return Err(e);
      case Ok(a) =>
        if !a.changed {
          return Ok(Edit(call, false));
        }
        var newF := lib.Encoded(Obj("", f.fields["arguments" := a.value]));
        return Ok(Edit(lib.Encoded(Obj("", call.fields["function" := newF])), true));
    }
  }

  method RedactItems(lib: Library, reds: seq<Redaction>, ep: Endpoint, j: Json, applied: array<bool>)
    returns (r: Result<Json, RedactError>)
    requires applied.Length == |reds|
    modifies applied
    ensures r == ItemArray(lib, reds, ep, j)
    ensures r.Ok? ==> applied[..] == Marked(old(applied[..]), reds, if j.Arr? then ItemsVisits(ep, j.items, 0) else [])
  {
    MarkedNothing(applied[..], reds);
    if j.Null? {
      return Ok(j);
    }
    if !j.Arr? {
      return Err(BadStructure);
    }
    r := RedactItemSlice(lib, reds, ep, j, applied);
  }

  /** The loop over messages or input items; `RedactItem` is its body. */
  method RedactItemSlice(lib: Library, reds: seq<Redaction>, ep: Endpoint, j: Json, applied: array<bool>)
    returns (r: Result<Json, RedactError>)
    requires applied.Length == |reds| && j.Arr?
    modifies applied
    ensures r == match Items(lib, reds, ep, j.items, 0)
                 case Err(e) => Err(e)
                 case Ok(redacted) => Ok(lib.Encoded(Arr("", redacted)))
    ensures r.Ok? ==> applied[..] == Marked(old(applied[..]), reds, ItemsVisits(ep, j.items, 0))
  {
    var items := j.items;
    var i := 0;
    JoinedStep([], j, Items(lib, reds, ep, j.items, 0));
    while i < |items|
      invariant 0 <= i <= |items| == |j.items|
      invariant items[i..] == j.items[i..]
      invariant Items(lib, reds, ep, j.items, 0) == Joined(items[..i], Items(lib, reds, ep, j.items, i))
      invariant Marked(applied[..], reds, ItemsVisits(ep, j.items, i)) ==
                Marked(old(applied[..]), reds, ItemsVisits(ep, j.items, 0))
    {
      ReplacedOne(items, j.items, i, j.items[i]);
      ghost var before, flags := items, applied[..];
      var item := RedactItem(lib, reds, ep, i, items[i], applied);
      if item.Err? {
        return Err(item.error);
      }
      MarkedTwice(flags, reds, ItemVisits(ep, i, j.items[i]), ItemsVisits(ep, j.items, i + 1));
      JoinedStep(items[..i], item.value, Items(lib, reds, ep, j.items, i + 1));
      items := items[i := item.value];
      ReplacedOne(before, j.items, i, item.value);
      i := i + 1;
    }
    assert items[..i] + [] == items;
    assert ItemsVisits(ep, j.items, i) == [];
    MarkedNothing(applied[..], reds);
    return Ok(lib.Encoded(Arr("", items)));
  }

  method RedactItem(lib: Library, reds: seq<Redaction>, ep: Endpoint, i: nat, item: Json, applied: array<bool>)
    returns (r: Result<Json, RedactError>)
    requires applied.Length == |reds|
    modifies applied
    ensures r == Item(lib, reds, ep, i, item)
    ensures r.Ok? ==> applied[..] == Marked(old(applied[..]), reds, ItemVisits(ep, i, item))
  {
    MarkedNothing(applied[..], reds);
    var fields := item.AsObject();
    if fields.None? {
      return Err(BadStructure);
    }
    var m := fields.value;
    match ep {
      case Anthropic =>
        r := RedactField(lib, reds, ep, StringIn(m, "role"), i, item, "content", applied);
      case Chat =>
        r := RedactChatMessage(lib, reds, i, item, applied);
      case Responses =>
        if "role" in m {
          if StringIn(m, "role") == "" {
            return Ok(item);
          }
          r := RedactField(lib, reds, ep, StringIn(m, "role"), i, item, "content", applied);
        } else if StringIn(m, "type") == "function_call_output" {
          r := RedactField(lib, reds, ep, "tool", i, item, "output", applied);
        } else if StringIn(m, "type") == "function_call" && "arguments" in m {
          var args := RedactToolArguments(lib, reds, "assistant", i, m["arguments"], applied);
          return ValueOf(WithField(lib, item, "arguments", args));
        } else {
          return Ok(item);
        }
    }
  }

  method RedactField(lib: Library, reds: seq<Redaction>, ep: Endpoint, role: string, i: int, item: Json, key: string,
                     applied: array<bool>)
    returns (r: Result<Json, RedactError>)
    requires applied.Length == |reds|
    modifies applied
    ensures r == Rewritten(lib, reds, ep, role, i, item, key)
    ensures r.Ok? ==> applied[..] == Marked(old(applied[..]), reds,
                                            At(role, i, if item.Obj? then FieldLooks(ep, item.fields, key) else []))
  {
    if !item.Obj? || key !in item.fields {
      MarkedNothing(applied[..], reds);
      return Ok(item);
    }
    var c := RedactContent(lib, reds, ep, role, i, item.fields[key], applied);
    match c {
      case Err(e) => return Err(e);
      case Ok(content) => return Ok(lib.Encoded(Obj("", item.fields[key := content])));
    }
  }

  method RedactChatMessage(lib: Library, reds: seq<Redaction>, i: nat, item: Json, applied: array<bool>)
    returns (r: Result<Json, RedactError>)
    requires applied.Length == |reds|
    modifies applied
    ensures r == ChatMessage(lib, reds, i, item)
    ensures r.Ok? ==> applied[..] == Marked(old(applied[..]), reds, ItemVisits(Chat, i, item))
  {
    MarkedNothing(applied[..], reds);
    if !item.Obj? {
      return Ok(item);
    }
    var msg, role := item.fields, StringIn(item.fields, "role");
    ghost var flags := applied[..];
    var changed := false;
    if "content" in item.fields {
      var c := RedactContent(lib, reds, Chat, role, i, item.fields["content"], applied);
      if c.Err? {
        return Err(c.error);
      }
      if c.value != item.fields["content"] {
        msg := msg["content" := c.value];
        changed := true;
      }
    }
    assert applied[..] == Marked(flags, reds, At(role, i, FieldLooks(Chat, item.fields, "content")));
    ghost var calls := if "tool_calls" in item.fields then ToolCallArrayLooks(item.fields["tool_calls"]) else [];
    MarkedTwice(flags, reds, At(role, i, FieldLooks(Chat, item.fields, "content")), At(role, i, calls));
    if "tool_calls" in item.fields {
      var tc := RedactToolCalls(lib, reds, role, i, item.fields["tool_calls"], applied);
      if tc.Err? {
        return Err(tc.error);
      }
      if tc.value.changed {
        msg := msg["tool_calls" := tc.value.value];
        changed := true;
      }
    } else {
      MarkedNothing(applied[..], reds);
    }
    return Ok(if changed then lib.Encoded(Obj("", msg)) else item);
  }

  method RedactTop(lib: Library, reds: seq<Redaction>, ep: Endpoint, m: map<string, Json>, applied: array<bool>)
    returns (r: Result<map<string, Json>, RedactError>)
    requires applied.Length == |reds|
    modifies applied
    ensures r == Top(lib, reds, ep, m)
    ensures r.Ok? ==> applied[..] == Marked(old(applied[..]), reds, TopVisits(ep, m))
  {
    var top := m;
    ghost var flags := applied[..];
    ghost var head := HeadVisits(ep, m);
    MarkedNothing(flags, reds);
    if ep != Chat && HeadKey(ep) in m {
      var c := RedactContent(lib, reds, ep, "system", -1, m[HeadKey(ep)], applied);
      if c.Err? {
        return Err(c.error);
      }
      top := top[HeadKey(ep) := c.value];
    }
    assert applied[..] == Marked(flags, reds, head);
    if BodyKey(ep) !in m {
      return Ok(top);
    }
    MarkedTwice(flags, reds, head, MainVisits(ep, m[BodyKey(ep)]));
    var main;
    if ep == Responses && m[BodyKey(ep)].AsString().Some? {
      main := RedactContent(lib, reds, ep, "user", 0, m[BodyKey(ep)], applied);
    } else {
      main := RedactItems(lib, reds, ep, m[BodyKey(ep)], applied);
    }
    match main {
      case Err(e) => return Err(e);
      case Ok(j) => return Ok(top[BodyKey(ep) := j]);
    }
  }

  method RedactRequest(lib: Library, host: string, path: string, body: Option<Json>, reds: seq<Redaction>)
    returns (r: Result<Option<Json>, RedactError>)
    ensures r == RedactBody(lib, host, path, body, reds)
  {
    if |reds| == 0 {
      return Ok(body);
    }
    var ep := EndpointOf(host, path);
    if ep.None? {
      return Err(UnsupportedEndpoint);
    }
    if body.None? || body.value.AsObject().None? {
      return Err(BadStructure);
    }
    var m := body.value.AsObject().value;
    var applied := new bool[|reds|](_ => false);
    ghost var flags := applied[..];
    var top := RedactTop(lib, reds, ep.value, m, applied);
    if top.Err? {
      return Err(top.error);
    }
    ghost var visits := TopVisits(ep.value, m);
    var k := 0;
    while k < |reds|
      invariant 0 <= k <= |reds|
      invariant applied[..] == Marked(flags, reds, visits)
      invariant forall j :: 0 <= j < k ==> reds[j].Key() in Places(visits)
    {
      assert applied[..][k] == (reds[k].Key() in Places(visits));
      if !applied[k] {
        return Err(NotFound);
      }
      k := k + 1;
    }
    return Ok(Some(lib.Compacted(lib.Encoded(Obj("", top.value)))));
  }
}
