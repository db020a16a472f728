/** The prose of a vendor request: internal/parser/{parser,anthropic,openai,openai_responses}.go.

    Each loop of the source is a method; the function it is proved against says
    what it collects. A `Piece` also records whether its text was taken
    verbatim from the wire (a tool input) or is the value of a JSON string. */
module Parser {
  import opened Basics
  import opened Wire

  datatype TextSegment = TextSegment(role: string, index: int, content: string)

  datatype Parsed =
    | NotRecognised
    | Malformed
    | Request(vendor: string, endpoint: string, texts: seq<TextSegment>)

  datatype Endpoint = Anthropic | Chat | Responses

  datatype Piece = Piece(text: string, verbatim: bool)

  datatype Prose = Prose(segment: TextSegment, verbatim: bool)

  datatype BlockKind = Text | ToolUse | ToolResult | OtherBlock

  /** The switch on the type of a content block in flattenAnthropicContent. */
  function AnthropicKind(fields: map<string, Json>): BlockKind {
    var kind := StringIn(fields, "type");
    if kind == "text" then Text
    else if kind == "tool_result" then ToolResult
    else if kind == "tool_use" then ToolUse
    else OtherBlock
  }

  /** The switch on the type of a content part in flattenOpenAIContent. */
  predicate IsTextPart(fields: map<string, Json>) {
    var kind := StringIn(fields, "type");
    kind == "text" || kind == "input_text" || kind == "output_text"
  }

  function Texts(pieces: seq<Piece>): (r: seq<string>)
    ensures |r| == |pieces|
  {
    seq(|pieces|, i requires 0 <= i < |pieces| => pieces[i].text)
  }

  function SegmentsOf(prose: seq<Prose>): (r: seq<TextSegment>)
    ensures |r| == |prose|
  {
    seq(|prose|, i requires 0 <= i < |prose| => prose[i].segment)
  }

  /** The pieces of one message that are not empty, located. */
  function Located(role: string, index: int, pieces: seq<Piece>): seq<Prose> {
    if pieces == [] then []
    else
      (if pieces[0].text == "" then []
       else [Prose(TextSegment(role, index, pieces[0].text), pieces[0].verbatim)])
      + Located(role, index, pieces[1..])
  }

  predicate AllObjects(items: seq<Json>) {
    forall i :: 0 <= i < |items| ==> items[i].AsObject().Some?
  }

  // ----- content of a message

  function AnthropicContent(j: Json): seq<Piece>
    decreases j
  {
    match j
    case Str(_, v) => [Piece(v, false)]
    case Arr(_, items) => if AllObjects(items) then AnthropicBlocks(j, 0) else []
    case _ => []
  }

  function AnthropicBlocks(j: Json, i: nat): seq<Piece>
    requires j.Arr? && i <= |j.items|
    decreases j, |j.items| - i
  {
    if i == |j.items| then [] else AnthropicBlock(j.items[i]) + AnthropicBlocks(j, i + 1)
  }

  function AnthropicBlock(b: Json): seq<Piece>
    decreases b
  {
    if !b.Obj? then []
    else match AnthropicKind(b.fields)
      case Text => TextPiece(b.fields)
      case ToolResult => if "content" in b.fields then AnthropicContent(b.fields["content"]) else []
      case ToolUse =>
        if "input" in b.fields && b.fields["input"].raw != "" then [Piece(b.fields["input"].raw, true)] else []
      case OtherBlock => []
  }

  function TextPiece(fields: map<string, Json>): seq<Piece> {
    if StringIn(fields, "text") != "" then [Piece(StringIn(fields, "text"), false)] else []
  }

  function OpenAIContent(j: Json): seq<Piece> {
    match j
    case Str(_, v) => [Piece(v, false)]
    case Arr(_, items) => if AllObjects(items) then OpenAIParts(items, 0) else []
    case _ => []
  }

  function OpenAIParts(items: seq<Json>, i: nat): seq<Piece>
    requires i <= |items|
    decreases |items| - i
  {
    if i == |items| then [] else OpenAIPart(items[i]) + OpenAIParts(items, i + 1)
  }

  function OpenAIPart(p: Json): seq<Piece> {
    if p.Obj? && IsTextPart(p.fields) then TextPiece(p.fields) else []
  }

  /** Tool-call arguments: the value of a string, else the raw text. */
  function Arguments(j: Json): Piece {
    match j.AsString()
    case Some(s) => Piece(s, false)
    case None => Piece(j.raw, true)
  }

  function ArgumentsIn(fields: map<string, Json>): seq<Piece> {
    if "arguments" in fields then [Arguments(fields["arguments"])] else []
  }

  function FunctionOf(call: map<string, Json>): map<string, Json> {
    if "function" in call && call["function"].Obj? then call["function"].fields else map[]
  }

  function ToolCallPieces(call: Json): seq<Piece> {
    if call.Obj? && StringIn(call.fields, "type") == "function" then ArgumentsIn(FunctionOf(call.fields)) else []
  }

  function ToolCallsPieces(calls: seq<Json>, i: nat): seq<Piece>
    requires i <= |calls|
    decreases |calls| - i
  {
    if i == |calls| then [] else ToolCallPieces(calls[i]) + ToolCallsPieces(calls, i + 1)
  }

  // ----- one message or input item, and all of them

  function ContentOf(ep: Endpoint, j: Json): seq<Piece> {
    if ep == Anthropic then AnthropicContent(j) else OpenAIContent(j)
  }

  function ContentIn(ep: Endpoint, fields: map<string, Json>, key: string): seq<Piece> {
    if key in fields then ContentOf(ep, fields[key]) else []
  }

  function ItemProse(ep: Endpoint, i: nat, item: Json): seq<Prose> {
    match item.AsObject()
    case None => []
    case Some(m) =>
      match ep
      case Anthropic => Located(StringIn(m, "role"), i, ContentIn(ep, m, "content"))
      case Chat =>
        Located(StringIn(m, "role"), i, ContentIn(ep, m, "content"))
        + Located(StringIn(m, "role"), i, CallsIn(m))
      case Responses => ResponseItemProse(i, m)
  }

  function CallsIn(m: map<string, Json>): seq<Piece> {
    if "tool_calls" in m && m["tool_calls"].Arr? then ToolCallsPieces(m["tool_calls"].items, 0) else []
  }

  function ResponseItemProse(i: nat, m: map<string, Json>): seq<Prose> {
    if "role" in m then
      if StringIn(m, "role") == "" then [] else Located(StringIn(m, "role"), i, ContentIn(Responses, m, "content"))
    else if StringIn(m, "type") == "function_call_output" then
      Located("tool", i, [Piece(StringIn(m, "output"), false)])
    else if StringIn(m, "type") == "function_call" then Located("assistant", i, ArgumentsIn(m))
    else []
  }

  function ItemsProse(ep: Endpoint, items: seq<Json>, i: nat): seq<Prose>
    requires i <= |items|
    decreases |items| - i
  {
    if i == |items| then [] else ItemProse(ep, i, items[i]) + ItemsProse(ep, items, i + 1)
  }

  // ----- decoding into the source's structs

  /** A struct field of type string accepts a string, null, or nothing. */
  predicate StringField(fields: map<string, Json>, key: string) {
    key in fields ==> fields[key].AsString().Some?
  }

  predicate MessageDecodes(ep: Endpoint, item: Json) {
    match item.AsObject()
    case None => false
    case Some(m) =>
      && StringField(m, "role")
      && (ep == Chat && "tool_calls" in m ==>
            match m["tool_calls"].AsArray()
            case None => false
            case Some(calls) => forall c :: 0 <= c < |calls| ==> ToolCallDecodes(calls[c]))
  }

  predicate ToolCallDecodes(call: Json) {
    match call.AsObject()
    case None => false
    case Some(m) =>
      && StringField(m, "id") && StringField(m, "type")
      && ("function" in m ==>
            match m["function"].AsObject()
            case None => false
            case Some(f) => StringField(f, "name"))
  }

  predicate Decodes(ep: Endpoint, body: Json) {
    match body.AsObject()
    case None => false
    case Some(m) =>
      if ep == Responses then StringField(m, "instructions")
      else
        && "messages" in m && m["messages"].Arr?
        && forall i :: 0 <= i < |m["messages"].items| ==> MessageDecodes(ep, m["messages"].items[i])
  }

  function InputProse(m: map<string, Json>): seq<Prose> {
    if "input" !in m then []
    else match m["input"].AsString()
      case Some(s) => Located("user", 0, [Piece(s, false)])
      case None =>
        if m["input"].Arr? && AllObjects(m["input"].items) then ItemsProse(Responses, m["input"].items, 0) else []
  }

  /** The messages of a body that decodes for the endpoint. */
  function MessagesIn(m: map<string, Json>): seq<Json> {
    if "messages" in m && m["messages"].Arr? then m["messages"].items else []
  }

  function ProseIn(ep: Endpoint, m: map<string, Json>): seq<Prose> {
    match ep
    case Anthropic => Located("system", -1, ContentIn(ep, m, "system")) + ItemsProse(ep, MessagesIn(m), 0)
    case Chat => ItemsProse(ep, MessagesIn(m), 0)
    case Responses => Located("system", -1, [Piece(StringIn(m, "instructions"), false)]) + InputProse(m)
  }

  /** The prose of a whole body, None when the source reports an error. */
  function BodyProse(ep: Endpoint, body: Json): Option<seq<Prose>> {
    if Decodes(ep, body) then Some(ProseIn(ep, body.AsObject().value)) else None
  }

  function EndpointOf(host: string, path: string): Option<Endpoint> {
    if host == "api.openai.com" && path == "/v1/chat/completions" then Some(Chat)
    else if host == "api.openai.com" && path == "/v1/responses" then Some(Responses)
    else if host == "api.anthropic.com" && path == "/v1/messages" then Some(Anthropic)
    else None
  }

  /** ParseRequest as a function; a body of None is not JSON at all. */
  function Parse(host: string, verb: string, path: string, body: Option<Json>): Parsed {
    if verb != "POST" then NotRecognised
    else match EndpointOf(host, path)
      case None => NotRecognised
      case Some(ep) =>
        if body.None? then Malformed
        else match BodyProse(ep, body.value)
          case None => Malformed
          case Some(prose) => Request(VendorOf(ep), NameOf(ep), SegmentsOf(prose))
  }

  function VendorOf(ep: Endpoint): string {
    if ep == Anthropic then "anthropic" else "openai"
  }

  function NameOf(ep: Endpoint): string {
    match ep case Anthropic => "messages" case Chat => "chat.completions" case Responses => "responses"
  }

  // ----- the source's loops

  method FlattenAnthropicContent(j: Json) returns (out: seq<string>)
    ensures out == Texts(AnthropicContent(j))
    decreases j
  {
    if j.Null? {
      return [];
    }
    if j.Str? {
      return [j.value];
    }
    if !j.Arr? || !AllObjects(j.items) {
      return [];
    }
    out := [];
    var i := 0;
    while i < |j.items|
      invariant 0 <= i <= |j.items|
      invariant out + Texts(AnthropicBlocks(j, i)) == Texts(AnthropicBlocks(j, 0))
    {
      var block := FlattenAnthropicBlock(j.items[i]);
      TextsStep(out, AnthropicBlock(j.items[i]), AnthropicBlocks(j, i + 1));
      out := out + block;
      i := i + 1;
    }
  }

  /** The switch on a block's type. */
  method FlattenAnthropicBlock(b: Json) returns (out: seq<string>)
    ensures out == Texts(AnthropicBlock(b))
    decreases b
  {
    if !b.Obj? {
      return [];
    }
    match AnthropicKind(b.fields) {
      case Text =>
        var t := StringIn(b.fields, "text");
        return if t != "" then [t] else [];
      case ToolResult =>
        if "content" in b.fields {
          out := FlattenAnthropicContent(b.fields["content"]);
          return;
        }
        return [];
      case ToolUse =>
        return if "input" in b.fields && |b.fields["input"].raw| > 0 then [b.fields["input"].raw] else [];
      case OtherBlock =>
        return [];
    }
  }

  lemma {:induction false} TextsStep(out: seq<string>, a: seq<Piece>, b: seq<Piece>)
    ensures out + Texts(a) + Texts(b) == out + Texts(a + b)
  {
    assert Texts(a + b) == Texts(a) + Texts(b);
  }

  method FlattenOpenAIContent(j: Json) returns (out: seq<string>)
    ensures out == Texts(OpenAIContent(j))
  {
    if j.Null? {
      return [];
    }
    if j.Str? {
      return [j.value];
    }
    if !j.Arr? || !AllObjects(j.items) {
      return [];
    }
    out := [];
    var i := 0;
    while i < |j.items|
      invariant 0 <= i <= |j.items|
      invariant out + Texts(OpenAIParts(j.items, i)) == Texts(OpenAIParts(j.items, 0))
    {
      var part := FlattenOpenAIPart(j.items[i]);
      TextsStep(out, OpenAIPart(j.items[i]), OpenAIParts(j.items, i + 1));
      out := out + part;
      i := i + 1;
    }
  }

  method FlattenOpenAIPart(p: Json) returns (out: seq<string>)
    ensures out == Texts(OpenAIPart(p))
  {
    if p.Obj? && IsTextPart(p.fields) {
      var s := StringIn(p.fields, "text");
      return if s != "" then [s] else [];
    }
    return [];
  }

  /** The inner loops of the parsers: the segments that are not empty are appended. */
  method AppendSegments(texts: seq<TextSegment>, role: string, index: int, pieces: seq<string>,
                        ghost located: seq<Piece>)
    returns (out: seq<TextSegment>)
    requires pieces == Texts(located)
    ensures out == texts + SegmentsOf(Located(role, index, located))
  {
    out := texts;
    var k := 0;
    while k < |pieces|
      invariant 0 <= k <= |pieces|
      invariant out + SegmentsOf(Located(role, index, located[k..]))
                == texts + SegmentsOf(Located(role, index, located))
    {
      assert located[k..][1..] == located[k + 1..];
      if pieces[k] != "" {
        out := out + [TextSegment(role, index, pieces[k])];
      }
      k := k + 1;
    }
  }

  lemma {:induction false} SegmentsStep(out: seq<TextSegment>, a: seq<Prose>, b: seq<Prose>)
    ensures out + SegmentsOf(a) + SegmentsOf(b) == out + SegmentsOf(a + b)
  {
    assert SegmentsOf(a + b) == SegmentsOf(a) + SegmentsOf(b);
  }

  method AnthropicTexts(m: map<string, Json>) returns (texts: seq<TextSegment>)
    ensures texts == SegmentsOf(ProseIn(Anthropic, m))
  {
    texts := [];
    if "system" in m {
      var system := FlattenAnthropicContent(m["system"]);
      texts := AppendSegments(texts, "system", -1, system, AnthropicContent(m["system"]));
    }
    ghost var head := Located("system", -1, ContentIn(Anthropic, m, "system"));
    assert texts == SegmentsOf(head);
    var messages := MessagesIn(m);
    SegmentsStep([], head, ItemsProse(Anthropic, messages, 0));
    var i := 0;
    while i < |messages|
      invariant 0 <= i <= |messages|
      invariant texts + SegmentsOf(ItemsProse(Anthropic, messages, i)) == SegmentsOf(ProseIn(Anthropic, m))
    {
      SegmentsStep(texts, ItemProse(Anthropic, i, messages[i]), ItemsProse(Anthropic, messages, i + 1));
      texts := AppendAnthropicMessage(texts, i, messages[i]);
      i := i + 1;
    }
  }

  /** The body of the loop over messages. */
  method AppendAnthropicMessage(texts: seq<TextSegment>, i: nat, item: Json) returns (out: seq<TextSegment>)
    ensures out == texts + SegmentsOf(ItemProse(Anthropic, i, item))
  {
    out := texts;
    if item.Obj? && "content" in item.fields {
      var segs := FlattenAnthropicContent(item.fields["content"]);
      out := AppendSegments(texts, StringIn(item.fields, "role"), i, segs, AnthropicContent(item.fields["content"]));
    }
  }

  method ChatTexts(m: map<string, Json>) returns (texts: seq<TextSegment>)
    ensures texts == SegmentsOf(ProseIn(Chat, m))
  {
    var messages := MessagesIn(m);
    texts := [];
    var i := 0;
    while i < |messages|
      invariant 0 <= i <= |messages|
      invariant texts + SegmentsOf(ItemsProse(Chat, messages, i)) == SegmentsOf(ProseIn(Chat, m))
    {
      SegmentsStep(texts, ItemProse(Chat, i, messages[i]), ItemsProse(Chat, messages, i + 1));
      texts := AppendChatMessage(texts, i, messages[i]);
      i := i + 1;
    }
  }

  /** The body of the loop over chat messages. */
  method AppendChatMessage(texts: seq<TextSegment>, i: nat, item: Json) returns (out: seq<TextSegment>)
    ensures out == texts + SegmentsOf(ItemProse(Chat, i, item))
  {
    if !item.Obj? {
      return texts;
    }
    var msg := item.fields;
    var role := StringIn(msg, "role");
    ghost var content, calls := Located(role, i, ContentIn(Chat, msg, "content")), Located(role, i, CallsIn(msg));
    out := texts;
    if "content" in msg {
      var segs := FlattenOpenAIContent(msg["content"]);
      out := AppendSegments(out, role, i, segs, OpenAIContent(msg["content"]));
    }
    var args := CollectArguments(msg);
    out := AppendSegments(out, role, i, args, CallsIn(msg));
    SegmentsStep(texts, content, calls);
  }

  /** The loop over a message's tool calls. */
  method CollectArguments(msg: map<string, Json>) returns (out: seq<string>)
    ensures out == Texts(CallsIn(msg))
  {
    out := [];
    if "tool_calls" in msg && msg["tool_calls"].Arr? {
      var calls := msg["tool_calls"].items;
      var c := 0;
      while c < |calls|
        invariant 0 <= c <= |calls|
        invariant out + Texts(ToolCallsPieces(calls, c)) == Texts(ToolCallsPieces(calls, 0))
      {
        var args := CallArguments(calls[c]);
        TextsStep(out, ToolCallPieces(calls[c]), ToolCallsPieces(calls, c + 1));
        out := out + args;
        c := c + 1;
      }
    }
  }

  method CallArguments(call: Json) returns (out: seq<string>)
    ensures out == Texts(ToolCallPieces(call))
  {
    if call.Obj? && StringIn(call.fields, "type") == "function" {
      var f := FunctionOf(call.fields);
      if "arguments" in f {
        return [Arguments(f["arguments"]).text];
      }
    }
    return [];
  }

  method ResponsesTexts(m: map<string, Json>) returns (texts: seq<TextSegment>)
    ensures texts == SegmentsOf(ProseIn(Responses, m))
  {
    var instructions := StringIn(m, "instructions");
    texts := AppendSegments([], "system", -1, [instructions], [Piece(instructions, false)]);
    ghost var head := Located("system", -1, [Piece(instructions, false)]);
    SegmentsStep([], head, InputProse(m));
    if "input" in m {
      var input := m["input"];
      var asString := input.AsString();
      if asString.Some? {
        texts := AppendSegments(texts, "user", 0, [asString.value], [Piece(asString.value, false)]);
      } else if input.Arr? && AllObjects(input.items) {
        texts := InputTexts(texts, input.items);
      }
    }
  }

  /** The loop over input items. */
  method InputTexts(texts: seq<TextSegment>, items: seq<Json>) returns (out: seq<TextSegment>)
    ensures out == texts + SegmentsOf(ItemsProse(Responses, items, 0))
  {
    out := texts;
    var i := 0;
    while i < |items|
      invariant 0 <= i <= |items|
      invariant out + SegmentsOf(ItemsProse(Responses, items, i)) == texts + SegmentsOf(ItemsProse(Responses, items, 0))
    {
      SegmentsStep(out, ItemProse(Responses, i, items[i]), ItemsProse(Responses, items, i + 1));
      out := AppendItem(out, i, items[i]);
      i := i + 1;
    }
  }

  /** The body of the loop over input items. */
  method AppendItem(texts: seq<TextSegment>, i: nat, item: Json) returns (out: seq<TextSegment>)
    ensures out == texts + SegmentsOf(ItemProse(Responses, i, item))
  {
    out := texts;
    if !item.Obj? {
      return;
    }
    if "role" in item.fields {
      var role := StringIn(item.fields, "role");
      if role != "" && "content" in item.fields {
        var segs := FlattenOpenAIContent(item.fields["content"]);
        out := AppendSegments(out, role, i, segs, OpenAIContent(item.fields["content"]));
      }
      return;
    }
    var itemType := StringIn(item.fields, "type");
    if itemType == "function_call_output" {
      var s := StringIn(item.fields, "output");
      out := AppendSegments(out, "tool", i, [s], [Piece(s, false)]);
    }
    if itemType == "function_call" && "arguments" in item.fields {
      var args := Arguments(item.fields["arguments"]);
      out := AppendSegments(out, "assistant", i, [args.text], [args]);
    }
  }

  method ParseRequest(host: string, verb: string, path: string, body: Option<Json>) returns (r: Parsed)
    ensures r == Parse(host, verb, path, body)
  {
    if verb != "POST" {
      return NotRecognised;
    }
    var endpoint := EndpointOf(host, path);
    if endpoint.None? {
      return NotRecognised;
    }
    var ep := endpoint.value;
    if body.None? || !Decodes(ep, body.value) {
      return Malformed;
    }
    var m := body.value.AsObject().value;
    var texts;
    match ep {
      case Anthropic => texts := AnthropicTexts(m);
      case Chat => texts := ChatTexts(m);
      case Responses => texts := ResponsesTexts(m);
    }
    return Request(VendorOf(ep), NameOf(ep), texts);
  }
}
