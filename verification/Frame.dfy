/** What redaction does to each place of a body, exactly, and that it leaves every
    other value alone; for any redactions.

    One place of each message or input item may change, its endpoint, role and type
    saying which. It holds its text masked where a redaction names it, at any depth
    of the content; what nothing names is the same value with the same text. The
    values of all other keys are equal before and after. */
module Frame {
  import opened Basics
  import opened Wire
  import opened Parser
  import opened Redact
  import opened RedactProofs

  /** Some redaction names a text. */
  ghost predicate Named(reds: seq<Redaction>, role: string, index: int, text: string) {
    exists k :: 0 <= k < |reds| && reds[k].Key() == TextSegment(role, index, text)
  }

  ghost predicate NoneNamed(reds: seq<Redaction>, visits: seq<Visit>) {
    forall k :: 0 <= k < |reds| ==> reds[k].Key() !in Places(visits)
  }

  /** An object in which one field was set. */
  ghost predicate OneFieldSet(b: Json, r: Json, key: string) {
    b.Obj? && r.Obj? && key in r.fields && r.fields == b.fields[key := r.fields[key]]
  }

  /** A value re-encoded: only its own text may differ. */
  ghost predicate SameButText(j: Json, r: Json) {
    r.(raw := j.raw) == j
  }

  // ----- the places

  /** Content before and after: a named string is masked, and an array keeps its
      blocks one by one; content in which nothing is named is returned as it was. */
  ghost predicate ContentKept(lib: Library, reds: seq<Redaction>, ep: Endpoint, role: string, index: int, j: Json,
                              r: Json)
    decreases j
  {
    && (NoneNamed(reds, At(role, index, ContentLooks(ep, j))) ==> r == j)
    && match j.AsString()
       case Some(s) =>
         Named(reds, role, index, s) ==> r.AsString() == Some(Masked(lib, reds, role, index, s))
       case None =>
         if !j.Arr? then r == j
         else
           && r.Arr? && |r.items| == |j.items|
           && forall i :: 0 <= i < |j.items| ==> BlockKept(lib, reds, ep, role, index, j.items[i], r.items[i])
  }

  /** A block before and after: the text of a text block and the raw text of a tool
      input are masked when they are named, and what is inside a tool result is
      kept in turn; nothing else changes. */
  ghost predicate BlockKept(lib: Library, reds: seq<Redaction>, ep: Endpoint, role: string, index: int, b: Json,
                            r: Json)
    decreases b
  {
    if !b.Obj? then r == b
    else match KindOf(ep, b.fields)
      case Text =>
        var t := StringIn(b.fields, "text");
        if Named(reds, role, index, t) then
          OneFieldSet(b, r, "text") && r.fields["text"].AsString() == Some(Masked(lib, reds, role, index, t))
        else r == b
      case ToolUse =>
        if "input" in b.fields && b.fields["input"].raw != "" && Named(reds, role, index, b.fields["input"].raw) then
          OneFieldSet(b, r, "input") && RawMasked(lib, reds, role, index, b.fields["input"], r.fields["input"])
        else r == b
      case ToolResult =>
        if "content" in b.fields then
          && OneFieldSet(b, r, "content")
          && ContentKept(lib, reds, ep, role, index, b.fields["content"], r.fields["content"])
          && (r.fields["content"] == b.fields["content"] ==> r == b)
        else r == b
      case OtherBlock => r == b
  }

  /** A value whose own text was masked; what came out is JSON. */
  ghost predicate RawMasked(lib: Library, reds: seq<Redaction>, role: string, index: int, j: Json, r: Json) {
    r.raw == Masked(lib, reds, role, index, j.raw) && lib.Reparsed(r.raw) == Some(r)
  }

  /** Named arguments before and after, in their wire form. */
  ghost predicate ArgumentsMasked(lib: Library, reds: seq<Redaction>, role: string, index: int, a: Json, r: Json) {
    match a.AsString()
    case Some(s) =>
      && r.AsString() == Some(Masked(lib, reds, role, index, s))
      && lib.decode(Masked(lib, reds, role, index, s)).Some?
    case None => RawMasked(lib, reds, role, index, a, r)
  }

  ghost predicate ArgumentsNamed(reds: seq<Redaction>, role: string, index: int, args: Json) {
    args.raw != "" && Named(reds, role, index, Arguments(args).text)
  }

  ghost predicate ToolCallKept(lib: Library, reds: seq<Redaction>, role: string, index: int, c: Json, r: Json) {
    if c.Obj? && "arguments" in FunctionOf(c.fields)
       && ArgumentsNamed(reds, role, index, FunctionOf(c.fields)["arguments"]) then
      && OneFieldSet(c, r, "function")
      && var f, g := c.fields["function"], r.fields["function"];
         && OneFieldSet(f, g, "arguments")
         && ArgumentsMasked(lib, reds, role, index, f.fields["arguments"], g.fields["arguments"])
    else r == c
  }

  ghost predicate ToolCallsKept(lib: Library, reds: seq<Redaction>, role: string, index: int, tc: Json, r: Json) {
    && (NoneNamed(reds, At(role, index, ToolCallArrayLooks(tc))) ==> r == tc)
    && if !tc.Arr? then r == tc
       else
         && r.Arr? && |r.items| == |tc.items|
         && forall i :: 0 <= i < |tc.items| ==> ToolCallKept(lib, reds, role, index, tc.items[i], r.items[i])
  }

  /** An object one field of which holds content. */
  ghost predicate FieldKept(lib: Library, reds: seq<Redaction>, ep: Endpoint, role: string, i: int, item: Json, r: Json,
                            key: string)
    requires item.Obj?
  {
    if key in item.fields then
      && OneFieldSet(item, r, key)
      && ContentKept(lib, reds, ep, role, i, item.fields[key], r.fields[key])
    else r == item
  }

  /** A chat message keeps everything but its content and its tool calls. */
  ghost predicate ChatKept(lib: Library, reds: seq<Redaction>, i: nat, item: Json, r: Json)
    requires item.Obj?
  {
    var m, role := item.fields, StringIn(item.fields, "role");
    && r.Obj? && AgreeExcept(m, r.fields, {"content", "tool_calls"})
    && ("content" in m ==> ContentKept(lib, reds, Chat, role, i, m["content"], r.fields["content"]))
    && ("tool_calls" in m ==> ToolCallsKept(lib, reds, role, i, m["tool_calls"], r.fields["tool_calls"]))
  }

  /** Two objects with the same keys that agree on all but some of them. */
  ghost predicate AgreeExcept(m: map<string, Json>, r: map<string, Json>, keys: set<string>) {
    r.Keys == m.Keys && forall k :: k in m && k !in keys ==> r[k] == m[k]
  }

  /** A message or input item before and after. Its endpoint, role and type say
      which one place may change; with nothing named only its encoding may. */
  ghost predicate ItemKept(lib: Library, reds: seq<Redaction>, ep: Endpoint, i: nat, item: Json, r: Json) {
    && (NoneNamed(reds, ItemVisits(ep, i, item)) ==> SameButText(item, r))
    && if !item.Obj? then r == item
       else
         var m := item.fields;
         match ep
         case Anthropic => FieldKept(lib, reds, ep, StringIn(m, "role"), i, item, r, "content")
         case Chat => ChatKept(lib, reds, i, item, r)
         case Responses =>
           if "role" in m then
             if StringIn(m, "role") == "" then r == item
             else FieldKept(lib, reds, ep, StringIn(m, "role"), i, item, r, "content")
           else if StringIn(m, "type") == "function_call_output" then
             FieldKept(lib, reds, ep, "tool", i, item, r, "output")
           else if StringIn(m, "type") == "function_call" && "arguments" in m
                   && ArgumentsNamed(reds, "assistant", i, m["arguments"]) then
             && OneFieldSet(item, r, "arguments")
             && ArgumentsMasked(lib, reds, "assistant", i, m["arguments"], r.fields["arguments"])
           else r == item
  }

  ghost predicate MainKept(lib: Library, reds: seq<Redaction>, ep: Endpoint, j: Json, r: Json) {
    if ep == Responses && j.AsString().Some? then ContentKept(lib, reds, ep, "user", 0, j, r)
    else if !j.Arr? then r == j
    else
      && r.Arr? && |r.items| == |j.items|
      && forall i :: 0 <= i < |j.items| ==> ItemKept(lib, reds, ep, i, j.items[i], r.items[i])
  }

  /** The keys of a body that hold prose. */
  function Scanned(ep: Endpoint): set<string> {
    if ep == Chat then {BodyKey(ep)} else {HeadKey(ep), BodyKey(ep)}
  }

  ghost predicate TopKept(lib: Library, reds: seq<Redaction>, ep: Endpoint, m: map<string, Json>,
                          top: map<string, Json>)
  {
    && AgreeExcept(m, top, Scanned(ep))
    && (ep != Chat && HeadKey(ep) in m ==>
          ContentKept(lib, reds, ep, "system", -1, m[HeadKey(ep)], top[HeadKey(ep)]))
    && (BodyKey(ep) in m ==> MainKept(lib, reds, ep, m[BodyKey(ep)], top[BodyKey(ep)]))
  }

  // ----- masking changes exactly what is named

  lemma {:induction false} ChangedFrom(lib: Library, reds: seq<Redaction>, text: TextSegment, out: string, k: nat)
    requires k <= |reds| && MaskFrom(lib, reds, text, out, k).Ok?
    ensures var t := MaskFrom(lib, reds, text, out, k).value;
            && (t.changed <==> exists j :: k <= j < |reds| && reds[j].Key() == text)
            && (!t.changed ==> t.value == out)
    decreases |reds| - k
  {
    if k < |reds| {
      if reds[k].Key() != text {
        ChangedFrom(lib, reds, text, out, k + 1);
      } else {
        ChangedFrom(lib, reds, text, Spans.SpliceAll(out, lib.sortSpans(reds[k].spans), Spans.MASK).value, k + 1);
      }
    }
  }

  lemma {:induction false} ChangedIfNamed(lib: Library, reds: seq<Redaction>, role: string, index: int, text: string)
    requires MaskText(lib, reds, role, index, text).Ok?
    ensures MaskText(lib, reds, role, index, text).value
            == Edit(Masked(lib, reds, role, index, text), Named(reds, role, index, text))
    ensures !Named(reds, role, index, text) ==> Masked(lib, reds, role, index, text) == text
  {
    ChangedFrom(lib, reds, TextSegment(role, index, text), text, 0);
  }

  // ----- a value none of whose texts is named is returned as it was

  lemma {:induction false} NoneNamedAppend(reds: seq<Redaction>, a: seq<Visit>, b: seq<Visit>)
    requires NoneNamed(reds, a + b)
    ensures NoneNamed(reds, a) && NoneNamed(reds, b)
  {
    assert Places(a + b) == Places(a) + Places(b);
  }

  lemma {:induction false} UnnamedText(lib: Library, reds: seq<Redaction>, role: string, index: int, s: string,
                                       json: bool)
    requires NoneNamed(reds, At(role, index, [Look(s, json)]))
    ensures MaskText(lib, reds, role, index, s) == Ok(Edit(s, false))
  {
    PlacesOfOne(role, index, Look(s, json));
    MaskFromUnnamed(lib, reds, TextSegment(role, index, s), s, 0);
  }

  lemma {:induction false} UnnamedContent(lib: Library, reds: seq<Redaction>, ep: Endpoint, role: string, index: int,
                                          j: Json)
    requires NoneNamed(reds, At(role, index, ContentLooks(ep, j)))
    ensures Content(lib, reds, ep, role, index, j) == Ok(j)
    decreases j, 1
  {
    match j.AsString() {
      case Some(s) => UnnamedText(lib, reds, role, index, s, false);
      case None => if j.Arr? { UnnamedBlocks(lib, reds, ep, role, index, j, 0); }
    }
  }

  lemma {:induction false} UnnamedBlocks(lib: Library, reds: seq<Redaction>, ep: Endpoint, role: string, index: int,
                                         j: Json, i: nat)
    requires j.Arr? && i <= |j.items| && NoneNamed(reds, At(role, index, BlocksLooks(ep, j, i)))
    ensures Blocks(lib, reds, ep, role, index, j, i) == Ok(Edit(j.items[i..], false))
    decreases j, 0, |j.items| - i
  {
    if i < |j.items| {
      AtAppend(role, index, BlockLooks(ep, j.items[i]), BlocksLooks(ep, j, i + 1));
      NoneNamedAppend(reds, At(role, index, BlockLooks(ep, j.items[i])), At(role, index, BlocksLooks(ep, j, i + 1)));
      UnnamedBlock(lib, reds, ep, role, index, j.items[i]);
      UnnamedBlocks(lib, reds, ep, role, index, j, i + 1);
      assert [j.items[i]] + j.items[i + 1..] == j.items[i..];
    }
  }

  lemma {:induction false} UnnamedBlock(lib: Library, reds: seq<Redaction>, ep: Endpoint, role: string, index: int,
                                        b: Json)
    requires NoneNamed(reds, At(role, index, BlockLooks(ep, b)))
    ensures Block(lib, reds, ep, role, index, b) == Ok(Edit(b, false))
    decreases b, 2
  {
    if b.Obj? {
      match KindOf(ep, b.fields) {
        case Text => UnnamedText(lib, reds, role, index, StringIn(b.fields, "text"), false);
        case ToolUse =>
          if "input" in b.fields && b.fields["input"].raw != "" {
            UnnamedText(lib, reds, role, index, b.fields["input"].raw, true);
          }
        case ToolResult =>
          if "content" in b.fields { UnnamedContent(lib, reds, ep, role, index, b.fields["content"]); }
        case OtherBlock =>
      }
    }
  }

  lemma {:induction false} UnnamedArguments(lib: Library, reds: seq<Redaction>, role: string, index: int, args: Json)
    requires NoneNamed(reds, At(role, index, ArgumentsLooks(args)))
    ensures ToolArguments(lib, reds, role, index, args) == Ok(Edit(args, false))
  {
    if args.raw != "" { UnnamedText(lib, reds, role, index, Arguments(args).text, true); }
  }

  lemma {:induction false} UnnamedToolCalls(lib: Library, reds: seq<Redaction>, role: string, index: int,
                                            calls: seq<Json>, i: nat)
    requires i <= |calls| && NoneNamed(reds, At(role, index, ToolCallsLooks(calls, i)))
    ensures ToolCalls(lib, reds, role, index, calls, i) == Ok(Edit(calls[i..], false))
    decreases |calls| - i
  {
    if i < |calls| {
      AtAppend(role, index, ToolCallLooks(calls[i]), ToolCallsLooks(calls, i + 1));
      NoneNamedAppend(reds, At(role, index, ToolCallLooks(calls[i])), At(role, index, ToolCallsLooks(calls, i + 1)));
      if calls[i].Obj? && "arguments" in FunctionOf(calls[i].fields) {
        UnnamedArguments(lib, reds, role, index, FunctionOf(calls[i].fields)["arguments"]);
      }
      UnnamedToolCalls(lib, reds, role, index, calls, i + 1);
      assert [calls[i]] + calls[i + 1..] == calls[i..];
    }
  }

  lemma {:induction false} UnnamedToolCallArray(lib: Library, reds: seq<Redaction>, role: string, index: int, tc: Json)
    requires NoneNamed(reds, At(role, index, ToolCallArrayLooks(tc)))
    ensures ToolCallArray(lib, reds, role, index, tc) == Ok(Edit(tc, false))
  {
    if tc.Arr? { UnnamedToolCalls(lib, reds, role, index, tc.items, 0); }
  }

  lemma {:induction false} UnnamedField(lib: Library, reds: seq<Redaction>, ep: Endpoint, role: string, i: int,
                                        item: Json, key: string)
    requires item.Obj? && NoneNamed(reds, At(role, i, FieldLooks(ep, item.fields, key)))
    ensures var r := Rewritten(lib, reds, ep, role, i, item, key); r.Ok? && SameButText(item, r.value)
  {
    if key in item.fields {
      UnnamedContent(lib, reds, ep, role, i, item.fields[key]);
      assert item.fields[key := item.fields[key]] == item.fields;
    }
  }

  /** A message or item none of whose texts is named changes at most its encoding. */
  lemma {:induction false} UnnamedItem(lib: Library, reds: seq<Redaction>, ep: Endpoint, i: nat, item: Json)
    requires item.AsObject().Some? && NoneNamed(reds, ItemVisits(ep, i, item))
    ensures var r := Item(lib, reds, ep, i, item); r.Ok? && SameButText(item, r.value)
  {
    if item.Obj? {
      var m, role := item.fields, StringIn(item.fields, "role");
      match ep {
        case Anthropic => UnnamedField(lib, reds, ep, role, i, item, "content");
        case Chat => UnnamedChatMessage(lib, reds, i, item);
        case Responses =>
          if "role" in m {
            if role != "" { UnnamedField(lib, reds, ep, role, i, item, "content"); }
          } else if StringIn(m, "type") == "function_call_output" {
            UnnamedField(lib, reds, ep, "tool", i, item, "output");
          } else if StringIn(m, "type") == "function_call" && "arguments" in m {
            UnnamedArguments(lib, reds, "assistant", i, m["arguments"]);
          }
      }
    }
  }

  lemma {:induction false} UnnamedChatMessage(lib: Library, reds: seq<Redaction>, i: nat, item: Json)
    requires item.Obj? && NoneNamed(reds, ItemVisits(Chat, i, item))
    ensures ChatMessage(lib, reds, i, item) == Ok(item)
  {
    var m, role := item.fields, StringIn(item.fields, "role");
    NoneNamedAppend(reds, At(role, i, FieldLooks(Chat, m, "content")),
                    At(role, i, if "tool_calls" in m then ToolCallArrayLooks(m["tool_calls"]) else []));
    if "content" in m { UnnamedContent(lib, reds, Chat, role, i, m["content"]); }
    if "tool_calls" in m { UnnamedToolCallArray(lib, reds, role, i, m["tool_calls"]); }
  }

  // ----- each place is kept

  lemma {:induction false} ContentIsKept(lib: Library, reds: seq<Redaction>, ep: Endpoint, role: string, index: int,
                                         j: Json)
    requires Content(lib, reds, ep, role, index, j).Ok?
    ensures ContentKept(lib, reds, ep, role, index, j, Content(lib, reds, ep, role, index, j).value)
    decreases j, 0
  {
    var r := Content(lib, reds, ep, role, index, j).value;
    if NoneNamed(reds, At(role, index, ContentLooks(ep, j))) { UnnamedContent(lib, reds, ep, role, index, j); }
    match j.AsString() {
      case Some(s) => ChangedIfNamed(lib, reds, role, index, s);
      case None =>
        if j.Arr? {
          ContentOfArray(lib, reds, ep, role, index, j);
          forall i | 0 <= i < |j.items| ensures BlockKept(lib, reds, ep, role, index, j.items[i], r.items[i]) {
            assert IsBlock(lib, reds, ep, role, index, j.items[i], r.items[i]);
            BlockIsKept(lib, reds, ep, role, index, j.items[i]);
          }
        }
    }
  }

  lemma {:induction false} BlockIsKept(lib: Library, reds: seq<Redaction>, ep: Endpoint, role: string, index: int,
                                       b: Json)
    requires Block(lib, reds, ep, role, index, b).Ok?
    ensures BlockKept(lib, reds, ep, role, index, b, Block(lib, reds, ep, role, index, b).value.value)
    decreases b, 1
  {
    if b.Obj? {
      match KindOf(ep, b.fields) {
        case Text => ChangedIfNamed(lib, reds, role, index, StringIn(b.fields, "text"));
        case ToolUse =>
          if "input" in b.fields && b.fields["input"].raw != "" {
            RawIsKept(lib, reds, role, index, b.fields["input"]);
          }
        case ToolResult =>
          if "content" in b.fields {
            ContentIsKept(lib, reds, ep, role, index, b.fields["content"]);
            assert b.fields["content" := b.fields["content"]] == b.fields;
          }
        case OtherBlock =>
      }
    }
  }

  lemma {:induction false} RawIsKept(lib: Library, reds: seq<Redaction>, role: string, index: int, j: Json)
    requires MaskRaw(lib, reds, role, index, j).Ok?
    ensures var r := MaskRaw(lib, reds, role, index, j).value;
            && r.changed == Named(reds, role, index, j.raw)
            && if r.changed then RawMasked(lib, reds, role, index, j, r.value) else r.value == j
  {
    ChangedIfNamed(lib, reds, role, index, j.raw);
  }

  lemma {:induction false} ArgumentsAreKept(lib: Library, reds: seq<Redaction>, role: string, index: int, args: Json)
    requires ToolArguments(lib, reds, role, index, args).Ok?
    ensures var r := ToolArguments(lib, reds, role, index, args).value;
            && r.changed == ArgumentsNamed(reds, role, index, args)
            && if r.changed then ArgumentsMasked(lib, reds, role, index, args, r.value) else r.value == args
  {
    if args.raw != "" {
      match args.AsString() {
        case Some(s) => ChangedIfNamed(lib, reds, role, index, s);
        case None => RawIsKept(lib, reds, role, index, args);
      }
    }
  }

  lemma {:induction false} ToolCallIsKept(lib: Library, reds: seq<Redaction>, role: string, index: int, c: Json)
    requires ToolCall(lib, reds, role, index, c).Ok?
    ensures ToolCallKept(lib, reds, role, index, c, ToolCall(lib, reds, role, index, c).value.value)
  {
    if c.Obj? && "arguments" in FunctionOf(c.fields) {
      ArgumentsAreKept(lib, reds, role, index, c.fields["function"].fields["arguments"]);
    }
  }

  lemma {:induction false} ToolCallsAreKept(lib: Library, reds: seq<Redaction>, role: string, index: int, tc: Json)
    requires ToolCallArray(lib, reds, role, index, tc).Ok?
    ensures ToolCallsKept(lib, reds, role, index, tc, ToolCallArray(lib, reds, role, index, tc).value.value)
  {
    var r := ToolCallArray(lib, reds, role, index, tc).value.value;
    if NoneNamed(reds, At(role, index, ToolCallArrayLooks(tc))) { UnnamedToolCallArray(lib, reds, role, index, tc); }
    ToolCallArrayShape(lib, reds, role, index, tc);
    if tc.Arr? {
      forall i | 0 <= i < |tc.items| ensures ToolCallKept(lib, reds, role, index, tc.items[i], r.items[i]) {
        assert IsToolCall(lib, reds, role, index, tc.items[i], r.items[i]);
        ToolCallIsKept(lib, reds, role, index, tc.items[i]);
      }
    }
  }

  lemma {:induction false} FieldIsKept(lib: Library, reds: seq<Redaction>, ep: Endpoint, role: string, i: int,
                                       item: Json, key: string)
    requires item.Obj? && Rewritten(lib, reds, ep, role, i, item, key).Ok?
    ensures FieldKept(lib, reds, ep, role, i, item, Rewritten(lib, reds, ep, role, i, item, key).value, key)
  {
    if key in item.fields { ContentIsKept(lib, reds, ep, role, i, item.fields[key]); }
  }

  lemma {:induction false} ChatIsKept(lib: Library, reds: seq<Redaction>, i: nat, item: Json)
    requires item.Obj? && ChatMessage(lib, reds, i, item).Ok?
    ensures ChatKept(lib, reds, i, item, ChatMessage(lib, reds, i, item).value)
  {
    var m, role := item.fields, StringIn(item.fields, "role");
    ChatMessageShape(lib, reds, i, item);
    if "content" in m { ContentIsKept(lib, reds, Chat, role, i, m["content"]); }
    if "tool_calls" in m { ToolCallsAreKept(lib, reds, role, i, m["tool_calls"]); }
  }

  lemma {:induction false} ItemIsKept(lib: Library, reds: seq<Redaction>, ep: Endpoint, i: nat, item: Json)
    requires Item(lib, reds, ep, i, item).Ok?
    ensures ItemKept(lib, reds, ep, i, item, Item(lib, reds, ep, i, item).value)
  {
    if NoneNamed(reds, ItemVisits(ep, i, item)) { UnnamedItem(lib, reds, ep, i, item); }
    if item.Obj? {
      var m, role := item.fields, StringIn(item.fields, "role");
      match ep {
        case Anthropic => FieldIsKept(lib, reds, ep, role, i, item, "content");
        case Chat => ChatIsKept(lib, reds, i, item);
        case Responses =>
          if "role" in m {
            if role != "" { FieldIsKept(lib, reds, ep, role, i, item, "content"); }
          } else if StringIn(m, "type") == "function_call_output" {
            FieldIsKept(lib, reds, ep, "tool", i, item, "output");
          } else if StringIn(m, "type") == "function_call" && "arguments" in m {
            ArgumentsAreKept(lib, reds, "assistant", i, m["arguments"]);
          }
      }
    }
  }

  lemma {:induction false} MainIsKept(lib: Library, reds: seq<Redaction>, ep: Endpoint, j: Json)
    requires MainPart(lib, reds, ep, j).Ok?
    ensures MainKept(lib, reds, ep, j, MainPart(lib, reds, ep, j).value)
  {
    if ep == Responses && j.AsString().Some? {
      ContentIsKept(lib, reds, ep, "user", 0, j);
    } else {
      ItemArrayShape(lib, reds, ep, j);
      if j.Arr? {
        var r := ItemArray(lib, reds, ep, j).value;
        forall i | 0 <= i < |j.items| ensures ItemKept(lib, reds, ep, i, j.items[i], r.items[i]) {
          assert IsItem(lib, reds, ep, i, j.items[i], r.items[i]);
          ItemIsKept(lib, reds, ep, i, j.items[i]);
        }
      }
    }
  }

  lemma {:induction false} TopIsKept(lib: Library, reds: seq<Redaction>, ep: Endpoint, m: map<string, Json>)
    requires Top(lib, reds, ep, m).Ok?
    ensures TopKept(lib, reds, ep, m, Top(lib, reds, ep, m).value)
  {
    TopShape(lib, reds, ep, m);
    ChatHasNoHead(lib, reds, m);
    if ep != Chat && HeadKey(ep) in m { ContentIsKept(lib, reds, ep, "system", -1, m[HeadKey(ep)]); }
    if BodyKey(ep) in m { MainIsKept(lib, reds, ep, m[BodyKey(ep)]); }
  }

  lemma {:induction false} ChatHasNoHead(lib: Library, reds: seq<Redaction>, m: map<string, Json>)
    ensures Top(lib, reds, Chat, m).Ok? ==> AgreeExcept(m, Top(lib, reds, Chat, m).value, Scanned(Chat))
  {}

  /** The body that redaction returns is the original one, compacted, in which every
      named text is masked where it stands and no other value differs. */
  lemma {:induction false} RedactionKeepsTheRest(lib: Library, reds: seq<Redaction>, ep: Endpoint, body: Json)
    requires Redacted(lib, reds, ep, body).Ok?
    ensures exists top ::
              && Redacted(lib, reds, ep, body).value == lib.Compacted(lib.Encoded(Obj("", top)))
              && TopKept(lib, reds, ep, body.AsObject().value, top)
  {
    TopIsKept(lib, reds, ep, body.AsObject().value);
  }
}
