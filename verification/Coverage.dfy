/** When redaction succeeds, and that it reaches every segment the parser finds. */
module Coverage {
  import opened Basics
  import opened Spans
  import opened Wire
  import opened Parser
  import opened Redact
  import opened RedactProofs

  // ----- the walk succeeds exactly when every text it looks at can be masked

  /** The redactions naming a text have spans in range, and leave JSON where JSON is due. */
  ghost predicate Fits(lib: Library, reds: seq<Redaction>, v: Visit) {
    match MaskText(lib, reds, v.segment.role, v.segment.index, v.segment.content)
    case Err(_) => false
    case Ok(t) => v.json && t.changed ==> lib.Reparsed(t.value).Some?
  }

  ghost predicate AllFit(lib: Library, reds: seq<Redaction>, visits: seq<Visit>) {
    forall v :: v in visits ==> Fits(lib, reds, v)
  }

  /** The errors of masking, as opposed to those of structure. */
  predicate MaskingError(e: RedactError) {
    e == SpanOutOfRange || e == NotJsonAfterMasking
  }

  /** A walk's outcome agrees with the texts it looks at. */
  ghost predicate Succeeds<T>(lib: Library, reds: seq<Redaction>, r: Result<T, RedactError>, visits: seq<Visit>) {
    && (r.Ok? <==> AllFit(lib, reds, visits))
    && (r.Err? ==> MaskingError(r.error))
  }

  lemma {:induction false} AllFitAppend(lib: Library, reds: seq<Redaction>, a: seq<Visit>, b: seq<Visit>)
    ensures AllFit(lib, reds, a + b) <==> AllFit(lib, reds, a) && AllFit(lib, reds, b)
  {
    if AllFit(lib, reds, a + b) {
      forall v | v in a ensures Fits(lib, reds, v) { assert v in a + b; }
      forall v | v in b ensures Fits(lib, reds, v) { assert v in a + b; }
    }
  }

  lemma {:induction false} AllFitOne(lib: Library, reds: seq<Redaction>, role: string, index: int, look: Look)
    ensures AllFit(lib, reds, At(role, index, [look]))
            <==> Fits(lib, reds, Visit(TextSegment(role, index, look.text), look.json))
  {
    assert At(role, index, [look]) == [Visit(TextSegment(role, index, look.text), look.json)];
  }

  lemma {:induction false} MaskFromErrors(lib: Library, reds: seq<Redaction>, text: TextSegment, out: string, k: nat)
    requires k <= |reds|
    ensures var r := MaskFrom(lib, reds, text, out, k); r.Err? ==> r.error == SpanOutOfRange
    decreases |reds| - k
  {
    if k < |reds| {
      if reds[k].Key() != text {
        MaskFromErrors(lib, reds, text, out, k + 1);
      } else {
        var spliced := SpliceAll(out, lib.sortSpans(reds[k].spans), MASK);
        if spliced.Some? { MaskFromErrors(lib, reds, text, spliced.value, k + 1); }
      }
    }
  }

  lemma {:induction false} TextSucceeds(lib: Library, reds: seq<Redaction>, role: string, index: int, s: string)
    ensures Succeeds(lib, reds, MaskText(lib, reds, role, index, s), At(role, index, [Look(s, false)]))
    ensures MaskText(lib, reds, role, index, s).Err? ==> !Fits(lib, reds, Visit(TextSegment(role, index, s), true))
  {
    MaskFromErrors(lib, reds, TextSegment(role, index, s), s, 0);
    AllFitOne(lib, reds, role, index, Look(s, false));
  }

  lemma {:induction false} RawSucceeds(lib: Library, reds: seq<Redaction>, role: string, index: int, j: Json)
    ensures Succeeds(lib, reds, MaskRaw(lib, reds, role, index, j), At(role, index, [Look(j.raw, true)]))
  {
    TextSucceeds(lib, reds, role, index, j.raw);
    AllFitOne(lib, reds, role, index, Look(j.raw, true));
  }

  lemma {:induction false} ArgumentsSucceed(lib: Library, reds: seq<Redaction>, role: string, index: int, args: Json)
    ensures Succeeds(lib, reds, ToolArguments(lib, reds, role, index, args), At(role, index, ArgumentsLooks(args)))
  {
    if args.raw != "" {
      match args.AsString() {
        case None => RawSucceeds(lib, reds, role, index, args);
        case Some(s) =>
          TextSucceeds(lib, reds, role, index, s);
          AllFitOne(lib, reds, role, index, Look(s, true));
      }
    }
  }

  lemma {:induction false} ContentSucceeds(lib: Library, reds: seq<Redaction>, ep: Endpoint, role: string, index: int,
                                           j: Json)
    ensures Succeeds(lib, reds, Content(lib, reds, ep, role, index, j), At(role, index, ContentLooks(ep, j)))
    decreases j, 1
  {
    match j.AsString() {
      case Some(s) => TextSucceeds(lib, reds, role, index, s);
      case None => if j.Arr? { BlocksSucceed(lib, reds, ep, role, index, j, 0); }
    }
  }

  lemma {:induction false} BlocksSucceed(lib: Library, reds: seq<Redaction>, ep: Endpoint, role: string, index: int,
                                         j: Json, i: nat)
    requires j.Arr? && i <= |j.items|
    ensures Succeeds(lib, reds, Blocks(lib, reds, ep, role, index, j, i), At(role, index, BlocksLooks(ep, j, i)))
    decreases j, 0, |j.items| - i
  {
    if i < |j.items| {
      BlockSucceeds(lib, reds, ep, role, index, j.items[i]);
      BlocksSucceed(lib, reds, ep, role, index, j, i + 1);
      AtAppend(role, index, BlockLooks(ep, j.items[i]), BlocksLooks(ep, j, i + 1));
      AllFitAppend(lib, reds, At(role, index, BlockLooks(ep, j.items[i])), At(role, index, BlocksLooks(ep, j, i + 1)));
    }
  }

  lemma {:induction false} BlockSucceeds(lib: Library, reds: seq<Redaction>, ep: Endpoint, role: string, index: int,
                                         b: Json)
    ensures Succeeds(lib, reds, Block(lib, reds, ep, role, index, b), At(role, index, BlockLooks(ep, b)))
    decreases b, 2
  {
    if b.Obj? {
      match KindOf(ep, b.fields) {
        case Text => TextSucceeds(lib, reds, role, index, StringIn(b.fields, "text"));
        case ToolUse =>
          if "input" in b.fields && b.fields["input"].raw != "" {
            RawSucceeds(lib, reds, role, index, b.fields["input"]);
          }
        case ToolResult =>
          if "content" in b.fields {
            ContentSucceeds(lib, reds, ep, role, index, b.fields["content"]);
          }
        case OtherBlock =>
      }
    }
  }

  lemma {:induction false} ToolCallsSucceed(lib: Library, reds: seq<Redaction>, role: string, index: int,
                                            calls: seq<Json>, i: nat)
    requires i <= |calls|
    ensures Succeeds(lib, reds, ToolCalls(lib, reds, role, index, calls, i), At(role, index, ToolCallsLooks(calls, i)))
    decreases |calls| - i
  {
    if i < |calls| {
      ToolCallSucceeds(lib, reds, role, index, calls[i]);
      ToolCallsSucceed(lib, reds, role, index, calls, i + 1);
      AtAppend(role, index, ToolCallLooks(calls[i]), ToolCallsLooks(calls, i + 1));
      AllFitAppend(lib, reds, At(role, index, ToolCallLooks(calls[i])), At(role, index, ToolCallsLooks(calls, i + 1)));
    }
  }

  lemma {:induction false} ToolCallSucceeds(lib: Library, reds: seq<Redaction>, role: string, index: int, call: Json)
    ensures Succeeds(lib, reds, ToolCall(lib, reds, role, index, call), At(role, index, ToolCallLooks(call)))
  {
    if call.Obj? && "arguments" in FunctionOf(call.fields) {
      ArgumentsSucceed(lib, reds, role, index, FunctionOf(call.fields)["arguments"]);
    }
  }

  lemma {:induction false} ToolCallArraySucceeds(lib: Library, reds: seq<Redaction>, role: string, index: int, tc: Json)
    ensures Succeeds(lib, reds, ToolCallArray(lib, reds, role, index, tc), At(role, index, ToolCallArrayLooks(tc)))
  {
    if tc.Arr? { ToolCallsSucceed(lib, reds, role, index, tc.items, 0); }
  }

  lemma {:induction false} RewrittenSucceeds(lib: Library, reds: seq<Redaction>, ep: Endpoint, role: string, i: int,
                                             item: Json, key: string)
    requires item.Obj?
    ensures Succeeds(lib, reds, Rewritten(lib, reds, ep, role, i, item, key),
                     At(role, i, FieldLooks(ep, item.fields, key)))
  {
    if key in item.fields { ContentSucceeds(lib, reds, ep, role, i, item.fields[key]); }
  }

  lemma {:induction false} ChatMessageSucceeds(lib: Library, reds: seq<Redaction>, i: nat, item: Json)
    requires item.Obj?
    ensures Succeeds(lib, reds, ChatMessage(lib, reds, i, item), ItemVisits(Chat, i, item))
  {
    var m, role := item.fields, StringIn(item.fields, "role");
    var calls := if "tool_calls" in m then ToolCallArrayLooks(m["tool_calls"]) else [];
    if "content" in m { ContentSucceeds(lib, reds, Chat, role, i, m["content"]); }
    if "tool_calls" in m { ToolCallArraySucceeds(lib, reds, role, i, m["tool_calls"]); }
    AllFitAppend(lib, reds, At(role, i, FieldLooks(Chat, m, "content")), At(role, i, calls));
  }

  lemma {:induction false} ItemSucceeds(lib: Library, reds: seq<Redaction>, ep: Endpoint, i: nat, item: Json)
    requires item.AsObject().Some?
    ensures Succeeds(lib, reds, Item(lib, reds, ep, i, item), ItemVisits(ep, i, item))
  {
    if item.Obj? {
      var m := item.fields;
      match ep {
        case Anthropic => RewrittenSucceeds(lib, reds, ep, StringIn(m, "role"), i, item, "content");
        case Chat => ChatMessageSucceeds(lib, reds, i, item);
        case Responses =>
          if "role" in m {
            RewrittenSucceeds(lib, reds, ep, StringIn(m, "role"), i, item, "content");
          } else if StringIn(m, "type") == "function_call_output" {
            RewrittenSucceeds(lib, reds, ep, "tool", i, item, "output");
          } else if StringIn(m, "type") == "function_call" && "arguments" in m {
            ArgumentsSucceed(lib, reds, "assistant", i, m["arguments"]);
          }
      }
    }
  }

  lemma {:induction false} ItemsSucceed(lib: Library, reds: seq<Redaction>, ep: Endpoint, items: seq<Json>, i: nat)
    requires i <= |items| && AllObjects(items)
    ensures Succeeds(lib, reds, Items(lib, reds, ep, items, i), ItemsVisits(ep, items, i))
    decreases |items| - i
  {
    if i < |items| {
      ItemSucceeds(lib, reds, ep, i, items[i]);
      ItemsSucceed(lib, reds, ep, items, i + 1);
      AllFitAppend(lib, reds, ItemVisits(ep, i, items[i]), ItemsVisits(ep, items, i + 1));
    }
  }

  lemma {:induction false} ItemsFail(lib: Library, reds: seq<Redaction>, ep: Endpoint, items: seq<Json>, i: nat,
                                     bad: nat)
    requires i <= bad < |items| && items[bad].AsObject().None?
    ensures Items(lib, reds, ep, items, i).Err? && Items(lib, reds, ep, items, i).error != NotFound
    decreases |items| - i
  {
    if i < bad {
      if items[i].AsObject().Some? { ItemSucceeds(lib, reds, ep, i, items[i]); }
      ItemsFail(lib, reds, ep, items, i + 1, bad);
    }
  }

  /** The messages or the input can be walked: they are an array of objects, or
      null, or the one text that the input of a Responses request may be. */
  predicate Walkable(ep: Endpoint, m: map<string, Json>) {
    BodyKey(ep) in m ==>
      var j := m[BodyKey(ep)];
      j.Null? || (ep == Responses && j.Str?) || (j.Arr? && AllObjects(j.items))
  }

  lemma {:induction false} MainSucceeds(lib: Library, reds: seq<Redaction>, ep: Endpoint, m: map<string, Json>)
    requires BodyKey(ep) in m
    ensures var main := MainPart(lib, reds, ep, m[BodyKey(ep)]);
            if Walkable(ep, m) then Succeeds(lib, reds, main, MainVisits(ep, m[BodyKey(ep)]))
            else main.Err? && main.error != NotFound
  {
    var j := m[BodyKey(ep)];
    if ep == Responses && j.AsString().Some? {
      ContentSucceeds(lib, reds, ep, "user", 0, j);
    } else if j.Arr? {
      if AllObjects(j.items) {
        ItemsSucceed(lib, reds, ep, j.items, 0);
      } else {
        var bad :| 0 <= bad < |j.items| && j.items[bad].AsObject().None?;
        ItemsFail(lib, reds, ep, j.items, 0, bad);
      }
    }
  }

  lemma {:induction false} TopSucceeds(lib: Library, reds: seq<Redaction>, ep: Endpoint, m: map<string, Json>)
    ensures if Walkable(ep, m) then Succeeds(lib, reds, Top(lib, reds, ep, m), TopVisits(ep, m))
            else Top(lib, reds, ep, m).Err? && Top(lib, reds, ep, m).error != NotFound
  {
    if ep != Chat && HeadKey(ep) in m {
      ContentSucceeds(lib, reds, ep, "system", -1, m[HeadKey(ep)]);
    }
    if BodyKey(ep) in m {
      MainSucceeds(lib, reds, ep, m);
      AllFitAppend(lib, reds, HeadVisits(ep, m), MainVisits(ep, m[BodyKey(ep)]));
    } else {
      assert HeadVisits(ep, m) + [] == HeadVisits(ep, m);
    }
  }

  // ----- every segment the parser finds is looked at

  ghost predicate Seen(role: string, index: int, pieces: seq<Piece>, looks: seq<Look>) {
    forall p :: p in pieces ==> TextSegment(role, index, p.text) in Places(At(role, index, looks))
  }

  lemma {:induction false} SeenAppend(role: string, index: int, p: seq<Piece>, q: seq<Piece>, a: seq<Look>,
                                      b: seq<Look>)
    requires Seen(role, index, p, a) && Seen(role, index, q, b)
    ensures Seen(role, index, p + q, a + b)
  {
    AtAppend(role, index, a, b);
    assert Places(At(role, index, a) + At(role, index, b)) == Places(At(role, index, a)) + Places(At(role, index, b));
  }

  lemma {:induction false} SeenOne(role: string, index: int, p: Piece, json: bool)
    ensures Seen(role, index, [p], [Look(p.text, json)])
  {
    PlacesOfOne(role, index, Look(p.text, json));
  }

  lemma {:induction false} ContentSeen(ep: Endpoint, role: string, index: int, j: Json)
    ensures Seen(role, index, ContentOf(ep, j), ContentLooks(ep, j))
    decreases j, 1
  {
    match j {
      case Str(_, v) => SeenOne(role, index, Piece(v, false), false);
      case Arr(_, items) => if AllObjects(items) { BlocksSeen(ep, role, index, j, 0); }
      case _ =>
    }
  }

  lemma {:induction false} BlocksSeen(ep: Endpoint, role: string, index: int, j: Json, i: nat)
    requires j.Arr? && i <= |j.items|
    ensures Seen(role, index, BlockPieces(ep, j, i), BlocksLooks(ep, j, i))
    decreases j, 0, |j.items| - i
  {
    if i < |j.items| {
      BlockSeen(ep, role, index, j.items[i]);
      BlocksSeen(ep, role, index, j, i + 1);
      SeenAppend(role, index, OneBlock(ep, j.items[i]), BlockPieces(ep, j, i + 1),
                 BlockLooks(ep, j.items[i]), BlocksLooks(ep, j, i + 1));
    }
  }

  lemma {:induction false} BlockSeen(ep: Endpoint, role: string, index: int, b: Json)
    ensures Seen(role, index, OneBlock(ep, b), BlockLooks(ep, b))
    decreases b, 2
  {
    if b.Obj? {
      match KindOf(ep, b.fields) {
        case Text => SeenOne(role, index, Piece(StringIn(b.fields, "text"), false), false);
        case ToolUse =>
          if "input" in b.fields { SeenOne(role, index, Piece(b.fields["input"].raw, true), true); }
        case ToolResult =>
          if "content" in b.fields { ContentSeen(ep, role, index, b.fields["content"]); }
        case OtherBlock =>
      }
    }
  }

  lemma {:induction false} ToolCallsSeen(role: string, index: int, calls: seq<Json>, i: nat)
    requires i <= |calls| && forall c :: 0 <= c < |calls| ==> WellFormed(calls[c])
    ensures Seen(role, index, ToolCallsPieces(calls, i), ToolCallsLooks(calls, i))
    decreases |calls| - i
  {
    if i < |calls| {
      ToolCallSeen(role, index, calls[i]);
      ToolCallsSeen(role, index, calls, i + 1);
      SeenAppend(role, index, ToolCallPieces(calls[i]), ToolCallsPieces(calls, i + 1),
                 ToolCallLooks(calls[i]), ToolCallsLooks(calls, i + 1));
    }
  }

  lemma {:induction false} ToolCallSeen(role: string, index: int, call: Json)
    requires WellFormed(call)
    ensures Seen(role, index, ToolCallPieces(call), ToolCallLooks(call))
  {
    if call.Obj? && "arguments" in FunctionOf(call.fields) {
      WellFormedField(call, "function");
      WellFormedField(call.fields["function"], "arguments");
      SeenOne(role, index, Arguments(FunctionOf(call.fields)["arguments"]), true);
    }
  }

  ghost predicate ProseSeen(prose: seq<Prose>, visits: seq<Visit>) {
    forall p :: p in prose ==> p.segment in Places(visits)
  }

  lemma {:induction false} LocatedSeen(role: string, index: int, pieces: seq<Piece>, looks: seq<Look>)
    requires Seen(role, index, pieces, looks)
    ensures ProseSeen(Located(role, index, pieces), At(role, index, looks))
  {
    if pieces != [] {
      assert pieces[0] in pieces;
      LocatedSeen(role, index, pieces[1..], looks);
    }
  }

  lemma {:induction false} ProseSeenAppend(p: seq<Prose>, q: seq<Prose>, a: seq<Visit>, b: seq<Visit>)
    requires ProseSeen(p, a) && ProseSeen(q, b)
    ensures ProseSeen(p + q, a + b)
  {
    assert Places(a + b) == Places(a) + Places(b);
  }

  lemma {:induction false} FieldSeen(ep: Endpoint, role: string, index: int, m: map<string, Json>, key: string)
    ensures ProseSeen(Located(role, index, ContentIn(ep, m, key)), At(role, index, FieldLooks(ep, m, key)))
  {
    if key in m {
      ContentSeen(ep, role, index, m[key]);
      LocatedSeen(role, index, ContentOf(ep, m[key]), ContentLooks(ep, m[key]));
    }
  }

  /** Text that is the value of a JSON string, where the parser takes nothing else. */
  lemma {:induction false} StringSeen(ep: Endpoint, role: string, index: int, m: map<string, Json>, key: string)
    ensures ProseSeen(Located(role, index, [Piece(StringIn(m, key), false)]), At(role, index, FieldLooks(ep, m, key)))
  {
    if StringIn(m, key) != "" {
      SeenOne(role, index, Piece(StringIn(m, key), false), false);
      LocatedSeen(role, index, [Piece(StringIn(m, key), false)], FieldLooks(ep, m, key));
    } else {
      assert [Piece("", false)][1..] == [];
    }
  }

  lemma {:induction false} ItemSeen(ep: Endpoint, i: nat, item: Json)
    requires WellFormed(item)
    ensures ProseSeen(ItemProse(ep, i, item), ItemVisits(ep, i, item))
  {
    if item.Obj? {
      var m, role := item.fields, StringIn(item.fields, "role");
      FieldSeen(ep, role, i, m, "content");
      if ep == Chat {
        ChatCallsSeen(i, item);
        ProseSeenAppend(Located(role, i, ContentIn(ep, m, "content")), Located(role, i, CallsIn(m)),
                        At(role, i, FieldLooks(ep, m, "content")),
                        At(role, i, if "tool_calls" in m then ToolCallArrayLooks(m["tool_calls"]) else []));
      } else if ep == Responses && "role" !in m {
        StringSeen(ep, "tool", i, m, "output");
        if "arguments" in m {
          WellFormedField(item, "arguments");
          SeenOne("assistant", i, Arguments(m["arguments"]), true);
          LocatedSeen("assistant", i, ArgumentsIn(m), ArgumentsLooks(m["arguments"]));
        }
      }
    }
  }

  lemma {:induction false} ChatCallsSeen(i: nat, item: Json)
    requires WellFormed(item) && item.Obj?
    ensures var m, role := item.fields, StringIn(item.fields, "role");
            ProseSeen(Located(role, i, CallsIn(m)),
                      At(role, i, if "tool_calls" in m then ToolCallArrayLooks(m["tool_calls"]) else []))
  {
    var m, role := item.fields, StringIn(item.fields, "role");
    if "tool_calls" in m && m["tool_calls"].Arr? {
      WellFormedField(item, "tool_calls");
      ToolCallsSeen(role, i, m["tool_calls"].items, 0);
      LocatedSeen(role, i, CallsIn(m), ToolCallArrayLooks(m["tool_calls"]));
    }
  }

  lemma {:induction false} ItemsSeen(ep: Endpoint, j: Json, i: nat)
    requires WellFormed(j) && j.Arr? && i <= |j.items|
    ensures ProseSeen(ItemsProse(ep, j.items, i), ItemsVisits(ep, j.items, i))
    decreases |j.items| - i
  {
    if i < |j.items| {
      ItemsSeen(ep, j, i + 1);
      ItemSeen(ep, i, j.items[i]);
      ProseSeenAppend(ItemProse(ep, i, j.items[i]), ItemsProse(ep, j.items, i + 1),
                      ItemVisits(ep, i, j.items[i]), ItemsVisits(ep, j.items, i + 1));
    }
  }

  lemma {:induction false} MainSeen(ep: Endpoint, body: Json)
    requires WellFormed(body) && body.Obj? && Decodes(ep, body)
    ensures var m := body.fields;
            ProseSeen(if ep == Responses then InputProse(m) else ItemsProse(ep, MessagesIn(m), 0),
                      if BodyKey(ep) in m then MainVisits(ep, m[BodyKey(ep)]) else [])
  {
    var m := body.fields;
    if BodyKey(ep) in m {
      var j := m[BodyKey(ep)];
      WellFormedField(body, BodyKey(ep));
      if ep == Responses && j.AsString().Some? {
        SeenOne("user", 0, Piece(j.AsString().value, false), false);
        LocatedSeen("user", 0, [Piece(j.AsString().value, false)], ContentLooks(ep, j));
      } else if j.Arr? {
        ItemsSeen(ep, j, 0);
      }
    }
  }

  /** Every segment of a body that parses is looked at by the redactor, with
      the same role, index and content, however deep its tool result sits. */
  lemma {:induction false} EverySegmentVisited(ep: Endpoint, body: Json)
    requires WellFormed(body) && BodyProse(ep, body).Some? && body.Obj?
    ensures ProseSeen(BodyProse(ep, body).value, TopVisits(ep, body.fields))
  {
    var m := body.fields;
    MainSeen(ep, body);
    var main := if BodyKey(ep) in m then MainVisits(ep, m[BodyKey(ep)]) else [];
    match ep {
      case Anthropic =>
        FieldSeen(ep, "system", -1, m, "system");
        ProseSeenAppend(Located("system", -1, ContentIn(ep, m, "system")), ItemsProse(ep, MessagesIn(m), 0),
                        HeadVisits(ep, m), main);
      case Chat =>
        assert HeadVisits(ep, m) == [] && [] + main == main;
      case Responses =>
        StringSeen(ep, "system", -1, m, "instructions");
        ProseSeenAppend(Located("system", -1, [Piece(StringIn(m, "instructions"), false)]), InputProse(m),
                        HeadVisits(ep, m), main);
    }
  }

  // ----- the exact condition

  /** Each redaction names a segment the parser found in the body. */
  ghost predicate OwnSegments(reds: seq<Redaction>, prose: seq<Prose>) {
    forall k :: 0 <= k < |reds| ==> reds[k].Key() in SegmentsOf(prose)
  }

  /** For any redactions of any body, whether or not it parses: redaction succeeds
      exactly when the messages or the input can be walked, every named text can be
      masked and every redaction names a text. Redactions of segments that the
      parser found always name one. */
  lemma {:induction false} RedactionSucceedsExactly(lib: Library, reds: seq<Redaction>, ep: Endpoint, body: Json)
    requires body.AsObject().Some?
    ensures var m := body.AsObject().value;
            var r, visits := Redacted(lib, reds, ep, body), TopVisits(ep, m);
            && (r.Ok? <==> Walkable(ep, m) && AllFit(lib, reds, visits) && AllFound(reds, visits))
            && (r == Err(NotFound) <==> Walkable(ep, m) && AllFit(lib, reds, visits) && !AllFound(reds, visits))
            && (Walkable(ep, m) && r.Err? ==> MaskingError(r.error) || r.error == NotFound)
            && (BodyProse(ep, body).Some? && ep != Responses ==> Walkable(ep, m))
    ensures WellFormed(body) && BodyProse(ep, body).Some? && OwnSegments(reds, BodyProse(ep, body).value)
            ==> AllFound(reds, TopVisits(ep, body.AsObject().value))
  {
    TopSucceeds(lib, reds, ep, body.AsObject().value);
    if WellFormed(body) && BodyProse(ep, body).Some? && OwnSegments(reds, BodyProse(ep, body).value) {
      if body.Obj? {
        OwnSegmentsFound(reds, ep, body);
      } else {
        NullHasNoProse(ep, body);
      }
    }
  }

  lemma {:induction false} NullHasNoProse(ep: Endpoint, body: Json)
    requires body.Null? && BodyProse(ep, body).Some?
    ensures BodyProse(ep, body) == Some([])
  {
    assert [Piece("", false)][1..] == [];
  }

  /** RedactRequest by host and path: nothing to redact leaves any body as it is,
      the three endpoints are redacted by their own walk, and no others are. */
  lemma {:induction false} RedactRequestExactly(lib: Library, host: string, path: string, body: Option<Json>,
                                                reds: seq<Redaction>)
    ensures var r := RedactBody(lib, host, path, body, reds);
            var ep := if path == "/v1/messages" then Anthropic
                      else if path == "/v1/responses" then Responses else Chat;
            if reds == [] then r == Ok(body)
            else if !((host == "api.anthropic.com" && path == "/v1/messages")
                      || (host == "api.openai.com" && path in ["/v1/chat/completions", "/v1/responses"])) then
              r == Err(UnsupportedEndpoint)
            else if body.None? || (!body.value.Obj? && !body.value.Null?) then r == Err(BadStructure)
            else
              var m := body.value.AsObject().value;
              var visits := TopVisits(ep, m);
              && (r.Ok? <==> Walkable(ep, m) && AllFit(lib, reds, visits) && AllFound(reds, visits))
              && (r.Ok? ==> r.value.Some? && r == Ok(Some(Redacted(lib, reds, ep, body.value).value)))
  {
    if body.Some? && body.value.AsObject().Some? {
      forall ep: Endpoint
        ensures var m := body.value.AsObject().value;
                Redacted(lib, reds, ep, body.value).Ok? <==>
                Walkable(ep, m) && AllFit(lib, reds, TopVisits(ep, m)) && AllFound(reds, TopVisits(ep, m))
      {
        RedactionSucceedsExactly(lib, reds, ep, body.value);
      }
    }
  }

  lemma {:induction false} OwnSegmentsFound(reds: seq<Redaction>, ep: Endpoint, body: Json)
    requires WellFormed(body) && BodyProse(ep, body).Some? && body.Obj?
    requires OwnSegments(reds, BodyProse(ep, body).value)
    ensures AllFound(reds, TopVisits(ep, body.fields))
  {
    var prose := BodyProse(ep, body).value;
    EverySegmentVisited(ep, body);
    forall k | 0 <= k < |reds| ensures reds[k].Key() in Places(TopVisits(ep, body.fields)) {
      assert reds[k].Key() in SegmentsOf(prose);
      var i :| 0 <= i < |prose| && SegmentsOf(prose)[i] == reds[k].Key();
      assert prose[i] in prose && prose[i].segment == reds[k].Key();
    }
  }
}
