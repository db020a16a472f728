/** That the parser finds what is there. */
module Completeness {
  import opened Basics
  import opened Wire
  import opened Parser
  import opened Redact
  import opened RedactProofs
  import opened Coverage

  // A conversation is what a request says, told apart from JSON. `SpellsBody` says
  // which documents spell which conversation, on the constructors of JSON alone.
  // The parser returns the texts of the conversation that a body spells, and calls
  // a body malformed exactly when it spells none. The redactor looks at the same
  // texts, and at more in a few places.

  // ----- conversations

  /** Content: a text, or parts in an array, or something that is not read. */
  datatype Saying = Words(text: string) | Parts(parts: seq<Part>) | Unread

  datatype Part = Written(text: string) | Used(input: string) | Answer(saying: Saying) | Aside

  datatype Call = Asked(arguments: string) | NotAsked

  /** A message or an input item. */
  datatype Turn = Turn(role: string, saying: Saying, calls: seq<Call>)

  const SILENT := Turn("", Unread, [])

  datatype Conversation = Conversation(system: Saying, turns: seq<Turn>)

  function OneText(t: string): seq<string> {
    if t == "" then [] else [t]
  }

  /** The texts of some content, in order, none of them empty. */
  function Spoken(s: Saying): seq<string>
    decreases s
  {
    match s
    case Words(t) => OneText(t)
    case Parts(_) => PartsSpoken(s, 0)
    case Unread => []
  }

  function PartsSpoken(s: Saying, i: nat): seq<string>
    requires s.Parts? && i <= |s.parts|
    decreases s, |s.parts| - i
  {
    if i == |s.parts| then [] else PartSpoken(s.parts[i]) + PartsSpoken(s, i + 1)
  }

  function PartSpoken(p: Part): seq<string>
    decreases p
  {
    match p
    case Written(t) => OneText(t)
    case Used(input) => OneText(input)
    case Answer(s) => Spoken(s)
    case Aside => []
  }

  function CallsSpoken(calls: seq<Call>, i: nat): seq<string>
    requires i <= |calls|
    decreases |calls| - i
  {
    if i == |calls| then []
    else (if calls[i].Asked? then OneText(calls[i].arguments) else []) + CallsSpoken(calls, i + 1)
  }

  function SaidBy(role: string, index: int, texts: seq<string>): (r: seq<TextSegment>)
    ensures |r| == |texts|
  {
    seq(|texts|, i requires 0 <= i < |texts| => TextSegment(role, index, texts[i]))
  }

  function TurnSpoken(t: Turn, i: nat): seq<TextSegment> {
    SaidBy(t.role, i, Spoken(t.saying)) + SaidBy(t.role, i, CallsSpoken(t.calls, 0))
  }

  function TurnsSpoken(turns: seq<Turn>, i: nat): seq<TextSegment>
    requires i <= |turns|
    decreases |turns| - i
  {
    if i == |turns| then [] else TurnSpoken(turns[i], i) + TurnsSpoken(turns, i + 1)
  }

  function AllSpoken(c: Conversation): seq<TextSegment> {
    SaidBy("system", -1, Spoken(c.system)) + TurnsSpoken(c.turns, 0)
  }

  // ----- the documents that spell them

  /** A field is a JSON string with this value. */
  predicate Says(m: map<string, Json>, key: string, value: string) {
    key in m && m[key].Str? && m[key].value == value
  }

  /** What a Go struct takes for a string. */
  predicate TextOrNone(m: map<string, Json>, key: string) {
    key in m ==> m[key].Str? || m[key].Null?
  }

  predicate Objects(items: seq<Json>) {
    forall i :: 0 <= i < |items| ==> items[i].Obj? || items[i].Null?
  }

  /** An object with a text, of a type whose text is prose on the endpoint. */
  predicate HasText(ep: Endpoint, b: Json) {
    && b.Obj? && "text" in b.fields && b.fields["text"].Str?
    && (Says(b.fields, "type", "text")
        || (ep != Anthropic && (Says(b.fields, "type", "input_text") || Says(b.fields, "type", "output_text"))))
  }

  predicate HasInput(ep: Endpoint, b: Json) {
    ep == Anthropic && b.Obj? && Says(b.fields, "type", "tool_use") && "input" in b.fields
  }

  predicate HasResult(ep: Endpoint, b: Json) {
    ep == Anthropic && b.Obj? && Says(b.fields, "type", "tool_result") && "content" in b.fields
  }

  predicate Spells(ep: Endpoint, s: Saying, j: Json)
    decreases s
  {
    match s
    case Words(t) => j.Str? && j.value == t
    case Parts(parts) =>
      && j.Arr? && |j.items| == |parts| && Objects(j.items)
      && forall i :: 0 <= i < |parts| ==> SpellsPart(ep, parts[i], j.items[i])
    case Unread => !j.Str? && (j.Arr? ==> !Objects(j.items))
  }

  predicate SpellsPart(ep: Endpoint, p: Part, b: Json)
    decreases p
  {
    match p
    case Written(t) => HasText(ep, b) && b.fields["text"].value == t
    case Used(input) => HasInput(ep, b) && b.fields["input"].raw == input
    case Answer(s) => HasResult(ep, b) && Spells(ep, s, b.fields["content"])
    case Aside => !HasText(ep, b) && !HasInput(ep, b) && !HasResult(ep, b)
  }

  predicate SpellsIn(ep: Endpoint, s: Saying, m: map<string, Json>, key: string) {
    if key in m then Spells(ep, s, m[key]) else s == Unread
  }

  /** The value of a string, nothing for null, and the text itself of anything else. */
  predicate SpellsArguments(a: string, j: Json) {
    a == if j.Str? then j.value else if j.Null? then "" else j.raw
  }

  predicate IsCall(j: Json) {
    j.Null? ||
    (j.Obj? && TextOrNone(j.fields, "id") && TextOrNone(j.fields, "type")
     && ("function" in j.fields ==>
           var f := j.fields["function"];
           f.Null? || (f.Obj? && TextOrNone(f.fields, "name"))))
  }

  predicate HasArguments(j: Json) {
    && j.Obj? && Says(j.fields, "type", "function")
    && "function" in j.fields && j.fields["function"].Obj? && "arguments" in j.fields["function"].fields
  }

  predicate SpellsCall(c: Call, j: Json) {
    && IsCall(j)
    && match c
       case Asked(a) => HasArguments(j) && SpellsArguments(a, j.fields["function"].fields["arguments"])
       case NotAsked => !HasArguments(j)
  }

  predicate SpellsCalls(calls: seq<Call>, m: map<string, Json>) {
    if "tool_calls" in m && m["tool_calls"].Arr? then
      && |calls| == |m["tool_calls"].items|
      && forall i :: 0 <= i < |calls| ==> SpellsCall(calls[i], m["tool_calls"].items[i])
    else calls == [] && ("tool_calls" in m ==> m["tool_calls"].Null?)
  }

  predicate SpellsMessage(ep: Endpoint, t: Turn, m: map<string, Json>) {
    && TextOrNone(m, "role")
    && t.role == (if "role" in m && m["role"].Str? then m["role"].value else "")
    && SpellsIn(ep, t.saying, m, "content")
    && (if ep == Chat then SpellsCalls(t.calls, m) else t.calls == [])
  }

  predicate SpellsItem(t: Turn, m: map<string, Json>) {
    if "role" in m then
      if m["role"].Str? && m["role"].value != "" then
        t.role == m["role"].value && SpellsIn(Responses, t.saying, m, "content") && t.calls == []
      else t == SILENT
    else if Says(m, "type", "function_call_output") && "output" in m && m["output"].Str? then
      t == Turn("tool", Words(m["output"].value), [])
    else if Says(m, "type", "function_call") && "arguments" in m then
      && t.role == "assistant" && t.saying == Unread && |t.calls| == 1
      && t.calls[0].Asked? && SpellsArguments(t.calls[0].arguments, m["arguments"])
    else t == SILENT
  }

  predicate SpellsTurn(ep: Endpoint, t: Turn, item: Json) {
    if item.Null? then t == SILENT
    else item.Obj? && if ep == Responses then SpellsItem(t, item.fields) else SpellsMessage(ep, t, item.fields)
  }

  predicate SpellsTurns(ep: Endpoint, turns: seq<Turn>, items: seq<Json>) {
    |turns| == |items| && forall i :: 0 <= i < |turns| ==> SpellsTurn(ep, turns[i], items[i])
  }

  predicate SpellsInput(turns: seq<Turn>, j: Json) {
    if j.Str? then turns == [Turn("user", Words(j.value), [])]
    else if j.Arr? && Objects(j.items) then SpellsTurns(Responses, turns, j.items)
    else turns == []
  }

  /** The documents that spell a conversation on an endpoint. */
  predicate SpellsBody(ep: Endpoint, c: Conversation, body: Json) {
    if ep == Responses then
      if body.Null? then c == Conversation(Unread, [])
      else
        && body.Obj? && TextOrNone(body.fields, "instructions")
        && c.system == (if "instructions" in body.fields && body.fields["instructions"].Str? then
                          Words(body.fields["instructions"].value) else Unread)
        && if "input" in body.fields then SpellsInput(c.turns, body.fields["input"]) else c.turns == []
    else
      && body.Obj? && "messages" in body.fields && body.fields["messages"].Arr?
      && (if ep == Anthropic then SpellsIn(ep, c.system, body.fields, "system") else c.system == Unread)
      && SpellsTurns(ep, c.turns, body.fields["messages"].items)
  }

  // ----- segments of located pieces

  function Segments(role: string, index: int, pieces: seq<Piece>): seq<TextSegment> {
    SegmentsOf(Located(role, index, pieces))
  }

  lemma {:induction false} Joining<T>(a: seq<T>, b: seq<T>, c: seq<T>)
    ensures a + (b + c) == a + b + c
  {}

  lemma {:induction false} LocatedAppend(role: string, index: int, a: seq<Piece>, b: seq<Piece>)
    ensures Located(role, index, a + b) == Located(role, index, a) + Located(role, index, b)
  {
    if a == [] {
      assert a + b == b;
    } else {
      LocatedAppend(role, index, a[1..], b);
      assert (a + b)[0] == a[0] && (a + b)[1..] == a[1..] + b;
      var head := if a[0].text == "" then [] else [Prose(TextSegment(role, index, a[0].text), a[0].verbatim)];
      Joining(head, Located(role, index, a[1..]), Located(role, index, b));
    }
  }

  lemma {:induction false} SegmentsAppend(role: string, index: int, a: seq<Piece>, b: seq<Piece>)
    ensures Segments(role, index, a + b) == Segments(role, index, a) + Segments(role, index, b)
  {
    LocatedAppend(role, index, a, b);
    SegmentsOfBoth(Located(role, index, a), Located(role, index, b));
  }

  lemma {:induction false} SegmentsOfOne(role: string, index: int, p: Piece)
    ensures Segments(role, index, [p]) == SaidBy(role, index, OneText(p.text))
  {
    assert [p][1..] == [];
    assert Located(role, index, [p])
           == if p.text == "" then [] else [Prose(TextSegment(role, index, p.text), p.verbatim)];
  }

  lemma {:induction false} SaidAppend(role: string, index: int, a: seq<string>, b: seq<string>)
    ensures SaidBy(role, index, a + b) == SaidBy(role, index, a) + SaidBy(role, index, b)
  {}

  lemma {:induction false} SegmentsOfBoth(a: seq<Prose>, b: seq<Prose>)
    ensures SegmentsOf(a + b) == SegmentsOf(a) + SegmentsOf(b)
  {}

  // ----- what is spelled is found

  lemma {:induction false} ContentFound(ep: Endpoint, role: string, index: int, s: Saying, j: Json)
    requires Spells(ep, s, j)
    ensures Segments(role, index, ContentOf(ep, j)) == SaidBy(role, index, Spoken(s))
    decreases s, 1
  {
    match s {
      case Words(t) => SegmentsOfOne(role, index, Piece(t, false));
      case Parts(_) => PartsFound(ep, role, index, s, j, 0);
      case Unread =>
    }
  }

  lemma {:induction false} PartsFound(ep: Endpoint, role: string, index: int, s: Saying, j: Json, i: nat)
    requires s.Parts? && Spells(ep, s, j) && i <= |s.parts|
    ensures Segments(role, index, BlockPieces(ep, j, i)) == SaidBy(role, index, PartsSpoken(s, i))
    decreases s, 0, |s.parts| - i
  {
    if i < |s.parts| {
      PartFound(ep, role, index, s.parts[i], j.items[i]);
      PartsFound(ep, role, index, s, j, i + 1);
      SegmentsAppend(role, index, OneBlock(ep, j.items[i]), BlockPieces(ep, j, i + 1));
      SaidAppend(role, index, PartSpoken(s.parts[i]), PartsSpoken(s, i + 1));
    }
  }

  lemma {:induction false} PartFound(ep: Endpoint, role: string, index: int, p: Part, b: Json)
    requires SpellsPart(ep, p, b)
    ensures Segments(role, index, OneBlock(ep, b)) == SaidBy(role, index, PartSpoken(p))
    decreases p, 2
  {
    match p {
      case Written(t) => SegmentsOfOne(role, index, Piece(t, false));
      case Used(input) => SegmentsOfOne(role, index, Piece(input, true));
      case Answer(s) => ContentFound(ep, role, index, s, b.fields["content"]);
      case Aside =>
    }
  }

  lemma {:induction false} ContentInFound(ep: Endpoint, role: string, index: int, s: Saying, m: map<string, Json>,
                                          key: string)
    requires SpellsIn(ep, s, m, key)
    ensures Segments(role, index, ContentIn(ep, m, key)) == SaidBy(role, index, Spoken(s))
  {
    if key in m { ContentFound(ep, role, index, s, m[key]); }
  }

  lemma {:induction false} CallFound(role: string, index: int, c: Call, j: Json)
    requires SpellsCall(c, j)
    ensures Segments(role, index, ToolCallPieces(j))
            == SaidBy(role, index, if c.Asked? then OneText(c.arguments) else [])
    ensures ToolCallDecodes(j)
  {
    if c.Asked? {
      SegmentsOfOne(role, index, Arguments(FunctionOf(j.fields)["arguments"]));
    }
  }

  lemma {:induction false} CallListFound(role: string, index: int, calls: seq<Call>, items: seq<Json>, i: nat)
    requires i <= |calls| == |items| && forall k :: 0 <= k < |calls| ==> SpellsCall(calls[k], items[k])
    ensures Segments(role, index, ToolCallsPieces(items, i)) == SaidBy(role, index, CallsSpoken(calls, i))
    ensures forall k :: i <= k < |items| ==> ToolCallDecodes(items[k])
    decreases |calls| - i
  {
    if i < |calls| {
      CallFound(role, index, calls[i], items[i]);
      CallListFound(role, index, calls, items, i + 1);
      SegmentsAppend(role, index, ToolCallPieces(items[i]), ToolCallsPieces(items, i + 1));
      SaidAppend(role, index, if calls[i].Asked? then OneText(calls[i].arguments) else [], CallsSpoken(calls, i + 1));
    }
  }

  lemma {:induction false} MessageFound(ep: Endpoint, i: nat, t: Turn, item: Json)
    requires ep != Responses && item.Obj? && SpellsMessage(ep, t, item.fields)
    ensures SegmentsOf(ItemProse(ep, i, item)) == TurnSpoken(t, i)
    ensures MessageDecodes(ep, item)
  {
    var m := item.fields;
    ContentInFound(ep, t.role, i, t.saying, m, "content");
    if ep == Chat {
      CallsFound(i, t, m);
      SegmentsOfBoth(Located(t.role, i, ContentIn(ep, m, "content")), Located(t.role, i, CallsIn(m)));
    }
  }

  lemma {:induction false} CallsFound(i: nat, t: Turn, m: map<string, Json>)
    requires SpellsMessage(Chat, t, m)
    ensures Segments(t.role, i, CallsIn(m)) == SaidBy(t.role, i, CallsSpoken(t.calls, 0))
    ensures "tool_calls" in m ==> m["tool_calls"].AsArray().Some?
    ensures "tool_calls" in m && m["tool_calls"].Arr? ==>
              forall c :: 0 <= c < |m["tool_calls"].items| ==> ToolCallDecodes(m["tool_calls"].items[c])
  {
    if "tool_calls" in m && m["tool_calls"].Arr? {
      CallListFound(t.role, i, t.calls, m["tool_calls"].items, 0);
    }
  }

  lemma {:induction false} InputItemFound(i: nat, t: Turn, item: Json)
    requires item.Obj? && SpellsItem(t, item.fields)
    ensures SegmentsOf(ItemProse(Responses, i, item)) == TurnSpoken(t, i)
  {
    var m := item.fields;
    if "role" in m {
      if t != SILENT { ContentInFound(Responses, t.role, i, t.saying, m, "content"); }
    } else if Says(m, "type", "function_call_output") {
      SegmentsOfOne("tool", i, Piece(StringIn(m, "output"), false));
    } else if Says(m, "type", "function_call") && "arguments" in m {
      SegmentsOfOne("assistant", i, Arguments(m["arguments"]));
      assert CallsSpoken(t.calls, 1) == [];
    }
  }

  lemma {:induction false} TurnFound(ep: Endpoint, i: nat, t: Turn, item: Json)
    requires SpellsTurn(ep, t, item)
    ensures SegmentsOf(ItemProse(ep, i, item)) == TurnSpoken(t, i)
    ensures ep != Responses ==> MessageDecodes(ep, item)
  {
    if item.Obj? {
      if ep == Responses { InputItemFound(i, t, item); } else { MessageFound(ep, i, t, item); }
    } else {
      SilentProse(ep, i, item);
    }
  }

  lemma {:induction false} SilentProse(ep: Endpoint, i: nat, item: Json)
    requires item.Null?
    ensures ItemProse(ep, i, item) == [] && TurnSpoken(SILENT, i) == []
    ensures ep != Responses ==> MessageDecodes(ep, item)
  {}

  lemma {:induction false} TurnsFound(ep: Endpoint, turns: seq<Turn>, items: seq<Json>, i: nat)
    requires |turns| == |items| && i <= |items|
    requires forall k :: i <= k < |items| ==> SegmentsOf(ItemProse(ep, k, items[k])) == TurnSpoken(turns[k], k)
    ensures SegmentsOf(ItemsProse(ep, items, i)) == TurnsSpoken(turns, i)
    decreases |items| - i
  {
    if i < |items| {
      TurnsFound(ep, turns, items, i + 1);
      SegmentsOfBoth(ItemProse(ep, i, items[i]), ItemsProse(ep, items, i + 1));
    }
  }

  lemma {:induction false} AllTurnsFound(ep: Endpoint, turns: seq<Turn>, items: seq<Json>)
    requires SpellsTurns(ep, turns, items)
    ensures SegmentsOf(ItemsProse(ep, items, 0)) == TurnsSpoken(turns, 0)
    ensures ep != Responses ==> forall k :: 0 <= k < |items| ==> MessageDecodes(ep, items[k])
  {
    forall k | 0 <= k < |items|
      ensures SegmentsOf(ItemProse(ep, k, items[k])) == TurnSpoken(turns[k], k)
      ensures ep != Responses ==> MessageDecodes(ep, items[k])
    {
      TurnFound(ep, k, turns[k], items[k]);
    }
    TurnsFound(ep, turns, items, 0);
  }

  lemma {:induction false} MessagesFound(ep: Endpoint, c: Conversation, body: Json)
    requires ep != Responses && SpellsBody(ep, c, body)
    ensures Decodes(ep, body) && SegmentsOf(ProseIn(ep, body.fields)) == AllSpoken(c)
  {
    var m := body.fields;
    AllTurnsFound(ep, c.turns, m["messages"].items);
    if ep == Anthropic {
      ContentInFound(ep, "system", -1, c.system, m, "system");
      SegmentsOfBoth(Located("system", -1, ContentIn(ep, m, "system")), ItemsProse(ep, MessagesIn(m), 0));
    }
  }

  lemma {:induction false} InputFound(turns: seq<Turn>, m: map<string, Json>)
    requires if "input" in m then SpellsInput(turns, m["input"]) else turns == []
    ensures SegmentsOf(InputProse(m)) == TurnsSpoken(turns, 0)
  {
    if "input" in m {
      var j := m["input"];
      if j.Str? {
        SegmentsOfOne("user", 0, Piece(j.value, false));
        assert TurnsSpoken(turns, 1) == [] && CallsSpoken([], 0) == [];
      } else if j.Null? {
        SegmentsOfOne("user", 0, Piece("", false));
      } else if j.Arr? && Objects(j.items) {
        AllTurnsFound(Responses, turns, j.items);
      }
    }
  }

  lemma {:induction false} InputBodyFound(c: Conversation, body: Json)
    requires SpellsBody(Responses, c, body)
    ensures Decodes(Responses, body) && SegmentsOf(ProseIn(Responses, body.AsObject().value)) == AllSpoken(c)
  {
    var m := body.AsObject().value;
    var instructions := StringIn(m, "instructions");
    InputFound(c.turns, m);
    SegmentsOfOne("system", -1, Piece(instructions, false));
    SegmentsOfBoth(Located("system", -1, [Piece(instructions, false)]), InputProse(m));
  }

  // ----- every body that parses spells a conversation

  function ReadContent(ep: Endpoint, j: Json): (s: Saying)
    ensures Spells(ep, s, j)
    decreases j
  {
    if j.Str? then Words(j.value)
    else if j.Arr? && Objects(j.items) then
      Parts(seq(|j.items|, i requires 0 <= i < |j.items| => ReadPart(ep, j.items[i])))
    else Unread
  }

  function ReadPart(ep: Endpoint, b: Json): (p: Part)
    ensures SpellsPart(ep, p, b)
    decreases b
  {
    if HasText(ep, b) then Written(b.fields["text"].value)
    else if HasInput(ep, b) then Used(b.fields["input"].raw)
    else if HasResult(ep, b) then Answer(ReadContent(ep, b.fields["content"]))
    else Aside
  }

  function ReadIn(ep: Endpoint, m: map<string, Json>, key: string): (s: Saying)
    ensures SpellsIn(ep, s, m, key)
  {
    if key in m then ReadContent(ep, m[key]) else Unread
  }

  function ReadArguments(j: Json): (a: string)
    ensures SpellsArguments(a, j)
  {
    if j.Str? then j.value else if j.Null? then "" else j.raw
  }

  function ReadCall(j: Json): (c: Call)
    requires ToolCallDecodes(j)
    ensures SpellsCall(c, j)
  {
    if HasArguments(j) then Asked(ReadArguments(j.fields["function"].fields["arguments"])) else NotAsked
  }

  function ReadCalls(m: map<string, Json>): (calls: seq<Call>)
    requires MessageDecodes(Chat, Obj("", m))
    ensures SpellsCalls(calls, m)
  {
    if "tool_calls" in m && m["tool_calls"].Arr? then
      var items := m["tool_calls"].items;
      seq(|items|, i requires 0 <= i < |items| => ReadCall(items[i]))
    else []
  }

  function ReadTurn(ep: Endpoint, item: Json): (t: Turn)
    requires if ep == Responses then item.AsObject().Some? else MessageDecodes(ep, item)
    ensures SpellsTurn(ep, t, item)
  {
    if item.Null? then SILENT
    else if ep == Responses then ReadItem(item.fields)
    else
      Turn(StringIn(item.fields, "role"), ReadIn(ep, item.fields, "content"),
           if ep == Chat then ReadCalls(item.fields) else [])
  }

  function ReadItem(m: map<string, Json>): (t: Turn)
    ensures SpellsItem(t, m)
  {
    if "role" in m then
      if m["role"].Str? && m["role"].value != "" then Turn(m["role"].value, ReadIn(Responses, m, "content"), [])
      else SILENT
    else if Says(m, "type", "function_call_output") && "output" in m && m["output"].Str? then
      Turn("tool", Words(m["output"].value), [])
    else if Says(m, "type", "function_call") && "arguments" in m then
      Turn("assistant", Unread, [Asked(ReadArguments(m["arguments"]))])
    else SILENT
  }

  function ReadTurns(ep: Endpoint, items: seq<Json>): (turns: seq<Turn>)
    requires forall i :: 0 <= i < |items| ==>
               if ep == Responses then items[i].AsObject().Some? else MessageDecodes(ep, items[i])
    ensures SpellsTurns(ep, turns, items)
  {
    seq(|items|, i requires 0 <= i < |items| => ReadTurn(ep, items[i]))
  }

  lemma {:induction false} BodyIsRead(ep: Endpoint, body: Json)
    requires Decodes(ep, body)
    ensures exists c :: SpellsBody(ep, c, body)
  {
    var m := body.AsObject().value;
    if ep == Responses {
      var system := if "instructions" in m && m["instructions"].Str? then Words(m["instructions"].value) else Unread;
      var turns := if "input" !in m then []
                   else if m["input"].Str? then [Turn("user", Words(m["input"].value), [])]
                   else if m["input"].Arr? && Objects(m["input"].items) then ReadTurns(ep, m["input"].items)
                   else [];
      assert SpellsBody(ep, Conversation(system, turns), body);
    } else {
      var system := if ep == Anthropic then ReadIn(ep, m, "system") else Unread;
      assert SpellsBody(ep, Conversation(system, ReadTurns(ep, m["messages"].items)), body);
    }
  }

  // ----- the parser

  /** The names under which an endpoint is reached, and by which it is reported. */
  predicate Reached(ep: Endpoint, host: string, path: string) {
    match ep
    case Anthropic => host == "api.anthropic.com" && path == "/v1/messages"
    case Chat => host == "api.openai.com" && path == "/v1/chat/completions"
    case Responses => host == "api.openai.com" && path == "/v1/responses"
  }

  function Reported(ep: Endpoint, texts: seq<TextSegment>): Parsed {
    match ep
    case Anthropic => Request("anthropic", "messages", texts)
    case Chat => Request("openai", "chat.completions", texts)
    case Responses => Request("openai", "responses", texts)
  }

  lemma {:induction false} BodyFound(ep: Endpoint, c: Conversation, body: Json)
    requires SpellsBody(ep, c, body)
    ensures BodyProse(ep, body).Some? && SegmentsOf(BodyProse(ep, body).value) == AllSpoken(c)
  {
    if ep == Responses { InputBodyFound(c, body); } else { MessagesFound(ep, c, body); }
  }

  /** The parser, for every request: what is not a POST to one of the three
      endpoints it does not recognise; a body that spells a conversation gives
      exactly the texts of that conversation, in order; and a body is malformed
      exactly when it is not JSON or spells none. */
  lemma {:induction false} ParseExactly(ep: Endpoint, host: string, verb: string, path: string, body: Option<Json>)
    ensures Parse(host, verb, path, body) == NotRecognised <==>
            verb != "POST" || forall e: Endpoint :: !Reached(e, host, path)
    ensures verb == "POST" && Reached(ep, host, path) ==>
            && (Parse(host, verb, path, body) == Malformed <==>
                body.None? || forall c :: !SpellsBody(ep, c, body.value))
            && forall c :: body.Some? && SpellsBody(ep, c, body.value) ==>
                Parse(host, verb, path, body) == Reported(ep, AllSpoken(c))
  {
    assert EndpointOf(host, path) == None <==> forall e: Endpoint :: !Reached(e, host, path) by {
      EndpointsReached(host, path);
    }
    if verb == "POST" && Reached(ep, host, path) && body.Some? {
      EndpointsReached(host, path);
      if Decodes(ep, body.value) { BodyIsRead(ep, body.value); }
      forall c | SpellsBody(ep, c, body.value) ensures Parse(host, verb, path, body) == Reported(ep, AllSpoken(c)) {
        BodyFound(ep, c, body.value);
      }
    }
  }

  lemma {:induction false} EndpointsReached(host: string, path: string)
    ensures forall e: Endpoint :: Reached(e, host, path) <==> EndpointOf(host, path) == Some(e)
  {
    assert "api.anthropic.com" != "api.openai.com" by { assert |"api.anthropic.com"| != |"api.openai.com"|; }
    assert "/v1/chat/completions" != "/v1/responses" by { assert |"/v1/chat/completions"| != |"/v1/responses"|; }
  }

  // ----- the redactor looks at the same texts

  /** The texts a walk looks at, without the empty ones. */
  function TextsSeen(visits: seq<Visit>): seq<TextSegment> {
    if visits == [] then [] else TextSeen(visits[0]) + TextsSeen(visits[1..])
  }

  function TextSeen(v: Visit): seq<TextSegment> {
    if v.segment.content == "" then [] else [v.segment]
  }

  lemma {:induction false} TextsSeenSplit(a: seq<Visit>, b: seq<Visit>)
    requires a != []
    ensures TextsSeen(a + b) == TextSeen(a[0]) + TextsSeen(a[1..] + b)
  {
    assert (a + b)[0] == a[0] && (a + b)[1..] == a[1..] + b;
  }

  lemma {:induction false} TextsSeenAppend(a: seq<Visit>, b: seq<Visit>)
    ensures TextsSeen(a + b) == TextsSeen(a) + TextsSeen(b)
  {
    if a == [] {
      assert a + b == b;
    } else {
      TextsSeenAppend(a[1..], b);
      TextsSeenSplit(a, b);
      Joining(TextSeen(a[0]), TextsSeen(a[1..]), TextsSeen(b));
    }
  }

  /** What the redactor sees among some looks. */
  function Seeing(role: string, index: int, looks: seq<Look>): seq<TextSegment> {
    TextsSeen(At(role, index, looks))
  }

  lemma {:induction false} SeeingAppend(role: string, index: int, a: seq<Look>, b: seq<Look>)
    ensures Seeing(role, index, a + b) == Seeing(role, index, a) + Seeing(role, index, b)
  {
    AtAppend(role, index, a, b);
    TextsSeenAppend(At(role, index, a), At(role, index, b));
  }

  lemma {:induction false} SeeingOne(role: string, index: int, look: Look)
    ensures Seeing(role, index, [look]) == SaidBy(role, index, OneText(look.text))
  {
    var at := At(role, index, [look]);
    assert at == [Visit(TextSegment(role, index, look.text), look.json)];
    assert TextsSeen(at[1..]) == [];
    assert TextsSeen(at) == if look.text == "" then [] else [TextSegment(role, index, look.text)];
  }

  /** Content whose arrays hold objects only, with no tool blocks on the OpenAI
      endpoints: there the redactor walks into blocks the parser does not read. */
  predicate Plain(ep: Endpoint, j: Json) {
    j.Arr? ==> Objects(j.items) && forall i :: 0 <= i < |j.items| ==> PlainBlock(ep, j.items[i])
  }

  predicate PlainBlock(ep: Endpoint, b: Json) {
    b.Obj? ==>
      if ep != Anthropic then !Says(b.fields, "type", "tool_use") && !Says(b.fields, "type", "tool_result")
      else Says(b.fields, "type", "tool_result") && "content" in b.fields ==> Plain(ep, b.fields["content"])
  }

  predicate PlainIn(ep: Endpoint, m: map<string, Json>, key: string) {
    key in m ==> Plain(ep, m[key])
  }

  /** A tool call with arguments is of type function. */
  predicate PlainCall(call: Json) {
    var asks := call.Obj? && "function" in call.fields && call.fields["function"].Obj?
                && "arguments" in call.fields["function"].fields;
    asks ==> Says(call.fields, "type", "function")
  }

  predicate PlainItem(ep: Endpoint, item: Json) {
    item.Obj? ==>
      var m := item.fields;
      if ep == Responses && "role" !in m then
        Says(m, "type", "function_call_output") && "output" in m ==> !m["output"].Arr?
      else
        && PlainIn(ep, m, "content")
        && (ep == Chat && "tool_calls" in m && m["tool_calls"].Arr? ==>
              forall c :: 0 <= c < |m["tool_calls"].items| ==> PlainCall(m["tool_calls"].items[c]))
  }

  predicate PlainItems(ep: Endpoint, items: seq<Json>) {
    forall i :: 0 <= i < |items| ==> PlainItem(ep, items[i])
  }

  predicate PlainBody(ep: Endpoint, m: map<string, Json>) {
    && (ep == Anthropic ==> PlainIn(ep, m, "system"))
    && (ep != Responses && "messages" in m && m["messages"].Arr? ==> PlainItems(ep, m["messages"].items))
    && (ep == Responses && "input" in m && m["input"].Arr? ==>
          Objects(m["input"].items) && PlainItems(ep, m["input"].items))
  }

  lemma {:induction false} ContentAgrees(ep: Endpoint, role: string, index: int, j: Json)
    requires Plain(ep, j)
    ensures Segments(role, index, ContentOf(ep, j)) == Seeing(role, index, ContentLooks(ep, j))
    decreases j, 1
  {
    if j.Str? {
      SegmentsOfOne(role, index, Piece(j.value, false));
      SeeingOne(role, index, Look(j.value, false));
    } else if j.Null? {
      SeeingOne(role, index, Look("", false));
    } else if j.Arr? {
      BlocksAgree(ep, role, index, j, 0);
    }
  }

  lemma {:induction false} BlocksAgree(ep: Endpoint, role: string, index: int, j: Json, i: nat)
    requires j.Arr? && Plain(ep, j) && i <= |j.items|
    ensures Segments(role, index, BlockPieces(ep, j, i)) == Seeing(role, index, BlocksLooks(ep, j, i))
    decreases j, 0, |j.items| - i
  {
    if i < |j.items| {
      BlockAgrees(ep, role, index, j.items[i]);
      BlocksAgree(ep, role, index, j, i + 1);
      SegmentsAppend(role, index, OneBlock(ep, j.items[i]), BlockPieces(ep, j, i + 1));
      SeeingAppend(role, index, BlockLooks(ep, j.items[i]), BlocksLooks(ep, j, i + 1));
    }
  }

  lemma {:induction false} BlockAgrees(ep: Endpoint, role: string, index: int, b: Json)
    requires PlainBlock(ep, b)
    ensures Segments(role, index, OneBlock(ep, b)) == Seeing(role, index, BlockLooks(ep, b))
    decreases b, 2
  {
    if b.Obj? {
      match KindOf(ep, b.fields) {
        case Text =>
          SegmentsOfOne(role, index, Piece(StringIn(b.fields, "text"), false));
          SeeingOne(role, index, Look(StringIn(b.fields, "text"), false));
        case ToolUse =>
          if "input" in b.fields {
            SegmentsOfOne(role, index, Piece(b.fields["input"].raw, true));
            SeeingOne(role, index, Look(b.fields["input"].raw, true));
          }
        case ToolResult =>
          if "content" in b.fields { ContentAgrees(ep, role, index, b.fields["content"]); }
        case OtherBlock =>
      }
    }
  }

  lemma {:induction false} ContentInAgrees(ep: Endpoint, role: string, index: int, m: map<string, Json>, key: string)
    requires PlainIn(ep, m, key)
    ensures Segments(role, index, ContentIn(ep, m, key)) == Seeing(role, index, FieldLooks(ep, m, key))
  {
    if key in m { ContentAgrees(ep, role, index, m[key]); }
  }

  lemma {:induction false} ArgumentsAgree(role: string, index: int, args: Json)
    requires args.raw != ""
    ensures Segments(role, index, [Arguments(args)]) == Seeing(role, index, ArgumentsLooks(args))
  {
    SegmentsOfOne(role, index, Arguments(args));
    SeeingOne(role, index, Look(Arguments(args).text, true));
  }

  lemma {:induction false} CallAgrees(role: string, index: int, call: Json)
    requires WellFormed(call) && PlainCall(call)
    ensures Segments(role, index, ToolCallPieces(call)) == Seeing(role, index, ToolCallLooks(call))
  {
    if call.Obj? && "arguments" in FunctionOf(call.fields) {
      WellFormedField(call, "function");
      WellFormedField(call.fields["function"], "arguments");
      ArgumentsAgree(role, index, FunctionOf(call.fields)["arguments"]);
    }
  }

  lemma {:induction false} CallsAgree(role: string, index: int, calls: seq<Json>, i: nat)
    requires i <= |calls| && forall c :: 0 <= c < |calls| ==> WellFormed(calls[c]) && PlainCall(calls[c])
    ensures Segments(role, index, ToolCallsPieces(calls, i)) == Seeing(role, index, ToolCallsLooks(calls, i))
    decreases |calls| - i
  {
    if i < |calls| {
      CallAgrees(role, index, calls[i]);
      CallsAgree(role, index, calls, i + 1);
      SegmentsAppend(role, index, ToolCallPieces(calls[i]), ToolCallsPieces(calls, i + 1));
      SeeingAppend(role, index, ToolCallLooks(calls[i]), ToolCallsLooks(calls, i + 1));
    }
  }

  lemma {:induction false} MessageAgrees(ep: Endpoint, i: nat, item: Json)
    requires ep != Responses && WellFormed(item) && item.Obj? && PlainItem(ep, item)
    ensures SegmentsOf(ItemProse(ep, i, item)) == TextsSeen(ItemVisits(ep, i, item))
  {
    var m, role := item.fields, StringIn(item.fields, "role");
    ContentInAgrees(ep, role, i, m, "content");
    if ep == Chat {
      var calls := if "tool_calls" in m then ToolCallArrayLooks(m["tool_calls"]) else [];
      if "tool_calls" in m && m["tool_calls"].Arr? {
        WellFormedField(item, "tool_calls");
        CallsAgree(role, i, m["tool_calls"].items, 0);
      }
      SegmentsOfBoth(Located(role, i, ContentIn(ep, m, "content")), Located(role, i, CallsIn(m)));
      TextsSeenAppend(At(role, i, FieldLooks(ep, m, "content")), At(role, i, calls));
    }
  }

  lemma {:induction false} InputItemAgrees(i: nat, item: Json)
    requires WellFormed(item) && item.Obj? && PlainItem(Responses, item)
    ensures SegmentsOf(ItemProse(Responses, i, item)) == TextsSeen(ItemVisits(Responses, i, item))
  {
    var m := item.fields;
    if "role" in m {
      ContentInAgrees(Responses, StringIn(m, "role"), i, m, "content");
    } else if StringIn(m, "type") == "function_call_output" {
      StringAgrees("tool", i, m, "output");
    } else if "arguments" in m {
      WellFormedField(item, "arguments");
      ArgumentsAgree("assistant", i, m["arguments"]);
    }
  }

  /** Where the parser takes nothing but a string. */
  lemma {:induction false} StringAgrees(role: string, index: int, m: map<string, Json>, key: string)
    requires key in m ==> !m[key].Arr?
    ensures Segments(role, index, [Piece(StringIn(m, key), false)])
            == Seeing(role, index, FieldLooks(Responses, m, key))
  {
    SegmentsOfOne(role, index, Piece(StringIn(m, key), false));
    SeeingOne(role, index, Look(StringIn(m, key), false));
  }

  lemma {:induction false} ItemAgrees(ep: Endpoint, i: nat, item: Json)
    requires WellFormed(item) && PlainItem(ep, item)
    ensures SegmentsOf(ItemProse(ep, i, item)) == TextsSeen(ItemVisits(ep, i, item))
  {
    if item.Obj? {
      if ep == Responses { InputItemAgrees(i, item); } else { MessageAgrees(ep, i, item); }
    } else if item.Null? {
      SilentProse(ep, i, item);
    }
  }

  lemma {:induction false} ItemsAgree(ep: Endpoint, items: seq<Json>, i: nat)
    requires i <= |items|
    requires forall k :: i <= k < |items| ==>
               SegmentsOf(ItemProse(ep, k, items[k])) == TextsSeen(ItemVisits(ep, k, items[k]))
    ensures SegmentsOf(ItemsProse(ep, items, i)) == TextsSeen(ItemsVisits(ep, items, i))
    decreases |items| - i
  {
    if i < |items| {
      ItemsAgree(ep, items, i + 1);
      SegmentsOfBoth(ItemProse(ep, i, items[i]), ItemsProse(ep, items, i + 1));
      TextsSeenAppend(ItemVisits(ep, i, items[i]), ItemsVisits(ep, items, i + 1));
    }
  }

  lemma {:induction false} AllItemsAgree(ep: Endpoint, j: Json)
    requires WellFormed(j) && j.Arr? && PlainItems(ep, j.items)
    ensures SegmentsOf(ItemsProse(ep, j.items, 0)) == TextsSeen(ItemsVisits(ep, j.items, 0))
  {
    forall k | 0 <= k < |j.items|
      ensures SegmentsOf(ItemProse(ep, k, j.items[k])) == TextsSeen(ItemVisits(ep, k, j.items[k]))
    {
      ItemAgrees(ep, k, j.items[k]);
    }
    ItemsAgree(ep, j.items, 0);
  }

  lemma {:induction false} MainAgrees(ep: Endpoint, body: Json)
    requires WellFormed(body) && body.Obj? && Decodes(ep, body) && PlainBody(ep, body.fields)
    ensures var m := body.fields;
            SegmentsOf(if ep == Responses then InputProse(m) else ItemsProse(ep, MessagesIn(m), 0))
            == TextsSeen(if BodyKey(ep) in m then MainVisits(ep, m[BodyKey(ep)]) else [])
  {
    var m := body.fields;
    if BodyKey(ep) in m {
      var j := m[BodyKey(ep)];
      WellFormedField(body, BodyKey(ep));
      if ep == Responses && j.AsString().Some? {
        SegmentsOfOne("user", 0, Piece(j.AsString().value, false));
        SeeingOne("user", 0, Look(j.AsString().value, false));
      } else if j.Arr? {
        AllItemsAgree(ep, j);
      }
    }
  }

  /** On a plain body the parser finds every text that the redactor looks at: the
      segments of the one are the texts of the other that are not empty, with the
      same roles and indices and in the same order. */
  lemma {:induction false} NothingIsOverlooked(ep: Endpoint, body: Json)
    requires WellFormed(body) && BodyProse(ep, body).Some? && body.Obj? && PlainBody(ep, body.fields)
    ensures SegmentsOf(BodyProse(ep, body).value) == TextsSeen(TopVisits(ep, body.fields))
  {
    var m := body.fields;
    MainAgrees(ep, body);
    var main := if BodyKey(ep) in m then MainVisits(ep, m[BodyKey(ep)]) else [];
    TextsSeenAppend(HeadVisits(ep, m), main);
    match ep {
      case Anthropic =>
        ContentInAgrees(ep, "system", -1, m, "system");
        SegmentsOfBoth(Located("system", -1, ContentIn(ep, m, "system")), ItemsProse(ep, MessagesIn(m), 0));
      case Chat =>
      case Responses =>
        StringAgrees("system", -1, m, "instructions");
        SegmentsOfBoth(Located("system", -1, [Piece(StringIn(m, "instructions"), false)]), InputProse(m));
    }
  }

  /** Where the redactor looks at more: in the arguments of a tool call of another
      type, in an array that holds something else than objects, in a tool block on an
      OpenAI endpoint, and in the blocks of a call's output. */
  lemma {:induction false} OnlyTheRedactorLooks(ep: Endpoint, call: Json, content: Json, block: Json, item: Json,
                                                i: nat)
    ensures call.Obj? && !Says(call.fields, "type", "function")
            ==> ToolCallPieces(call) == []
                && ("arguments" in FunctionOf(call.fields) && FunctionOf(call.fields)["arguments"].raw != ""
                    ==> ToolCallLooks(call) == [Look(Arguments(FunctionOf(call.fields)["arguments"]).text, true)])
    ensures content.Arr? && !Objects(content.items)
            ==> ContentOf(ep, content) == [] && ContentLooks(ep, content) == BlocksLooks(ep, content, 0)
    ensures ep != Anthropic && block.Obj? && Says(block.fields, "type", "tool_use")
            ==> OneBlock(ep, block) == []
                && ("input" in block.fields && block.fields["input"].raw != ""
                    ==> BlockLooks(ep, block) == [Look(block.fields["input"].raw, true)])
    ensures ep != Anthropic && block.Obj? && Says(block.fields, "type", "tool_result")
            ==> OneBlock(ep, block) == []
                && ("content" in block.fields ==> BlockLooks(ep, block) == ContentLooks(ep, block.fields["content"]))
    ensures IsOutputOfBlocks(item)
            ==> SegmentsOf(ItemProse(Responses, i, item)) == []
                && ItemVisits(Responses, i, item) == At("tool", i, BlocksLooks(Responses, item.fields["output"], 0))
  {
    SegmentsOfOne("tool", i, Piece("", false));
    SegmentsOfOne("assistant", i, Piece("", false));
  }

  predicate IsOutputOfBlocks(item: Json) {
    && item.Obj? && "role" !in item.fields && Says(item.fields, "type", "function_call_output")
    && "output" in item.fields && item.fields["output"].Arr?
  }
}
