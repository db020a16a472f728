/** JSON documents as the proxy sees them, and what it takes from Go's libraries.

    A document is the value that encoding/json would decode, where every value
    also keeps `raw`, its own text on the wire (a json.RawMessage is that text):
    tool inputs are scanned and masked as raw text. */
module Wire {
  import opened Basics
  import opened Spans

  datatype Json =
    | Null(raw: string)
    | Scalar(raw: string)
    | Str(raw: string, value: string)
    | Arr(raw: string, items: seq<Json>)
    | Obj(raw: string, fields: map<string, Json>)
  {
    /** json.Unmarshal into a string: null decodes without an error and leaves it empty. */
    function AsString(): Option<string> {
      match this
      case Null(_) => Some("")
      case Str(_, v) => Some(v)
      case _ => None
    }

    /** json.Unmarshal into a slice. */
    function AsArray(): Option<seq<Json>> {
      match this
      case Null(_) => Some([])
      case Arr(_, items) => Some(items)
      case _ => None
    }

    /** json.Unmarshal into a map. */
    function AsObject(): Option<map<string, Json>> {
      match this
      case Null(_) => Some(map[])
      case Obj(_, fields) => Some(fields)
      case _ => None
    }

    /** The kind of a JSON value shows in the first byte of its text, which is not a blank one. */
    predicate KindShows() {
      raw != "" && !Blank(raw[0]) && (Null? <==> raw[0] == 'n') && (Str? <==> raw[0] == '"')
    }
  }

  /** The bytes that JSON allows around a value. */
  predicate Blank(c: char) {
    c == ' ' || c == '\t' || c == '\n' || c == '\r'
  }

  /** A decoded document: a json.RawMessage inside one begins with its value, and
      the text of the whole is taken without the blanks around it. */
  ghost predicate WellFormed(j: Json) {
    && j.KindShows()
    && match j
       case Arr(_, items) => forall i :: 0 <= i < |items| ==> WellFormed(items[i])
       case Obj(_, fields) => forall k :: k in fields ==> WellFormed(fields[k])
       case _ => true
  }

  /** The string under a key; empty when absent or not a string, as where the
      code ignores the decoding error. */
  function StringIn(fields: map<string, Json>, key: string): string {
    if key in fields then
      match fields[key].AsString() case Some(s) => s case None => ""
    else ""
  }

  /** What the redactor uses of Go's libraries. `text` is the wire text json.Marshal
      gives a rebuilt value, `compact` what it makes of an embedded json.RawMessage,
      `decode` reads a text as JSON, and `sortSpans` is sort.Slice by descending offset. */
  datatype Library = Library(
    sortSpans: seq<Span> -> seq<Span>,
    text: Json -> string,
    compact: string -> string,
    decode: string -> Option<Json>)
  {
    ghost predicate Lawful() {
      && (forall spans :: IsOrdering(spans, sortSpans(spans)))
      && (forall t :: compact(t) == "" <==> t == "")
      && (forall t :: t != "" && !Blank(t[0]) && decode(t).Some? ==> decode(t).value.(raw := t).KindShows())
    }

    /** json.Marshal of a rebuilt value. */
    function Encoded(j: Json): (r: Json)
      ensures r.(raw := j.raw) == j
    {
      j.(raw := text(j))
    }

    /** A text taken as a json.RawMessage, if it is valid JSON. */
    function Reparsed(t: string): Option<Json> {
      match decode(t)
      case Some(j) => Some(j.(raw := t))
      case None => None
    }

    /** The finished body: its values stay, their texts are compacted. */
    function Compacted(j: Json): (r: Json)
      ensures r.raw == compact(j.raw)
      ensures r.AsString() == j.AsString()
      ensures r.Arr? <==> j.Arr?
      ensures r.Arr? ==> |r.items| == |j.items| && forall i :: 0 <= i < |r.items| ==>
                r.items[i] == Compacted(j.items[i])
      ensures r.Obj? <==> j.Obj?
      ensures r.Obj? ==> r.fields.Keys == j.fields.Keys && forall k :: k in r.fields ==>
                r.fields[k] == Compacted(j.fields[k])
    {
      match j
      case Null(_) => Null(compact(j.raw))
      case Scalar(_) => Scalar(compact(j.raw))
      case Str(_, v) => Str(compact(j.raw), v)
      case Arr(_, items) =>
        Arr(compact(j.raw), seq(|items|, i requires 0 <= i < |items| => Compacted(items[i])))
      case Obj(_, fields) =>
        Obj(compact(j.raw), map k | k in fields :: Compacted(fields[k]))
    }
  }
}
