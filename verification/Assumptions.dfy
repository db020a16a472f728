/** What is assumed of Go's libraries can be met, by libraries that accept blanks
    around JSON and match bytes that begin no character.

    The library has an insertion sort and a decoder that skips leading blanks, the
    engine reports a match of the whole text or none. They are not Go's own; they
    show that no result here holds only because nothing can be what it asks for. */
module Assumptions {
  import opened Basics
  import opened Spans
  import opened Wire
  import opened Regex
  import Detector

  // ----- a sort by any key

  function Insert<T>(key: T -> int, x: T, sorted: seq<T>): seq<T> {
    if sorted == [] || key(x) <= key(sorted[0]) then [x] + sorted else [sorted[0]] + Insert(key, x, sorted[1..])
  }

  function SortBy<T>(key: T -> int, s: seq<T>): seq<T> {
    if s == [] then [] else Insert(key, s[0], SortBy(key, s[1..]))
  }

  ghost predicate Ascending<T>(key: T -> int, s: seq<T>) {
    forall i, j :: 0 <= i < j < |s| ==> key(s[i]) <= key(s[j])
  }

  lemma {:induction false} InsertKeeps<T>(key: T -> int, x: T, sorted: seq<T>)
    ensures multiset(Insert(key, x, sorted)) == multiset{x} + multiset(sorted)
  {
    if sorted != [] && key(x) > key(sorted[0]) {
      InsertKeeps(key, x, sorted[1..]);
      assert sorted == [sorted[0]] + sorted[1..];
    }
  }

  lemma {:induction false} InsertSorts<T>(key: T -> int, x: T, sorted: seq<T>)
    requires Ascending(key, sorted)
    ensures Ascending(key, Insert(key, x, sorted))
  {
    if sorted != [] && key(x) > key(sorted[0]) {
      var inserted := Insert(key, x, sorted[1..]);
      InsertSorts(key, x, sorted[1..]);
      InsertKeeps(key, x, sorted[1..]);
      forall i | 0 <= i < |inserted| ensures key(sorted[0]) <= key(inserted[i]) {
        assert inserted[i] in multiset(inserted);
        assert inserted[i] == x || inserted[i] in sorted[1..];
      }
    }
  }

  lemma {:induction false} SortBySorts<T>(key: T -> int, s: seq<T>)
    ensures multiset(SortBy(key, s)) == multiset(s) && Ascending(key, SortBy(key, s))
  {
    if s != [] {
      SortBySorts(key, s[1..]);
      InsertSorts(key, s[0], SortBy(key, s[1..]));
      InsertKeeps(key, s[0], SortBy(key, s[1..]));
      assert s == [s[0]] + s[1..];
    }
  }

  // ----- libraries that meet the assumptions

  function Trimmed(t: string): string {
    if t != "" && Blank(t[0]) then Trimmed(t[1..]) else t
  }

  /** The kind of value a text begins with, after any blanks. */
  function Kind(t: string): Option<Json> {
    var u := Trimmed(t);
    if u == "" then None
    else if u[0] == 'n' then Some(Null(t))
    else if u[0] == '"' then Some(Str(t, u[1..]))
    else if u[0] == '[' then Some(Arr(t, []))
    else if u[0] == '{' then Some(Obj(t, map[]))
    else Some(Scalar(t))
  }

  function Leftwards(s: Span): int {
    -s.offset
  }

  /** A library with a decoder that skips leading blanks. */
  function SomeLibrary(): Library {
    Library((spans: seq<Span>) => SortBy(Leftwards, spans), (j: Json) => j.raw, (t: string) => t, Kind)
  }

  lemma {:induction false} LibrariesCanBeLawful()
    ensures SomeLibrary().Lawful()
  {
    forall spans: seq<Span> ensures IsOrdering(spans, SomeLibrary().sortSpans(spans)) {
      LeftwardsOrders(spans);
    }
    forall t: string | t != "" && !Blank(t[0])
      ensures SomeLibrary().decode(t).Some? && SomeLibrary().decode(t).value.(raw := t).KindShows()
    {
      KindOfPlain(t);
    }
  }

  /** It reads a text with a leading blank as JSON whenever it reads the text as JSON. */
  lemma {:induction false} BlanksAreAccepted(t: string)
    requires t != "" && !Blank(t[0])
    ensures SomeLibrary().decode(t).Some? && SomeLibrary().decode(" " + t).Some?
  {
    KindOfPlain(t);
    KindSkipsBlanks(t);
  }

  lemma {:induction false} LeftwardsOrders(spans: seq<Span>)
    ensures IsOrdering(spans, SortBy(Leftwards, spans))
  {
    SortBySorts(Leftwards, spans);
    var sorted := SortBy(Leftwards, spans);
    forall i, j | 0 <= i < j < |sorted| ensures sorted[i].offset >= sorted[j].offset {
      assert Leftwards(sorted[i]) <= Leftwards(sorted[j]);
    }
  }

  lemma {:induction false} KindSkipsBlanks(t: string)
    requires t != "" && !Blank(t[0])
    ensures Kind(" " + t).Some?
  {
    var u := " " + t;
    assert u[0] == ' ' && u[1..] == t;
    assert Trimmed(u) == Trimmed(t) == t;
  }

  lemma {:induction false} KindOfPlain(t: string)
    requires t != "" && !Blank(t[0])
    ensures Kind(t).Some? && Kind(t).value.(raw := t).KindShows()
  {
    assert Trimmed(t) == t;
  }

  function Offset(f: Detector.Finding): int {
    f.offset
  }

  /** An engine that reports matches of whole texts. */
  ghost function SomeEngine(): Detector.Engine {
    Detector.Engine((r: Regex, t: string) => if Matches(r, t, 0, |t|) then [(0, |t|)] else [],
                    (p: Detector.Pattern, t: string) => true,
                    (fs: seq<Detector.Finding>) => SortBy(Offset, fs))
  }

  /** A complement matches a lone byte that begins no character. */
  lemma {:induction false} EnginesCanBeLawful()
    ensures SomeEngine().Lawful()
    ensures SomeEngine().findAll(Class([('a', 'a')], true, false), [200 as char]) == [(0, 1)]
  {
    var engine := SomeEngine();
    forall fs: seq<Detector.Finding>
      ensures multiset(engine.sortFindings(fs)) == multiset(fs) && Detector.ByOffset(engine.sortFindings(fs))
    {
      SortBySorts(Offset, fs);
      var sorted := engine.sortFindings(fs);
      forall i, j | 0 <= i < j < |sorted| ensures sorted[i].offset <= sorted[j].offset {
        assert Offset(sorted[i]) <= Offset(sorted[j]);
      }
    }
    var lone := [200 as char];
    assert lone[0..1] == lone;
    assert Matches(Class([('a', 'a')], true, false), lone, 0, 1);
  }
}
