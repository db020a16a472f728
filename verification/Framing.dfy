/** Newline-delimited JSON: the batch bodies of internal/audit/httpsink.go and the
    line splitter of cmd/runveil/logs.go. */
module Framing {
  /** bytes.Join with a newline between the lines. */
  function Join(lines: seq<string>): string {
    if lines == [] then ""
    else if |lines| == 1 then lines[0]
    else lines[0] + "\n" + Join(lines[1..])
  }

  /** The body of one batch. */
  function BatchBody(lines: seq<string>): string {
    Join(lines) + "\n"
  }

  /** bytes.Split at every newline. */
  function Split(data: string): seq<string>
    decreases |data|
  {
    SplitFrom(data, 0)
  }

  /** The pieces of a text whose first i characters hold no newline. */
  function SplitFrom(data: string, i: nat): seq<string>
    requires i <= |data|
    decreases |data|, |data| - i
  {
    if i == |data| then [data]
    else if data[i] == '\n' then [data[..i]] + SplitFrom(data[i + 1..], 0)
    else SplitFrom(data, i + 1)
  }

  /** The pieces that look like JSON objects, and how many others are not empty. */
  function JsonLines(pieces: seq<string>): (seq<string>, nat) {
    if pieces == [] then ([], 0)
    else
      var (lines, skipped) := JsonLines(pieces[..|pieces| - 1]);
      var piece := pieces[|pieces| - 1];
      if piece == "" then (lines, skipped)
      else if piece[0] != '{' then (lines, skipped + 1)
      else (lines + [piece], skipped)
  }

  method ParseAuditLines(data: string) returns (lines: seq<string>, skipped: nat)
    ensures (lines, skipped) == JsonLines(Split(data))
  {
    lines, skipped := [], 0;
    var pieces := Split(data);
    var i := 0;
    while i < |pieces|
      invariant 0 <= i <= |pieces|
      invariant (lines, skipped) == JsonLines(pieces[..i])
    {
      assert pieces[..i + 1][..i] == pieces[..i];
      var line := pieces[i];
      i := i + 1;
      if |line| == 0 {
        continue;
      }
      if line[0] != '{' {
        skipped := skipped + 1;
        continue;
      }
      lines := lines + [line];
    }
    assert pieces[..i] == pieces;
  }

  // ----- the round trip

  predicate IsRecord(line: string) {
    line != "" && line[0] == '{' && forall i :: 0 <= i < |line| ==> line[i] != '\n'
  }

  ghost predicate AllRecords(lines: seq<string>) {
    forall i :: 0 <= i < |lines| ==> IsRecord(lines[i])
  }

  /** Every line with its newline. */
  function Terminated(lines: seq<string>): string {
    if lines == [] then "" else lines[0] + "\n" + Terminated(lines[1..])
  }

  lemma {:induction false} BodyIsTerminated(lines: seq<string>)
    requires lines != []
    ensures BatchBody(lines) == Terminated(lines)
  {
    if |lines| > 1 {
      BodyIsTerminated(lines[1..]);
    } else {
      assert lines[1..] == [];
    }
  }

  lemma {:induction false} TerminatedAppend(a: seq<string>, b: seq<string>)
    ensures Terminated(a + b) == Terminated(a) + Terminated(b)
  {
    if a == [] {
      assert a + b == b;
    } else {
      TerminatedAppend(a[1..], b);
      assert (a + b)[1..] == a[1..] + b;
    }
  }

  lemma {:induction false} SplitSkips(line: string, rest: string, i: nat)
    requires i <= |line| && forall k :: 0 <= k < |line| ==> line[k] != '\n'
    ensures SplitFrom(line + "\n" + rest, i) == [line] + Split(rest)
    decreases |line| - i
  {
    var data := line + "\n" + rest;
    if i == |line| {
      assert data[..i] == line && data[i + 1..] == rest;
    } else {
      SplitSkips(line, rest, i + 1);
    }
  }

  ghost predicate NoNewlines(lines: seq<string>) {
    forall i, k :: 0 <= i < |lines| && 0 <= k < |lines[i]| ==> lines[i][k] != '\n'
  }

  lemma {:induction false} SplitTerminated(lines: seq<string>)
    requires NoNewlines(lines)
    ensures Split(Terminated(lines)) == lines + [""]
  {
    if lines != [] {
      assert NoNewlines(lines[1..]);
      SplitTerminated(lines[1..]);
      SplitSkips(lines[0], Terminated(lines[1..]), 0);
      assert [lines[0]] + (lines[1..] + [""]) == lines + [""];
    }
  }

  lemma {:induction false} RecordsAreKept(lines: seq<string>)
    requires AllRecords(lines)
    ensures JsonLines(lines) == (lines, 0)
  {
    if lines != [] {
      var front := lines[..|lines| - 1];
      RecordsAreKept(front);
      assert IsRecord(lines[|lines| - 1]);
      assert front + [lines[|lines| - 1]] == lines;
    }
  }

  /** All the lines of some batches, in order. */
  function AllLines(batches: seq<seq<string>>): seq<string> {
    if batches == [] then [] else AllLines(batches[..|batches| - 1]) + batches[|batches| - 1]
  }

  function AllBodies(batches: seq<seq<string>>): string {
    if batches == [] then "" else AllBodies(batches[..|batches| - 1]) + BatchBody(batches[|batches| - 1])
  }

  ghost predicate GoodBatches(batches: seq<seq<string>>) {
    forall i :: 0 <= i < |batches| ==> batches[i] != [] && AllRecords(batches[i])
  }

  lemma {:induction false} BodiesAreTerminated(batches: seq<seq<string>>)
    requires GoodBatches(batches)
    ensures AllBodies(batches) == Terminated(AllLines(batches)) && AllRecords(AllLines(batches))
  {
    if batches != [] {
      var front, last := batches[..|batches| - 1], batches[|batches| - 1];
      assert last != [] && AllRecords(last);
      BodiesAreTerminated(front);
      BodyIsTerminated(last);
      TerminatedAppend(AllLines(front), last);
    }
  }

  /** Whatever batches the sink posts, one after the other, splitting what was
      posted gives back exactly their lines, with none skipped. */
  lemma {:induction false} PostedLinesComeBack(batches: seq<seq<string>>)
    requires GoodBatches(batches)
    ensures JsonLines(Split(AllBodies(batches))) == (AllLines(batches), 0)
  {
    var lines := AllLines(batches);
    BodiesAreTerminated(batches);
    forall i, k | 0 <= i < |lines| && 0 <= k < |lines[i]| ensures lines[i][k] != '\n' {
      assert IsRecord(lines[i]);
    }
    SplitTerminated(lines);
    RecordsAreKept(lines);
    assert (lines + [""])[..|lines|] == lines;
  }

  // ----- any lines at all

  predicate LooksLikeJson(line: string) {
    line != "" && line[0] == '{'
  }

  /** One line is kept if it looks like JSON, counted if it is anything else, and
      passed over if it is empty. */
  lemma {:induction false} OneLine(line: string)
    ensures JsonLines([line]).0 == (if LooksLikeJson(line) then [line] else [])
    ensures JsonLines([line]).1 == (if line == "" || LooksLikeJson(line) then 0 else 1)
  {
    assert [line][..0] == [];
    assert JsonLines([]) == ([], 0);
    var none: seq<string> := [];
    assert none + [line] == [line];
  }

  /** More lines add theirs, in order. */
  lemma {:induction false} MoreLines(a: seq<string>, b: seq<string>)
    ensures JsonLines(a + b).0 == JsonLines(a).0 + JsonLines(b).0
    ensures JsonLines(a + b).1 == JsonLines(a).1 + JsonLines(b).1
  {
    if b == [] {
      assert a + b == a;
    } else {
      var n := |b| - 1;
      MoreLines(a, b[..n]);
      assert (a + b)[..|a| + n] == a + b[..n] && (a + b)[|a| + n] == b[n];
    }
  }

  /** The places of the lines that are neither empty nor look like JSON. */
  function Noise(lines: seq<string>): set<nat> {
    set k: nat | k < |lines| && lines[k] != "" && !LooksLikeJson(lines[k])
  }

  lemma {:induction false} NoiseIsCounted(lines: seq<string>)
    ensures JsonLines(lines).1 == |Noise(lines)|
  {
    if lines == [] {
      assert Noise(lines) == {};
    } else {
      var n := |lines| - 1;
      NoiseIsCounted(lines[..n]);
      if lines[n] != "" && !LooksLikeJson(lines[n]) {
        assert Noise(lines) == Noise(lines[..n]) + {n};
      } else {
        assert Noise(lines) == Noise(lines[..n]);
      }
    }
  }

  /** Whatever lines a file holds: those before some line come back, then that line
      if it looks like JSON, then those after it; and the skipped ones are counted. */
  lemma {:induction false} LinesComeBack(before: seq<string>, line: string, after: seq<string>)
    requires NoNewlines(before + [line] + after)
    ensures var (kept, skipped) := JsonLines(Split(Terminated(before + [line] + after)));
            && kept == JsonLines(before).0 + (if LooksLikeJson(line) then [line] else []) + JsonLines(after).0
            && skipped == |Noise(before + [line] + after)|
  {
    var lines := before + [line] + after;
    SplitTerminated(lines);
    assert (lines + [""])[..|lines|] == lines;
    OneLine(line);
    MoreLines(before, [line]);
    MoreLines(before + [line], after);
    NoiseIsCounted(lines);
  }
}
