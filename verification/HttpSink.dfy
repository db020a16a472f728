/** The batching goroutine of internal/audit/httpsink.go.

    One object owns the current lines, the retry buffer, the backoff and the
    retry timer. The ghost fields record the whole run: what was ingested, every
    batch that was finalized, what became of each, and when POSTs were made. */
module HttpSink {
  import opened Basics
  import opened Framing

  /** maxSinkBackoff, in nanoseconds; an int64 holds durations up to INT64_MAX. */
  const MAX_BACKOFF: int := 60_000_000_000
  const INT64_MAX: int := 0x7fff_ffff_ffff_ffff

  // ----- the backoff schedule

  /** The delay after k consecutive failures, by doubling and capping. */
  function Backoff(base: int, k: nat): int {
    if k == 0 then base
    else if 2 * Backoff(base, k - 1) > MAX_BACKOFF then MAX_BACKOFF else 2 * Backoff(base, k - 1)
  }

  function Power2(k: nat): nat {
    if k == 0 then 1 else 2 * Power2(k - 1)
  }

  function Min(a: int, b: int): int {
    if a <= b then a else b
  }

  function Max(a: int, b: int): int {
    if a >= b then a else b
  }

  /** With a base of at most a minute the schedule is base times a power of two, capped. */
  lemma {:induction false} BackoffClosedForm(base: int, k: nat)
    requires 0 < base <= MAX_BACKOFF
    ensures Backoff(base, k) == Min(base * Power2(k), MAX_BACKOFF)
  {
    if k > 0 {
      BackoffClosedForm(base, k - 1);
      assert base * Power2(k) == 2 * (base * Power2(k - 1));
    }
  }

  /** For any positive base whose double is an int64 the delay stays positive and
      within the larger of base and cap, and no doubling overflows. */
  lemma {:induction false} BackoffBounded(base: int, k: nat)
    requires 0 < base && 2 * base <= INT64_MAX
    ensures 0 < Backoff(base, k) <= Max(base, MAX_BACKOFF)
    ensures 2 * Backoff(base, k) <= INT64_MAX
  {
    if k > 0 { BackoffBounded(base, k - 1); }
  }

  // ----- the history of a run

  /** What becomes of a finalized batch. */
  datatype Fate = Delivered | Dropped

  /** A POST with its body and the collector's answer, or a firing of the retry timer. */
  datatype Act = Posted(body: string, ok: bool) | TimerFired

  /** The batches finalized so far, the fates of the oldest of them, and what was done. */
  datatype History = History(finalized: seq<seq<string>>, fates: seq<Fate>, acts: seq<Act>)

  predicate Failed(act: Act) {
    act.Posted? && !act.ok
  }

  /** The last thing done was a POST that failed. */
  predicate Waiting(acts: seq<Act>) {
    acts != [] && Failed(acts[|acts| - 1])
  }

  /** No POST follows a failed one before the timer has fired. */
  predicate Disciplined(acts: seq<Act>) {
    acts == []
    || (var front := acts[..|acts| - 1];
        Disciplined(front) && (acts[|acts| - 1].Posted? ==> !Waiting(front)))
  }

  /** Every POST was of one of some bodies. */
  predicate Offered(acts: seq<Act>, bodies: seq<string>) {
    acts == []
    || (Offered(acts[..|acts| - 1], bodies) && (acts[|acts| - 1].Posted? ==> acts[|acts| - 1].body in bodies))
  }

  predicate NoneEmpty(batches: seq<seq<string>>) {
    batches == [] || (NoneEmpty(batches[..|batches| - 1]) && batches[|batches| - 1] != [])
  }

  /** The bodies that the collector accepted, in the order of the POSTs. */
  function AcceptedOf(acts: seq<Act>): seq<string> {
    if acts == [] then []
    else
      var last := acts[|acts| - 1];
      AcceptedOf(acts[..|acts| - 1]) + (if last.Posted? && last.ok then [last.body] else [])
  }

  /** How many POSTs have failed since the last one that succeeded. */
  function FailuresOf(acts: seq<Act>): nat {
    if acts == [] then 0
    else match acts[|acts| - 1]
      case TimerFired => FailuresOf(acts[..|acts| - 1])
      case Posted(_, ok) => if ok then 0 else FailuresOf(acts[..|acts| - 1]) + 1
  }

  /** The batches that were delivered, in the order of their finalization. */
  function DeliveredOf(batches: seq<seq<string>>, fates: seq<Fate>): seq<seq<string>>
    requires |fates| <= |batches|
  {
    if fates == [] then []
    else
      DeliveredOf(batches, fates[..|fates| - 1])
      + (if fates[|fates| - 1] == Delivered then [batches[|fates| - 1]] else [])
  }

  function BodiesOf(batches: seq<seq<string>>): (r: seq<string>)
    ensures |r| == |batches|
  {
    if batches == [] then [] else BodiesOf(batches[..|batches| - 1]) + [BatchBody(batches[|batches| - 1])]
  }

  /** No batch is empty and none has two fates; every POST was of a finalized
      batch; and what the collector accepted is the bodies of the delivered
      batches, in the order in which they were finalized. */
  predicate Accounted(h: History) {
    && NoneEmpty(h.finalized) && |h.fates| <= |h.finalized|
    && Offered(h.acts, BodiesOf(h.finalized))
    && AcceptedOf(h.acts) == BodiesOf(DeliveredOf(h.finalized, h.fates))
  }

  /** Of the first n batches one is dropped only when as many newer ones as the
      buffer holds have come. */
  predicate BoundedLoss(fates: seq<Fate>, n: nat, maxBufferBatches: nat) {
    fates == []
    || (&& BoundedLoss(fates[..|fates| - 1], n, maxBufferBatches)
        && (fates[|fates| - 1] == Dropped ==> |fates| - 1 + maxBufferBatches < n))
  }

  function Drops(fates: seq<Fate>): nat {
    if fates == [] then 0
    else Drops(fates[..|fates| - 1]) + (if fates[|fates| - 1] == Dropped then 1 else 0)
  }

  lemma {:induction false} OneMoreAct(acts: seq<Act>, act: Act)
    ensures AcceptedOf(acts + [act])
            == if act.Posted? && act.ok then AcceptedOf(acts) + [act.body] else AcceptedOf(acts)
    ensures FailuresOf(acts + [act])
            == if act.TimerFired? then FailuresOf(acts) else if act.ok then 0 else FailuresOf(acts) + 1
    ensures Disciplined(acts + [act]) <==> Disciplined(acts) && (act.Posted? ==> !Waiting(acts))
    ensures Waiting(acts + [act]) <==> Failed(act)
  {
    assert (acts + [act])[..|acts|] == acts;
  }

  lemma {:induction false} OneMoreOffer(acts: seq<Act>, act: Act, bodies: seq<string>)
    ensures Offered(acts + [act], bodies) <==> Offered(acts, bodies) && (act.Posted? ==> act.body in bodies)
  {
    assert (acts + [act])[..|acts|] == acts;
  }

  lemma {:induction false} OneMoreFate(batches: seq<seq<string>>, fates: seq<Fate>, fate: Fate)
    requires |fates| < |batches|
    ensures DeliveredOf(batches, fates + [fate])
            == if fate == Delivered then DeliveredOf(batches, fates) + [batches[|fates|]]
                else DeliveredOf(batches, fates)
    ensures Drops(fates + [fate]) == Drops(fates) + (if fate == Dropped then 1 else 0)
  {
    assert (fates + [fate])[..|fates|] == fates;
  }

  lemma {:induction false} OneMoreLoss(fates: seq<Fate>, fate: Fate, n: nat, n': nat, maxBufferBatches: nat)
    requires BoundedLoss(fates, n, maxBufferBatches) && n <= n'
    requires fate == Dropped ==> |fates| + maxBufferBatches < n'
    ensures BoundedLoss(fates, n', maxBufferBatches) && BoundedLoss(fates + [fate], n', maxBufferBatches)
  {
    LossStaysBounded(fates, n, n', maxBufferBatches);
    assert (fates + [fate])[..|fates|] == fates;
  }

  lemma {:induction false} OneMoreBatch(batches: seq<seq<string>>, lines: seq<string>)
    ensures NoneEmpty(batches + [lines]) <==> NoneEmpty(batches) && lines != []
    ensures AllLines(batches + [lines]) == AllLines(batches) + lines
    ensures BodiesOf(batches + [lines]) == BodiesOf(batches) + [BatchBody(lines)]
  {
    assert (batches + [lines])[..|batches|] == batches;
  }

  lemma {:induction false} StillOffered(acts: seq<Act>, bodies: seq<string>, more: seq<string>)
    requires Offered(acts, bodies)
    ensures Offered(acts, bodies + more)
  {
    if acts != [] { StillOffered(acts[..|acts| - 1], bodies, more); }
  }

  lemma {:induction false} StillDelivered(batches: seq<seq<string>>, more: seq<seq<string>>, fates: seq<Fate>)
    requires |fates| <= |batches|
    ensures DeliveredOf(batches + more, fates) == DeliveredOf(batches, fates)
  {
    if fates != [] { StillDelivered(batches, more, fates[..|fates| - 1]); }
  }

  lemma {:induction false} LossStaysBounded(fates: seq<Fate>, n: nat, n': nat, maxBufferBatches: nat)
    requires BoundedLoss(fates, n, maxBufferBatches) && n <= n'
    ensures BoundedLoss(fates, n', maxBufferBatches)
  {
    if fates != [] { LossStaysBounded(fates[..|fates| - 1], n, n', maxBufferBatches); }
  }

  /** The bodies of the batches that are left are one fewer when the oldest meets its fate. */
  lemma {:induction false} LeftAfterOne(finalized: seq<seq<string>>, n: nat)
    requires n < |finalized|
    ensures BodiesOf(finalized[n..]) != [] && BodiesOf(finalized[n..])[0] == BatchBody(finalized[n])
    ensures BodiesOf(finalized[n..])[1..] == BodiesOf(finalized[n + 1..])
    ensures BatchBody(finalized[n]) in BodiesOf(finalized)
    decreases |finalized|
  {
    var last := |finalized| - 1;
    assert finalized[n..][..last - n] == finalized[..last][n..];
    if n < last {
      LeftAfterOne(finalized[..last], n);
      assert finalized[n + 1..][..last - n - 1] == finalized[..last][n + 1..];
    }
  }

  // ----- the state and its transitions

  /** HTTPConfig, once the defaults are filled in. */
  datatype Config = Config(batchSize: nat, maxBufferBatches: nat, baseBackoff: int) {
    predicate Lawful() {
      batchSize >= 1 && maxBufferBatches >= 1 && 0 < baseBackoff && 2 * baseBackoff <= INT64_MAX
    }
  }

  /** The variables of the goroutine; `timer` is the delay of the retry timer
      while a firing is outstanding. `ingested` and `h` are what has happened. */
  datatype State = State(
    current: seq<string>,
    buffer: seq<string>,
    backoff: int,
    retrying: bool,
    timer: Option<int>,
    ingested: seq<string>,
    h: History)

  function Start(cfg: Config): State {
    State([], [], cfg.baseBackoff, false, None, [], History([], [], []))
  }

  function Doubled(backoff: int): int {
    if 2 * backoff > MAX_BACKOFF then MAX_BACKOFF else 2 * backoff
  }

  /** A POST of the oldest body. An accepted one leaves the buffer and resets the
      backoff; after a failure the timer is armed and the backoff doubled. */
  function AfterPost(cfg: Config, s: State, ok: bool): State
    requires s.buffer != []
  {
    var acts := s.h.acts + [Posted(s.buffer[0], ok)];
    if ok then
      s.(buffer := s.buffer[1..], backoff := cfg.baseBackoff, h := s.h.(fates := s.h.fates + [Delivered], acts := acts))
    else
      s.(backoff := Doubled(s.backoff), retrying := true, timer := Some(s.backoff), h := s.h.(acts := acts))
  }

  /** The POSTs of a pass that have succeeded so far. */
  function AfterSuccesses(cfg: Config, s: State, n: nat): (r: State)
    requires n <= |s.buffer|
    ensures r.buffer == s.buffer[n..]
  {
    if n == 0 then s else AfterPost(cfg, AfterSuccesses(cfg, s, n - 1), true)
  }

  /** A pass over the buffer that delivers n bodies, oldest first: it ends with the
      first POST that fails, or when no body is left. */
  function AfterDrain(cfg: Config, s: State, n: nat): State
    requires n <= |s.buffer|
  {
    var delivered := AfterSuccesses(cfg, s, n);
    if n < |s.buffer| then AfterPost(cfg, delivered, false) else delivered.(retrying := false)
  }

  /** The oldest body is given up. */
  function AfterDrop(s: State): State
    requires s.buffer != []
  {
    s.(buffer := s.buffer[1..], h := s.h.(fates := s.h.fates + [Dropped]))
  }

  /** The current lines become the newest batch; a full buffer then loses its oldest. */
  function AfterFinalize(cfg: Config, s: State): State {
    if s.current == [] then s
    else
      var queued := AfterQueue(s);
      if |queued.buffer| > cfg.maxBufferBatches then AfterDrop(queued) else queued
  }

  function AfterQueue(s: State): State {
    s.(current := [], buffer := s.buffer + [BatchBody(s.current)],
       h := s.h.(finalized := s.h.finalized + [s.current]))
  }

  function AfterTimer(s: State): State {
    s.(timer := None, h := s.h.(acts := s.h.acts + [TimerFired]))
  }

  function AfterLines(s: State, lines: seq<string>): State {
    s.(current := s.current + lines, ingested := s.ingested + lines)
  }

  /** The outcome of a pass is a matter of the collector's answers. */
  predicate Drained(cfg: Config, s: State, after: State) {
    |after.buffer| <= |s.buffer| && after == AfterDrain(cfg, s, |s.buffer| - |after.buffer|)
  }

  /** finalize, then a pass unless a backoff is being waited out. */
  predicate Flushed(cfg: Config, s: State, after: State) {
    var finalized := AfterFinalize(cfg, s);
    if finalized.retrying then after == finalized else Drained(cfg, finalized, after)
  }

  datatype Event = Line(line: string) | FlushTick | RetryTimer

  /** What an event may do; a timer only fires when a firing is outstanding. */
  predicate Step(cfg: Config, s: State, event: Event, after: State) {
    match event
    case Line(l) =>
      var t := AfterLines(s, [l]);
      if |t.current| >= cfg.batchSize then Flushed(cfg, t, after) else after == t
    case FlushTick => if s.current != [] then Flushed(cfg, s, after) else after == s
    case RetryTimer => if s.timer.Some? then Drained(cfg, AfterTimer(s), after) else after == s
  }

  // ----- what every step keeps

  /** Every ingested line is in exactly one place: the finalized batches in order,
      then the current lines. The buffer holds the batches that have not met their fate. */
  predicate Kept(s: State) {
    && Accounted(s.h)
    && s.ingested == AllLines(s.h.finalized) + s.current
    && s.buffer == BodiesOf(s.h.finalized[|s.h.fates|..])
  }

  /** Until shutdown the buffer is bounded and so are losses; a retry waits for its
      timer; and the backoff follows the failures since the last success. */
  predicate Bounded(cfg: Config, s: State) {
    && |s.buffer| <= cfg.maxBufferBatches && BoundedLoss(s.h.fates, |s.h.finalized|, cfg.maxBufferBatches)
    && Disciplined(s.h.acts)
    && s.backoff == Backoff(cfg.baseBackoff, FailuresOf(s.h.acts))
  }

  /** A retry is outstanding exactly when a batch is, which is exactly when the last
      thing done was a POST that failed. */
  predicate Retries(cfg: Config, s: State) {
    && (s.retrying <==> s.buffer != [])
    && (s.retrying <==> s.timer.Some?)
    && (s.retrying <==> Waiting(s.h.acts))
    && (s.retrying ==> FailuresOf(s.h.acts) > 0
                       && s.timer == Some(Backoff(cfg.baseBackoff, FailuresOf(s.h.acts) - 1)))
  }

  /** What holds between events. */
  predicate Valid(cfg: Config, s: State) {
    cfg.Lawful() && Kept(s) && Bounded(cfg, s) && Retries(cfg, s) && |s.current| < cfg.batchSize
  }

  /** A pass may begin. */
  predicate Ready(cfg: Config, s: State) {
    cfg.Lawful() && Kept(s) && Bounded(cfg, s) && s.timer.None? && !Waiting(s.h.acts)
  }

  lemma {:induction false} PostKeeps(cfg: Config, s: State, ok: bool)
    requires Kept(s) && s.buffer != []
    ensures Kept(AfterPost(cfg, s, ok))
  {
    var h, act := s.h, Posted(s.buffer[0], ok);
    LeftAfterOne(h.finalized, |h.fates|);
    OneMoreAct(h.acts, act);
    OneMoreOffer(h.acts, act, BodiesOf(h.finalized));
    OneMoreFate(h.finalized, h.fates, Delivered);
    OneMoreBatch(DeliveredOf(h.finalized, h.fates), h.finalized[|h.fates|]);
  }

  lemma {:induction false} DropKeeps(s: State)
    requires Kept(s) && s.buffer != []
    ensures Kept(AfterDrop(s))
  {
    LeftAfterOne(s.h.finalized, |s.h.fates|);
    OneMoreFate(s.h.finalized, s.h.fates, Dropped);
  }

  lemma {:induction false} QueueKeeps(s: State)
    requires Kept(s) && s.current != []
    ensures Kept(AfterQueue(s))
  {
    var h, lines := s.h, s.current;
    OneMoreBatch(h.finalized, lines);
    OneMoreBatch(h.finalized[|h.fates|..], lines);
    assert (h.finalized + [lines])[|h.fates|..] == h.finalized[|h.fates|..] + [lines];
    StillOffered(h.acts, BodiesOf(h.finalized), [BatchBody(lines)]);
    StillDelivered(h.finalized, [lines], h.fates);
  }

  lemma {:induction false} LinesKeep(s: State, lines: seq<string>)
    requires Kept(s)
    ensures Kept(AfterLines(s, lines))
  {
    assert AllLines(s.h.finalized) + s.current + lines == AllLines(s.h.finalized) + (s.current + lines);
  }

  lemma {:induction false} FinalizeKeeps(cfg: Config, s: State)
    requires Kept(s)
    ensures Kept(AfterFinalize(cfg, s))
  {
    if s.current != [] {
      QueueKeeps(s);
      if |s.buffer| + 1 > cfg.maxBufferBatches { DropKeeps(AfterQueue(s)); }
    }
  }

  /** Finalizing changes neither the acts nor the retry; it leaves no lines and some batch. */
  lemma {:induction false} FinalizeFrame(cfg: Config, s: State)
    requires cfg.Lawful() && s.current != []
    ensures var f := AfterFinalize(cfg, s);
            && f.current == [] && f.buffer != [] && f.ingested == s.ingested
            && f.retrying == s.retrying && f.timer == s.timer && f.backoff == s.backoff
            && f.h.acts == s.h.acts && f.h.finalized == s.h.finalized + [s.current]
  {}

  lemma {:induction false} FinalizeStaysBounded(cfg: Config, s: State)
    requires cfg.Lawful() && Kept(s) && Bounded(cfg, s)
    ensures Bounded(cfg, AfterFinalize(cfg, s))
  {
    if s.current != [] {
      FinalizeFrame(cfg, s);
      FinalizeLoss(cfg, s.h.fates, |s.h.finalized|, |s.buffer|);
    }
  }

  /** Only a full buffer loses a batch, when as many newer ones have come. */
  lemma {:induction false} FinalizeLoss(cfg: Config, fates: seq<Fate>, n: nat, left: nat)
    requires BoundedLoss(fates, n, cfg.maxBufferBatches) && left == n - |fates|
    ensures BoundedLoss(fates, n + 1, cfg.maxBufferBatches)
    ensures left >= cfg.maxBufferBatches ==> BoundedLoss(fates + [Dropped], n + 1, cfg.maxBufferBatches)
  {
    LossStaysBounded(fates, n, n + 1, cfg.maxBufferBatches);
    if left >= cfg.maxBufferBatches {
      OneMoreLoss(fates, Dropped, n, n + 1, cfg.maxBufferBatches);
    }
  }

  lemma {:induction false} BodiesCount(s: State)
    requires Kept(s)
    ensures |s.buffer| == |s.h.finalized| - |s.h.fates|
  {}

  lemma {:induction false} PostStaysBounded(cfg: Config, s: State, ok: bool)
    requires cfg.Lawful() && Bounded(cfg, s) && s.timer.None? && !Waiting(s.h.acts) && s.buffer != []
    ensures Bounded(cfg, AfterPost(cfg, s, ok))
    ensures ok ==> !Waiting(AfterPost(cfg, s, ok).h.acts)
    ensures !ok ==> Retries(cfg, AfterPost(cfg, s, ok))
  {
    OneMoreAct(s.h.acts, Posted(s.buffer[0], ok));
    OneMoreLoss(s.h.fates, Delivered, |s.h.finalized|, |s.h.finalized|, cfg.maxBufferBatches);
  }

  lemma {:induction false} SuccessesKeepReady(cfg: Config, s: State, n: nat)
    requires Ready(cfg, s) && n <= |s.buffer|
    ensures Ready(cfg, AfterSuccesses(cfg, s, n))
    ensures AfterSuccesses(cfg, s, n).current == s.current && AfterSuccesses(cfg, s, n).ingested == s.ingested
    ensures AfterSuccesses(cfg, s, n).h.finalized == s.h.finalized
  {
    if n > 0 {
      SuccessesKeepReady(cfg, s, n - 1);
      PostKeeps(cfg, AfterSuccesses(cfg, s, n - 1), true);
      PostStaysBounded(cfg, AfterSuccesses(cfg, s, n - 1), true);
    }
  }

  lemma {:induction false} DrainIsValid(cfg: Config, s: State, after: State)
    requires Ready(cfg, s) && |s.current| < cfg.batchSize && Drained(cfg, s, after)
    ensures Valid(cfg, after) && after.current == s.current && after.ingested == s.ingested
    ensures after.h.finalized == s.h.finalized
  {
    var n := |s.buffer| - |after.buffer|;
    SuccessesKeepReady(cfg, s, n);
    var delivered := AfterSuccesses(cfg, s, n);
    if n < |s.buffer| {
      FailureIsValid(cfg, delivered);
    } else {
      EmptyIsValid(cfg, delivered);
    }
  }

  lemma {:induction false} FailureIsValid(cfg: Config, s: State)
    requires Ready(cfg, s) && |s.current| < cfg.batchSize && s.buffer != []
    ensures Valid(cfg, AfterPost(cfg, s, false))
  {
    PostKeeps(cfg, s, false);
    PostStaysBounded(cfg, s, false);
  }

  lemma {:induction false} EmptyIsValid(cfg: Config, s: State)
    requires Ready(cfg, s) && |s.current| < cfg.batchSize && s.buffer == []
    ensures Valid(cfg, s.(retrying := false))
  {}

  lemma {:induction false} TimerMakesReady(cfg: Config, s: State)
    requires Valid(cfg, s)
    ensures Ready(cfg, AfterTimer(s))
  {
    OneMoreAct(s.h.acts, TimerFired);
    OneMoreOffer(s.h.acts, TimerFired, BodiesOf(s.h.finalized));
  }

  lemma {:induction false} FlushIsValid(cfg: Config, s: State, after: State)
    requires cfg.Lawful() && Kept(s) && Bounded(cfg, s) && Retries(cfg, s) && s.current != [] && Flushed(cfg, s, after)
    ensures Valid(cfg, after) && after.current == [] && after.ingested == s.ingested
    ensures after.h.finalized == s.h.finalized + [s.current]
  {
    var f := AfterFinalize(cfg, s);
    FinalizeFrame(cfg, s);
    FinalizeKeeps(cfg, s);
    FinalizeStaysBounded(cfg, s);
    if f.retrying {
      RetriesStay(cfg, s, f);
    } else {
      assert Ready(cfg, f);
      DrainIsValid(cfg, f, after);
    }
  }

  lemma {:induction false} RetriesStay(cfg: Config, s: State, f: State)
    requires Retries(cfg, s) && f.retrying && f.buffer != []
    requires f.retrying == s.retrying && f.timer == s.timer && f.h.acts == s.h.acts
    ensures Retries(cfg, f)
  {}

  /** How lines fall into batches: the batches, and the lines of the one still open. */
  function Cut(batchSize: nat, batches: seq<seq<string>>, open: seq<string>, event: Event)
    : (seq<seq<string>>, seq<string>)
  {
    match event
    case Line(l) => if |open| + 1 >= batchSize then (batches + [open + [l]], []) else (batches, open + [l])
    case FlushTick => if open == [] then (batches, open) else (batches + [open], [])
    case RetryTimer => (batches, open)
  }

  function LinesIn(event: Event): seq<string> {
    match event case Line(l) => [l] case _ => []
  }

  /** Every step keeps everything that holds between events; it ingests the line
      of its event, if any, and cuts batches where the event says. */
  lemma {:induction false} StepKeepsValid(cfg: Config, s: State, event: Event, after: State)
    requires Valid(cfg, s) && Step(cfg, s, event, after)
    ensures Valid(cfg, after) && after.ingested == s.ingested + LinesIn(event)
    ensures (after.h.finalized, after.current) == Cut(cfg.batchSize, s.h.finalized, s.current, event)
  {
    match event {
      case Line(l) => LineKeepsValid(cfg, s, l, after);
      case FlushTick =>
        assert s.ingested + [] == s.ingested;
        if s.current != [] { FlushIsValid(cfg, s, after); }
      case RetryTimer =>
        assert s.ingested + [] == s.ingested;
        if s.timer.Some? {
          TimerMakesReady(cfg, s);
          DrainIsValid(cfg, AfterTimer(s), after);
        }
    }
  }

  lemma {:induction false} LineKeepsValid(cfg: Config, s: State, line: string, after: State)
    requires Valid(cfg, s) && Step(cfg, s, Line(line), after)
    ensures Valid(cfg, after) && after.ingested == s.ingested + [line]
    ensures (after.h.finalized, after.current) == Cut(cfg.batchSize, s.h.finalized, s.current, Line(line))
  {
    var t := AfterLines(s, [line]);
    LinesKeep(s, [line]);
    if |t.current| >= cfg.batchSize { FlushIsValid(cfg, t, after); }
  }

  function Accepted(bodies: seq<string>, n: nat): seq<Act>
    requires n <= |bodies|
  {
    if n == 0 then [] else Accepted(bodies, n - 1) + [Posted(bodies[n - 1], true)]
  }

  lemma {:induction false} SuccessesPost(cfg: Config, s: State, n: nat)
    requires n <= |s.buffer|
    ensures var r := AfterSuccesses(cfg, s, n);
            && r.h.acts == s.h.acts + Accepted(s.buffer, n) && |r.h.fates| == |s.h.fates| + n
            && (n > 0 ==> r.backoff == cfg.baseBackoff)
  {
    if n > 0 { SuccessesPost(cfg, s, n - 1); }
  }

  /** The POSTs of a pass: the buffered bodies in order, each accepted, up to the
      first that fails; that one stays in the buffer, and its retry is due after
      the base delay if the pass had delivered anything. */
  lemma {:induction false} DrainPosts(cfg: Config, s: State, n: nat)
    requires n <= |s.buffer|
    ensures var r := AfterDrain(cfg, s, n);
            && r.h.acts == s.h.acts + Accepted(s.buffer, n)
                           + (if n < |s.buffer| then [Posted(s.buffer[n], false)] else [])
            && r.buffer == s.buffer[n..] && |r.h.fates| == |s.h.fates| + n
            && (r.retrying <==> n < |s.buffer|)
            && (n < |s.buffer| ==> r.timer == Some(if n > 0 then cfg.baseBackoff else s.backoff))
  {
    SuccessesPost(cfg, s, n);
    assert AfterSuccesses(cfg, s, 0) == s;
  }

  // ----- what an event leads to

  function Firings(acts: seq<Act>): nat {
    if acts == [] then 0 else Firings(acts[..|acts| - 1]) + (if acts[|acts| - 1] == TimerFired then 1 else 0)
  }

  predicate AllPosted(acts: seq<Act>) {
    forall i :: 0 <= i < |acts| ==> acts[i].Posted?
  }

  /** What an event adds to the acts, told by the histories before and after it.
      The firing of an outstanding retry is recorded and at once followed by a POST
      of the oldest undelivered batch, and when every POST is accepted nothing stays
      undelivered. While a retry is outstanding other events POST nothing; while
      none is, a batch is POSTed as soon as it is finalized. */
  ghost predicate LeadsTo(h: History, event: Event, h': History) {
    && h.acts <= h'.acts
    && var added := h'.acts[|h.acts|..];
       if Waiting(h.acts) then
         if event.RetryTimer? then
           && |h.fates| < |h.finalized| && |added| >= 2 && added[0] == TimerFired && AllPosted(added[1..])
           && added[1].Posted? && added[1].body == BatchBody(h.finalized[|h.fates|])
           && ((forall i :: 1 <= i < |added| ==> !Failed(added[i])) ==> |h'.fates| == |h'.finalized|)
         else added == []
       else if |h'.finalized| > |h.finalized| then
         |added| == 1 && added[0].Posted? && added[0].body == BatchBody(h'.finalized[|h.finalized|])
       else added == []
  }

  lemma {:induction false} AcceptedArePosts(bodies: seq<string>, n: nat)
    requires n <= |bodies|
    ensures |Accepted(bodies, n)| == n
    ensures forall i :: 0 <= i < n ==> Accepted(bodies, n)[i] == Posted(bodies[i], true)
  {
    if n > 0 { AcceptedArePosts(bodies, n - 1); }
  }

  /** A pass over a buffer that is not empty begins with its oldest body. */
  lemma {:induction false} DrainBegins(cfg: Config, s: State, after: State)
    requires Drained(cfg, s, after) && s.buffer != []
    ensures s.h.acts <= after.h.acts && |after.h.acts| > |s.h.acts|
    ensures var added := after.h.acts[|s.h.acts|..];
            && AllPosted(added) && added[0].Posted? && added[0].body == s.buffer[0]
            && ((forall i :: 0 <= i < |added| ==> !Failed(added[i])) ==> after.buffer == [])
            && (|s.buffer| == 1 ==> |added| == 1)
  {
    var n := |s.buffer| - |after.buffer|;
    DrainPosts(cfg, s, n);
    AcceptedArePosts(s.buffer, n);
    var tail := if n < |s.buffer| then [Posted(s.buffer[n], false)] else [];
    var added := after.h.acts[|s.h.acts|..];
    assert added == Accepted(s.buffer, n) + tail;
    if n < |s.buffer| { assert Failed(added[n]); }
  }

  lemma {:induction false} RetryingHolds(cfg: Config, s: State)
    requires Valid(cfg, s) && s.retrying
    ensures s.timer.Some? && s.buffer != [] && Waiting(s.h.acts) && |s.h.fates| < |s.h.finalized|
    ensures s.buffer[0] == BatchBody(s.h.finalized[|s.h.fates|])
  {
    BodiesCount(s);
    LeftAfterOne(s.h.finalized, |s.h.fates|);
  }

  lemma {:induction false} EmptyMeansDelivered(cfg: Config, s: State, event: Event, after: State)
    requires Valid(cfg, s) && Step(cfg, s, event, after)
    ensures after.buffer == [] <==> |after.h.fates| == |after.h.finalized|
  {
    StepKeepsValid(cfg, s, event, after);
    BodiesCount(after);
  }

  /** The acts of a firing and the POSTs that follow it. */
  lemma {:induction false} FiringAndPosts(acts: seq<Act>, posts: seq<Act>)
    requires AllPosted(posts) && posts != []
    ensures var added := (acts + [TimerFired] + posts)[|acts|..];
            && |added| >= 2 && added[0] == TimerFired && added[1] == posts[0] && added[1..] == posts
            && ((forall i :: 1 <= i < |added| ==> !Failed(added[i])) ==> forall i :: 0 <= i < |posts| ==>
                !Failed(posts[i]))
    ensures acts <= acts + [TimerFired] + posts
    ensures Firings(acts + [TimerFired] + posts) == Firings(acts) + 1
  {
    var added := [TimerFired] + posts;
    assert (acts + [TimerFired] + posts)[|acts|..] == added;
    forall i | 0 <= i < |posts| ensures posts[i] == added[i + 1] {}
    FiringsOfPosts(acts + [TimerFired], posts);
    assert (acts + [TimerFired])[..|acts|] == acts;
  }

  lemma {:induction false} TimerLeadsToPost(cfg: Config, s: State, after: State)
    requires Valid(cfg, s) && s.retrying && Step(cfg, s, RetryTimer, after)
    ensures LeadsTo(s.h, RetryTimer, after.h)
    ensures Firings(after.h.acts) == Firings(s.h.acts) + 1
  {
    var t := AfterTimer(s);
    RetryingHolds(cfg, s);
    DrainBegins(cfg, t, after);
    EmptyMeansDelivered(cfg, s, RetryTimer, after);
    var posts := after.h.acts[|t.h.acts|..];
    assert after.h.acts == s.h.acts + [TimerFired] + posts;
    FiringAndPosts(s.h.acts, posts);
  }

  lemma {:induction false} FiringsOfPosts(acts: seq<Act>, posts: seq<Act>)
    requires AllPosted(posts)
    ensures Firings(acts + posts) == Firings(acts)
    decreases |posts|
  {
    if posts == [] {
      assert acts + posts == acts;
    } else {
      var k := |posts| - 1;
      assert (acts + posts)[..|acts| + k] == acts + posts[..k];
      FiringsOfPosts(acts, posts[..k]);
    }
  }

  lemma {:induction false} FlushLeadsToPost(cfg: Config, s: State, after: State)
    requires cfg.Lawful() && Kept(s) && Bounded(cfg, s) && Retries(cfg, s) && s.current != [] && Flushed(cfg, s, after)
    ensures s.h.acts <= after.h.acts
    ensures var added := after.h.acts[|s.h.acts|..];
            if s.retrying then added == []
            else |added| == 1 && added[0].Posted? && added[0].body == BatchBody(s.current)
    ensures Firings(after.h.acts) == Firings(s.h.acts)
  {
    var f := AfterFinalize(cfg, s);
    FinalizeFrame(cfg, s);
    if !s.retrying {
      FirstInBuffer(cfg, s);
      DrainBegins(cfg, f, after);
      var posts := after.h.acts[|s.h.acts|..];
      assert after.h.acts == s.h.acts + posts;
      FiringsOfPosts(s.h.acts, posts);
    }
  }

  lemma {:induction false} FirstInBuffer(cfg: Config, s: State)
    requires cfg.Lawful() && s.buffer == [] && s.current != []
    ensures AfterFinalize(cfg, s).buffer == [BatchBody(s.current)]
  {}

  /** Every event leads to what it should, and to a firing only when it is one. */
  lemma {:induction false} StepLeadsTo(cfg: Config, s: State, event: Event, after: State)
    requires Valid(cfg, s) && Step(cfg, s, event, after)
    ensures LeadsTo(s.h, event, after.h)
    ensures Firings(after.h.acts) == Firings(s.h.acts) + (if event.RetryTimer? && Waiting(s.h.acts) then 1 else 0)
  {
    StepKeepsValid(cfg, s, event, after);
    match event {
      case Line(l) =>
        var t := AfterLines(s, [l]);
        if |t.current| >= cfg.batchSize {
          LinesKeep(s, [l]);
          FlushLeadsToPost(cfg, t, after);
        }
      case FlushTick => if s.current != [] { FlushLeadsToPost(cfg, s, after); }
      case RetryTimer => if s.timer.Some? { TimerLeadsToPost(cfg, s, after); }
    }
  }

  // ----- shutdown

  /** The pass at shutdown, when the time allows for `budget` POSTs: one POST for
      each of that many bodies, oldest first, whatever the answers; what is
      refused or not offered is dropped. */
  ghost predicate FinalPass(bodies: seq<string>, budget: nat, fates: seq<Fate>, acts: seq<Act>) {
    && |fates| == |bodies| && |acts| == Min(budget, |bodies|)
    && (forall k :: 0 <= k < |acts| ==> acts[k] == Posted(bodies[k], fates[k] == Delivered))
    && (forall k :: |acts| <= k < |fates| ==> fates[k] == Dropped)
  }

  /** One body of the final pass: without time left it is not offered. */
  function AfterLast(s: State, inTime: bool, ok: bool): State
    requires s.buffer != []
  {
    s.(buffer := s.buffer[1..],
       h := s.h.(fates := s.h.fates + [if inTime && ok then Delivered else Dropped],
                 acts := if inTime then s.h.acts + [Posted(s.buffer[0], ok)] else s.h.acts))
  }

  /** The final pass so far, with the collector's answers. */
  function AfterPass(s: State, budget: nat, answers: seq<bool>): (r: State)
    requires |answers| <= |s.buffer|
    ensures r.buffer == s.buffer[|answers|..]
  {
    if answers == [] then s
    else
      var k := |answers| - 1;
      AfterLast(AfterPass(s, budget, answers[..k]), k < budget, answers[k])
  }

  /** Shutdown: the queued lines join the current ones, and what is then left is
      offered once as far as the time goes. */
  predicate ShutDown(cfg: Config, s: State, queued: seq<string>, budget: nat, answers: seq<bool>, after: State) {
    var left := AfterFinalize(cfg, AfterLines(s, queued));
    |answers| == |left.buffer| && after == AfterPass(left, budget, answers)
  }

  lemma {:induction false} LastKeeps(cfg: Config, s: State, inTime: bool, ok: bool)
    requires Kept(s) && s.buffer != []
    ensures Kept(AfterLast(s, inTime, ok))
  {
    if inTime {
      PostKeeps(cfg, s, ok);
      if !ok { DropKeeps(AfterPost(cfg, s, ok)); }
    } else {
      DropKeeps(s);
    }
  }

  lemma {:induction false} PassKeeps(cfg: Config, s: State, budget: nat, answers: seq<bool>)
    requires Kept(s) && |answers| <= |s.buffer|
    ensures Kept(AfterPass(s, budget, answers))
  {
    if answers != [] {
      var k := |answers| - 1;
      PassKeeps(cfg, s, budget, answers[..k]);
      LastKeeps(cfg, AfterPass(s, budget, answers[..k]), k < budget, answers[k]);
    }
  }

  /** What a final pass adds to the history. */
  lemma {:induction false} PassIsFinal(s: State, budget: nat, answers: seq<bool>)
    requires |answers| <= |s.buffer|
    ensures var after := AfterPass(s, budget, answers);
            && after.h.finalized == s.h.finalized && s.h.fates <= after.h.fates && s.h.acts <= after.h.acts
            && FinalPass(s.buffer[..|answers|], budget, after.h.fates[|s.h.fates|..], after.h.acts[|s.h.acts|..])
  {
    if answers != [] {
      var k := |answers| - 1;
      var earlier, after := AfterPass(s, budget, answers[..k]), AfterPass(s, budget, answers);
      PassIsFinal(s, budget, answers[..k]);
      var fates, acts := earlier.h.fates[|s.h.fates|..], earlier.h.acts[|s.h.acts|..];
      var ok := k < budget && answers[k];
      LongerPass(s.buffer, k, budget, fates, acts, ok);
      assert after.h.fates[|s.h.fates|..] == fates + [if ok then Delivered else Dropped];
      assert after.h.acts[|s.h.acts|..] == if k < budget then acts + [Posted(s.buffer[k], ok)] else acts;
    }
  }

  lemma {:induction false} LongerPass(bodies: seq<string>, k: nat, budget: nat, fates: seq<Fate>, acts: seq<Act>,
                                      ok: bool)
    requires k < |bodies| && FinalPass(bodies[..k], budget, fates, acts) && (ok ==> k < budget)
    ensures FinalPass(bodies[..k + 1], budget, fates + [if ok then Delivered else Dropped],
                      if k < budget then acts + [Posted(bodies[k], ok)] else acts)
  {}

  lemma {:induction false} OneMoreAnswer(s: State, budget: nat, answers: seq<bool>, ok: bool)
    requires |answers| < |s.buffer|
    ensures AfterPass(s, budget, answers + [ok]) == AfterLast(AfterPass(s, budget, answers), |answers| < budget, ok)
    ensures Drops(AfterPass(s, budget, answers + [ok]).h.fates)
            == Drops(AfterPass(s, budget, answers).h.fates) + (if |answers| < budget && ok then 0 else 1)
  {
    assert (answers + [ok])[..|answers|] == answers;
    var fates := AfterPass(s, budget, answers).h.fates;
    var fate := if |answers| < budget && ok then Delivered else Dropped;
    assert (fates + [fate])[..|fates|] == fates;
  }

  // ----- the goroutine

  class HttpSink {
    const cfg: Config

    var current: seq<string>
    var retryBuffer: seq<string>
    var backoff: int
    var retrying: bool
    var timer: Option<int>

    ghost var ingested: seq<string>
    ghost var past: History

    ghost function Now(): State
      reads this
    {
      State(current, retryBuffer, backoff, retrying, timer, ingested, past)
    }

    constructor (cfg: Config)
      ensures Now() == Start(cfg) && this.cfg == cfg && (cfg.Lawful() ==> Fits())
    {
      this.cfg := cfg;
      current, retryBuffer := [], [];
      backoff, retrying, timer := cfg.baseBackoff, false, None;
      ingested, past := [], History([], [], []);
    }

    /** A POST; the collector's answer may be anything. */
    method Post(body: string) returns (ok: bool)
      modifies this`past
      ensures past == old(past).(acts := old(past).acts + [Posted(body, ok)])
    {
      ok := *;
      past := past.(acts := past.acts + [Posted(body, ok)]);
    }

    /** Moves the current lines into the retry buffer as one batch; a full buffer loses its oldest. */
    method Finalize()
      modifies this
      ensures Now() == AfterFinalize(cfg, old(Now()))
    {
      if |current| == 0 {
        return;
      }
      retryBuffer := retryBuffer + [BatchBody(current)];
      past := past.(finalized := past.finalized + [current]);
      current := [];
      if |retryBuffer| > cfg.maxBufferBatches {
        retryBuffer := retryBuffer[1..];
        past := past.(fates := past.fates + [Dropped]);
      }
    }

    /** No doubling of the backoff overflows an int64. */
    ghost predicate Fits()
      reads this`backoff
    {
      0 < cfg.baseBackoff && 2 * cfg.baseBackoff <= INT64_MAX && 0 < backoff && 2 * backoff <= INT64_MAX
    }

    /** One turn of the loop below. */
    method DrainOne() returns (ok: bool)
      requires Fits() && retryBuffer != []
      modifies this
      ensures Fits() && Now() == AfterPost(cfg, old(Now()), ok)
    {
      ok := Post(retryBuffer[0]);
      if !ok {
        timer := Some(backoff);
        backoff := backoff * 2;
        assert backoff <= INT64_MAX;
        if backoff > MAX_BACKOFF {
          backoff := MAX_BACKOFF;
        }
        retrying := true;
        return;
      }
      retryBuffer := retryBuffer[1..];
      past := past.(fates := past.fates + [Delivered]);
      backoff := cfg.baseBackoff;
    }

    /** Posts the buffered batches, oldest first, until one fails or none is left. */
    method TryDrain()
      requires Fits()
      modifies this
      ensures Fits() && Drained(cfg, old(Now()), Now())
    {
      ghost var n := 0;
      while |retryBuffer| > 0
        invariant Fits() && 0 <= n <= |old(retryBuffer)| && Now() == AfterSuccesses(cfg, old(Now()), n)
        decreases |retryBuffer|
      {
        var ok := DrainOne();
        if !ok {
          return;
        }
        n := n + 1;
      }
      retrying := false;
    }

    /** Delivers only when no backoff is being waited out. */
    method MaybeDrain()
      requires Fits()
      modifies this
      ensures Fits() && if old(retrying) then Now() == old(Now()) else Drained(cfg, old(Now()), Now())
    {
      if !retrying {
        TryDrain();
      }
    }

    // ----- the cases of the select

    method OnLine(line: string)
      requires Fits()
      modifies this
      ensures Fits() && Step(cfg, old(Now()), Line(line), Now())
    {
      current := current + [line];
      ingested := ingested + [line];
      if |current| >= cfg.batchSize {
        Finalize();
        MaybeDrain();
      }
    }

    method OnFlushTick()
      requires Fits()
      modifies this
      ensures Fits() && Step(cfg, old(Now()), FlushTick, Now())
    {
      if |current| > 0 {
        Finalize();
        MaybeDrain();
      }
    }

    method OnRetryTimer()
      requires Fits() && timer.Some?
      modifies this
      ensures Fits() && Step(cfg, old(Now()), RetryTimer, Now())
    {
      timer := None;
      past := past.(acts := past.acts + [TimerFired]);
      TryDrain();
    }

    /** Shutdown; `budget` is how many POSTs the time allows for. */
    method OnDone(queued: seq<string>, budget: nat) returns (dropped: nat, ghost answers: seq<bool>)
      modifies this
      ensures ShutDown(cfg, old(Now()), queued, budget, answers, Now())
      ensures dropped == Drops(past.fates) - Drops(AfterFinalize(cfg, AfterLines(old(Now()), queued)).h.fates)
    {
      DrainQueue(queued);
      Finalize();
      dropped, answers := FinalDrain(budget);
    }

    /** The non-blocking drain of the ingest channel. */
    method DrainQueue(queued: seq<string>)
      modifies this`current, this`ingested
      ensures Now() == AfterLines(old(Now()), queued)
    {
      var k := 0;
      while k < |queued|
        invariant 0 <= k <= |queued|
        invariant current == old(current) + queued[..k] && ingested == old(ingested) + queued[..k]
      {
        current := current + [queued[k]];
        ingested := ingested + [queued[k]];
        k := k + 1;
      }
      assert queued[..k] == queued;
    }

    /** One delivery attempt for each batch left, until the time is spent. */
    method FinalDrain(budget: nat) returns (dropped: nat, ghost answers: seq<bool>)
      modifies this`retryBuffer, this`past
      ensures |answers| == |old(retryBuffer)| && Now() == AfterPass(old(Now()), budget, answers)
      ensures dropped == Drops(past.fates) - Drops(old(past).fates)
    {
      dropped, answers := 0, [];
      var i := 0;
      while |retryBuffer| > 0
        invariant 0 <= i == |answers| <= |old(retryBuffer)| && Now() == AfterPass(old(Now()), budget, answers)
        invariant dropped == Drops(past.fates) - Drops(old(past).fates)
        decreases |retryBuffer|
      {
        var ok := OfferLast(i < budget);
        OneMoreAnswer(old(Now()), budget, answers, ok);
        answers := answers + [ok];
        if !ok {
          dropped := dropped + 1;
        }
        i := i + 1;
      }
    }

    /** The body of the loop above. */
    method OfferLast(inTime: bool) returns (ok: bool)
      requires retryBuffer != []
      modifies this`retryBuffer, this`past
      ensures Now() == AfterLast(old(Now()), inTime, ok) && (ok ==> inTime)
    {
      ok := false;
      if inTime {
        ok := Post(retryBuffer[0]);
      }
      retryBuffer := retryBuffer[1..];
      past := past.(fates := past.fates + [if ok then Delivered else Dropped]);
    }
  }

  // ----- whole runs

  function LinesOf(events: seq<Event>): seq<string> {
    if events == [] then [] else LinesOf(events[..|events| - 1]) + LinesIn(events[|events| - 1])
  }

  function CutInto(batchSize: nat, events: seq<Event>): (seq<seq<string>>, seq<string>) {
    if events == [] then ([], [])
    else
      var (batches, open) := CutInto(batchSize, events[..|events| - 1]);
      Cut(batchSize, batches, open, events[|events| - 1])
  }

  /** A run until shutdown: the states before and after each event. */
  ghost predicate IsRun(cfg: Config, events: seq<Event>, trace: seq<State>) {
    && |trace| == |events| + 1 && trace[0] == Start(cfg)
    && forall i :: 0 <= i < |events| ==> Step(cfg, trace[i], events[i], trace[i + 1])
  }

  /** What holds of the history until shutdown: the batches are accounted for, few
      are lost and few are left; none is left unless a POST has failed and its
      retry is outstanding; and no failed POST was followed by another before the
      timer fired. */
  ghost predicate Steady(cfg: Config, h: History) {
    && Accounted(h) && BoundedLoss(h.fates, |h.finalized|, cfg.maxBufferBatches) && Disciplined(h.acts)
    && |h.finalized| - |h.fates| <= cfg.maxBufferBatches
    && (|h.fates| < |h.finalized| <==> Waiting(h.acts))
  }

  lemma {:induction false} RunGrows(cfg: Config, events: seq<Event>, i: nat, trace: seq<State>, after: State)
    requires i < |events| && IsRun(cfg, events[..i], trace) && Step(cfg, trace[i], events[i], after)
    ensures IsRun(cfg, events[..i + 1], trace + [after])
  {
    var longer := trace + [after];
    forall k | 0 <= k < i + 1 ensures Step(cfg, longer[k], events[..i + 1][k], longer[k + 1]) {
      if k < i { assert Step(cfg, trace[k], events[..i][k], trace[k + 1]); }
    }
  }

  /** How many of the events are firings that met an outstanding retry. */
  function DueFirings(events: seq<Event>, trace: seq<State>): nat
    requires |trace| == |events| + 1
  {
    if events == [] then 0
    else
      var n := |events| - 1;
      DueFirings(events[..n], trace[..n + 1])
      + (if events[n].RetryTimer? && Waiting(trace[n].h.acts) then 1 else 0)
  }

  /** In every run each event leads to what it should, and the acts record one
      firing for each that met an outstanding retry. */
  lemma {:induction false} RunLeadsTo(cfg: Config, events: seq<Event>, trace: seq<State>)
    requires cfg.Lawful() && IsRun(cfg, events, trace)
    ensures forall i :: 0 <= i < |events| ==> LeadsTo(trace[i].h, events[i], trace[i + 1].h)
    ensures Firings(trace[|events|].h.acts) == DueFirings(events, trace)
  {
    if events != [] {
      var n := |events| - 1;
      RunShrinks(cfg, events, trace);
      RunLeadsTo(cfg, events[..n], trace[..n + 1]);
      RunIsValid(cfg, events[..n], trace[..n + 1]);
      StepLeadsTo(cfg, trace[n], events[n], trace[n + 1]);
      forall i | 0 <= i < n ensures LeadsTo(trace[i].h, events[i], trace[i + 1].h) {
        assert LeadsTo(trace[..n + 1][i].h, events[..n][i], trace[..n + 1][i + 1].h);
      }
    }
  }

  lemma {:induction false} RunShrinks(cfg: Config, events: seq<Event>, trace: seq<State>)
    requires IsRun(cfg, events, trace) && events != []
    ensures var n := |events| - 1;
            IsRun(cfg, events[..n], trace[..n + 1]) && Step(cfg, trace[n], events[n], trace[n + 1])
  {
    var n := |events| - 1;
    var earlier := trace[..n + 1];
    forall i | 0 <= i < n ensures Step(cfg, earlier[i], events[..n][i], earlier[i + 1]) {
      assert Step(cfg, trace[i], events[i], trace[i + 1]);
    }
    assert Step(cfg, trace[n], events[n], trace[n + 1]);
  }

  lemma {:induction false} RunIsValid(cfg: Config, events: seq<Event>, trace: seq<State>)
    requires cfg.Lawful() && IsRun(cfg, events, trace)
    ensures var s := trace[|events|];
            && Valid(cfg, s) && s.ingested == LinesOf(events)
            && (s.h.finalized, s.current) == CutInto(cfg.batchSize, events)
  {
    if events != [] {
      var n := |events| - 1;
      RunShrinks(cfg, events, trace);
      RunIsValid(cfg, events[..n], trace[..n + 1]);
      StepKeepsValid(cfg, trace[n], events[n], trace[n + 1]);
    }
  }

  /** At the end of a shutdown every line is in a batch and every batch has a fate. */
  lemma {:induction false} ShutDownKeeps(cfg: Config, s: State, queued: seq<string>, budget: nat, answers: seq<bool>,
                                         last: State)
    requires Kept(s) && ShutDown(cfg, s, queued, budget, answers, last)
    ensures Accounted(last.h) && |last.h.fates| == |last.h.finalized| && s.h.acts <= last.h.acts
    ensures AllLines(last.h.finalized) == s.ingested + queued
    ensures var lines := s.current + queued;
            last.h.finalized == if lines == [] then s.h.finalized else s.h.finalized + [lines]
  {
    var left := AfterFinalize(cfg, AfterLines(s, queued));
    LeftForThePass(cfg, s, queued);
    PassKeeps(cfg, left, budget, answers);
    PassIsFinal(left, budget, answers);
    PassLeavesLines(left, budget, answers);
    BodiesCount(last);
  }

  /** What shutdown leaves for the final pass: no open lines. */
  lemma {:induction false} LeftForThePass(cfg: Config, s: State, queued: seq<string>)
    requires Kept(s)
    ensures var left, lines := AfterFinalize(cfg, AfterLines(s, queued)), s.current + queued;
            && Kept(left) && left.current == [] && left.ingested == s.ingested + queued && left.h.acts == s.h.acts
            && AllLines(left.h.finalized) == s.ingested + queued
            && left.h.finalized == if lines == [] then s.h.finalized else s.h.finalized + [lines]
  {
    var joined := AfterLines(s, queued);
    LinesKeep(s, queued);
    FinalizeKeeps(cfg, joined);
    var left := AfterFinalize(cfg, joined);
    assert AllLines(left.h.finalized) + [] == AllLines(left.h.finalized);
  }

  lemma {:induction false} PassLeavesLines(s: State, budget: nat, answers: seq<bool>)
    requires |answers| <= |s.buffer|
    ensures AfterPass(s, budget, answers).current == s.current
    ensures AfterPass(s, budget, answers).ingested == s.ingested
  {
    if answers != [] { PassLeavesLines(s, budget, answers[..|answers| - 1]); }
  }

  /** Every run, whatever the events, the answers, what is queued at shutdown and
      the time left then. Until shutdown the history is steady. At the end the
      batches are exactly those that the lines fall into, and hold every line in
      the order of ingestion; every batch has one fate; and what the collector
      accepted are the delivered batches in that order. */
  lemma {:induction false} EveryRun(cfg: Config, events: seq<Event>, trace: seq<State>, queued: seq<string>,
                                    budget: nat, answers: seq<bool>, last: State)
    requires cfg.Lawful() && IsRun(cfg, events, trace)
    requires ShutDown(cfg, trace[|events|], queued, budget, answers, last)
    ensures Steady(cfg, trace[|events|].h)
    ensures var (batches, open) := CutInto(cfg.batchSize, events);
            && trace[|events|].h.finalized == batches
            && last.h.finalized == (if open + queued == [] then batches else batches + [open + queued])
    ensures AllLines(last.h.finalized) == LinesOf(events) + queued
    ensures Accounted(last.h) && |last.h.fates| == |last.h.finalized|
    ensures trace[|events|].h.acts <= last.h.acts
    ensures forall i :: 0 <= i < |events| ==> LeadsTo(trace[i].h, events[i], trace[i + 1].h)
    ensures Firings(trace[|events|].h.acts) == DueFirings(events, trace)
  {
    RunLeadsTo(cfg, events, trace);
    RunIsValid(cfg, events, trace);
    BodiesCount(trace[|events|]);
    ShutDownKeeps(cfg, trace[|events|], queued, budget, answers, last);
  }

  method Run(cfg: Config, events: seq<Event>, queued: seq<string>, budget: nat)
    returns (s: HttpSink, ghost trace: seq<State>, ghost answers: seq<bool>)
    requires cfg.Lawful()
    ensures IsRun(cfg, events, trace) && ShutDown(cfg, trace[|events|], queued, budget, answers, s.Now())
  {
    s := new HttpSink(cfg);
    trace, answers := [s.Now()], [];
    var i := 0;
    while i < |events|
      invariant 0 <= i <= |events| && fresh(s) && s.cfg == cfg
      invariant s.Fits() && |trace| == i + 1 && trace[i] == s.Now()
      invariant IsRun(cfg, events[..i], trace)
    {
      HandleEvent(s, events[i]);
      RunGrows(cfg, events, i, trace, s.Now());
      trace := trace + [s.Now()];
      i := i + 1;
    }
    assert events[..i] == events;
    var _, given := s.OnDone(queued, budget);
    answers := given;
  }

  /** One turn of the select. */
  method HandleEvent(s: HttpSink, event: Event)
    requires s.Fits()
    modifies s
    ensures s.Fits() && Step(s.cfg, old(s.Now()), event, s.Now())
  {
    match event {
      case Line(line) => s.OnLine(line);
      case FlushTick => s.OnFlushTick();
      case RetryTimer =>
        if s.timer.Some? {
          s.OnRetryTimer();
        }
    }
  }
}
