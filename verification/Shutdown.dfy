/** The shutdown protocol that internal/audit/writer.go and internal/audit/httpsink.go share.

    Any number of loggers, one runner and one closer take steps in any order. The
    file writer has a channel for records and one for events, the sink has a
    single channel; the model has any number of them. */
module Shutdown {
  import opened Basics

  /** A logger outside a call, or past the check of the closed flag with an item for a channel. */
  datatype Logger<T> = Idle | Passed(channel: nat, item: T)

  datatype Runner = Running | Draining | Exited

  datatype Closer = Open | FlagSet | DoneClosed | Returned

  /** `sent` and `consumed` are the items of each channel so far; `mark` is how
      many had been sent on each when `done` was closed. */
  datatype State<T> = State(
    capacity: nat,
    loggers: seq<Logger<T>>,
    queues: seq<seq<T>>,
    runner: Runner,
    closer: Closer,
    sent: seq<seq<T>>,
    consumed: seq<seq<T>>,
    mark: seq<nat>)
  {
    /** The closed flag, which Close sets first. */
    predicate Closed() {
      closer != Open
    }

    /** The done channel, closed after the flag is set. */
    predicate Done() {
      closer == DoneClosed || closer == Returned
    }
  }

  datatype Step<T> =
    | Check(logger: nat, channel: nat, item: T)
    | Send(logger: nat)
    | Receive(channel: nat)
    | SeeDone
    | Exit
    | SetFlag
    | CloseDone
    | Return

  predicate Enabled<T>(s: State<T>, step: Step<T>) {
    match step
    case Check(l, c, _) => l < |s.loggers| && s.loggers[l].Idle? && c < |s.queues|
    case Send(l) => l < |s.loggers| && s.loggers[l].Passed? && s.loggers[l].channel < |s.queues|
    case Receive(c) => s.runner != Exited && c < |s.queues| && s.queues[c] != []
    case SeeDone => s.runner == Running && s.Done()
    case Exit => s.runner == Draining && forall c :: 0 <= c < |s.queues| ==> s.queues[c] == []
    case SetFlag => s.closer == Open
    case CloseDone => s.closer == FlagSet
    case Return => s.closer == DoneClosed && s.runner == Exited
  }

  ghost predicate Shaped<T>(s: State<T>) {
    |s.sent| == |s.consumed| == |s.queues|
  }

  /** A logger that finds the flag set returns; one past the check sends unless the
      channel is full, when the item is dropped. */
  function Apply<T>(s: State<T>, step: Step<T>): State<T>
    requires Shaped(s) && Enabled(s, step)
  {
    match step
    case Check(l, c, item) => if s.Closed() then s else s.(loggers := s.loggers[l := Passed(c, item)])
    case Send(l) =>
      var Passed(c, item) := s.loggers[l];
      var idle := s.(loggers := s.loggers[l := Idle]);
      if |s.queues[c]| < s.capacity then
        idle.(queues := s.queues[c := s.queues[c] + [item]], sent := s.sent[c := s.sent[c] + [item]])
      else idle
    case Receive(c) =>
      s.(queues := s.queues[c := s.queues[c][1..]], consumed := s.consumed[c := s.consumed[c] + [s.queues[c][0]]])
    case SeeDone => s.(runner := Draining)
    case Exit => s.(runner := Exited)
    case SetFlag => s.(closer := FlagSet)
    case CloseDone => s.(closer := DoneClosed, mark := Lengths(s.sent))
    case Return => s.(closer := Returned)
  }

  function Lengths<T>(ss: seq<seq<T>>): (r: seq<nat>)
    ensures |r| == |ss| && forall c :: 0 <= c < |ss| ==> r[c] == |ss[c]|
  {
    seq(|ss|, c requires 0 <= c < |ss| => |ss[c]|)
  }

  function Start<T>(capacity: nat, loggers: nat, channels: nat): State<T> {
    State(capacity, seq(loggers, _ => Idle), seq(channels, _ => []), Running, Open,
          seq(channels, _ => []), seq(channels, _ => []), seq(channels, _ => 0))
  }

  // ----- what every step keeps

  ghost predicate Inv<T>(s: State<T>) {
    && Shaped(s) && |s.mark| == |s.queues|
    && (forall c :: 0 <= c < |s.queues| ==>
          && s.sent[c] == s.consumed[c] + s.queues[c]
          && |s.queues[c]| <= s.capacity
          && (s.Done() ==> s.mark[c] <= |s.sent[c]|)
          && (s.runner == Exited ==> s.mark[c] <= |s.consumed[c]|))
    && (s.runner != Running ==> s.Done())
    && (s.closer == Returned ==> s.runner == Exited)
  }

  lemma {:induction false} StepKeepsInv<T>(s: State<T>, step: Step<T>)
    requires Inv(s) && Enabled(s, step)
    ensures Inv(Apply(s, step))
  {
    var t := Apply(s, step);
    forall c | 0 <= c < |t.queues|
      ensures t.sent[c] == t.consumed[c] + t.queues[c] && |t.queues[c]| <= t.capacity
      ensures t.Done() ==> t.mark[c] <= |t.sent[c]|
      ensures t.runner == Exited ==> t.mark[c] <= |t.consumed[c]|
    {
      assert s.sent[c] == s.consumed[c] + s.queues[c];
    }
  }

  /** A run of the system, None when a step was not enabled. */
  function Ran<T>(s: State<T>, steps: seq<Step<T>>): Option<State<T>>
    requires Shaped(s)
    decreases |steps|
  {
    if steps == [] then Some(s)
    else if !Enabled(s, steps[0]) then None
    else Ran(Apply(s, steps[0]), steps[1..])
  }

  lemma {:induction false} RunKeepsInv<T>(s: State<T>, steps: seq<Step<T>>)
    requires Inv(s)
    ensures var t := Ran(s, steps); t.Some? ==> Inv(t.value)
    decreases |steps|
  {
    if steps != [] && Enabled(s, steps[0]) {
      StepKeepsInv(s, steps[0]);
      RunKeepsInv(Apply(s, steps[0]), steps[1..]);
    }
  }

  /** In every run in which `done` is closed after the steps `before` and Close
      returns: each channel's items have been consumed in the order in which they
      were sent, each exactly once, and all those sent before `done` was closed. */
  lemma {:induction false} EverythingSentBeforeDoneIsConsumed<T>(capacity: nat, loggers: nat, channels: nat,
                                                                 before: seq<Step<T>>, after: seq<Step<T>>, c: nat)
    requires c < channels
    requires var end := Ran(Start(capacity, loggers, channels), before + [CloseDone] + after);
             end.Some? && end.value.closer == Returned
    ensures var closing := Ran(Start(capacity, loggers, channels), before);
            var end := Ran(Start(capacity, loggers, channels), before + [CloseDone] + after).value;
            && closing.Some? && |closing.value.sent| == |end.sent| == |end.consumed| == channels
            && closing.value.sent[c] <= end.consumed[c] <= end.sent[c]
  {
    var start: State<T> := Start(capacity, loggers, channels);
    assert Inv(start);
    assert before + ([CloseDone] + after) == before + [CloseDone] + after;
    RunSplits(start, before, [CloseDone] + after);
    RunKeepsInv(start, before);
    RunKeepsChannels(start, before);
    var closing := Ran(start, before).value;
    assert ([CloseDone] + after)[1..] == after;
    var closed := Apply(closing, CloseDone);
    StepKeepsInv(closing, CloseDone);
    MarkIsFinal(closed, after);
    RunKeepsInv(closed, after);
    RunKeepsChannels(closed, after);
    SentOnlyGrows(closed, after, c);
  }

  lemma {:induction false} RunSplits<T>(s: State<T>, a: seq<Step<T>>, b: seq<Step<T>>)
    requires Inv(s) && Ran(s, a + b).Some?
    ensures Ran(s, a).Some? && Inv(Ran(s, a).value) && Ran(Ran(s, a).value, b) == Ran(s, a + b)
    decreases |a|
  {
    if a == [] {
      assert a + b == b;
    } else {
      assert (a + b)[1..] == a[1..] + b;
      StepKeepsInv(s, a[0]);
      RunSplits(Apply(s, a[0]), a[1..], b);
    }
  }

  lemma {:induction false} SentOnlyGrows<T>(s: State<T>, steps: seq<Step<T>>, c: nat)
    requires Inv(s) && c < |s.queues|
    ensures var t := Ran(s, steps); t.Some? ==> c < |t.value.sent| && s.sent[c] <= t.value.sent[c]
    decreases |steps|
  {
    if steps != [] && Enabled(s, steps[0]) {
      StepKeepsInv(s, steps[0]);
      SentOnlyGrows(Apply(s, steps[0]), steps[1..], c);
    }
  }

  lemma {:induction false} RunKeepsChannels<T>(s: State<T>, steps: seq<Step<T>>)
    requires Inv(s)
    ensures var t := Ran(s, steps); t.Some? ==> |t.value.queues| == |s.queues|
    decreases |steps|
  {
    if steps != [] && Enabled(s, steps[0]) {
      StepKeepsInv(s, steps[0]);
      RunKeepsChannels(Apply(s, steps[0]), steps[1..]);
    }
  }

  /** The mark is taken when `done` is closed and never moves. */
  lemma {:induction false} MarkIsFinal<T>(s: State<T>, steps: seq<Step<T>>)
    requires Inv(s) && s.Done()
    ensures var t := Ran(s, steps); t.Some? ==> t.value.mark == s.mark && t.value.Done()
    decreases |steps|
  {
    if steps != [] && Enabled(s, steps[0]) {
      StepKeepsInv(s, steps[0]);
      MarkIsFinal(Apply(s, steps[0]), steps[1..]);
    }
  }

  // ----- the drain ends

  function PassedCount<T>(loggers: seq<Logger<T>>): nat {
    if loggers == [] then 0
    else PassedCount(loggers[..|loggers| - 1]) + (if loggers[|loggers| - 1].Passed? then 1 else 0)
  }

  function Queued<T>(queues: seq<seq<T>>): nat {
    if queues == [] then 0 else Queued(queues[..|queues| - 1]) + |queues[|queues| - 1]|
  }

  /** Callers past the check count twice: they may still queue an item, which must then be consumed. */
  function Remaining<T>(s: State<T>): nat {
    2 * PassedCount(s.loggers) + Queued(s.queues)
  }

  lemma {:induction false} PassedCountUpdate<T>(loggers: seq<Logger<T>>, l: nat)
    requires l < |loggers| && loggers[l].Passed?
    ensures PassedCount(loggers[l := Idle]) == PassedCount(loggers) - 1
  {
    var front := loggers[..|loggers| - 1];
    if l < |front| {
      PassedCountUpdate(front, l);
      assert loggers[l := Idle][..|loggers| - 1] == front[l := Idle];
    } else {
      assert loggers[l := Idle][..|loggers| - 1] == front;
    }
  }

  lemma {:induction false} QueuedUpdate<T>(queues: seq<seq<T>>, c: nat, q: seq<T>)
    requires c < |queues|
    ensures Queued(queues[c := q]) == Queued(queues) - |queues[c]| + |q|
  {
    var front := queues[..|queues| - 1];
    if c < |front| {
      QueuedUpdate(front, c, q);
      assert queues[c := q][..|queues| - 1] == front[c := q];
    } else {
      assert queues[c := q][..|queues| - 1] == front;
    }
  }

  predicate Moves<T>(step: Step<T>) {
    step.Send? || step.Receive?
  }

  /** Once the flag is set, a send or a receive uses up some of what remains and nothing adds to it. */
  lemma {:induction false} StepShrinks<T>(s: State<T>, step: Step<T>)
    requires Inv(s) && s.Closed() && Enabled(s, step)
    ensures Remaining(Apply(s, step)) <= Remaining(s) - (if Moves(step) then 1 else 0)
    ensures Apply(s, step).Closed()
  {
    match step {
      case Send(l) =>
        PassedCountUpdate(s.loggers, l);
        var c := s.loggers[l].channel;
        QueuedUpdate(s.queues, c, s.queues[c] + [s.loggers[l].item]);
      case Receive(c) => QueuedUpdate(s.queues, c, s.queues[c][1..]);
      case _ =>
    }
  }

  function MoveCount<T>(steps: seq<Step<T>>): nat {
    if steps == [] then 0 else (if Moves(steps[0]) then 1 else 0) + MoveCount(steps[1..])
  }

  /** After the flag is set, whatever the interleaving, the sends and receives of
      the whole rest of the run number at most twice the callers already past the
      check plus the items queued; and while it drains the runner can always move,
      so the drain ends. */
  lemma {:induction false} DrainTerminates<T>(s: State<T>, steps: seq<Step<T>>)
    requires Inv(s) && s.Closed() && Ran(s, steps).Some?
    ensures MoveCount(steps) <= Remaining(s)
    ensures s.runner == Draining ==> Enabled(s, Exit) || exists c :: 0 <= c < |s.queues| && Enabled(s, Receive(c))
    decreases |steps|
  {
    if steps != [] {
      StepShrinks(s, steps[0]);
      StepKeepsInv(s, steps[0]);
      DrainTerminates(Apply(s, steps[0]), steps[1..]);
    }
    if s.runner == Draining && !Enabled(s, Exit) {
      var c :| 0 <= c < |s.queues| && s.queues[c] != [];
      assert Enabled(s, Receive(c));
    }
  }

  // ----- what is offered is sent, what is queued can be received, and Close returns

  /** A logger that finds the flag unset and room in the channel sends its item,
      after whatever is there; into a full channel, and once the flag is set, it
      sends nothing. */
  lemma {:induction false} OfferIsSent<T>(s: State<T>, l: nat, c: nat, item: T)
    requires Inv(s) && l < |s.loggers| && s.loggers[l].Idle? && c < |s.queues|
    ensures Enabled(s, Check(l, c, item))
    ensures !s.Closed() ==>
              var t := Ran(s, [Check(l, c, item), Send(l)]);
              && t.Some?
              && t.value.sent == (if |s.queues[c]| < s.capacity then s.sent[c := s.sent[c] + [item]] else s.sent)
              && t.value.queues
                  == (if |s.queues[c]| < s.capacity then s.queues[c := s.queues[c] + [item]] else s.queues)
    ensures s.Closed() ==> Apply(s, Check(l, c, item)) == s
  {
    var send: seq<Step<T>> := [Send(l)];
    if !s.Closed() {
      var checked := Apply(s, Check(l, c, item));
      StepKeepsInv(s, Check(l, c, item));
      RanOneMore(s, Check(l, c, item), send);
      RanOneMore(checked, send[0], []);
      assert [Check(l, c, item)] + send == [Check(l, c, item), Send(l)] && [send[0]] + [] == send;
    }
  }

  /** A runner that has not exited can always take the oldest item of a channel. */
  lemma {:induction false} QueuedIsReceived<T>(s: State<T>, c: nat)
    requires Inv(s) && s.runner != Exited && c < |s.queues| && s.queues[c] != []
    ensures Enabled(s, Receive(c))
    ensures var t := Apply(s, Receive(c));
            t.consumed[c] == s.consumed[c] + [s.queues[c][0]] && t.queues[c] == s.queues[c][1..]
  {}

  lemma {:induction false} RanOneMore<T>(s: State<T>, step: Step<T>, more: seq<Step<T>>)
    requires Inv(s) && Enabled(s, step)
    ensures Ran(s, [step] + more) == Ran(Apply(s, step), more)
  {
    assert ([step] + more)[1..] == more;
  }

  /** From every state that a run can reach, steps of the closer and the runner
      alone bring Close to its return. */
  lemma {:induction false} CloseCanReturn<T>(s: State<T>) returns (steps: seq<Step<T>>)
    requires Inv(s)
    ensures Ran(s, steps).Some? && Ran(s, steps).value.closer == Returned
    ensures forall i :: 0 <= i < |steps| ==> !steps[i].Check? && !steps[i].Send?
    decreases Distance(s.closer), if s.runner == Running then 2 else if s.runner == Draining then 1
        else 0, Queued(s.queues)
  {
    if s.closer == Returned {
      return [];
    }
    var step: Step<T>;
    if s.closer == Open {
      step := SetFlag;
    } else if s.closer == FlagSet {
      step := CloseDone;
    } else if s.runner == Running {
      step := SeeDone;
    } else if s.runner == Draining {
      if c :| 0 <= c < |s.queues| && s.queues[c] != [] {
        step := Receive(c);
        QueuedUpdate(s.queues, c, s.queues[c][1..]);
      } else {
        step := Exit;
      }
    } else {
      step := Return;
    }
    StepKeepsInv(s, step);
    var more := CloseCanReturn(Apply(s, step));
    RanOneMore(s, step, more);
    steps := [step] + more;
  }

  function Distance(closer: Closer): nat {
    match closer case Open => 3 case FlagSet => 2 case DoneClosed => 1 case Returned => 0
  }
}
