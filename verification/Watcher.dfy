/** The debounce loop of internal/policy/watcher.go as interleaved steps of the
    file system, the timer, its callbacks and the event loop. */
module Watcher {
  import opened Basics

  /** A create, write or rename of the policy file, or any event the loop does not reload for. */
  datatype FileEvent = Change | Other

  /** `version` counts the writes to the file and `loaded` is the version the last
      load saw. `armed` is the latest timer while it has neither fired nor been
      stopped; `firing` counts callbacks that have started but not yet tried to
      put their token; `token` is the channel of capacity one. `dirty` tells
      whether a change was handled since the last load. */
  datatype State = State(
    version: nat,
    loaded: nat,
    events: seq<FileEvent>,
    armed: bool,
    firing: nat,
    token: bool,
    dirty: bool,
    handled: nat,
    loads: nat)

  datatype Step = Write | OtherChange | Handle | TimerFires | PutToken | Load

  const START := State(0, 0, [], false, 0, false, false, 0, 0)

  predicate Enabled(s: State, step: Step) {
    match step
    case Write => true
    case OtherChange => true
    case Handle => s.events != []
    case TimerFires => s.armed
    case PutToken => s.firing > 0
    case Load => s.token
  }

  /** Stopping a timer that has already fired does not stop its callback, so a
      change may be handled while older callbacks are still on their way. */
  function Apply(s: State, step: Step): State
    requires Enabled(s, step)
  {
    match step
    case Write => s.(version := s.version + 1, events := s.events + [Change])
    case OtherChange => s.(events := s.events + [Other])
    case Handle =>
      if s.events[0] == Change then ScheduleLoad(s.(events := s.events[1..]))
      else s.(events := s.events[1..])
    case TimerFires => s.(armed := false, firing := s.firing + 1)
    case PutToken => s.(firing := s.firing - 1, token := true)
    case Load => s.(token := false, dirty := false, loads := s.loads + 1, loaded := s.version)
  }

  /** timer.Stop on the old timer, if it has not fired, and a new one. */
  function ScheduleLoad(s: State): State {
    var stopped := s.(armed := false);
    stopped.(armed := true, dirty := true, handled := s.handled + 1)
  }

  function One(b: bool): nat {
    if b then 1 else 0
  }

  function Changes(events: seq<FileEvent>): nat {
    if events == [] then 0 else (if events[0] == Change then 1 else 0) + Changes(events[1..])
  }

  lemma {:induction false} ChangesAppend(events: seq<FileEvent>, e: FileEvent)
    ensures Changes(events + [e]) == Changes(events) + (if e == Change then 1 else 0)
  {
    if events != [] {
      ChangesAppend(events[1..], e);
      assert (events + [e])[1..] == events[1..] + [e];
    }
  }

  ghost predicate Inv(s: State) {
    && (s.dirty ==> s.armed || s.firing > 0 || s.token)
    && s.loads + One(s.token) + s.firing + One(s.armed) <= s.handled
    && s.handled + Changes(s.events) == s.version && s.loaded <= s.version
    && (s.loaded < s.version ==> s.dirty || Change in s.events)
  }

  lemma {:induction false} StepKeepsInv(s: State, step: Step)
    requires Inv(s) && Enabled(s, step)
    ensures Inv(Apply(s, step))
  {
    ChangesAppend(s.events, Change);
    ChangesAppend(s.events, Other);
    if step == Handle && Change in s.events && s.events[0] != Change {
      assert s.events == [s.events[0]] + s.events[1..];
    }
  }

  function Ran(s: State, steps: seq<Step>): Option<State>
    decreases |steps|
  {
    if steps == [] then Some(s)
    else if !Enabled(s, steps[0]) then None
    else Ran(Apply(s, steps[0]), steps[1..])
  }

  lemma {:induction false} RunKeepsInv(s: State, steps: seq<Step>)
    requires Inv(s)
    ensures Ran(s, steps).Some? ==> Inv(Ran(s, steps).value)
    decreases |steps|
  {
    if steps != [] && Enabled(s, steps[0]) {
      StepKeepsInv(s, steps[0]);
      RunKeepsInv(Apply(s, steps[0]), steps[1..]);
    }
  }

  /** How often a run of steps writes the file. */
  function Writes(steps: seq<Step>): nat {
    if steps == [] then 0 else (if steps[0] == Write then 1 else 0) + Writes(steps[1..])
  }

  lemma {:induction false} VersionCountsWrites(s: State, steps: seq<Step>)
    ensures Ran(s, steps).Some? ==> Ran(s, steps).value.version == s.version + Writes(steps)
    decreases |steps|
  {
    if steps != [] && Enabled(s, steps[0]) {
      VersionCountsWrites(Apply(s, steps[0]), steps[1..]);
    }
  }

  /** Nothing is pending: no change to handle, no timer, no callback, no token. */
  predicate Quiescent(s: State) {
    Change !in s.events && !s.armed && s.firing == 0 && !s.token
  }

  /** In every run of a watcher that is neither closed nor cancelled: a change
      handled since the last load still has a timer, a callback or a token on
      its behalf; there are no more loads than writes of the file, so that no other
      event ever causes one; and when nothing is pending the file as it is has been
      loaded. */
  lemma {:induction false} NoReloadIsLost(steps: seq<Step>)
    requires Ran(START, steps).Some?
    ensures var s := Ran(START, steps).value;
            && (s.dirty ==> s.armed || s.firing > 0 || s.token)
            && s.loads <= s.handled <= Writes(steps) == s.version
            && (Quiescent(s) ==> !s.dirty && s.loaded == s.version)
  {
    RunKeepsInv(START, steps);
    VersionCountsWrites(START, steps);
  }

  // ----- and it comes to rest

  predicate Internal(step: Step) {
    step != Write && step != OtherChange
  }

  function Work(s: State): nat {
    4 * |s.events| + 3 * One(s.armed) + 2 * s.firing + One(s.token)
  }

  /** Unless everything is handled and nothing pending, some step other than a
      write is possible, and each such step uses up work: left alone, the watcher
      comes to rest, and then it has loaded the file as it is. */
  lemma {:induction false} ComesToRest(s: State)
    requires Inv(s)
    ensures Quiescent(s) || exists step :: Internal(step) && Enabled(s, step)
    ensures forall step :: Internal(step) && Enabled(s, step) ==> Work(Apply(s, step)) < Work(s) && Inv(Apply(s, step))
    ensures Work(s) == 0 ==> Quiescent(s) && s.loaded == s.version
  {
    if !Quiescent(s) {
      if s.events != [] { assert Enabled(s, Handle); }
      else if s.armed { assert Enabled(s, TimerFires); }
      else if s.firing > 0 { assert Enabled(s, PutToken); }
      else { assert Enabled(s, Load); }
    }
    forall step | Internal(step) && Enabled(s, step) ensures Work(Apply(s, step)) < Work(s) && Inv(Apply(s, step)) {
      StepKeepsInv(s, step);
    }
  }
}
