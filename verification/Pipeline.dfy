/** Stages, the chain that runs them, and the handler that forwards what the
    chain leaves: internal/pipeline and newHandler of internal/proxy/upstream.go. */
module Pipeline {
  import opened Basics
  import opened Wire

  datatype Decision = Continue | Block | Modify

  /** A request body: missing from the metadata, bytes that are not JSON, or a document. */
  datatype Body = Missing | NotJson | Doc(json: Json) {
    function AsJson(): Option<Json> {
      if Doc? then Some(json) else None
    }
  }

  /** What stages see of a request; F is what a stage records about its findings. */
  datatype State<+F> = State(host: string, verb: string, path: string, body: Body, findings: Option<F>)

  class RequestCtx<F> {
    const host: string
    const verb: string
    const path: string
    var body: Body
    var findings: Option<F>

    constructor (host: string, verb: string, path: string, body: Body)
      ensures Now() == State(host, verb, path, body, None)
    {
      this.host := host;
      this.verb := verb;
      this.path := path;
      this.body := body;
      this.findings := None;
    }

    function Now(): State<F>
      reads this
    {
      State(host, verb, path, body, findings)
    }
  }

  /** What a stage returns and makes of the request; a stage may also fail. */
  datatype Effect<+F> = Effect(decision: Decision, failed: bool, body: Body, findings: Option<F>)

  datatype Stage<!F> = Stage(name: string, process: State<F> -> Effect<F>)

  function After<F>(s: State<F>, e: Effect<F>): State<F> {
    s.(body := e.body, findings := e.findings)
  }

  /** The chain from stage i on: Block ends it, a failed stage counts as Continue. */
  function RunFrom<F>(stages: seq<Stage<F>>, i: nat, s: State<F>, result: Decision): (Decision, State<F>)
    requires i <= |stages|
    decreases |stages| - i
  {
    if i == |stages| then (result, s)
    else
      var e := stages[i].process(s);
      if e.decision == Block then (Block, After(s, e))
      else RunFrom(stages, i + 1, After(s, e), if !e.failed && e.decision == Modify then Modify else result)
  }

  class Chain<F> {
    var stages: seq<Stage<F>>

    constructor ()
      ensures stages == []
    {
      stages := [];
    }

    method Register(s: Stage<F>)
      modifies this
      ensures stages == old(stages) + [s]
    {
      stages := stages + [s];
    }

    method Run(rc: RequestCtx<F>) returns (decision: Decision)
      modifies rc
      ensures (decision, rc.Now()) == RunFrom(stages, 0, old(rc.Now()), Continue)
    {
      var result := Continue;
      var i := 0;
      while i < |stages|
        invariant 0 <= i <= |stages|
        invariant RunFrom(stages, i, rc.Now(), result) == RunFrom(stages, 0, old(rc.Now()), Continue)
      {
        var e := stages[i].process(rc.Now());
        rc.body := e.body;
        rc.findings := e.findings;
        if e.decision == Block {
          return Block;
        }
        if !e.failed && e.decision == Modify {
          result := Modify;
        }
        i := i + 1;
      }
      return result;
    }
  }

  /** What the proxy does with a request once its body is read. */
  datatype Handled = Refused | Forwarded(body: Body)

  /** The handler as a function: a blocked request is not forwarded, any other
      with the body its metadata holds, or its own when there is none. */
  function Handling<F>(stages: seq<Stage<F>>, s: State<F>): (Decision, Handled) {
    var (decision, after) := RunFrom(stages, 0, s, Continue);
    (decision, if decision == Block then Refused else Forwarded(if after.body.Missing? then s.body else after.body))
  }

  method Handle<F>(chain: Chain<F>, host: string, verb: string, path: string, body: Body)
    returns (decision: Decision, handled: Handled)
    ensures (decision, handled) == Handling(chain.stages, State(host, verb, path, body, None))
  {
    var rc := new RequestCtx<F>(host, verb, path, body);
    decision := chain.Run(rc);
    if decision == Block {
      return Block, Refused;
    }
    var forward := body;
    if !rc.body.Missing? {
      forward := rc.body;
    }
    handled := Forwarded(forward);
  }

  // ----- what a chain guarantees

  ghost predicate KeepsBody<F(!new)>(stage: Stage<F>) {
    forall s: State<F> :: stage.process(s).body == s.body
  }

  /** A chain in which only stage j may replace the body: if that stage blocks on
      the body the request came with, the request is refused; what is forwarded
      otherwise is what that stage leaves. */
  ghost predicate OneEditor<F(!new)>(stages: seq<Stage<F>>, j: nat) {
    j < |stages| && forall k :: 0 <= k < |stages| && k != j ==> KeepsBody(stages[k])
  }

  lemma {:induction false} BodyKept<F(!new)>(stages: seq<Stage<F>>, i: nat, s: State<F>, result: Decision)
    requires i <= |stages| && forall k :: i <= k < |stages| ==> KeepsBody(stages[k])
    ensures RunFrom(stages, i, s, result).1.body == s.body
    decreases |stages| - i
  {
    if i < |stages| && stages[i].process(s).decision != Block {
      BodyKept(stages, i + 1, After(s, stages[i].process(s)),
               if !stages[i].process(s).failed && stages[i].process(s).decision == Modify then Modify else result);
    }
  }

  /** The request as stage j meets it. */
  ghost predicate Reaches<F(!new)>(s: State<F>, t: State<F>) {
    t.host == s.host && t.verb == s.verb && t.path == s.path && t.body == s.body
  }

  lemma {:induction false} EditorDecidesFrom<F(!new)>(stages: seq<Stage<F>>, j: nat, i: nat, s: State<F>,
                                                      result: Decision)
    requires OneEditor(stages, j) && i <= j
    ensures var (decision, after) := RunFrom(stages, i, s, result);
            decision != Block ==>
              exists t :: Reaches(s, t) && stages[j].process(t).decision != Block
                  && after.body == stages[j].process(t).body
    decreases |stages| - i
  {
    var e := stages[i].process(s);
    var next := if !e.failed && e.decision == Modify then Modify else result;
    if RunFrom(stages, i, s, result).0 != Block {
      if i < j {
        assert KeepsBody(stages[i]);
        EditorDecidesFrom(stages, j, i + 1, After(s, e), next);
        var t :| Reaches(After(s, e), t) && stages[j].process(t).decision != Block
                 && RunFrom(stages, i, s, result).1.body == stages[j].process(t).body;
        assert Reaches(s, t);
      } else {
        BodyKept(stages, i + 1, After(s, e), next);
        assert Reaches(s, s);
      }
    }
  }

  /** A forwarded request is one the editing stage let pass, with the body it left. */
  lemma {:induction false} ForwardedIsEdited<F(!new)>(stages: seq<Stage<F>>, j: nat, s: State<F>)
    requires OneEditor(stages, j) && Handling(stages, s).1.Forwarded?
    ensures exists t :: Reaches(s, t) && stages[j].process(t).decision != Block
              && Handling(stages, s).1.body
                 == if stages[j].process(t).body.Missing? then s.body else stages[j].process(t).body
  {
    EditorDecidesFrom(stages, j, 0, s, Continue);
  }

  // ----- exactly what a chain decides

  /** The request after the first i stages, when none of them ends the chain. */
  function StateAt<F>(stages: seq<Stage<F>>, s: State<F>, i: nat): State<F>
    requires i <= |stages|
  {
    if i == 0 then s
    else
      var t := StateAt(stages, s, i - 1);
      After(t, stages[i - 1].process(t))
  }

  predicate BlocksAt<F>(stages: seq<Stage<F>>, s: State<F>, i: nat)
    requires i < |stages|
  {
    stages[i].process(StateAt(stages, s, i)).decision == Block
  }

  predicate ModifiesAt<F>(stages: seq<Stage<F>>, s: State<F>, i: nat)
    requires i < |stages|
  {
    var e := stages[i].process(StateAt(stages, s, i));
    e.decision == Modify && !e.failed
  }

  lemma {:induction false} RunFromExactly<F>(stages: seq<Stage<F>>, s: State<F>, i: nat, result: Decision)
    requires i <= |stages| && result != Block
    ensures var (decision, after) := RunFrom(stages, i, StateAt(stages, s, i), result);
            && (decision == Block <==> exists j :: i <= j < |stages| && BlocksAt(stages, s, j))
            && (decision != Block ==>
                  && after == StateAt(stages, s, |stages|)
                  && decision == if exists j :: i <= j < |stages| && ModifiesAt(stages, s, j) then Modify else result)
    decreases |stages| - i
  {
    if i < |stages| && !BlocksAt(stages, s, i) {
      RunFromExactly(stages, s, i + 1, if ModifiesAt(stages, s, i) then Modify else result);
    }
  }

  /** A request is refused if and only if some stage it reaches blocks it; any other
      is forwarded, with the body the stages leave, or its own when they leave none. */
  lemma {:induction false} HandledExactly<F>(stages: seq<Stage<F>>, s: State<F>)
    ensures var (decision, handled) := Handling(stages, s);
            && (handled == Refused <==> exists j :: 0 <= j < |stages| && BlocksAt(stages, s, j))
            && (decision == Block <==> handled == Refused)
            && (handled.Forwarded? ==>
                  && (decision == Modify <==> exists j :: 0 <= j < |stages| && ModifiesAt(stages, s, j))
                  && var left := StateAt(stages, s, |stages|).body;
                     handled.body == if left == Missing then s.body else left)
  {
    RunFromExactly(stages, s, 0, Continue);
  }
}
