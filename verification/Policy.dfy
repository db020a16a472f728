/** Policies and how they decide a finding: internal/policy/policy.go. */
module Policy {
  import opened Basics
  import opened Detector
  import opened Glob

  datatype Action = Warn | Allow | Block | Redact

  /** The conditions of a rule; `pattern` is a compiled glob. Path conditions
      concern another stage and never make a rule match a finding. */
  datatype Match = Match(pattern: Option<GlobPattern>, severity: Option<Severity>, all: bool)

  datatype Rule = Rule(name: string, conditions: Match, action: Action)

  datatype Policy = Policy(rules: seq<Rule>)

  predicate RuleMatches(m: Match, f: Finding) {
    if m.all then true
    else if m.pattern.Some? && !MatchesCompiled(m.pattern, f.pattern) then false
    else if m.severity.Some? && m.severity.value != f.severity then false
    else m.pattern.Some? || m.severity.Some?
  }

  /** The first matching rule from i on. */
  function FirstMatch(rules: seq<Rule>, f: Finding, i: nat): Option<Rule>
    requires i <= |rules|
    decreases |rules| - i
  {
    if i == |rules| then None
    else if RuleMatches(rules[i].conditions, f) then Some(rules[i])
    else FirstMatch(rules, f, i + 1)
  }

  /** The action for a finding and the name of the rule that decided it; no policy warns. */
  function Decide(p: Option<Policy>, f: Finding): (Action, string) {
    match p
    case None => (Warn, "")
    case Some(policy) =>
      match FirstMatch(policy.rules, f, 0)
      case None => (Warn, "")
      case Some(rule) => (rule.action, rule.name)
  }

  function RuleCount(p: Option<Policy>): nat {
    match p case None => 0 case Some(policy) => |policy.rules|
  }

  /** Rules are tried in order and the first match wins. */
  lemma {:induction false} FirstMatchWins(rules: seq<Rule>, f: Finding, i: nat)
    requires i <= |rules|
    ensures match FirstMatch(rules, f, i)
            case None => forall j :: i <= j < |rules| ==> !RuleMatches(rules[j].conditions, f)
            case Some(rule) =>
              exists j :: i <= j < |rules| && rule == rules[j] && RuleMatches(rule.conditions, f)
                && forall l :: i <= l < j ==> !RuleMatches(rules[l].conditions, f)
    decreases |rules| - i
  {
    if i < |rules| && !RuleMatches(rules[i].conditions, f) {
      FirstMatchWins(rules, f, i + 1);
    }
  }

  // ----- what a policy decides

  /** Every pattern is one that compiling a glob gave. */
  predicate FromGlobs(rules: seq<Rule>) {
    forall i :: 0 <= i < |rules| && rules[i].conditions.pattern.Some? ==>
      Compiled(rules[i].conditions.pattern.value.raw) == rules[i].conditions.pattern
  }

  /** A rule is meant for a finding when it is a catch-all, or has a condition and
      meets all it has: the finding's severity, a glob for the name of its pattern. */
  ghost predicate Meant(rule: Rule, f: Finding) {
    var Match(pattern, severity, all) := rule.conditions;
    || all
    || (&& (pattern.Some? || severity.Some?)
        && (pattern.Some? ==> GlobMatches(pattern.value.raw, f.pattern, NoNewline))
        && (severity.Some? ==> f.severity == severity.value))
  }

  /** The first rule meant for a finding decides it; without one, and without a
      policy, the finding is only warned about. */
  lemma {:induction false} DecideExactly(rules: seq<Rule>, f: Finding)
    requires FromGlobs(rules)
    ensures Decide(None, f) == (Warn, "")
    ensures (forall i :: 0 <= i < |rules| ==> !Meant(rules[i], f)) ==> Decide(Some(Policy(rules)), f) == (Warn, "")
    ensures forall i :: 0 <= i < |rules| && Meant(rules[i], f) && (forall l :: 0 <= l < i ==> !Meant(rules[l], f)) ==>
              Decide(Some(Policy(rules)), f) == (rules[i].action, rules[i].name)
  {
    forall i | 0 <= i < |rules| ensures Meant(rules[i], f) <==> RuleMatches(rules[i].conditions, f) {
      var pattern := rules[i].conditions.pattern;
      if pattern.Some? {
        CompiledGlobIsTheGlob(pattern.value.raw, f.pattern);
      }
    }
    FirstMatchWins(rules, f, 0);
  }
}
