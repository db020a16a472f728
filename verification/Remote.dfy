/** Reloading a policy from a URL: internal/policy/remote.go, with the callbacks
    and the start-up of cmd/runveil/proxy.go. */
module Remote {
  import opened Basics
  import opened Policy
  import opened Provider

  /** The answer to a GET; a body of None could not be read. */
  datatype Response =
    | TransportFailure
    | Reply(status: int, etag: string, lastModified: string, body: Option<string>)

  /** A policy_reload audit event. */
  datatype ReloadEvent = Accepted(rulesBefore: nat, rulesAfter: nat) | Rejected(rulesBefore: nat)

  /** What an answer to a poll amounts to. */
  datatype Verdict = Quiet | Invalid | Valid(policy: Policy)

  function JudgeBody(load: string -> Option<Policy>, body: string): Verdict {
    if body == "" then Invalid
    else match load(body) case None => Invalid case Some(p) => Valid(p)
  }

  function Judge(load: string -> Option<Policy>, r: Response): Verdict {
    match r
    case TransportFailure => Quiet
    case Reply(status, _, _, body) =>
      if status == 304 || status < 200 || status >= 300 || body.None? then Quiet
      else JudgeBody(load, body.value)
  }

  /** A reply in the 200s whose body was read. */
  predicate Served(r: Response, body: string) {
    r.Reply? && 200 <= r.status <= 299 && r.body == Some(body)
  }

  predicate Loads(load: string -> Option<Policy>, body: string) {
    body != "" && load(body).Some?
  }

  /** A served policy that loads is accepted, one that is empty or does not load is
      rejected, and everything else is passed over. */
  lemma {:induction false} JudgeExactly(load: string -> Option<Policy>, r: Response)
    ensures forall p :: Judge(load, r) == Valid(p) <==>
                        exists body :: Served(r, body) && Loads(load, body) && load(body) == Some(p)
    ensures Judge(load, r) == Invalid <==> exists body :: Served(r, body) && !Loads(load, body)
    ensures Judge(load, r) == Quiet <==> r.TransportFailure? || !(200 <= r.status <= 299) || r.body.None?
  {
    if r.Reply? && r.body.Some? && 200 <= r.status <= 299 {
      assert Served(r, r.body.value);
    }
  }

  /** The callbacks of the proxy: the cell of the active policy and the audit log. */
  class Reloads {
    const policies: Provider
    var events: seq<ReloadEvent>

    constructor (policies: Provider)
      ensures this.policies == policies && events == []
    {
      this.policies := policies;
      events := [];
    }

    method OnAccept(np: Policy)
      modifies this, policies
      ensures policies.p == Some(np)
      ensures events == old(events) + [Accepted(RuleCount(old(policies.p)), RuleCount(Some(np)))]
      ensures RuleCount(Some(np)) == |np.rules|
    {
      var current := policies.Get();
      var before := RuleCount(current);
      policies.Set(Some(np));
      events := events + [Accepted(before, RuleCount(Some(np)))];
    }

    method OnReject()
      modifies this
      ensures events == old(events) + [Rejected(RuleCount(policies.p))]
    {
      var current := policies.Get();
      events := events + [Rejected(RuleCount(current))];
    }
  }

  class RemoteSource {
    const load: string -> Option<Policy>
    var etag: string
    var lastModified: string
    /** The cache file on disk. */
    var cache: Option<string>

    constructor (load: string -> Option<Policy>, cache: Option<string>)
      ensures this.load == load && this.cache == cache && etag == "" && lastModified == ""
    {
      this.load := load;
      this.cache := cache;
      etag, lastModified := "", "";
    }

    /** A write either replaces the file or fails and leaves it. */
    method WriteCache(raw: string, succeeds: bool)
      modifies this`cache
      ensures cache == if succeeds then Some(raw) else old(cache)
    {
      if succeeds {
        cache := Some(raw);
      }
    }

    /** Takes over a reply that carried a valid policy. */
    method Adopt(r: Response, writeSucceeds: bool)
      requires r.Reply? && r.body.Some?
      modifies this
      ensures etag == r.etag && lastModified == r.lastModified
      ensures cache == if writeSucceeds then r.body else old(cache)
    {
      etag := r.etag;
      lastModified := r.lastModified;
      WriteCache(r.body.value, writeSucceeds);
    }

    method Fetch(r: Response, writeSucceeds: bool) returns (p: Option<Policy>)
      modifies this
      ensures p == match Judge(load, r) case Valid(policy) => Some(policy) case _ => None
      ensures p.Some? ==> etag == r.etag && lastModified == r.lastModified
                          && cache == if writeSucceeds then r.body else old(cache)
      ensures p.None? ==> etag == old(etag) && lastModified == old(lastModified) && cache == old(cache)
      ensures forall body :: Served(r, body) && Loads(load, body) ==> p == load(body)
      ensures p.Some? ==> exists body :: Served(r, body) && Loads(load, body) && p == load(body)
    {
      if r.TransportFailure? || r.status < 200 || r.status >= 300 || r.body.None? || |r.body.value| == 0 {
        return None;
      }
      p := load(r.body.value);
      if p.Some? {
        Adopt(r, writeSucceeds);
      }
    }

    method Poll(r: Response, writeSucceeds: bool, reloads: Reloads)
      modifies this, reloads, reloads.policies
      ensures match Judge(load, r)
              case Quiet =>
                && reloads.events == old(reloads.events) && reloads.policies.p == old(reloads.policies.p)
                && etag == old(etag) && lastModified == old(lastModified) && cache == old(cache)
              case Invalid =>
                && reloads.events == old(reloads.events) + [Rejected(RuleCount(old(reloads.policies.p)))]
                && reloads.policies.p == old(reloads.policies.p)
                && etag == old(etag) && lastModified == old(lastModified) && cache == old(cache)
              case Valid(p) =>
                && reloads.events
                    == old(reloads.events) + [Accepted(RuleCount(old(reloads.policies.p)), RuleCount(Some(p)))]
                && reloads.policies.p == Some(p)
                && etag == r.etag && lastModified == r.lastModified
                && cache == (if writeSucceeds then r.body else old(cache))
      ensures forall body :: Served(r, body) && Loads(load, body) ==>
                && reloads.policies.p == load(body) && |reloads.events| == |old(reloads.events)| + 1
                && etag == r.etag && lastModified == r.lastModified
      ensures forall body :: Served(r, body) && !Loads(load, body) ==>
                && reloads.policies.p == old(reloads.policies.p)
                && reloads.events == old(reloads.events) + [Rejected(RuleCount(old(reloads.policies.p)))]
                && etag == old(etag) && lastModified == old(lastModified) && cache == old(cache)
      ensures r.TransportFailure? || !(200 <= r.status <= 299) || r.body.None? ==>
                && reloads.policies.p == old(reloads.policies.p) && reloads.events == old(reloads.events)
                && etag == old(etag) && lastModified == old(lastModified) && cache == old(cache)
    {
      if r.TransportFailure? || r.status == 304 {
        return;
      }
      if r.status < 200 || r.status >= 300 || r.body.None? {
        return;
      }
      var body := r.body.value;
      if |body| == 0 {
        reloads.OnReject();
        return;
      }
      var p := load(body);
      if p.None? {
        reloads.OnReject();
        return;
      }
      Adopt(r, writeSucceeds);
      reloads.OnAccept(p.value);
    }
  }

  // ----- whole runs, against a reading of the log alone

  /** The last answer of a log that carried a valid policy. */
  function LastValid(load: string -> Option<Policy>, log: seq<Response>): Option<Response> {
    if log == [] then None
    else if Judge(load, log[|log| - 1]).Valid? then Some(log[|log| - 1])
    else LastValid(load, log[..|log| - 1])
  }

  /** The policy loaded at start-up: the fetched one, else the cached one. */
  function Initial(load: string -> Option<Policy>, first: Response, cached: Option<string>): Option<Policy> {
    match Judge(load, first)
    case Valid(p) => Some(p)
    case _ => match cached case None => None case Some(raw) => load(raw)
  }

  /** Each event starts from the rules the last accepted one left, or the first policy's. */
  predicate Chained(events: seq<ReloadEvent>, initial: nat) {
    forall i :: 0 <= i < |events| ==> events[i].rulesBefore == RulesAfter(events[..i], initial)
  }

  function RulesAfter(events: seq<ReloadEvent>, initial: nat): nat {
    if events == [] then initial
    else match events[|events| - 1]
      case Accepted(_, after) => after
      case Rejected(_) => RulesAfter(events[..|events| - 1], initial)
  }

  lemma {:induction false} ChainedOneMore(events: seq<ReloadEvent>, e: ReloadEvent, initial: nat)
    requires Chained(events, initial) && e.rulesBefore == RulesAfter(events, initial)
    ensures Chained(events + [e], initial)
    ensures RulesAfter(events + [e], initial)
            == match e case Accepted(_, after) => after case Rejected(_) => RulesAfter(events, initial)
  {
    assert (events + [e])[..|events|] == events;
    forall i | 0 <= i < |events + [e]|
      ensures (events + [e])[i].rulesBefore == RulesAfter((events + [e])[..i], initial)
    {
      if i < |events| { assert (events + [e])[..i] == events[..i]; }
    }
  }

  method FetchOrCache(source: RemoteSource, first: Response, writeSucceeds: bool) returns (initial: Option<Policy>)
    requires source.etag == "" && source.lastModified == ""
    modifies source
    ensures initial == Initial(source.load, first, old(source.cache))
    ensures match Judge(source.load, first)
            case Valid(p) =>
              && source.etag == first.etag && source.lastModified == first.lastModified
              && source.cache == if writeSucceeds then first.body else old(source.cache)
            case _ => source.etag == "" && source.lastModified == "" && source.cache == old(source.cache)
    ensures forall body :: Served(first, body) && Loads(source.load, body) ==> initial == source.load(body)
    ensures (forall body :: Served(first, body) ==> !Loads(source.load, body)) ==>
              initial == if old(source.cache).Some? then source.load(old(source.cache).value) else None
  {
    initial := source.Fetch(first, writeSucceeds);
    if initial.None? && source.cache.Some? {
      initial := source.load(source.cache.value);
    }
  }

  /** The client's state is what a log of answers says it should be. */
  ghost predicate Follows(source: RemoteSource, reloads: Reloads, log: seq<Response>, initial: Policy,
                          cached: Option<string>, writesSucceed: bool)
    reads source, reloads, reloads.policies
  {
    && Chained(reloads.events, RuleCount(Some(initial)))
    && RuleCount(reloads.policies.p) == RulesAfter(reloads.events, RuleCount(Some(initial)))
    && match LastValid(source.load, log)
       case None =>
         && reloads.policies.p == Some(initial) && source.etag == "" && source.lastModified == ""
         && (writesSucceed ==> source.cache == cached)
       case Some(r) =>
         && r.Reply? && r.body.Some?
         && reloads.policies.p == source.load(r.body.value)
         && source.etag == r.etag && source.lastModified == r.lastModified
         && (writesSucceed ==> source.cache == r.body)
  }

  /** Start-up and any sequence of polls with any answers and any failing cache
      writes. Without an initial policy the proxy exits. Otherwise, at the end,
      the active policy is the one of the last valid answer, else the initial
      one; a validator that is set came with that answer's body; the cache holds
      that body when writes succeed; and the audit events chain. */
  method Run(load: string -> Option<Policy>, cached: Option<string>, first: Response, firstWrite: bool,
             polls: seq<(Response, bool)>)
    returns (started: bool, source: RemoteSource, reloads: Reloads)
    ensures started <==> Initial(load, first, cached).Some?
    ensures source.load == load
    ensures started ==>
              Follows(source, reloads, [first] + Answers(polls), Initial(load, first, cached).value, cached,
                      firstWrite && AllWritten(polls))
  {
    source := new RemoteSource(load, cached);
    var initial := FetchOrCache(source, first, firstWrite);
    var policies := new Provider(initial);
    reloads := new Reloads(policies);
    if initial.None? {
      return false, source, reloads;
    }
    assert [first][..0] == [];
    started := true;
    PollAll(source, reloads, [first], initial.value, cached, firstWrite, polls);
  }

  predicate AllWritten(polls: seq<(Response, bool)>) {
    forall i :: 0 <= i < |polls| ==> polls[i].1
  }

  /** The ticks of the poller. */
  method PollAll(source: RemoteSource, reloads: Reloads, ghost log: seq<Response>, ghost initial: Policy,
                 ghost cached: Option<string>, ghost writesSucceed: bool, polls: seq<(Response, bool)>)
    requires Follows(source, reloads, log, initial, cached, writesSucceed)
    modifies source, reloads, reloads.policies
    ensures Follows(source, reloads, log + Answers(polls), initial, cached, writesSucceed && AllWritten(polls))
  {
    ghost var all := log;
    ghost var written := writesSucceed;
    var i := 0;
    while i < |polls|
      invariant 0 <= i <= |polls|
      invariant all == log + Answers(polls[..i]) && written == (writesSucceed && AllWritten(polls[..i]))
      invariant Follows(source, reloads, all, initial, cached, written)
    {
      PollFollows(source, reloads, all, initial, cached, written, polls[i].0, polls[i].1);
      OnePoll(polls, i);
      all := all + [polls[i].0];
      written := written && polls[i].1;
      i := i + 1;
    }
    assert polls[..i] == polls;
  }

  lemma {:induction false} OnePoll(polls: seq<(Response, bool)>, i: nat)
    requires i < |polls|
    ensures Answers(polls[..i + 1]) == Answers(polls[..i]) + [polls[i].0]
    ensures AllWritten(polls[..i + 1]) <==> AllWritten(polls[..i]) && polls[i].1
  {
    assert polls[..i + 1] == polls[..i] + [polls[i]];
  }

  function Answers(polls: seq<(Response, bool)>): (r: seq<Response>)
    ensures |r| == |polls|
  {
    seq(|polls|, i requires 0 <= i < |polls| => polls[i].0)
  }

  /** One poll of such a run. */
  method PollFollows(source: RemoteSource, reloads: Reloads, ghost log: seq<Response>, ghost initial: Policy,
                     ghost cached: Option<string>, ghost writesSucceed: bool, r: Response, writeSucceeds: bool)
    requires Follows(source, reloads, log, initial, cached, writesSucceed)
    modifies source, reloads, reloads.policies
    ensures Follows(source, reloads, log + [r], initial, cached, writesSucceed && writeSucceeds)
  {
    assert (log + [r])[..|log|] == log;
    ghost var before := reloads.events;
    ghost var count := RuleCount(reloads.policies.p);
    source.Poll(r, writeSucceeds, reloads);
    match Judge(source.load, r) {
      case Quiet =>
      case Invalid => ChainedOneMore(before, Rejected(count), RuleCount(Some(initial)));
      case Valid(p) => ChainedOneMore(before, Accepted(count, RuleCount(Some(p))), RuleCount(Some(initial)));
    }
  }

  // ----- against a server that honours conditional requests

  /** An entity tag without its weakness flag; If-None-Match compares tags this
      way (section 13.1.2 of RFC 9110). */
  function OpaqueTag(etag: string): string {
    if |etag| >= 2 && etag[..2] == "W/" then etag[2..] else etag
  }

  /** A server that tags bodies: distinct bodies get distinct quoted tags. */
  ghost predicate TagsBodies(tagOf: string -> string) {
    && (forall a, b :: tagOf(a) == tagOf(b) ==> a == b)
    && (forall b :: tagOf(b) != "" && tagOf(b)[0] == '"')
  }

  /** Its answer: If-None-Match decides when present; only without it may
      If-Modified-Since lead to a 304 (section 13.1.3). */
  function Serve(tagOf: string -> string, current: string, weak: bool, lastModified: string, notModified: bool,
                 ifNoneMatch: string, ifModifiedSince: string): Response
  {
    var tag := (if weak then "W/" else "") + tagOf(current);
    if ifNoneMatch != "" then
      if OpaqueTag(ifNoneMatch) == tagOf(current) then Reply(304, tag, lastModified, None)
      else Reply(200, tag, lastModified, Some(current))
    else if ifModifiedSince != "" && notModified then Reply(304, tag, lastModified, None)
    else Reply(200, tag, lastModified, Some(current))
  }

  /** What the server holds when the poller ticks, and what becomes of the poll:
      an answer of the server, or some failure on the way. */
  datatype Tick = Tick(body: string, weak: bool, lastModified: string, notModified: bool, writeSucceeds: bool,
                       failure: Option<Response>)

  /** A transport failure, an error status, or a body that cannot be read. */
  predicate IsFailure(r: Response) {
    r.TransportFailure? || (r.status != 304 && (r.status < 200 || r.status >= 300 || r.body.None?))
  }

  ghost predicate GoodTicks(ticks: seq<Tick>) {
    forall i :: 0 <= i < |ticks| && ticks[i].failure.Some? ==> IsFailure(ticks[i].failure.value)
  }

  function AnswerTo(tagOf: string -> string, t: Tick, ifNoneMatch: string, ifModifiedSince: string): Response {
    match t.failure
    case Some(r) => r
    case None => Serve(tagOf, t.body, t.weak, t.lastModified, t.notModified, ifNoneMatch, ifModifiedSince)
  }

  /** An answer by which the client holds what the server serves. */
  predicate Settles(load: string -> Option<Policy>, r: Response) {
    r.Reply? && (r.status == 304 || Judge(load, r).Valid?)
  }

  /** The stored validators came with the body of the active policy. */
  ghost predicate InStep(source: RemoteSource, reloads: Reloads, tagOf: string -> string)
    reads source, reloads, reloads.policies
  {
    if source.etag == "" then source.lastModified == ""
    else exists b :: OpaqueTag(source.etag) == tagOf(b) && source.load(b).Some? && reloads.policies.p == source.load(b)
  }

  lemma {:induction false} OpaqueTagOf(tagOf: string -> string, body: string)
    requires TagsBodies(tagOf)
    ensures OpaqueTag("W/" + tagOf(body)) == tagOf(body) && OpaqueTag(tagOf(body)) == tagOf(body)
  {
    assert tagOf(body)[0] == '"';
    assert ("W/" + tagOf(body))[..2] == "W/" && ("W/" + tagOf(body))[2..] == tagOf(body);
  }

  /** A poll of such a server, whatever it serves by then and whatever happens on
      the way, keeps the validators in step; a 304 or an accepted policy means that
      the active policy is the one the server holds, and nothing else changes it. */
  method PollServer(source: RemoteSource, reloads: Reloads, tagOf: string -> string, t: Tick)
    returns (r: Response)
    requires TagsBodies(tagOf) && InStep(source, reloads, tagOf)
    requires t.failure.Some? ==> IsFailure(t.failure.value)
    modifies source, reloads, reloads.policies
    ensures r == AnswerTo(tagOf, t, old(source.etag), old(source.lastModified))
    ensures InStep(source, reloads, tagOf)
    ensures if Settles(source.load, r) then source.load(t.body).Some? && reloads.policies.p == source.load(t.body)
            else reloads.policies.p == old(reloads.policies.p)
    ensures t.failure.None? && Loads(source.load, t.body) ==> reloads.policies.p == source.load(t.body)
  {
    r := AnswerTo(tagOf, t, source.etag, source.lastModified);
    OpaqueTagOf(tagOf, t.body);
    source.Poll(r, t.writeSucceeds, reloads);
  }

  /** Start-up against such a server begins in step. */
  method StartWithServer(load: string -> Option<Policy>, cached: Option<string>, tagOf: string -> string, t: Tick)
    returns (initial: Option<Policy>, source: RemoteSource, reloads: Reloads)
    requires TagsBodies(tagOf) && (t.failure.Some? ==> IsFailure(t.failure.value))
    ensures fresh(source) && fresh(reloads) && fresh(reloads.policies) && source.load == load
    ensures initial == Initial(load, AnswerTo(tagOf, t, "", ""), cached)
    ensures initial.Some? ==>
              && InStep(source, reloads, tagOf)
              && Follows(source, reloads, [AnswerTo(tagOf, t, "", "")], initial.value, cached, t.writeSucceeds)
    ensures Settles(load, AnswerTo(tagOf, t, "", "")) ==> initial.Some? && initial == load(t.body)
    ensures t.failure.None? && Loads(load, t.body) ==> initial.Some? && initial == load(t.body)
  {
    source := new RemoteSource(load, cached);
    var first := AnswerTo(tagOf, t, "", "");
    OpaqueTagOf(tagOf, t.body);
    initial := FetchOrCache(source, first, t.writeSucceeds);
    var policies := new Provider(initial);
    reloads := new Reloads(policies);
    assert [first][..0] == [];
  }

  // ----- whole runs against such a server

  /** The validators that a client sends after a log of answers. */
  function Validators(load: string -> Option<Policy>, log: seq<Response>): (string, string) {
    match LastValid(load, log)
    case Some(r) => if r.Reply? then (r.etag, r.lastModified) else ("", "")
    case None => ("", "")
  }

  /** The answers at the ticks, each to the validators that the earlier ones led to. */
  function ServerLog(load: string -> Option<Policy>, tagOf: string -> string, ticks: seq<Tick>): (r: seq<Response>)
    ensures |r| == |ticks|
  {
    if ticks == [] then []
    else
      var log := ServerLog(load, tagOf, ticks[..|ticks| - 1]);
      var (ifNoneMatch, ifModifiedSince) := Validators(load, log);
      log + [AnswerTo(tagOf, ticks[|ticks| - 1], ifNoneMatch, ifModifiedSince)]
  }

  /** The last tick whose answer settled what the client holds. */
  function LastSettled(load: string -> Option<Policy>, log: seq<Response>): (r: Option<nat>)
    ensures r.Some? ==> r.value < |log|
  {
    if log == [] then None
    else if Settles(load, log[|log| - 1]) then Some(|log| - 1)
    else LastSettled(load, log[..|log| - 1])
  }

  /** A reply with a policy that loads and the validators of its body. */
  predicate Tagged(load: string -> Option<Policy>, tagOf: string -> string, r: Response) {
    && r.Reply? && r.body.Some? && r.etag != "" && OpaqueTag(r.etag) == tagOf(r.body.value)
    && load(r.body.value).Some?
  }

  /** The body of the last valid answer, where there is one, is the policy that the
      server held at the last tick that settled, and its validators are that body's. */
  ghost predicate Settled(load: string -> Option<Policy>, tagOf: string -> string, ticks: seq<Tick>) {
    var log := ServerLog(load, tagOf, ticks);
    match LastSettled(load, log)
    case None => LastValid(load, log).None?
    case Some(k) =>
      && LastValid(load, log).Some?
      && var r := LastValid(load, log).value;
         Tagged(load, tagOf, r) && load(r.body.value) == load(ticks[k].body)
  }

  /** An accepted answer carries what the server holds; a 304 means that the last one did. */
  lemma {:induction false} AnswerIsCurrent(load: string -> Option<Policy>, tagOf: string -> string, t: Tick,
                                           log: seq<Response>)
    requires TagsBodies(tagOf) && (t.failure.Some? ==> IsFailure(t.failure.value))
    requires LastValid(load, log).Some? ==> Tagged(load, tagOf, LastValid(load, log).value)
    ensures var (ifNoneMatch, ifModifiedSince) := Validators(load, log);
            var r := AnswerTo(tagOf, t, ifNoneMatch, ifModifiedSince);
            && (Judge(load, r).Valid? ==> Tagged(load, tagOf, r) && r.body.value == t.body)
            && (r.Reply? && r.status == 304 ==>
                  LastValid(load, log).Some? && LastValid(load, log).value.body.value == t.body)
  {
    OpaqueTagOf(tagOf, t.body);
  }

  lemma {:induction false} AlwaysSettled(load: string -> Option<Policy>, tagOf: string -> string, ticks: seq<Tick>)
    requires TagsBodies(tagOf) && GoodTicks(ticks)
    ensures Settled(load, tagOf, ticks)
  {
    if ticks != [] {
      var front, t := ticks[..|ticks| - 1], ticks[|ticks| - 1];
      var log, before := ServerLog(load, tagOf, ticks), ServerLog(load, tagOf, front);
      AlwaysSettled(load, tagOf, front);
      AnswerIsCurrent(load, tagOf, t, before);
      assert log[..|log| - 1] == before;
    }
  }

  /** Start-up and any number of polls of such a server, which may change what it
      serves at every tick, while any of the polls may fail: the client follows the
      log of the answers, and its active policy is what the server held at the last
      tick that ended in a 304 or an accepted policy, else the initial one. */
  method RunWithServer(load: string -> Option<Policy>, cached: Option<string>, tagOf: string -> string,
                       ticks: seq<Tick>)
    returns (started: bool, source: RemoteSource, reloads: Reloads)
    requires TagsBodies(tagOf) && GoodTicks(ticks) && ticks != []
    ensures var log := ServerLog(load, tagOf, ticks);
            var initial := Initial(load, log[0], cached);
            && (started <==> initial.Some?) && source.load == load
            && (started ==>
                  && Follows(source, reloads, log, initial.value, cached, AllTicksWritten(ticks))
                  && match LastSettled(load, log)
                     case None => reloads.policies.p == initial
                     case Some(k) => reloads.policies.p == load(ticks[k].body) && reloads.policies.p.Some?)
    ensures var last := ticks[|ticks| - 1];
            started && last.failure.None? && Loads(load, last.body) ==>
              reloads.policies.p == load(last.body) && reloads.policies.p.Some?
    ensures ticks[0].failure.None? && Loads(load, ticks[0].body) ==> started
  {
    var initial;
    initial, source, reloads := StartWithServer(load, cached, tagOf, ticks[0]);
    LogBegins(load, tagOf, ticks, |ticks|);
    assert ticks[..|ticks|] == ticks;
    started := initial.Some?;
    if started {
      FirstLog(load, tagOf, ticks);
      PollTicks(source, reloads, tagOf, ticks, initial.value, cached);
      ServedSettles(load, tagOf, ticks);
      ActiveIsSettled(source, reloads, tagOf, ticks, initial.value, cached);
    }
  }

  lemma {:induction false} FirstLog(load: string -> Option<Policy>, tagOf: string -> string, ticks: seq<Tick>)
    requires ticks != []
    ensures ServerLog(load, tagOf, ticks[..1]) == [AnswerTo(tagOf, ticks[0], "", "")]
    ensures AllTicksWritten(ticks[..1]) <==> ticks[0].writeSucceeds
  {
    LogGrows(load, tagOf, ticks, 0);
    assert ticks[..1] == [ticks[0]] && ticks[..0] == [];
  }

  /** A client that follows the log holds what the server held when it last settled. */
  lemma {:induction false} ActiveIsSettled(source: RemoteSource, reloads: Reloads, tagOf: string -> string,
                                           ticks: seq<Tick>, initial: Policy, cached: Option<string>)
    requires TagsBodies(tagOf) && GoodTicks(ticks)
    requires Follows(source, reloads, ServerLog(source.load, tagOf, ticks), initial, cached, AllTicksWritten(ticks))
    ensures match LastSettled(source.load, ServerLog(source.load, tagOf, ticks))
            case None => reloads.policies.p == Some(initial)
            case Some(k) => reloads.policies.p == source.load(ticks[k].body) && reloads.policies.p.Some?
  {
    AlwaysSettled(source.load, tagOf, ticks);
  }

  /** A tick at which the server is reached and holds a policy that loads is the
      last that settled. */
  lemma {:induction false} ServedSettles(load: string -> Option<Policy>, tagOf: string -> string, ticks: seq<Tick>)
    requires ticks != []
    ensures var last := ticks[|ticks| - 1];
            last.failure.None? && Loads(load, last.body) ==>
              LastSettled(load, ServerLog(load, tagOf, ticks)) == Some(|ticks| - 1)
  {}

  ghost predicate AllTicksWritten(ticks: seq<Tick>) {
    forall i :: 0 <= i < |ticks| ==> ticks[i].writeSucceeds
  }

  lemma {:induction false} LogGrows(load: string -> Option<Policy>, tagOf: string -> string, ticks: seq<Tick>, i: nat)
    requires i < |ticks|
    ensures var log := ServerLog(load, tagOf, ticks[..i]);
            var (ifNoneMatch, ifModifiedSince) := Validators(load, log);
            ServerLog(load, tagOf, ticks[..i + 1])
            == log + [AnswerTo(tagOf, ticks[i], ifNoneMatch, ifModifiedSince)]
  {
    assert ticks[..i + 1][..i] == ticks[..i];
  }

  lemma {:induction false} LogBegins(load: string -> Option<Policy>, tagOf: string -> string, ticks: seq<Tick>, i: nat)
    requires 1 <= i <= |ticks|
    ensures ServerLog(load, tagOf, ticks[..i])[0] == AnswerTo(tagOf, ticks[0], "", "")
  {
    LogGrows(load, tagOf, ticks, i - 1);
    if i > 1 { LogBegins(load, tagOf, ticks, i - 1); }
  }

  /** The ticks of the poller after start-up. */
  method PollTicks(source: RemoteSource, reloads: Reloads, tagOf: string -> string, ticks: seq<Tick>,
                   ghost initial: Policy, ghost cached: Option<string>)
    requires ticks != []
    requires Follows(source, reloads, ServerLog(source.load, tagOf, ticks[..1]), initial, cached,
                     AllTicksWritten(ticks[..1]))
    modifies source, reloads, reloads.policies
    ensures Follows(source, reloads, ServerLog(source.load, tagOf, ticks), initial, cached, AllTicksWritten(ticks))
  {
    var i := 1;
    while i < |ticks|
      invariant 1 <= i <= |ticks|
      invariant Follows(source, reloads, ServerLog(source.load, tagOf, ticks[..i]), initial, cached,
                        AllTicksWritten(ticks[..i]))
    {
      ghost var log := ServerLog(source.load, tagOf, ticks[..i]);
      LogGrows(source.load, tagOf, ticks, i);
      var r := AnswerTo(tagOf, ticks[i], source.etag, source.lastModified);
      PollFollows(source, reloads, log, initial, cached, AllTicksWritten(ticks[..i]), r, ticks[i].writeSucceeds);
      assert AllTicksWritten(ticks[..i + 1]) <==> AllTicksWritten(ticks[..i]) && ticks[i].writeSucceeds by {
        assert ticks[..i + 1] == ticks[..i] + [ticks[i]];
      }
      i := i + 1;
    }
    assert ticks[..i] == ticks;
  }
}
