/**
 The watchdog policy engine: rules over evidence, one escalation ladder per
 session, and the history rule the ladder is proved to refine.
 */
module WatchdogPolicies {
  import opened Common

  type SessionId = string
  type Action = string

  datatype Evidence = Evidence(
    sessionId: SessionId,
    busy: bool,
    activityTs: real,
    latestMessageTs: real,
    firstBusyTs: real,
    now: real,
    paused: bool)

  function MaxReal(a: real, b: real): real {
    if a < b then b else a
  }

  /** Seconds since the freshest sign of life; a timestamp of zero means none was seen. */
  function SilentFor(ev: Evidence): real {
    var fresher := MaxReal(ev.activityTs, ev.latestMessageTs);
    var base := if fresher != 0.0 then fresher else ev.firstBusyTs;
    if base == 0.0 then 0.0 else MaxReal(0.0, ev.now - base)
  }

  /** A predicate of an operator may also raise; such a rule is skipped. */
  datatype Answer = Holds | DoesNotHold | Raises

  datatype Rule = Rule(name: string, predicate_: Evidence -> Answer, action: Action, meta: bool)

  function NoActivityFor(seconds: real): Evidence -> Answer {
    (ev: Evidence) => if ev.busy && SilentFor(ev) >= seconds then Holds else DoesNotHold
  }

  /**
   When the silence rule holds: the session is busy, and as long ago as asked was its last
   sign of life, `latest`, the later of activity and message; or, without one, its first busy poll.
   */
  lemma NoActivityMeans(ev: Evidence, seconds: real, latest: real)
    requires latest >= ev.activityTs && latest >= ev.latestMessageTs
    requires latest == ev.activityTs || latest == ev.latestMessageTs
    ensures NoActivityFor(seconds)(ev) == Holds <==>
            && ev.busy
            && if latest != 0.0 then seconds <= 0.0 || ev.now - latest >= seconds
               else seconds <= 0.0 || (ev.firstBusyTs != 0.0 && ev.now - ev.firstBusyTs >= seconds)
  {
  }

  /** `fired` is -1 while nothing has been emitted in this episode. */
  datatype Ladder = Ladder(index: nat, fired: int)

  const FRESH_LADDER := Ladder(0, -1)

  /** What `decide` returns when it acts; `gated` asks for a second opinion first. */
  datatype Emission = Emission(action: Action, gated: bool)

  datatype RawPolicy = RawPolicy(rules: seq<Rule>, probes: seq<Evidence -> Evidence>, actions: seq<Action>)

  ghost predicate ValidPolicy(p: RawPolicy) {
    p.actions != [] && forall r :: r in p.rules ==> r.action in p.actions
  }

  /** Construction refuses a rule whose action is not on the ladder. */
  type Policy = p: RawPolicy | ValidPolicy(p) ghost witness RawPolicy([], [], ["kill"])

  function IndexOf(actions: seq<Action>, a: Action): (i: nat)
    requires a in actions
    ensures i < |actions| && actions[i] == a
    ensures forall j :: 0 <= j < i ==> actions[j] != a
  {
    if actions[0] == a then 0 else 1 + IndexOf(actions[1..], a)
  }

  function Enrich(probes: seq<Evidence -> Evidence>, ev: Evidence): Evidence {
    if probes == [] then ev else Enrich(probes[1..], probes[0](ev))
  }

  /** The probes run in their order: the last one sees what the others made of the evidence. */
  lemma {:induction false} EnrichInOrder(probes: seq<Evidence -> Evidence>, last: Evidence -> Evidence, ev: Evidence)
    ensures Enrich(probes + [last], ev) == last(Enrich(probes, ev))
    decreases |probes|
  {
    if probes == [] {
      assert probes + [last] == [last];
    } else {
      assert (probes + [last])[1..] == probes[1..] + [last];
      EnrichInOrder(probes[1..], last, probes[0](ev));
    }
  }

  predicate Fires(r: Rule, ev: Evidence) {
    r.predicate_(ev) == Holds
  }

  // ---- severity ---------------------------------------------------------

  function MaxInt(a: int, b: int): int {
    if a < b then b else a
  }

  /** The highest ladder index any firing rule asks for; -1 when none fires. */
  function Severity(actions: seq<Action>, rules: seq<Rule>, ev: Evidence): (s: int)
    requires forall r :: r in rules ==> r.action in actions
    ensures -1 <= s < |actions|
    ensures forall r :: r in rules && Fires(r, ev) ==> IndexOf(actions, r.action) <= s
    ensures s >= 0 ==> exists r :: r in rules && Fires(r, ev) && IndexOf(actions, r.action) == s
  {
    if rules == [] then -1
    else
      var rest := Severity(actions, rules[1..], ev);
      assert forall r :: r in rules ==> r == rules[0] || r in rules[1..];
      if Fires(rules[0], ev) then MaxInt(IndexOf(actions, rules[0].action), rest) else rest
  }

  function HitsOf(rules: seq<Rule>, ev: Evidence, meta: bool): (hits: seq<Action>)
    ensures forall a :: a in hits <==> exists r :: r in rules && Fires(r, ev) && r.meta == meta && r.action == a
    decreases |rules|
  {
    if rules == [] then []
    else
      var last := rules[|rules| - 1];
      SplitLast(rules);
      assert forall r :: r in rules <==> r in rules[..|rules| - 1] || r == last;
      HitsOf(rules[..|rules| - 1], ev, meta) + (if Fires(last, ev) && last.meta == meta then [last.action] else [])
  }

  // ---- one decision -----------------------------------------------------

  function LadderFor(ladders: map<SessionId, Ladder>, sid: SessionId): Ladder {
    if sid in ladders then ladders[sid] else FRESH_LADDER
  }

  /** The top action is gated when only meta rules propose it. */
  predicate Gated(p: Policy, ev: Evidence, a: Action) {
    a !in HitsOf(p.rules, ev, false)
  }

  function DecideLadder(p: Policy, l: Ladder, ev: Evidence, recovered: bool): (Ladder, Option<Emission>)
  {
    var s := Severity(p.actions, p.rules, ev);
    if recovered then (FRESH_LADDER, None)
    else if s < 0 then (l, None)
    else
      var index := MaxInt(l.index, s);
      if index == l.fired then (Ladder(index, l.fired), None)
      else (Ladder(index, index), Some(Emission(p.actions[s], Gated(p, ev, p.actions[s]))))
  }

  function DecideNext(p: Policy, ladders: map<SessionId, Ladder>, ev: Evidence, recovered: bool)
    : (map<SessionId, Ladder>, Option<Emission>)
  {
    var e := Enrich(p.probes, ev);
    var (l, out) := DecideLadder(p, LadderFor(ladders, e.sessionId), e, recovered);
    (ladders[e.sessionId := l], out)
  }

  class WatchdogPolicy {
    const policy: Policy
    var ladders: map<SessionId, Ladder>

    constructor (p: Policy)
      ensures policy == p && ladders == map[]
    {
      policy, ladders := p, map[];
    }

    method Decide(raw: Evidence, recovered: bool) returns (out: Option<Emission>)
      modifies this
      ensures (ladders, out) == DecideNext(policy, old(ladders), raw, recovered)
    {
      var ev := EnrichAll(raw);
      var sid := ev.sessionId;
      var ladder := LadderFor(ladders, sid);
      if recovered {
        ladders := ladders[sid := FRESH_LADDER];
        return None;
      }
      var hits, metaHits := Collect(ev);
      if hits + metaHits == [] {
        NoHits(policy, ev);
        ladders := ladders[sid := ladder];
        return None;
      }
      var target := MostSevere(hits + metaHits);
      TopIsSeverity(policy, ev, target);
      var action := policy.actions[target];
      var gated := action in metaHits && action !in hits;
      ladder := ClimbTo(ladder, target);
      if ladder.index != ladder.fired {
        ladder := ladder.(fired := ladder.index);
        out := Some(Emission(action, gated));
      } else {
        out := None;
      }
      ladders := ladders[sid := ladder];
    }

    method EnrichAll(raw: Evidence) returns (ev: Evidence)
      ensures ev == Enrich(policy.probes, raw)
    {
      ev := raw;
      for i := 0 to |policy.probes|
        invariant Enrich(policy.probes[i..], ev) == Enrich(policy.probes, raw)
      {
        ev := policy.probes[i](ev);
        assert policy.probes[i..][1..] == policy.probes[i + 1..];
      }
    }

    method Collect(ev: Evidence) returns (hits: seq<Action>, metaHits: seq<Action>)
      ensures hits == HitsOf(policy.rules, ev, false) && metaHits == HitsOf(policy.rules, ev, true)
    {
      hits, metaHits := [], [];
      for i := 0 to |policy.rules|
        invariant hits == HitsOf(policy.rules[..i], ev, false)
        invariant metaHits == HitsOf(policy.rules[..i], ev, true)
      {
        var rule := policy.rules[i];
        HitsSnoc(policy.rules, ev, i);
        if Fires(rule, ev) {
          if rule.meta { metaHits := metaHits + [rule.action]; } else { hits := hits + [rule.action]; }
        }
      }
      assert policy.rules[..|policy.rules|] == policy.rules;
    }

    method MostSevere(candidates: seq<Action>) returns (top: nat)
      requires candidates != [] && forall a :: a in candidates ==> a in policy.actions
      ensures top < |policy.actions|
      ensures forall a :: a in candidates ==> IndexOf(policy.actions, a) <= top
      ensures exists a :: a in candidates && IndexOf(policy.actions, a) == top
    {
      assert candidates[0] in candidates;
      top := IndexOf(policy.actions, candidates[0]);
      for i := 1 to |candidates|
        invariant top < |policy.actions|
        invariant forall j :: 0 <= j < i ==> IndexOf(policy.actions, candidates[j]) <= top
        invariant exists a :: a in candidates && IndexOf(policy.actions, a) == top
      {
        assert candidates[i] in candidates;
        var k := IndexOf(policy.actions, candidates[i]);
        if k > top { top := k; }
      }
    }

    method ClimbTo(start: Ladder, target: nat) returns (l: Ladder)
      requires target < |policy.actions|
      ensures l == Ladder(MaxInt(start.index, target), start.fired)
    {
      l := start;
      while l.index < target
        invariant l.fired == start.fired
        invariant start.index <= l.index <= MaxInt(start.index, target)
      {
        if l.index < |policy.actions| - 1 { l := l.(index := l.index + 1); }
      }
    }
  }

  lemma HitsSnoc(rules: seq<Rule>, ev: Evidence, i: nat)
    requires i < |rules|
    ensures forall meta :: HitsOf(rules[..i + 1], ev, meta) ==
              HitsOf(rules[..i], ev, meta)
              + (if Fires(rules[i], ev) && rules[i].meta == meta then [rules[i].action] else [])
  {
    assert rules[..i + 1][..i] == rules[..i];
  }

  lemma NoHits(p: Policy, ev: Evidence)
    requires HitsOf(p.rules, ev, false) + HitsOf(p.rules, ev, true) == []
    ensures Severity(p.actions, p.rules, ev) == -1
  {
    var all := HitsOf(p.rules, ev, false) + HitsOf(p.rules, ev, true);
    forall r | r in p.rules && Fires(r, ev) ensures r.action in all {
      if r.meta { assert r.action in HitsOf(p.rules, ev, true); } else { assert r.action in HitsOf(p.rules, ev, false); }
    }
  }

  lemma TopIsSeverity(p: Policy, ev: Evidence, top: nat)
    requires top < |p.actions|
    requires forall a :: a in HitsOf(p.rules, ev, false) + HitsOf(p.rules, ev, true) ==> a in p.actions
    requires forall a :: a in HitsOf(p.rules, ev, false) + HitsOf(p.rules, ev, true) ==> IndexOf(p.actions, a) <= top
    requires exists a :: a in HitsOf(p.rules, ev, false) + HitsOf(p.rules, ev, true) && IndexOf(p.actions, a) == top
    ensures Severity(p.actions, p.rules, ev) == top
    ensures p.actions[top] in HitsOf(p.rules, ev, true) || p.actions[top] in HitsOf(p.rules, ev, false)
  {
    var s := Severity(p.actions, p.rules, ev);
    if s >= 0 {
      var r :| r in p.rules && Fires(r, ev) && IndexOf(p.actions, r.action) == s;
      assert r.action in HitsOf(p.rules, ev, r.meta);
    }
  }

  // ---- the history rule -------------------------------------------------

  /** One call of `decide`, on evidence as the probes leave it. */
  datatype Call = Call(ev: Evidence, recovered: bool)

  function Sev(p: Policy, c: Call): (s: int)
    ensures -1 <= s < |p.actions|
  {
    Severity(p.actions, p.rules, c.ev)
  }

  /** The worst hit of session `sid` since its last recovery; -1 when there was none. */
  function WorstSinceRecovery(p: Policy, calls: seq<Call>, sid: SessionId): (w: int)
    ensures -1 <= w < |p.actions|
  {
    if calls == [] then -1
    else
      var last := calls[|calls| - 1];
      var before := WorstSinceRecovery(p, calls[..|calls| - 1], sid);
      if last.ev.sessionId != sid then before
      else if last.recovered then -1
      else MaxInt(before, Sev(p, last))
  }

  /** The rule: act exactly when this hit is worse than every hit since the last recovery. */
  function HistoryRule(p: Policy, past: seq<Call>, c: Call): Option<Emission>
  {
    if !c.recovered && Sev(p, c) > WorstSinceRecovery(p, past, c.ev.sessionId)
    then Some(Emission(p.actions[Sev(p, c)], Gated(p, c.ev, p.actions[Sev(p, c)])))
    else None
  }

  /** The ladders after a sequence of calls, starting from none. */
  function LaddersAfter(p: Policy, calls: seq<Call>): map<SessionId, Ladder>
  {
    if calls == [] then map[]
    else
      var last := calls[|calls| - 1];
      var before := LaddersAfter(p, calls[..|calls| - 1]);
      before[last.ev.sessionId :=
        DecideLadder(p, LadderFor(before, last.ev.sessionId), last.ev, last.recovered).0]
  }

  /** A ladder holds exactly the worst hit since the last recovery, for every session. */
  lemma {:induction false} LadderIsWorst(p: Policy, calls: seq<Call>, sid: SessionId)
    ensures var l := LadderFor(LaddersAfter(p, calls), sid);
            l.fired == WorstSinceRecovery(p, calls, sid) && l.index == MaxInt(0, l.fired)
    decreases |calls|
  {
    if calls != [] {
      LadderIsWorst(p, calls[..|calls| - 1], sid);
    }
  }

  /** The ladder refines the history rule: same emission on every call of every sequence. */
  lemma DecideIsHistoryRule(p: Policy, past: seq<Call>, c: Call)
    ensures DecideLadder(p, LadderFor(LaddersAfter(p, past), c.ev.sessionId), c.ev, c.recovered).1
            == HistoryRule(p, past, c)
  {
    LadderIsWorst(p, past, c.ev.sessionId);
  }

  /** An emission is gated exactly when no firing deterministic rule proposes its action. */
  lemma GatedIffNoDeterministicRule(p: Policy, past: seq<Call>, c: Call)
    requires HistoryRule(p, past, c).Some?
    ensures var out := HistoryRule(p, past, c).value;
            && out.action in p.actions
            && (out.gated <==> !exists r :: r in p.rules && Fires(r, c.ev) && !r.meta && r.action == out.action)
            && (exists r :: r in p.rules && Fires(r, c.ev) && r.action == out.action)
  {
    var s := Sev(p, c);
    var r :| r in p.rules && Fires(r, c.ev) && IndexOf(p.actions, r.action) == s;
    assert r.action == p.actions[s];
  }

  // ---- episodes ---------------------------------------------------------

  /** The severities emitted for a session since its last recovery, in order. */
  function EpisodeEmissions(p: Policy, calls: seq<Call>, sid: SessionId): seq<int>
  {
    if calls == [] then []
    else
      var last := calls[|calls| - 1];
      var past := calls[..|calls| - 1];
      var before := EpisodeEmissions(p, past, sid);
      if last.ev.sessionId != sid then before
      else if last.recovered then []
      else if HistoryRule(p, past, last).Some? then before + [Sev(p, last)]
      else before
  }

  lemma ClimbOn(es: seq<int>, worst: int, next: int, top: nat)
    requires forall i, j :: 0 <= i < j < |es| ==> es[i] < es[j]
    requires forall i :: 0 <= i < |es| ==> i <= es[i] <= worst
    requires -1 <= worst < next < top
    ensures var fs := es + [next];
            && (forall i, j :: 0 <= i < j < |fs| ==> fs[i] < fs[j])
            && (forall i :: 0 <= i < |fs| ==> i <= fs[i] <= next)
            && |fs| <= top
  {
    if es != [] { assert |es| - 1 <= es[|es| - 1]; }
  }

  /** Emissions of an episode climb strictly, so there are at most as many as the ladder has rungs. */
  lemma {:induction false} EpisodeClimbs(p: Policy, calls: seq<Call>, sid: SessionId)
    ensures var es := EpisodeEmissions(p, calls, sid);
            && (forall i, j :: 0 <= i < j < |es| ==> es[i] < es[j])
            && (forall i :: 0 <= i < |es| ==> i <= es[i] <= WorstSinceRecovery(p, calls, sid))
            && |es| <= |p.actions|
    decreases |calls|
  {
    if calls != [] {
      var past, last := calls[..|calls| - 1], calls[|calls| - 1];
      EpisodeClimbs(p, past, sid);
      var before := EpisodeEmissions(p, past, sid);
      if last.ev.sessionId == sid && HistoryRule(p, past, last).Some? {
        ClimbOn(before, WorstSinceRecovery(p, past, sid), Sev(p, last), |p.actions|);
      }
    }
  }

  // ---- isolation --------------------------------------------------------

  function OwnCalls(calls: seq<Call>, sid: SessionId): seq<Call> {
    if calls == [] then []
    else
      var last := calls[|calls| - 1];
      OwnCalls(calls[..|calls| - 1], sid) + (if last.ev.sessionId == sid then [last] else [])
  }

  /** What a session has coming depends on its own calls alone, however they are interleaved with others. */
  lemma {:induction false} SessionsIsolated(p: Policy, calls: seq<Call>, sid: SessionId)
    ensures WorstSinceRecovery(p, calls, sid) == WorstSinceRecovery(p, OwnCalls(calls, sid), sid)
    ensures LadderFor(LaddersAfter(p, calls), sid) == LadderFor(LaddersAfter(p, OwnCalls(calls, sid)), sid)
    decreases |calls|
  {
    if calls != [] {
      var last := calls[|calls| - 1];
      var past := calls[..|calls| - 1];
      SessionsIsolated(p, past, sid);
      var own := OwnCalls(past, sid);
      assert (own + [last])[..|own|] == own;
      assert own + [] == own;
      LadderIsWorst(p, calls, sid);
      LadderIsWorst(p, OwnCalls(calls, sid), sid);
    }
  }

  /** A policy object whose ladders come from a sequence of calls answers the next one by the history rule. */
  lemma DecideRefinesHistory(p: Policy, past: seq<Call>, raw: Evidence, recovered: bool)
    ensures var c := Call(Enrich(p.probes, raw), recovered);
            DecideNext(p, LaddersAfter(p, past), raw, recovered) ==
            (LaddersAfter(p, past + [c]), HistoryRule(p, past, c))
  {
    var c := Call(Enrich(p.probes, raw), recovered);
    assert (past + [c])[..|past|] == past;
    DecideIsHistoryRule(p, past, c);
  }

  /** Interleaving other sessions' calls changes no answer. */
  lemma AnswersIsolated(p: Policy, past: seq<Call>, c: Call)
    ensures HistoryRule(p, past, c) == HistoryRule(p, OwnCalls(past, c.ev.sessionId), c)
  {
    SessionsIsolated(p, past, c.ev.sessionId);
  }
}
