/**
 The process-external supervisor: absolute silence rungs through the shared policy
 engine, and the meta gate with its bounded correction ladder.
 */
module Supervisors {
  import opened Common
  import opened WatchdogPolicies

  const ABORT := "abort"
  const FALLBACK := "fallback_model"
  const RESTART := "restart"
  const HUMAN := "human"
  const NUDGE := "nudge"
  const NO_ACTION := "none"

  const EXTERNAL_ACTIONS: seq<Action> := [ABORT, FALLBACK, RESTART, HUMAN]

  /** Abort, fallback, restart and human at one to four times the stall time. */
  function ExternalPolicy(stall: real): Policy {
    RawPolicy([Rule("external-stall-1", NoActivityFor(stall), ABORT, false),
            Rule("external-stall-2", NoActivityFor(2.0 * stall), FALLBACK, false),
            Rule("external-stall-3", NoActivityFor(3.0 * stall), RESTART, false),
            Rule("external-stall-4", NoActivityFor(4.0 * stall), HUMAN, false)],
           [], EXTERNAL_ACTIONS)
  }

  /** min(4, floor(silence / stall)) for a busy session. */
  function Rung(busy: bool, silence: real, stall: real): (r: int)
    requires stall > 0.0
    ensures 0 <= r <= 4
  {
    if !busy || silence < 0.0 then 0
    else
      QuotientNonNegative(silence, stall);
      var k := (silence / stall).Floor;
      if k > 4 then 4 else k
  }

  lemma QuotientNonNegative(a: real, b: real)
    requires a >= 0.0 && b > 0.0
    ensures a / b >= 0.0
  {
  }

  lemma RungFourIff(s: real, stall: real)
    requires stall > 0.0 && s >= 0.0
    ensures Rung(true, s, stall) == 4 <==> s >= 4.0 * stall
  {
    ThresholdIff(s, stall, 4);
  }

  lemma ThresholdIff(silence: real, stall: real, k: nat)
    requires stall > 0.0 && silence >= 0.0
    ensures silence >= k as real * stall <==> (silence / stall).Floor >= k
  {
    var q := silence / stall;
    assert q * stall == silence;
    if q >= k as real { Scale(k as real, q, stall); } else { ScaleStrict(q, k as real, stall); }
  }

  lemma Scale(a: real, b: real, m: real)
    requires a <= b && m > 0.0
    ensures a * m <= b * m
  {
  }

  lemma ScaleStrict(a: real, b: real, m: real)
    requires a < b && m > 0.0
    ensures a * m < b * m
  {
  }

  lemma SilenceNonNegative(ev: Evidence)
    ensures SilentFor(ev) >= 0.0
  {
  }

  lemma ExternalIndices()
    ensures IndexOf(EXTERNAL_ACTIONS, ABORT) == 0 && IndexOf(EXTERNAL_ACTIONS, FALLBACK) == 1
    ensures IndexOf(EXTERNAL_ACTIONS, RESTART) == 2 && IndexOf(EXTERNAL_ACTIONS, HUMAN) == 3
  {
    var a := EXTERNAL_ACTIONS;
    assert a[0] == ABORT && a[1] == FALLBACK && a[2] == RESTART && a[3] == HUMAN;
    assert |a[0]| == 5 && |a[1]| == 14 && |a[2]| == 7;
    assert a[3][0] == 'h' && a[0][0] == 'a';
  }

  lemma ExternalFires(ev: Evidence, stall: real)
    ensures var rules := ExternalPolicy(stall).rules;
            var s := SilentFor(ev);
            && (Fires(rules[0], ev) <==> ev.busy && s >= stall)
            && (Fires(rules[1], ev) <==> ev.busy && s >= 2.0 * stall)
            && (Fires(rules[2], ev) <==> ev.busy && s >= 3.0 * stall)
            && (Fires(rules[3], ev) <==> ev.busy && s >= 4.0 * stall)
  {
    hide SilentFor;
  }

  /** The rules of the external policy compute the rung. */
  lemma ExternalSeverity(ev: Evidence, stall: real)
    requires stall > 0.0
    ensures Severity(EXTERNAL_ACTIONS, ExternalPolicy(stall).rules, ev) == Rung(ev.busy, SilentFor(ev), stall) - 1
  {
    ExternalIndices();
    ExternalFires(ev, stall);
    SilenceNonNegative(ev);
    hide SilentFor, IndexOf, Severity, Fires;
    var s := SilentFor(ev);
    ThresholdIff(s, stall, 1);
    ThresholdIff(s, stall, 2);
    ThresholdIff(s, stall, 3);
    ThresholdIff(s, stall, 4);
    ThresholdIff(s, stall, 0);
    var rules := ExternalPolicy(stall).rules;
    var sev := Severity(EXTERNAL_ACTIONS, rules, ev);
    assert rules[0] in rules && rules[1] in rules && rules[2] in rules && rules[3] in rules;
  }

  // ---- one silent busy episode ------------------------------------------

  lemma RungMonotone(s: real, t: real, stall: real)
    requires stall > 0.0 && 0.0 <= s <= t
    ensures Rung(true, s, stall) <= Rung(true, t, stall)
  {
    ThresholdIff(s, stall, 0);
    var k := (s / stall).Floor;
    ThresholdIff(s, stall, k);
    ThresholdIff(t, stall, k);
  }

  /** Polls of one busy session without recovery, whose silence never shrinks. */
  ghost predicate SilentEpisode(polls: seq<Call>, sid: SessionId) {
    && (forall i :: 0 <= i < |polls| ==>
          polls[i].ev.sessionId == sid && polls[i].ev.busy && !polls[i].recovered)
    && (forall i, j :: 0 <= i < j < |polls| ==> SilentFor(polls[i].ev) <= SilentFor(polls[j].ev))
  }

  /** The rung before poll `k` of the episode. */
  function RungBefore(polls: seq<Call>, k: nat, stall: real): int
    requires stall > 0.0 && k <= |polls|
  {
    if k == 0 then 0 else Rung(true, SilentFor(polls[k - 1].ev), stall)
  }

  lemma {:induction false} EpisodeWorst(past: seq<Call>, polls: seq<Call>, sid: SessionId, k: nat, stall: real)
    requires stall > 0.0 && SilentEpisode(polls, sid) && k <= |polls|
    requires WorstSinceRecovery(ExternalPolicy(stall), past, sid) == -1
    ensures WorstSinceRecovery(ExternalPolicy(stall), past + polls[..k], sid) == RungBefore(polls, k, stall) - 1
  {
    var p := ExternalPolicy(stall);
    hide ExternalPolicy, Rung, SilentFor, Severity;
    if k == 0 {
      assert past + polls[..0] == past;
    } else {
      EpisodeWorst(past, polls, sid, k - 1, stall);
      TakeInto(past, polls, k);
      PollSeverity(polls[k - 1], stall);
      SilenceNonNegative(polls[k - 1].ev);
      RungMonotone(SilentFor(polls[k - 1].ev), SilentFor(polls[k - 1].ev), stall);
      if k > 1 {
        SilenceNonNegative(polls[k - 2].ev);
        RungMonotone(SilentFor(polls[k - 2].ev), SilentFor(polls[k - 1].ev), stall);
      }
    }
  }

  lemma PollSeverity(c: Call, stall: real)
    requires stall > 0.0 && c.ev.busy
    ensures Sev(ExternalPolicy(stall), c) == Rung(true, SilentFor(c.ev), stall) - 1
  {
    ExternalSeverity(c.ev, stall);
  }

  /**
   In a silent busy episode a poll acts exactly when it reaches a higher rung than
   the poll before, and then with the action of that rung: none early, none twice.
   */
  lemma RungFiresOnce(past: seq<Call>, polls: seq<Call>, sid: SessionId, k: nat, stall: real)
    requires stall > 0.0 && SilentEpisode(polls, sid) && k < |polls|
    requires WorstSinceRecovery(ExternalPolicy(stall), past, sid) == -1
    ensures var r := Rung(true, SilentFor(polls[k].ev), stall);
            && HistoryRule(ExternalPolicy(stall), past + polls[..k], polls[k]) ==
               if r > RungBefore(polls, k, stall) then Some(Emission(EXTERNAL_ACTIONS[r - 1], false)) else None
  {
    EpisodeWorst(past, polls, sid, k, stall);
    PollSeverity(polls[k], stall);
    SilenceNonNegative(polls[k].ev);
    RungMonotone(SilentFor(polls[k].ev), SilentFor(polls[k].ev), stall);
    var r := Rung(true, SilentFor(polls[k].ev), stall);
    if r >= 1 { NotGated(polls[k].ev, stall, r); }
  }

  lemma NotGated(ev: Evidence, stall: real, r: int)
    requires stall > 0.0 && ev.busy && 1 <= r <= Rung(true, SilentFor(ev), stall)
    ensures r <= 4 && !Gated(ExternalPolicy(stall), ev, EXTERNAL_ACTIONS[r - 1])
  {
    var s := SilentFor(ev);
    SilenceNonNegative(ev);
    ThresholdIff(s, stall, r);
    ExternalFires(ev, stall);
    hide SilentFor, HitsOf, Fires;
    var rules := ExternalPolicy(stall).rules;
    assert rules[r - 1] in rules && Fires(rules[r - 1], ev);
    assert rules[r - 1].action == EXTERNAL_ACTIONS[r - 1];
  }

  /** Human escalation comes at the first poll whose silence is at least four stall times, and only there. */
  lemma HumanAtFourStalls(past: seq<Call>, polls: seq<Call>, sid: SessionId, k: nat, stall: real)
    requires stall > 0.0 && SilentEpisode(polls, sid) && k < |polls|
    requires WorstSinceRecovery(ExternalPolicy(stall), past, sid) == -1
    ensures HistoryRule(ExternalPolicy(stall), past + polls[..k], polls[k]) == Some(Emission(HUMAN, false)) <==>
            && SilentFor(polls[k].ev) >= 4.0 * stall
            && (k > 0 ==> SilentFor(polls[k - 1].ev) < 4.0 * stall)
  {
    RungFiresOnce(past, polls, sid, k, stall);
    HumanIsLast();
    hide HistoryRule, SilentFor, IndexOf, Rung, ExternalPolicy, WorstSinceRecovery;
    SilenceNonNegative(polls[k].ev);
    RungFourIff(SilentFor(polls[k].ev), stall);
    if k > 0 {
      SilenceNonNegative(polls[k - 1].ev);
      RungFourIff(SilentFor(polls[k - 1].ev), stall);
    }
  }

  lemma HumanIsLast()
    ensures forall r :: 0 <= r < 4 ==> (EXTERNAL_ACTIONS[r] == HUMAN <==> r == 3)
  {
    ExternalIndices();
    assert |HUMAN| == 5 && |FALLBACK| == 14 && |RESTART| == 7 && ABORT[0] == 'a' && HUMAN[0] == 'h';
  }

  // ---- the supervisor's own clock ---------------------------------------

  /** Last progress seen, last progress at the poll before, and where the busy window began; zero is none. */
  datatype Clock = Clock(lastActivity: real, prevActivity: real, firstBusy: real)

  /** One pass of the loop: progress events may have come in, then the session is polled. */
  datatype Tick = Tick(progress: Option<real>, busy: bool, now: real)

  function Progressed(k: Clock, t: Tick): Clock {
    if t.progress.Some? then k.(lastActivity := t.progress.value) else k
  }

  predicate Recovered(k: Clock, t: Tick) {
    var p := Progressed(k, t);
    p.lastActivity > p.prevActivity || !t.busy
  }

  function Ticked(k: Clock, t: Tick): Clock {
    var p := Progressed(k, t);
    Clock(p.lastActivity, p.lastActivity,
          if Recovered(k, t) then 0.0 else if p.firstBusy != 0.0 then p.firstBusy else t.now)
  }

  function PollCall(sid: SessionId, k: Clock, t: Tick): Call {
    var after := Ticked(k, t);
    Call(Evidence(sid, t.busy, after.lastActivity, 0.0, after.firstBusy, t.now, false), Recovered(k, t))
  }

  class EvidenceClock {
    const sessionId: SessionId
    var lastActivity: real
    var prevActivity: real
    var firstBusy: real

    ghost function View(): Clock
      reads this
    {
      Clock(lastActivity, prevActivity, firstBusy)
    }

    constructor (sid: SessionId)
      ensures sessionId == sid && View() == Clock(0.0, 0.0, 0.0)
    {
      sessionId, lastActivity, prevActivity, firstBusy := sid, 0.0, 0.0, 0.0;
    }

    method Progress(ts: real)
      modifies this`lastActivity
      ensures View() == Progressed(old(View()), Tick(Some(ts), true, ts))
    {
      lastActivity := ts;
    }

    method Poll(busy: bool, now: real) returns (c: Call)
      modifies this`prevActivity, this`firstBusy
      ensures View() == Ticked(old(View()), Tick(None, busy, now))
      ensures c == PollCall(sessionId, old(View()), Tick(None, busy, now))
    {
      var moved := lastActivity > prevActivity;
      prevActivity := lastActivity;
      var recovered;
      if moved || !busy {
        firstBusy := 0.0;
        recovered := true;
      } else {
        if firstBusy == 0.0 { firstBusy := now; }
        recovered := false;
      }
      c := Call(Evidence(sessionId, busy, lastActivity, 0.0, firstBusy, now, false), recovered);
    }

    method Pass(t: Tick) returns (c: Call)
      modifies this
      ensures View() == Ticked(old(View()), t)
      ensures c == PollCall(sessionId, old(View()), t)
    {
      if t.progress.Some? { Progress(t.progress.value); }
      c := Poll(t.busy, t.now);
    }
  }

  function ClockAfter(ticks: seq<Tick>): Clock {
    if ticks == [] then Clock(0.0, 0.0, 0.0) else Ticked(ClockAfter(ticks[..|ticks| - 1]), ticks[|ticks| - 1])
  }

  /** The calls on the policy that a run of the loop makes. */
  function CallsOf(sid: SessionId, ticks: seq<Tick>): (calls: seq<Call>)
    ensures |calls| == |ticks|
  {
    if ticks == [] then []
    else
      var front := ticks[..|ticks| - 1];
      CallsOf(sid, front) + [PollCall(sid, ClockAfter(front), ticks[|ticks| - 1])]
  }

  function LastTime(ticks: seq<Tick>): real {
    if ticks == [] then 0.0 else ticks[|ticks| - 1].now
  }

  /** Time never runs backwards, within a pass or between passes. */
  ghost predicate Forward(ticks: seq<Tick>) {
    ticks == [] ||
    var front, t := ticks[..|ticks| - 1], ticks[|ticks| - 1];
    && Forward(front) && LastTime(front) <= t.now
    && (t.progress.Some? ==> LastTime(front) <= t.progress.value <= t.now)
  }

  lemma {:induction false} ActivityIsPast(ticks: seq<Tick>)
    requires Forward(ticks)
    ensures 0.0 <= ClockAfter(ticks).lastActivity <= LastTime(ticks)
    ensures ClockAfter(ticks).prevActivity == ClockAfter(ticks).lastActivity
  {
    if ticks != [] { ActivityIsPast(ticks[..|ticks| - 1]); }
  }

  /** Two polls in a row without recovery: silence has not shrunk in between. */
  lemma PollsGrow(sid: SessionId, k: Clock, t: Tick, u: Tick)
    requires 0.0 <= Ticked(k, t).lastActivity <= t.now <= u.now
    requires u.progress.Some? ==> t.now <= u.progress.value
    requires !Recovered(k, t) && !Recovered(Ticked(k, t), u)
    ensures SilentFor(PollCall(sid, k, t).ev) <= SilentFor(PollCall(sid, Ticked(k, t), u).ev)
  {
  }

  /** The number of polls up to and including the last recovered one. */
  function StretchStart(sid: SessionId, ticks: seq<Tick>): (a: nat)
    ensures a <= |ticks|
  {
    if ticks == [] then 0
    else
      var front := ticks[..|ticks| - 1];
      if Recovered(ClockAfter(front), ticks[|ticks| - 1]) then |ticks| else StretchStart(sid, front)
  }

  lemma EpisodeMore(polls: seq<Call>, sid: SessionId, c: Call)
    requires SilentEpisode(polls, sid)
    requires c.ev.sessionId == sid && c.ev.busy && !c.recovered
    requires polls != [] ==> SilentFor(polls[|polls| - 1].ev) <= SilentFor(c.ev)
    ensures SilentEpisode(polls + [c], sid)
  {
    hide SilentFor;
  }

  lemma DropSnoc<T>(s: seq<T>, x: T, a: nat)
    requires a <= |s|
    ensures (s + [x])[a..] == s[a..] + [x] && (s + [x])[..a] == s[..a]
  {
  }

  /**
   The polls of the clock since the last recovery, however many, form a silent episode,
   and before them nothing is left to remember.
   */
  lemma {:induction false} SilenceGrows(sid: SessionId, ticks: seq<Tick>, p: Policy)
    requires Forward(ticks)
    ensures var calls, a := CallsOf(sid, ticks), StretchStart(sid, ticks);
            SilentEpisode(calls[a..], sid) && WorstSinceRecovery(p, calls[..a], sid) == -1
  {
    if ticks != [] {
      var front, t := ticks[..|ticks| - 1], ticks[|ticks| - 1];
      var k := ClockAfter(front);
      var calls, a, c := CallsOf(sid, front), StretchStart(sid, front), PollCall(sid, k, t);
      SilenceGrows(sid, front, p);
      DropSnoc(calls, c, a);
      if Recovered(k, t) {
        assert (calls + [c])[|ticks|..] == [] && (calls + [c])[..|ticks|] == calls + [c];
        assert (calls + [c])[..|calls|] == calls;
      } else {
        if a < |front| { StretchGrows(sid, ticks); }
        EpisodeMore(calls[a..], sid, c);
      }
      hide SilentEpisode, SilentFor, WorstSinceRecovery;
    }
  }

  lemma StretchGrows(sid: SessionId, ticks: seq<Tick>)
    requires Forward(ticks) && |ticks| >= 2
    requires var front := ticks[..|ticks| - 1];
             StretchStart(sid, front) < |front| && !Recovered(ClockAfter(front), ticks[|ticks| - 1])
    ensures var calls := CallsOf(sid, ticks);
            SilentFor(calls[|ticks| - 2].ev) <= SilentFor(calls[|ticks| - 1].ev)
  {
    var front := ticks[..|ticks| - 1];
    ActivityIsPast(front);
    PollsGrow(sid, ClockAfter(front[..|front| - 1]), front[|front| - 1], ticks[|ticks| - 1]);
    hide SilentFor, Ticked, Recovered;
  }

  /** The rung of the poll before, if it belongs to the same silent stretch. */
  function LastRung(sid: SessionId, ticks: seq<Tick>, stall: real): int
    requires stall > 0.0
  {
    if StretchStart(sid, ticks) == |ticks| then 0
    else Rung(true, SilentFor(CallsOf(sid, ticks)[|ticks| - 1].ev), stall)
  }

  /**
   Every run of the supervisor's clock: a poll acts exactly when the session has not
   recovered and its silence reaches a higher rung than at the poll before, and then with
   the action of that rung.
   */
  lemma SupervisorActs(sid: SessionId, ticks: seq<Tick>, t: Tick, stall: real)
    requires stall > 0.0 && Forward(ticks + [t])
    ensures var c := PollCall(sid, ClockAfter(ticks), t);
            var r := Rung(true, SilentFor(c.ev), stall);
            HistoryRule(ExternalPolicy(stall), CallsOf(sid, ticks), c) ==
            if !c.recovered && r > LastRung(sid, ticks, stall) then Some(Emission(EXTERNAL_ACTIONS[r - 1], false)) else None
  {
    hide HistoryRule, Rung, SilentFor, ExternalPolicy, SilentEpisode, PollCall, CallsOf, StretchStart, Forward;
    var c := PollCall(sid, ClockAfter(ticks), t);
    if c.recovered {
      RecoveredIsQuiet(ExternalPolicy(stall), CallsOf(sid, ticks), c);
    } else {
      var calls, a := CallsOf(sid, ticks), StretchStart(sid, ticks);
      StretchSplits(sid, ticks, t, stall);
      RungFiresOnce(calls[..a], calls[a..] + [c], sid, |ticks| - a, stall);
      assert (calls[a..] + [c])[..|ticks| - a] == calls[a..] && calls[..a] + calls[a..] == calls;
    }
  }

  lemma RecoveredIsQuiet(p: Policy, past: seq<Call>, c: Call)
    requires c.recovered
    ensures HistoryRule(p, past, c) == None
  {
  }

  lemma StretchSplits(sid: SessionId, ticks: seq<Tick>, t: Tick, stall: real)
    requires Forward(ticks + [t]) && !PollCall(sid, ClockAfter(ticks), t).recovered
    ensures var calls, a := CallsOf(sid, ticks), StretchStart(sid, ticks);
            && SilentEpisode(calls[a..] + [PollCall(sid, ClockAfter(ticks), t)], sid)
            && WorstSinceRecovery(ExternalPolicy(stall), calls[..a], sid) == -1
  {
    hide SilentEpisode, ExternalPolicy, WorstSinceRecovery, Recovered;
    var more := ticks + [t];
    assert more[..|ticks|] == ticks;
    SilenceGrows(sid, more, ExternalPolicy(stall));
    DropSnoc(CallsOf(sid, ticks), PollCall(sid, ClockAfter(ticks), t), StretchStart(sid, ticks));
  }

  /** Human escalation comes at the first poll of a stretch with four stall times of silence, and only there. */
  lemma SupervisorAsksHuman(sid: SessionId, ticks: seq<Tick>, t: Tick, stall: real)
    requires stall > 0.0 && Forward(ticks + [t])
    ensures var c := PollCall(sid, ClockAfter(ticks), t);
            HistoryRule(ExternalPolicy(stall), CallsOf(sid, ticks), c) == Some(Emission(HUMAN, false)) <==>
            && !c.recovered && SilentFor(c.ev) >= 4.0 * stall
            && (StretchStart(sid, ticks) < |ticks| ==> SilentFor(CallsOf(sid, ticks)[|ticks| - 1].ev) < 4.0 * stall)
  {
    hide HistoryRule, SilentFor, IndexOf, Rung, ExternalPolicy, WorstSinceRecovery, CallsOf, StretchStart, PollCall;
    var c := PollCall(sid, ClockAfter(ticks), t);
    SupervisorActs(sid, ticks, t, stall);
    HumanIsLast();
    SilenceNonNegative(c.ev);
    RungFourIff(SilentFor(c.ev), stall);
    if StretchStart(sid, ticks) < |ticks| {
      SilenceNonNegative(CallsOf(sid, ticks)[|ticks| - 1].ev);
      RungFourIff(SilentFor(CallsOf(sid, ticks)[|ticks| - 1].ev), stall);
    }
  }

  /** What that silence is: the time since the last progress, or since the stretch's first poll if there was none. */
  lemma {:induction false} SilenceIsTime(sid: SessionId, ticks: seq<Tick>)
    requires Forward(ticks) && StretchStart(sid, ticks) < |ticks| && ticks[0].now > 0.0
    ensures var k, a := ClockAfter(ticks), StretchStart(sid, ticks);
            && k.firstBusy == ticks[a].now > 0.0
            && SilentFor(CallsOf(sid, ticks)[|ticks| - 1].ev) ==
               LastTime(ticks) - if k.lastActivity > 0.0 then k.lastActivity else ticks[a].now
  {
    var front := ticks[..|ticks| - 1];
    ActivityIsPast(ticks);
    if StretchStart(sid, front) < |front| {
      SilenceIsTime(sid, front);
    } else {
      NoWindow(sid, front);
      if front != [] { LaterTimes(front); }
    }
  }

  lemma NoWindow(sid: SessionId, ticks: seq<Tick>)
    requires StretchStart(sid, ticks) == |ticks|
    ensures ClockAfter(ticks).firstBusy == 0.0
  {
  }

  lemma {:induction false} LaterTimes(ticks: seq<Tick>)
    requires Forward(ticks) && ticks != []
    ensures LastTime(ticks) >= ticks[0].now
  {
    if |ticks| > 1 { LaterTimes(ticks[..|ticks| - 1]); }
  }

  // ---- the meta gate and the bounded correction ladder -------------------

  datatype MetaVerdict = Normal | Stalled | Looping | Blocked | Broken | Escalate | OtherVerdict

  function VerdictActions(v: MetaVerdict): set<Action> {
    match v
    case Normal => {NO_ACTION}
    case Stalled => {NUDGE, ABORT, FALLBACK, RESTART}
    case Looping => {ABORT, FALLBACK, RESTART}
    case Blocked => {ABORT, FALLBACK, RESTART, HUMAN}
    case Broken => {FALLBACK, ABORT, RESTART, HUMAN}
    case Escalate => {HUMAN, FALLBACK, RESTART}
    case OtherVerdict => {}
  }

  function MinConfidence(a: Action): real {
    if a == NO_ACTION then 0.0
    else if a == RESTART || a == HUMAN then 0.75
    else 0.5
  }

  predicate MetaGate(v: MetaVerdict, a: Action, confidence: real) {
    a in VerdictActions(v) && 0.0 <= confidence <= 1.0 && confidence >= MinConfidence(a)
  }

  datatype Correction = Correction(fallbackUsed: bool, restartUsed: bool, humanEscalated: bool)

  /** The resolved action and the ladder state behind it. */
  function Choose(v: MetaVerdict, a: Action, st: Correction): (Action, Correction) {
    var first := if a == FALLBACK && st.fallbackUsed then (if ABORT in VerdictActions(v) then ABORT else RESTART) else a;
    var second := if first == RESTART && st.restartUsed then HUMAN else first;
    (second,
     if second == FALLBACK then st.(fallbackUsed := true)
     else if second == RESTART then st.(restartUsed := true)
     else if second == HUMAN then st.(humanEscalated := true)
     else st)
  }

  /** The gate, row by row: which actions a verdict allows, and how sure it must be. */
  lemma MetaGateMeans(v: MetaVerdict, a: Action, confidence: real)
    ensures MetaGate(v, a, confidence) <==>
            && (match v
                case Normal => a == "none"
                case Stalled => a in {"nudge", "abort", "fallback_model", "restart"}
                case Looping => a in {"abort", "fallback_model", "restart"}
                case Blocked => a in {"abort", "fallback_model", "restart", "human"}
                case Broken => a in {"abort", "fallback_model", "restart", "human"}
                case Escalate => a in {"human", "fallback_model", "restart"}
                case OtherVerdict => false)
            && 0.0 <= confidence <= 1.0
            && (a in {"nudge", "abort", "fallback_model"} ==> confidence >= 0.5)
            && (a in {"restart", "human"} ==> confidence >= 0.75)
  {
  }

  /** The bounded correction: a fallback and a restart once each, then the next step up; what is chosen is marked as used. */
  lemma ChooseMeans(v: MetaVerdict, a: Action, st: Correction)
    ensures var (r, after) := Choose(v, a, st);
            && (a !in {"fallback_model", "restart"} ==> r == a)
            && (a == "fallback_model" ==>
                  if !st.fallbackUsed then r == "fallback_model"
                  else if v in {Stalled, Looping, Blocked, Broken} then r == "abort"
                  else r == if st.restartUsed then "human" else "restart")
            && (a == "restart" ==> r == if st.restartUsed then "human" else "restart")
            && after == Correction(st.fallbackUsed || r == "fallback_model", st.restartUsed || r == "restart",
                                   st.humanEscalated || r == "human")
  {
  }

  class LadderState {
    var modelFallbackUsed: bool
    var restartUsed: bool
    var humanEscalated: bool

    ghost function View(): Correction
      reads this
    {
      Correction(modelFallbackUsed, restartUsed, humanEscalated)
    }

    constructor ()
      ensures View() == Correction(false, false, false)
    {
      modelFallbackUsed, restartUsed, humanEscalated := false, false, false;
    }

    /** None is the gate's rejection; the state is then untouched. */
    method ChooseAction(v: MetaVerdict, a: Action, confidence: real) returns (r: Option<Action>)
      modifies this
      ensures !MetaGate(v, a, confidence) ==> r == None && View() == old(View())
      ensures MetaGate(v, a, confidence) ==>
                r == Some(Choose(v, a, old(View())).0) && View() == Choose(v, a, old(View())).1
    {
      if !MetaGate(v, a, confidence) { return None; }
      var action := a;
      if action == FALLBACK && modelFallbackUsed {
        action := if ABORT in VerdictActions(v) then ABORT else RESTART;
      }
      if action == RESTART && restartUsed { action := HUMAN; }
      if action == FALLBACK { modelFallbackUsed := true; }
      else if action == RESTART { restartUsed := true; }
      else if action == HUMAN { humanEscalated := true; }
      r := Some(action);
    }

    /** The meta model's opinion on a deterministic action; it can only raise the rung. */
    method SecondOpinion(action: Action, meta: Option<(MetaVerdict, Action, real)>) returns (r: Action)
      modifies this
      ensures View() == if meta.Some? && MetaGate(meta.value.0, meta.value.1, meta.value.2)
                        then Choose(meta.value.0, meta.value.1, old(View())).1 else old(View())
      ensures RungOf(r) >= RungOf(action)
      ensures r == if meta.Some? && MetaGate(meta.value.0, meta.value.1, meta.value.2)
                      && RungOf(Choose(meta.value.0, meta.value.1, old(View())).0) > RungOf(action)
                   then Choose(meta.value.0, meta.value.1, old(View())).0 else action
    {
      r := action;
      if meta.None? { return; }
      var resolved := ChooseAction(meta.value.0, meta.value.1, meta.value.2);
      if resolved.Some? && RungOf(resolved.value) > RungOf(action) { r := resolved.value; }
    }
  }

  /** Position on the external ladder; -1 for an action that is not on it. */
  function RungOf(a: Action): int {
    if a in EXTERNAL_ACTIONS then IndexOf(EXTERNAL_ACTIONS, a) else -1
  }

  datatype MetaCall = MetaCall(v: MetaVerdict, a: Action, confidence: real)

  /** The answers to a sequence of calls on one ladder state, rejected calls left out. */
  function Answers(calls: seq<MetaCall>, st: Correction): seq<Action> {
    if calls == [] then []
    else if !MetaGate(calls[0].v, calls[0].a, calls[0].confidence) then Answers(calls[1..], st)
    else [Choose(calls[0].v, calls[0].a, st).0] + Answers(calls[1..], Choose(calls[0].v, calls[0].a, st).1)
  }

  function Count(s: seq<Action>, a: Action): nat {
    if s == [] then 0 else (if s[0] == a then 1 else 0) + Count(s[1..], a)
  }

  function Bit(b: bool): nat {
    if b then 1 else 0
  }

  /** Over any sequence of calls on one ladder state, fallback and restart are answered at most once each. */
  lemma {:induction false} FallbackAndRestartOnce(calls: seq<MetaCall>, st: Correction)
    ensures Count(Answers(calls, st), FALLBACK) + Bit(st.fallbackUsed) <= 1
    ensures Count(Answers(calls, st), RESTART) + Bit(st.restartUsed) <= 1
    decreases |calls|
  {
    if calls != [] {
      if MetaGate(calls[0].v, calls[0].a, calls[0].confidence) {
        var (a, next) := Choose(calls[0].v, calls[0].a, st);
        FallbackAndRestartOnce(calls[1..], next);
        var rest := Answers(calls[1..], next);
        assert ([a] + rest)[1..] == rest;
        DistinctNames();
      } else {
        FallbackAndRestartOnce(calls[1..], st);
      }
    }
  }

  lemma DistinctNames()
    ensures FALLBACK != RESTART && FALLBACK != ABORT && RESTART != ABORT && HUMAN != RESTART && HUMAN != FALLBACK
  {
    assert |HUMAN| == 5 && |FALLBACK| == 14 && |RESTART| == 7 && |ABORT| == 5;
  }
}
