/**
 The in-process watchdog: what it sends in answer to a REPORT or to changed
 metrics, as functions of its state, and the unit that keeps the state.
 */
module WatchdogUnits {
  import opened Common
  import opened WatchdogPolicies

  type UnitId = string

  datatype Kind = NudgeSignal | PauseSignal | ResumeSignal | EscalateSignal | StopSignal

  /** The control signal of a ladder action; an unknown one stops. */
  function SignalOf(a: Action): Kind {
    if a == "nudge" then NudgeSignal
    else if a == "interrupt" then PauseSignal
    else if a == "resume" then ResumeSignal
    else if a == "fallback" then EscalateSignal
    else StopSignal
  }

  /** A workflow's own metrics on the shared blackboard; zero and missing read the same. */
  datatype Metrics = Metrics(startTime: real, nodeCount: nat, heartbeat: real)

  datatype Guard = GlobalTimeout | GlobalBudget | HeartbeatLoss

  type Board = seq<(UnitId, Metrics)>

  datatype Bounds = Bounds(deadlineSec: Option<real>, maxNodes: Option<nat>, heartbeatStaleSec: Option<real>)

  datatype Config = Config(policy: Policy, bounds: Bounds, autoResumeSec: real, controlDst: UnitId)

  /** A report's payload; `loops` is the repetition check on its latest text, None without a text. */
  datatype Report = Report(
    sessionId: SessionId,
    busy: bool,
    activityTs: real,
    latestMessageTs: real,
    loops: Option<bool>,
    paused: bool)

  /** Why a signal is sent. */
  datatype Cause =
    | FromReport(src: UnitId, report: Report)
    | FromMetrics(wid: UnitId, guard: Guard, metrics: Metrics, now: real)

  datatype Out = Out(dst: UnitId, kind: Kind, cause: Cause)

  datatype Watch = Watch(
    lastActivity: map<SessionId, real>,
    firstBusy: map<SessionId, real>,
    pauseSince: map<SessionId, real>,
    deadLoopFired: set<SessionId>,
    globalFired: set<(Guard, UnitId)>,
    ladders: map<SessionId, Ladder>)

  const FRESH_WATCH := Watch(map[], map[], map[], {}, {}, map[])

  /** A reply goes to the sender, or to the configured destination if the sender has no name. */
  function Target(c: Config, id: UnitId): UnitId {
    if id != "" then id else c.controlDst
  }

  function Get(m: map<SessionId, real>, k: SessionId): real {
    if k in m then m[k] else 0.0
  }

  // ---- the global guards ------------------------------------------------

  predicate Crossed(c: Config, g: Guard, m: Metrics, now: real) {
    match g
    case GlobalTimeout =>
      c.bounds.deadlineSec.Some? && m.startTime != 0.0 && now - m.startTime > c.bounds.deadlineSec.value
    case GlobalBudget => c.bounds.maxNodes.Some? && m.nodeCount > c.bounds.maxNodes.value
    case HeartbeatLoss =>
      c.bounds.heartbeatStaleSec.Some? && m.heartbeat != 0.0 && now - m.heartbeat > c.bounds.heartbeatStaleSec.value
  }

  /** Fires a crossed guard unless it has fired for that workflow before. */
  function CheckGuard(c: Config, w: Watch, g: Guard, wid: UnitId, m: Metrics, now: real): (Watch, seq<Out>) {
    if Crossed(c, g, m, now) && (g, wid) !in w.globalFired then
      (w.(globalFired := w.globalFired + {(g, wid)}), [Out(Target(c, wid), StopSignal, FromMetrics(wid, g, m, now))])
    else (w, [])
  }

  function CheckWorkflow(c: Config, w: Watch, wid: UnitId, m: Metrics, now: real): (Watch, seq<Out>) {
    var (w1, o1) := CheckGuard(c, w, GlobalTimeout, wid, m, now);
    var (w2, o2) := CheckGuard(c, w1, GlobalBudget, wid, m, now);
    var (w3, o3) := CheckGuard(c, w2, HeartbeatLoss, wid, m, now);
    (w3, o1 + o2 + o3)
  }

  function CheckAll(c: Config, w: Watch, board: Board, now: real): (Watch, seq<Out>)
    decreases |board|
  {
    if board == [] then (w, [])
    else
      var (w1, o1) := CheckWorkflow(c, w, board[0].0, board[0].1, now);
      var (w2, o2) := CheckAll(c, w1, board[1..], now);
      (w2, o1 + o2)
  }

  /** Bookkeeping of sessions silent for an hour is dropped once 64 sessions are known. */
  function Prune(w: Watch, now: real): Watch {
    if |w.lastActivity| < 64 then w
    else
      var stale := set s | s in w.lastActivity && now - w.lastActivity[s] > 3600.0;
      w.(lastActivity := w.lastActivity - stale, firstBusy := w.firstBusy - stale,
         pauseSince := w.pauseSince - stale, ladders := w.ladders - stale)
  }

  function ScanGlobal(c: Config, w: Watch, board: Board, now: real): (Watch, seq<Out>) {
    CheckAll(c, Prune(w, now), board, now)
  }

  // ---- a report ---------------------------------------------------------

  /** Freshness bookkeeping: the latest activity seen, and since when a session is busy without any. */
  function Observe(w: Watch, r: Report, now: real): (Watch, bool) {
    var moved := r.activityTs > Get(w.lastActivity, r.sessionId);
    var w1 := if moved
              then w.(lastActivity := w.lastActivity[r.sessionId := r.activityTs], firstBusy := w.firstBusy - {r.sessionId})
              else w;
    if r.busy && !moved then
      (if r.sessionId in w1.firstBusy then w1 else w1.(firstBusy := w1.firstBusy[r.sessionId := now]), moved)
    else if !r.busy then (w1.(firstBusy := w1.firstBusy - {r.sessionId}), moved)
    else (w1, moved)
  }

  function EvidenceOf(w: Watch, r: Report, now: real): Evidence {
    Evidence(r.sessionId, r.busy, Get(w.lastActivity, r.sessionId), r.latestMessageTs,
             Get(w.firstBusy, r.sessionId), now, r.paused)
  }

  /** The policy's answer to an unpaused report. */
  function Judge(c: Config, w: Watch, src: UnitId, r: Report, moved: bool, now: real): (Watch, seq<Out>)
  {
    var ev := EvidenceOf(w, r, now);
    var w1 := w.(pauseSince := w.pauseSince - {r.sessionId});
    var w2 := if r.busy then w1
              else w1.(lastActivity := w1.lastActivity - {r.sessionId}, firstBusy := w1.firstBusy - {r.sessionId});
    var (ladders, out) := DecideNext(c.policy, w2.ladders, ev, !r.busy || moved);
    (w2.(ladders := ladders), Emitted(c, src, r, out))
  }

  /** The signal of a policy's emission: the action's own, or an escalation if it is gated. */
  function Emitted(c: Config, src: UnitId, r: Report, e: Option<Emission>): seq<Out> {
    if e.None? then []
    else [Out(Target(c, src), if e.value.gated then EscalateSignal else SignalOf(e.value.action), FromReport(src, r))]
  }

  /** A paused session is only timed, and resumed once it has waited long enough. */
  function AutoResume(c: Config, w: Watch, src: UnitId, r: Report, now: real): (Watch, seq<Out>) {
    var since := if r.sessionId in w.pauseSince then w.pauseSince[r.sessionId] else now;
    if now - since >= c.autoResumeSec then
      (w.(pauseSince := w.pauseSince - {r.sessionId}), [Out(Target(c, src), ResumeSignal, FromReport(src, r))])
    else (w.(pauseSince := w.pauseSince[r.sessionId := since]), [])
  }

  /** The watchdog's answer to the report itself, before the global scan. */
  function AnswerTo(c: Config, w: Watch, src: UnitId, r: Report, now: real): (Watch, seq<Out>)
  {
    if r.loops == Some(true) && r.sessionId !in w.deadLoopFired then
      (w.(deadLoopFired := w.deadLoopFired + {r.sessionId}), [Out(Target(c, src), StopSignal, FromReport(src, r))])
    else Unlooped(c, w, src, r, now)
  }

  /** The answer to a report that starts no stretch of looping texts. */
  function Unlooped(c: Config, w: Watch, src: UnitId, r: Report, now: real): (Watch, seq<Out>)
  {
    var w1 := if r.loops == Some(false) then w.(deadLoopFired := w.deadLoopFired - {r.sessionId}) else w;
    var (w2, moved) := Observe(w1, r, now);
    if r.paused then AutoResume(c, w2, src, r, now) else Judge(c, w2, src, r, moved, now)
  }

  function OnReport(c: Config, w: Watch, src: UnitId, r: Report, now: real, board: Board): (Watch, seq<Out>)
  {
    var (w1, o1) := AnswerTo(c, w, src, r, now);
    var (w2, o2) := ScanGlobal(c, w1, board, now);
    (w2, o1 + o2)
  }

  // ---- whom the signals answer ------------------------------------------

  /** A signal answers the report at hand, or a metric of the board that crossed its bound. */
  ghost predicate Answers(c: Config, o: Out, board: Board) {
    o.cause.FromMetrics? ==>
      && o.dst == Target(c, o.cause.wid) && o.kind == StopSignal
      && (o.cause.wid, o.cause.metrics) in board
      && Crossed(c, o.cause.guard, o.cause.metrics, o.cause.now)
  }

  /** What the metric signals of one scan owe to the guards fired before and after it. */
  ghost predicate FiredOnce(before: set<(Guard, UnitId)>, after: set<(Guard, UnitId)>, outs: seq<Out>) {
    && before <= after
    && (forall i :: 0 <= i < |outs| && outs[i].cause.FromMetrics? ==>
          (outs[i].cause.guard, outs[i].cause.wid) in after - before)
    && (forall i, j :: 0 <= i < j < |outs| && outs[i].cause.FromMetrics? && outs[j].cause.FromMetrics? ==>
          (outs[i].cause.guard, outs[i].cause.wid) != (outs[j].cause.guard, outs[j].cause.wid))
  }

  lemma FiredOnceConcat(a: set<(Guard, UnitId)>, b: set<(Guard, UnitId)>, c: set<(Guard, UnitId)>,
                        x: seq<Out>, y: seq<Out>)
    requires FiredOnce(a, b, x) && FiredOnce(b, c, y)
    ensures FiredOnce(a, c, x + y)
  {
    var z := x + y;
    forall i | 0 <= i < |z| && z[i].cause.FromMetrics?
      ensures (z[i].cause.guard, z[i].cause.wid) in c - a
    {
      if i >= |x| { assert z[i] == y[i - |x|]; }
    }
    forall i, j | 0 <= i < j < |z| && z[i].cause.FromMetrics? && z[j].cause.FromMetrics?
      ensures (z[i].cause.guard, z[i].cause.wid) != (z[j].cause.guard, z[j].cause.wid)
    {
      if i < |x| && j >= |x| { assert z[j] == y[j - |x|]; }
      else if i >= |x| { assert z[i] == y[i - |x|] && z[j] == y[j - |x|]; }
    }
  }

  ghost predicate AllAnswer(c: Config, outs: seq<Out>, board: Board) {
    forall i :: 0 <= i < |outs| ==> outs[i].cause.FromMetrics? && Answers(c, outs[i], board)
  }

  lemma GuardAnswers(c: Config, w: Watch, g: Guard, wid: UnitId, m: Metrics, now: real, board: Board)
    requires (wid, m) in board
    ensures var (w1, outs) := CheckGuard(c, w, g, wid, m, now);
            AllAnswer(c, outs, board) && FiredOnce(w.globalFired, w1.globalFired, outs)
  {
  }

  lemma WorkflowAnswers(c: Config, w: Watch, wid: UnitId, m: Metrics, now: real, board: Board)
    requires (wid, m) in board
    ensures var (w1, outs) := CheckWorkflow(c, w, wid, m, now);
            AllAnswer(c, outs, board) && FiredOnce(w.globalFired, w1.globalFired, outs)
  {
    hide CheckGuard, FiredOnce, Answers;
    var (w1, o1) := CheckGuard(c, w, GlobalTimeout, wid, m, now);
    var (w2, o2) := CheckGuard(c, w1, GlobalBudget, wid, m, now);
    var (w3, o3) := CheckGuard(c, w2, HeartbeatLoss, wid, m, now);
    GuardAnswers(c, w, GlobalTimeout, wid, m, now, board);
    GuardAnswers(c, w1, GlobalBudget, wid, m, now, board);
    GuardAnswers(c, w2, HeartbeatLoss, wid, m, now, board);
    FiredOnceConcat(w.globalFired, w1.globalFired, w2.globalFired, o1, o2);
    FiredOnceConcat(w.globalFired, w2.globalFired, w3.globalFired, o1 + o2, o3);
  }

  lemma {:induction false} ScanAnswers(c: Config, w: Watch, part: Board, now: real, board: Board)
    requires forall e :: e in part ==> e in board
    ensures var (w1, outs) := CheckAll(c, w, part, now);
            AllAnswer(c, outs, board) && FiredOnce(w.globalFired, w1.globalFired, outs)
    decreases |part|
  {
    if part != [] {
      assert part[0] in part;
      assert forall e :: e in part[1..] ==> e in part;
      hide CheckWorkflow, FiredOnce, Answers;
      var (w1, o1) := CheckWorkflow(c, w, part[0].0, part[0].1, now);
      WorkflowAnswers(c, w, part[0].0, part[0].1, now, board);
      ScanAnswers(c, w1, part[1..], now, board);
      var (w2, o2) := CheckAll(c, w1, part[1..], now);
      FiredOnceConcat(w.globalFired, w1.globalFired, w2.globalFired, o1, o2);
    } else {
      NothingFired(w.globalFired);
    }
  }

  lemma NothingFired(s: set<(Guard, UnitId)>)
    ensures FiredOnce(s, s, [])
  {
  }

  /** The answer to a report is at most one signal, to its sender, because of that report; guards are untouched. */
  lemma AnswerGoesToSender(c: Config, w: Watch, src: UnitId, r: Report, now: real)
    ensures var (w1, outs) := AnswerTo(c, w, src, r, now);
            && |outs| <= 1
            && (forall i :: 0 <= i < |outs| ==> outs[i].dst == Target(c, src) && outs[i].cause == FromReport(src, r))
            && w1.globalFired == w.globalFired
  {
    hide DecideNext;
  }

  /** Everything one report sets off: its own answer to the sender, and stops for workflows whose metrics crossed. */
  lemma ReportAnswers(c: Config, w: Watch, src: UnitId, r: Report, now: real, board: Board)
    ensures var (w1, outs) := OnReport(c, w, src, r, now, board);
            && (forall i :: 0 <= i < |outs| ==>
                  if outs[i].cause.FromReport?
                  then outs[i].dst == Target(c, src) && outs[i].cause == FromReport(src, r)
                  else Answers(c, outs[i], board))
            && FiredOnce(w.globalFired, w1.globalFired, outs)
  {
    hide AnswerTo, CheckAll, Answers, FiredOnce;
    var (w1, o1) := AnswerTo(c, w, src, r, now);
    AnswerGoesToSender(c, w, src, r, now);
    var (w2, o2) := ScanGlobal(c, w1, board, now);
    ScanAnswers(c, Prune(w1, now), board, now, board);
    OnlyReports(w.globalFired, o1);
    FiredOnceConcat(w.globalFired, w1.globalFired, w2.globalFired, o1, o2);
  }

  lemma OnlyReports(s: set<(Guard, UnitId)>, outs: seq<Out>)
    requires forall i :: 0 <= i < |outs| ==> outs[i].cause.FromReport?
    ensures FiredOnce(s, s, outs)
  {
  }

  // ---- the unit ---------------------------------------------------------

  class WatchdogUnit {
    const config: Config
    const policy: WatchdogPolicy
    var lastActivity: map<SessionId, real>
    var firstBusy: map<SessionId, real>
    var pauseSince: map<SessionId, real>
    var deadLoopFired: set<SessionId>
    var globalFired: set<(Guard, UnitId)>

    ghost predicate Valid() {
      policy.policy == config.policy
    }

    ghost function View(): Watch
      reads this, policy
    {
      Watch(lastActivity, firstBusy, pauseSince, deadLoopFired, globalFired, policy.ladders)
    }

    constructor (c: Config)
      ensures Valid() && config == c && View() == FRESH_WATCH && fresh(policy)
    {
      config := c;
      policy := new WatchdogPolicy(c.policy);
      lastActivity, firstBusy, pauseSince := map[], map[], map[];
      deadLoopFired, globalFired := {}, {};
    }

    method FireOnce(g: Guard, wid: UnitId, m: Metrics, now: real) returns (outs: seq<Out>)
      requires Crossed(config, g, m, now)
      modifies this`globalFired
      ensures (View(), outs) == CheckGuard(config, old(View()), g, wid, m, now)
    {
      if (g, wid) in globalFired { return []; }
      globalFired := globalFired + {(g, wid)};
      outs := [Out(Target(config, wid), StopSignal, FromMetrics(wid, g, m, now))];
    }

    method CheckMetrics(wid: UnitId, m: Metrics, now: real) returns (outs: seq<Out>)
      modifies this`globalFired
      ensures (View(), outs) == CheckWorkflow(config, old(View()), wid, m, now)
    {
      var o1, o2, o3 := [], [], [];
      if Crossed(config, GlobalTimeout, m, now) { o1 := FireOnce(GlobalTimeout, wid, m, now); }
      if Crossed(config, GlobalBudget, m, now) { o2 := FireOnce(GlobalBudget, wid, m, now); }
      if Crossed(config, HeartbeatLoss, m, now) { o3 := FireOnce(HeartbeatLoss, wid, m, now); }
      outs := o1 + o2 + o3;
    }

    method PruneStale(now: real)
      modifies this`lastActivity, this`firstBusy, this`pauseSince, policy
      ensures View() == Prune(old(View()), now)
    {
      if |lastActivity| < 64 { return; }
      var stale := set s | s in lastActivity && now - lastActivity[s] > 3600.0;
      lastActivity, firstBusy, pauseSince := lastActivity - stale, firstBusy - stale, pauseSince - stale;
      policy.ladders := policy.ladders - stale;
    }

    method ScanBoard(board: Board, now: real) returns (outs: seq<Out>)
      modifies this, policy
      ensures (View(), outs) == ScanGlobal(config, old(View()), board, now)
    {
      PruneStale(now);
      ghost var start := View();
      outs := [];
      assert board[0..] == board && [] + CheckAll(config, start, board, now).1 == CheckAll(config, start, board, now).1;
      for i := 0 to |board|
        invariant var (w, rest) := CheckAll(config, View(), board[i..], now);
                  CheckAll(config, start, board, now) == (w, outs + rest)
      {
        hide CheckWorkflow;
        assert board[i..][0] == board[i] && board[i..][1..] == board[i + 1..];
        var more := CheckMetrics(board[i].0, board[i].1, now);
        ghost var rest := CheckAll(config, View(), board[i + 1..], now).1;
        assert outs + (more + rest) == (outs + more) + rest;
        outs := outs + more;
      }
      assert outs + [] == outs;
    }

    method EvidenceFrom(r: Report, now: real) returns (ev: Evidence, moved: bool)
      modifies this`lastActivity, this`firstBusy
      ensures (View(), moved) == Observe(old(View()), r, now)
      ensures ev == EvidenceOf(View(), r, now)
    {
      moved := r.activityTs > Get(lastActivity, r.sessionId);
      if moved {
        lastActivity := lastActivity[r.sessionId := r.activityTs];
        firstBusy := firstBusy - {r.sessionId};
      }
      if r.busy && !moved {
        if r.sessionId !in firstBusy { firstBusy := firstBusy[r.sessionId := now]; }
      } else if !r.busy {
        firstBusy := firstBusy - {r.sessionId};
      }
      ev := Evidence(r.sessionId, r.busy, Get(lastActivity, r.sessionId), r.latestMessageTs,
                     Get(firstBusy, r.sessionId), now, r.paused);
    }

    method ResumePaused(src: UnitId, r: Report, now: real) returns (outs: seq<Out>)
      modifies this`pauseSince
      ensures (View(), outs) == AutoResume(config, old(View()), src, r, now)
    {
      if r.sessionId !in pauseSince { pauseSince := pauseSince[r.sessionId := now]; }
      if now - pauseSince[r.sessionId] >= config.autoResumeSec {
        pauseSince := pauseSince - {r.sessionId};
        assert pauseSince == old(pauseSince) - {r.sessionId};
        outs := [Out(Target(config, src), ResumeSignal, FromReport(src, r))];
      } else {
        assert pauseSince == old(pauseSince)[r.sessionId := pauseSince[r.sessionId]];
        outs := [];
      }
    }

    method IsRecovered(r: Report, moved: bool) returns (recovered: bool)
      modifies this`lastActivity, this`firstBusy
      ensures recovered == (!r.busy || moved)
      ensures r.busy ==> View() == old(View())
      ensures !r.busy ==> View() == old(View()).(lastActivity := old(lastActivity) - {r.sessionId},
                                                 firstBusy := old(firstBusy) - {r.sessionId})
    {
      if !r.busy {
        lastActivity, firstBusy := lastActivity - {r.sessionId}, firstBusy - {r.sessionId};
        return true;
      }
      return moved;
    }

    method JudgeReport(src: UnitId, r: Report, ev: Evidence, moved: bool, now: real) returns (outs: seq<Out>)
      requires Valid() && ev == EvidenceOf(View(), r, now)
      modifies this, policy
      ensures (View(), outs) == Judge(config, old(View()), src, r, moved, now)
    {
      hide DecideNext;
      pauseSince := pauseSince - {r.sessionId};
      var recovered := IsRecovered(r, moved);
      var out := policy.Decide(ev, recovered);
      outs := if out.None? then []
              else [Out(Target(config, src), if out.value.gated then EscalateSignal else SignalOf(out.value.action),
                        FromReport(src, r))];
    }

    method AnswerReport(src: UnitId, r: Report, now: real) returns (outs: seq<Out>)
      requires Valid()
      modifies this, policy
      ensures (View(), outs) == AnswerTo(config, old(View()), src, r, now)
    {
      if r.loops == Some(true) && r.sessionId !in deadLoopFired {
        deadLoopFired := deadLoopFired + {r.sessionId};
        return [Out(Target(config, src), StopSignal, FromReport(src, r))];
      }
      if r.loops == Some(false) { deadLoopFired := deadLoopFired - {r.sessionId}; }
      hide Observe, AutoResume, Judge;
      var ev, moved := EvidenceFrom(r, now);
      if r.paused {
        outs := ResumePaused(src, r, now);
      } else {
        outs := JudgeReport(src, r, ev, moved, now);
      }
    }

    method HandleReport(src: UnitId, r: Report, now: real, board: Board) returns (outs: seq<Out>)
      requires Valid()
      modifies this, policy
      ensures (View(), outs) == OnReport(config, old(View()), src, r, now, board)
    {
      hide AnswerTo, ScanGlobal;
      var o1 := AnswerReport(src, r, now);
      var o2 := ScanBoard(board, now);
      outs := o1 + o2;
    }
  }
}
