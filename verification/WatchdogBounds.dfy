/**
 When the watchdog stops a workflow for its metrics: at the first scan that finds one of
 the three bounds passed, and at no other.
 */
module WatchdogBounds {
  import opened Common
  import opened WatchdogPolicies
  import opened WatchdogUnits
  import opened WatchdogHistory

  /** One of the signals stops `wid` for the guard. */
  ghost predicate StopsFor(outs: seq<Out>, wid: UnitId, g: Guard) {
    exists i :: 0 <= i < |outs| && IsStop(outs[i], wid, g)
  }

  ghost predicate IsStop(o: Out, wid: UnitId, g: Guard) {
    o.cause.FromMetrics? && o.cause.wid == wid && o.cause.guard == g
  }

  /** The metrics on the board show the workflow past the bound of the guard. */
  ghost predicate PastBound(b: Bounds, board: Board, now: real, wid: UnitId, g: Guard) {
    exists i :: 0 <= i < |board| && board[i].0 == wid &&
      match g
      case GlobalTimeout =>
        b.deadlineSec.Some? && board[i].1.startTime != 0.0 && now > board[i].1.startTime + b.deadlineSec.value
      case GlobalBudget =>
        b.maxNodes.Some? && board[i].1.nodeCount > b.maxNodes.value
      case HeartbeatLoss =>
        b.heartbeatStaleSec.Some? && board[i].1.heartbeat != 0.0 && now > board[i].1.heartbeat + b.heartbeatStaleSec.value
  }

  // ---- one scan ---------------------------------------------------------

  lemma StopsConcat(a: seq<Out>, b: seq<Out>, wid: UnitId, g: Guard)
    ensures StopsFor(a + b, wid, g) <==> StopsFor(a, wid, g) || StopsFor(b, wid, g)
  {
    if StopsFor(a, wid, g) {
      var i :| 0 <= i < |a| && IsStop(a[i], wid, g);
      assert (a + b)[i] == a[i];
    }
    if StopsFor(b, wid, g) {
      var i :| 0 <= i < |b| && IsStop(b[i], wid, g);
      assert (a + b)[|a| + i] == b[i];
    }
  }

  /** What checking does to one guard of one workflow: it stops if `due` and not yet fired, and remembers it. */
  ghost predicate Handled(before: Watch, after: Watch, outs: seq<Out>, wid: UnitId, g: Guard, due: bool) {
    && (StopsFor(outs, wid, g) <==> due && (g, wid) !in before.globalFired)
    && ((g, wid) in after.globalFired <==> due || (g, wid) in before.globalFired)
  }

  lemma GuardHandles(c: Config, w: Watch, h: Guard, id: UnitId, m: Metrics, now: real, wid: UnitId, g: Guard)
    ensures var (v, outs) := CheckGuard(c, w, h, id, m, now);
            Handled(w, v, outs, wid, g, wid == id && g == h && Crossed(c, g, m, now))
  {
    var (v, outs) := CheckGuard(c, w, h, id, m, now);
    if outs != [] { assert IsStop(outs[0], id, h); }
  }

  lemma HandledTwice(a: Watch, b: Watch, d: Watch, x: seq<Out>, y: seq<Out>, wid: UnitId, g: Guard, p: bool, q: bool)
    requires Handled(a, b, x, wid, g, p) && Handled(b, d, y, wid, g, q)
    ensures Handled(a, d, x + y, wid, g, p || q)
  {
    hide StopsFor;
    StopsConcat(x, y, wid, g);
  }

  lemma WorkflowHandles(c: Config, w: Watch, id: UnitId, m: Metrics, now: real, wid: UnitId, g: Guard)
    ensures var (v, outs) := CheckWorkflow(c, w, id, m, now);
            Handled(w, v, outs, wid, g, wid == id && Crossed(c, g, m, now))
  {
    hide CheckGuard, Crossed, Handled;
    var (w1, o1) := CheckGuard(c, w, GlobalTimeout, id, m, now);
    var (w2, o2) := CheckGuard(c, w1, GlobalBudget, id, m, now);
    var (w3, o3) := CheckGuard(c, w2, HeartbeatLoss, id, m, now);
    var due := wid == id && Crossed(c, g, m, now);
    GuardHandles(c, w, GlobalTimeout, id, m, now, wid, g);
    GuardHandles(c, w1, GlobalBudget, id, m, now, wid, g);
    GuardHandles(c, w2, HeartbeatLoss, id, m, now, wid, g);
    HandledTwice(w, w1, w2, o1, o2, wid, g, due && g == GlobalTimeout, due && g == GlobalBudget);
    HandledTwice(w, w2, w3, o1 + o2, o3, wid, g, due && (g == GlobalTimeout || g == GlobalBudget), due && g == HeartbeatLoss);
    assert g == GlobalTimeout || g == GlobalBudget || g == HeartbeatLoss;
  }

  lemma PastOne(c: Config, id: UnitId, m: Metrics, rest: Board, now: real, wid: UnitId, g: Guard)
    ensures PastBound(c.bounds, [(id, m)] + rest, now, wid, g) <==>
            (wid == id && Crossed(c, g, m, now)) || PastBound(c.bounds, rest, now, wid, g)
  {
    var board := [(id, m)] + rest;
    assert board[0] == (id, m);
    assert forall i :: 0 <= i < |rest| ==> board[i + 1] == rest[i];
    assert forall i :: 1 <= i < |board| ==> board[i] == rest[i - 1];
  }

  lemma {:induction false} ChecksHandle(c: Config, w: Watch, board: Board, now: real, wid: UnitId, g: Guard)
    ensures var (v, outs) := CheckAll(c, w, board, now);
            Handled(w, v, outs, wid, g, PastBound(c.bounds, board, now, wid, g))
    decreases |board|
  {
    if board != [] {
      hide CheckWorkflow, Handled, PastBound, Crossed;
      var (id, m) := board[0];
      var (w1, o1) := CheckWorkflow(c, w, id, m, now);
      var (w2, o2) := CheckAll(c, w1, board[1..], now);
      WorkflowHandles(c, w, id, m, now, wid, g);
      ChecksHandle(c, w1, board[1..], now, wid, g);
      assert board == [(id, m)] + board[1..];
      PastOne(c, id, m, board[1..], now, wid, g);
      HandledTwice(w, w1, w2, o1, o2, wid, g, wid == id && Crossed(c, g, m, now),
                   PastBound(c.bounds, board[1..], now, wid, g));
    }
  }

  lemma ScanHandles(c: Config, w: Watch, board: Board, now: real, wid: UnitId, g: Guard)
    ensures var (v, outs) := ScanGlobal(c, w, board, now);
            Handled(w, v, outs, wid, g, PastBound(c.bounds, board, now, wid, g))
  {
    hide CheckAll, PastBound, StopsFor;
    ChecksHandle(c, Prune(w, now), board, now, wid, g);
  }

  ghost predicate DistinctIds(board: Board) {
    forall i, j :: 0 <= i < j < |board| ==> board[i].0 != board[j].0
  }

  /**
   One scan of a board that lists `wid` once, with metrics `m`: which of the three stops
   it sends for it. Zero is how the metrics say that a time is missing.
   */
  lemma ScanStopsIff(c: Config, w: Watch, board: Board, now: real, wid: UnitId, m: Metrics)
    requires DistinctIds(board) && (wid, m) in board
    ensures var outs := ScanGlobal(c, w, board, now).1;
            && (StopsFor(outs, wid, GlobalTimeout) <==>
                c.bounds.deadlineSec.Some? && m.startTime != 0.0 && now - m.startTime > c.bounds.deadlineSec.value
                && (GlobalTimeout, wid) !in w.globalFired)
            && (StopsFor(outs, wid, GlobalBudget) <==>
                c.bounds.maxNodes.Some? && m.nodeCount > c.bounds.maxNodes.value && (GlobalBudget, wid) !in w.globalFired)
            && (StopsFor(outs, wid, HeartbeatLoss) <==>
                c.bounds.heartbeatStaleSec.Some? && m.heartbeat != 0.0
                && now - m.heartbeat > c.bounds.heartbeatStaleSec.value && (HeartbeatLoss, wid) !in w.globalFired)
  {
    hide ScanGlobal, StopsFor;
    var k :| 0 <= k < |board| && board[k] == (wid, m);
    forall i | 0 <= i < |board| && board[i].0 == wid ensures i == k {}
    ScanHandles(c, w, board, now, wid, GlobalTimeout);
    ScanHandles(c, w, board, now, wid, GlobalBudget);
    ScanHandles(c, w, board, now, wid, HeartbeatLoss);
  }

  // ---- runs --------------------------------------------------------------

  lemma ReportsStopNothing(outs: seq<Out>, wid: UnitId, g: Guard)
    requires forall i :: 0 <= i < |outs| ==> outs[i].cause.FromReport?
    ensures !StopsFor(outs, wid, g)
  {
  }

  /** A report is answered and the board scanned; a scan is a scan. Either handles every guard alike. */
  lemma HeedHandles(c: Config, w: Watch, h: Heard, wid: UnitId, g: Guard)
    ensures var (v, outs) := Heed(c, w, h);
            Handled(w, v, outs, wid, g, PastBound(c.bounds, h.board, h.now, wid, g))
  {
    hide AnswerTo, ScanGlobal, PastBound, StopsFor;
    if h.Told? {
      var (w1, o1) := AnswerTo(c, w, h.src, h.report, h.now);
      AnswerGoesToSender(c, w, h.src, h.report, h.now);
      ReportsStopNothing(o1, wid, g);
      var (w2, o2) := ScanGlobal(c, w1, h.board, h.now);
      ScanHandles(c, w1, h.board, h.now, wid, g);
      HandledTwice(w, w1, w2, o1, o2, wid, g, false, PastBound(c.bounds, h.board, h.now, wid, g));
    } else {
      ScanHandles(c, w, h.board, h.now, wid, g);
    }
  }

  /** Some scan of the past found the workflow past the bound. */
  ghost predicate FoundPast(c: Config, past: seq<Heard>, wid: UnitId, g: Guard) {
    exists i :: 0 <= i < |past| && PastBound(c.bounds, past[i].board, past[i].now, wid, g)
  }

  lemma FoundSnoc(c: Config, past: seq<Heard>, wid: UnitId, g: Guard)
    requires past != []
    ensures var n := |past| - 1;
            FoundPast(c, past, wid, g) <==>
            FoundPast(c, past[..n], wid, g) || PastBound(c.bounds, past[n].board, past[n].now, wid, g)
  {
    hide PastBound;
    var n := |past| - 1;
    if FoundPast(c, past[..n], wid, g) {
      var i :| 0 <= i < n && PastBound(c.bounds, past[..n][i].board, past[..n][i].now, wid, g);
      assert past[i] == past[..n][i];
    }
    if i :| 0 <= i < |past| && i != n && PastBound(c.bounds, past[i].board, past[i].now, wid, g) {
      assert past[..n][i] == past[i];
    }
  }

  /** A guard has fired exactly when some scan found its bound passed. */
  lemma {:induction false} FiredIsHistory(c: Config, past: seq<Heard>, wid: UnitId, g: Guard)
    ensures (g, wid) in WatchAfter(c, past).globalFired <==> FoundPast(c, past, wid, g)
  {
    if past != [] {
      hide Heed, FoundPast, PastBound, StopsFor;
      FiredIsHistory(c, past[..|past| - 1], wid, g);
      FoundSnoc(c, past, wid, g);
      HeedHandles(c, WatchAfter(c, past[..|past| - 1]), past[|past| - 1], wid, g);
    }
  }

  /**
   Over any reports and scans: a workflow is stopped for a bound at the first scan that
   finds the bound passed, and at no other; never while its metrics are within it.
   */
  lemma StoppedAtFirstCrossing(c: Config, past: seq<Heard>, h: Heard, wid: UnitId, g: Guard)
    ensures StopsFor(Heed(c, WatchAfter(c, past), h).1, wid, g) <==>
            PastBound(c.bounds, h.board, h.now, wid, g)
            && forall i :: 0 <= i < |past| ==> !PastBound(c.bounds, past[i].board, past[i].now, wid, g)
  {
    hide Heed, PastBound, StopsFor;
    FiredIsHistory(c, past, wid, g);
    HeedHandles(c, WatchAfter(c, past), h, wid, g);
  }

  /** Such a stop goes to the workflow itself, or to the configured destination if its id is empty; there is one at most. */
  lemma StopsGoToOffender(c: Config, w: Watch, h: Heard, wid: UnitId, g: Guard, i: nat, j: nat)
    requires var outs := Heed(c, w, h).1;
             i < |outs| && IsStop(outs[i], wid, g) && j < |outs| && IsStop(outs[j], wid, g)
    ensures var o := Heed(c, w, h).1[i];
            i == j && o.dst == (if wid == "" then c.controlDst else wid) && o.kind == StopSignal
            && (wid, o.cause.metrics) in h.board
  {
    hide OnReport, ScanGlobal;
    if h.Told? {
      ReportAnswers(c, w, h.src, h.report, h.now, h.board);
    } else {
      ScanAnswers(c, Prune(w, h.now), h.board, h.now, h.board);
      assert ScanGlobal(c, w, h.board, h.now) == CheckAll(c, Prune(w, h.now), h.board, h.now) by { ScanIs(c, w, h.board, h.now); }
    }
  }

  lemma ScanIs(c: Config, w: Watch, board: Board, now: real)
    ensures ScanGlobal(c, w, board, now) == CheckAll(c, Prune(w, now), board, now)
  {
  }
}
