/**
 The watchdog's tables and ladders as functions of what it heard, scans and their
 pruning included: exactly when they are, and what happens to a session that is pruned.
 */
module WatchdogHistory {
  import opened Common
  import opened WatchdogPolicies
  import opened WatchdogUnits

  /** What sets the watchdog going: a report, or a scan of its own after the board changed. */
  datatype Heard =
    | Told(src: UnitId, report: Report, now: real, board: Board)
    | Scanned(now: real, board: Board)

  /** The watch between the answer and the scan that follows it. */
  function Answered(c: Config, w: Watch, h: Heard): Watch {
    if h.Told? then AnswerTo(c, w, h.src, h.report, h.now).0 else w
  }

  function Heed(c: Config, w: Watch, h: Heard): (Watch, seq<Out>) {
    if h.Told? then OnReport(c, w, h.src, h.report, h.now, h.board) else ScanGlobal(c, w, h.board, h.now)
  }

  function WatchAfter(c: Config, past: seq<Heard>): Watch {
    if past == [] then FRESH_WATCH else Heed(c, WatchAfter(c, past[..|past| - 1]), past[|past| - 1]).0
  }

  lemma {:induction false} ChecksKeepTables(c: Config, w: Watch, board: Board, now: real)
    ensures var v := CheckAll(c, w, board, now).0; v == w.(globalFired := v.globalFired)
    decreases |board|
  {
    if board != [] {
      ChecksKeepTables(c, CheckWorkflow(c, w, board[0].0, board[0].1, now).0, board[1..], now);
    }
  }

  /** Apart from the fired guards, heeding is answering and then pruning. */
  lemma HeedIsPrunedAnswer(c: Config, w: Watch, h: Heard)
    ensures var v := Heed(c, w, h).0; v == Prune(Answered(c, w, h), h.now).(globalFired := v.globalFired)
  {
    hide CheckAll, AnswerTo, Prune;
    ChecksKeepTables(c, Prune(Answered(c, w, h), h.now), h.board, h.now);
  }

  // ---- the tables as history --------------------------------------------

  /** Whether the latest text of a session looped. */
  predicate LastTextLoops(past: seq<Heard>, sid: SessionId) {
    past != [] &&
    var h := past[|past| - 1];
    if h.Told? && h.report.sessionId == sid && h.report.loops.Some? then h.report.loops.value
    else LastTextLoops(past[..|past| - 1], sid)
  }

  /** A looping text stops the sender only at the start of a stretch of looping texts. */
  predicate StopsLoop(past: seq<Heard>, r: Report) {
    r.loops == Some(true) && !LastTextLoops(past, r.sessionId)
  }

  /** A report of `sid` that does more than stop a loop. */
  predicate Counts(past: seq<Heard>, h: Heard, sid: SessionId) {
    h.Told? && h.report.sessionId == sid && !StopsLoop(past, h.report)
  }

  /** The freshest activity reported since the session was last idle; zero is none. */
  function Freshest(past: seq<Heard>, sid: SessionId): real {
    if past == [] then 0.0
    else
      var front, h := past[..|past| - 1], past[|past| - 1];
      if !Counts(front, h, sid) then Freshest(front, sid)
      else if !h.report.paused && !h.report.busy then 0.0
      else MaxReal(Freshest(front, sid), h.report.activityTs)
  }

  /** When the session first reported busy without fresh activity, in the current stretch of such reports. */
  function BusySince(past: seq<Heard>, sid: SessionId): Option<real> {
    if past == [] then None
    else
      var front, h := past[..|past| - 1], past[|past| - 1];
      if !Counts(front, h, sid) then BusySince(front, sid)
      else SinceWith(h.report, Freshest(front, sid), BusySince(front, sid), h.now)
  }

  function SinceWith(r: Report, freshest: real, since: Option<real>, now: real): Option<real> {
    if !r.busy || r.activityTs > freshest then None else if since.Some? then since else Some(now)
  }

  /** One session's three table entries: looping, freshest activity, busy since. */
  datatype Entry = Entry(looping: bool, freshest: real, since: Option<real>)

  function SinceOf(m: map<SessionId, real>, sid: SessionId): Option<real> {
    if sid in m then Some(m[sid]) else None
  }

  function EntryOf(w: Watch, sid: SessionId): Entry {
    Entry(sid in w.deadLoopFired, Get(w.lastActivity, sid), SinceOf(w.firstBusy, sid))
  }

  ghost predicate KeepsHistory(w: Watch, past: seq<Heard>, sid: SessionId) {
    EntryOf(w, sid) == Entry(LastTextLoops(past, sid), Freshest(past, sid), BusySince(past, sid))
  }

  // ---- one answer -------------------------------------------------------

  lemma ObserveOther(w: Watch, r: Report, now: real, sid: SessionId)
    requires sid != r.sessionId
    ensures EntryOf(Observe(w, r, now).0, sid) == EntryOf(w, sid)
  {
  }

  lemma ObserveOwn(w: Watch, r: Report, now: real)
    ensures var e := EntryOf(w, r.sessionId);
            EntryOf(Observe(w, r, now).0, r.sessionId) ==
            Entry(e.looping, MaxReal(e.freshest, r.activityTs), SinceWith(r, e.freshest, e.since, now))
  {
  }

  lemma JudgeEntries(c: Config, w: Watch, src: UnitId, r: Report, moved: bool, now: real, sid: SessionId)
    requires !r.busy ==> r.sessionId !in w.firstBusy
    ensures EntryOf(Judge(c, w, src, r, moved, now).0, sid) ==
            if !r.busy && sid == r.sessionId then EntryOf(w, sid).(freshest := 0.0) else EntryOf(w, sid)
  {
    hide DecideNext;
  }

  lemma AutoResumeEntries(c: Config, w: Watch, src: UnitId, r: Report, now: real, sid: SessionId)
    ensures EntryOf(AutoResume(c, w, src, r, now).0, sid) == EntryOf(w, sid)
  {
  }

  lemma AnswerOther(c: Config, w: Watch, src: UnitId, r: Report, now: real, sid: SessionId)
    requires sid != r.sessionId
    ensures EntryOf(AnswerTo(c, w, src, r, now).0, sid) == EntryOf(w, sid)
  {
    var w1 := if r.loops == Some(false) then w.(deadLoopFired := w.deadLoopFired - {r.sessionId}) else w;
    var (w2, moved) := Observe(w1, r, now);
    ObserveOther(w1, r, now, sid);
    ObserveOwn(w1, r, now);
    assert EntryOf(w1, sid) == EntryOf(w, sid);
    AutoResumeEntries(c, w2, src, r, now, sid);
    JudgeEntries(c, w2, src, r, moved, now, sid);
    if r.loops != Some(true) || r.sessionId in w.deadLoopFired {
      hide Observe, Judge, AutoResume, EntryOf;
    }
  }

  lemma AnswerOwn(c: Config, w: Watch, src: UnitId, r: Report, now: real)
    ensures var e := EntryOf(w, r.sessionId);
            EntryOf(AnswerTo(c, w, src, r, now).0, r.sessionId) ==
            if r.loops == Some(true) && !e.looping then e.(looping := true)
            else Entry(if r.loops.Some? then r.loops.value else e.looping,
                       if !r.paused && !r.busy then 0.0 else MaxReal(e.freshest, r.activityTs),
                       SinceWith(r, e.freshest, e.since, now))
  {
    var w1 := if r.loops == Some(false) then w.(deadLoopFired := w.deadLoopFired - {r.sessionId}) else w;
    var (w2, moved) := Observe(w1, r, now);
    ObserveOwn(w1, r, now);
    AutoResumeEntries(c, w2, src, r, now, r.sessionId);
    JudgeEntries(c, w2, src, r, moved, now, r.sessionId);
    hide Observe, Judge, AutoResume;
  }

  lemma AnswerKeepsHistory(c: Config, w: Watch, past: seq<Heard>, h: Heard, sid: SessionId)
    requires KeepsHistory(w, past, sid)
    ensures KeepsHistory(Answered(c, w, h), past + [h], sid)
  {
    hide AnswerTo, EntryOf, SinceWith;
    assert (past + [h])[..|past|] == past;
    if h.Told? {
      if sid == h.report.sessionId {
        AnswerOwn(c, w, h.src, h.report, h.now);
      } else {
        AnswerOther(c, w, h.src, h.report, h.now, sid);
      }
    }
  }

  // ---- pruning ----------------------------------------------------------

  /** The scan at `now` drops what it knows of session `sid`. */
  predicate Forgets(w: Watch, now: real, sid: SessionId) {
    |w.lastActivity| >= 64 && sid in w.lastActivity && now - w.lastActivity[sid] > 3600.0
  }

  lemma PruneEntry(w: Watch, now: real, sid: SessionId)
    ensures EntryOf(Prune(w, now), sid) ==
            if Forgets(w, now, sid) then Entry(sid in w.deadLoopFired, 0.0, None) else EntryOf(w, sid)
    ensures LadderFor(Prune(w, now).ladders, sid) ==
            if Forgets(w, now, sid) then FRESH_LADDER else LadderFor(w.ladders, sid)
  {
  }

  /** A table entry of activity is positive: zero is how the table says none. */
  ghost predicate ActivityPositive(w: Watch) {
    forall s :: s in w.lastActivity ==> w.lastActivity[s] > 0.0
  }

  lemma AnswerPositive(c: Config, w: Watch, src: UnitId, r: Report, now: real)
    requires ActivityPositive(w)
    ensures ActivityPositive(AnswerTo(c, w, src, r, now).0)
  {
    hide DecideNext, EvidenceOf, AutoResume, Observe;
    var w1 := if r.loops == Some(false) then w.(deadLoopFired := w.deadLoopFired - {r.sessionId}) else w;
    ObservePositive(w1, r, now);
    AutoResumeKeepsActivity(c, Observe(w1, r, now).0, src, r, now);
  }

  lemma ObservePositive(w: Watch, r: Report, now: real)
    requires ActivityPositive(w)
    ensures ActivityPositive(Observe(w, r, now).0)
  {
  }

  lemma AutoResumeKeepsActivity(c: Config, w: Watch, src: UnitId, r: Report, now: real)
    ensures AutoResume(c, w, src, r, now).0.lastActivity == w.lastActivity
  {
  }

  lemma {:induction false} AlwaysPositive(c: Config, past: seq<Heard>)
    ensures ActivityPositive(WatchAfter(c, past))
  {
    if past != [] {
      var w, h := WatchAfter(c, past[..|past| - 1]), past[|past| - 1];
      AlwaysPositive(c, past[..|past| - 1]);
      if h.Told? { AnswerPositive(c, w, h.src, h.report, h.now); }
      HeedIsPrunedAnswer(c, w, h);
      hide AnswerTo, Heed;
    }
  }

  /**
   The last scan spares session `sid`: fewer than 64 sessions are known then, or nothing
   is known of this one, or it was active within the last hour.
   */
  ghost predicate Spared(c: Config, past: seq<Heard>, sid: SessionId)
    requires past != []
  {
    var h := past[|past| - 1];
    || |Answered(c, WatchAfter(c, past[..|past| - 1]), h).lastActivity| < 64
    || Freshest(past, sid) == 0.0
    || h.now - Freshest(past, sid) <= 3600.0
  }

  ghost predicate AlwaysSpared(c: Config, past: seq<Heard>, sid: SessionId) {
    past == [] || (AlwaysSpared(c, past[..|past| - 1], sid) && Spared(c, past, sid))
  }

  /** After everything heard so far, and after all that was heard before it, the tables are history. */
  ghost predicate AlwaysKept(c: Config, past: seq<Heard>, sid: SessionId) {
    KeepsHistory(WatchAfter(c, past), past, sid) && (past == [] || AlwaysKept(c, past[..|past| - 1], sid))
  }

  lemma SparedUnlessForgotten(c: Config, past: seq<Heard>, sid: SessionId)
    requires past != []
    requires KeepsHistory(Answered(c, WatchAfter(c, past[..|past| - 1]), past[|past| - 1]), past, sid)
    ensures var h := past[|past| - 1];
            Spared(c, past, sid) <==> !Forgets(Answered(c, WatchAfter(c, past[..|past| - 1]), h), h.now, sid)
  {
    var w, h := WatchAfter(c, past[..|past| - 1]), past[|past| - 1];
    AlwaysPositive(c, past[..|past| - 1]);
    if h.Told? { AnswerPositive(c, w, h.src, h.report, h.now); }
    hide AnswerTo, WatchAfter, Freshest, BusySince, LastTextLoops;
  }

  lemma HeedKeepsIffSpared(c: Config, past: seq<Heard>, sid: SessionId)
    requires past != [] && KeepsHistory(WatchAfter(c, past[..|past| - 1]), past[..|past| - 1], sid)
    ensures KeepsHistory(WatchAfter(c, past), past, sid) <==> Spared(c, past, sid)
  {
    var front, h := past[..|past| - 1], past[|past| - 1];
    var w := WatchAfter(c, front);
    SplitLast(past);
    AnswerKeepsHistory(c, w, front, h, sid);
    SparedUnlessForgotten(c, past, sid);
    HeedIsPrunedAnswer(c, w, h);
    PruneEntry(Answered(c, w, h), h.now, sid);
    AlwaysPositive(c, front);
    if h.Told? { AnswerPositive(c, w, h.src, h.report, h.now); }
    hide AnswerTo, Answered, Heed, Prune, Spared, Freshest, BusySince, LastTextLoops;
  }

  /**
   The watchdog's activity tables are functions of what was reported — how fresh a session
   is, and since when it is busy without a sign of life — at every moment, exactly when
   every scan so far spared the session.
   */
  lemma {:induction false} BookkeepingIsHistory(c: Config, past: seq<Heard>, sid: SessionId)
    ensures AlwaysKept(c, past, sid) <==> AlwaysSpared(c, past, sid)
  {
    if past != [] {
      BookkeepingIsHistory(c, past[..|past| - 1], sid);
      hide KeepsHistory, Spared, WatchAfter;
      if AlwaysKept(c, past[..|past| - 1], sid) { HeedKeepsIffSpared(c, past, sid); }
    }
  }

  /** Which sessions loop is a function of their texts alone; no scan forgets it. */
  lemma {:induction false} LoopingIsHistory(c: Config, past: seq<Heard>, sid: SessionId)
    ensures sid in WatchAfter(c, past).deadLoopFired <==> LastTextLoops(past, sid)
  {
    if past != [] {
      var w, h := WatchAfter(c, past[..|past| - 1]), past[|past| - 1];
      LoopingIsHistory(c, past[..|past| - 1], sid);
      HeedIsPrunedAnswer(c, w, h);
      if h.Told? {
        if sid == h.report.sessionId {
          AnswerOwn(c, w, h.src, h.report, h.now);
        } else {
          AnswerOther(c, w, h.src, h.report, h.now, sid);
        }
      }
      hide AnswerTo, Heed;
    }
  }

  // ---- a dead loop ------------------------------------------------------

  lemma {:induction false} StretchGoesOn(past: seq<Heard>, more: seq<Heard>, sid: SessionId)
    requires LastTextLoops(past, sid)
    requires forall m :: m in more && m.Told? && m.report.sessionId == sid ==> m.report.loops != Some(false)
    ensures LastTextLoops(past + more, sid)
    decreases |more|
  {
    if more == [] {
      assert past + more == past;
    } else {
      StretchGoesOn(past, more[..|more| - 1], sid);
      assert (past + more)[..|past + more| - 1] == past + more[..|more| - 1];
      assert (past + more)[|past + more| - 1] == more[|more| - 1];
    }
  }

  /**
   A stretch of looping texts is stopped at its first text, and at no later one: as long
   as no text of the session stops looping, each is answered as if it did not loop.
   */
  lemma LoopStoppedOnce(c: Config, past: seq<Heard>, h: Heard, more: seq<Heard>, again: Heard)
    requires h.Told? && StopsLoop(past, h.report)
    requires again.Told? && again.report.sessionId == h.report.sessionId && again.report.loops == Some(true)
    requires forall m :: m in more && m.Told? && m.report.sessionId == h.report.sessionId ==>
               m.report.loops != Some(false)
    ensures var w := WatchAfter(c, past);
            Heed(c, w, h).1 == [Out(Target(c, h.src), StopSignal, FromReport(h.src, h.report))]
                               + ScanGlobal(c, Answered(c, w, h), h.board, h.now).1
    ensures var w := WatchAfter(c, past + [h] + more);
            Heed(c, w, again).1 == Unlooped(c, w, again.src, again.report, again.now).1
                                   + ScanGlobal(c, Answered(c, w, again), again.board, again.now).1
  {
    var sid := h.report.sessionId;
    LoopingIsHistory(c, past, sid);
    assert (past + [h])[..|past|] == past;
    StretchGoesOn(past + [h], more, sid);
    LoopingIsHistory(c, past + [h] + more, sid);
    hide LastTextLoops, WatchAfter, Unlooped, ScanGlobal;
  }

  // ---- the ladders as history -------------------------------------------

  /** The call on the policy that a report leads to. */
  function PolicyCall(c: Config, w: Watch, r: Report, now: real): Call {
    var (w1, moved) := Observe(w, r, now);
    Call(Enrich(c.policy.probes, EvidenceOf(w1, r, now)), !r.busy || moved)
  }

  predicate Judged(past: seq<Heard>, h: Heard) {
    h.Told? && !h.report.paused && !StopsLoop(past, h.report)
  }

  /** All calls made on the policy. */
  function CallsMade(c: Config, past: seq<Heard>): seq<Call> {
    if past == [] then []
    else
      var front, h := past[..|past| - 1], past[|past| - 1];
      CallsMade(c, front) + if Judged(front, h) then [PolicyCall(c, WatchAfter(c, front), h.report, h.now)] else []
  }

  lemma ObserveIgnoresLoops(w: Watch, fired: set<SessionId>, r: Report, now: real)
    ensures var (v, moved) := Observe(w, r, now);
            Observe(w.(deadLoopFired := fired), r, now) == (v.(deadLoopFired := fired), moved)
    ensures Observe(w, r, now).0.ladders == w.ladders
  {
  }

  lemma UnpausedAnswer(c: Config, w: Watch, src: UnitId, r: Report, now: real)
    requires !r.paused && !(r.loops == Some(true) && r.sessionId !in w.deadLoopFired)
    ensures var (v, outs) := AnswerTo(c, w, src, r, now);
            var call := PolicyCall(c, w, r, now);
            var (l, e) := DecideLadder(c.policy, LadderFor(w.ladders, call.ev.sessionId), call.ev, call.recovered);
            v.ladders == w.ladders[call.ev.sessionId := l] && outs == Emitted(c, src, r, e)
  {
    hide Observe, DecideLadder, Enrich;
    ObserveIgnoresLoops(w, w.deadLoopFired - {r.sessionId}, r, now);
    ObserveIgnoresLoops(w, w.deadLoopFired, r, now);
  }

  lemma OtherAnswer(c: Config, w: Watch, src: UnitId, r: Report, now: real)
    requires r.paused || (r.loops == Some(true) && r.sessionId !in w.deadLoopFired)
    ensures AnswerTo(c, w, src, r, now).0.ladders == w.ladders
  {
    hide Judge, Observe;
    ObserveIgnoresLoops(w, w.deadLoopFired - {r.sessionId}, r, now);
  }

  /** The ladder of session `k` is the one its calls on the policy built. */
  ghost predicate LadderKept(c: Config, past: seq<Heard>, k: SessionId) {
    LadderFor(WatchAfter(c, past).ladders, k) == LadderFor(LaddersAfter(c.policy, CallsMade(c, past)), k)
  }

  /** The last scan costs session `k` no ladder: it is not forgotten, or its ladder was at the bottom. */
  ghost predicate LadderSpared(c: Config, past: seq<Heard>, k: SessionId)
    requires past != []
  {
    var h := past[|past| - 1];
    || !Forgets(Answered(c, WatchAfter(c, past[..|past| - 1]), h), h.now, k)
    || WorstSinceRecovery(c.policy, CallsMade(c, past), k) == -1
  }

  ghost predicate LadderAlwaysSpared(c: Config, past: seq<Heard>, k: SessionId) {
    past == [] || (LadderAlwaysSpared(c, past[..|past| - 1], k) && LadderSpared(c, past, k))
  }

  ghost predicate LadderAlwaysKept(c: Config, past: seq<Heard>, k: SessionId) {
    LadderKept(c, past, k) && (past == [] || LadderAlwaysKept(c, past[..|past| - 1], k))
  }

  lemma AnswerKeepsLadder(c: Config, past: seq<Heard>, k: SessionId)
    requires past != [] && LadderKept(c, past[..|past| - 1], k)
    ensures var w := Answered(c, WatchAfter(c, past[..|past| - 1]), past[|past| - 1]);
            LadderFor(w.ladders, k) == LadderFor(LaddersAfter(c.policy, CallsMade(c, past)), k)
  {
    var front, h := past[..|past| - 1], past[|past| - 1];
    var w, calls := WatchAfter(c, front), CallsMade(c, front);
    if h.Told? {
      LoopingIsHistory(c, front, h.report.sessionId);
      if Judged(front, h) {
        UnpausedAnswer(c, w, h.src, h.report, h.now);
        var call := PolicyCall(c, w, h.report, h.now);
        assert (calls + [call])[..|calls|] == calls;
        hide AnswerTo, DecideLadder, PolicyCall, WatchAfter;
      } else {
        OtherAnswer(c, w, h.src, h.report, h.now);
        assert calls + [] == calls;
        hide AnswerTo, WatchAfter;
      }
    } else {
      assert calls + [] == calls;
    }
  }

  lemma HeedKeepsLadderIff(c: Config, past: seq<Heard>, k: SessionId)
    requires past != [] && LadderKept(c, past[..|past| - 1], k)
    ensures LadderKept(c, past, k) <==> LadderSpared(c, past, k)
  {
    var w, h := WatchAfter(c, past[..|past| - 1]), past[|past| - 1];
    AnswerKeepsLadder(c, past, k);
    HeedIsPrunedAnswer(c, w, h);
    PruneEntry(Answered(c, w, h), h.now, k);
    LadderIsWorst(c.policy, CallsMade(c, past), k);
    hide Answered, Heed, Prune, Forgets, CallsMade, LaddersAfter, WorstSinceRecovery;
  }

  /** At every moment a session's ladder is what its calls built, exactly when no scan took a rung from it. */
  lemma {:induction false} LaddersAreHistory(c: Config, past: seq<Heard>, k: SessionId)
    ensures LadderAlwaysKept(c, past, k) <==> LadderAlwaysSpared(c, past, k)
  {
    if past != [] {
      LaddersAreHistory(c, past[..|past| - 1], k);
      hide LadderKept, LadderSpared;
      if LadderAlwaysKept(c, past[..|past| - 1], k) { HeedKeepsLadderIff(c, past, k); }
    } else {
      assert LadderKept(c, past, k);
    }
  }

  /** A session no scan forgot has lost no rung either. */
  lemma {:induction false} SparedLadder(c: Config, past: seq<Heard>, k: SessionId)
    requires AlwaysSpared(c, past, k)
    ensures LadderAlwaysSpared(c, past, k)
  {
    if past != [] {
      var front, h := past[..|past| - 1], past[|past| - 1];
      SparedLadder(c, front, k);
      BookkeepingIsHistory(c, front, k);
      SplitLast(past);
      AnswerKeepsHistory(c, WatchAfter(c, front), front, h, k);
      SparedUnlessForgotten(c, past, k);
      hide Answered, WatchAfter, KeepsHistory, Spared, Forgets, CallsMade;
    }
  }

  /**
   The unit refines the history rule: while its session's ladder was never cut, an
   unpaused report is answered exactly by what the rule says of the calls made so far.
   */
  lemma EmissionIsHistoryRule(c: Config, past: seq<Heard>, h: Heard)
    requires Judged(past, h)
    requires LadderAlwaysSpared(c, past, PolicyCall(c, WatchAfter(c, past), h.report, h.now).ev.sessionId)
    ensures AnswerTo(c, WatchAfter(c, past), h.src, h.report, h.now).1 ==
            Emitted(c, h.src, h.report,
                    HistoryRule(c.policy, CallsMade(c, past), PolicyCall(c, WatchAfter(c, past), h.report, h.now)))
  {
    var w := WatchAfter(c, past);
    var call := PolicyCall(c, w, h.report, h.now);
    LoopingIsHistory(c, past, h.report.sessionId);
    UnpausedAnswer(c, w, h.src, h.report, h.now);
    LaddersAreHistory(c, past, call.ev.sessionId);
    DecideIsHistoryRule(c.policy, CallsMade(c, past), call);
    hide AnswerTo, PolicyCall, HistoryRule, DecideLadder, WatchAfter, CallsMade;
  }

  /** The evidence of that call is history too, for a session every scan spared. */
  lemma CallIsHistory(c: Config, past: seq<Heard>, r: Report, now: real)
    requires AlwaysSpared(c, past, r.sessionId)
    ensures var freshest := Freshest(past, r.sessionId);
            var since := SinceWith(r, freshest, BusySince(past, r.sessionId), now);
            PolicyCall(c, WatchAfter(c, past), r, now) ==
            Call(Enrich(c.policy.probes,
                        Evidence(r.sessionId, r.busy, MaxReal(freshest, r.activityTs), r.latestMessageTs,
                                 if since.Some? then since.value else 0.0, now, r.paused)),
                 !r.busy || r.activityTs > freshest)
  {
    var w := WatchAfter(c, past);
    BookkeepingIsHistory(c, past, r.sessionId);
    assert KeepsHistory(w, past, r.sessionId);
    ObserveOwn(w, r, now);
    hide WatchAfter, Freshest, BusySince, LastTextLoops, SinceWith;
    assert Observe(w, r, now).1 == (r.activityTs > Get(w.lastActivity, r.sessionId));
    hide Observe;
  }

  /**
   A session a scan has just forgotten fires again: without any recovery, its next hit is
   acted on although the rule, which remembers a worse one, asks for nothing.
   */
  lemma ForgottenFiresAgain(c: Config, past: seq<Heard>, h: Heard)
    requires past != [] && Judged(past, h)
    requires var call := PolicyCall(c, WatchAfter(c, past), h.report, h.now);
             && Forgets(Answered(c, WatchAfter(c, past[..|past| - 1]), past[|past| - 1]), past[|past| - 1].now,
                        call.ev.sessionId)
             && !call.recovered
             && 0 <= Sev(c.policy, call) <= WorstSinceRecovery(c.policy, CallsMade(c, past), call.ev.sessionId)
    ensures HistoryRule(c.policy, CallsMade(c, past), PolicyCall(c, WatchAfter(c, past), h.report, h.now)) == None
    ensures AnswerTo(c, WatchAfter(c, past), h.src, h.report, h.now).1 != []
  {
    var v, last := WatchAfter(c, past[..|past| - 1]), past[|past| - 1];
    var w := WatchAfter(c, past);
    var call := PolicyCall(c, w, h.report, h.now);
    LoopingIsHistory(c, past, h.report.sessionId);
    UnpausedAnswer(c, w, h.src, h.report, h.now);
    HeedIsPrunedAnswer(c, v, last);
    PruneEntry(Answered(c, v, last), last.now, call.ev.sessionId);
    hide AnswerTo, PolicyCall, Heed, Prune, Answered, CallsMade, Severity, WorstSinceRecovery, Forgets;
  }

  // ---- the input that fails ---------------------------------------------

  function Name(i: nat): SessionId {
    seq(i + 1, _ => 'a')
  }

  function Busy(sid: SessionId, ts: real): Heard {
    Told("w", Report(sid, true, ts, 0.0, None, false), ts, [])
  }

  /** `n` sessions, each reporting once, busy and active at time 1. */
  function Crowd(n: nat): seq<Heard> {
    if n == 0 then [] else Crowd(n - 1) + [Busy(Name(n - 1), 1.0)]
  }

  ghost predicate Crowded(m: map<SessionId, real>, n: nat) {
    && |m| == n
    && (forall s :: s in m ==> m[s] == 1.0 && 1 <= |s| <= n && s[0] == 'a')
    && (n > 0 ==> Name(0) in m)
  }

  lemma CrowdGrows(m: map<SessionId, real>, n: nat)
    requires Crowded(m, n)
    ensures Name(n) !in m && Crowded(m[Name(n) := 1.0], n + 1)
  {
    var more := m[Name(n) := 1.0];
    assert |Name(n)| == n + 1;
    assert more.Keys == m.Keys + {Name(n)} && |more| == |more.Keys| && |m| == |m.Keys|;
  }

  lemma BusyAnswer(c: Config, w: Watch, sid: SessionId, ts: real)
    requires sid !in w.lastActivity && ts > 0.0
    ensures Answered(c, w, Busy(sid, ts)).lastActivity == w.lastActivity[sid := ts]
  {
    hide DecideNext;
  }

  /** A scan in the same second forgets no member of the crowd. */
  lemma CrowdSurvives(w: Watch, n: nat)
    requires Crowded(w.lastActivity, n)
    ensures Prune(w, 1.0).lastActivity == w.lastActivity
  {
    assert (set s | s in w.lastActivity && 1.0 - w.lastActivity[s] > 3600.0) == {};
    assert w.lastActivity - {} == w.lastActivity;
  }

  lemma CrowdStep(c: Config, w: Watch, n: nat)
    requires Crowded(w.lastActivity, n)
    ensures Crowded(Heed(c, w, Busy(Name(n), 1.0)).0.lastActivity, n + 1)
  {
    hide Heed, Answered, Prune, Crowded, Name;
    CrowdGrows(w.lastActivity, n);
    BusyAnswer(c, w, Name(n), 1.0);
    CrowdSurvives(Answered(c, w, Busy(Name(n), 1.0)), n + 1);
    HeedIsPrunedAnswer(c, w, Busy(Name(n), 1.0));
  }

  lemma CrowdSnoc(n: nat)
    requires n > 0
    ensures Crowd(n) != []
    ensures Crowd(n)[..|Crowd(n)| - 1] == Crowd(n - 1) && Crowd(n)[|Crowd(n)| - 1] == Busy(Name(n - 1), 1.0)
  {
    hide Name;
  }

  lemma {:induction false} CrowdIsKnown(c: Config, n: nat)
    ensures Crowded(WatchAfter(c, Crowd(n)).lastActivity, n)
  {
    hide Heed, Crowd, Name, Busy;
    if n > 0 {
      CrowdIsKnown(c, n - 1);
      CrowdSnoc(n);
      CrowdStep(c, WatchAfter(c, Crowd(n - 1)), n - 1);
      hide Crowded;
    } else {
      NoCrowd();
    }
  }

  lemma NoCrowd()
    ensures Crowd(0) == []
  {
  }

  lemma {:induction false} FirstIsFresh(n: nat)
    requires n > 0
    ensures Freshest(Crowd(n), Name(0)) == 1.0
  {
    CrowdSnoc(n);
    if n > 1 {
      assert |Name(n - 1)| != |Name(0)|;
      FirstIsFresh(n - 1);
    } else {
      assert Crowd(0) == [];
    }
  }

  lemma LateReportForgets(c: Config, w: Watch)
    requires Crowded(w.lastActivity, 64)
    ensures var v := Answered(c, w, Busy("late", 5000.0));
            |v.lastActivity| >= 64 && Forgets(v, 5000.0, Name(0))
  {
    hide Answered;
    assert "late"[0] != 'a';
    BusyAnswer(c, w, "late", 5000.0);
    var v := Answered(c, w, Busy("late", 5000.0));
    assert v.lastActivity.Keys == w.lastActivity.Keys + {"late"};
    assert |v.lastActivity| == |v.lastActivity.Keys| && |w.lastActivity| == |w.lastActivity.Keys|;
  }

  /** With 64 sessions known, one more report an hour later makes the watchdog forget the first. */
  lemma CrowdIsForgotten(c: Config)
    ensures var past := Crowd(64) + [Busy("late", 5000.0)];
            !AlwaysSpared(c, past, Name(0)) && !KeepsHistory(WatchAfter(c, past), past, Name(0))
  {
    hide Crowd, Heed, Answered, Name, Prune, Forgets, BusySince, LastTextLoops;
    var front, h := Crowd(64), Busy("late", 5000.0);
    var past := front + [h];
    var w := WatchAfter(c, front);
    assert past[..|past| - 1] == front;
    CrowdIsKnown(c, 64);
    FirstIsFresh(64);
    LateIsOther();
    LateReportForgets(c, w);
    HeedIsPrunedAnswer(c, w, h);
    PruneEntry(Answered(c, w, h), 5000.0, Name(0));
    assert Freshest(past, Name(0)) == 1.0;
  }

  lemma LateIsOther()
    ensures Name(0) != "late"
  {
    assert |"late"| == 4 && |Name(0)| == 1;
  }

  // ---- and the rung that fires twice ------------------------------------

  /** One rule that fires on every busy report. */
  const EAGER := RawPolicy([Rule("eager", NoActivityFor(0.0), "kill", false)], [], ["kill"])

  function Silent(sid: SessionId, ts: real, now: real): Heard {
    Told("w", Report(sid, true, ts, 0.0, None, false), now, [])
  }

  lemma EagerHits(c: Config, w: Watch, sid: SessionId, ts: real, now: real)
    requires c.policy == EAGER && ts <= Get(w.lastActivity, sid)
    ensures var call := PolicyCall(c, w, Silent(sid, ts, now).report, now);
            call.ev.sessionId == sid && !call.recovered && Sev(c.policy, call) == 0
  {
    var call := PolicyCall(c, w, Silent(sid, ts, now).report, now);
    assert EAGER.rules[0] in EAGER.rules && Fires(EAGER.rules[0], call.ev);
  }

  lemma SilentAnswer(c: Config, w: Watch, sid: SessionId, ts: real, now: real)
    requires sid in w.lastActivity && ts <= w.lastActivity[sid]
    ensures Answered(c, w, Silent(sid, ts, now)).lastActivity == w.lastActivity
  {
    hide DecideNext;
  }

  /**
   A rung of the first session fires, another session's report makes the watchdog forget
   it, and the rung fires again: there was no recovery, and the rule asks for nothing.
   */
  lemma RungFiresTwice(c: Config)
    requires c.policy == EAGER
    ensures var before := Crowd(64);
            var past := before + [Silent(Name(0), 1.0, 1.0)] + [Busy("late", 5000.0)];
            var again := Silent(Name(0), 0.0, 5000.0);
            var call := PolicyCall(c, WatchAfter(c, past), again.report, 5000.0);
            && AnswerTo(c, WatchAfter(c, before), "w", Silent(Name(0), 1.0, 1.0).report, 1.0).1 != []
            && AnswerTo(c, WatchAfter(c, past), "w", again.report, 5000.0).1 != []
            && HistoryRule(c.policy, CallsMade(c, past), call) == None && !call.recovered
  {
    hide Crowd, Name, Heed, Answered, WorstSinceRecovery, Prune, PolicyCall, Sev, AnswerTo, HistoryRule, DecideLadder;
    var before, first, late := Crowd(64), Silent(Name(0), 1.0, 1.0), Busy("late", 5000.0);
    var w := WatchAfter(c, before);
    CrowdIsKnown(c, 64);
    FirstRungFires(c);
    var mid := before + [first];
    assert mid[..|mid| - 1] == before;
    SilentAnswer(c, w, Name(0), 1.0, 1.0);
    CrowdSurvives(Answered(c, w, first), 64);
    HeedIsPrunedAnswer(c, w, first);
    var past := mid + [late];
    assert past[..|past| - 1] == mid;
    LateReportForgets(c, WatchAfter(c, mid));
    HeedIsPrunedAnswer(c, WatchAfter(c, mid), late);
    PruneEntry(Answered(c, WatchAfter(c, mid), late), 5000.0, Name(0));
    EagerHits(c, WatchAfter(c, past), Name(0), 0.0, 5000.0);
    LateKeepsWorst(c, mid);
    ForgottenFiresAgain(c, past, Silent(Name(0), 0.0, 5000.0));
  }

  lemma CallsSnoc(c: Config, past: seq<Heard>, h: Heard)
    requires Judged(past, h)
    ensures CallsMade(c, past + [h]) == CallsMade(c, past) + [PolicyCall(c, WatchAfter(c, past), h.report, h.now)]
  {
    hide PolicyCall;
    assert (past + [h])[..|past|] == past;
  }

  lemma WorstSnoc(p: Policy, calls: seq<Call>, call: Call, sid: SessionId)
    ensures WorstSinceRecovery(p, calls + [call], sid) ==
            if call.ev.sessionId != sid then WorstSinceRecovery(p, calls, sid)
            else if call.recovered then -1
            else MaxInt(WorstSinceRecovery(p, calls, sid), Sev(p, call))
  {
    assert (calls + [call])[..|calls|] == calls;
  }

  lemma FreshCall(c: Config, w: Watch, sid: SessionId)
    requires c.policy == EAGER && sid !in w.lastActivity
    ensures var call := PolicyCall(c, w, Busy(sid, 1.0).report, 1.0); call.ev.sessionId == sid && call.recovered
  {
  }

  /** The crowd's first session is recovered when it joins. */
  lemma {:induction false} CrowdIsQuiet(c: Config, n: nat)
    requires c.policy == EAGER
    ensures WorstSinceRecovery(c.policy, CallsMade(c, Crowd(n)), Name(0)) == -1
  {
    hide Name, Heed, WorstSinceRecovery, PolicyCall, Judged, Crowd, CallsMade, WatchAfter, Busy;
    if n == 0 {
      NoCrowd();
      NoCalls(c);
    } else {
      CrowdIsQuiet(c, n - 1);
      CrowdSnoc(n);
      SplitLast(Crowd(n));
      MemberIsQuiet(c, n - 1);
    }
  }

  /** One more member makes a recovered call for itself. */
  lemma MemberIsQuiet(c: Config, n: nat)
    requires c.policy == EAGER && WorstSinceRecovery(c.policy, CallsMade(c, Crowd(n)), Name(0)) == -1
    ensures WorstSinceRecovery(c.policy, CallsMade(c, Crowd(n) + [Busy(Name(n), 1.0)]), Name(0)) == -1
  {
    hide Name, Heed, WorstSinceRecovery, PolicyCall, Judged, Crowd, CallsMade, WatchAfter, Crowded;
    var w, h := WatchAfter(c, Crowd(n)), Busy(Name(n), 1.0);
    CrowdIsKnown(c, n);
    CrowdGrows(w.lastActivity, n);
    CrowdJudged(Crowd(n), Name(n));
    CallsSnoc(c, Crowd(n), h);
    WorstSnoc(c.policy, CallsMade(c, Crowd(n)), PolicyCall(c, w, h.report, 1.0), Name(0));
    FreshCall(c, w, Name(n));
    NamesDiffer(n);
  }

  /** No scan takes anything from it. */
  lemma {:induction false} CrowdIsSpared(c: Config, n: nat)
    ensures LadderAlwaysSpared(c, Crowd(n), Name(0))
  {
    hide Name, Heed, Crowd, CallsMade, WorstSinceRecovery, WatchAfter, Answered, Forgets, Busy, Crowded;
    if n == 0 {
      NoCrowd();
    } else {
      CrowdIsSpared(c, n - 1);
      CrowdSnoc(n);
      MemberIsSpared(c, WatchAfter(c, Crowd(n - 1)), n - 1);
    }
  }

  lemma MemberIsSpared(c: Config, w: Watch, n: nat)
    requires w == WatchAfter(c, Crowd(n))
    ensures Busy(Name(n), 1.0).now == 1.0 && !Forgets(Answered(c, w, Busy(Name(n), 1.0)), 1.0, Name(0))
  {
    hide Name, Crowd, WatchAfter, Answered;
    CrowdIsKnown(c, n);
    CrowdGrows(w.lastActivity, n);
    BusyAnswer(c, w, Name(n), 1.0);
  }

  lemma NoCalls(c: Config)
    ensures WorstSinceRecovery(c.policy, CallsMade(c, []), Name(0)) == -1
  {
  }

  lemma CrowdJudged(past: seq<Heard>, sid: SessionId)
    ensures Judged(past, Busy(sid, 1.0)) && Judged(past, Silent(sid, 1.0, 1.0)) && Judged(past, Busy(sid, 5000.0))
  {
  }

  lemma NamesDiffer(i: nat)
    ensures i > 0 ==> Name(i) != Name(0)
  {
    assert |Name(i)| == i + 1 && |Name(0)| == 1;
  }

  lemma FirstRungFires(c: Config)
    requires c.policy == EAGER
    ensures var first := Silent(Name(0), 1.0, 1.0);
            && WorstSinceRecovery(c.policy, CallsMade(c, Crowd(64) + [first]), Name(0)) >= 0
            && AnswerTo(c, WatchAfter(c, Crowd(64)), "w", first.report, 1.0).1 != []
  {
    hide Name, Heed, WorstSinceRecovery, PolicyCall, Judged, Crowd, Sev, AnswerTo, CallsMade, LadderAlwaysSpared, Severity;
    var w, first := WatchAfter(c, Crowd(64)), Silent(Name(0), 1.0, 1.0);
    CrowdIsKnown(c, 64);
    EagerHits(c, w, Name(0), 1.0, 1.0);
    CrowdIsQuiet(c, 64);
    CrowdIsSpared(c, 64);
    CrowdJudged(Crowd(64), Name(0));
    EmissionIsHistoryRule(c, Crowd(64), first);
    CallsSnoc(c, Crowd(64), first);
    WorstSnoc(c.policy, CallsMade(c, Crowd(64)), PolicyCall(c, w, first.report, 1.0), Name(0));
  }

  lemma LateKeepsWorst(c: Config, mid: seq<Heard>)
    requires c.policy.probes == []
    ensures WorstSinceRecovery(c.policy, CallsMade(c, mid + [Busy("late", 5000.0)]), Name(0)) ==
            WorstSinceRecovery(c.policy, CallsMade(c, mid), Name(0))
  {
    var late := Busy("late", 5000.0);
    var past := mid + [late];
    assert past[..|past| - 1] == mid;
    var calls, call := CallsMade(c, mid), PolicyCall(c, WatchAfter(c, mid), late.report, 5000.0);
    assert (calls + [call])[..|calls|] == calls;
    LateIsOther();
    hide WatchAfter, Observe;
  }
}
