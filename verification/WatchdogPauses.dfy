/**
 Paused sessions and the signals of the ladder: when a paused session is resumed, as a
 function of what was reported, and which signal each action becomes.
 */
module WatchdogPauses {
  import opened Common
  import opened WatchdogPolicies
  import opened WatchdogUnits
  import opened WatchdogHistory

  // ---- signals ----------------------------------------------------------

  /** One signal per emission, to the sender of the report or, if it has no name, to the configured destination. */
  lemma EmissionMeans(c: Config, src: UnitId, r: Report, e: Option<Emission>)
    ensures var outs := Emitted(c, src, r, e);
            if e.None? then outs == []
            else
              && |outs| == 1 && outs[0].cause == FromReport(src, r)
              && outs[0].dst == (if src == "" then c.controlDst else src)
              && match outs[0].kind
                 case EscalateSignal => e.value.gated || e.value.action == "fallback"
                 case NudgeSignal => !e.value.gated && e.value.action == "nudge"
                 case PauseSignal => !e.value.gated && e.value.action == "interrupt"
                 case ResumeSignal => !e.value.gated && e.value.action == "resume"
                 case StopSignal => !e.value.gated && e.value.action !in {"nudge", "interrupt", "resume", "fallback"}
  {
  }

  // ---- how long a session is paused --------------------------------------

  /** Since when the session is reported paused without having been resumed, if it is. */
  function PausedSince(c: Config, past: seq<Heard>, sid: SessionId): Option<real> {
    if past == [] then None
    else
      var front, h := past[..|past| - 1], past[|past| - 1];
      if !Counts(front, h, sid) then PausedSince(c, front, sid)
      else if !h.report.paused || WaitedEnough(c, PausedSince(c, front, sid), h.now) then None
      else if PausedSince(c, front, sid).Some? then PausedSince(c, front, sid)
      else Some(h.now)
  }

  /** A pause that began at `since`, or else now, has lasted the configured time. */
  predicate WaitedEnough(c: Config, since: Option<real>, now: real) {
    if since.Some? then now >= since.value + c.autoResumeSec else c.autoResumeSec <= 0.0
  }

  /** What a report does to its session's pause. */
  function PauseWith(c: Config, r: Report, since: Option<real>, now: real): Option<real> {
    if !r.paused || WaitedEnough(c, since, now) then None else if since.Some? then since else Some(now)
  }

  lemma ObserveKeepsPauses(w: Watch, r: Report, now: real)
    ensures Observe(w, r, now).0.pauseSince == w.pauseSince
  {
  }

  lemma AnswerPauses(c: Config, w: Watch, src: UnitId, r: Report, now: real, sid: SessionId)
    ensures SinceOf(AnswerTo(c, w, src, r, now).0.pauseSince, sid) ==
            if sid != r.sessionId || (r.loops == Some(true) && sid !in w.deadLoopFired) then SinceOf(w.pauseSince, sid)
            else PauseWith(c, r, SinceOf(w.pauseSince, sid), now)
  {
    hide Observe, DecideNext, EvidenceOf;
    ObserveKeepsPauses(w.(deadLoopFired := w.deadLoopFired - {r.sessionId}), r, now);
    ObserveKeepsPauses(w, r, now);
  }

  lemma PrunePauses(w: Watch, now: real, sid: SessionId)
    requires !Forgets(w, now, sid)
    ensures SinceOf(Prune(w, now).pauseSince, sid) == SinceOf(w.pauseSince, sid)
  {
  }

  lemma SparedFront(c: Config, past: seq<Heard>, sid: SessionId)
    requires past != [] && AlwaysSpared(c, past, sid)
    ensures var front, h := past[..|past| - 1], past[|past| - 1];
            AlwaysSpared(c, front, sid) && !Forgets(Answered(c, WatchAfter(c, front), h), h.now, sid)
  {
    var front, h := past[..|past| - 1], past[|past| - 1];
    BookkeepingIsHistory(c, front, sid);
    SplitLast(past);
    hide KeepsHistory, Answered, Forgets, Spared, WatchAfter;
    AnswerKeepsHistory(c, WatchAfter(c, front), front, h, sid);
    SparedUnlessForgotten(c, past, sid);
  }

  /** For a session every scan spared, the table of pauses is that function of the reports. */
  lemma {:induction false} PausesAreHistory(c: Config, past: seq<Heard>, sid: SessionId)
    requires AlwaysSpared(c, past, sid)
    ensures SinceOf(WatchAfter(c, past).pauseSince, sid) == PausedSince(c, past, sid)
  {
    if past != [] {
      var front, h := past[..|past| - 1], past[|past| - 1];
      var w := WatchAfter(c, front);
      SparedFront(c, past, sid);
      PausesAreHistory(c, front, sid);
      LoopingIsHistory(c, front, sid);
      HeedIsPrunedAnswer(c, w, h);
      PrunePauses(Answered(c, w, h), h.now, sid);
      if h.Told? { AnswerPauses(c, w, h.src, h.report, h.now, sid); }
      hide AnswerTo, Heed, Prune, Forgets, AlwaysSpared, WaitedEnough, LastTextLoops;
    }
  }

  /**
   A paused report of a session every scan spared is answered by a resume exactly when
   the session has been paused for the configured time since the first such report; by a
   stop if it starts a stretch of looping texts; and by nothing otherwise.
   */
  lemma ResumedAfterWait(c: Config, past: seq<Heard>, h: Heard)
    requires h.Told? && h.report.paused && AlwaysSpared(c, past, h.report.sessionId)
    ensures AnswerTo(c, WatchAfter(c, past), h.src, h.report, h.now).1 ==
            if StopsLoop(past, h.report) then [Out(Target(c, h.src), StopSignal, FromReport(h.src, h.report))]
            else if WaitedEnough(c, PausedSince(c, past, h.report.sessionId), h.now)
            then [Out(Target(c, h.src), ResumeSignal, FromReport(h.src, h.report))]
            else []
  {
    var w, r, sid := WatchAfter(c, past), h.report, h.report.sessionId;
    PausesAreHistory(c, past, sid);
    LoopingIsHistory(c, past, sid);
    ObserveKeepsPauses(w.(deadLoopFired := w.deadLoopFired - {sid}), r, h.now);
    ObserveKeepsPauses(w, r, h.now);
    hide Observe, WatchAfter, PausedSince, AlwaysSpared, LastTextLoops;
  }

  /** A stretch of paused reports: none before the time is up resumes it, the first one then does. */
  lemma {:induction false} PauseGoesOn(c: Config, past: seq<Heard>, more: seq<Heard>, sid: SessionId, t: real)
    requires PausedSince(c, past, sid) == Some(t)
    requires forall m :: m in more && m.Told? && m.report.sessionId == sid ==>
               m.report.paused && m.now < t + c.autoResumeSec
    ensures PausedSince(c, past + more, sid) == Some(t)
    decreases |more|
  {
    if more == [] {
      assert past + more == past;
    } else {
      PauseGoesOn(c, past, more[..|more| - 1], sid, t);
      assert (past + more)[..|past + more| - 1] == past + more[..|more| - 1];
      assert (past + more)[|past + more| - 1] == more[|more| - 1];
    }
  }
}
