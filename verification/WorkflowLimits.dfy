/**
 The limits of a run: how many rejected replies a judge wait survives, how often a node is
 sent back for rework, and which events end a run with which outcome.
 */
module WorkflowLimits {
  import opened Common
  import opened StateMachine
  import opened Contract
  import opened Workflow
  import opened WorkflowRuns
  import B = Branching
  import Conditions
  import Handoff

  // ---- rejected replies ---------------------------------------------------

  /** A reply, new against the last one, that the gate rejects, with the calls of its event succeeding. */
  ghost predicate RejectedReply(node: NodeId, valid: set<NodeId>, failed: bool, last: Option<string>, e: Event) {
    && e.Poll? && !e.seen.deadlinePassed && e.calls.promptOk && e.calls.dispatchOk
    && e.seen.judge.JudgeReplied? && last != Some(e.seen.judge.key)
    && ParseReply(e.seen.judge.reply, node, valid, failed) == Rejected
  }

  ghost predicate OnlyRejected(node: NodeId, valid: set<NodeId>, failed: bool, last: Option<string>, events: seq<Event>)
    decreases |events|
  {
    events == [] ||
    (RejectedReply(node, valid, failed, last, events[0])
     && OnlyRejected(node, valid, failed, Some(events[0].seen.judge.key), events[1..]))
  }

  lemma RejectedStep(c: Config, u: Unit, e: Event)
    requires CanStep(c, u) && u.state == Running && u.phase == JudgeWait && !u.paused && !u.raised
    requires RejectedReply(u.node, u.validTargets, u.verifyFailed, u.lastJudged, e)
    ensures var v := u.(lastJudged := Some(e.seen.judge.key), judgeAttempts := u.judgeAttempts + 1);
            Apply(c, u, e) == if u.judgeAttempts < c.settings.maxReviewerRetries then v else Finish(v, Failed, Error)
  {
    hide ParseReply;
  }

  /** A judge wait survives as many rejected replies as are left to it, and the next one fails the run. */
  lemma {:induction false} RetriesAreExact(c: Config, u: Unit, events: seq<Event>)
    requires ValidConfig(c) && Inv(c, u) && u.state == Running && u.phase == JudgeWait && !u.paused
    requires OnlyRejected(u.node, u.validTargets, u.verifyFailed, u.lastJudged, events)
    requires |events| <= c.settings.maxReviewerRetries - u.judgeAttempts + 1
    ensures var v := Run(c, u, events);
            if |events| <= c.settings.maxReviewerRetries - u.judgeAttempts
            then v.state == Running && v.phase == JudgeWait && v.judgeAttempts == u.judgeAttempts + |events|
            else v.state == Failed && v.result == Some(RunResult(Error, u.node))
    decreases |events|
  {
    hide Audited, LastEntered, CountEntered, VerifyStanding, AskedHuman, Apply, ValidConfig, RejectedReply;
    if events != [] {
      ApplyKeeps(c, u, events[0]);
      RejectedStep(c, u, events[0]);
      if u.judgeAttempts < c.settings.maxReviewerRetries {
        RetriesAreExact(c, Apply(c, u, events[0]), events[1..]);
      } else {
        assert events[1..] == [];
      }
    }
  }

  // ---- rework ------------------------------------------------------------

  /** How often the developer was sent back since the node was entered. */
  ghost function Reworks(l: Ledger): nat {
    match l
    case NothingYet => 0
    case Then(_, NodeEnter(_)) => 0
    case Then(before, ReviewerInquiry(_)) => Reworks(before) + 1
    case Then(before, HumanRework(_)) => Reworks(before) + 1
    case Then(before, _) => Reworks(before)
  }

  ghost predicate Counted(u: Unit) {
    u.state == Running ==> u.dialogueRounds == Reworks(u.ledger)
  }

  /** If the run has ended, it completed, failed or was blocked. */
  ghost predicate Plain(u: Unit) {
    u.state != Running ==> u.result.Some? && u.result.value.outcome in {Complete, Error, Blocked}
  }

  lemma EnterJudgeCounts(c: Config, u: Unit, id: NodeId, w: Foreign)
    requires id in c.flow.nodes && Counted(u)
    ensures Counted(EnterJudge(c, u, id, w)) && (Plain(u) ==> Plain(EnterJudge(c, u, id, w)))
  {
  }

  lemma {:induction false} EnterNodeCounts(c: Config, u: Unit, id: NodeId, w: Foreign)
    requires id in c.flow.nodes
    ensures Counted(EnterNode(c, u, id, w)) && (Plain(u) ==> Plain(EnterNode(c, u, id, w)))
    decreases NodesLeft(c, u), 0
  {
    hide EnterJudge, EnterDeterministic;
    var here := Arrive(u, id);
    if here.nodeCount <= c.settings.maxTotalNodes {
      match c.flow.nodes[id].kind {
        case Agent =>
        case Judge => EnterJudgeCounts(c, here, id, w);
        case _ => DeterministicCounts(c, here, w);
      }
    }
  }

  lemma {:induction false} DeterministicCounts(c: Config, u: Unit, w: Foreign)
    requires u.node in c.flow.nodes && Counted(u)
    ensures Counted(EnterDeterministic(c, u, w)) && (Plain(u) ==> Plain(EnterDeterministic(c, u, w)))
    decreases NodesLeft(c, u), 2
  {
    hide Decide, Advance;
    DecideFrames(c, u);
    match Decide(c, u) {
      case Ended(v) =>
      case Onward(v, target) => AdvanceCounts(c, v, target, w);
    }
  }

  lemma {:induction false} AdvanceCounts(c: Config, u: Unit, target: Option<NodeId>, w: Foreign)
    requires u.node in c.flow.nodes && Counted(u)
    ensures Counted(Advance(c, u, target, w)) && (Plain(u) ==> Plain(Advance(c, u, target, w)))
    decreases NodesLeft(c, u), 1
  {
    hide EnterNode;
    var onto := if target.Some? then target else c.flow.nodes[u.node].next;
    if onto.Some? && onto.value in c.flow.nodes {
      EnterNodeCounts(c, Log(u, Transition(u.node, onto.value)).(phase := NoPhase), onto.value, w);
    }
  }

  lemma ReworkCounts(c: Config, u: Unit, text: string, entry: Entry, w: Foreign)
    requires Counted(u) && (entry.ReviewerInquiry? || entry.HumanRework?)
    ensures Counted(Rework(c, u, text, entry, w)) && (Plain(u) ==> Plain(Rework(c, u, text, entry, w)))
  {
    hide ReworkRound;
    var asked := u.(dialogueRounds := u.dialogueRounds + 1);
    RoundCounts(c, NoteRound(asked, text, entry), w);
  }

  lemma RoundCounts(c: Config, u: Unit, w: Foreign)
    requires Counted(u)
    ensures Counted(ReworkRound(c, u, w)) && (Plain(u) ==> Plain(ReworkRound(c, u, w))) && ReworkRound(c, u, w).ledger == u.ledger
  {
    hide Handoff.DetectLoop;
  }

  lemma AgentCounts(c: Config, u: Unit, seen: AgentView, w: Foreign)
    requires CanStep(c, u) && Counted(u)
    ensures Counted(StepAgent(c, u, seen, w)) && (Plain(u) ==> Plain(StepAgent(c, u, seen, w)))
  {
    hide Advance, EnterJudge;
    if seen.AgentDone? {
      var done := Log(u, NodeDone(u.node)).(report := seen.report);
      var told := if seen.report.Some? then done.(env := done.env.(report := seen.report.value)) else done;
      if told.rejudge.Some? {
        EnterJudgeCounts(c, told.(rejudge := None), told.rejudge.value, w);
      } else {
        AdvanceCounts(c, told, None, w);
      }
    }
  }

  lemma VerdictCounts(c: Config, u: Unit, v: Verdict, w: Foreign)
    requires u.node in c.flow.nodes && Counted(u)
    ensures Counted(HandleVerdict(c, u, v, w))
  {
    hide Advance, Rework;
    var heard := Log(u, ReviewerVerdict(v));
    if v.action == AdvanceNode {
      AdvanceCounts(c, Log(heard, AdvanceTo(v.nextState)).(phase := NoPhase), v.nextState, w);
    }
    ReworkCounts(c, heard, if v.messageToDeveloper.Some? then v.messageToDeveloper.value else "",
                 ReviewerInquiry(heard.node), w);
  }

  lemma JudgeCounts(c: Config, u: Unit, seen: JudgeView, w: Foreign)
    requires CanStep(c, u) && Counted(u)
    ensures Counted(StepJudge(c, u, seen, w))
  {
    hide HandleVerdict, ParseReply;
    if seen.JudgeReplied? && ParseReply(seen.reply, u.node, u.validTargets, u.verifyFailed).Accepted? {
      VerdictCounts(c, u.(lastJudged := Some(seen.key)),
                    ParseReply(seen.reply, u.node, u.validTargets, u.verifyFailed).verdict, w);
    }
  }

  lemma HumanCounts(c: Config, u: Unit, seen: HumanView, w: Foreign)
    requires CanStep(c, u) && Counted(u)
    ensures Counted(StepHuman(c, u, seen, w)) && (Plain(u) ==> Plain(StepHuman(c, u, seen, w)))
  {
    hide Advance, Rework, B.Lower;
    match seen {
      case TimedOut =>
        var woken := Log(u, HumanTimeout(u.node)).(phase := NoPhase);
        AdvanceCounts(c, woken, None, w);
        ReworkCounts(c, woken, "human confirmation timed out", HumanRework(u.node), w);
      case Decided(answer, comment) =>
        var said := B.Lower(answer);
        var woken := Log(u, HumanDecision(u.node, said in YES_WORDS)).(phase := NoPhase);
        AdvanceCounts(c, woken, None, w);
        ReworkCounts(c, woken, if comment != "" then comment else "human answered '" + said + "'",
                     HumanRework(u.node), w);
      case _ =>
    }
  }

  lemma ApplyCounts(c: Config, u: Unit, e: Event)
    requires (u.state == Running ==> CanStep(c, u)) && Counted(u)
    ensures Counted(Apply(c, u, e))
  {
    hide StepAgent, StepJudge, StepHuman, CanStep, Reworks;
    if e.Poll? && u.state == Running && !u.paused {
      assert CanStep(c, u);
      AgentCounts(c, u, e.seen.agent, e.calls);
      JudgeCounts(c, u, e.seen.judge, e.calls);
      HumanCounts(c, u, e.seen.human, e.calls);
    }
  }

  /** While a run goes on, its round counter is the number of reworks the ledger shows since the node was entered. */
  lemma {:induction false} RoundsAreReworks(c: Config, context: string, start: Foreign, events: seq<Event>)
    requires ValidConfig(c)
    ensures var u := RunOf(c, context, start, events);
            u.state == Running ==> u.dialogueRounds == Reworks(u.ledger) <= c.settings.maxDialogueRounds
    decreases |events|
  {
    hide Audited, LastEntered, CountEntered, VerifyStanding, AskedHuman, RunOf, Apply, Reworks, ValidConfig, CanStep;
    if events == [] {
      BeginCounts(c, context, start);
    } else {
      var front, e := events[..|events| - 1], events[|events| - 1];
      RoundsAreReworks(c, context, start, front);
      RunSnoc(c, context, start, front, e);
      assert front + [e] == events;
      ApplyCounts(c, RunOf(c, context, start, front), e);
    }
  }

  lemma BeginCounts(c: Config, context: string, w: Foreign)
    requires ValidConfig(c)
    ensures Counted(RunOf(c, context, w, []))
  {
    hide EnterNode, HasSpine, Inv, Reworks;
    StartOf(c);
    BeginKeeps(c, context, w);
    if HasSpine(c.flow) {
      EnterNodeCounts(c, FRESH_UNIT.(env := RunEnv(context, "", true, ""), node := c.flow.start, state := Running), c.flow.start, w);
    }
  }

  /** Sending the developer back fails for want of rounds exactly when the ledger shows as many reworks as allowed. */
  lemma ReworkUsedUpIff(c: Config, u: Unit, text: string, entry: Entry, w: Foreign)
    requires u.state == Running && Counted(u) && u.dialogueRounds <= c.settings.maxDialogueRounds
    requires entry.ReviewerInquiry? || entry.HumanRework?
    ensures var v := Rework(c, u, text, entry, w);
            if Reworks(u.ledger) == c.settings.maxDialogueRounds
            then v.ledger == u.ledger && v.state == Failed && v.result == Some(RunResult(Error, u.node))
            else v.ledger == Then(u.ledger, entry) && Reworks(v.ledger) == Reworks(u.ledger) + 1
  {
    hide ReworkRound;
    var asked := u.(dialogueRounds := u.dialogueRounds + 1);
    RoundCounts(c, NoteRound(asked, text, entry), w);
  }

  // ---- outcomes ------------------------------------------------------------

  /** The event is a new reply of the reviewer that the gate accepts, and it asks for this action. */
  ghost predicate Replies(u: Unit, e: Event, a: Action) {
    && e.Poll? && !u.paused && u.phase == JudgeWait && !e.seen.deadlinePassed
    && e.seen.judge.JudgeReplied? && u.lastJudged != Some(e.seen.judge.key)
    && var judged := ParseReply(e.seen.judge.reply, u.node, u.validTargets, u.verifyFailed);
       judged.Accepted? && judged.verdict.action == a
  }

  /** The deadline of an agent or judge wait has passed, and the session does not work any more. */
  ghost predicate RunsOut(u: Unit, e: Event) {
    e.Poll? && !u.paused && u.phase in {AgentWait, JudgeWait} && e.seen.deadlinePassed && !e.seen.stillBusy
  }

  /** How an ended run ended: each of the three outcomes has one cause. */
  ghost predicate EndsBy(u: Unit, e: Event, v: Unit) {
    v.state != Running ==>
      && v.result.Some?
      && (v.result.value.outcome == Timeout <==> RunsOut(u, e))
      && (v.result.value.outcome == AbortedByReviewer <==> Replies(u, e, AbortSession))
      && (v.result.value.outcome == HumanNeeded <==> Replies(u, e, ReportUser))
  }

  lemma VerdictEnds(c: Config, u: Unit, v: Verdict, w: Foreign)
    requires u.node in c.flow.nodes && u.state == Running && Counted(u) && v.action !in {AbortSession, ReportUser}
    ensures Plain(HandleVerdict(c, u, v, w))
  {
    hide Advance, Rework;
    var heard := Log(u, ReviewerVerdict(v));
    if v.action == AdvanceNode {
      AdvanceCounts(c, Log(heard, AdvanceTo(v.nextState)).(phase := NoPhase), v.nextState, w);
    }
    ReworkCounts(c, heard, if v.messageToDeveloper.Some? then v.messageToDeveloper.value else "",
                 ReviewerInquiry(heard.node), w);
  }

  lemma NoticedCounted(u: Unit, key: Option<string>)
    requires Counted(u)
    ensures Counted(u.(lastJudged := key))
  {
  }

  lemma VerdictEndsRun(c: Config, u: Unit, v: Verdict, w: Foreign)
    requires u.node in c.flow.nodes && v.action in {AbortSession, ReportUser}
    ensures var r := HandleVerdict(c, u, v, w);
            && r.state != Running && r.raised == u.raised && r.result.Some?
            && r.result.value.outcome == if v.action == AbortSession then AbortedByReviewer else HumanNeeded
  {
    hide Advance, Rework;
  }

  lemma ReplyEnds(c: Config, u: Unit, seen: JudgeView, w: Foreign)
    requires CanStep(c, u) && u.state == Running && Counted(u) && !u.raised
    ensures var v := StepJudge(c, u, seen, w);
            var judged := if seen.JudgeReplied? && u.lastJudged != Some(seen.key)
                          then ParseReply(seen.reply, u.node, u.validTargets, u.verifyFailed) else Rejected;
            if judged.Accepted? && judged.verdict.action == AbortSession
            then v.state != Running && !v.raised && v.result.Some? && v.result.value.outcome == AbortedByReviewer
            else if judged.Accepted? && judged.verdict.action == ReportUser
            then v.state != Running && !v.raised && v.result.Some? && v.result.value.outcome == HumanNeeded
            else Plain(v)
  {
    hide ParseReply, HandleVerdict, Counted;
    if seen.JudgeReplied? && u.lastJudged != Some(seen.key) {
      var judged := ParseReply(seen.reply, u.node, u.validTargets, u.verifyFailed);
      if judged.Accepted? {
        var noticed := u.(lastJudged := Some(seen.key));
        NoticedCounted(u, Some(seen.key));
        if judged.verdict.action in {AbortSession, ReportUser} {
          VerdictEndsRun(c, noticed, judged.verdict, w);
        } else {
          VerdictEnds(c, noticed, judged.verdict, w);
        }
      }
    }
  }

  lemma PollEnds(c: Config, u: Unit, e: Event)
    requires CanStep(c, u) && u.state == Running && Counted(u) && e.Poll? && !u.paused && !u.raised
    ensures EndsBy(u, e, Caught(Step(c, u, e.seen, e.calls)))
  {
    hide StepAgent, StepJudge, StepHuman, ParseReply, Counted;
    AgentCounts(c, u, e.seen.agent, e.calls);
    HumanCounts(c, u, e.seen.human, e.calls);
    ReplyEnds(c, u, e.seen.judge, e.calls);
  }

  /**
   What ends a run: TIMEOUT is the deadline of a wait whose session stopped working,
   ABORTED an accepted abort, HUMAN an accepted report to the user, and nothing else is.
   */
  lemma OutcomesHaveOneCause(c: Config, context: string, start: Foreign, events: seq<Event>, e: Event)
    requires ValidConfig(c) && RunOf(c, context, start, events).state == Running
    ensures EndsBy(RunOf(c, context, start, events), e, RunOf(c, context, start, events + [e]))
    ensures var u := RunOf(c, context, start, events);
            RunsOut(u, e) || Replies(u, e, AbortSession) || Replies(u, e, ReportUser) ==>
              RunOf(c, context, start, events + [e]).state != Running
  {
    hide RunOf, Audited, Valid, Step, VerifyStanding, AskedHuman, Counted, LastEntered, CountEntered, ParseReply;
    var u := RunOf(c, context, start, events);
    RunIsCounted(c, context, start, events);
    RunSnoc(c, context, start, events, e);
    if e.Poll? && !u.paused {
      PollEnds(c, u, e);
      if RunsOut(u, e) || Replies(u, e, AbortSession) || Replies(u, e, ReportUser) { EndsAtOnce(c, u, e); }
    }
  }

  lemma RunIsCounted(c: Config, context: string, start: Foreign, events: seq<Event>)
    requires ValidConfig(c)
    ensures Counted(RunOf(c, context, start, events))
  {
    hide RunOf, Reworks;
    RoundsAreReworks(c, context, start, events);
  }

  lemma EndsAtOnce(c: Config, u: Unit, e: Event)
    requires CanStep(c, u) && u.state == Running && Counted(u) && e.Poll? && !u.paused && !u.raised
    requires RunsOut(u, e) || Replies(u, e, AbortSession) || Replies(u, e, ReportUser)
    ensures Step(c, u, e.seen, e.calls).state != Running
  {
    hide StepAgent, StepJudge, StepHuman, ParseReply, Reworks;
    ReplyEnds(c, u, e.seen.judge, e.calls);
  }

  /** A session that cannot be read ends its wait in error, one that was aborted ends it blocked; so do calls that fail. */
  lemma DeadSessionsEnd(c: Config, u: Unit, w: Foreign)
    requires CanStep(c, u)
    ensures StepAgent(c, u, AgentUnreadable, w) == StepJudge(c, u, JudgeUnreadable, w) == Finish(u, Failed, Error)
    ensures StepAgent(c, u, AgentAborted, w) == StepJudge(c, u, JudgeAborted, w) == Finish(u, Aborted, Blocked)
    ensures !(w.promptOk && w.dispatchOk) ==> EnterAgent(u, w).state == Failed
    ensures !w.dispatchOk ==> Caught(SendJudgePrompt(u, w)).state == Failed
    ensures !w.promptOk ==> Caught(SendJudgePrompt(u, w)).state == Failed
  {
  }

  // ---- pausing -------------------------------------------------------------

  /** A paused unit stands still: until a resume or a stop, whatever is observed, nothing about it changes. */
  lemma {:induction false} PausedStandsStill(c: Config, u: Unit, events: seq<Event>)
    requires ValidConfig(c) && Inv(c, u) && u.paused
    requires forall e :: e in events ==> !e.Resume? && !e.Stop?
    ensures Run(c, u, events) == u
    decreases |events|
  {
    hide Inv, ValidConfig;
    if events != [] {
      assert events[0] in events;
      ApplyKeeps(c, u, events[0]);
      PausedStandsStill(c, u, events[1..]);
    }
  }
}
