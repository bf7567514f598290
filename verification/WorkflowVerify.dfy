/**
 The verify command of a judge node: what a run remembers of it is what the command
 returned when the wait began, and after a failure only a human leads on.
 */
module WorkflowVerify {
  import opened Common
  import opened StateMachine
  import opened Contract
  import opened Workflow
  import opened WorkflowRuns
  import B = Branching
  import Conditions

  // ---- one event --------------------------------------------------------

  /** A judge wait begins: its node is entered, or judged anew after rework. */
  ghost predicate Arms(u: Unit, v: Unit) {
    && v.state == Running && v.phase == JudgeWait
    && (u.state != Running || u.phase != JudgeWait || u.nodeCount != v.nodeCount)
  }

  /** If `v` waits for its judge, the verify flag is what the command run by the calls `w` returned. */
  ghost predicate Flagged(c: Config, v: Unit, w: Foreign) {
    v.state == Running && v.phase == JudgeWait ==>
      && v.node in c.flow.nodes
      && v.verifyFailed == (c.flow.nodes[v.node].verify && c.settings.verifyEnabled && w.verifyFails)
  }

  lemma EnterJudgeFlags(c: Config, u: Unit, id: NodeId, w: Foreign)
    requires id in c.flow.nodes && u.node == id
    ensures var v := EnterJudge(c, u, id, w); Flagged(c, v, w) && v.nodeCount == u.nodeCount
  {
  }

  lemma {:induction false} EnterNodeFlags(c: Config, u: Unit, id: NodeId, w: Foreign)
    requires id in c.flow.nodes && u.phase == NoPhase
    ensures var v := EnterNode(c, u, id, w);
            Flagged(c, v, w) && (v.state == Running && v.phase == JudgeWait ==> v.nodeCount > u.nodeCount)
    decreases NodesLeft(c, u), 0
  {
    hide EnterJudge, EnterDeterministic;
    var here := Arrive(u, id);
    if here.nodeCount <= c.settings.maxTotalNodes {
      match c.flow.nodes[id].kind {
        case Agent =>
        case Judge => EnterJudgeFlags(c, here, id, w);
        case _ => DeterministicFlags(c, here, w);
      }
    }
  }

  lemma {:induction false} DeterministicFlags(c: Config, u: Unit, w: Foreign)
    requires u.node in c.flow.nodes && u.phase == NoPhase
    ensures var v := EnterDeterministic(c, u, w);
            Flagged(c, v, w) && (v.state == Running && v.phase == JudgeWait ==> v.nodeCount > u.nodeCount)
    decreases NodesLeft(c, u), 2
  {
    hide Decide, Advance;
    DecideFrames(c, u);
    match Decide(c, u) {
      case Ended(v) =>
      case Onward(v, target) => AdvanceFlags(c, v, target, w);
    }
  }

  lemma {:induction false} AdvanceFlags(c: Config, u: Unit, target: Option<NodeId>, w: Foreign)
    requires u.node in c.flow.nodes && u.phase != JudgeWait
    ensures var v := Advance(c, u, target, w);
            Flagged(c, v, w) && (v.state == Running && v.phase == JudgeWait ==> v.nodeCount > u.nodeCount)
    decreases NodesLeft(c, u), 1
  {
    hide EnterNode;
    var onto := if target.Some? then target else c.flow.nodes[u.node].next;
    if onto.Some? && onto.value in c.flow.nodes {
      EnterNodeFlags(c, Log(u, Transition(u.node, onto.value)).(phase := NoPhase), onto.value, w);
    }
  }

  /** A wait that goes on keeps its flag; a new one has the command's answer. */
  ghost predicate Tracked(c: Config, u: Unit, v: Unit, w: Foreign) {
    if Arms(u, v) then Flagged(c, v, w)
    else v.state == Running && v.phase == JudgeWait ==> v.verifyFailed == u.verifyFailed && v.node == u.node
  }

  lemma AgentTracked(c: Config, u: Unit, seen: AgentView, w: Foreign)
    requires CanStep(c, u) && u.state == Running && u.phase == AgentWait
    requires u.rejudge.Some? ==> u.rejudge.value == u.node
    ensures Tracked(c, u, StepAgent(c, u, seen, w), w)
  {
    hide Advance, EnterJudge;
    if seen.AgentDone? {
      var done := Log(u, NodeDone(u.node)).(report := seen.report);
      var told := if seen.report.Some? then done.(env := done.env.(report := seen.report.value)) else done;
      if told.rejudge.Some? {
        EnterJudgeFlags(c, told.(rejudge := None), u.node, w);
      } else {
        AdvanceFlags(c, told, None, w);
      }
    }
  }

  lemma JudgeTracked(c: Config, u: Unit, seen: JudgeView, w: Foreign)
    requires CanStep(c, u) && u.state == Running && u.phase == JudgeWait
    ensures Tracked(c, u, StepJudge(c, u, seen, w), w)
  {
    hide Advance, ParseReply, Rework;
    if seen.JudgeReplied? && u.lastJudged != Some(seen.key) {
      var noticed := u.(lastJudged := Some(seen.key));
      var judged := ParseReply(seen.reply, u.node, u.validTargets, u.verifyFailed);
      if judged.Accepted? { VerdictTracked(c, noticed, judged.verdict, w); }
    }
  }

  lemma VerdictTracked(c: Config, u: Unit, v: Verdict, w: Foreign)
    requires u.node in c.flow.nodes && u.state == Running && u.phase == JudgeWait
    ensures Tracked(c, u, HandleVerdict(c, u, v, w), w)
  {
    hide Advance, Rework;
    var heard := Log(u, ReviewerVerdict(v));
    match v.action {
      case AdvanceNode =>
        var going := Log(heard, AdvanceTo(v.nextState)).(phase := NoPhase);
        AdvanceFlags(c, going, v.nextState, w);
      case AskDeveloper =>
        ReworkStays(c, heard, if v.messageToDeveloper.Some? then v.messageToDeveloper.value else "",
                    ReviewerInquiry(heard.node), w);
      case _ =>
    }
  }

  /** The run stays at its node, and waits for the developer unless it ended in error or blocked. */
  ghost predicate SentBack(u: Unit, v: Unit) {
    && v.node == u.node && v.nodeCount == u.nodeCount
    && (v.state == Running ==> v.phase == AgentWait)
    && (v.result == u.result || (v.result.Some? && v.result.value.outcome in {Error, Blocked}))
  }

  lemma RoundStays(c: Config, u: Unit, w: Foreign)
    ensures SentBack(u, ReworkRound(c, u, w))
  {
    hide Handoff.DetectLoop;
  }

  lemma ReworkStays(c: Config, u: Unit, text: string, entry: Entry, w: Foreign)
    ensures SentBack(u, Rework(c, u, text, entry, w))
  {
    hide ReworkRound;
    var asked := u.(dialogueRounds := u.dialogueRounds + 1);
    RoundStays(c, NoteRound(asked, text, entry), w);
  }

  lemma HumanTracked(c: Config, u: Unit, seen: HumanView, w: Foreign)
    requires CanStep(c, u) && u.state == Running && u.phase == HumanWait
    ensures Tracked(c, u, StepHuman(c, u, seen, w), w)
  {
    hide Advance, Rework, B.Lower;
    match seen {
      case TimedOut =>
        var woken := Log(u, HumanTimeout(u.node)).(phase := NoPhase);
        AdvanceFlags(c, woken, None, w);
        ReworkStays(c, woken, "human confirmation timed out", HumanRework(u.node), w);
      case Decided(answer, comment) =>
        var said := B.Lower(answer);
        var woken := Log(u, HumanDecision(u.node, said in YES_WORDS)).(phase := NoPhase);
        AdvanceFlags(c, woken, None, w);
        ReworkStays(c, woken, if comment != "" then comment else "human answered '" + said + "'",
                    HumanRework(u.node), w);
      case _ =>
    }
  }

  lemma StepTracked(c: Config, u: Unit, seen: Observation, w: Foreign)
    requires ValidConfig(c) && Inv(c, u) && u.state == Running && CanStep(c, u)
    ensures Tracked(c, u, Step(c, u, seen, w), w)
  {
    hide Audited, Valid, StepAgent, StepJudge, StepHuman, LastEntered, CountEntered, VerifyStanding, AskedHuman, Tracked;
    QuietTracked(c, u, w);
    match u.phase {
      case AgentWait => AgentTracked(c, u, seen.agent, w);
      case JudgeWait => JudgeTracked(c, u, seen.judge, w);
      case HumanWait => HumanTracked(c, u, seen.human, w);
      case NoPhase =>
    }
  }

  lemma QuietTracked(c: Config, u: Unit, w: Foreign)
    ensures Tracked(c, u, u, w) && Tracked(c, u, Finish(u, Failed, Timeout), w)
  {
  }

  lemma CaughtTracked(c: Config, u: Unit, v: Unit, w: Foreign)
    requires Tracked(c, u, v, w)
    ensures Tracked(c, u, Caught(v), w)
  {
  }

  lemma PollTracked(c: Config, u: Unit, seen: Observation, w: Foreign)
    requires ValidConfig(c) && Inv(c, u) && (u.state == Running ==> CanStep(c, u))
    ensures Tracked(c, u, Apply(c, u, Poll(seen, w)), w)
  {
    hide Inv, ValidConfig, Step, Tracked, Caught, CanStep;
    QuietTracked(c, u, w);
    if u.state == Running && !u.paused {
      StepTracked(c, u, seen, w);
      CaughtTracked(c, u, Step(c, u, seen, w), w);
    }
  }

  /** No signal begins a judge wait. */
  lemma SignalsArmNothing(c: Config, u: Unit, e: Event)
    requires !e.Poll? && (u.state == Running ==> CanStep(c, u))
    ensures var v := Apply(c, u, e);
            !Arms(u, v) && (v.state == Running && v.phase == JudgeWait ==> v.verifyFailed == u.verifyFailed && v.node == u.node)
  {
  }

  // ---- runs --------------------------------------------------------------

  /** How the foreign calls ended that began the latest judge wait of a run. */
  ghost function ArmedBy(c: Config, context: string, start: Foreign, events: seq<Event>): Foreign
    requires ValidConfig(c)
  {
    if events == [] then start
    else
      var front, e := events[..|events| - 1], events[|events| - 1];
      if e.Poll? && Arms(RunOf(c, context, start, front), RunOf(c, context, start, events)) then e.calls
      else ArmedBy(c, context, start, front)
  }

  lemma BeginFlags(c: Config, context: string, w: Foreign)
    requires ValidConfig(c)
    ensures Flagged(c, RunOf(c, context, w, []), w)
  {
    hide EnterNode, HasSpine, Inv;
    StartOf(c);
    BeginKeeps(c, context, w);
    if HasSpine(c.flow) {
      EnterNodeFlags(c, FRESH_UNIT.(env := RunEnv(context, "", true, ""), node := c.flow.start, state := Running), c.flow.start, w);
    }
  }

  lemma FlagsGoOn(c: Config, u: Unit, e: Event, w: Foreign)
    requires ValidConfig(c) && Inv(c, u) && (u.state == Running ==> CanStep(c, u)) && Flagged(c, u, w)
    ensures var v := Apply(c, u, e); Flagged(c, v, if e.Poll? && Arms(u, v) then e.calls else w)
  {
    hide Apply, Inv, ValidConfig, CanStep;
    if e.Poll? { PollTracked(c, u, e.seen, e.calls); } else { SignalsArmNothing(c, u, e); }
  }

  lemma ArmedByLast(c: Config, context: string, start: Foreign, front: seq<Event>, e: Event)
    requires ValidConfig(c)
    ensures ArmedBy(c, context, start, front + [e]) ==
            if e.Poll? && Arms(RunOf(c, context, start, front), RunOf(c, context, start, front + [e])) then e.calls
            else ArmedBy(c, context, start, front)
  {
    hide RunOf, Arms, ValidConfig;
    assert (front + [e])[..|front|] == front;
  }

  lemma ArmedByStart(c: Config, context: string, start: Foreign)
    requires ValidConfig(c)
    ensures ArmedBy(c, context, start, []) == start
  {
    hide RunOf, ValidConfig;
  }

  lemma {:induction false} RunFlags(c: Config, context: string, start: Foreign, events: seq<Event>)
    requires ValidConfig(c)
    ensures Flagged(c, RunOf(c, context, start, events), ArmedBy(c, context, start, events))
    decreases |events|
  {
    hide RunOf, Apply, Inv, ValidConfig, CanStep, Flagged, Arms, ArmedBy;
    if events == [] {
      BeginFlags(c, context, start);
      ArmedByStart(c, context, start);
    } else {
      var front, e := events[..|events| - 1], events[|events| - 1];
      assert front + [e] == events;
      RunFlags(c, context, start, front);
      RunSnoc(c, context, start, front, e);
      ArmedByLast(c, context, start, front, e);
      FlagsGoOn(c, RunOf(c, context, start, front), e, ArmedBy(c, context, start, front));
    }
  }

  /**
   In every run, while a judge is waited for, the unit and its ledger hold what the
   verify command returned when this wait began; and nothing where no command runs.
   */
  lemma VerifyIsReported(c: Config, context: string, start: Foreign, events: seq<Event>)
    requires ValidConfig(c)
    ensures var u, w := RunOf(c, context, start, events), ArmedBy(c, context, start, events);
            u.state == Running && u.phase == JudgeWait ==>
              && u.node in c.flow.nodes
              && if c.flow.nodes[u.node].verify && c.settings.verifyEnabled
                 then u.verifyFailed == w.verifyFails && VerifyStanding(u.ledger) == Some(w.verifyFails)
                 else !u.verifyFailed && VerifyStanding(u.ledger) == None
  {
    hide RunOf, ArmedBy, Audited, Valid, LastEntered, CountEntered, VerifyStanding, AskedHuman;
    RunFlags(c, context, start, events);
  }

  /** The run went on to another node, or completed. */
  ghost predicate Leaves(u: Unit, v: Unit) {
    v.node != u.node || v.nodeCount != u.nodeCount || (v.result.Some? && v.result.value.outcome == Complete)
  }

  lemma VerdictStays(c: Config, u: Unit, v: Verdict, w: Foreign)
    requires u.node in c.flow.nodes && u.result == None && v.action != AdvanceNode
    ensures !Leaves(u, HandleVerdict(c, u, v, w))
  {
    hide Rework;
    var heard := Log(u, ReviewerVerdict(v));
    if v.action == AskDeveloper {
      ReworkStays(c, heard, if v.messageToDeveloper.Some? then v.messageToDeveloper.value else "",
                  ReviewerInquiry(heard.node), w);
    }
  }

  /** While the verify has failed no reply of the reviewer leaves the node. */
  lemma ReplyStays(c: Config, u: Unit, seen: JudgeView, w: Foreign)
    requires u.node in c.flow.nodes && u.result == None && u.verifyFailed
    ensures !Leaves(u, StepJudge(c, u, seen, w))
  {
    hide ParseReply, HandleVerdict;
    if seen.JudgeReplied? && u.lastJudged != Some(seen.key) {
      var noticed := u.(lastJudged := Some(seen.key));
      var judged := ParseReply(seen.reply, u.node, u.validTargets, u.verifyFailed);
      if judged.Accepted? {
        AcceptedVerdict(seen.reply, u.node, u.validTargets, u.verifyFailed);
        VerdictStays(c, noticed, judged.verdict, w);
      }
    }
  }

  /** The answers that lead on: one of the six words, in any case. */
  ghost predicate SaysYes(h: HumanView) {
    h.Decided? && B.Lower(h.answer) in {
      "yes", "y", "approve", "\U{662F}", "\U{786E}\U{8BA4}", "\U{901A}\U{8FC7}"
    }
  }

  lemma HumanStays(c: Config, u: Unit, h: HumanView, w: Foreign)
    requires u.node in c.flow.nodes && u.result == None
    requires !SaysYes(h) && !(h.TimedOut? && c.settings.humanDefault == AdvanceOnTimeout)
    ensures !Leaves(u, StepHuman(c, u, h, w))
  {
    hide Rework, Advance, B.Lower;
    match h {
      case TimedOut =>
        var woken := Log(u, HumanTimeout(u.node)).(phase := NoPhase);
        ReworkStays(c, woken, "human confirmation timed out", HumanRework(u.node), w);
      case Decided(answer, comment) =>
        var said := B.Lower(answer);
        var woken := Log(u, HumanDecision(u.node, said in YES_WORDS)).(phase := NoPhase);
        ReworkStays(c, woken, if comment != "" then comment else "human answered '" + said + "'",
                    HumanRework(u.node), w);
      case _ =>
    }
  }

  /** What leads on from a judge whose verify failed, whether its reply or its human is waited for. */
  ghost predicate HumanLeadsOn(c: Config, u: Unit, e: Event) {
    && u.phase == HumanWait && e.Poll?
    && (SaysYes(e.seen.human) || (e.seen.human.TimedOut? && c.settings.humanDefault == AdvanceOnTimeout))
  }

  lemma EventStays(c: Config, u: Unit, e: Event)
    requires CanStep(c, u) && u.state == Running && u.result == None && u.phase in {JudgeWait, HumanWait}
    requires u.phase == JudgeWait ==> u.verifyFailed
    requires !HumanLeadsOn(c, u, e)
    ensures !Leaves(u, Apply(c, u, e))
  {
    hide StepJudge, StepHuman, SaysYes;
    if e.Poll? {
      if u.phase == JudgeWait {
        ReplyStays(c, u, e.seen.judge, e.calls);
      } else {
        HumanStays(c, u, e.seen.human, e.calls);
      }
    }
  }

  /**
   In every run: when the verify command failed as the judge's wait began, no reply leads
   on from the node, to another or to the end. Only a human who was asked does, by a yes
   or by letting a wait time out that is set to advance.
   */
  lemma FailedVerifyLeftByHumanOnly(c: Config, context: string, start: Foreign, events: seq<Event>, e: Event)
    requires ValidConfig(c)
    requires var u := RunOf(c, context, start, events);
             && u.state == Running && u.phase in {JudgeWait, HumanWait}
             && u.node in c.flow.nodes && c.flow.nodes[u.node].verify && c.settings.verifyEnabled
             && ArmedBy(c, context, start, events).verifyFails
    requires Leaves(RunOf(c, context, start, events), RunOf(c, context, start, events + [e]))
    ensures HumanLeadsOn(c, RunOf(c, context, start, events), e)
  {
    hide RunOf, ArmedBy, Audited, Valid, Apply, VerifyStanding, HumanLeadsOn, Leaves;
    var u := RunOf(c, context, start, events);
    RunFlags(c, context, start, events);
    RunSnoc(c, context, start, events, e);
    if !HumanLeadsOn(c, u, e) { EventStays(c, u, e); }
  }

  /** Conversely a yes leads on along `next`, whatever the verify said; its answer stands in the ledger as a yes. */
  lemma YesLeadsOn(c: Config, u: Unit, h: HumanView, w: Foreign)
    requires u.node in c.flow.nodes && SaysYes(h)
    ensures StepHuman(c, u, h, w) == Advance(c, Log(u, HumanDecision(u.node, true)).(phase := NoPhase), None, w)
  {
    hide Advance, Rework, B.Lower;
  }

  /** A human wait that times out goes the way the settings say: on, back to the developer, or to a blocked end. */
  lemma TimeoutMeans(c: Config, u: Unit, w: Foreign)
    requires u.node in c.flow.nodes
    ensures var v := StepHuman(c, u, TimedOut, w);
            var woken := u.(phase := NoPhase, ledger := Then(u.ledger, HumanTimeout(u.node)));
            match c.settings.humanDefault
            case AdvanceOnTimeout => v == Advance(c, woken, None, w)
            case ReworkOnTimeout => v == Rework(c, woken, "human confirmation timed out", HumanRework(u.node), w)
            case BlockOnTimeout => v.state == Aborted && v.result == Some(RunResult(Blocked, u.node))
  {
    hide Advance, Rework;
  }
}
