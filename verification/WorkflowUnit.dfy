/**
 The workflow unit with its fields, updated in place by the handlers. Every
 handler is proved to do what its function in Workflow.dfy says, so what
 WorkflowRuns.dfy and WorkflowProgress.dfy prove of those functions holds of it.
 */
module WorkflowUnits {
  import opened Common
  import opened StateMachine
  import opened Contract
  import opened Handoff
  import W = Workflow
  import opened WorkflowRuns
  import B = Branching
  import Conditions

  class WorkflowUnit {
    const cfg: W.Config
    var state: W.RunState
    var phase: W.Phase
    var node: NodeId
    var nodeCount: nat
    var dialogueRounds: nat
    var judgeAttempts: nat
    var rejudge: Option<NodeId>
    var rounds: seq<Round>
    var verifyFailed: bool
    var validTargets: set<NodeId>
    var lastJudged: Option<string>
    var report: Option<string>
    var env: W.RunEnv
    var hasSession: bool
    var paused: bool
    var raised: bool
    var result: Option<W.RunResult>
    var ledger: W.Ledger

    /** The whole state as one value. */
    ghost function View(): W.Unit
      reads this
    {
      W.Unit(state, phase, node, nodeCount, dialogueRounds, judgeAttempts, rejudge, rounds, verifyFailed,
             validTargets, lastJudged, report, env, hasSession, paused, raised, result, ledger)
    }

    constructor (cfg: W.Config)
      ensures this.cfg == cfg && View() == W.FRESH_UNIT
    {
      this.cfg := cfg;
      state, phase, node, nodeCount, dialogueRounds, judgeAttempts := W.Idle, W.NoPhase, "", 0, 0, 0;
      rejudge, rounds, verifyFailed, validTargets, lastJudged := None, [], false, {}, None;
      report, env, hasSession, paused, raised := None, W.RunEnv("", "", true, ""), false, false, false;
      result, ledger := None, W.NothingYet;
    }

    method Log(e: W.Entry)
      modifies this`ledger
      ensures View() == W.Log(old(View()), e)
    {
      ledger := W.Then(ledger, e);
    }

    method Finish(s: W.RunState, o: W.Outcome)
      modifies this`state, this`result
      ensures View() == W.Finish(old(View()), s, o)
    {
      state := s;
      result := Some(W.RunResult(o, node));
    }

    // ---- entering nodes -------------------------------------------------

    method Begin(context: string, calls: W.Foreign)
      requires ValidFlowStart()
      modifies this
      ensures View() == W.Begin(cfg, old(View()), context, calls)
    {
      hide W.EnterNode, HasSpine;
      env := W.RunEnv(context, "", true, "");
      var path := FlowPath(cfg.flow);
      if path.Err? { return; }
      StartAt(path.value[0]);
      EnterNode(node, calls);
      raised := false;
    }

    method StartAt(id: NodeId)
      modifies this
      ensures View() == old(View()).(node := id, state := W.Running, nodeCount := 0)
    {
      node := id;
      state := W.Running;
      nodeCount := 0;
    }

    ghost predicate ValidFlowStart() {
      cfg.flow.start in cfg.flow.nodes
    }

    method EnterNode(id: NodeId, calls: W.Foreign)
      requires id in cfg.flow.nodes
      modifies this
      ensures View() == W.EnterNode(cfg, old(View()), id, calls)
      decreases W.NodesLeft(cfg, View()), 0
    {
      hide W.EnterAgent, W.EnterJudge, W.EnterDeterministic;
      Arrive(id);
      if nodeCount > cfg.settings.maxTotalNodes {
        Finish(W.Aborted, W.Blocked);
        return;
      }
      match cfg.flow.nodes[id].kind {
        case Agent => EnterAgent(calls);
        case Judge => EnterJudge(id, calls);
        case _ => EnterDeterministic(calls);
      }
    }

    method Arrive(id: NodeId)
      modifies this`ledger, this`node, this`nodeCount, this`dialogueRounds, this`rounds
      ensures View() == W.Arrive(old(View()), id)
    {
      Log(W.NodeEnter(id));
      node, nodeCount := id, nodeCount + 1;
      ClearRounds();
    }

    method ClearRounds()
      modifies this`dialogueRounds, this`rounds
      ensures View() == old(View()).(dialogueRounds := 0, rounds := [])
    {
      dialogueRounds, rounds := 0, [];
    }

    method EnterAgent(calls: W.Foreign)
      modifies this
      ensures View() == W.EnterAgent(old(View()), calls)
    {
      if !calls.promptOk || !calls.dispatchOk {
        Finish(W.Failed, W.Error);
        return;
      }
      hasSession := true;
      phase := W.AgentWait;
    }

    method SendJudgePrompt(calls: W.Foreign)
      modifies this
      ensures View() == W.SendJudgePrompt(old(View()), calls)
    {
      if !calls.promptOk {
        raised := true;
      } else if !calls.dispatchOk {
        Finish(W.Failed, W.Error);
      }
    }

    method EnterJudge(id: NodeId, calls: W.Foreign)
      requires id in cfg.flow.nodes
      modifies this
      ensures View() == W.EnterJudge(cfg, old(View()), id, calls)
    {
      hide W.SendJudgePrompt, W.SuccessorSet;
      var n := cfg.flow.nodes[id];
      AwaitVerdict(n);
      if n.verify && cfg.settings.verifyEnabled {
        verifyFailed := calls.verifyFails;
        Log(W.VerifyResult(id, calls.verifyFails));
      }
      SendJudgePrompt(calls);
    }

    method AwaitVerdict(n: Node)
      modifies this`validTargets, this`judgeAttempts, this`phase, this`hasSession, this`lastJudged, this`verifyFailed
      ensures View() == old(View()).(phase := W.JudgeWait, validTargets := W.SuccessorSet(n), judgeAttempts := 0,
                                     lastJudged := None, verifyFailed := false, hasSession := true)
    {
      hide W.SuccessorSet;
      ArmJudge(n);
      phase, hasSession := W.JudgeWait, true;
    }

    method ArmJudge(n: Node)
      modifies this`validTargets, this`judgeAttempts, this`lastJudged, this`verifyFailed
      ensures View() == old(View()).(validTargets := W.SuccessorSet(n), judgeAttempts := 0,
                                     lastJudged := None, verifyFailed := false)
    {
      hide W.SuccessorSet;
      validTargets, judgeAttempts := W.SuccessorSet(n), 0;
      lastJudged, verifyFailed := None, false;
    }

    method EnterDeterministic(calls: W.Foreign)
      requires node in cfg.flow.nodes
      modifies this
      ensures View() == W.EnterDeterministic(cfg, old(View()), calls)
      decreases W.NodesLeft(cfg, View()), 2
    {
      hide W.Decide, W.Advance;
      var going, target := Decide();
      if going { Advance(target, calls); }
    }

    /** Runs the tool or the branch conditions; `going` is false when the run ended here. */
    method Decide() returns (going: bool, target: Option<NodeId>)
      requires node in cfg.flow.nodes
      modifies this
      ensures W.Decide(cfg, old(View())) == if going then W.Onward(View(), target) else W.Ended(View())
    {
      hide Conditions.ResolveBranch;
      ghost var before := View();
      var n := cfg.flow.nodes[node];
      target := None;
      going := false;
      if n.kind == Tool {
        var t := cfg.tool(n, env.context, env.report);
        if t.UnknownTool? {
          Finish(W.Failed, W.Error);
          return;
        }
        TakeToolResult(t.ok, t.message);
        target := ResolveDet(n);
      } else {
        var choice := Conditions.ChooseBranch(n.branches, W.Variables(env), cfg.nu);
        if choice.BadCondition? {
          Finish(W.Failed, W.Error);
          return;
        }
        if choice.NoBranch? && n.kind == Gate {
          Finish(W.Aborted, W.Blocked);
          return;
        }
        target := if choice.Goto? then Some(choice.target) else n.next;
      }
      assert W.Decide(cfg, before) == W.Checked(cfg, View(), target);
      if target.Some? && target.value !in cfg.flow.nodes {
        Finish(W.Failed, W.Error);
      } else {
        going := true;
      }
    }

    method TakeToolResult(ok: bool, message: string)
      modifies this`env, this`ledger
      ensures View() == old(W.Log(View().(env := env.(ok := ok, message := message)), W.ToolDone(node, ok)))
    {
      env := env.(ok := ok, message := message);
      Log(W.ToolDone(node, ok));
    }

    /** The branch of a tool node: none for a bad condition, `next` for no match or an unknown target. */
    method ResolveDet(n: Node) returns (target: Option<NodeId>)
      ensures var choice := Conditions.ResolveBranch(n.branches, W.Variables(env), cfg.nu);
              target == if choice.BadCondition? then None
                        else if choice.Goto? && choice.target in cfg.flow.nodes then Some(choice.target) else n.next
    {
      var choice := Conditions.ChooseBranch(n.branches, W.Variables(env), cfg.nu);
      if choice.BadCondition? { return None; }
      target := if choice.Goto? && choice.target in cfg.flow.nodes then Some(choice.target) else n.next;
    }

    method Advance(target: Option<NodeId>, calls: W.Foreign)
      requires node in cfg.flow.nodes
      modifies this
      ensures View() == W.Advance(cfg, old(View()), target, calls)
      decreases W.NodesLeft(cfg, View()), 1
    {
      hide W.EnterNode;
      var onto := if target.Some? then target else cfg.flow.nodes[node].next;
      if onto.None? {
        Finish(W.Done, W.Complete);
        return;
      }
      Log(W.Transition(node, onto.value));
      if onto.value !in cfg.flow.nodes {
        raised := true;
        return;
      }
      phase := W.NoPhase;
      EnterNode(onto.value, calls);
    }

    // ---- polling --------------------------------------------------------

    method StepAgent(seen: W.AgentView, calls: W.Foreign)
      requires W.CanStep(cfg, View())
      modifies this
      ensures View() == W.StepAgent(cfg, old(View()), seen, calls)
    {
      hide W.EnterJudge, W.Advance;
      match seen {
        case AgentUnreadable => Finish(W.Failed, W.Error);
        case AgentPending =>
        case AgentAborted => Finish(W.Aborted, W.Blocked);
        case AgentDone(text) =>
          TakeReport(text);
          if rejudge.Some? {
            var judgeNode := rejudge.value;
            rejudge := None;
            EnterJudge(judgeNode, calls);
          } else {
            Advance(None, calls);
          }
      }
    }

    method TakeReport(text: Option<string>)
      modifies this`ledger, this`report, this`env
      ensures View() == old(W.Log(View(), W.NodeDone(node)).(
                          report := text, env := if text.Some? then env.(report := text.value) else env))
    {
      Log(W.NodeDone(node));
      report := text;
      if text.Some? { env := env.(report := text.value); }
    }

    method StepJudge(seen: W.JudgeView, calls: W.Foreign)
      requires node in cfg.flow.nodes
      modifies this
      ensures View() == W.StepJudge(cfg, old(View()), seen, calls)
    {
      hide W.HandleVerdict, ParseReply;
      match seen {
        case JudgeUnreadable => Finish(W.Failed, W.Error);
        case JudgeAborted => Finish(W.Aborted, W.Blocked);
        case JudgeQuiet =>
        case JudgeReplied(key, reply) =>
          if lastJudged == Some(key) { return; }
          lastJudged := Some(key);
          var judged := ParseReply(reply, node, validTargets, verifyFailed);
          if judged.Accepted? {
            HandleVerdict(judged.verdict, calls);
          } else {
            judgeAttempts := judgeAttempts + 1;
            if judgeAttempts > cfg.settings.maxReviewerRetries {
              Finish(W.Failed, W.Error);
            } else {
              SendJudgePrompt(calls);
            }
          }
      }
    }

    method HandleVerdict(v: Verdict, calls: W.Foreign)
      requires node in cfg.flow.nodes
      modifies this
      ensures View() == W.HandleVerdict(cfg, old(View()), v, calls)
    {
      Log(W.ReviewerVerdict(v));
      match v.action {
        case AdvanceNode =>
          var target := v.nextState;
          if (target.None? && validTargets == {}) || (target.Some? && target.value in validTargets) {
            Log(W.AdvanceTo(target));
            phase := W.NoPhase;
            Advance(target, calls);
          } else {
            Finish(W.Failed, W.Error);
          }
        case AskDeveloper =>
          Rework(if v.messageToDeveloper.Some? then v.messageToDeveloper.value else "",
                 W.ReviewerInquiry(node), calls);
        case RequestContext => SendJudgePrompt(calls);
        case AbortSession => Finish(W.Aborted, W.AbortedByReviewer);
        case ReportUser => Finish(W.Done, W.HumanNeeded);
        case AskHuman =>
          Log(W.HumanAsk(node));
          phase := W.HumanWait;
      }
    }

    method Rework(text: string, entry: W.Entry, calls: W.Foreign)
      modifies this
      ensures View() == W.Rework(cfg, old(View()), text, entry, calls)
    {
      hide W.ReworkRound, W.NoteRound, W.Finish;
      dialogueRounds := dialogueRounds + 1;
      if dialogueRounds > cfg.settings.maxDialogueRounds {
        Finish(W.Failed, W.Error);
      } else {
        NoteRound(text, entry);
        ReworkRound(calls);
      }
    }

    method NoteRound(text: string, entry: W.Entry)
      modifies this`rounds, this`ledger
      ensures View() == W.NoteRound(old(View()), text, entry)
    {
      Log(entry);
      rounds := rounds + [(text, if report.Some? then report.value else "")];
    }

    method ReworkRound(calls: W.Foreign)
      modifies this
      ensures View() == W.ReworkRound(cfg, old(View()), calls)
    {
      hide DetectLoop;
      var looping := FindLoop(rounds, cfg.settings.convergenceMaxIdentical);
      if looping {
        Finish(W.Aborted, W.Blocked);
      } else if !calls.dispatchOk {
        Finish(W.Failed, W.Error);
      } else {
        AwaitRework();
      }
    }

    method AwaitRework()
      modifies this`rejudge, this`hasSession, this`phase
      ensures View() == old(View()).(rejudge := Some(node), hasSession := true, phase := W.AgentWait)
    {
      rejudge := Some(node);
      hasSession := true;
      phase := W.AgentWait;
    }

    method StepHuman(seen: W.HumanView, calls: W.Foreign)
      requires node in cfg.flow.nodes
      modifies this
      ensures View() == W.StepHuman(cfg, old(View()), seen, calls)
    {
      match seen {
        case Undecided =>
        case Malformed => phase := W.NoPhase;
        case TimedOut =>
          Log(W.HumanTimeout(node));
          phase := W.NoPhase;
          match cfg.settings.humanDefault {
            case AdvanceOnTimeout => Advance(None, calls);
            case ReworkOnTimeout => Rework("human confirmation timed out", W.HumanRework(node), calls);
            case BlockOnTimeout => Finish(W.Aborted, W.Blocked);
          }
        case Decided(answer, comment) =>
          var said := B.Lower(answer);
          Log(W.HumanDecision(node, said in W.YES_WORDS));
          phase := W.NoPhase;
          if said in W.YES_WORDS {
            Advance(None, calls);
          } else {
            Rework(if comment != "" then comment else "human answered '" + said + "'", W.HumanRework(node), calls);
          }
      }
    }

    method Step(seen: W.Observation, calls: W.Foreign)
      requires W.CanStep(cfg, View())
      modifies this
      ensures View() == W.Step(cfg, old(View()), seen, calls)
    {
      if phase == W.HumanWait {
        StepHuman(seen.human, calls);
        return;
      }
      if phase != W.NoPhase && seen.deadlinePassed {
        if !seen.stillBusy { Finish(W.Failed, W.Timeout); }
        return;
      }
      match phase {
        case AgentWait => StepAgent(seen.agent, calls);
        case JudgeWait => StepJudge(seen.judge, calls);
        case _ =>
      }
    }

    // ---- the mixed loop -------------------------------------------------

    /** One turn of the loop: a drained signal, or a step when running and not paused. */
    method OnEvent(e: W.Event)
      requires W.ValidConfig(cfg) && Inv(cfg, View())
      modifies this
      ensures View().state == W.Running ==> W.CanStep(cfg, View())
      ensures old(state) == W.Running ==> W.CanStep(cfg, old(View()))
      ensures View() == W.Apply(cfg, old(View()), e)
      ensures Inv(cfg, View())
    {
      hide Inv, W.Step, W.ResumeUnit, W.CanStep;
      ApplyKeeps(cfg, View(), e);
      match e {
        case Poll(seen, calls) =>
          if state == W.Running && !paused {
            Step(seen, calls);
            if raised {
              raised := false;
              Finish(W.Failed, W.Error);
            }
          }
        case Stop => OnStop();
        case Pause => OnPause();
        case Resume(calls) => OnResume(calls);
        case _ =>
      }
      ApplyKeeps(cfg, View(), W.Nudge);
    }

    method OnStop()
      requires state == W.Running ==> W.CanStep(cfg, View())
      modifies this`state, this`result
      ensures View() == W.Apply(cfg, old(View()), W.Stop)
    {
      if state == W.Running { Finish(W.Aborted, W.Blocked); }
    }

    method OnPause()
      modifies this`paused
      ensures View() == old(View()).(paused := true)
    {
      paused := true;
    }

    method OnResume(calls: W.Foreign)
      modifies this`paused, this`state, this`result
      ensures View() == W.ResumeUnit(old(View()), calls)
    {
      if !paused { return; }
      paused := false;
      if phase == W.JudgeWait {
        if !calls.promptOk || !calls.dispatchOk { Finish(W.Failed, W.Error); }
      } else if hasSession {
        if !calls.dispatchOk { Finish(W.Failed, W.Error); }
      }
    }
  }
}
