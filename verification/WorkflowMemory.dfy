/**
 What the conditions of a flow see and what they decide: the variables of a run, and the
 way out of tool, route and gate nodes.
 */
module WorkflowMemory {
  import opened Common
  import opened StateMachine
  import opened Contract
  import opened Workflow
  import opened WorkflowRuns
  import B = Branching
  import Conditions
  import Handoff

  // ---- tool, route and gate nodes -----------------------------------------

  /** No branch decides: every condition is false. */
  ghost predicate AllFalse(n: Node, env: B.Env, nu: B.Numerics) {
    forall i :: 0 <= i < |n.branches| ==> Conditions.Evaluate(n.branches[i].when, env, nu) == Some(false)
  }

  /** Branch `i` is the first that is not false, and its condition holds. */
  ghost predicate Takes(n: Node, env: B.Env, nu: B.Numerics, i: nat) {
    && i < |n.branches| && Conditions.Evaluate(n.branches[i].when, env, nu) == Some(true)
    && forall j :: 0 <= j < i ==> Conditions.Evaluate(n.branches[j].when, env, nu) == Some(false)
  }

  /** Branch `i` is the first that is not false, and its condition has no value. */
  ghost predicate Breaks(n: Node, env: B.Env, nu: B.Numerics, i: nat) {
    && i < |n.branches| && Conditions.Evaluate(n.branches[i].when, env, nu) == None
    && forall j :: 0 <= j < i ==> Conditions.Evaluate(n.branches[j].when, env, nu) == Some(false)
  }

  lemma {:induction false} NoneDecides(branches: seq<Branch>, env: B.Env, nu: B.Numerics)
    requires forall i :: 0 <= i < |branches| ==> Conditions.Evaluate(branches[i].when, env, nu) == Some(false)
    ensures Conditions.ResolveBranch(branches, env, nu) == Conditions.NoBranch
  {
    if branches != [] {
      forall i | 0 <= i < |branches[1..]| ensures Conditions.Evaluate(branches[1..][i].when, env, nu) == Some(false) {
        assert branches[1..][i] == branches[i + 1];
      }
      NoneDecides(branches[1..], env, nu);
    }
  }

  lemma ChoiceOf(n: Node, env: B.Env, nu: B.Numerics, i: nat)
    ensures Takes(n, env, nu, i) ==> Conditions.ResolveBranch(n.branches, env, nu) == Conditions.Goto(n.branches[i].goto)
    ensures Breaks(n, env, nu, i) ==> Conditions.ResolveBranch(n.branches, env, nu) == Conditions.BadCondition
    ensures AllFalse(n, env, nu) ==> Conditions.ResolveBranch(n.branches, env, nu) == Conditions.NoBranch
  {
    hide Conditions.Evaluate, Conditions.ResolveBranch;
    if Takes(n, env, nu, i) || Breaks(n, env, nu, i) { Conditions.FirstBranchDecides(n.branches, env, nu, i); }
    if AllFalse(n, env, nu) { NoneDecides(n.branches, env, nu); }
  }

  /** A gate is passed only by a branch whose condition holds: with none the run is blocked, never led along `next`. */
  lemma GateMeans(c: Config, u: Unit, i: nat)
    requires u.node in c.flow.nodes && c.flow.nodes[u.node].kind == Gate
    ensures var n, env := c.flow.nodes[u.node], Variables(u.env);
            && (Takes(n, env, c.nu, i) ==>
                  Decide(c, u) == if n.branches[i].goto in c.flow.nodes then Onward(u, Some(n.branches[i].goto))
                                  else Ended(Finish(u, Failed, Error)))
            && (Breaks(n, env, c.nu, i) ==> Decide(c, u) == Ended(Finish(u, Failed, Error)))
            && (AllFalse(n, env, c.nu) ==> Decide(c, u) == Ended(Finish(u, Aborted, Blocked)))
  {
    hide Conditions.ResolveBranch, Takes, Breaks, AllFalse;
    ChoiceOf(c.flow.nodes[u.node], Variables(u.env), c.nu, i);
  }

  /** A route falls back on `next`, or on the end of the flow, when no condition holds. */
  lemma RouteMeans(c: Config, u: Unit, i: nat)
    requires u.node in c.flow.nodes && c.flow.nodes[u.node].kind == Route
    ensures var n, env := c.flow.nodes[u.node], Variables(u.env);
            && (Takes(n, env, c.nu, i) ==>
                  Decide(c, u) == if n.branches[i].goto in c.flow.nodes then Onward(u, Some(n.branches[i].goto))
                                  else Ended(Finish(u, Failed, Error)))
            && (Breaks(n, env, c.nu, i) ==> Decide(c, u) == Ended(Finish(u, Failed, Error)))
            && (AllFalse(n, env, c.nu) ==>
                  Decide(c, u) == if n.next.None? || n.next.value in c.flow.nodes then Onward(u, n.next)
                                  else Ended(Finish(u, Failed, Error)))
  {
    hide Conditions.ResolveBranch, Takes, Breaks, AllFalse;
    ChoiceOf(c.flow.nodes[u.node], Variables(u.env), c.nu, i);
  }

  /**
   A tool's result is what its own conditions see; a target outside the flow, or no
   branch, leads along `next`, and a condition without a value leaves the target open.
   */
  lemma ToolMeans(c: Config, u: Unit, i: nat)
    requires u.node in c.flow.nodes && c.flow.nodes[u.node].kind == Tool
    ensures var n := c.flow.nodes[u.node];
            var t := c.tool(n, u.env.context, u.env.report);
            if t.UnknownTool? then Decide(c, u) == Ended(Finish(u, Failed, Error))
            else
              var after := u.(env := RunEnv(u.env.context, u.env.report, t.ok, t.message),
                              ledger := Then(u.ledger, ToolDone(u.node, t.ok)));
              var env := map["context" := B.Str(u.env.context), "report" := B.Str(u.env.report),
                             "ok" := B.Flag(t.ok), "message" := B.Str(t.message)];
              var onto := if n.next.None? || n.next.value in c.flow.nodes then Onward(after, n.next)
                          else Ended(Finish(after, Failed, Error));
              && (Takes(n, env, c.nu, i) ==>
                    Decide(c, u) == if n.branches[i].goto in c.flow.nodes then Onward(after, Some(n.branches[i].goto)) else onto)
              && (Breaks(n, env, c.nu, i) ==> Decide(c, u) == Onward(after, None))
              && (AllFalse(n, env, c.nu) ==> Decide(c, u) == onto)
  {
    hide Conditions.ResolveBranch, Takes, Breaks, AllFalse;
    var n := c.flow.nodes[u.node];
    var t := c.tool(n, u.env.context, u.env.report);
    if t.ToolRan? {
      ChoiceOf(n, Variables(Ran(u, t.ok, t.message).env), c.nu, i);
    }
  }

  // ---- the variables of a run ----------------------------------------------

  /** Neither the context nor the report a condition would see changes. */
  ghost predicate Keeps(u: Unit, v: Unit) {
    v.env.context == u.env.context && v.env.report == u.env.report
  }

  lemma {:induction false} EnterNodeRemembers(c: Config, u: Unit, id: NodeId, w: Foreign)
    requires id in c.flow.nodes
    ensures Keeps(u, EnterNode(c, u, id, w))
    decreases NodesLeft(c, u), 0
  {
    hide EnterJudge, EnterDeterministic;
    var here := Arrive(u, id);
    if here.nodeCount <= c.settings.maxTotalNodes {
      match c.flow.nodes[id].kind {
        case Agent =>
        case Judge => EnterJudgeRemembers(c, here, id, w);
        case _ => DeterministicRemembers(c, here, w);
      }
    }
  }

  lemma EnterJudgeRemembers(c: Config, u: Unit, id: NodeId, w: Foreign)
    requires id in c.flow.nodes
    ensures Keeps(u, EnterJudge(c, u, id, w))
  {
  }

  lemma {:induction false} DeterministicRemembers(c: Config, u: Unit, w: Foreign)
    requires u.node in c.flow.nodes
    ensures Keeps(u, EnterDeterministic(c, u, w))
    decreases NodesLeft(c, u), 2
  {
    hide Decide, Advance;
    DecideFrames(c, u);
    match Decide(c, u) {
      case Ended(v) =>
      case Onward(v, target) => AdvanceRemembers(c, v, target, w);
    }
  }

  lemma {:induction false} AdvanceRemembers(c: Config, u: Unit, target: Option<NodeId>, w: Foreign)
    requires u.node in c.flow.nodes
    ensures Keeps(u, Advance(c, u, target, w))
    decreases NodesLeft(c, u), 1
  {
    hide EnterNode;
    var onto := if target.Some? then target else c.flow.nodes[u.node].next;
    if onto.Some? && onto.value in c.flow.nodes {
      EnterNodeRemembers(c, Log(u, Transition(u.node, onto.value)).(phase := NoPhase), onto.value, w);
    }
  }

  lemma ReworkRemembers(c: Config, u: Unit, text: string, entry: Entry, w: Foreign)
    ensures Keeps(u, Rework(c, u, text, entry, w))
  {
    hide ReworkRound;
    RoundRemembers(c, NoteRound(u.(dialogueRounds := u.dialogueRounds + 1), text, entry), w);
  }

  lemma RoundRemembers(c: Config, u: Unit, w: Foreign)
    ensures Keeps(u, ReworkRound(c, u, w))
  {
    hide Handoff.DetectLoop;
  }

  /** An agent that is done with a report puts it there; any other view of it changes nothing. */
  lemma AgentRemembers(c: Config, u: Unit, seen: AgentView, w: Foreign)
    requires CanStep(c, u)
    ensures var v := StepAgent(c, u, seen, w);
            && v.env.context == u.env.context
            && v.env.report == if seen.AgentDone? && seen.report.Some? then seen.report.value else u.env.report
  {
    hide Advance, EnterJudge;
    if seen.AgentDone? {
      var done := Log(u, NodeDone(u.node)).(report := seen.report);
      var told := if seen.report.Some? then done.(env := done.env.(report := seen.report.value)) else done;
      if told.rejudge.Some? {
        EnterJudgeRemembers(c, told.(rejudge := None), told.rejudge.value, w);
      } else {
        AdvanceRemembers(c, told, None, w);
      }
    }
  }

  lemma VerdictRemembers(c: Config, u: Unit, v: Verdict, w: Foreign)
    requires u.node in c.flow.nodes
    ensures Keeps(u, HandleVerdict(c, u, v, w))
  {
    hide Advance, Rework;
    var heard := Log(u, ReviewerVerdict(v));
    if v.action == AdvanceNode {
      AdvanceRemembers(c, Log(heard, AdvanceTo(v.nextState)).(phase := NoPhase), v.nextState, w);
    } else if v.action == AskDeveloper {
      ReworkRemembers(c, heard, if v.messageToDeveloper.Some? then v.messageToDeveloper.value else "",
                      ReviewerInquiry(heard.node), w);
    }
  }

  lemma JudgeRemembers(c: Config, u: Unit, seen: JudgeView, w: Foreign)
    requires CanStep(c, u)
    ensures Keeps(u, StepJudge(c, u, seen, w))
  {
    hide HandleVerdict, ParseReply;
    if seen.JudgeReplied? && ParseReply(seen.reply, u.node, u.validTargets, u.verifyFailed).Accepted? {
      VerdictRemembers(c, u.(lastJudged := Some(seen.key)),
                       ParseReply(seen.reply, u.node, u.validTargets, u.verifyFailed).verdict, w);
    }
  }

  lemma HumanRemembers(c: Config, u: Unit, seen: HumanView, w: Foreign)
    requires CanStep(c, u)
    ensures Keeps(u, StepHuman(c, u, seen, w))
  {
    hide Advance, Rework, B.Lower;
    match seen {
      case TimedOut =>
        var woken := Log(u, HumanTimeout(u.node)).(phase := NoPhase);
        AdvanceRemembers(c, woken, None, w);
        ReworkRemembers(c, woken, "human confirmation timed out", HumanRework(u.node), w);
      case Decided(answer, comment) =>
        var said := B.Lower(answer);
        var woken := Log(u, HumanDecision(u.node, said in YES_WORDS)).(phase := NoPhase);
        AdvanceRemembers(c, woken, None, w);
        ReworkRemembers(c, woken, if comment != "" then comment else "human answered '" + said + "'",
                        HumanRework(u.node), w);
      case _ =>
    }
  }

  /** The event brings a report of the agent the unit waits for. */
  ghost predicate Brings(u: Unit, e: Event) {
    && e.Poll? && u.state == Running && !u.paused && u.phase == AgentWait && !e.seen.deadlinePassed
    && e.seen.agent.AgentDone? && e.seen.agent.report.Some?
  }

  lemma ApplyRemembers(c: Config, u: Unit, e: Event)
    requires u.state == Running ==> CanStep(c, u)
    ensures var v := Apply(c, u, e);
            && v.env.context == u.env.context
            && v.env.report == if Brings(u, e) then e.seen.agent.report.value else u.env.report
  {
    hide StepAgent, StepJudge, StepHuman, CanStep;
    if e.Poll? && u.state == Running && !u.paused {
      assert CanStep(c, u);
      AgentRemembers(c, u, e.seen.agent, e.calls);
      JudgeRemembers(c, u, e.seen.judge, e.calls);
      HumanRemembers(c, u, e.seen.human, e.calls);
    }
  }

  /** The latest report an agent of the run has brought. */
  ghost function LatestReport(c: Config, context: string, start: Foreign, events: seq<Event>): string
    requires ValidConfig(c)
  {
    if events == [] then ""
    else
      var front, e := events[..|events| - 1], events[|events| - 1];
      if Brings(RunOf(c, context, start, front), e) then e.seen.agent.report.value
      else LatestReport(c, context, start, front)
  }

  /** In every run the conditions see the context the run was started with and the latest report brought. */
  lemma {:induction false} VariablesAreHistory(c: Config, context: string, start: Foreign, events: seq<Event>)
    requires ValidConfig(c)
    ensures var env := RunOf(c, context, start, events).env;
            env.context == context && env.report == LatestReport(c, context, start, events)
    decreases |events|
  {
    hide RunOf, Inv, ValidConfig, Apply, CanStep;
    if events == [] {
      BeginRemembers(c, context, start);
    } else {
      var front, e := events[..|events| - 1], events[|events| - 1];
      VariablesAreHistory(c, context, start, front);
      RunSnoc(c, context, start, front, e);
      assert front + [e] == events;
      ApplyRemembers(c, RunOf(c, context, start, front), e);
    }
  }

  lemma BeginRemembers(c: Config, context: string, w: Foreign)
    requires ValidConfig(c)
    ensures var env := RunOf(c, context, w, []).env; env.context == context && env.report == ""
  {
    hide EnterNode, HasSpine, Inv;
    StartOf(c);
    BeginKeeps(c, context, w);
    if HasSpine(c.flow) {
      EnterNodeRemembers(c, FRESH_UNIT.(env := RunEnv(context, "", true, ""), node := c.flow.start, state := Running), c.flow.start, w);
    }
  }
}
