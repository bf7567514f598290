/**
 Flows of agent and judge nodes: a run can follow any walk of flow edges, and so leaves
 the reachable nodes exactly when some such walk, short enough for the node cap, ends at
 a node whose empty `next` escapes.
 */
module WorkflowEscape {
  import opened Common
  import opened StateMachine
  import opened Contract
  import opened Workflow
  import opened WorkflowRuns
  import opened WorkflowMockRun
  import B = Branching
  import Conditions

  ghost predicate AgentsAndJudges(f: Flow) {
    forall id :: id in f.nodes ==> f.nodes[id].kind in {Agent, Judge}
  }

  /** Every foreign call succeeds and no verify fails. */
  const SMOOTH := Foreign(true, true, false)

  // ---- events that lead along an edge -----------------------------------

  /** The agent is done, the reviewer replies `v`, and the human says yes. */
  function Favourable(v: Verdict): Event {
    Poll(Observation(false, false, AgentDone(None), JudgeReplied("reply", Shaped(v)), Decided("yes", "")), SMOOTH)
  }

  function AdvanceVerdict(a: NodeId, b: NodeId): Verdict {
    Verdict(a, Proceed, AdvanceNode, None, Some(b), None, None, 0.9, "", [])
  }

  function AskVerdict(a: NodeId): Verdict {
    Verdict(a, Stuck, AskHuman, None, None, None, Some("?"), 0.9, "", [])
  }

  lemma AskAccepted(a: NodeId, valid: set<NodeId>)
    ensures ParseReply(Shaped(AskVerdict(a)), a, valid, false) == Accepted(AskVerdict(a))
  {
    Conditions.StripKeeps("?");
    RoutingAcceptedIff(Shaped(AskVerdict(a)), a, valid, false);
  }

  lemma AdvanceAccepted(a: NodeId, b: NodeId, valid: set<NodeId>)
    requires b in valid && b != ""
    ensures ParseReply(Shaped(AdvanceVerdict(a, b)), a, valid, false) == Accepted(AdvanceVerdict(a, b))
  {
    AdvanceAcceptedIff(Shaped(AdvanceVerdict(a, b)), a, valid, false);
    AcceptedVerdict(Shaped(AdvanceVerdict(a, b)), a, valid, false);
  }

  lemma YesIsYes()
    ensures B.Lower("yes") in YES_WORDS
  {
    assert B.Lower("yes") == "yes";
  }

  /** Going on from node `k` of `p` to the next, by that target or along `next`. */
  lemma AdvanceAlong(c: Config, u: Unit, p: seq<NodeId>, k: nat, target: Option<NodeId>)
    requires k + 1 < |p| && p[k] in c.flow.nodes && p[k + 1] in c.flow.nodes && AgentsAndJudges(c.flow)
    requires u.state == Running && !u.raised && !u.paused && u.rejudge == None && !u.verifyFailed
    requires u.node == p[k] && u.nodeCount == k + 1 && Entered(u.ledger) == p[..k + 1]
    requires (if target.Some? then target else c.flow.nodes[p[k]].next) == Some(p[k + 1])
    ensures var v := Advance(c, u, target, SMOOTH); !v.raised && ArrivedAt(c, v, p, k + 1)
  {
    hide EnterNode, ArrivedAt;
    EnterPlain(c, Log(u, Transition(u.node, p[k + 1])).(phase := NoPhase), p, k + 1);
  }

  lemma AgentGoes(c: Config, u: Unit, p: seq<NodeId>, k: nat)
    requires k + 1 < |p| && p[k] in c.flow.nodes && p[k + 1] in c.flow.nodes && AgentsAndJudges(c.flow)
    requires WaitingAt(c, u, p, k) && !u.raised && c.flow.nodes[p[k]].kind == Agent
    requires c.flow.nodes[p[k]].next == Some(p[k + 1])
    ensures var v := StepAgent(c, u, AgentDone(None), SMOOTH); !v.raised && ArrivedAt(c, v, p, k + 1)
  {
    hide Inv, Advance, ArrivedAt;
    AdvanceAlong(c, Log(u, NodeDone(u.node)).(report := None), p, k, None);
  }

  lemma JudgeGoes(c: Config, u: Unit, p: seq<NodeId>, k: nat)
    requires k + 1 < |p| && p[k] in c.flow.nodes && p[k + 1] in c.flow.nodes && AgentsAndJudges(c.flow)
    requires WaitingAt(c, u, p, k) && !u.raised && u.phase == JudgeWait
    requires p[k + 1] in u.validTargets && p[k + 1] != ""
    ensures var v := StepJudge(c, u, JudgeReplied("reply", Shaped(AdvanceVerdict(p[k], p[k + 1]))), SMOOTH);
            !v.raised && ArrivedAt(c, v, p, k + 1)
  {
    hide Inv, Advance, ArrivedAt, ParseReply;
    var v := AdvanceVerdict(p[k], p[k + 1]);
    AdvanceAccepted(p[k], p[k + 1], u.validTargets);
    var heard := Log(u.(lastJudged := Some("reply")), ReviewerVerdict(v));
    AdvanceAlong(c, Log(heard, AdvanceTo(v.nextState)).(phase := NoPhase), p, k, v.nextState);
  }

  /** The judge has asked the human, who is about to answer. */
  function Asked(u: Unit): Unit {
    Log(Log(u.(lastJudged := Some("reply")), ReviewerVerdict(AskVerdict(u.node))), HumanAsk(u.node)).(phase := HumanWait)
  }

  lemma JudgeAsks(c: Config, u: Unit, p: seq<NodeId>, k: nat)
    requires k < |p| && p[k] in c.flow.nodes && WaitingAt(c, u, p, k) && !u.raised && u.phase == JudgeWait
    ensures StepJudge(c, u, JudgeReplied("reply", Shaped(AskVerdict(p[k]))), SMOOTH) == Asked(u)
  {
    hide Inv, ParseReply;
    AskAccepted(p[k], u.validTargets);
  }

  lemma HumanGoes(c: Config, u: Unit, p: seq<NodeId>, k: nat)
    requires k + 1 < |p| && p[k] in c.flow.nodes && p[k + 1] in c.flow.nodes && AgentsAndJudges(c.flow)
    requires WaitingAt(c, u, p, k) && !u.raised
    requires c.flow.nodes[p[k]].next == Some(p[k + 1])
    ensures var v := StepHuman(c, Asked(u), Decided("yes", ""), SMOOTH); !v.raised && ArrivedAt(c, v, p, k + 1)
  {
    hide Inv, Advance, ArrivedAt, B.Lower;
    YesIsYes();
    AskedStands(u);
    AdvanceAlong(c, Log(Asked(u), HumanDecision(u.node, true)).(phase := NoPhase), p, k, None);
  }

  // ---- runs along a walk ------------------------------------------------

  lemma RunOne(c: Config, u: Unit, e: Event)
    requires ValidConfig(c) && Inv(c, u) && u.state == Running && CanStep(c, u)
    ensures Run(c, u, [e]) == Apply(c, u, e)
  {
    hide ValidConfig, Inv, Apply;
    ApplyKeeps(c, u, e);
    assert [e][1..] == [];
  }

  lemma WaitingSteps(c: Config, u: Unit, p: seq<NodeId>, k: nat)
    requires k < |p| && p[k] in c.flow.nodes && WaitingAt(c, u, p, k)
    ensures AtWait(c, u, u.phase) && !u.raised && CanStep(c, u)
    ensures u.phase == JudgeWait ==> u.validTargets == SuccessorSet(c.flow.nodes[p[k]])
  {
    hide Audited, LastEntered, CountEntered, VerifyStanding, Entered;
  }

  /** From a wait at node `k` some events lead to node `k + 1`. */
  lemma LeaveAlong(c: Config, u: Unit, p: seq<NodeId>, k: nat) returns (events: seq<Event>)
    requires ValidConfig(c) && AgentsAndJudges(c.flow) && k + 1 < |p|
    requires p[k] in c.flow.nodes && p[k + 1] in c.flow.nodes && WaitingAt(c, u, p, k)
    requires FlowEdge(c.flow, p[k], p[k + 1])
    requires p[k + 1] != "" || c.flow.nodes[p[k]].next == Some("")
    ensures ArrivedAt(c, Run(c, u, events), p, k + 1)
  {
    WaitingSteps(c, u, p, k);
    hide Inv, ValidConfig, StepAgent, StepJudge, StepHuman, ArrivedAt, Asked, SuccessorSet, Run;
    if c.flow.nodes[p[k]].kind == Agent {
      AgentGoes(c, u, p, k);
      events := [Favourable(AskVerdict(p[k]))];
      RunOne(c, u, events[0]);
    } else if c.flow.nodes[p[k]].next == Some(p[k + 1]) {
      var e := Favourable(AskVerdict(p[k]));
      events := [e] + [e];
      AskThenYes(c, u, p, k);
    } else {
      JudgeGoes(c, u, p, k);
      events := [Favourable(AdvanceVerdict(p[k], p[k + 1]))];
      RunOne(c, u, events[0]);
    }
  }

  lemma AskThenYes(c: Config, u: Unit, p: seq<NodeId>, k: nat)
    requires ValidConfig(c) && AgentsAndJudges(c.flow) && k + 1 < |p|
    requires p[k] in c.flow.nodes && p[k + 1] in c.flow.nodes && WaitingAt(c, u, p, k) && u.phase == JudgeWait
    requires c.flow.nodes[p[k]].next == Some(p[k + 1])
    ensures var e := Favourable(AskVerdict(p[k])); ArrivedAt(c, Run(c, u, [e] + [e]), p, k + 1)
  {
    var e := Favourable(AskVerdict(p[k]));
    WaitingSteps(c, u, p, k);
    JudgeAsks(c, u, p, k);
    HumanGoes(c, u, p, k);
    ApplyKeeps(c, u, e);
    AskedStands(u);
    hide Inv, ValidConfig, StepAgent, StepJudge, StepHuman, ArrivedAt, Asked, Run;
    RunOne(c, u, e);
    RunOne(c, Asked(u), e);
    RunConcat(c, u, [e], [e]);
  }

  lemma AskedStands(u: Unit)
    ensures var v := Asked(u);
            && v.state == u.state && v.paused == u.paused && v.raised == u.raised && v.node == u.node
            && v.rejudge == u.rejudge && v.phase == HumanWait && Entered(v.ledger) == Entered(u.ledger)
  {
    assert Entered(Log(u, ReviewerVerdict(AskVerdict(u.node))).ledger) == Entered(u.ledger);
  }

  lemma ArrivedWaits(c: Config, v: Unit, p: seq<NodeId>, k: nat)
    requires k < |p| && p[k] in c.flow.nodes && Inv(c, v) && ArrivedAt(c, v, p, k) && k + 1 <= c.settings.maxTotalNodes
    ensures WaitingAt(c, v, p, k)
  {
    hide Inv;
  }

  /** The flow starts, and waits at its first node. */
  lemma BeginsAtStart(c: Config, context: string)
    requires ValidConfig(c) && AgentsAndJudges(c.flow) && HasSpine(c.flow) && c.flow.start in c.flow.nodes
    ensures var u := Begin(c, FRESH_UNIT, context, SMOOTH); Inv(c, u) && ArrivedAt(c, u, [c.flow.start], 0)
  {
    BeginKeeps(c, context, SMOOTH);
    var u := FRESH_UNIT.(env := RunEnv(context, "", true, ""), node := c.flow.start, state := Running, nodeCount := 0);
    var p := [c.flow.start];
    assert p[..0] == [];
    hide EnterNode, Inv;
    EnterPlain(c, u, p, 0);
  }

  /** Some run enters exactly the nodes of a walk, and waits at its end unless the cap stops it there. */
  lemma {:induction false} RunAlong(c: Config, context: string, p: seq<NodeId>) returns (events: seq<Event>)
    requires ValidConfig(c) && AgentsAndJudges(c.flow) && HasSpine(c.flow)
    requires FlowWalk(c.flow, p) && 0 < |p| <= c.settings.maxTotalNodes + 1
    requires forall i :: 0 < i < |p| && p[i] == "" ==> c.flow.nodes[p[i - 1]].next == Some("")
    ensures ArrivedAt(c, RunOf(c, context, SMOOTH, events), p, |p| - 1)
    decreases |p|
  {
    hide Inv, ValidConfig, ArrivedAt, Begin, FlowEdge, WaitingAt, HasSpine, Run;
    StartOf(c);
    if |p| == 1 {
      BeginsAtStart(c, context);
      events := [];
      assert p == [c.flow.start];
      RunNothing(c, Begin(c, FRESH_UNIT, context, SMOOTH));
    } else {
      var k: nat := |p| - 2;
      var front := p[..|p| - 1];
      FrontWalks(c.flow, p);
      var before := RunAlong(c, context, front);
      var u := RunOf(c, context, SMOOTH, before);
      ArrivedAlong(c, u, p, k);
      ArrivedWaits(c, u, p, k);
      var more := LeaveAlong(c, u, p, k);
      events := before + more;
      BeginKeeps(c, context, SMOOTH);
      RunConcat(c, Begin(c, FRESH_UNIT, context, SMOOTH), before, more);
    }
  }

  lemma RunNext(c: Config, u: Unit, e: Event, events: seq<Event>)
    requires ValidConfig(c) && Inv(c, u) && (u.state == Running ==> CanStep(c, u))
    ensures Inv(c, Apply(c, u, e)) && Run(c, u, [e] + events) == Run(c, Apply(c, u, e), events)
  {
    hide ValidConfig, Inv, Apply, CanStep;
    ApplyKeeps(c, u, e);
    assert ([e] + events)[1..] == events;
  }

  lemma StoppedThenResumed(c: Config, u: Unit)
    requires ValidConfig(c) && Inv(c, u) && u.state == Running && CanStep(c, u) && u.hasSession && !u.raised
    ensures Run(c, u, [Pause, Stop]) == Finish(u.(paused := true), Aborted, Blocked)
    ensures Run(c, u, [Pause, Stop] + [Resume(Foreign(true, false, false))]) == Finish(u, Failed, Error).(paused := false)
  {
    var last := Resume(Foreign(true, false, false));
    var held := u.(paused := true);
    var stopped := Finish(held, Aborted, Blocked);
    hide ValidConfig, Inv, Run, CanStep;
    assert [Pause, Stop] == [Pause] + ([Stop] + []);
    assert [Pause, Stop] + [last] == [Pause] + ([Stop] + ([last] + []));
    RunNext(c, u, Pause, [Stop] + []);
    RunNext(c, u, Pause, [Stop] + ([last] + []));
    assert CanStep(c, held) by { HeldSteps(c, u); }
    RunNext(c, held, Stop, []);
    RunNext(c, held, Stop, [last] + []);
    RunNext(c, stopped, last, []);
    RunNothing(c, stopped);
    RunNothing(c, Apply(c, stopped, last));
  }

  lemma HeldSteps(c: Config, u: Unit)
    requires CanStep(c, u)
    ensures CanStep(c, u.(paused := true))
  {
  }

  /** A unit paused, stopped and then resumed in vain: the blocked result it ended with becomes an error. */
  lemma ResultOverwritten(c: Config, context: string)
    requires ValidConfig(c) && AgentsAndJudges(c.flow) && HasSpine(c.flow)
    ensures var u := RunOf(c, context, SMOOTH, [Pause, Stop]);
            HasEnded(c, u) && u.result == Some(RunResult(Blocked, c.flow.start))
    ensures var v := RunOf(c, context, SMOOTH, [Pause, Stop] + [Resume(Foreign(true, false, false))]);
            HasEnded(c, v) && v.result == Some(RunResult(Error, c.flow.start))
  {
    hide HasSpine, Begin;
    StartOf(c);
    BeginsAtStart(c, context);
    var u := Begin(c, FRESH_UNIT, context, SMOOTH);
    ArrivedWaits(c, u, [c.flow.start], 0);
    WaitingSteps(c, u, [c.flow.start], 0);
    StoppedThenResumed(c, u);
  }

  lemma RunNothing(c: Config, u: Unit)
    requires ValidConfig(c) && Inv(c, u)
    ensures Run(c, u, []) == u
  {
  }

  lemma FrontWalks(f: Flow, p: seq<NodeId>)
    requires FlowWalk(f, p) && |p| >= 2
    ensures FlowWalk(f, p[..|p| - 1]) && FlowEdge(f, p[|p| - 2], p[|p| - 1])
    ensures forall i :: 0 <= i < |p| ==> p[i] in f.nodes
  {
    var q := p[..|p| - 1];
    WalkEdge(f, p, |p| - 2);
    forall i | 0 <= i < |q| - 1 ensures FlowStep(f, q, i) {
      WalkEdge(f, p, i);
    }
  }

  lemma ArrivedAlong(c: Config, u: Unit, p: seq<NodeId>, k: nat)
    requires k + 1 < |p| && p[k] in c.flow.nodes && ArrivedAt(c, u, p[..k + 1], k)
    ensures ArrivedAt(c, u, p, k)
  {
    assert p[..k + 1][..k + 1] == p[..k + 1];
  }

  // ---- leaving the reachable nodes --------------------------------------

  /** A walk within the node cap to a node that escapes, where the empty id is not reachable. */
  ghost predicate EscapeWalk(c: Config, p: seq<NodeId>) {
    && p != [] && FlowWalk(c.flow, p) && |p| <= c.settings.maxTotalNodes && "" !in p
    && EscapesAt(c.flow, p[|p| - 1]) && !Reachable(c.flow, c.flow.start, "")
  }

  ghost predicate LeavesReachable(c: Config, context: string, start: Foreign, events: seq<Event>)
    requires ValidConfig(c)
  {
    exists i :: 0 <= i < |Entered(RunOf(c, context, start, events).ledger)| &&
      !Reachable(c.flow, c.flow.start, Entered(RunOf(c, context, start, events).ledger)[i])
  }

  lemma EscapeRun(c: Config, context: string, p: seq<NodeId>) returns (events: seq<Event>)
    requires ValidConfig(c) && AgentsAndJudges(c.flow) && HasSpine(c.flow) && EscapeWalk(c, p)
    ensures LeavesReachable(c, context, SMOOTH, events)
  {
    hide Inv, FlowWalk, HasSpine, RunOf, Reachable, ValidConfig, AgentsAndJudges, EscapesAt;
    var q := p + [""];
    WalkOut(c.flow, p);
    events := RunAlong(c, context, q);
    assert q[..|p| + 1] == q;
    assert Entered(RunOf(c, context, SMOOTH, events).ledger)[|p|] == "";
  }

  lemma WalkOut(f: Flow, p: seq<NodeId>)
    requires p != [] && FlowWalk(f, p) && "" !in p && EscapesAt(f, p[|p| - 1])
    ensures var q := p + [""];
            FlowWalk(f, q) && forall i :: 0 < i < |q| && q[i] == "" ==> f.nodes[q[i - 1]].next == Some("")
  {
    hide IsSuccessor;
    var q := p + [""];
    forall i | 0 <= i < |q| - 1 ensures FlowStep(f, q, i) {
      if i + 1 < |p| { WalkEdge(f, p, i); }
    }
  }

  /** The front of a walk up to its first unreachable node is an escape walk. */
  lemma {:induction false} FirstEscape(c: Config, p: seq<NodeId>, i: nat) returns (q: seq<NodeId>)
    requires FlowWalk(c.flow, p) && i < |p| <= c.settings.maxTotalNodes + 1
    requires !Reachable(c.flow, c.flow.start, p[i])
    ensures EscapeWalk(c, q)
    decreases i
  {
    hide Reachable;
    StartReachable(c.flow);
    if j: nat :| j < i && !Reachable(c.flow, c.flow.start, p[j]) {
      q := FirstEscape(c, p, j);
    } else {
      q := p[..i];
      var a, b := p[i - 1], p[i];
      WalkEdge(c.flow, p, i - 1);
      FlowEdgeIsEdgeIff(c.flow, a, b);
      if Edge(c.flow, a, b) { ReachStep(c.flow, c.flow.start, a, b); }
      forall k | 0 <= k < |q| - 1 ensures FlowStep(c.flow, q, k) {
        WalkEdge(c.flow, p, k);
      }
    }
  }

  lemma {:induction false} IdleRun(c: Config, u: Unit, events: seq<Event>)
    requires ValidConfig(c) && Inv(c, u) && NotStarted(u)
    ensures NotStarted(Run(c, u, events))
    decreases |events|
  {
    if events != [] {
      ApplyKeeps(c, u, events[0]);
      IdleApply(c, u, events[0]);
      hide ValidConfig, Inv, Apply, NotStarted;
      IdleRun(c, Apply(c, u, events[0]), events[1..]);
    }
  }

  lemma IdleApply(c: Config, u: Unit, e: Event)
    requires NotStarted(u)
    ensures NotStarted(Apply(c, u, e))
  {
  }

  /** A flow whose spine has no end enters no node. */
  lemma NoSpineNoRun(c: Config, context: string, start: Foreign, events: seq<Event>)
    requires ValidConfig(c) && !HasSpine(c.flow)
    ensures Entered(RunOf(c, context, start, events).ledger) == []
  {
    BeginKeeps(c, context, start);
    StartInside(c.flow);
    IdleRun(c, Begin(c, FRESH_UNIT, context, start), events);
    hide Inv, HasSpine, Run;
  }

  /**
   Over agent and judge nodes some run leaves the reachable nodes exactly when the flow
   starts at all and some walk within the node cap ends at an escaping node.
   */
  lemma LeavesReachableIff(c: Config)
    requires ValidConfig(c) && AgentsAndJudges(c.flow)
    ensures (exists context, start, events :: LeavesReachable(c, context, start, events)) <==>
            HasSpine(c.flow) && exists p :: EscapeWalk(c, p)
  {
    hide HasSpine, EscapeWalk, ValidConfig, AgentsAndJudges, RunOf, Reachable;
    if HasSpine(c.flow) && exists p :: EscapeWalk(c, p) {
      var p :| EscapeWalk(c, p);
      var events := EscapeRun(c, "", p);
      assert LeavesReachable(c, "", SMOOTH, events);
    }
    if context, start, events :| LeavesReachable(c, context, start, events) {
      var p := Entered(RunOf(c, context, start, events).ledger);
      var i :| 0 <= i < |p| && !Reachable(c.flow, c.flow.start, p[i]);
      EveryRunAudited(c, context, start, events);
      EnteredIsWalk(c, RunOf(c, context, start, events).ledger);
      if !HasSpine(c.flow) { NoSpineNoRun(c, context, start, events); }
      var q := FirstEscape(c, p, i);
    }
  }
}
