/**
 The offline run: the mock client's default replies drive a branch-free flow of
 agent and judge nodes along its spine, to completion or to the node cap.
 */
module WorkflowMockRun {
  import opened Common
  import opened StateMachine
  import opened Contract
  import opened Workflow
  import opened WorkflowRuns

  /** The mock reviewer advances to the first successor (here there is at most one), or to the end. */
  function MockVerdict(id: NodeId, n: Node): Verdict {
    var target := if Successors(n) == [] then None else Some(Successors(n)[0]);
    Verdict(id, Proceed, AdvanceNode, None, target, None, None, 0.9, "mock advance", [])
  }

  /** Only agent and judge nodes, and no branches. */
  ghost predicate PlainFlow(f: Flow) {
    forall id :: id in f.nodes ==> f.nodes[id].branches == [] && f.nodes[id].kind in {Agent, Judge}
  }

  lemma PlainSuccessors(n: Node)
    requires n.branches == []
    ensures Successors(n) == if n.next.Some? && n.next.value != "" then [n.next.value] else []
  {
  }

  /** What a poll sees under the default replies; every foreign call succeeds and no verify fails. */
  ghost function MockPoll(c: Config, u: Unit, report: string, key: string): Event
    requires u.node in c.flow.nodes
  {
    var verdict := MockVerdict(u.node, c.flow.nodes[u.node]);
    Poll(Observation(false, false, AgentDone(Some(report)), JudgeReplied(key, Shaped(verdict)), Undecided),
         Foreign(true, true, false))
  }

  /** Waiting, undisturbed, at the node with index `k` of the spine `p`. */
  ghost predicate WaitingAt(c: Config, u: Unit, p: seq<NodeId>, k: nat)
    requires k < |p| && p[k] in c.flow.nodes
  {
    && Inv(c, u) && u.state == Running && !u.paused
    && u.node == p[k] && u.nodeCount == k + 1 && u.rejudge == None
    && u.phase == (if c.flow.nodes[p[k]].kind == Agent then AgentWait else JudgeWait)
    && (u.phase == JudgeWait ==> u.lastJudged == None) && !u.verifyFailed
    && Entered(u.ledger) == p[..k + 1]
  }

  /** Entering the next spine node: a wait there, or the node cap. */
  ghost predicate ArrivedAt(c: Config, v: Unit, p: seq<NodeId>, k: nat)
    requires k < |p| && p[k] in c.flow.nodes
  {
    && v.node == p[k]
    && Entered(v.ledger) == p[..k + 1]
    && if k + 1 <= c.settings.maxTotalNodes
       then
         && v.state == Running && !v.raised && !v.paused && v.nodeCount == k + 1 && v.rejudge == None
         && v.phase == (if c.flow.nodes[p[k]].kind == Agent then AgentWait else JudgeWait)
         && (v.phase == JudgeWait ==> v.lastJudged == None) && !v.verifyFailed
       else !v.raised && v.state == Aborted && v.result == Some(RunResult(Blocked, p[k]))
  }

  lemma EnterPlain(c: Config, u: Unit, p: seq<NodeId>, k: nat)
    requires k < |p| && p[k] in c.flow.nodes && c.flow.nodes[p[k]].kind in {Agent, Judge}
    requires u.state == Running && !u.raised && !u.paused && u.rejudge == None && !u.verifyFailed
    requires u.nodeCount == k && Entered(u.ledger) == p[..k]
    ensures ArrivedAt(c, EnterNode(c, u, p[k], Foreign(true, true, false)), p, k)
    ensures !EnterNode(c, u, p[k], Foreign(true, true, false)).raised
  {
    hide SuccessorSet, EnterDeterministic;
    TakeOneMore(p, k);
    var here := Arrive(u, p[k]);
    assert Entered(here.ledger) == p[..k + 1];
  }

  /** Leaving spine node `k`: complete at the last one, otherwise arrive at the next. */
  lemma AdvancePlain(c: Config, u: Unit, p: seq<NodeId>, k: nat, target: Option<NodeId>)
    requires PlainFlow(c.flow) && IsSpine(c.flow, p) && k < |p|
    requires u.state == Running && !u.raised && !u.paused && u.rejudge == None && !u.verifyFailed
    requires u.node == p[k] && u.nodeCount == k + 1 && Entered(u.ledger) == p[..k + 1]
    requires target == None || target == c.flow.nodes[p[k]].next
    ensures var v := Advance(c, u, target, Foreign(true, true, false));
            !v.raised &&
            if k == |p| - 1
            then v.state == Done && v.result == Some(RunResult(Complete, p[k])) && v.ledger == u.ledger
            else ArrivedAt(c, v, p, k + 1)
  {
    hide EnterNode, ArrivedAt;
    if k < |p| - 1 {
      assert c.flow.nodes[p[k]].next == Some(p[k + 1]);
      var leaving := Log(u, Transition(u.node, p[k + 1])).(phase := NoPhase);
      EnterPlain(c, leaving, p, k + 1);
    }
  }

  /** The mock verdict passes the gate and asks for the next spine node, or for the end. */
  lemma MockVerdictAccepted(c: Config, u: Unit)
    requires PlainFlow(c.flow) && AtWait(c, u, JudgeWait) && !u.verifyFailed
    ensures var n := c.flow.nodes[u.node];
            var v := MockVerdict(u.node, n);
            && ParseReply(Shaped(v), u.node, u.validTargets, u.verifyFailed) == Accepted(v)
            && v.action == AdvanceNode
            && (v.nextState == None || v.nextState == n.next)
            && (v.nextState == None ==> u.validTargets == {})
            && (v.nextState.Some? ==> v.nextState.value in u.validTargets)
  {
    hide Audited, LastEntered, CountEntered, VerifyStanding, ParseReply;
    var n := c.flow.nodes[u.node];
    PlainSuccessors(n);
    var v := MockVerdict(u.node, n);
    assert MayAdvance(v, u.node, u.validTargets);
    AdvanceAcceptedIff(Shaped(v), u.node, u.validTargets, false);
    AcceptedVerdict(Shaped(v), u.node, u.validTargets, false);
  }

  /** After the poll at spine node `k`: complete if it was the last, otherwise arrived at the next. */
  ghost predicate Followed(c: Config, v: Unit, p: seq<NodeId>, k: nat)
    requires IsSpine(c.flow, p) && k < |p|
  {
    && !v.raised
    && if k == |p| - 1
       then v.state == Done && v.result == Some(RunResult(Complete, p[k])) && Entered(v.ledger) == p
       else ArrivedAt(c, v, p, k + 1)
  }

  lemma MockAgentStep(c: Config, u: Unit, p: seq<NodeId>, k: nat, report: string)
    requires ValidConfig(c) && PlainFlow(c.flow) && IsSpine(c.flow, p) && k < |p| && WaitingAt(c, u, p, k)
    requires c.flow.nodes[u.node].kind == Agent
    ensures Followed(c, StepAgent(c, u, AgentDone(Some(report)), Foreign(true, true, false)), p, k)
  {
    hide Live, Advance, IsSpine;
    var told := Log(u, NodeDone(u.node)).(report := Some(report), env := u.env.(report := report));
    assert p[..|p|] == p;
    AdvancePlain(c, told, p, k, None);
  }

  lemma MockJudgeStep(c: Config, u: Unit, p: seq<NodeId>, k: nat, key: string)
    requires ValidConfig(c) && PlainFlow(c.flow) && IsSpine(c.flow, p) && k < |p| && WaitingAt(c, u, p, k)
    requires c.flow.nodes[u.node].kind == Judge && AtWait(c, u, JudgeWait)
    ensures var reply := Shaped(MockVerdict(u.node, c.flow.nodes[u.node]));
            Followed(c, StepJudge(c, u, JudgeReplied(key, reply), Foreign(true, true, false)), p, k)
  {
    hide Live, Advance, ParseReply, PhaseOk, ArrivedAt, Audited, LastEntered, CountEntered, MayAdvance, MockVerdict;
    var v := MockVerdict(u.node, c.flow.nodes[u.node]);
    MockVerdictAccepted(c, u);
    var going := Log(Log(u, ReviewerVerdict(v)), AdvanceTo(v.nextState)).(phase := NoPhase, lastJudged := Some(key));
    assert p[..|p|] == p;
    AdvancePlain(c, going, p, k, v.nextState);
  }

  lemma MockStep(c: Config, u: Unit, p: seq<NodeId>, k: nat, report: string, key: string)
    requires ValidConfig(c) && PlainFlow(c.flow) && IsSpine(c.flow, p) && k < |p| && WaitingAt(c, u, p, k)
    ensures CanStep(c, u)
    ensures Inv(c, Apply(c, u, MockPoll(c, u, report, key)))
    ensures Followed(c, Apply(c, u, MockPoll(c, u, report, key)), p, k)
  {
    ApplyKeeps(c, u, MockPoll(c, u, report, key));
    hide IsSpine, ArrivedAt, Entered, StepAgent, StepJudge, MockVerdict, Audited, LastEntered, CountEntered, VerifyStanding;
    if c.flow.nodes[u.node].kind == Agent {
      MockAgentStep(c, u, p, k, report);
    } else {
      MockJudgeStep(c, u, p, k, key);
    }
  }

  ghost function MockNext(c: Config, u: Unit, report: string, key: string): (r: Unit)
    requires ValidConfig(c) && Inv(c, u)
    ensures Inv(c, r)
  {
    ApplyKeeps(c, u, Stop);
    if u.state != Running then u
    else
      ApplyKeeps(c, u, MockPoll(c, u, report, key));
      Apply(c, u, MockPoll(c, u, report, key))
  }

  /** `k` polls of default replies, with whatever report texts and message ids. */
  ghost function MockRun(c: Config, u: Unit, k: nat, reports: seq<string>, keys: seq<string>): (r: Unit)
    requires ValidConfig(c) && Inv(c, u) && k <= |reports| && k <= |keys|
    ensures Inv(c, r)
  {
    if k == 0 then u else MockNext(c, MockRun(c, u, k - 1, reports, keys), reports[k - 1], keys[k - 1])
  }

  /** Where the run stands after `k` polls. */
  ghost predicate MockProgress(c: Config, v: Unit, p: seq<NodeId>, k: nat)
    requires IsSpine(c.flow, p)
  {
    if k >= |p| && |p| <= c.settings.maxTotalNodes then
      v.state == Done && v.result == Some(RunResult(Complete, p[|p| - 1])) && Entered(v.ledger) == p
    else if k >= c.settings.maxTotalNodes then
      c.settings.maxTotalNodes < |p| && ArrivedAt(c, v, p, c.settings.maxTotalNodes)
    else k < |p| && WaitingAt(c, v, p, k)
  }

  lemma MockBegins(c: Config, context: string, p: seq<NodeId>)
    requires ValidConfig(c) && PlainFlow(c.flow) && IsSpine(c.flow, p)
    ensures var u := Begin(c, FRESH_UNIT, context, Foreign(true, true, false));
            Inv(c, u) && WaitingAt(c, u, p, 0)
  {
    BeginKeeps(c, context, Foreign(true, true, false));
    var u := FRESH_UNIT.(env := RunEnv(context, "", true, ""), node := c.flow.start, state := Running, nodeCount := 0);
    assert p[..0] == [];
    assert HasSpine(c.flow);
    hide EnterNode, Inv;
    EnterPlain(c, u, p, 0);
  }

  lemma MockProgressStep(c: Config, v: Unit, p: seq<NodeId>, k: nat, report: string, key: string)
    requires ValidConfig(c) && PlainFlow(c.flow) && IsSpine(c.flow, p)
    requires Inv(c, v) && MockProgress(c, v, p, k)
    ensures MockProgress(c, MockNext(c, v, report, key), p, k + 1)
  {
    hide MockPoll, Apply, Entered, Live, Inv;
    if k < |p| && k < c.settings.maxTotalNodes {
      MockStep(c, v, p, k, report, key);
    }
  }

  lemma {:induction false} MockAdvances(c: Config, p: seq<NodeId>, u: Unit, k: nat,
                                        reports: seq<string>, keys: seq<string>)
    requires ValidConfig(c) && PlainFlow(c.flow) && IsSpine(c.flow, p) && k <= |reports| && k <= |keys|
    requires Inv(c, u) && WaitingAt(c, u, p, 0)
    ensures MockProgress(c, MockRun(c, u, k, reports, keys), p, k)
  {
    if k > 0 {
      hide MockProgress, Inv, MockNext, WaitingAt, PlainFlow, ValidConfig, IsSpine;
      MockAdvances(c, p, u, k - 1, reports, keys);
      MockProgressStep(c, MockRun(c, u, k - 1, reports, keys), p, k - 1, reports[k - 1], keys[k - 1]);
    }
  }

  /**
   With default replies the run enters exactly the spine in order and completes at
   its last node when the spine fits under the cap; otherwise it ends blocked at
   the first node past the cap.
   */
  lemma CompletingRun(c: Config, context: string, p: seq<NodeId>, reports: seq<string>, keys: seq<string>)
    requires ValidConfig(c) && PlainFlow(c.flow) && IsSpine(c.flow, p)
    requires |p| <= |reports| && |p| <= |keys|
    ensures var cap := c.settings.maxTotalNodes;
            var u := Begin(c, FRESH_UNIT, context, Foreign(true, true, false));
            && Inv(c, u)
            && var v := MockRun(c, u, |p|, reports, keys);
            if |p| <= cap
            then v.result == Some(RunResult(Complete, p[|p| - 1])) && Entered(v.ledger) == p
            else v.result == Some(RunResult(Blocked, p[cap])) && Entered(v.ledger) == p[..cap + 1]
  {
    hide WaitingAt, Inv, Begin, MockRun, ValidConfig, PlainFlow;
    MockBegins(c, context, p);
    MockAdvances(c, p, Begin(c, FRESH_UNIT, context, Foreign(true, true, false)), |p|, reports, keys);
  }
}
