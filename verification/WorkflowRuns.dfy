/**
 What every run of the workflow keeps: the invariant over the unit and its
 ledger, and what an auditor can read off the ledger of any run.
 */
module WorkflowRuns {
  import opened Common
  import opened StateMachine
  import opened Contract
  import opened Workflow
  import B = Branching
  import Conditions
  import Handoff

  // ---- reading the ledger -----------------------------------------------

  /** The nodes entered so far, in order. */
  ghost function Entered(l: Ledger): seq<NodeId> {
    match l
    case NothingYet => []
    case Then(before, NodeEnter(n)) => Entered(before) + [n]
    case Then(before, _) => Entered(before)
  }

  ghost function CountEntered(l: Ledger): nat {
    match l
    case NothingYet => 0
    case Then(before, NodeEnter(_)) => CountEntered(before) + 1
    case Then(before, _) => CountEntered(before)
  }

  ghost function LastEntered(l: Ledger): Option<NodeId> {
    match l
    case NothingYet => None
    case Then(_, NodeEnter(n)) => Some(n)
    case Then(before, _) => LastEntered(before)
  }

  /** The verify result that stands since the node was entered or reworked: Some(true) is a failure. */
  ghost function VerifyStanding(l: Ledger): Option<bool> {
    match l
    case NothingYet => None
    case Then(_, VerifyResult(_, failed)) => Some(failed)
    case Then(_, NodeEnter(_)) => None
    case Then(_, NodeDone(_)) => None
    case Then(before, _) => VerifyStanding(before)
  }

  ghost predicate RunsVerify(c: Config, n: Node) {
    n.verify && c.settings.verifyEnabled
  }

  /** The edges a run may take: `next` as it stands, and from a node that is no agent the successor edges. */
  ghost predicate FlowEdge(f: Flow, a: NodeId, b: NodeId) {
    a in f.nodes && (f.nodes[a].next == Some(b) || (f.nodes[a].kind != Agent && IsSuccessor(f.nodes[a], b)))
  }

  /** The last entry asks the human at `a`, on an accepted verdict of this node that wants to. */
  ghost predicate AskedHuman(l: Ledger, a: NodeId) {
    && l.Then? && l.last == HumanAsk(a)
    && l.before.Then? && l.before.last.ReviewerVerdict? && MayAskHuman(l.before.last.verdict, a)
  }

  /**
   What allows the run to leave judge node `a` for `to` (None: to complete there).
   Either the last two entries are a verdict that may advance and its advance, with
   no failed verify standing; or a human who had just been asked said yes; or the human
   wait timed out and the settings say to go on.
   */
  ghost predicate Licensed(c: Config, l: Ledger, a: NodeId, to: Option<NodeId>)
    requires a in c.flow.nodes
  {
    var n := c.flow.nodes[a];
    l.Then? &&
    match l.last
    case AdvanceTo(t) =>
      && l.before.Then? && l.before.last.ReviewerVerdict?
      && MayAdvance(l.before.last.verdict, a, SuccessorSet(n))
      && t == l.before.last.verdict.nextState
      && to == (if t.Some? then t else n.next)
      && VerifyStanding(l) == (if RunsVerify(c, n) then Some(false) else None)
    case HumanDecision(at, yes) => at == a && yes && to == n.next && AskedHuman(l.before, a)
    case HumanTimeout(at) =>
      at == a && c.settings.humanDefault == AdvanceOnTimeout && to == n.next && AskedHuman(l.before, a)
    case _ => false
  }

  ghost predicate EntryOk(c: Config, before: Ledger, e: Entry) {
    match e
    case NodeEnter(b) =>
      b in c.flow.nodes &&
      (match LastEntered(before)
       case None => b == c.flow.start
       case Some(a) => FlowEdge(c.flow, a, b) && before.Then? && before.last == Transition(a, b))
    case Transition(a, b) =>
      && LastEntered(before) == Some(a) && a in c.flow.nodes
      && FlowEdge(c.flow, a, b)
      && (c.flow.nodes[a].kind == Judge ==> Licensed(c, before, a, Some(b)))
    case VerifyResult(n, _) => LastEntered(before) == Some(n)
    case _ => true
  }

  /** Every entry of the ledger is in order with respect to the entries before it. */
  ghost predicate Audited(c: Config, l: Ledger) {
    match l
    case NothingYet => true
    case Then(before, e) => Audited(c, before) && EntryOk(c, before, e)
  }

  // ---- the invariant ----------------------------------------------------

  ghost predicate AtNode(c: Config, u: Unit) {
    && u.state == Running && u.result == None
    && u.node in c.flow.nodes
    && 1 <= u.nodeCount <= c.settings.maxTotalNodes
    && u.dialogueRounds <= c.settings.maxDialogueRounds
    && Audited(c, u.ledger)
    && LastEntered(u.ledger) == Some(u.node)
    && CountEntered(u.ledger) == u.nodeCount
  }

  ghost predicate PhaseOk(c: Config, u: Unit)
    requires u.node in c.flow.nodes
  {
    var n := c.flow.nodes[u.node];
    match u.phase
    case NoPhase => u.rejudge == None
    case AgentWait =>
      u.hasSession && if u.rejudge == None then n.kind == Agent else u.rejudge == Some(u.node) && n.kind == Judge
    case JudgeWait =>
      && u.hasSession && u.rejudge == None && n.kind == Judge
      && u.validTargets == SuccessorSet(n)
      && u.judgeAttempts <= c.settings.maxReviewerRetries
      && VerifyStanding(u.ledger) == (if RunsVerify(c, n) then Some(u.verifyFailed) else None)
      && (u.verifyFailed ==> RunsVerify(c, n))
    case HumanWait => u.rejudge == None && n.kind == Judge && AskedHuman(u.ledger, u.node)
  }

  ghost predicate HasEnded(c: Config, u: Unit) {
    && u.state in {Done, Aborted, Failed}
    && u.result.Some? && u.result.value.node == u.node
    && u.nodeCount <= c.settings.maxTotalNodes + 1
    && Audited(c, u.ledger)
    && CountEntered(u.ledger) == u.nodeCount
    && (u.result.value.outcome == Complete ==> CompletedInOrder(c, u))
  }

  /** A run completes only at a node without `next`; at a judge node only with a licence. */
  ghost predicate CompletedInOrder(c: Config, u: Unit) {
    && u.state == Done
    && u.node in c.flow.nodes && LastEntered(u.ledger) == Some(u.node)
    && c.flow.nodes[u.node].next == None
    && (c.flow.nodes[u.node].kind == Judge ==> Licensed(c, u.ledger, u.node, None))
  }

  ghost predicate NotStarted(u: Unit) {
    && u.state == Idle && u.result == None && u.ledger == NothingYet && u.nodeCount == 0
    && u.rejudge == None && u.phase == NoPhase && !u.hasSession
  }

  /** A started unit, but for an exception still on its way out. */
  ghost predicate Live(c: Config, u: Unit) {
    (AtNode(c, u) && PhaseOk(c, u)) || HasEnded(c, u)
  }

  ghost predicate Inv(c: Config, u: Unit) {
    !u.raised && (NotStarted(u) || Live(c, u))
  }

  // ---- each routine keeps it --------------------------------------------

  lemma EnterJudgeKeeps(c: Config, u: Unit, w: Foreign)
    requires AtNode(c, u) && c.flow.nodes[u.node].kind == Judge && u.rejudge == None && !u.raised
    requires VerifyStanding(u.ledger) == None
    ensures Live(c, EnterJudge(c, u, u.node, w))
  {
  }

  /** Ready to leave the node: no wait left over that would outlive it. */
  ghost predicate Leaving(c: Config, u: Unit) {
    && AtNode(c, u) && !u.raised && u.rejudge == None
    && (u.phase == NoPhase || (u.phase == AgentWait && u.hasSession && c.flow.nodes[u.node].kind == Agent))
  }

  /** About to enter `id`, which the ledger has announced. */
  ghost predicate Entering(c: Config, u: Unit, id: NodeId) {
    && u.state == Running && u.result == None && !u.raised && u.rejudge == None && u.phase == NoPhase
    && id in c.flow.nodes
    && u.nodeCount <= c.settings.maxTotalNodes
    && CountEntered(u.ledger) == u.nodeCount
    && Audited(c, Then(u.ledger, NodeEnter(id)))
  }

  lemma {:induction false} EnterNodeKeeps(c: Config, u: Unit, id: NodeId, w: Foreign)
    requires ValidConfig(c) && Entering(c, u, id)
    ensures Live(c, EnterNode(c, u, id, w))
    decreases NodesLeft(c, u), 0
  {
    hide Licensed, FlowEdge, Valid, EnterDeterministic;
    var here := Arrive(u, id);
    if here.nodeCount <= c.settings.maxTotalNodes {
      match c.flow.nodes[id].kind {
        case Agent =>
        case Judge => EnterJudgeKeeps(c, here, w);
        case _ => DeterministicKeeps(c, here, w);
      }
    }
  }

  lemma GotoIsEdge(c: Config, a: NodeId, env: B.Env)
    requires a in c.flow.nodes && c.flow.nodes[a].kind != Agent
    ensures var choice := Conditions.ResolveBranch(c.flow.nodes[a].branches, env, c.nu);
            choice.Goto? ==> FlowEdge(c.flow, a, choice.target)
  {
    hide Conditions.ResolveBranch;
    Conditions.GotoIsBranch(c.flow.nodes[a].branches, env, c.nu);
  }

  lemma NextIsEdge(f: Flow, a: NodeId)
    requires a in f.nodes
    ensures f.nodes[a].next.Some? ==> FlowEdge(f, a, f.nodes[a].next.value)
  {
  }

  /** A decision about the node of `u`: an ended run, or `u` with its node left alone and an edge to go on along. */
  ghost predicate DecisionOk(c: Config, u: Unit, d: Decision)
    requires u.node in c.flow.nodes
  {
    match d
    case Ended(v) => Live(c, v)
    case Onward(v, target) =>
      && Leaving(c, v) && v.node == u.node && NodesLeft(c, v) == NodesLeft(c, u)
      && (target.Some? ==> FlowEdge(c.flow, v.node, target.value))
  }

  lemma CheckedKeeps(c: Config, u: Unit, target: Option<NodeId>)
    requires Leaving(c, u) && (target.Some? ==> FlowEdge(c.flow, u.node, target.value))
    ensures DecisionOk(c, u, Checked(c, u, target))
  {
    hide FlowEdge;
    EndingKeeps(c, u, Failed, Error);
    hide Audited, LastEntered, CountEntered, VerifyStanding;
  }

  lemma EndingKeeps(c: Config, u: Unit, s: RunState, o: Outcome)
    requires Leaving(c, u) && s in {Aborted, Failed} && o != Complete
    ensures Live(c, Finish(u, s, o))
  {
    hide FlowEdge, Audited, LastEntered, CountEntered, VerifyStanding;
  }

  /** The unit behind a tool that ran. */
  function Ran(u: Unit, ok: bool, message: string): Unit {
    Log(u.(env := u.env.(ok := ok, message := message)), ToolDone(u.node, ok))
  }

  lemma RanLeaves(c: Config, u: Unit, ok: bool, message: string)
    requires Leaving(c, u) && u.phase == NoPhase
    ensures var after := Ran(u, ok, message);
            Leaving(c, after) && after.node == u.node && NodesLeft(c, after) == NodesLeft(c, u)
  {
    hide Audited, LastEntered, CountEntered, FlowEdge, VerifyStanding;
    AuditedStep(c, u.ledger, ToolDone(u.node, ok));
  }

  lemma ToolDecides(c: Config, u: Unit)
    requires Leaving(c, u) && u.phase == NoPhase && c.flow.nodes[u.node].kind == Tool
    ensures DecisionOk(c, u, Decide(c, u))
  {
    hide Leaving, Live, FlowEdge, NodesLeft, Checked, Conditions.ResolveBranch, Finish, Log;
    LeavingNode(c, u);
    var n := c.flow.nodes[u.node];
    match c.tool(n, u.env.context, u.env.report) {
      case UnknownTool => EndingKeeps(c, u, Failed, Error);
      case ToolRan(ok, message) =>
        var after := Ran(u, ok, message);
        RanLeaves(c, u, ok, message);
        NextIsEdge(c.flow, u.node);
        GotoIsEdge(c, u.node, Variables(after.env));
        var choice := Conditions.ResolveBranch(n.branches, Variables(after.env), c.nu);
        CheckedKeeps(c, after, n.next);
        if choice.Goto? { CheckedKeeps(c, after, Some(choice.target)); }
    }
  }

  lemma LeavingNode(c: Config, u: Unit)
    requires Leaving(c, u)
    ensures u.node in c.flow.nodes
  {
    hide Audited;
  }

  lemma RouteDecides(c: Config, u: Unit)
    requires Leaving(c, u) && c.flow.nodes[u.node].kind in {Route, Gate}
    ensures DecisionOk(c, u, Decide(c, u))
  {
    hide Leaving, Live, FlowEdge, NodesLeft, Checked, Conditions.ResolveBranch, Finish;
    LeavingNode(c, u);
    var n := c.flow.nodes[u.node];
    EndingKeeps(c, u, Failed, Error);
    EndingKeeps(c, u, Aborted, Blocked);
    NextIsEdge(c.flow, u.node);
    GotoIsEdge(c, u.node, Variables(u.env));
    var choice := Conditions.ResolveBranch(n.branches, Variables(u.env), c.nu);
    CheckedKeeps(c, u, n.next);
    if choice.Goto? { CheckedKeeps(c, u, Some(choice.target)); }
  }

  lemma DecideKeeps(c: Config, u: Unit)
    requires Leaving(c, u) && u.phase == NoPhase && c.flow.nodes[u.node].kind !in {Agent, Judge}
    ensures DecisionOk(c, u, Decide(c, u))
  {
    hide Leaving, Decide, DecisionOk;
    LeavingNode(c, u);
    if c.flow.nodes[u.node].kind == Tool { ToolDecides(c, u); } else { RouteDecides(c, u); }
  }

  /** A decision leaves the unit as it is, but for an ended run and the entry of a tool that ran. */
  ghost predicate DecisionFrames(u: Unit, d: Decision) {
    var v := d.unit;
    && v.phase == u.phase && v.node == u.node && v.nodeCount == u.nodeCount && v.dialogueRounds == u.dialogueRounds
    && v.env.context == u.env.context && v.env.report == u.env.report
    && (v.ledger == u.ledger || (v.ledger.Then? && v.ledger.before == u.ledger && v.ledger.last.ToolDone?))
    && if d.Onward? then v.state == u.state && v.result == u.result
       else v.state != Running && v.result.Some? && v.result.value.outcome in {Error, Blocked}
  }

  lemma CheckedFrames(c: Config, u: Unit, v: Unit, target: Option<NodeId>)
    requires DecisionFrames(u, Onward(v, None))
    ensures DecisionFrames(u, Checked(c, v, target))
  {
  }

  lemma DecideFrames(c: Config, u: Unit)
    requires u.node in c.flow.nodes
    ensures DecisionFrames(u, Decide(c, u))
  {
    hide Conditions.ResolveBranch, Checked, DecisionFrames;
    var n := c.flow.nodes[u.node];
    EndingFrames(u);
    if n.kind == Tool {
      var t := c.tool(n, u.env.context, u.env.report);
      if t.ToolRan? {
        var after := Ran(u, t.ok, t.message);
        RanFrames(u, t.ok, t.message);
        var choice := Conditions.ResolveBranch(n.branches, Variables(after.env), c.nu);
        CheckedFrames(c, u, after, n.next);
        if choice.Goto? { CheckedFrames(c, u, after, Some(choice.target)); }
      }
    } else {
      var choice := Conditions.ResolveBranch(n.branches, Variables(u.env), c.nu);
      CheckedFrames(c, u, u, n.next);
      if choice.Goto? { CheckedFrames(c, u, u, Some(choice.target)); }
    }
  }

  lemma EndingFrames(u: Unit)
    ensures DecisionFrames(u, Ended(Finish(u, Failed, Error))) && DecisionFrames(u, Ended(Finish(u, Aborted, Blocked)))
    ensures DecisionFrames(u, Onward(u, None))
  {
  }

  lemma RanFrames(u: Unit, ok: bool, message: string)
    ensures DecisionFrames(u, Onward(Ran(u, ok, message), None))
  {
  }

  /** What one more entry changes when it is in order and enters no node. */
  lemma AuditedStep(c: Config, l: Ledger, e: Entry)
    requires Audited(c, l) && EntryOk(c, l, e)
    ensures Audited(c, Then(l, e))
    ensures !e.NodeEnter? ==> LastEntered(Then(l, e)) == LastEntered(l) && CountEntered(Then(l, e)) == CountEntered(l)
    ensures !e.NodeEnter? && !e.NodeDone? && !e.VerifyResult? ==>
              VerifyStanding(Then(l, e)) == VerifyStanding(l)
  {
  }

  lemma {:induction false} DeterministicKeeps(c: Config, u: Unit, w: Foreign)
    requires ValidConfig(c) && Leaving(c, u) && u.phase == NoPhase && c.flow.nodes[u.node].kind !in {Agent, Judge}
    ensures Live(c, EnterDeterministic(c, u, w))
    decreases NodesLeft(c, u), 2
  {
    hide Decide, FlowEdge, Live, Audited;
    DecideKeeps(c, u);
    match Decide(c, u) {
      case Ended(v) =>
      case Onward(v, target) => AdvanceKeeps(c, v, target, w);
    }
  }

  lemma {:induction false} AdvanceKeeps(c: Config, u: Unit, target: Option<NodeId>, w: Foreign)
    requires ValidConfig(c) && Leaving(c, u)
    requires target.Some? ==> FlowEdge(c.flow, u.node, target.value)
    requires c.flow.nodes[u.node].kind == Judge ==>
               Licensed(c, u.ledger, u.node, if target.Some? then target else c.flow.nodes[u.node].next)
    ensures Live(c, Advance(c, u, target, w))
    decreases NodesLeft(c, u), 1
  {
    hide Licensed, EnterNode, Valid, IsSuccessor, VerifyStanding;
    var onto := if target.Some? then target else c.flow.nodes[u.node].next;
    if onto.Some? {
      var leaving := Log(u, Transition(u.node, onto.value));
      AuditedStep(c, u.ledger, Transition(u.node, onto.value));
      if onto.value in c.flow.nodes {
        AuditedStep(c, leaving.ledger, NodeEnter(onto.value));
        EnterNodeKeeps(c, leaving.(phase := NoPhase), onto.value, w);
      }
    }
  }

  // ---- polls and signals ------------------------------------------------

  lemma ReworkKeeps(c: Config, u: Unit, text: string, entry: Entry, w: Foreign)
    requires AtNode(c, u) && !u.raised && c.flow.nodes[u.node].kind == Judge
    requires entry.ReviewerInquiry? || entry.HumanRework?
    ensures Live(c, Rework(c, u, text, entry, w))
  {
    hide Licensed, ReworkRound, Audited, LastEntered, CountEntered, VerifyStanding;
    AuditedStep(c, u.ledger, entry);
    var asked := u.(dialogueRounds := u.dialogueRounds + 1);
    if asked.dialogueRounds <= c.settings.maxDialogueRounds {
      ReworkRoundKeeps(c, NoteRound(asked, text, entry), w);
    }
  }

  lemma ReworkRoundKeeps(c: Config, u: Unit, w: Foreign)
    requires AtNode(c, u) && !u.raised && c.flow.nodes[u.node].kind == Judge
    ensures Live(c, ReworkRound(c, u, w))
  {
    hide Handoff.DetectLoop, Audited, LastEntered, CountEntered, VerifyStanding;
  }

  ghost predicate AtWait(c: Config, u: Unit, p: Phase) {
    AtNode(c, u) && PhaseOk(c, u) && !u.raised && u.phase == p
  }

  lemma StepAgentKeeps(c: Config, u: Unit, seen: AgentView, w: Foreign)
    requires ValidConfig(c) && AtWait(c, u, AgentWait)
    ensures Live(c, StepAgent(c, u, seen, w))
  {
    hide Licensed, Valid, EnterJudge, Advance;
    if seen.AgentDone? {
      AuditedStep(c, u.ledger, NodeDone(u.node));
      var done := Log(u, NodeDone(u.node)).(report := seen.report);
      var told := if seen.report.Some? then done.(env := done.env.(report := seen.report.value)) else done;
      if told.rejudge.Some? {
        EnterJudgeKeeps(c, told.(rejudge := None), w);
      } else {
        AdvanceKeeps(c, told, None, w);
      }
    }
  }

  /** An accepted advance carries its own licence. */
  lemma AdvanceVerdictKeeps(c: Config, u: Unit, v: Verdict, w: Foreign)
    requires ValidConfig(c) && AtWait(c, u, JudgeWait)
    requires MayAdvance(v, u.node, u.validTargets) && !u.verifyFailed
    ensures Live(c, HandleVerdict(c, u, v, w))
  {
    hide Valid, Advance, Successors, Audited, LastEntered, CountEntered, VerifyStanding;
    var heard := Log(u, ReviewerVerdict(v));
    var going := Log(heard, AdvanceTo(v.nextState)).(phase := NoPhase);
    AuditedStep(c, u.ledger, ReviewerVerdict(v));
    AuditedStep(c, heard.ledger, AdvanceTo(v.nextState));
    if v.nextState.Some? {
      assert FlowEdge(c.flow, u.node, v.nextState.value);
    }
    AdvanceKeeps(c, going, v.nextState, w);
  }

  lemma VerdictKeeps(c: Config, u: Unit, v: Verdict, w: Foreign)
    requires ValidConfig(c) && AtWait(c, u, JudgeWait)
    requires v.action == AdvanceNode ==> MayAdvance(v, u.node, u.validTargets) && !u.verifyFailed
    requires v.action == AskHuman ==> MayAskHuman(v, u.node)
    ensures Live(c, HandleVerdict(c, u, v, w))
  {
    hide *;
    if v.action == AdvanceNode {
      AdvanceVerdictKeeps(c, u, v, w);
    } else {
      RoutingVerdictKeeps(c, u, v, w);
    }
  }

  lemma RoutingVerdictKeeps(c: Config, u: Unit, v: Verdict, w: Foreign)
    requires ValidConfig(c) && AtWait(c, u, JudgeWait) && v.action != AdvanceNode
    requires v.action == AskHuman ==> MayAskHuman(v, u.node)
    ensures Live(c, HandleVerdict(c, u, v, w))
  {
    hide MayAskHuman, Valid, Rework, SuccessorSet, Licensed, Audited, LastEntered, CountEntered, VerifyStanding, Advance;
    var heard := Log(u, ReviewerVerdict(v));
    AuditedStep(c, u.ledger, ReviewerVerdict(v));
    AuditedStep(c, heard.ledger, HumanAsk(heard.node));
    if v.action == AskDeveloper {
      ReworkKeeps(c, heard, if v.messageToDeveloper.Some? then v.messageToDeveloper.value else "",
                  ReviewerInquiry(heard.node), w);
    }
  }

  lemma StepJudgeKeeps(c: Config, u: Unit, seen: JudgeView, w: Foreign)
    requires ValidConfig(c) && AtWait(c, u, JudgeWait)
    ensures Live(c, StepJudge(c, u, seen, w))
  {
    hide Licensed, Valid, Audited, ParseReply, HandleVerdict, VerifyStanding, MayAskHuman;
    if seen.JudgeReplied? && u.lastJudged != Some(seen.key) {
      var noticed := u.(lastJudged := Some(seen.key));
      if ParseReply(seen.reply, u.node, u.validTargets, u.verifyFailed).Accepted? {
        AcceptedVerdict(seen.reply, u.node, u.validTargets, u.verifyFailed);
        VerdictKeeps(c, noticed, ParseReply(seen.reply, u.node, u.validTargets, u.verifyFailed).verdict, w);
      }
    }
  }

  lemma StepHumanKeeps(c: Config, u: Unit, seen: HumanView, w: Foreign)
    requires ValidConfig(c) && AtWait(c, u, HumanWait)
    ensures Live(c, StepHuman(c, u, seen, w))
  {
    hide Valid, Advance, Rework, VerifyStanding, B.Lower, MayAskHuman;
    match seen {
      case TimedOut =>
        AuditedStep(c, u.ledger, HumanTimeout(u.node));
        var woken := Log(u, HumanTimeout(u.node)).(phase := NoPhase);
        if c.settings.humanDefault == AdvanceOnTimeout {
          AdvanceKeeps(c, woken, None, w);
        } else if c.settings.humanDefault == ReworkOnTimeout {
          ReworkKeeps(c, woken, "human confirmation timed out", HumanRework(u.node), w);
        }
      case Decided(answer, comment) =>
        var said := B.Lower(answer);
        AuditedStep(c, u.ledger, HumanDecision(u.node, said in YES_WORDS));
        var woken := Log(u, HumanDecision(u.node, said in YES_WORDS)).(phase := NoPhase);
        if said in YES_WORDS {
          AdvanceKeeps(c, woken, None, w);
        } else {
          ReworkKeeps(c, woken, if comment != "" then comment else "human answered '" + said + "'",
                      HumanRework(u.node), w);
        }
      case _ =>
    }
  }

  lemma StepKeeps(c: Config, u: Unit, seen: Observation, w: Foreign)
    requires ValidConfig(c) && Inv(c, u) && u.state == Running
    ensures CanStep(c, u) && Live(c, Step(c, u, seen, w))
  {
    hide Licensed, Audited, Valid, StepAgent, StepJudge, StepHuman, LastEntered, CountEntered, VerifyStanding;
    match u.phase {
      case AgentWait => StepAgentKeeps(c, u, seen.agent, w);
      case JudgeWait => StepJudgeKeeps(c, u, seen.judge, w);
      case HumanWait => StepHumanKeeps(c, u, seen.human, w);
      case NoPhase =>
    }
  }

  lemma CaughtKeeps(c: Config, u: Unit)
    requires Live(c, u)
    ensures Inv(c, Caught(u))
  {
  }

  /** Every event keeps the invariant: any reviewer reply, any human answer, any failure, any signal. */
  lemma ApplyKeeps(c: Config, u: Unit, e: Event)
    requires ValidConfig(c) && Inv(c, u)
    ensures u.state == Running ==> CanStep(c, u)
    ensures Inv(c, Apply(c, u, e))
  {
    hide Licensed, Audited, Valid, Step, LastEntered, CountEntered, VerifyStanding;
    if u.state == Running {
      match e {
        case Poll(seen, w) =>
          StepKeeps(c, u, seen, w);
          if !u.paused {
            CaughtKeeps(c, Step(c, u, seen, w));
          }
        case _ =>
      }
    }
  }

  // ---- runs --------------------------------------------------------------

  lemma BeginKeeps(c: Config, context: string, w: Foreign)
    requires ValidConfig(c)
    ensures Inv(c, Begin(c, FRESH_UNIT, context, w))
  {
    hide EnterNode, HasSpine, Valid;
    if HasSpine(c.flow) {
      var u := FRESH_UNIT.(env := RunEnv(context, "", true, ""), node := c.flow.start, state := Running, nodeCount := 0);
      assert c.flow.start in c.flow.nodes by { StartInside(c.flow); }
      AuditedStep(c, NothingYet, NodeEnter(c.flow.start));
      EnterNodeKeeps(c, u, c.flow.start, w);
    }
  }

  lemma StartInside(f: Flow)
    requires Valid(f)
    ensures f.start in f.nodes
  {
  }

  ghost function Run(c: Config, u: Unit, events: seq<Event>): (r: Unit)
    requires ValidConfig(c) && Inv(c, u)
    ensures Inv(c, r)
    decreases |events|
  {
    ApplyKeeps(c, u, if events == [] then Stop else events[0]);
    if events == [] then u else Run(c, Apply(c, u, events[0]), events[1..])
  }

  /** The state of a fresh unit after its start signal and the given events. */
  ghost function RunOf(c: Config, context: string, start: Foreign, events: seq<Event>): (r: Unit)
    requires ValidConfig(c)
    ensures Inv(c, r)
  {
    BeginKeeps(c, context, start);
    StartInside(c.flow);
    Run(c, Begin(c, FRESH_UNIT, context, start), events)
  }

  lemma {:induction false} RunConcat(c: Config, u: Unit, a: seq<Event>, b: seq<Event>)
    requires ValidConfig(c) && Inv(c, u)
    ensures Run(c, u, a + b) == Run(c, Run(c, u, a), b)
    decreases |a|
  {
    hide ValidConfig, Inv, Apply, CanStep;
    if a == [] {
      assert a + b == b;
    } else {
      ApplyKeeps(c, u, a[0]);
      RunConcat(c, Apply(c, u, a[0]), a[1..], b);
      assert (a + b)[1..] == a[1..] + b;
    }
  }

  /** A run is its front and one more event. */
  lemma RunSnoc(c: Config, context: string, start: Foreign, front: seq<Event>, e: Event)
    requires ValidConfig(c)
    ensures var u := RunOf(c, context, start, front);
            (u.state == Running ==> CanStep(c, u)) && RunOf(c, context, start, front + [e]) == Apply(c, u, e)
  {
    hide ValidConfig, Inv, Apply, Begin, CanStep;
    BeginKeeps(c, context, start);
    StartOf(c);
    var b := Begin(c, FRESH_UNIT, context, start);
    RunConcat(c, b, front, [e]);
    ApplyKeeps(c, Run(c, b, front), e);
    assert [e][1..] == [];
  }

  lemma StartOf(c: Config)
    requires ValidConfig(c)
    ensures c.flow.start in c.flow.nodes
  {
    StartInside(c.flow);
  }

  lemma {:induction false} CountIsEntered(l: Ledger)
    ensures CountEntered(l) == |Entered(l)|
  {
    if l.Then? { CountIsEntered(l.before); }
  }

  /** However the environment behaves, the ledger of a run is in order and the node cap holds. */
  lemma EveryRunAudited(c: Config, context: string, start: Foreign, events: seq<Event>)
    requires ValidConfig(c)
    ensures var u := RunOf(c, context, start, events);
            && Audited(c, u.ledger)
            && u.nodeCount == |Entered(u.ledger)| <= c.settings.maxTotalNodes + 1
            && (u.state == Running ==> u.nodeCount <= c.settings.maxTotalNodes)
  {
    hide RunOf, EntryOk, PhaseOk;
    var u := RunOf(c, context, start, events);
    CountIsEntered(u.ledger);
  }

  // ---- the path of a run -------------------------------------------------

  lemma {:induction false} LastIsEntered(l: Ledger)
    ensures LastEntered(l) == if Entered(l) == [] then None else Some(Entered(l)[|Entered(l)| - 1])
  {
    if l.Then? { LastIsEntered(l.before); }
  }

  ghost predicate FlowStep(f: Flow, p: seq<NodeId>, i: nat)
    requires i + 1 < |p|
  {
    FlowEdge(f, p[i], p[i + 1])
  }

  ghost predicate FlowWalk(f: Flow, p: seq<NodeId>) {
    && (p != [] ==> p[0] == f.start)
    && (forall i :: 0 <= i < |p| ==> p[i] in f.nodes)
    && forall i :: 0 <= i < |p| - 1 ==> FlowStep(f, p, i)
  }

  lemma WalkEdge(f: Flow, p: seq<NodeId>, i: nat)
    requires FlowWalk(f, p) && i + 1 < |p|
    ensures FlowEdge(f, p[i], p[i + 1])
  {
    assert FlowStep(f, p, i);
  }

  lemma {:induction false} EnteredIsWalk(c: Config, l: Ledger)
    requires Audited(c, l)
    ensures FlowWalk(c.flow, Entered(l))
  {
    if l.Then? {
      EnteredIsWalk(c, l.before);
      LastIsEntered(l.before);
      if l.last.NodeEnter? {
        var p := Entered(l.before);
        var q := Entered(l);
        assert q == p + [l.last.node];
        forall i | 0 <= i < |q| - 1 ensures FlowStep(c.flow, q, i) {
          if i + 1 < |p| { assert FlowStep(c.flow, p, i); }
        }
      }
    }
  }

  /** A node with an empty `next` and no branch to the node whose id is empty: that edge is no successor edge. */
  ghost predicate EscapesAt(f: Flow, n: NodeId) {
    n in f.nodes && f.nodes[n].next == Some("") && "" in f.nodes && !IsSuccessor(f.nodes[n], "")
  }

  lemma FlowEdgeIsEdgeIff(f: Flow, a: NodeId, b: NodeId)
    requires FlowEdge(f, a, b) && b in f.nodes
    ensures Edge(f, a, b) <==> !(b == "" && EscapesAt(f, a))
  {
  }

  /** No reachable node escapes, or the node whose id is empty is reachable anyway. */
  ghost predicate StaysInside(f: Flow) {
    Reachable(f, f.start, "") || forall n :: Reachable(f, f.start, n) ==> !EscapesAt(f, n)
  }

  lemma StartReachable(f: Flow)
    ensures Reachable(f, f.start, f.start)
  {
    assert WalkFromTo(f, [f.start], f.start, f.start);
  }

  lemma {:induction false} WalkStaysReachable(f: Flow, p: seq<NodeId>, k: nat)
    requires FlowWalk(f, p) && StaysInside(f) && k < |p|
    ensures Reachable(f, f.start, p[k])
  {
    if k == 0 {
      StartReachable(f);
    } else {
      WalkStaysReachable(f, p, k - 1);
      WalkEdge(f, p, k - 1);
      FlowEdgeIsEdgeIff(f, p[k - 1], p[k]);
      hide Reachable, EscapesAt, IsSuccessor;
      if Edge(f, p[k - 1], p[k]) { ReachStep(f, f.start, p[k - 1], p[k]); }
    }
  }

  /**
   Every run stays among the nodes reachable by successor edges, unless a reachable node
   escapes to a node that is not; without escapes its path is a walk of those edges.
   */
  lemma RunStaysReachable(c: Config, context: string, start: Foreign, events: seq<Event>)
    requires ValidConfig(c) && StaysInside(c.flow)
    ensures var p := Entered(RunOf(c, context, start, events).ledger);
            && (forall i :: 0 <= i < |p| ==> Reachable(c.flow, c.flow.start, p[i]))
            && ((forall n :: Reachable(c.flow, c.flow.start, n) ==> !EscapesAt(c.flow, n)) ==> IsWalk(c.flow, p))
  {
    hide RunOf, Audited, Inv, Reachable, IsSuccessor, Edge, EscapesAt, StaysInside;
    var u := RunOf(c, context, start, events);
    var p := Entered(u.ledger);
    EveryRunAudited(c, context, start, events);
    EnteredIsWalk(c, u.ledger);
    forall i | 0 <= i < |p| ensures Reachable(c.flow, c.flow.start, p[i]) {
      WalkStaysReachable(c.flow, p, i);
    }
    if forall n :: Reachable(c.flow, c.flow.start, n) ==> !EscapesAt(c.flow, n) {
      forall i | 0 <= i < |p| - 1 ensures StepAt(c.flow, p, i) {
        WalkEdge(c.flow, p, i);
        FlowEdgeIsEdgeIff(c.flow, p[i], p[i + 1]);
      }
    }
  }

  // ---- leaving a judge node ---------------------------------------------

  ghost predicate Within(p: Ledger, l: Ledger) {
    p == l || (l.Then? && Within(p, l.before))
  }

  lemma {:induction false} AuditedWithin(c: Config, p: Ledger, l: Ledger)
    requires Audited(c, l) && Within(p, l)
    ensures Audited(c, p)
  {
    hide EntryOk;
    if p != l { AuditedWithin(c, p, l.before); }
  }

  /** In every run, each time the flow leaves a judge node it has a licence on the ledger. */
  lemma JudgeExitIsLicensed(c: Config, context: string, start: Foreign, events: seq<Event>,
                            p: Ledger, a: NodeId, b: NodeId)
    requires ValidConfig(c) && a in c.flow.nodes && c.flow.nodes[a].kind == Judge
    requires Within(Then(p, Transition(a, b)), RunOf(c, context, start, events).ledger)
    ensures Licensed(c, p, a, Some(b))
  {
    hide RunOf, Licensed, FlowEdge;
    EveryRunAudited(c, context, start, events);
    AuditedWithin(c, Then(p, Transition(a, b)), RunOf(c, context, start, events).ledger);
  }

  /** With a failed verify standing, only a human yes or a timeout set to advance leads on. */
  lemma FailedVerifyNeedsHuman(c: Config, context: string, start: Foreign, events: seq<Event>,
                               p: Ledger, a: NodeId, b: NodeId)
    requires ValidConfig(c) && a in c.flow.nodes && c.flow.nodes[a].kind == Judge
    requires Within(Then(p, Transition(a, b)), RunOf(c, context, start, events).ledger)
    requires VerifyStanding(p) == Some(true)
    ensures p.Then? && c.flow.nodes[a].next == Some(b)
    ensures p.last == HumanDecision(a, true)
            || (p.last == HumanTimeout(a) && c.settings.humanDefault == AdvanceOnTimeout)
    ensures AskedHuman(p.before, a)
  {
    hide RunOf, MayAdvance, SuccessorSet, Within, ValidConfig;
    JudgeExitIsLicensed(c, context, start, events, p, a, b);
  }

  /** Outcome COMPLETE is produced only at the last entered node, when its `next` is null; at a judge, licensed. */
  lemma CompleteOnlyAtTerminal(c: Config, context: string, start: Foreign, events: seq<Event>)
    requires ValidConfig(c)
    ensures var u := RunOf(c, context, start, events);
            u.result.Some? && u.result.value.outcome == Complete ==>
              && u.state == Done && u.result.value.node == u.node && u.node in c.flow.nodes
              && Entered(u.ledger) != [] && Entered(u.ledger)[|Entered(u.ledger)| - 1] == u.node
              && c.flow.nodes[u.node].next == None
              && (c.flow.nodes[u.node].kind == Judge ==> Licensed(c, u.ledger, u.node, None))
  {
    hide RunOf, Audited, PhaseOk, Licensed;
    LastIsEntered(RunOf(c, context, start, events).ledger);
  }

  // ---- two limits of the protocol ---------------------------------------

  ghost predicate ResumeFails(u: Unit, w: Foreign) {
    u.paused && if u.phase == JudgeWait then !(w.promptOk && w.dispatchOk) else u.hasSession && !w.dispatchOk
  }

  /** A result is final, except that a resume that fails on a paused unit turns it into an error. */
  lemma ResultFinalIff(c: Config, u: Unit, e: Event)
    requires ValidConfig(c) && Inv(c, u) && HasEnded(c, u)
    ensures var v := Apply(c, u, e);
            (v.state == u.state && v.result == u.result) <==>
            !(e.Resume? && ResumeFails(u, e.calls) && !(u.state == Failed && u.result.value.outcome == Error))
  {
  }

  /** A unit in no phase whose polls do nothing: running, but for a stop or a failing resume for ever. */
  ghost predicate Wedged(u: Unit) {
    u.state == Running && u.phase == NoPhase
  }

  /** Whether the events hold a stop, or a resume that finds the unit paused and cannot reach its session. */
  ghost predicate Unwedges(events: seq<Event>, paused: bool, hasSession: bool) {
    events != [] &&
    match events[0]
    case Stop => true
    case Pause => Unwedges(events[1..], true, hasSession)
    case Resume(w) => (paused && hasSession && !w.dispatchOk) || Unwedges(events[1..], false, hasSession)
    case _ => Unwedges(events[1..], paused, hasSession)
  }

  lemma WedgedStep(c: Config, u: Unit, e: Event)
    requires ValidConfig(c) && Inv(c, u) && Wedged(u) && CanStep(c, u)
    ensures var v := Apply(c, u, e);
            if e.Stop? || (e.Resume? && u.paused && u.hasSession && !e.calls.dispatchOk) then v.state != Running
            else v == u.(paused := if e.Pause? then true else if e.Resume? then false else u.paused)
  {
    hide Valid, Audited, LastEntered, CountEntered, VerifyStanding;
  }

  lemma EndedApply(c: Config, u: Unit, e: Event)
    requires u.state != Running
    ensures Apply(c, u, e).state != Running
  {
  }

  lemma {:induction false} EndedRun(c: Config, u: Unit, events: seq<Event>)
    requires ValidConfig(c) && Inv(c, u) && u.state != Running
    ensures Run(c, u, events).state != Running
    decreases |events|
  {
    hide Inv, ValidConfig, Apply;
    if events != [] {
      ApplyKeeps(c, u, events[0]);
      EndedApply(c, u, events[0]);
      EndedRun(c, Apply(c, u, events[0]), events[1..]);
    }
  }

  /** A wedged unit stays wedged through any events exactly when they hold no stop and no failing resume. */
  lemma {:induction false} WedgedRun(c: Config, u: Unit, events: seq<Event>)
    requires ValidConfig(c) && Inv(c, u) && Wedged(u)
    ensures Wedged(Run(c, u, events)) <==> !Unwedges(events, u.paused, u.hasSession)
    ensures !Unwedges(events, u.paused, u.hasSession) ==>
              var v := Run(c, u, events); v == u.(paused := v.paused)
    decreases |events|
  {
    hide Inv, ValidConfig, Apply, CanStep;
    if events != [] {
      var e := events[0];
      ApplyKeeps(c, u, e);
      WedgedStep(c, u, e);
      var v := Apply(c, u, e);
      if v.state == Running {
        WedgedRun(c, v, events[1..]);
      } else {
        EndedRun(c, v, events[1..]);
      }
    }
  }

  /**
   A malformed human decision wedges the unit: whatever follows, it is still running
   without a phase exactly when no stop and no failing resume came.
   */
  lemma MalformedDecisionWedges(c: Config, u: Unit, seen: Observation, w: Foreign, events: seq<Event>)
    requires ValidConfig(c) && Inv(c, u) && u.state == Running && u.phase == HumanWait && !u.paused
    requires seen.human == Malformed
    ensures Wedged(Run(c, u, [Poll(seen, w)] + events)) <==> !Unwedges(events, false, u.hasSession)
    ensures !Unwedges(events, false, u.hasSession) ==>
              var v := Run(c, u, [Poll(seen, w)] + events); v == u.(phase := NoPhase, paused := v.paused)
  {
    var e := Poll(seen, w);
    ApplyKeeps(c, u, e);
    assert Apply(c, u, e) == u.(phase := NoPhase);
    hide Inv, ValidConfig, Apply, CanStep;
    WedgedRun(c, u.(phase := NoPhase), events);
    assert ([e] + events)[1..] == events;
  }

  // ---- the one edge outside the successor graph ---------------------------

  const ESCAPE_FLOW := Flow(
    map["a" := Node(Agent, "developer", Some(""), [], "", false),
        "" := Node(Agent, "developer", None, [], "", false)],
    ["a", ""], "a")

  lemma AtAgent(c: Config, u: Unit)
    requires Inv(c, u) && u.state == Running && u.phase == AgentWait && c.flow == ESCAPE_FLOW && u.node == "a"
    ensures u.rejudge == None && !u.raised && CanStep(c, u)
  {
  }

  lemma EscapeStep(c: Config, u: Unit, seen: Observation, w: Foreign)
    requires c.flow == ESCAPE_FLOW && ValidConfig(c) && c.settings.maxTotalNodes >= 2 && Inv(c, u)
    requires u.state == Running && u.phase == AgentWait && u.node == "a" && u.nodeCount == 1 && !u.paused
    requires Entered(u.ledger) == ["a"]
    requires w.promptOk && w.dispatchOk && !seen.deadlinePassed && seen.agent.AgentDone?
    ensures CanStep(c, u) && Inv(c, Apply(c, u, Poll(seen, w)))
    ensures Entered(Apply(c, u, Poll(seen, w)).ledger) == ["a", ""]
  {
    ApplyKeeps(c, u, Poll(seen, w));
    AtAgent(c, u);
    EscapeAdvance(c, u, seen.agent.report, w);
    hide Inv, Valid, CanStep, StepAgent, Entered;
  }

  lemma EscapeAdvance(c: Config, u: Unit, report: Option<string>, w: Foreign)
    requires c.flow == ESCAPE_FLOW && c.settings.maxTotalNodes >= 2
    requires u.node == "a" && u.nodeCount == 1 && u.rejudge == None && Entered(u.ledger) == ["a"]
    requires w.promptOk && w.dispatchOk
    ensures Entered(StepAgent(c, u, AgentDone(report), w).ledger) == ["a", ""]
  {
    var done := Log(u, NodeDone(u.node)).(report := report);
    var told := if report.Some? then done.(env := done.env.(report := report.value)) else done;
    var leaving := Log(told, Transition("a", "")).(phase := NoPhase);
    assert Entered(told.ledger) == ["a"] && Entered(leaving.ledger) == ["a"];
    assert Entered(Arrive(leaving, "").ledger) == ["a", ""];
    hide EnterNode, Entered;
    assert StepAgent(c, u, AgentDone(report), w) == Advance(c, told, None, w) == EnterNode(c, leaving, "", w);
  }

  /** A flow that passes construction, and a run that enters a node the reachability check calls a dead island. */
  lemma EmptyNextEscapes(c: Config, context: string, w: Foreign, seen: Observation)
    requires c.flow == ESCAPE_FLOW && ValidConfig(c) && c.settings.maxTotalNodes >= 2
    requires w.promptOk && w.dispatchOk && !seen.deadlinePassed && seen.agent.AgentDone?
    ensures Entered(RunOf(c, context, w, [Poll(seen, w)]).ledger) == ["a", ""]
    ensures !Reachable(c.flow, "a", "")
  {
    hide Inv, Apply, Valid, CanStep;
    BeginsAtA(c, context, w);
    var u := Begin(c, FRESH_UNIT, context, w);
    var e := Poll(seen, w);
    EscapeStep(c, u, seen, w);
    assert [e][1..] == [];
    assert Run(c, u, [e]) == Run(c, Apply(c, u, e), [e][1..]);
    EmptyUnreachable(c.flow);
  }

  lemma BeginsAtA(c: Config, context: string, w: Foreign)
    requires c.flow == ESCAPE_FLOW && ValidConfig(c) && c.settings.maxTotalNodes >= 2
    requires w.promptOk && w.dispatchOk
    ensures var u := Begin(c, FRESH_UNIT, context, w);
            && Inv(c, u) && u.state == Running && u.phase == AgentWait && u.node == "a" && u.nodeCount == 1
            && !u.paused && Entered(u.ledger) == ["a"]
  {
    BeginKeeps(c, context, w);
    hide Inv;
    assert IsSpine(c.flow, ["a", ""]);
    assert HasSpine(c.flow);
  }

  lemma EmptyUnreachable(f: Flow)
    requires f == ESCAPE_FLOW
    ensures !Reachable(f, "a", "")
  {
    forall p ensures !WalkFromTo(f, p, "a", "") {
      if |p| > 1 && p[0] == "a" { assert !StepAt(f, p, 0); }
    }
  }
}
