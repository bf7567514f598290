/**
 The workflow protocol as a function: one unit's state, what each poll may
 observe, and the state every event leads to. The class in WorkflowUnit.dfy is
 proved against these functions; the properties of runs are in WorkflowRuns.dfy.

 Foreign calls appear as observations (what a poll reads) and as `Foreign` (how
 the calls made during the event end). An exception that leaves a handler is the
 flag `raised`, which the caller of the handler consumes.
 */
module Workflow {
  import opened Common
  import opened StateMachine
  import opened Contract
  import B = Branching
  import Conditions
  import Handoff

  datatype RunState = Idle | Running | Done | Aborted | Failed

  datatype Phase = NoPhase | AgentWait | JudgeWait | HumanWait

  datatype Outcome = Complete | Error | Timeout | Blocked | HumanNeeded | AbortedByReviewer

  datatype RunResult = RunResult(outcome: Outcome, node: NodeId)

  datatype HumanDefault = BlockOnTimeout | AdvanceOnTimeout | ReworkOnTimeout

  datatype Settings = Settings(
    maxTotalNodes: nat,
    maxDialogueRounds: nat,
    maxReviewerRetries: nat,
    convergenceMaxIdentical: nat,
    verifyEnabled: bool,
    humanDefault: HumanDefault)

  datatype ToolOutcome = UnknownTool | ToolRan(ok: bool, message: string)

  datatype Config = Config(
    flow: Flow,
    settings: Settings,
    nu: B.Numerics,
    tool: (Node, string, string) -> ToolOutcome)

  /** A constructed state machine, and settings inside their declared bounds. */
  ghost predicate ValidConfig(c: Config) {
    && Valid(c.flow)
    && c.settings.maxTotalNodes >= 1
    && c.settings.maxDialogueRounds >= 1
    && c.settings.convergenceMaxIdentical >= 2
  }

  /** The audit ledger, newest entry last. */
  datatype Entry =
    | NodeEnter(node: NodeId)
    | NodeDone(node: NodeId)
    | VerifyResult(node: NodeId, failed: bool)
    | ReviewerVerdict(verdict: Verdict)
    | AdvanceTo(target: Option<NodeId>)
    | ReviewerInquiry(node: NodeId)
    | HumanAsk(node: NodeId)
    | HumanDecision(node: NodeId, yes: bool)
    | HumanTimeout(node: NodeId)
    | HumanRework(node: NodeId)
    | ToolDone(node: NodeId, ok: bool)
    | Transition(from: NodeId, to: NodeId)

  datatype Ledger = NothingYet | Then(before: Ledger, last: Entry)

  datatype RunEnv = RunEnv(context: string, report: string, ok: bool, message: string)

  function Variables(e: RunEnv): B.Env {
    map["context" := B.Str(e.context), "report" := B.Str(e.report), "ok" := B.Flag(e.ok), "message" := B.Str(e.message)]
  }

  datatype Unit = Unit(
    state: RunState,
    phase: Phase,
    node: NodeId,
    nodeCount: nat,
    dialogueRounds: nat,
    judgeAttempts: nat,
    rejudge: Option<NodeId>,
    rounds: seq<Handoff.Round>,
    verifyFailed: bool,
    validTargets: set<NodeId>,
    lastJudged: Option<string>,
    report: Option<string>,
    env: RunEnv,
    hasSession: bool,
    paused: bool,
    raised: bool,
    result: Option<RunResult>,
    ledger: Ledger)

  const FRESH_UNIT := Unit(Idle, NoPhase, "", 0, 0, 0, None, [], false, {}, None, None,
                          RunEnv("", "", true, ""), false, false, false, None, NothingYet)

  /** How the foreign calls made during one event end. */
  datatype Foreign = Foreign(promptOk: bool, dispatchOk: bool, verifyFails: bool)

  datatype AgentView = AgentUnreadable | AgentPending | AgentAborted | AgentDone(report: Option<string>)

  datatype JudgeView = JudgeUnreadable | JudgeQuiet | JudgeAborted | JudgeReplied(key: string, reply: Reply)

  datatype HumanView = Undecided | TimedOut | Malformed | Decided(answer: string, comment: string)

  datatype Observation = Observation(
    deadlinePassed: bool,
    stillBusy: bool,
    agent: AgentView,
    judge: JudgeView,
    human: HumanView)

  datatype Event =
    | Poll(seen: Observation, calls: Foreign)
    | Stop | Pause | Resume(calls: Foreign) | Nudge | Escalate

  // ---- small updates ----------------------------------------------------

  function Log(u: Unit, e: Entry): Unit {
    u.(ledger := Then(u.ledger, e))
  }

  function Finish(u: Unit, s: RunState, o: Outcome): Unit {
    u.(state := s, result := Some(RunResult(o, u.node)))
  }

  function SuccessorSet(n: Node): (s: set<NodeId>)
    ensures forall t :: t in s <==> IsSuccessor(n, t)
  {
    set t | t in Successors(n)
  }

  // ---- entering nodes ---------------------------------------------------

  function EnterAgent(u: Unit, w: Foreign): Unit {
    if w.promptOk && w.dispatchOk then u.(phase := AgentWait, hasSession := true) else Finish(u, Failed, Error)
  }

  /** Building the prompt may raise; a failing dispatch is caught and fails the run. */
  function SendJudgePrompt(u: Unit, w: Foreign): Unit {
    if !w.promptOk then u.(raised := true)
    else if !w.dispatchOk then Finish(u, Failed, Error)
    else u
  }

  /** Starts (or, after rework, restarts) the judge wait on `id`, running its verify command anew. */
  function EnterJudge(c: Config, u: Unit, id: NodeId, w: Foreign): Unit
    requires id in c.flow.nodes
  {
    var n := c.flow.nodes[id];
    var waiting := u.(phase := JudgeWait, validTargets := SuccessorSet(n), judgeAttempts := 0,
                      lastJudged := None, verifyFailed := false, hasSession := true);
    var verified :=
      if n.verify && c.settings.verifyEnabled
      then Log(waiting.(verifyFailed := w.verifyFails), VerifyResult(id, w.verifyFails))
      else waiting;
    SendJudgePrompt(verified, w)
  }

  /** Nodes that may still be entered, for termination on cyclic tool and route flows. */
  function NodesLeft(c: Config, u: Unit): nat {
    if u.nodeCount > c.settings.maxTotalNodes then 0 else c.settings.maxTotalNodes + 1 - u.nodeCount
  }

  function Arrive(u: Unit, id: NodeId): Unit {
    Log(u.(node := id, nodeCount := u.nodeCount + 1, dialogueRounds := 0, rounds := []), NodeEnter(id))
  }

  function EnterNode(c: Config, u: Unit, id: NodeId, w: Foreign): Unit
    requires id in c.flow.nodes
    decreases NodesLeft(c, u), 0
  {
    var here := Arrive(u, id);
    if here.nodeCount > c.settings.maxTotalNodes then Finish(here, Aborted, Blocked)
    else
      match c.flow.nodes[id].kind
      case Agent => EnterAgent(here, w)
      case Judge => EnterJudge(c, here, id, w)
      case _ => EnterDeterministic(c, here, w)
  }

  /** What a tool, route or gate node decides: the run after it, and where to go unless it ended. */
  datatype Decision = Ended(unit: Unit) | Onward(unit: Unit, target: Option<NodeId>)

  function Decide(c: Config, u: Unit): (d: Decision)
    requires u.node in c.flow.nodes
    ensures d.Onward? ==> d.unit.node == u.node && d.unit.nodeCount == u.nodeCount
  {
    var n := c.flow.nodes[u.node];
    if n.kind == Tool then
      match c.tool(n, u.env.context, u.env.report)
      case UnknownTool => Ended(Finish(u, Failed, Error))
      case ToolRan(ok, message) =>
        var after := Log(u.(env := u.env.(ok := ok, message := message)), ToolDone(u.node, ok));
        match Conditions.ResolveBranch(n.branches, Variables(after.env), c.nu)
        case BadCondition => Onward(after, None)
        case Goto(t) => Checked(c, after, if t in c.flow.nodes then Some(t) else n.next)
        case NoBranch => Checked(c, after, n.next)
    else
      match Conditions.ResolveBranch(n.branches, Variables(u.env), c.nu)
      case BadCondition => Ended(Finish(u, Failed, Error))
      case Goto(t) => Checked(c, u, Some(t))
      case NoBranch =>
        if n.kind == Gate then Ended(Finish(u, Aborted, Blocked)) else Checked(c, u, n.next)
  }

  /** A decided target must be a node of the flow. */
  function Checked(c: Config, u: Unit, target: Option<NodeId>): Decision {
    if target.Some? && target.value !in c.flow.nodes then Ended(Finish(u, Failed, Error)) else Onward(u, target)
  }

  function EnterDeterministic(c: Config, u: Unit, w: Foreign): Unit
    requires u.node in c.flow.nodes
    decreases NodesLeft(c, u), 2
  {
    match Decide(c, u)
    case Ended(v) => v
    case Onward(v, target) => Advance(c, v, target, w)
  }

  /** Leaves the current node for `target`, or along `next` when there is none; a missing `next` completes the run. */
  function Advance(c: Config, u: Unit, target: Option<NodeId>, w: Foreign): Unit
    requires u.node in c.flow.nodes
    decreases NodesLeft(c, u), 1
  {
    var onto := if target.Some? then target else c.flow.nodes[u.node].next;
    if onto.None? then Finish(u, Done, Complete)
    else
      var leaving := Log(u, Transition(u.node, onto.value));
      if onto.value !in c.flow.nodes then leaving.(raised := true)
      else EnterNode(c, leaving.(phase := NoPhase), onto.value, w)
  }

  // ---- polling ----------------------------------------------------------

  function StepAgent(c: Config, u: Unit, seen: AgentView, w: Foreign): Unit
    requires u.node in c.flow.nodes
    requires u.rejudge.Some? ==> u.rejudge.value in c.flow.nodes
  {
    match seen
    case AgentUnreadable => Finish(u, Failed, Error)
    case AgentPending => u
    case AgentAborted => Finish(u, Aborted, Blocked)
    case AgentDone(report) =>
      var done := Log(u, NodeDone(u.node)).(report := report);
      var told := if report.Some? then done.(env := done.env.(report := report.value)) else done;
      if told.rejudge.Some? then EnterJudge(c, told.(rejudge := None), told.rejudge.value, w)
      else Advance(c, told, None, w)
  }

  function StepJudge(c: Config, u: Unit, seen: JudgeView, w: Foreign): Unit
    requires u.node in c.flow.nodes
  {
    match seen
    case JudgeUnreadable => Finish(u, Failed, Error)
    case JudgeAborted => Finish(u, Aborted, Blocked)
    case JudgeQuiet => u
    case JudgeReplied(key, reply) =>
      if u.lastJudged == Some(key) then u
      else
        var noticed := u.(lastJudged := Some(key));
        match ParseReply(reply, u.node, u.validTargets, u.verifyFailed)
        case Accepted(v) => HandleVerdict(c, noticed, v, w)
        case Rejected => Retry(c, noticed, w)
  }

  function Retry(c: Config, u: Unit, w: Foreign): Unit {
    var again := u.(judgeAttempts := u.judgeAttempts + 1);
    if again.judgeAttempts > c.settings.maxReviewerRetries then Finish(again, Failed, Error)
    else SendJudgePrompt(again, w)
  }

  function HandleVerdict(c: Config, u: Unit, v: Verdict, w: Foreign): Unit
    requires u.node in c.flow.nodes
  {
    var heard := Log(u, ReviewerVerdict(v));
    match v.action
    case AdvanceNode =>
      if v.nextState.None? && heard.validTargets == {} then
        Advance(c, Log(heard, AdvanceTo(None)).(phase := NoPhase), None, w)
      else if v.nextState.Some? && v.nextState.value in heard.validTargets then
        Advance(c, Log(heard, AdvanceTo(v.nextState)).(phase := NoPhase), v.nextState, w)
      else Finish(heard, Failed, Error)
    case AskDeveloper =>
      Rework(c, heard, if v.messageToDeveloper.Some? then v.messageToDeveloper.value else "",
             ReviewerInquiry(heard.node), w)
    case RequestContext => SendJudgePrompt(heard, w)
    case AbortSession => Finish(heard, Aborted, AbortedByReviewer)
    case ReportUser => Finish(heard, Done, HumanNeeded)
    case AskHuman => Log(heard, HumanAsk(heard.node)).(phase := HumanWait)
  }

  /** Sends the developer back, unless the rounds are used up or the interrogation is spinning. */
  function Rework(c: Config, u: Unit, text: string, entry: Entry, w: Foreign): Unit {
    var asked := u.(dialogueRounds := u.dialogueRounds + 1);
    if asked.dialogueRounds > c.settings.maxDialogueRounds then Finish(asked, Failed, Error)
    else ReworkRound(c, NoteRound(asked, text, entry), w)
  }

  function NoteRound(u: Unit, text: string, entry: Entry): Unit {
    Log(u, entry).(rounds := u.rounds + [(text, if u.report.Some? then u.report.value else "")])
  }

  function ReworkRound(c: Config, u: Unit, w: Foreign): Unit {
    if Handoff.DetectLoop(u.rounds, c.settings.convergenceMaxIdentical) then Finish(u, Aborted, Blocked)
    else if !w.dispatchOk then Finish(u, Failed, Error)
    else u.(rejudge := Some(u.node), hasSession := true, phase := AgentWait)
  }

  const YES_WORDS: set<string> := {
    "yes", "y", "approve", "\U{662F}", "\U{786E}\U{8BA4}", "\U{901A}\U{8FC7}"
  }

  function StepHuman(c: Config, u: Unit, seen: HumanView, w: Foreign): Unit
    requires u.node in c.flow.nodes
  {
    match seen
    case Undecided => u
    case Malformed => u.(phase := NoPhase)
    case TimedOut =>
      var woken := Log(u, HumanTimeout(u.node)).(phase := NoPhase);
      (match c.settings.humanDefault
       case AdvanceOnTimeout => Advance(c, woken, None, w)
       case ReworkOnTimeout => Rework(c, woken, "human confirmation timed out", HumanRework(u.node), w)
       case BlockOnTimeout => Finish(woken, Aborted, Blocked))
    case Decided(answer, comment) =>
      var said := B.Lower(answer);
      var woken := Log(u, HumanDecision(u.node, said in YES_WORDS)).(phase := NoPhase);
      if said in YES_WORDS then Advance(c, woken, None, w)
      else
        Rework(c, woken, if comment != "" then comment else "human answered '" + said + "'", HumanRework(u.node), w)
  }

  predicate CanStep(c: Config, u: Unit) {
    && u.node in c.flow.nodes
    && (u.rejudge.Some? ==> u.rejudge.value in c.flow.nodes)
  }

  function Step(c: Config, u: Unit, seen: Observation, w: Foreign): Unit
    requires CanStep(c, u)
  {
    if u.phase == HumanWait then StepHuman(c, u, seen.human, w)
    else if u.phase != NoPhase && seen.deadlinePassed then
      if seen.stillBusy then u else Finish(u, Failed, Timeout)
    else
      match u.phase
      case AgentWait => StepAgent(c, u, seen.agent, w)
      case JudgeWait => StepJudge(c, u, seen.judge, w)
      case _ => u
  }

  /** The mixed loop turns an exception that left a step into a failed run. */
  function Caught(u: Unit): Unit {
    if u.raised then Finish(u.(raised := false), Failed, Error) else u
  }

  function ResumeUnit(u: Unit, w: Foreign): Unit {
    if !u.paused then u
    else
      var awake := u.(paused := false);
      if awake.phase == JudgeWait then
        if w.promptOk && w.dispatchOk then awake else Finish(awake, Failed, Error)
      else if awake.hasSession && !w.dispatchOk then Finish(awake, Failed, Error)
      else awake
  }

  /** One event of the mixed loop: a poll of a running, unpaused unit, or a control signal. */
  function Apply(c: Config, u: Unit, e: Event): Unit
    requires u.state == Running ==> CanStep(c, u)
  {
    match e
    case Poll(seen, w) => if u.state == Running && !u.paused then Caught(Step(c, u, seen, w)) else u
    case Stop => if u.state == Running then Finish(u, Aborted, Blocked) else u
    case Pause => u.(paused := true)
    case Resume(w) => ResumeUnit(u, w)
    case Nudge => u
    case Escalate => u
  }

  /**
   The start signal. A flow whose spine has no end raises before the run starts;
   an exception later in the start is logged and leaves the unit running.
   */
  ghost function Begin(c: Config, u: Unit, context: string, w: Foreign): Unit
    requires c.flow.start in c.flow.nodes
  {
    var told := u.(env := RunEnv(context, "", true, ""));
    if !HasSpine(c.flow) then told
    else
      EnterNode(c, told.(node := c.flow.start, state := Running, nodeCount := 0), c.flow.start, w).(raised := false)
  }
}
