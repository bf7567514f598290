/** The reviewer contract: the deterministic gate, and what a raw reply becomes behind it. */
module Contract {
  import opened Common
  import opened StateMachine
  import B = Branching
  import M = ConditionMeanings

  datatype Action = AskDeveloper | RequestContext | AdvanceNode | AbortSession | ReportUser | AskHuman

  datatype VerdictKind = IssueResolved | IssuePending | Stuck | Proceed | HumanEscalate

  datatype Severity = Blocking | Warning

  datatype Issue = Issue(severity: Severity, summary: string)

  datatype Verdict = Verdict(
    node: NodeId,
    kind: VerdictKind,
    action: Action,
    messageToDeveloper: Option<string>,
    nextState: Option<NodeId>,
    contextRequested: Option<string>,
    humanQuestion: Option<string>,
    confidence: real,
    reason: string,
    issues: seq<Issue>)

  datatype Rejection =
    | NoMessage | TargetOnTerminal | NoTarget | UnknownTarget | NoContextText | NoQuestion
    | ConfidenceRange | ConfidenceLow | Inconsistent | UnresolvedBlocking

  function AllowedKinds(a: Action): set<VerdictKind> {
    match a
    case AskDeveloper => {IssuePending, IssueResolved, Proceed}
    case RequestContext => {Stuck, IssuePending}
    case AdvanceNode => {IssueResolved, Proceed}
    case AbortSession => {Stuck, IssuePending}
    case ReportUser => {Stuck, HumanEscalate}
    case AskHuman => {Stuck, IssuePending, HumanEscalate}
  }

  function MinConfidence(a: Action): real {
    match a
    case AskDeveloper => 0.0
    case RequestContext => 0.0
    case AdvanceNode => 0.5
    case AbortSession => 0.7
    case ReportUser => 0.7
    case AskHuman => 0.6
  }

  predicate Filled(text: Option<string>) {
    text.Some? && B.Strip(text.value) != ""
  }

  /** There is a text, and it is not all white space. */
  ghost predicate Says(text: Option<string>) {
    text.Some? && !M.Blanks(text.value)
  }

  lemma SaysIffFilled(text: Option<string>)
    ensures Filled(text) <==> Says(text)
  {
    if text.Some? {
      var s := text.value;
      var p, q := M.StripMeans(s);
      var t := B.Strip(s);
      if t == "" {
        assert s == p + q;
      } else {
        assert s[|p|] == t[0] && !B.IsSpace(t[0]);
      }
    }
  }

  predicate HasBlocking(v: Verdict) {
    exists i :: i in v.issues && i.severity == Blocking
  }

  /** The advance target against the valid ids; with no valid id at all, the node is terminal. */
  function TargetRejection(target: Option<NodeId>, valid: Option<set<NodeId>>): Option<Rejection> {
    if valid == Some({}) then
      if target.Some? then Some(TargetOnTerminal) else None
    else if target.None? || target.value == "" then Some(NoTarget)
    else if valid.Some? && target.value !in valid.value then Some(UnknownTarget)
    else None
  }

  /** The gate: the first reason to reject, in the order the checks are made. */
  function Gate(v: Verdict, valid: Option<set<NodeId>>): Option<Rejection> {
    if v.action == AskDeveloper && !Filled(v.messageToDeveloper) then Some(NoMessage)
    else if v.action == AdvanceNode && TargetRejection(v.nextState, valid).Some? then TargetRejection(v.nextState, valid)
    else if v.action == RequestContext && !Filled(v.contextRequested) then Some(NoContextText)
    else if v.action == AskHuman && !Filled(v.humanQuestion) then Some(NoQuestion)
    else if !(0.0 <= v.confidence <= 1.0) then Some(ConfidenceRange)
    else if v.confidence < MinConfidence(v.action) then Some(ConfidenceLow)
    else if v.kind !in AllowedKinds(v.action) then Some(Inconsistent)
    else if v.action == AdvanceNode && HasBlocking(v) then Some(UnresolvedBlocking)
    else None
  }

  /** What lets an advance through a judge node whose successors are `valid`. */
  ghost predicate MayAdvance(v: Verdict, node: NodeId, valid: set<NodeId>) {
    && v.action == AdvanceNode
    && v.node == node
    && 0.5 <= v.confidence <= 1.0
    && v.kind in {IssueResolved, Proceed}
    && (forall i :: i in v.issues ==> i.severity != Blocking)
    && (if valid == {} then v.nextState == None
        else v.nextState.Some? && v.nextState.value != "" && v.nextState.value in valid)
  }

  /** What lets a question to the human through the gate. */
  ghost predicate MayAskHuman(v: Verdict, node: NodeId) {
    && v.action == AskHuman
    && v.node == node
    && 0.6 <= v.confidence <= 1.0
    && v.kind in {Stuck, IssuePending, HumanEscalate}
    && Filled(v.humanQuestion)
  }

  /** A raw reply after JSON extraction and model validation. */
  datatype Reply = NoJson | BadShape | Shaped(verdict: Verdict)

  datatype Judged = Rejected | Accepted(verdict: Verdict)

  const VERIFY_ISSUE := Issue(Blocking, "runtime verification failed")

  /** Node echo, the injected issue of a failed verify, then the gate. */
  function ParseReply(reply: Reply, node: NodeId, valid: set<NodeId>, verifyFailed: bool): Judged {
    if !reply.Shaped? || reply.verdict.node != node then Rejected
    else
      var v := reply.verdict;
      var seen := if verifyFailed then v.(issues := v.issues + [VERIFY_ISSUE]) else v;
      if Gate(seen, Some(valid)) == None then Accepted(seen) else Rejected
  }

  /** A reply that asks to advance is accepted exactly when it may advance and the verify did not fail. */
  lemma AdvanceAcceptedIff(reply: Reply, node: NodeId, valid: set<NodeId>, verifyFailed: bool)
    requires reply.Shaped? && reply.verdict.action == AdvanceNode
    ensures ParseReply(reply, node, valid, verifyFailed).Accepted? <==>
            MayAdvance(reply.verdict, node, valid) && !verifyFailed
  {
    var v := reply.verdict;
    if verifyFailed {
      var seen := v.(issues := v.issues + [VERIFY_ISSUE]);
      assert seen.issues[|v.issues|] in seen.issues;
    }
  }

  /** Whatever is accepted echoes the node; an accepted advance may advance, and no verify had failed. */
  lemma AcceptedVerdict(reply: Reply, node: NodeId, valid: set<NodeId>, verifyFailed: bool)
    requires ParseReply(reply, node, valid, verifyFailed).Accepted?
    ensures var v := ParseReply(reply, node, valid, verifyFailed).verdict;
            && v.node == node
            && v.action == reply.verdict.action && v.(issues := reply.verdict.issues) == reply.verdict
            && (v.action == AdvanceNode ==> MayAdvance(v, node, valid) && !verifyFailed && v == reply.verdict)
            && (v.action == AskHuman ==> MayAskHuman(v, node))
  {
    if reply.verdict.action == AdvanceNode { AdvanceAcceptedIff(reply, node, valid, verifyFailed); }
  }

  /** The other actions, row by row of the tables: a failed verify never stands in their way. */
  lemma RoutingAcceptedIff(reply: Reply, node: NodeId, valid: set<NodeId>, verifyFailed: bool)
    requires reply.Shaped? && reply.verdict.action != AdvanceNode
    ensures var v := reply.verdict;
            ParseReply(reply, node, valid, verifyFailed).Accepted? <==>
            && v.node == node && 0.0 <= v.confidence <= 1.0
            && (v.action == AskDeveloper ==>
                  v.kind in {IssuePending, IssueResolved, Proceed} && Says(v.messageToDeveloper))
            && (v.action == RequestContext ==> v.kind in {Stuck, IssuePending} && Says(v.contextRequested))
            && (v.action == AbortSession ==> v.confidence >= 0.7 && v.kind in {Stuck, IssuePending})
            && (v.action == ReportUser ==> v.confidence >= 0.7 && v.kind in {Stuck, HumanEscalate})
            && (v.action == AskHuman ==>
                  v.confidence >= 0.6 && v.kind in {Stuck, IssuePending, HumanEscalate} && Says(v.humanQuestion))
  {
    hide Filled, Says;
    SaysIffFilled(reply.verdict.messageToDeveloper);
    SaysIffFilled(reply.verdict.contextRequested);
    SaysIffFilled(reply.verdict.humanQuestion);
  }
}
