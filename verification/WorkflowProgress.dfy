/** Every event the workflow consumes uses up a bounded resource, so runs consume boundedly many. */
module WorkflowProgress {
  import opened Common
  import opened StateMachine
  import opened Contract
  import opened Workflow
  import opened WorkflowRuns
  import B = Branching
  import Conditions
  import Handoff

  function Rank(p: Phase): nat {
    match p
    case AgentWait => 3
    case JudgeWait => 2
    case HumanWait => 1
    case NoPhase => 0
  }

  function RetriesLeft(c: Config, u: Unit): int {
    if u.phase == JudgeWait then c.settings.maxReviewerRetries - u.judgeAttempts else 0
  }

  /** `v` is lexicographically below `u`: more nodes, then more dialogue rounds, then phase, then retries used. */
  ghost predicate Below(c: Config, v: Unit, u: Unit) {
    || v.nodeCount > u.nodeCount
    || (v.nodeCount == u.nodeCount
        && (|| v.dialogueRounds > u.dialogueRounds
            || (v.dialogueRounds == u.dialogueRounds
                && (|| Rank(v.phase) < Rank(u.phase)
                    || (v.phase == u.phase && RetriesLeft(c, v) < RetriesLeft(c, u))))))
  }

  ghost predicate SameStanding(c: Config, v: Unit, u: Unit) {
    && v.nodeCount == u.nodeCount && v.dialogueRounds == u.dialogueRounds
    && v.phase == u.phase && RetriesLeft(c, v) == RetriesLeft(c, u)
  }

  /** The same order as one number: what a running unit can still consume. */
  ghost function Measure(c: Config, u: Unit): (m: nat)
    requires ValidConfig(c) && Inv(c, u)
  {
    if u.state != Running then 0
    else
      var s := c.settings;
      1 + Weight(s.maxTotalNodes - u.nodeCount, s.maxDialogueRounds, s.maxDialogueRounds - u.dialogueRounds,
                 Rank(u.phase), s.maxReviewerRetries, RetriesLeft(c, u))
  }

  function Weight(nodes: nat, maxRounds: nat, rounds: nat, rank: nat, maxRetries: nat, retries: nat): nat {
    Shifted(Shifted(Shifted(nodes, maxRounds + 1, rounds), 4, rank), maxRetries + 1, retries)
  }

  lemma ProductGrows(a: nat, b: nat, base: nat)
    requires a < b
    ensures a * base + base <= b * base
  {
    var gap := b - a - 1;
    assert b * base == (a + 1 + gap) * base == a * base + base + gap * base;
  }

  /** A digit below its base never makes up for a smaller number in front of it. */
  lemma DigitDrop(a: nat, b: nat, base: nat, x: nat, y: nat)
    requires x < base
    requires a < b || (a == b && x < y)
    ensures a * base + x < b * base + y
  {
    if a < b { ProductGrows(a, b, base); }
  }

  function Shifted(a: nat, base: nat, x: nat): nat {
    a * base + x
  }

  lemma ShiftedDrops(a: nat, b: nat, base: nat, x: nat, y: nat)
    requires x < base
    ensures a < b || (a == b && x < y) ==> Shifted(a, base, x) < Shifted(b, base, y)
    ensures a == b && x == y ==> Shifted(a, base, x) == Shifted(b, base, y)
  {
    if a < b || (a == b && x < y) { DigitDrop(a, b, base, x, y); }
  }

  lemma WeightDrops(n1: nat, n2: nat, d: nat, r1: nat, r2: nat, k1: nat, k2: nat, m: nat, t1: nat, t2: nat)
    requires r1 <= d && r2 <= d && k1 <= 3 && k2 <= 3 && t1 <= m && t2 <= m
    requires n1 < n2 || (n1 == n2 && (r1 < r2 || (r1 == r2 && (k1 < k2 || (k1 == k2 && t1 < t2)))))
    ensures Weight(n1, d, r1, k1, m, t1) < Weight(n2, d, r2, k2, m, t2)
  {
    hide Shifted;
    var a1, a2 := Shifted(n1, d + 1, r1), Shifted(n2, d + 1, r2);
    ShiftedDrops(n1, n2, d + 1, r1, r2);
    ShiftedDrops(a1, a2, 4, k1, k2);
    ShiftedDrops(Shifted(a1, 4, k1), Shifted(a2, 4, k2), m + 1, t1, t2);
  }

  lemma BelowMeasure(c: Config, v: Unit, u: Unit)
    requires ValidConfig(c) && Inv(c, v) && Inv(c, u) && v.state == Running && u.state == Running
    requires Below(c, v, u)
    ensures Measure(c, v) < Measure(c, u)
  {
    hide Audited, LastEntered, CountEntered, VerifyStanding, Valid, Weight;
    var s := c.settings;
    WeightDrops(s.maxTotalNodes - v.nodeCount, s.maxTotalNodes - u.nodeCount, s.maxDialogueRounds,
                s.maxDialogueRounds - v.dialogueRounds, s.maxDialogueRounds - u.dialogueRounds,
                Rank(v.phase), Rank(u.phase), s.maxReviewerRetries, RetriesLeft(c, v), RetriesLeft(c, u));
  }

  // ---- leaving a node always enters another or ends ----------------------

  /** The run has ended, is about to fail on an exception, or has entered further nodes. */
  ghost predicate MovedOn(v: Unit, u: Unit) {
    v.state == Running && !v.raised ==> v.nodeCount > u.nodeCount
  }

  lemma {:induction false} EnterNodeMoves(c: Config, u: Unit, id: NodeId, w: Foreign)
    requires id in c.flow.nodes
    ensures MovedOn(EnterNode(c, u, id, w), u)
    decreases NodesLeft(c, u), 0
  {
    hide Decide, SuccessorSet, Advance, EnterDeterministic;
    var here := Arrive(u, id);
    if here.nodeCount <= c.settings.maxTotalNodes && c.flow.nodes[id].kind in {Tool, Route, Gate} {
      DeterministicMoves(c, here, w);
    }
  }

  lemma {:induction false} DeterministicMoves(c: Config, u: Unit, w: Foreign)
    requires u.node in c.flow.nodes
    ensures MovedOn(EnterDeterministic(c, u, w), u)
    decreases NodesLeft(c, u), 2
  {
    hide Decide, Advance;
    DecideFrames(c, u);
    match Decide(c, u) {
      case Ended(v) =>
      case Onward(v, target) => AdvanceMoves(c, v, target, w);
    }
  }

  lemma {:induction false} AdvanceMoves(c: Config, u: Unit, target: Option<NodeId>, w: Foreign)
    requires u.node in c.flow.nodes
    ensures MovedOn(Advance(c, u, target, w), u)
    decreases NodesLeft(c, u), 1
  {
    hide EnterNode;
    var onto := if target.Some? then target else c.flow.nodes[u.node].next;
    if onto.Some? && onto.value in c.flow.nodes {
      EnterNodeMoves(c, Log(u, Transition(u.node, onto.value)).(phase := NoPhase), onto.value, w);
    }
  }

  // ---- consuming events -------------------------------------------------

  /** A reply that is accepted and only asks for more context. */
  ghost predicate AsksContext(u: Unit, reply: Reply) {
    var j := ParseReply(reply, u.node, u.validTargets, u.verifyFailed);
    j.Accepted? && j.verdict.action == RequestContext
  }

  /**
   The unit acts on this event: an agent completion, a reviewer reply it has not
   judged yet (other than an accepted request for context), a human decision
   (well formed or not), or the human timeout.
   */
  ghost predicate Consumes(u: Unit, e: Event) {
    && u.state == Running && !u.paused && e.Poll?
    && match u.phase
       case AgentWait => !e.seen.deadlinePassed && e.seen.agent.AgentDone?
       case JudgeWait =>
         && !e.seen.deadlinePassed && e.seen.judge.JudgeReplied?
         && u.lastJudged != Some(e.seen.judge.key) && !AsksContext(u, e.seen.judge.reply)
       case HumanWait => e.seen.human != Undecided
       case NoPhase => false
  }

  /** After a step the run is over, or about to fail, or lexicographically below. */
  ghost predicate Spent(c: Config, v: Unit, u: Unit) {
    v.state == Running && !v.raised ==> Below(c, v, u)
  }

  lemma AgentSpends(c: Config, u: Unit, seen: AgentView, w: Foreign)
    requires ValidConfig(c) && AtWait(c, u, AgentWait) && seen.AgentDone?
    ensures Spent(c, StepAgent(c, u, seen, w), u)
  {
    hide Audited, LastEntered, CountEntered, VerifyStanding, Valid, Advance, SuccessorSet;
    if u.rejudge.None? {
      var done := Log(u, NodeDone(u.node)).(report := seen.report);
      var told := if seen.report.Some? then done.(env := done.env.(report := seen.report.value)) else done;
      AdvanceMoves(c, told, None, w);
    }
  }

  lemma ReworkSpends(c: Config, u: Unit, text: string, entry: Entry, w: Foreign)
    ensures Spent(c, Rework(c, u, text, entry, w), u)
  {
    hide ReworkRound, NoteRound;
    RoundKeepsCounts(c, u.(dialogueRounds := u.dialogueRounds + 1), text, entry, w);
  }

  lemma RoundKeepsCounts(c: Config, u: Unit, text: string, entry: Entry, w: Foreign)
    ensures var v := ReworkRound(c, NoteRound(u, text, entry), w);
            v.nodeCount == u.nodeCount && v.dialogueRounds == u.dialogueRounds
  {
    hide Handoff.DetectLoop;
  }

  lemma JudgeSpends(c: Config, u: Unit, key: string, reply: Reply, w: Foreign)
    requires ValidConfig(c) && AtWait(c, u, JudgeWait)
    requires u.lastJudged != Some(key) && !AsksContext(u, reply)
    ensures Spent(c, StepJudge(c, u, JudgeReplied(key, reply), w), u)
  {
    hide Audited, LastEntered, CountEntered, VerifyStanding, Valid, Advance, SuccessorSet, ParseReply, HandleVerdict;
    var j := ParseReply(reply, u.node, u.validTargets, u.verifyFailed);
    if j.Accepted? {
      VerdictSpends(c, u.(lastJudged := Some(key)), j.verdict, w);
    }
  }

  lemma VerdictSpends(c: Config, u: Unit, v: Verdict, w: Foreign)
    requires u.node in c.flow.nodes && u.phase == JudgeWait && v.action != RequestContext
    ensures Spent(c, HandleVerdict(c, u, v, w), u)
  {
    hide Advance, Rework;
    var heard := Log(u, ReviewerVerdict(v));
    if v.action == AskDeveloper {
      ReworkSpends(c, heard, if v.messageToDeveloper.Some? then v.messageToDeveloper.value else "",
                   ReviewerInquiry(heard.node), w);
    }
    if v.action == AdvanceNode {
      AdvanceMoves(c, Log(heard, AdvanceTo(v.nextState)).(phase := NoPhase), v.nextState, w);
    }
  }

  lemma HumanSpends(c: Config, u: Unit, seen: HumanView, w: Foreign)
    requires u.node in c.flow.nodes && u.phase == HumanWait && seen != Undecided
    ensures Spent(c, StepHuman(c, u, seen, w), u)
  {
    hide Advance, Rework, B.Lower;
    match seen {
      case TimedOut =>
        var woken := Log(u, HumanTimeout(u.node)).(phase := NoPhase);
        AdvanceMoves(c, woken, None, w);
        HumanReworkSpends(c, u, woken, "human confirmation timed out", w);
      case Decided(answer, comment) =>
        var said := B.Lower(answer);
        var woken := Log(u, HumanDecision(u.node, said in YES_WORDS)).(phase := NoPhase);
        AdvanceMoves(c, woken, None, w);
        HumanReworkSpends(c, u, woken, if comment != "" then comment else "human answered '" + said + "'", w);
      case _ =>
    }
  }

  lemma HumanReworkSpends(c: Config, u: Unit, woken: Unit, text: string, w: Foreign)
    requires woken.nodeCount == u.nodeCount && woken.dialogueRounds == u.dialogueRounds
    ensures Spent(c, Rework(c, woken, text, HumanRework(u.node), w), u)
  {
    hide Handoff.DetectLoop;
  }

  /** Consuming an event ends the run or strictly decreases the measure. */
  lemma ConsumeDecreases(c: Config, u: Unit, e: Event)
    requires ValidConfig(c) && Inv(c, u) && Consumes(u, e)
    ensures CanStep(c, u) && Inv(c, Apply(c, u, e))
    ensures Measure(c, Apply(c, u, e)) < Measure(c, u)
  {
    ApplyKeeps(c, u, e);
    hide Audited, LastEntered, CountEntered, VerifyStanding, Valid, StepAgent, StepJudge, StepHuman, Measure, Below, Inv;
    assert AtWait(c, u, u.phase) by { RunningAtWait(c, u); }
    match u.phase {
      case AgentWait => AgentSpends(c, u, e.seen.agent, e.calls);
      case JudgeWait => JudgeSpends(c, u, e.seen.judge.key, e.seen.judge.reply, e.calls);
      case HumanWait => HumanSpends(c, u, e.seen.human, e.calls);
      case NoPhase =>
    }
    var v := Apply(c, u, e);
    if v.state == Running { BelowMeasure(c, v, u); } else { EndedMeasure(c, v, u); }
  }

  lemma RunningAtWait(c: Config, u: Unit)
    requires Inv(c, u) && u.state == Running
    ensures AtWait(c, u, u.phase)
  {
  }

  lemma EndedMeasure(c: Config, v: Unit, u: Unit)
    requires ValidConfig(c) && Inv(c, v) && Inv(c, u) && v.state != Running && u.state == Running
    ensures Measure(c, v) < Measure(c, u)
  {
  }

  /** Any other event leaves the standing as it is, or ends the run. */
  lemma OtherEventsKeep(c: Config, u: Unit, e: Event)
    requires ValidConfig(c) && Inv(c, u) && !Consumes(u, e)
    ensures u.state == Running ==> CanStep(c, u)
    ensures Inv(c, Apply(c, u, e))
    ensures Measure(c, Apply(c, u, e)) <= Measure(c, u)
  {
    ApplyKeeps(c, u, e);
    if u.state == Running {
      var v := Apply(c, u, e);
      OtherEventsStand(c, u, e);
      if v.state == Running { SameMeasure(c, v, u); } else { EndedMeasure(c, v, u); }
    } else {
      NotRunningStays(c, u, e);
    }
  }

  lemma NotRunningStays(c: Config, u: Unit, e: Event)
    requires u.state != Running
    ensures Apply(c, u, e).state != Running
  {
  }

  lemma OtherEventsStand(c: Config, u: Unit, e: Event)
    requires ValidConfig(c) && Inv(c, u) && u.state == Running && CanStep(c, u) && !Consumes(u, e)
    ensures Apply(c, u, e).state == Running ==> SameStanding(c, Apply(c, u, e), u)
  {
    hide Audited, LastEntered, CountEntered, VerifyStanding, Valid, StepAgent, StepJudge, StepHuman, Inv;
    if e.Poll? && !u.paused {
      RunningAtWait(c, u);
      match u.phase {
        case AgentWait => AgentStands(c, u, e.seen.agent, e.calls);
        case JudgeWait => JudgeStands(c, u, e.seen.judge, e.calls);
        case HumanWait => HumanStands(c, u, e.calls);
        case NoPhase =>
      }
    }
  }

  ghost predicate Stands(c: Config, v: Unit, u: Unit) {
    v.state == Running && !v.raised ==> SameStanding(c, v, u)
  }

  lemma AgentStands(c: Config, u: Unit, seen: AgentView, w: Foreign)
    requires CanStep(c, u) && u.phase == AgentWait
    ensures !seen.AgentDone? ==> Stands(c, StepAgent(c, u, seen, w), u)
  {
    hide EnterJudge, Advance;
  }

  lemma JudgeStands(c: Config, u: Unit, seen: JudgeView, w: Foreign)
    requires u.node in c.flow.nodes && u.phase == JudgeWait
    ensures !seen.JudgeReplied? || u.lastJudged == Some(seen.key) || AsksContext(u, seen.reply) ==>
              Stands(c, StepJudge(c, u, seen, w), u)
  {
    hide ParseReply, Advance, Rework;
  }

  lemma HumanStands(c: Config, u: Unit, w: Foreign)
    requires u.node in c.flow.nodes
    ensures StepHuman(c, u, Undecided, w) == u
  {
  }

  lemma SameMeasure(c: Config, v: Unit, u: Unit)
    requires ValidConfig(c) && Inv(c, v) && Inv(c, u) && v.state == Running && u.state == Running
    requires SameStanding(c, v, u)
    ensures Measure(c, v) == Measure(c, u)
  {
    hide Audited, LastEntered, CountEntered, VerifyStanding, Valid, Weight;
  }

  /** How many of the events the unit acts on, in order. */
  ghost function Consumed(c: Config, u: Unit, events: seq<Event>): nat
    requires ValidConfig(c) && Inv(c, u)
    decreases |events|
  {
    if events == [] then 0
    else
      ApplyKeeps(c, u, events[0]);
      (if Consumes(u, events[0]) then 1 else 0) + Consumed(c, Apply(c, u, events[0]), events[1..])
  }

  lemma {:induction false} ConsumedBounded(c: Config, u: Unit, events: seq<Event>)
    requires ValidConfig(c) && Inv(c, u)
    ensures Consumed(c, u, events) + Measure(c, Run(c, u, events)) <= Measure(c, u)
    decreases |events|
  {
    hide Apply, Consumes, Measure, Inv;
    if events != [] {
      if Consumes(u, events[0]) {
        ConsumeDecreases(c, u, events[0]);
      } else {
        OtherEventsKeep(c, u, events[0]);
      }
      ConsumedBounded(c, Apply(c, u, events[0]), events[1..]);
    }
  }

  function Budget(maxNodes: nat, maxRounds: nat, maxRetries: nat): nat {
    maxNodes * (maxRounds + 1) * 4 * (maxRetries + 1)
  }

  /** A bound from the settings alone, whatever the flow, the reviewer and the humans do. */
  lemma RunsConsumeBoundedly(c: Config, context: string, start: Foreign, events: seq<Event>)
    requires ValidConfig(c)
    ensures Inv(c, Begin(c, FRESH_UNIT, context, start))
    ensures var s := c.settings;
            Consumed(c, Begin(c, FRESH_UNIT, context, start), events)
            <= Budget(s.maxTotalNodes, s.maxDialogueRounds, s.maxReviewerRetries)
  {
    BeginKeeps(c, context, start);
    var u := Begin(c, FRESH_UNIT, context, start);
    ConsumedBounded(c, u, events);
    MeasureBounded(c, u);
  }

  lemma MeasureBounded(c: Config, u: Unit)
    requires ValidConfig(c) && Inv(c, u)
    ensures var s := c.settings;
            Measure(c, u) <= Budget(s.maxTotalNodes, s.maxDialogueRounds, s.maxReviewerRetries)
  {
    hide Audited, LastEntered, CountEntered, VerifyStanding, Valid, Weight, Budget;
    var s := c.settings;
    if u.state == Running {
      WeightBounded(s.maxTotalNodes - u.nodeCount, s.maxTotalNodes, s.maxDialogueRounds,
                    s.maxDialogueRounds - u.dialogueRounds, Rank(u.phase), s.maxReviewerRetries, RetriesLeft(c, u));
    }
  }

  lemma WeightBounded(n: nat, top: nat, d: nat, r: nat, k: nat, m: nat, t: nat)
    requires n < top && r <= d && k <= 3 && t <= m
    ensures Weight(n, d, r, k, m, t) < Budget(top, d, m)
  {
    DigitDrop(n, top, d + 1, r, 0);
    var a := n * (d + 1) + r;
    DigitDrop(a, top * (d + 1), 4, k, 0);
    DigitDrop(a * 4 + k, top * (d + 1) * 4, m + 1, t, 0);
  }

  /** Requests for context are not counted anywhere: accepting one leaves the unit where it was. */
  lemma ContextRequestIsFree(c: Config, u: Unit, seen: Observation, w: Foreign)
    requires ValidConfig(c) && Inv(c, u) && u.state == Running && !u.paused && u.phase == JudgeWait
    requires !seen.deadlinePassed && seen.judge.JudgeReplied? && u.lastJudged != Some(seen.judge.key)
    requires AsksContext(u, seen.judge.reply) && w.promptOk && w.dispatchOk
    ensures CanStep(c, u)
    ensures var v := Apply(c, u, Poll(seen, w));
            && Inv(c, v) && v.state == Running && v.phase == JudgeWait && v.node == u.node
            && Measure(c, v) == Measure(c, u)
            && v.lastJudged == Some(seen.judge.key)
            && v.(lastJudged := u.lastJudged, ledger := u.ledger) == u
  {
    hide Audited, LastEntered, CountEntered, VerifyStanding, Valid, ParseReply;
    ApplyKeeps(c, u, Poll(seen, w));
    SameMeasure(c, Apply(c, u, Poll(seen, w)), u);
  }
}
