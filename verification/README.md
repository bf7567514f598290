# Proofs about the regime-driver kernel

regime-driver runs an agent through a flow of nodes under a reviewer and a watchdog. This
project models its deterministic kernel in Dafny and proves what every run of it keeps,
whatever the agent, the reviewer, a human or the text they write may do.

| file | part of the system |
|---|---|
| `StateMachine`, `Validate` | flow graphs: successors, the `next` spine, reachability, rework loops |
| `Branching`, `Unambiguous`, `Tokenizer`, `Conditions`, `ConditionMeanings` | the condition language of branches: grammar, lexer, parser, and what its texts mean |
| `Contract` | reading a reviewer's reply and the gate it must pass |
| `Handoff` | dialogue loop detection |
| `Workflow` | one workflow run as a step function over its state, with a ledger of what happened |
| `WorkflowUnit` | the same run as an object whose methods update its fields |
| `WorkflowRuns`, `WorkflowVerify`, `WorkflowLimits`, `WorkflowMemory` | safety over all runs: the audit, the verify command, retries and rework, outcomes, variables and decisions |
| `WorkflowProgress`, `WorkflowMockRun`, `WorkflowEscape` | progress, the run that completes, and the runs that leave the reachable nodes |
| `JsonText`, `JsonRecovery`, `JsonExtract` | JSON text (RFC 8259 sections 2 to 7), brace scanning, comma repair, recovery from prose |
| `Repetition` | n-gram repetition and half-window similarity |
| `WatchdogPolicy`, `Supervisor` | the escalation ladder, its history rule, the external supervisor's rungs |
| `WatchdogUnit`, `WatchdogHistory`, `WatchdogBounds`, `WatchdogPauses` | the in-process watchdog: its tables across pruning, when it stops a workflow for its metrics, and when it resumes a session |
| `Cluster` | isolation between workflows on one runtime |
| `Reporter` | the report journal and its rollups |
| `Cleanup`, `Workspaces`, `Scaffold` | session cleanup, workspace names, deploy and undo |

How the imperative parts are read: a class or a method with loops follows the source's code
and its `ensures` ties the new state to a specification function; the lemmas then state what
those functions promise. Signals are atomic between steps, time is a number carried by
events, and what a foreign call returns is a parameter (`Foreign`, `Observation`, `Env`).

## What the proofs found

These are places where the code does something other than its documentation or a reader
would expect. The model follows the code; each has a lemma.

- A `next` that is the empty string is followed by a run but left out of the successor list,
  so a run can enter a node the reachability check reports as dead (`EmptyNextEscapes`). A
  run stays among the reachable nodes when no reachable node has such a `next`, or the empty
  id is reachable anyway (`RunStaysReachable`). For flows of agent and judge nodes the other
  direction holds too: some run leaves them exactly when the flow starts and a walk within
  the node cap ends at such a node (`LeavesReachableIff`).
- The branch targets of an agent node count as successors, and no run takes them: an agent
  goes on along `next` only, which is why a run's walk is one of flow edges (`EnteredIsWalk`).
- A human decision that is not a mapping leaves the unit running without a phase; whatever
  follows, it stays so exactly as long as no stop and no failing resume comes
  (`MalformedDecisionWedges`).
- A request for context uses up no counter (`ContextRequestIsFree`), so the measure leaves it out.
- A resume whose continuation cannot be sent overwrites a result already given (`ResultFinalIff`,
  with such a run in `ResultOverwritten`).
- Loop detection compares the reports of the whole stretch of equal inquiries, not of the
  last `max_identical` (`EarlyChangeHidesLoop`).
- Comma repair looks past space, tab and newline but not past a carriage return
  (`TrailingCommasRepairedIff`, `CarriageReturnProtects`). It is idempotent exactly on the
  texts where no comma outside strings has a dropped comma as its next sign
  (`RepairIdempotentIff`); `[1,,]` has one (`RepairNotIdempotent`).
- Stripping white space and code fences before the search for an object never changes what is
  found (`ExtractIff`): the ends it takes hold no brace (`CleanedParts`).
- The n-gram rate counts distinct repeated grams, so it is never above one half and falls as
  a loop gets tighter (`RateMissesTightLoops`); the half-window similarity is what catches a
  periodic text (`PeriodicIsFlagged`).
- In conditions `in` and `contains` have no word boundary, so an identifier that begins with
  one is split (`IdentReadIffPlain`, `NameSplitsAtIn`). The grammar in the docstring lists a
  boolean operand that no token produces.
- A report from a unit with an empty id makes the watchdog broadcast (`UnnamedReporterStopsOthers`);
  signals reach their owner alone exactly for ids other than `""` and `"*"` (`ReachesOwnerAloneIff`).
- From 64 known sessions on, every report and every global scan drops the sessions silent for
  an hour from the watchdog's tables, their escalation ladders included. The tables are a
  function of what was reported exactly while no scan dropped the session
  (`BookkeepingIsHistory`, `LaddersAreHistory`; `CrowdIsForgotten` is an input where one
  does), and a rung can fire again without a recovery in between (`ForgottenFiresAgain`,
  `RungFiresTwice`).
- A journal line that is JSON but no object makes loading fail; rollups and journal still
  agree unless a record stands behind that line (`LoadSyncsIffClean`, `FailedLoads`).
- Retention with a negative record bound counts more removals than there were records
  (`RetainCountsIff`, `NegativeBoundOvercounts`).
- A record ingested after `close` is counted and not journaled (`ClosedIngestDrifts`).
- A cleanup can cut below its cap when two sessions share an id, and only then (`FloorIff`).
- Uninstalling removes a user's own file that already stood at a planned destination (`RoundTripIff`).

## Model

| member | source | states |
|---|---|---|
| StateMachine.ComputeSuccessors | src/regime_driver/core/state_machine.py:100-113 | the successor list is duplicate-free and holds exactly the non-empty `next` and the branch targets |
| StateMachine.Successors | src/regime_driver/core/state_machine.py:100-113 | a target is listed if and only if it is a successor by the edge relation, once |
| StateMachine.FlowPath | src/regime_driver/core/state_machine.py:115-126 | a duplicate-free path along `next` to a terminal node is returned exactly when there is one; a cycle error exactly when the spine repeats; a missing-node error exactly when it leaves the flow |
| Validate.CheckReachability | src/regime_driver/core/validate.py:110-126 | the worklist ends with exactly the nodes reachable from the start, and warns for exactly the others in order |
| Validate.WalkStaysInside | src/regime_driver/core/validate.py:110-126 | a set closed under edges contains every walk that starts in it |
| Validate.CheckBranchCycles | src/regime_driver/core/validate.py:137-158 | the warned nodes are exactly those on a cycle through at least one other node |
| Validate.ReworkWarnings | src/regime_driver/core/validate.py:144-158 | the search from one node hits a back edge exactly when that node lies on such a cycle |
| Validate.CheckSpineCycles | src/regime_driver/core/validate.py:129-134 | at most one error, and none exactly when the `next` spine ends |
| Tokenizer.Tokenize | src/regime_driver/core/branching.py:58-81 | the scanning loop yields the token sequence of the lexical rules, or fails with them |
| Tokenizer.PrintRoundTrip | src/regime_driver/core/branching.py:34-81 | any sequence of spellable tokens, printed with blanks between, is read back as it was |
| Tokenizer.TokenizePrinted | src/regime_driver/core/branching.py:58-81 | the same from any position inside a longer text |
| Tokenizer.IdentReadIffPlain | src/regime_driver/core/branching.py:34-45 | a word is read as one identifier exactly when it is no keyword and begins with neither `in` nor `contains` |
| Tokenizer.NameSplitsAtIn | src/regime_driver/core/branching.py:34-45 | a name in front of which `in` stands is read as the operator and the identifier behind it, as `index` is |
| Tokenizer.NumberShape | src/regime_driver/core/branching.py:34-45 | a text is read whole as a number exactly when it is an optional minus, digits, and optionally a point with digits |
| Tokenizer.KeywordMeans | src/regime_driver/core/branching.py:34-45 | at any place of any text, `not`, `and` and `or` are keywords in any case exactly when no letter, digit or underscore touches them |
| Tokenizer.SingleQuoted | src/regime_driver/core/branching.py:34-81 | a text without backslashes, in single quotes with its own ones escaped, is read as it was |
| Conditions.Parser.ParseOr | src/regime_driver/core/branching.py:111-117 | the cursor and the value move as the grammar function says, whatever the tokens |
| Conditions.Parser.ParseAnd | src/regime_driver/core/branching.py:119-125 | likewise for conjunctions |
| Conditions.Parser.ParseUnary | src/regime_driver/core/branching.py:127-131 | likewise for `not` |
| Conditions.Parser.ParsePrimary | src/regime_driver/core/branching.py:133-154 | likewise for parentheses, bare operands and comparisons, none after a parenthesis; what a comparison means is ComparisonMeans |
| Conditions.Parser.Parse | src/regime_driver/core/branching.py:105-109 | the whole token list must be consumed |
| Branching.ParseIffDerivable | src/regime_driver/core/branching.py:105-165 | the parser returns `v` exactly when some tree of the grammar yields the tokens, all its identifiers are known and it evaluates to `v`; the operators themselves are ComparisonMeans and BareMeans |
| Branching.ParseDerivation | src/regime_driver/core/branching.py:105-165 | on a derivable token list the result is the tree's meaning, or failure if an identifier is unknown anywhere, since nothing is skipped |
| Branching.UnaryComplete | src/regime_driver/core/branching.py:127-154 | parsing a unary tree's tokens stops at its end with its meaning |
| Branching.AndComplete | src/regime_driver/core/branching.py:119-125 | the same for left-associated conjunctions |
| Branching.OrComplete | src/regime_driver/core/branching.py:111-117 | the same for left-associated disjunctions of conjunctions |
| Branching.OrSound | src/regime_driver/core/branching.py:111-117 | every successful parse has a derivation with that value and end |
| Branching.SpansIsYield | src/regime_driver/core/branching.py:105-154 | a tree fits a stretch of tokens exactly when its yield is that stretch |
| Unambiguous.YieldInjective | src/regime_driver/core/branching.py:105-154 | two trees of the grammar have the same tokens only if they are the same tree: precedence, associativity and parentheses leave no choice |
| Conditions.EvaluateCondition | src/regime_driver/core/branching.py:179-186 | the empty condition is true; otherwise tokenize, then parse |
| Conditions.EvaluateIffDerivable | src/regime_driver/core/branching.py:58-186 | on text: success with `v` exactly when the text's tokens derive from the grammar with every identifier known and meaning `v`; the operators themselves are ComparisonMeans and BareMeans |
| Conditions.EvaluatePrinted | src/regime_driver/core/branching.py:58-186 | printing a tree and evaluating the text gives the tree's meaning |
| Unambiguous.PrintInjective | src/regime_driver/core/branching.py:34-154 | the printed text of a tree with spellable tokens determines the tree itself |
| ConditionMeanings.ComparisonMeans | src/regime_driver/core/branching.py:156-217 | the text `a in b` holds exactly when what `a` reads stands somewhere in what `b` reads, `contains` is its converse, `==` is equality of numbers or else of what both read, `!=` its negation |
| ConditionMeanings.BareMeans | src/regime_driver/core/branching.py:193-206 | a bare text holds unless it is empty or reads `false` in any case between white space, a bare number unless it is zero |
| ConditionMeanings.BlankHolds | src/regime_driver/core/branching.py:179-186 | a condition of white space alone holds |
| ConditionMeanings.StripMeans | src/regime_driver/core/branching.py:193-206 | stripping takes the white space at both ends and nothing else |
| ConditionMeanings.OrMeans | src/regime_driver/core/branching.py:111-117 | the value of two conditions written with `or` between them is the disjunction of their values, and there is none if either has none |
| ConditionMeanings.AndMeans | src/regime_driver/core/branching.py:119-125 | the same for `and` |
| ConditionMeanings.NotMeans | src/regime_driver/core/branching.py:127-131 | `not` in front of a condition turns its value round |
| Conditions.ChooseBranch | src/regime_driver/core/branching.py:220-230 | the loop returns the first branch that is true or fails |
| Conditions.FirstBranchDecides | src/regime_driver/core/branching.py:220-230 | the first branch that is not false decides: its target if true, an error if it fails |
| Conditions.GotoIsBranch | src/regime_driver/core/branching.py:220-230 | a chosen target is the target of one of the branches |
| Contract.AdvanceAcceptedIff | src/regime_driver/core/contract.py:41-117 | an advance is accepted exactly when it echoes the node, is confident enough, consistent, without blocking issues, to a valid target (none at a terminal), and the verify did not fail |
| Contract.RoutingAcceptedIff | src/regime_driver/core/contract.py:41-117 | any other action is accepted exactly when it echoes the node and meets its own verdict kinds, least confidence and required text, written out action by action; a failed verify never matters |
| Contract.AcceptedVerdict | src/regime_driver/app/reviewer.py:173-191 | what an accepted reply carries: this node, the same action and the reply itself but for the issues, and for an advance the reply unchanged |
| Contract.SaysIffFilled | src/regime_driver/core/contract.py:41-117 | a required text is there exactly when some character of it is no white space |
| Handoff.FindLoop | src/regime_driver/core/handoff.py:185-210 | the backward count over rounds with its early exit decides the loop predicate |
| Handoff.LoopMeansStalled | src/regime_driver/core/handoff.py:198-210 | a loop is reported exactly when the last `max_identical` rounds ask the same and all reports over the whole stretch of equal inquiries are the same |
| Handoff.EarlyChangeHidesLoop | src/regime_driver/core/handoff.py:198-210 | an earlier different report hides a stalled tail |
| WorkflowUnits.WorkflowUnit.Begin | src/regime_driver/app/workflow_unit.py:369-380 | the first node is entered with fresh counters |
| WorkflowUnits.WorkflowUnit.EnterNode | src/regime_driver/app/workflow_unit.py:491-513 | counts the node, stops BLOCKED past the cap, dispatches on its kind; terminates on cyclic tool and route flows |
| WorkflowUnits.WorkflowUnit.EnterJudge | src/regime_driver/app/workflow_unit.py:529-557 | runs the verify, sets the valid targets to the successors, arms the wait; that the result kept is the one returned is VerifyIsReported |
| WorkflowUnits.WorkflowUnit.EnterDeterministic | src/regime_driver/app/workflow_unit.py:982-1013 | tool, route and gate nodes decide at once and go on or end |
| WorkflowUnits.WorkflowUnit.Decide | src/regime_driver/app/workflow_unit.py:982-1013 | tool result, gate failure, branch choice or condition error, without leaving the node |
| WorkflowUnits.WorkflowUnit.ResolveDet | src/regime_driver/app/workflow_unit.py:1015-1023 | a branch target inside the flow, else `next`; no target at all on a condition error |
| WorkflowUnits.WorkflowUnit.Advance | src/regime_driver/app/workflow_unit.py:966-980 | COMPLETE at a null target, otherwise enters it |
| WorkflowUnits.WorkflowUnit.StepAgent | src/regime_driver/app/workflow_unit.py:573-620 | waits, ends on an abort or the deadline, or takes the report and moves on or back to the judge |
| WorkflowUnits.WorkflowUnit.StepJudge | src/regime_driver/app/workflow_unit.py:715-776 | one reply per key; a rejected reply is retried up to the bound |
| WorkflowUnits.WorkflowUnit.HandleVerdict | src/regime_driver/app/workflow_unit.py:778-854 | what each accepted action does: rework, context, advance, abort, report, human question |
| WorkflowUnits.WorkflowUnit.Rework | src/regime_driver/app/workflow_unit.py:804-833 | a dialogue round: loop check, round bound, new agent turn |
| WorkflowUnits.WorkflowUnit.StepHuman | src/regime_driver/app/workflow_unit.py:881-964 | yes, no, rework, malformed, or the timeout's default |
| WorkflowUnits.WorkflowUnit.OnEvent | src/regime_driver/app/workflow_unit.py:437-473 | one poll or signal maps the state as the step function does and keeps the invariant |
| WorkflowUnits.WorkflowUnit.OnStop | src/regime_driver/app/workflow_unit.py:243-246 | a stop ends a running unit |
| WorkflowUnits.WorkflowUnit.OnPause | src/regime_driver/app/workflow_unit.py:247-260 | a pause changes only the flag |
| WorkflowUnits.WorkflowUnit.OnResume | src/regime_driver/app/workflow_unit.py:261-289 | a resume clears the flag, or ends the unit when the continuation cannot be sent |
| WorkflowRuns.ApplyKeeps | src/regime_driver/app/workflow_unit.py:437-473 | every event, in every state, keeps the invariant: phase matches node kind, targets match successors, verify flag matches the ledger |
| WorkflowRuns.EveryRunAudited | src/regime_driver/app/workflow_unit.py:491-513 | in every run the node count equals the nodes entered and is at most the cap plus one, and every ledger entry was allowed when written |
| WorkflowRuns.EnteredIsWalk | src/regime_driver/app/workflow_unit.py:966-1023 | the entered nodes form a path of flow edges from the start, where an agent node goes on along its `next` only |
| WorkflowRuns.FlowEdgeIsEdgeIff | src/regime_driver/core/state_machine.py:100-113 | a flow edge is a successor edge exactly when it is not an empty `next` |
| WorkflowRuns.RunStaysReachable | src/regime_driver/core/validate.py:110-126 | every node a run enters is in the set the reachability check computes, if no reachable node has an empty `next` that leads into the flow or the empty id is itself reachable; without such a `next` the path is one of successor edges |
| WorkflowRuns.JudgeExitIsLicensed | src/regime_driver/app/workflow_unit.py:778-854 | in every run, leaving a judge node was licensed by an accepted advance naming that node and target after a verify that did not fail, or by a human yes or an advancing timeout after an accepted question to the human on the same visit |
| WorkflowRuns.FailedVerifyNeedsHuman | src/regime_driver/app/workflow_unit.py:529-557 | with the ledger's latest verify failed, the entry just before leaving is a human yes or an advancing timeout, the human was asked on this visit, and it leads to `next`; the ledger's result is tied to the command's by VerifyIsReported |
| WorkflowVerify.VerifyIsReported | src/regime_driver/app/workflow_unit.py:529-557 | in every run, while a judge is waited for, the verify flag and the standing ledger entry are what the command returned in the event that began this wait, by entering the node or after rework; where no command runs there is neither |
| WorkflowVerify.FailedVerifyLeftByHumanOnly | src/regime_driver/app/workflow_unit.py:715-776 | in every run, if that command failed, no event leads on from the node or completes the run, except that a human who is being waited for says one of the six words of assent or lets a wait time out that is set to advance |
| WorkflowVerify.YesLeadsOn | src/regime_driver/app/workflow_unit.py:906-915 | each of the six words, in any case, is recorded as a yes and leads on along `next` |
| WorkflowVerify.TimeoutMeans | src/regime_driver/app/workflow_unit.py:918-932 | a human wait that times out goes on, back to the developer, or to a blocked end, as the settings say |
| WorkflowLimits.RetriesAreExact | src/regime_driver/app/workflow_unit.py:762-775 | a judge wait survives exactly as many rejected replies as the setting says, and the next one ends the run in error |
| WorkflowLimits.RoundsAreReworks | src/regime_driver/app/workflow_unit.py:804-833 | in every run the round counter is the number of reworks the ledger shows since the node was entered, and never above its bound |
| WorkflowLimits.ReworkUsedUpIff | src/regime_driver/app/workflow_unit.py:804-808 | sending the developer back fails without an entry exactly when the ledger already shows as many reworks as allowed |
| WorkflowLimits.OutcomesHaveOneCause | src/regime_driver/app/workflow_unit.py:715-854 | in every run, TIMEOUT is exactly the deadline of a wait whose session stopped working, ABORTED an accepted abort, HUMAN an accepted report to the user |
| WorkflowLimits.DeadSessionsEnd | src/regime_driver/app/workflow_unit.py:573-740 | a session that cannot be read or a call that fails ends the run in error, an aborted session ends it blocked |
| WorkflowLimits.PausedStandsStill | src/regime_driver/app/workflow_unit.py:437-473 | until a resume or a stop, no events change anything about a paused unit |
| WorkflowMemory.VariablesAreHistory | src/regime_driver/app/workflow_unit.py:573-620 | in every run the conditions see the context the run was started with and the latest report an agent brought |
| WorkflowMemory.GateMeans | src/regime_driver/app/workflow_unit.py:982-1013 | a gate is passed by the first branch whose condition holds, ends in error at one without a value, and is blocked if all are false |
| WorkflowMemory.RouteMeans | src/regime_driver/app/workflow_unit.py:982-1013 | a route goes to the first branch whose condition holds, ends in error at one without a value, and else goes along `next` |
| WorkflowMemory.ToolMeans | src/regime_driver/app/workflow_unit.py:982-1023 | a tool's own result is what its conditions see; a target outside the flow or no branch leads along `next` |
| WorkflowRuns.CompleteOnlyAtTerminal | src/regime_driver/app/workflow_unit.py:966-980 | COMPLETE is given only at the last entered node, whose `next` is null, and at a judge only when licensed |
| WorkflowRuns.ResultFinalIff | src/regime_driver/app/workflow_unit.py:261-289 | an ended unit keeps its state and result under an event exactly when that event is not a failing resume of a unit that did not already end in error |
| WorkflowRuns.MalformedDecisionWedges | src/regime_driver/app/workflow_unit.py:898-905 | after a malformed decision, whatever events follow, the unit is still running in no phase exactly when they hold no stop and no failing resume of a paused unit with a session; until then nothing but the pause flag changes |
| WorkflowRuns.EmptyNextEscapes | src/regime_driver/core/state_machine.py:100-113 | a valid flow and a run that enters a node unreachable by successors |
| WorkflowEscape.RunAlong | src/regime_driver/app/workflow_unit.py:966-1013 | over agent and judge nodes, some run enters exactly the nodes of any walk of flow edges within the cap, and waits at its end |
| WorkflowEscape.EscapeRun | src/regime_driver/core/state_machine.py:100-113 | a walk within the cap to a node with an empty `next`, where the empty id is not reachable, gives a run that leaves the reachable nodes |
| WorkflowEscape.LeavesReachableIff | src/regime_driver/core/validate.py:110-126 | over agent and judge nodes, some run enters a node the reachability check reports as dead exactly when the spine ends and there is such a walk |
| WorkflowEscape.ResultOverwritten | src/regime_driver/app/workflow_unit.py:243-289 | a flow of agent and judge nodes, started, paused and stopped, is blocked; resumed when its continuation cannot be sent it ends in error instead |
| WorkflowProgress.ConsumeDecreases | src/regime_driver/app/workflow_unit.py:573-964 | each consumed event lowers the measure of nodes left, rounds left, phase rank, retries left, or ends the run |
| WorkflowProgress.OtherEventsKeep | src/regime_driver/app/workflow_unit.py:437-473 | no other event raises it |
| WorkflowProgress.ConsumedBounded | src/regime_driver/app/workflow_unit.py:437-473 | consumed events plus the measure left never exceed the measure at the start |
| WorkflowProgress.RunsConsumeBoundedly | src/regime_driver/app/workflow_unit.py:369-473 | in every run the consumed events are at most a number fixed by the three settings |
| WorkflowProgress.AdvanceMoves | src/regime_driver/app/workflow_unit.py:966-1013 | advancing, through any chain of tool and route nodes, enters a node or ends |
| WorkflowProgress.ContextRequestIsFree | src/regime_driver/app/workflow_unit.py:834-837 | a context request keeps node, phase, counters and measure |
| WorkflowMockRun.MockVerdictAccepted | src/regime_driver/testing/mock_client.py:189-196 | the mock's default verdict passes the gate at every judge node of a plain flow |
| WorkflowMockRun.MockStep | src/regime_driver/testing/mock_client.py:183-196 | one mock reply moves the run one node along the spine |
| WorkflowMockRun.MockAdvances | src/regime_driver/testing/mock_client.py:183-196 | after k replies the run has entered the first k+1 spine nodes, or has ended where it should |
| WorkflowMockRun.CompletingRun | src/regime_driver/testing/mock_client.py:183-196 | a plain flow of L nodes is entered in spine order and ends COMPLETE at its last node if L is within the cap, else BLOCKED at the first node past it |
| JsonRecovery.TryFromClose | src/regime_driver/core/json_utils.py:48-73 | the character loop finds the position the depth, string and escape automaton defines |
| JsonRecovery.ScanStopsAtObjectEnd | src/regime_driver/core/json_utils.py:48-73 | from an object's first brace, whatever follows, the scan stops at that object's own closing brace |
| JsonRecovery.NeutralValue | src/regime_driver/core/json_utils.py:48-73 | any JSON value, with braces and quotes inside strings, leaves the scan's depth as it was |
| JsonRecovery.StripTrailingCommas | src/regime_driver/core/json_utils.py:94-125 | the repair loop computes the repair function |
| JsonRecovery.RepairDropsOnlyCommas | src/regime_driver/core/json_utils.py:94-125 | on every text the repair deletes only commas outside strings and keeps every other character in its string or escape state |
| JsonRecovery.RepairIsIdentityOnJson | src/regime_driver/core/json_utils.py:94-125 | on every valid JSON text the repair changes nothing |
| JsonRecovery.TrailingCommasRepairedIff | src/regime_driver/core/json_utils.py:94-125 | one trailing comma in any containers is repaired to the ordinary print exactly when no carriage return stands between comma and closer |
| JsonRecovery.RepairNotIdempotent | src/regime_driver/core/json_utils.py:94-125 | repairing `[1,,]` twice drops both commas, once drops one |
| JsonRecovery.RepairIdempotentIff | src/regime_driver/core/json_utils.py:94-125 | on every text, repairing again changes nothing exactly when no comma outside strings has a comma the repair drops as its next non-blank character |
| JsonRecovery.CarriageReturnProtects | src/regime_driver/core/json_utils.py:94-125 | `[1,` carriage return `]` is left as it is |
| JsonExtract.ExtractJson | src/regime_driver/core/json_utils.py:13-45 | the method with its fence stripping and candidate loop computes the extraction function, whose meaning is ExtractIff |
| JsonExtract.LoadCandidate | src/regime_driver/core/json_utils.py:76-91 | parse, else repair and parse |
| JsonExtract.ExtractIff | src/regime_driver/core/json_utils.py:13-91 | on every text as it is, white space and fences included: `x` is extracted exactly when the balanced part of some opening brace loads as `x`, plain or repaired, and that of no earlier brace loads; nothing exactly when none loads |
| JsonExtract.CleanedParts | src/regime_driver/core/json_utils.py:36-39 | stripping white space and fences takes ends without braces |
| JsonExtract.BraceFreeLoadsNothing | src/regime_driver/core/json_utils.py:40-44 | a text without an opening brace is such a text from which nothing loads |
| JsonExtract.ExtractFindsObject | src/regime_driver/core/json_utils.py:13-91 | an object behind any text from which nothing loads, braces or not, and before any text, is the one extracted |
| JsonExtract.RecoverObject | src/regime_driver/core/json_utils.py:13-91 | it is returned as parsed, also when it carries trailing commas |
| Repetition.NgramRepetitionRate | src/regime_driver/core/repetition.py:87-97 | the counting loop finds exactly the grams that occur twice; the rate is their number over the positions |
| Repetition.RepeatedAtMostHalf | src/regime_driver/core/repetition.py:87-97 | twice the repeated grams are at most the positions |
| Repetition.RepeatedAtMostPeriod | src/regime_driver/core/repetition.py:87-97 | under period p there are at most p repeated grams |
| Repetition.SimilarityOneIff | src/regime_driver/core/repetition.py:99-110 | similarity lies in [0,1] and is 1 exactly when both halves hold the same tokens |
| Repetition.PeriodicHalvesEqual | src/regime_driver/core/repetition.py:99-110 | a period of at most half the window makes both halves' token sets equal |
| Repetition.Check | src/regime_driver/core/repetition.py:63-85 | short texts pass; otherwise only the last `window_tokens` are looked at, the rate is the grams that stand at two places there over its positions, the similarity the common tokens of its halves over the larger set, and one at its threshold is enough |
| Repetition.PeriodicIsFlagged | src/regime_driver/core/repetition.py:63-110 | every text whose window has a period of at most half of it is flagged |
| Repetition.LoopingTailIsFlagged | src/regime_driver/core/repetition.py:63-110 | whatever came before, a text that ends in a window with a period of at most half of it is flagged |
| Repetition.RateMissesTightLoops | src/regime_driver/core/repetition.py:87-97 | under period p the rate is at most one half and at most p over the positions |
| WatchdogPolicies.WatchdogPolicy.Decide | src/regime_driver/app/watchdog_policy.py:207-258 | probes, rules, ladder climb and emission, as the step function says |
| WatchdogPolicies.LadderIsWorst | src/regime_driver/app/watchdog_policy.py:207-258 | after any calls, a session's ladder stands at its worst hit since its last recovery |
| WatchdogPolicies.DecideIsHistoryRule | src/regime_driver/app/watchdog_policy.py:207-250 | an action is emitted exactly when its severity exceeds every hit of that session since its last recovery |
| WatchdogPolicies.DecideRefinesHistory | src/regime_driver/app/watchdog_policy.py:202-258 | the same for the whole call, probes and ladder table included |
| WatchdogPolicies.GatedIffNoDeterministicRule | src/regime_driver/app/watchdog_policy.py:222-250 | an emission is meta-gated exactly when no firing deterministic rule proposes its action |
| WatchdogPolicies.EpisodeClimbs | src/regime_driver/app/watchdog_policy.py:49-86 | emissions of an episode strictly climb and are at most as many as the ladder's actions |
| WatchdogPolicies.SessionsIsolated | src/regime_driver/app/watchdog_policy.py:184-185 | a session's ladder depends on its own calls alone |
| WatchdogPolicies.AnswersIsolated | src/regime_driver/app/watchdog_policy.py:184-250 | so does every answer |
| WatchdogPolicies.Severity | src/regime_driver/app/watchdog_policy.py:222-246 | the highest ladder index among firing rules, attained by one of them, -1 if none fires |
| WatchdogPolicies.NoActivityMeans | src/regime_driver/app/watchdog_policy.py:108-122 | the silence rule holds of a busy session exactly when the later of activity and message, or without either the first busy poll, is as long ago as asked |
| WatchdogPolicies.EnrichInOrder | src/regime_driver/app/watchdog_policy.py:202-205 | the probes run in their order, each on what the ones before it made |
| Supervisors.ExternalSeverity | src/regime_driver/supervisor.py:133-165 | the rung at silence s is min(4, floor(s / stall_sec)) |
| Supervisors.RungFiresOnce | src/regime_driver/supervisor.py:133-165 | over any polls of growing silence a rung fires exactly at the first poll that reaches it |
| Supervisors.HumanAtFourStalls | src/regime_driver/supervisor.py:133-165 | over any polls of growing silence, human fires exactly at the first with four stalls |
| Supervisors.EvidenceClock.Poll | src/regime_driver/supervisor.py:504-533 | recovery on progress or idleness; otherwise silence counted from the last sign of life or the first busy poll |
| Supervisors.SilenceGrows | src/regime_driver/supervisor.py:504-533 | over any run of the supervisor's own clock at times that do not go back, the polls since the last recovery have growing silence, and the ladder remembers nothing from before them |
| Supervisors.EvidenceClock.Pass | src/regime_driver/supervisor.py:504-533 | one round of the supervisor: the clock after it and the call it makes are those of the tick function |
| Supervisors.SupervisorActs | src/regime_driver/supervisor.py:133-165 | over any run of that clock, a poll acts exactly when the session has not recovered and its silence reaches a higher rung than at the poll before, with that rung's action |
| Supervisors.SupervisorAsksHuman | src/regime_driver/supervisor.py:133-165 | over any run of that clock, the human is asked exactly at the first poll of a silent stretch with four stalls |
| Supervisors.SilenceIsTime | src/regime_driver/supervisor.py:504-533 | that silence is the time since the last progress, or since the stretch's first busy poll when there was none |
| Supervisors.LadderState.ChooseAction | src/regime_driver/supervisor.py:95-109 | a gated verdict gives the correction chosen by the flags and sets them; any other gives none |
| Supervisors.LadderState.SecondOpinion | src/regime_driver/supervisor.py:535-554 | the action becomes the gated correction exactly when that stands higher on the ladder, else stays; the ladder flags are those the correction sets even when it is not taken |
| Supervisors.MetaGateMeans | src/regime_driver/supervisor.py:54-92 | the gate row by row: allowed actions per verdict and least confidence per action |
| Supervisors.ChooseMeans | src/regime_driver/supervisor.py:95-109 | a fallback and a restart once each, then the next step up; exactly what is chosen is marked as used |
| Supervisors.FallbackAndRestartOnce | src/regime_driver/supervisor.py:95-109 | over any calls on one ladder state, at most one fallback and one restart |
| WatchdogUnits.WatchdogUnit.HandleReport | src/regime_driver/app/watchdog_unit.py:126-164 | a report's answer, then the global scan, as the step functions say |
| WatchdogUnits.WatchdogUnit.AnswerReport | src/regime_driver/app/watchdog_unit.py:126-164 | dead loop, auto-resume of a paused session, or the policy's action |
| WatchdogUnits.WatchdogUnit.EvidenceFrom | src/regime_driver/app/watchdog_unit.py:166-192 | freshness bookkeeping and the evidence drawn from it |
| WatchdogUnits.WatchdogUnit.IsRecovered | src/regime_driver/app/watchdog_unit.py:194-209 | idle or freshly active is recovered; idleness forgets the session's times |
| WatchdogUnits.WatchdogUnit.ScanBoard | src/regime_driver/app/watchdog_unit.py:284-311 | every workflow's three bounds are checked in order; when one counts as passed is ScanStopsIff |
| WatchdogUnits.WatchdogUnit.FireOnce | src/regime_driver/app/watchdog_unit.py:323-327 | a crossed guard sends one stop per workflow |
| WatchdogUnits.WatchdogUnit.PruneStale | src/regime_driver/app/watchdog_unit.py:329-338 | from 64 sessions on, those silent for an hour are dropped from every table |
| WatchdogUnits.AnswerGoesToSender | src/regime_driver/app/watchdog_unit.py:126-164 | a report's own answer is at most one signal, to its sender |
| WatchdogUnits.ReportAnswers | src/regime_driver/app/watchdog_unit.py:126-164 | every signal of one report answers its sender or a workflow whose metric crossed its bound, and no guard fires again |
| WatchdogUnits.ScanAnswers | src/regime_driver/app/watchdog_unit.py:284-327 | a scan sends only stops for passed bounds, each guard once per workflow; ScanStopsIff says when a bound is passed and that it is then answered |
| WatchdogBounds.ScanStopsIff | src/regime_driver/app/watchdog_unit.py:284-327 | a scan stops a listed workflow for its time, its nodes or its heartbeat exactly when the bound is set, the metric is there and past it, and that guard has not fired for it |
| WatchdogBounds.StoppedAtFirstCrossing | src/regime_driver/app/watchdog_unit.py:284-327 | over any reports and scans, a workflow is stopped for a bound exactly at the first scan that finds it passed |
| WatchdogBounds.StopsGoToOffender | src/regime_driver/app/watchdog_unit.py:323-327 | one report or scan sends at most one stop per workflow and bound, to that workflow |
| WatchdogPauses.EmissionMeans | src/regime_driver/app/watchdog_unit.py:211-230 | an emission is one signal to the sender: an escalation if gated or a fallback, else the signal of its action, else a stop |
| WatchdogPauses.PausesAreHistory | src/regime_driver/app/watchdog_unit.py:149-158 | for a session every scan spared, the table of pauses says since when it is reported paused without having been resumed |
| WatchdogPauses.ResumedAfterWait | src/regime_driver/app/watchdog_unit.py:145-159 | a paused report is answered by a resume exactly when that pause has lasted the configured time, and by nothing before |
| WatchdogPauses.PauseGoesOn | src/regime_driver/app/watchdog_unit.py:149-158 | paused reports before the time is up leave the beginning of the pause as it is |
| WatchdogHistory.BookkeepingIsHistory | src/regime_driver/app/watchdog_unit.py:126-338 | over any reports and scans with their pruning, at every moment the tables hold the freshest activity of a session since idle and since when it is busy without any, exactly when every scan so far spared the session: fewer than 64 sessions known, or this one active within the hour, or nothing to forget |
| WatchdogHistory.LoopingIsHistory | src/regime_driver/app/watchdog_unit.py:126-139 | a session is marked as looping exactly when its latest text looped, whatever was pruned |
| WatchdogHistory.LoopStoppedOnce | src/regime_driver/app/watchdog_unit.py:126-164 | the first text of a looping stretch is answered by a stop; every later one, whatever comes between, is answered as if it did not loop |
| WatchdogHistory.LaddersAreHistory | src/regime_driver/app/watchdog_unit.py:329-338 | at every moment a session's ladder is what its calls built, exactly when no scan took a rung from it |
| WatchdogHistory.SparedLadder | src/regime_driver/app/watchdog_unit.py:329-338 | a session no scan forgot has lost no rung |
| WatchdogHistory.EmissionIsHistoryRule | src/regime_driver/app/watchdog_unit.py:126-164 | while no scan took a rung, an unpaused report is answered exactly as the history rule says of all calls made so far |
| WatchdogHistory.CallIsHistory | src/regime_driver/app/watchdog_unit.py:166-209 | for a session every scan spared, the evidence of its next call is a function of its reports alone |
| WatchdogHistory.ForgottenFiresAgain | src/regime_driver/app/watchdog_unit.py:329-338 | a session just forgotten is acted on again at its next hit, without recovery, where the history rule asks for nothing |
| WatchdogHistory.CrowdIsForgotten | src/regime_driver/app/watchdog_unit.py:329-338 | 64 sessions at time 1 and one more at 5000: the first is forgotten and the tables no longer follow the reports |
| WatchdogHistory.RungFiresTwice | src/regime_driver/app/watchdog_unit.py:329-338 | a policy and reports where one rung of one session fires twice without a recovery |
| Cluster.Runtime.Post | src/regime_driver/app/statechart_runtime.py:136-144 | the signal is appended to the target's queue, or nothing happens and the sender is told |
| Cluster.Runtime.Broadcast | src/regime_driver/app/statechart_runtime.py:146-149 | the signal is appended to every queue, the sender's own included |
| Cluster.Runtime.Take | src/regime_driver/app/statechart_runtime.py:71-84 | a unit takes the oldest signal of its own queue |
| Cluster.QueuesAreFifo | src/regime_driver/app/statechart_runtime.py:71-149 | what is posted or broadcast is taken last, behind all that was in the queue before, and a post changes no other queue |
| Cluster.ReachesOwnerAloneIff | src/regime_driver/app/watchdog_unit.py:211-244 | whoever is registered, a signal reaches its owner alone exactly when the id is neither empty nor the broadcast mark |
| Cluster.RunsAreIsolated | src/regime_driver/app/watchdog_unit.py:126-327 | in every interleaving, each watchdog signal in B's queue answers a report B sent or a metric B wrote that crossed its bound, and fired guards are spent |
| Cluster.StopsAreOwn | src/regime_driver/app/statechart_runtime.py:111-149 | the same, read off for one queued signal |
| Cluster.GuardsFireOnce | src/regime_driver/app/watchdog_unit.py:323-327 | over a whole run, whatever the ids, no global guard stops one workflow twice |
| Cluster.RunStopsIff | src/regime_driver/app/watchdog_unit.py:284-327 | over a whole run, a workflow is sent a stop for a bound exactly when some scan of the run found it passed |
| Cluster.RunsWatchIsHistory | src/regime_driver/app/watchdog_unit.py:126-164 | in every interleaving the watchdog's state is the one its heard reports and scans lead to, so what holds of histories holds of runs |
| Cluster.UnnamedReporterStopsOthers | src/regime_driver/app/watchdog_unit.py:133-137 | an unnamed reporter's looping text stops any other workflow |
| Reporter.Rollup.Apply | src/regime_driver/app/reporter.py:70-86 | one record updates the counters |
| Reporter.ReportBus.Ingest | src/regime_driver/app/reporter.py:123-142 | the record is counted, and journaled while the journal is open |
| Reporter.ReportBus.Load | src/regime_driver/app/reporter.py:221-246 | rollups are rebuilt from the journal, skipping malformed lines and failing at a line that is no object |
| Reporter.ReportBus.Retain | src/regime_driver/app/reporter.py:248-300 | the journal is cut to its young tail and the rollups rebuilt from it |
| Reporter.GroupedIsFoldOfGroups | src/regime_driver/app/reporter.py:172-178 | counting as records come equals grouping by project and workflow and folding each group |
| Reporter.CountersMean | src/regime_driver/app/reporter.py:70-86 | a group's counters are the counts of its records per kind and verdict, its first time, and the fields of its latest node and outcome |
| Reporter.KindCountsSum | src/regime_driver/app/reporter.py:70-86 | kind counts over all rollups sum to the number of records |
| Reporter.RunsStayInSync | src/regime_driver/app/reporter.py:123-300 | after any ingests, loads and retentions the rollups are those of the journal, and their counts sum to its records |
| Reporter.LoadSyncsIffClean | src/regime_driver/app/reporter.py:221-246 | a load succeeds exactly when no line is a JSON non-object; its rollups are those of all records exactly when no record stands behind the first such line; loading again gives the same |
| Reporter.FailedLoads | src/regime_driver/app/reporter.py:221-246 | a failed load that misses nothing, and one that misses a record |
| Reporter.ClosedIngestDrifts | src/regime_driver/app/reporter.py:137-142 | an ingest after close breaks that agreement |
| Reporter.RetainCountsIff | src/regime_driver/app/reporter.py:257-300 | removed plus kept is the number of non-blank lines exactly when the record bound is absent or not negative |
| Reporter.NegativeBoundOvercounts | src/regime_driver/app/reporter.py:257-300 | one record under the bound -1: two removals are reported |
| Reporter.RetainKeepsTail | src/regime_driver/app/reporter.py:260-282 | what is kept is the tail of the entries whose time lies within the age bound, as long as the record bound allows |
| Reporter.YoungInOrder | src/regime_driver/app/reporter.py:260-277 | those young entries are all the entries of the journal within the age bound, in its order, a record without a time counting as of time zero |
| Reporter.RetainIdempotent | src/regime_driver/app/reporter.py:248-300 | retaining again at the same time removes nothing |
| Cleanup.PlanCleanup | src/regime_driver/app/session_cleanup.py:120-173 | the plan is the chosen candidates, and the skip counts and candidates add up to the sessions |
| Cleanup.OldestFirstSorts | src/regime_driver/app/session_cleanup.py:168-168 | the order is by age, oldest first, same elements, equal ages as they were |
| Cleanup.PlanIsOldestDeletable | src/regime_driver/app/session_cleanup.py:120-173 | never a busy, unnamed or too young session, ages written out; min(sessions above the cap, candidates) many; none kept is older |
| Cleanup.CandidatesInOrder | src/regime_driver/app/session_cleanup.py:145-166 | the candidates are all the sessions that are named, idle and old enough, in their order |
| Cleanup.AgeMeans | src/regime_driver/app/session_cleanup.py:111-117 | the age is the whole seconds since creation, and zero without a creation time or with one in the future |
| Cleanup.PlanRemoves | src/regime_driver/app/session_cleanup.py:165-173 | carrying the plan out removes at least that many sessions and candidates |
| Cleanup.PlanIsIdempotent | src/regime_driver/app/session_cleanup.py:120-173 | planning again on the survivors deletes nothing, even when ids are shared |
| Cleanup.NeverBelowCap | src/regime_driver/app/session_cleanup.py:134-173 | with distinct ids the survivors are exactly that many fewer and never below the cap |
| Cleanup.FloorIff | src/regime_driver/app/session_cleanup.py:134-173 | the floor holds under every policy and busy set exactly when named sessions have distinct ids |
| Workspaces.AutoWorkspaces | src/regime_driver/parallel.py:132-154 | one name per task, pairwise distinct, each the first free attempt; a requested name is kept exactly when no earlier task has it |
| Workspaces.FreshNumbered | src/regime_driver/parallel.py:140-145 | the numbered search ends at the first free variant |
| Workspaces.FreshSuffixed | src/regime_driver/parallel.py:149-151 | the suffix search ends at the first free name |
| Workspaces.AttemptsBounded | src/regime_driver/parallel.py:140-153 | attempts all in use are at most as many as the names in use |
| Workspaces.AttemptNames | src/regime_driver/parallel.py:138-153 | a requested name is tried as it is, then with `-1`, `-2` and so on; an automatic one carries its place and then `-x` repeatedly |
| Workspaces.DecimalReadsBack | src/regime_driver/parallel.py:143-149 | the number in a name reads back as that number, without leading zero |
| Workspaces.AssignmentUnique | src/regime_driver/parallel.py:132-154 | first-free assignment determines the names |
| Workspaces.DistinctRequestsKept | src/regime_driver/parallel.py:132-154 | distinct requests for all tasks come back as they are |
| Scaffold.Dedupe | src/regime_driver/scaffold.py:184-194 | the loop keeps one item per destination |
| Scaffold.DedupeKeepsFirst | src/regime_driver/scaffold.py:184-194 | every destination survives once, with the first item planned for it |
| Scaffold.Target.Scaffold | src/regime_driver/scaffold.py:197-238 | copied and skipped items, the files, and the manifest; nothing changes in a dry run |
| Scaffold.Target.WriteManifest | src/regime_driver/scaffold.py:241-274 | every planned file that exists is recorded with its hash |
| Scaffold.Target.Uninstall | src/regime_driver/scaffold.py:299-350 | each recorded file is removed, kept or missing; the manifest goes last |
| Scaffold.Target.CheckDeployed | src/regime_driver/scaffold.py:353-375 | ok exactly when nothing drifted; missing and modified divide what did |
| Scaffold.UndoRemovesWhatIsAsDeployed | src/regime_driver/scaffold.py:197-350 | after any edits an uninstall removes exactly the planned files still as deployed and deletable, and leaves every other file |
| Scaffold.DeployedIsOk | src/regime_driver/scaffold.py:241-375 | right after a deployment the check is ok |
| Scaffold.RoundTripIff | src/regime_driver/scaffold.py:197-350 | deploy then undo takes away exactly the planned destinations, and gives the files back exactly when none of them existed |
| Scaffold.RedeployChangesNothing | src/regime_driver/scaffold.py:197-238 | deploying again without force changes and copies nothing |
| Scaffold.OkIffAllWouldGo | src/regime_driver/scaffold.py:299-375 | the check is ok exactly when a dry-run uninstall would remove every recorded file |
| Scaffold.FatesPartition | src/regime_driver/scaffold.py:319-336 | the three lists hold as many paths as the manifest; with distinct paths, a path is in the list of a fate exactly when its file before the uninstall deserved that fate |
| Scaffold.FateMeans | src/regime_driver/scaffold.py:319-340 | a recorded file goes exactly when it is inside, as deployed and deletable; it is missing exactly when it is inside and gone |
| Scaffold.ReportedIff | src/regime_driver/scaffold.py:212-232 | a planned item is reported copied exactly when its file was not there before or is forced, and skipped otherwise |

## Left out

- RunStaysReachable: the converse is proved for flows of agent and judge nodes (LeavesReachableIff). With tool, route and gate nodes, whether a run can take a branch depends on whether its condition can hold of values only tools and agents produce, so the graph alone does not decide it.
- Threads and locks: a step, a signal and a queue read are atomic; the nested signal drain while a dispatch is awaited, and two threads inside the watchdog's guard set at once, are not modelled.
- Wall-clock time: it is a number carried by events; the several clock reads inside one watchdog handler are one.
- HTTP, SSE, docker, subprocesses, files as bytes, the CLI and the web panel: what they return is a parameter.
- Session rotation, hand-over documents, hooks and skill loading during a transition: they do not choose the next node.
- Telling a session's own abort from a foreign one: a foreign abort is an event that ends the run.
- A second submit to a unit that is already running, and foreign calls that raise outside the source's own `try`, other than the judge prompt and the role lookups of a transition.
- Prompt and report wording, and the text of context a reviewer asked for.
- The words of `repetition.tokenize` (CJK segmentation): the detector is proved over any token type.
- Unicode: identifiers, digits and white space are the ASCII classes; numbers in conditions are compared through an abstract reading (`Numerics`), rates are exact rationals.
- `json.loads`: a parameter of the recovery; a Python reader accepts a little more than RFC 8259.
- Ladder objects: a session's ladder is a value in a table, so sharing of one ladder by two sessions cannot be expressed.
- Actions whose own name begins with `meta:` would be read as gated by the watchdog; names are used as they are.
- Reports without a session id: every report carries one.
- A second watchdog registered under the same id, and a unit that replaces the watchdog.
- Directories: emptied parent directories are pruned in the source and are no part of the model; the manifest is kept apart from the files, so a plan that contains the manifest's own path is not modelled.
- SHA-256 is an injective function; which packaged files make up a plan is an input, and so is whether a path lies inside the target.
- Journal lines come as what parsing makes of them; a last line without a newline, and fields of the wrong type, are not modelled.
- Permission ordering, settings loading, registry versions, blackboard get and set, deep validation of roles, skills and tools: single lookups.
