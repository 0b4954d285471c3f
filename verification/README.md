# The Overture workflow kernel, modelled and proved

This project models the parts of Overture that decide what a workflow does, and proves what holds of
them over every input, every schedule and every run: the step scheduler, the graph engine with its
validator and its dry-run walk, the expression language, the durable run protocol, experiments, the
agent loop, gates, child-run joins and the managed section of work items.

Code that the source writes step by step is written so here: methods with loops over local or object
state, proved equal to specification functions or against relations over them. What the specification
means is proved about it in lemmas. Whatever the source takes from outside (agents, tools, clocks,
expressions over scopes, the order in which tasks settle) is left to nondeterministic choice, so that
every theorem holds for whatever it turns out to be.

## How the files fit together

| files | subject |
|---|---|
| `Wrappers`, `StringOrder`, `Digraph` | optional values and results; the order of strings; walks, reachability, acyclicity, rankings |
| `WorkflowSchema` | the structural checks of step definitions, with the depth-first search for cycles |
| `Expressions`, `ExpressionLaws`, `ExpressionGrammar`, `ExpressionTokens`, `ExpressionNumbers`, `ExpressionPrinter`, `ExpressionErrors`, `ExpressionParser` | `when` expressions: evaluation and its laws, grammar, tokens, printing, syntax errors, and the parser's loops |
| `WorkflowEngine`, `WorkflowConfluence`, `WorkflowSchedules`, `WorkflowTaint`, `WorkflowTotality`, `WorkflowMeaning`, `WorkflowExecute` | the scheduler as transitions, the meaning of a dependency graph, why every schedule computes it, and who is skipped, runs and succeeds by it |
| `GraphModel`, `GraphValidate` | workflow graphs and their validator |
| `GraphRun`, `GraphAccounting`, `GraphBound`, `GraphRounds`, `GraphFirings`, `GraphMeaning` | firing, joins and loop bounds; runs as steps and rounds; firings and executions; what joins, settlements and retries come to |
| `GraphEngine`, `GraphWalk`, `GraphExamples`, `GraphDiamond`, `GraphAttained` | the durable tick; the dry-run walk; validated graphs and runs that show where promises fail, and that the bound is attained |
| `RunStates`, `RunStore`, `Coordinator`, `RunLifetime` | run states, persisted rows, the coordinator's writes, and lives of runs with crashes |
| `ExperimentModel`, `Experiments`, `ExperimentInvariant`, `ExperimentRuns`, `ExperimentLaws`, `ExperimentRunner` | the resumable experiment machine, what its scores, phases and judgments mean, and its stepper |
| `Conversation`, `AgentSessions`, `AgentLoop` | the agent loop, its conversations, sub-agents and compaction |
| `Gates`, `ChildJoins`, `ManagedSection` | gates and their dry run, joins over child runs, splicing managed text |

## What the proofs brought to light

Each of these is a theorem below, with the exact condition where there is one.

- The scheduler's loop ends when nothing is pending, even if tasks are still in flight. Where steps run
  unconditionally, every schedule yields a result for every step exactly if there is one sink step or the
  concurrency limit is one (`WorkflowTotality.TotalIffOneSinkOrSerial`). For definitions with `when` only
  the sufficient half is proved: one sink that can run at the end, or a limit of one
  (`WorkflowSchedules.FullRunSettlesAll`).
- The dry-run walk says that it mirrors the durable engine. Without a declared join the engine counts all
  firings into a node and the walk only those of the busiest transition, so that they decide alike exactly
  if a join is declared or no other transition into the node has fired more often
  (`GraphWalk.DecideAlikeIff`). In a loop that enters a node by a second transition the run completes
  where the walk stalls (`GraphExamples.LoopStallsTheWalkAlone`).
- Without a declared join a node is to execute once for every inbound firing, which
  `docs/durable-workflows.md:308-314` promises, of parallel branches too. Over a whole run it falls short of
  that by exactly the firings that met it active: they are counted but never executed
  (`GraphFirings.LostFiringsAreThoseMet`), and converging branches do that
  (`GraphDiamond.DiamondLosesAnExecution`).
- Waits are written before the graph state that waits for them, so a waiting node should never be without
  its condition. This fails exactly when a tick ends otherwise than waiting while a node that has begun to
  wait in it still waits and has no open row: then the state is saved and the wait is not
  (`Coordinator.AllStandIffNoneStranded`, `Coordinator.SettleEnded`, `RunLifetime.CompletionStrandsAWait`).
  Recovery's branch for missing conditions is never needed otherwise (`RunStore.MissingIffNoRow`,
  `Coordinator.Reconcile`).
- A run whose completed graph state is saved may lose its process before it is marked completed. Its state
  has nothing left to execute exactly if the terminal node was the only active one, and then recovery can
  only fail or cancel it (`RunLifetime.EndedRunsOutIffAlone`, `Coordinator.Recover`). Otherwise recovery
  executes what is left in the order of ids. It completes the run only if rounds of that reach a completing
  terminal node again. If the first that is left is a terminal node, as when all paths have arrived, this
  node alone decides: the run can be completed exactly if it completes it, and a completed run can be
  recovered as failed (`RunLifetime.EndedCanCompleteIff`, `RunLifetime.CompletionIsDecidedAgain`).
- A waiting node has an open row, or an answer that is still to be consumed, exactly unless its wait was
  withdrawn (`RunStore.AnswerToComeIffNotWithdrawn`). A cancellation cut off after its first write leaves a
  parked run with its waits withdrawn: recovery leaves it parked with nobody to answer it exactly if none of
  its waiting nodes was ever answered (`RunStore.WithdrawnIsStuckIff`), and resumes it otherwise, be it with
  an answer consumed before (`RunStore.ReplaysLatestIffNotWithdrawn`, `RunLifetime.CutOffCancel`).
- Children of a node run detached and may settle before the parent's wait is saved; a child that fails by a
  thrown error or is cancelled while parked settles without looking at the wait. The wait is satisfied at
  most once, by the final outcome, and exactly if the last look at the saved row finds the join decided
  (`ChildJoins.WatchChildren`, `ChildJoins.LastLookDecides`); otherwise it stays open though every child has
  settled (`ChildJoins.SettledUnnoticed`).
- A run found preparing is driven again on recovery, but the transition table does not let it wait,
  complete or block: it can only fail or be cancelled (`Coordinator.Drive`).
- The conversation that a session has saved last is well-formed exactly if it was saved with every call of
  its last response answered. A session that ends within a call, by completing or giving up its goal, asking
  a human or being blocked by policy, and one that is aborted between the calls of a response, save
  unanswered calls: a session resumed from there does not start well-formed (`AgentLoop.RunLoop`). A thrown
  error loses the usage of everything below it (`AgentSessions.UsageIsConserved`).
- The marker that limits evidence passes is looked for as a prefix, and iteration 1's marker also starts
  iteration 10's lesson. It is harmless because iterations only grow (`ExperimentRuns.PassDoneIffPassed`,
  `ExperimentRuns.LaterMarkerMisleads`).
- Managed content is read back as it was written exactly if it has no end marker in it, and can be
  replaced again exactly if it has neither marker (`ManagedSection.ReadBackIffNoEndMarker`,
  `ManagedSection.UpsertAgainIffNoMarker`).
- Remediation cannot change a gate that is an expression: a failing one uses up every attempt before it
  fails (`Gates.EvaluateGates`).

## Model

| member | source | states |
|---|---|---|
| WorkflowSchema.FindCycle | packages/workflow/src/schema.ts:127-161 | nothing is found exactly if the known dependencies are acyclic, and otherwise a closed walk of real dependencies |
| WorkflowSchema.CycleFinder.Visit | packages/workflow/src/schema.ts:132-156 | the three-colour search: what it leaves finished has only finished successors, and what it reports is a closed walk through the open stack |
| WorkflowSchema.ValidateSteps | packages/workflow/src/schema.ts:175-216 | no issue exactly for well-formed definitions; every repeated id, unknown dependency and one cycle are reported, and nothing else |
| Expressions.EvaluateReadsMentioned | packages/workflow/src/expressions.ts:288-337 | evaluation depends on nothing but the steps that the expression names and the variables; what it yields is stated by the laws below |
| Expressions.EvaluateThrowsOnlyOnAbsent | packages/workflow/src/expressions.ts:288-337 | evaluation throws only over an absent step or variable that the expression names |
| ExpressionLaws.EqualityIsIdentity | packages/workflow/src/expressions.ts:333-335 | two expressions compare equal exactly if their values are the same and not not-a-number; `!=` is the negation of `==` |
| ExpressionLaws.FalsyValues | packages/workflow/src/expressions.ts:320-332 | the falsy values are undefined, null, false, zero, not-a-number and the empty string |
| ExpressionLaws.TruthTables | packages/workflow/src/expressions.ts:320-332 | negation, conjunction and disjunction are the truth tables of their operands, and booleans |
| ExpressionLaws.ShortCircuits | packages/workflow/src/expressions.ts:320-332 | an error of the right operand is hidden exactly where the left one decides |
| ExpressionLaws.ReferencesAreLookups | packages/workflow/src/expressions.ts:300-318 | variables and outputs are looked up; an output that was not recorded is undefined, an unknown name an error |
| ExpressionLaws.StatusFieldsAgree | packages/workflow/src/expressions.ts:288-312 | of succeeded, failed and skipped exactly the one of the recorded status holds, as comparing the status to its name does |
| ExpressionGrammar.ReferencesAreTheirPaths | packages/workflow/src/expressions.ts:169-199 | a path parses to a reference exactly if it spells that reference with dot-free names |
| ExpressionGrammar.TreeIsParsed | packages/workflow/src/expressions.ts:202-282 | parsing a tree of the grammar stops right behind it with its expression, whatever follows that does not extend it |
| ExpressionGrammar.ParsesExactlyTheGrammar | packages/workflow/src/expressions.ts:6-14 | the parser accepts exactly the token lists that the documented grammar derives, with the derived tree as its answer |
| ExpressionGrammar.GrammarIsUnambiguous | packages/workflow/src/expressions.ts:6-14 | no token list has two meanings |
| ExpressionLaws.Precedence | packages/workflow/src/expressions.ts:6-14 | comparisons bind tighter than `&&`, and that tighter than `||` |
| ExpressionLaws.ChainsLeanLeft | packages/workflow/src/expressions.ts:6-14 | chains of one precedence group to the left, and `!` binds tightest |
| ExpressionLaws.ReferencesAreWritten | packages/workflow/src/expressions.ts:169-199 | how variables, outputs and status fields of steps are written |
| ExpressionErrors.FailsAtFirstWrongToken | packages/workflow/src/expressions.ts:202-282 | parsing fails at a token with which no expression goes on though some expression begins with all before it, and complains of what could stand there |
| ExpressionErrors.OneFirstWrongToken | packages/workflow/src/expressions.ts:202-282 | there is only one such token |
| ExpressionErrors.ErrorIsAtFirstWrongToken | packages/workflow/src/expressions.ts:202-282 | the position that is reported is the position of that token |
| ExpressionTokens.SpellingIsTokenized | packages/workflow/src/expressions.ts:76-163 | tokenizing a spelling of tokens gives those tokens back |
| ExpressionTokens.FirstTokenIff | packages/workflow/src/expressions.ts:76-163 | a source begins with a token exactly if it spells it and does not go on with it, and there is only one such token |
| ExpressionTokens.TokensIffConsistsOf | packages/workflow/src/expressions.ts:76-163 | tokenizing answers with tokens exactly if the source consists of them, in their places, and blanks |
| ExpressionTokens.RejectedWhereNothingBegins | packages/workflow/src/expressions.ts:96-160 | and fails at a place where no token begins, an open quote or a character without a place |
| ExpressionTokens.LexedAreInPlace | packages/workflow/src/expressions.ts:76-163 | tokens come in order of position, each spellable, the end last and only there |
| ExpressionPrinter.ParsingUndoesPrinting | packages/workflow/src/expressions.ts:202-282 | parsing the printed source of an expression gives the expression, parentheses and left-leaning chains included |
| ExpressionNumbers.LiteralsAreDecimals | packages/workflow/src/expressions.ts:138-147 | the numbers that literals denote are exactly the non-negative finite decimals, and not-a-number |
| ExpressionLaws.NumbersAreDecimal | packages/workflow/src/expressions.ts:258-261 | digits count by their place on either side of the dot |
| ExpressionPrinter.PrintsFewestParentheses | packages/workflow/src/expressions.ts:6-14 | of all trees of the grammar for an expression the printed one has the fewest parentheses |
| ExpressionPrinter.SourcesExpressRepresentable | packages/workflow/src/expressions.ts:201-282 | the expressions some source parses to are exactly those of dot-free names, quote-free strings, decimals and truth values |
| ExpressionParser.Tokenize | packages/workflow/src/expressions.ts:76-163 | the tokenizer's loops answer as specified, error positions included |
| ExpressionParser.Parser.ParseOr | packages/workflow/src/expressions.ts:207-214 | the loop over disjunctions leaves cursor and answer where the specification has them |
| ExpressionParser.Parser.ParseAtom | packages/workflow/src/expressions.ts:242-274 | parentheses, literals and references, or the error at the right token |
| ExpressionParser.Parse | packages/workflow/src/expressions.ts:202-282 | the whole parser answers as specified |
| WorkflowEngine.RetriesStopAtFirstSuccess | packages/workflow/src/engine.ts:415-487 | the first successful attempt decides; without one the last error is reported |
| WorkflowEngine.RetriesKeepLastReturnedOutputs | packages/workflow/src/engine.ts:415-487 | after failures only, the outputs are those of the last attempt that returned |
| WorkflowConfluence.SolutionExists | packages/workflow/src/engine.ts:292-328 | the recursive definition over the dependency graph has a meaning |
| WorkflowConfluence.SolutionIsUnique | packages/workflow/src/engine.ts:292-328 | and only one |
| WorkflowConfluence.VerdictFrame | packages/workflow/src/engine.ts:292-328 | eligibility depends only on dependencies and the steps that `when` names |
| WorkflowMeaning.WhenDecides | packages/workflow/src/engine.ts:295-300 | a step with a `when` is skipped exactly if that is not truthy, for that reason and without taint |
| WorkflowMeaning.DependenciesDecide | packages/workflow/src/engine.ts:301-328 | a step without one is skipped exactly if a dependency neither succeeded nor failed with `continueOnFailure`; the reason names the first such in the order of declaration, with its status |
| WorkflowMeaning.RunsByAttempts | packages/workflow/src/engine.ts:357-366 | any other step succeeded exactly if one of its attempts does, and is tainted exactly if it failed without `continueOnFailure` |
| WorkflowMeaning.LaterAttemptsDoNotCount | packages/workflow/src/engine.ts:415-487 | a result depends on no attempt beyond those allowed |
| WorkflowSchedules.EveryScheduleAgrees | packages/workflow/src/engine.ts:331-384 | whatever any schedule has recorded is what the graph means |
| WorkflowSchedules.SchedulesAgree | packages/workflow/src/engine.ts:331-384 | two schedules under any limits record the same of every step that both have settled |
| WorkflowMeaning.RecordedWhenDecides | packages/workflow/src/engine.ts:295-300 | whatever any schedule records of a step with a `when` is decided by that `when` over what it has recorded |
| WorkflowMeaning.RecordedDependenciesDecide | packages/workflow/src/engine.ts:301-328 | and of a step without one by the recorded results of its dependencies |
| WorkflowMeaning.PassFillsTheRoom | packages/workflow/src/engine.ts:332-352 | a pass launches ready steps in the order of declaration, as many as the limit leaves room for besides those in flight |
| WorkflowSchedules.NeverStuck | packages/workflow/src/engine.ts:332-350 | the branch for an unresolved dependency graph is unreachable for validated definitions |
| WorkflowSchedules.FullRunSettlesAll | packages/workflow/src/engine.ts:331-384 | with one sink that can run at the end, or a limit of one, every step has its result |
| WorkflowSchedules.FullRunStatus | packages/workflow/src/engine.ts:489-510 | and the overall status is the same for every schedule |
| WorkflowMeaning.StatusOfAnyRun | packages/workflow/src/engine.ts:489-510 | a run counts as a success exactly if every sink has a result and no taint |
| WorkflowTaint.TaintedIffChain | packages/workflow/src/engine.ts:301-328 | a step is tainted exactly if default-rule skips lead back from it to a hard failure |
| WorkflowTaint.RecordedTaintIffChain | packages/workflow/src/engine.ts:357-366 | the same for what any schedule records |
| WorkflowTaint.NoHardFailureMeansSuccess | packages/workflow/src/engine.ts:489-510 | a workflow in which nothing fails hard succeeds, whatever is skipped |
| WorkflowTaint.UnguardedHardFailureMeansFailure | packages/workflow/src/engine.ts:489-510 | a hard failure that no transitive dependent guards with a `when` fails the workflow |
| WorkflowTotality.TwoSinksCanLoseOne | packages/workflow/src/engine.ts:331-384 | with two sinks and room for two steps some schedule loses a result though every step succeeds |
| WorkflowTotality.TotalIffOneSinkOrSerial | packages/workflow/src/engine.ts:331-384 | unconditional steps all get results under every schedule exactly with one sink or a limit of one |
| WorkflowExecute.RunStep | packages/workflow/src/engine.ts:415-487 | the retry loop returns the specified result, cut short where an abort is seen |
| WorkflowExecute.IsEligible | packages/workflow/src/engine.ts:292-328 | the eligibility loop gives the verdict of the specification, whose meaning `WhenDecides` and `DependenciesDecide` state |
| WorkflowExecute.Execute | packages/workflow/src/engine.ts:249-412 | what is returned is the result of a full run, of a stuck one, or of one cut by a cancel |
| WorkflowExecute.StatusOf | packages/workflow/src/engine.ts:489-510 | the loops over the definition compute the specified status |
| WorkflowExecute.FinishedMeaning | packages/workflow/src/engine.ts:249-412 | without a cancel every result of a validated definition is what the graph means |
| WorkflowExecute.CancelledMeaning | packages/workflow/src/engine.ts:386-412 | after a cancel a step has its meaning, or ran though interrupted, or never started |
| GraphValidate.ReachableFrom | packages/core/src/graph-validate.ts:56-70 | the breadth-first search finds exactly what the entry reaches |
| GraphValidate.ReachesBack | packages/core/src/graph-validate.ts:126-143 | the search that stops at its target answers reachability |
| GraphValidate.ValidateGraph | packages/core/src/graph-validate.ts:14-124 | no issue exactly for graphs in order: ids, endpoints, reachability, terminals, joins, bounded cycles; otherwise exactly the problems there are |
| GraphAccounting.JoinDecidesDue | packages/workflow/src/graph-engine/engine.ts:463-507 | upon a firing a join activates its node exactly when one more activation is due than it has had; `RunsJoinAsDeclared` states what is due |
| GraphAccounting.FireKeepsInv | packages/workflow/src/graph-engine/engine.ts:222-252 | firing keeps join accounting, loop bounds and visits in order |
| GraphAccounting.SettleKeepsInv | packages/workflow/src/graph-engine/engine.ts:180-257 | so does every settlement, which makes the history one longer |
| GraphMeaning.RunsJoinAsDeclared | packages/workflow/src/graph-engine/engine.ts:463-507 | in every state of a run a `min` join with count n has activated its node once exactly if n inbound transitions have fired, an `all` join exactly if all have, and an `any` join as often as its busiest transition has fired |
| GraphMeaning.WalksJoinAsDeclared | packages/orchestrator/src/graph/evaluate.ts:831-850 | the same in every state of a walk, which takes a node without a declared join like an `any` node |
| GraphMeaning.FireAllByDecision | packages/workflow/src/graph-engine/engine.ts:222-252 | the outgoing transitions fire in order, each exactly if its condition passes, up to one that throws or whose bound is used up |
| GraphMeaning.SettlementMeaning | packages/workflow/src/graph-engine/engine.ts:180-257 | a settlement ends the run at a terminal node, retries while attempts are left, and otherwise stops exactly for a condition that throws, a bound that is used up, or a failure without a way out |
| GraphMeaning.RetriesAsAllowed | packages/workflow/src/graph-engine/engine.ts:206-220 | over a whole run a failure is retried exactly while its attempt is below the number allowed |
| GraphFirings.LostFiringsAreThoseMet | packages/workflow/src/graph-engine/engine.ts:476-487 | over a whole run a node without a declared join falls short of an execution per inbound firing by exactly the firings that met it active, so it has them all exactly if there were none |
| GraphDiamond.DiamondLosesAnExecution | docs/durable-workflows.md:308-314 | two branches from the start of a run that converge on a node without a declared join lose an execution |
| GraphDiamond.DiamondIsDiamond | docs/durable-workflows.md:308-314 | there is such a graph among the validated ones |
| GraphBound.NodeBoundUnique | packages/core/src/graph-validate.ts:112-121 | the bound on activations does not depend on the ranking that shows it well founded |
| GraphBound.UnboundedIsAcyclic | packages/core/src/graph-validate.ts:112-121 | in a validated graph the transitions without a bound form no cycle |
| GraphBound.SettlementsWithinBound | packages/workflow/src/graph-engine/engine.ts:265-268 | no run settles more often than a bound read off the graph, retries included |
| GraphAttained.BoundIsAttained | packages/workflow/src/graph-engine/engine.ts:206-228 | however many loops and attempts a node is allowed, some run of a validated graph settles exactly as often as the bound says |
| GraphEngine.MutableState.SettleNode | packages/workflow/src/graph-engine/engine.ts:180-257 | settling in place does what the specification says |
| GraphEngine.Tick | packages/workflow/src/graph-engine/engine.ts:123-440 | whatever the outcome every waiting node got its wait in this tick or was not handed an answer; settlements keep to the bound; the inconsistency branch is unreachable; the new state is one that steps lead to; without answers a terminal node is reached by rounds over what is runnable, in the order of ids |
| GraphRounds.EndsWithinBound | packages/workflow/src/graph-engine/engine.ts:265-281 | whether rounds without answers, in the order of ids, reach a terminal node is settled within the rounds that the bound leaves |
| GraphRounds.FirstTerminalDecides | packages/workflow/src/graph-engine/engine.ts:200-204 | where terminal nodes are runnable a run ends with the outcome of the first of them by id or not at a terminal node |
| GraphRounds.LeastTerminalDecides | packages/workflow/src/graph-engine/engine.ts:200-204 | where the first that is runnable is a terminal node a run can end exactly with its outcome |
| GraphWalk.Walk | packages/orchestrator/src/graph/evaluate.ts:775-1066 | the walk ends within the bound of the graph with or without its backstop, every activation settled or queued, and a terminal node can only be the last on its path and the reason to stop |
| GraphWalk.WalkNode | packages/orchestrator/src/graph/evaluate.ts:982-1063 | an undecidable node stops the walk as it is, a terminal one behind it, a used-up bound at its transition, and a failure exactly if no condition passes |
| GraphWalk.FireWalked | packages/orchestrator/src/graph/evaluate.ts:1036-1056 | the outgoing transitions are counted once each, exactly if their conditions pass, up to one whose bound is used up, and no other |
| GraphWalk.WalkFireKeepsAccounts | packages/orchestrator/src/graph/evaluate.ts:1045-1055 | the walk's joins activate exactly when due, and no counter exceeds its bound or its source's settlements |
| GraphWalk.WalkWithinBound | packages/orchestrator/src/graph/evaluate.ts:982-986 | settled and queued nodes together stay within the bound |
| GraphWalk.DecideAlikeIff | packages/orchestrator/src/graph/evaluate.ts:831-850 | a run and a walk with their accounts in order and the same firings decide alike upon one more exactly if a join is declared or no other transition into the node has fired more often |
| GraphExamples.LoopStallsTheWalkAlone | packages/orchestrator/src/graph/evaluate.ts:761-764 | on a validated graph, from the start on and with the same conditions, the walk stalls and the run completes |
| GraphWalk.JoinsAgreeIffDeclared | packages/orchestrator/src/graph/evaluate.ts:761-764 | over all firings that keep both accounts the walk mirrors the engine's join of a node exactly where it is declared or nothing joins |
| RunStates.OnlyWhatRanCompletes | packages/core/src/run.ts:45-105 | no run waits, completes or blocks without having run |
| RunStates.WhereRunsComeFrom | packages/core/src/run.ts:45-105 | for each state the states that a run can come to it from, told by what it is for |
| RunStore.MissingIffNoRow | packages/orchestrator/src/graph/coordinator.ts:415-430 | recovery's branch for missing conditions is taken exactly if a waiting node has no row |
| RunStore.AnswerToComeIffNotWithdrawn | packages/orchestrator/src/graph/coordinator.ts:602-610 | a waiting node has an open row or an unconsumed answer exactly unless its wait was withdrawn |
| RunStore.ReplaysLatestIffNotWithdrawn | packages/orchestrator/src/graph/coordinator.ts:418-427 | a replayed answer is the latest wait's and not consumed, exactly unless that wait was withdrawn |
| RunStore.WithdrawnIsStuckIff | packages/orchestrator/src/graph/coordinator.ts:409-431 | after its waits were withdrawn a parked run is left as it is by recovery exactly if no waiting node was ever answered |
| RunStore.Persistence.TrySatisfy | packages/persistence/src/in-memory-persistence-provider.ts:345-355 | only an open wait can be satisfied, so the first response wins |
| RunStore.Persistence.CancelForRun | packages/persistence/src/in-memory-persistence-provider.ts:357-363 | no wait stays open |
| RunStore.Persistence.ChangeState | packages/orchestrator/src/graph/coordinator.ts:1000-1018 | the state changes exactly if the table allows it, and the history stays legal |
| Coordinator.PersistWaits | packages/orchestrator/src/graph/coordinator.ts:649-696 | every new wait has an open row, no node gets a second one, and no other node gets any |
| Coordinator.Suspend | packages/orchestrator/src/graph/coordinator.ts:698-749 | only a running run is parked, for a human exactly if an open wait asks one |
| Coordinator.AllStandIffNoneStranded | packages/orchestrator/src/graph/coordinator.ts:602-611 | an outcome that is not waiting leaves every waiting node with a row for its wait exactly if no node that has begun to wait still waits without an open row |
| Coordinator.SettleEnded | packages/orchestrator/src/graph/coordinator.ts:605-622 | a wait is saved without its row exactly in that case; a running run is completed, blocked or cancelled exactly if that is the status of the tick, and failed for any other |
| Coordinator.Drive | packages/orchestrator/src/graph/coordinator.ts:538-643 | a drive ends a running run as completed, blocked, cancelled or failed exactly if its tick did, or parks it with the waiting state saved and every new wait open, answers at hand consumed; a run still preparing can only fail or be cancelled |
| Coordinator.Satisfy | packages/orchestrator/src/graph/coordinator.ts:259-352 | exactly the first valid response to an open wait is accepted and drives the run, which ends as its tick tells, and any other changes nothing |
| Coordinator.Cancel | packages/orchestrator/src/graph/coordinator.ts:155-172 | what is executing is told to abort, a parked run is cancelled with its waits and claim, and nothing else is done |
| Coordinator.Reconcile | packages/orchestrator/src/graph/coordinator.ts:409-452 | answers found are handed to their nodes, and nodes without a condition are executed again, which only a stranding tick leaves; the run ends as that drive tells, and with neither to do nothing changes |
| Coordinator.Recover | packages/orchestrator/src/graph/coordinator.ts:385-468 | recovery drives exactly the runs that were executing or have something to recover, and keeps every invariant; with nothing left to execute a run fails or is cancelled, it completes only if rounds from its saved state can, and exactly terminal runs lose their claim |
| RunLifetime.Lifetime | packages/orchestrator/src/graph/coordinator.ts:125-770 | over any operations with crashes after any writes: legal histories, clean terminal runs, one open wait a node, and for waiting nodes a row of the wait they are in, with an answer to come exactly unless it was withdrawn |
| RunLifetime.EndedRunsOutIffAlone | packages/orchestrator/src/graph/coordinator.ts:605-622 | a terminal node leaves nothing to execute exactly if it was the only active one |
| RunLifetime.CanCompleteIff | packages/orchestrator/src/graph/coordinator.ts:385-397 | when rounds from a saved state can complete the run: as a search within the bound says, never with nothing runnable, and as the first terminal node says where it comes first |
| RunLifetime.EndedCanCompleteIff | packages/orchestrator/src/graph/coordinator.ts:605-622 | the same for a saved completed state, in terms of what else was active when its terminal node settled |
| RunLifetime.CompletionStrandsAWait | packages/orchestrator/src/graph/coordinator.ts:602-611 | a run of a validated graph, from its start on, in which completion saves a waiting node without its wait |
| RunLifetime.CompletionIsDecidedAgain | packages/orchestrator/src/graph/coordinator.ts:605-622 | a run of a validated graph whose saved completed state recovery ends by another terminal node, completing or failing it |
| RunLifetime.AskTicks | packages/workflow/src/graph-engine/engine.ts:283-374 | on a validated graph a fresh tick, and one that answers the waiting node, can end with that node waiting |
| RunLifetime.CutOffCancel | packages/orchestrator/src/graph/coordinator.ts:162-171 | from the start of a run, writes by which a cancellation cut off leaves it parked with nothing to recover, or to be resumed with a consumed answer |
| RunLifetime.CompletionCanRunOut | packages/orchestrator/src/graph/coordinator.ts:605-622 | a run of a validated graph whose saved completed state has nothing left to recover |
| ExperimentModel.EvaluatedIffSurvives | packages/experiments/src/runner.ts:366-449 | a candidate survives evaluation exactly if no kill criterion speaks against it and its weighted score, which the rows below pin down, reaches the threshold |
| ExperimentLaws.FirstScoreCounts | packages/core/src/experiments.ts:47-49 | a criterion counts with the first score given for it, and with none as 0 |
| ExperimentLaws.SameScoresGiveIt | packages/core/src/experiments.ts:43-52 | the same score for every criterion is the weighted score |
| ExperimentLaws.RaisingRaisesByWeight | packages/core/src/experiments.ts:43-52 | raising the score of one criterion raises the result by its share of the weight |
| ExperimentLaws.ResultIsBetweenScores | packages/core/src/experiments.ts:43-52 | with weights that are not negative the result lies between the least and the greatest score |
| ExperimentLaws.KilledFor | packages/experiments/src/runner.ts:399-447 | a candidate is killed by the first kill expression that matches, else by the first report of a criterion that has none, else for scoring below the threshold |
| ExperimentLaws.RejectedIff | packages/experiments/src/runner.ts:372-412 | an evaluation is rejected exactly if it has no scores, scores a criterion that there is not, or a kill expression throws before one matches |
| ExperimentModel.RankedIsRanked | packages/experiments/src/runner.ts:785-793 | the ranking is a permutation in rank order |
| ExperimentLaws.RankingOrder | packages/experiments/src/runner.ts:785-793 | the ranking goes down in score and up in id among equal scores |
| ExperimentLaws.KeptAreSoMany | packages/experiments/src/runner.ts:494-497 | as many survivors are kept as allowed and there |
| ExperimentLaws.PhasesInOrder | packages/experiments/src/runner.ts:110-149 | the step of a running record is the phase that its iteration has come to |
| ExperimentLaws.PhasesMean | packages/experiments/src/runner.ts:155-362 | what generation, prototyping and evaluation make of each candidate, and when an answer spoils them |
| ExperimentLaws.JudgmentsDecide | packages/experiments/src/runner.ts:594-667 | what each judgment makes of the record, of its iteration and of each candidate |
| ExperimentLaws.EvidenceIsGatheredOnce | packages/experiments/src/runner.ts:680-725 | the first request for evidence in an iteration re-scores every survivor, and a later one changes nobody |
| ExperimentLaws.WhatEndsAndWhatStays | packages/experiments/src/runner.ts:110-149 | an exhausted clock ends a running experiment, and an ended or waiting one does not move by itself |
| ExperimentInvariant.KeptRankFirst | packages/experiments/src/runner.ts:494-497 | nobody kept ranks behind anybody dropped |
| ExperimentInvariant.SelectSome | packages/experiments/src/runner.ts:494-534 | a record awaits judgment with between one and the allowed number of survivors and nobody open |
| ExperimentInvariant.SelectNobody | packages/experiments/src/runner.ts:514-529 | without survivors the next iteration starts, or the experiment is exhausted |
| ExperimentInvariant.GenerateKeeps | packages/experiments/src/runner.ts:155-230 | an iteration gets at least one and at most the allowed number of new candidates, each open and with an id of its own |
| ExperimentRuns.BestOrSelectedIsChosen | packages/experiments/src/runner.ts:594-615 | advancing chooses the selected survivor, or without a selection the one that ranks before all others |
| ExperimentRuns.AdvanceWins | packages/experiments/src/runner.ts:594-632 | advancing makes exactly one candidate advanced and kills the rest of the iteration |
| ExperimentRuns.PassDoneIffPassed | packages/experiments/src/runner.ts:680-692 | the marker check finds exactly the evidence pass of the current iteration |
| ExperimentRuns.StepKeepsInv | packages/experiments/src/runner.ts:110-149 | every step keeps the record's invariant and lets it only grow |
| ExperimentRuns.EveryRecordOk | packages/experiments/src/runner.ts:110-149 | every record any experiment ever saves satisfies the invariant |
| ExperimentRuns.HistoryOnlyGrows | packages/experiments/src/runner.ts:110-149 | candidates and lessons only grow, killed stays killed, conclusions are final |
| ExperimentRuns.ContinuingIsCloser | packages/orchestrator/src/graph/experiment-stepper.ts:135-142 | a step that asks to continue leaves fewer iterations or fewer phases |
| ExperimentRunner.PrototypeAll | packages/experiments/src/runner.ts:235-281 | the loop over candidates and its updates by id do what the phase is specified to do |
| ExperimentRunner.EvaluateAll | packages/experiments/src/runner.ts:287-318 | likewise, all or nothing when an evaluator throws |
| ExperimentRunner.Settle | packages/orchestrator/src/graph/experiment-stepper.ts:117-144 | the stepper ends whatever agents answer, and leaves a record that satisfies the invariant |
| ExperimentRunner.AcceptedIffOffered | packages/orchestrator/src/graph/experiment-stepper.ts:194-231 | the responses accepted are exactly the choices offered |
| ExperimentRunner.ChoicesMean | packages/orchestrator/src/graph/experiment-stepper.ts:194-231 | what each choice stands for, and that those of survivors are offered |
| Conversation.CompactedIsWellFormed | packages/runtime/src/context.ts:31-80 | compaction makes a well-formed conversation of a well-formed one, wherever it cuts |
| Conversation.SanitizedTailForm | packages/runtime/src/context.ts:82-105 | only the first message of the tail can change, and only if it answered calls that were cut away |
| Conversation.SanitizeTail | packages/runtime/src/context.ts:86-105 | the threaded set of call ids computes the specified tail |
| Conversation.Compact | packages/runtime/src/context.ts:31-80 | a conversation is compacted exactly if it is long and there is a summary, which then begins it; well-formed stays well-formed, and the recent messages are kept |
| AgentSessions.UsageIsConserved | packages/runtime/src/agent-loop.ts:138-168 | the reported usage is all that was spent exactly if nothing was spent below a thrown error |
| AgentSessions.TreeWithin | packages/runtime/src/agent-loop.ts:342-362 | turns in a tree are at most a session's own and, for each sub-agent, those of one level less |
| AgentLoop.AnswerCalls | packages/runtime/src/agent-loop.ts:317-437 | the calls get their results in order, all of them unless the session ends or is aborted between calls; each call does what its name says, with denials and sub-agents counted against their limits |
| AgentLoop.InvokeWithRetry | packages/runtime/src/agent-loop.ts:486-537 | no attempt follows a final error, and the model is given up only on one or after all attempts |
| AgentLoop.UseResponse | packages/runtime/src/agent-loop.ts:215-460 | a response is paid for, its calls are answered or their absence is pointed out, and the conversation is compacted exactly if it is to be and can be |
| AgentLoop.PartlyAnsweredDangles | packages/runtime/src/agent-loop.ts:318-449 | a response of which some calls were not answered leaves an ill-formed conversation |
| AgentLoop.RunLoop | packages/runtime/src/agent-loop.ts:188-468 | every conversation sent to the model in the tree of sessions is well-formed, turns, calls, denials and silence keep to their bounds, the last answer or an abort or the limit tells how the session ends, usage adds up, and the conversation saved last is well-formed exactly if it was not saved within a call or cut short by an abort |
| Gates.FirstFailureIsFirst | packages/orchestrator/src/graph/evaluate.ts:960-976 | the dry run fails a node by exactly the first required gate that is decided false |
| Gates.PredictionMeans | packages/orchestrator/src/graph/evaluate.ts:945-976 | the dry run decides exactly where every gate is an expression over known results, and passes only if all required ones are true |
| Gates.Compose | packages/core/src/gates.ts:59-73 | each id appears once, as its first gate has it: no gate set overrides its bases |
| Gates.EvaluateGate | packages/orchestrator/src/graph/node-executors.ts:786-815 | a gate passes with its first attempt that passes, every earlier one having failed, and fails only when its remedies are used up |
| Gates.EvaluateGates | packages/orchestrator/src/graph/node-executors.ts:638-843 | what the dry run has decided the evaluation does, with the same error, unless a remediation throws; every evaluation is what its expression, approval or answer says |
| ChildJoins.DecisionIsFinal | packages/orchestrator/src/graph/coordinator.ts:841-849 | an early decision is the one made whenever the children are looked at later |
| ChildJoins.DecidedWhen | packages/orchestrator/src/graph/coordinator.ts:841-849 | how early a join is decided, by its mode and by the children that have succeeded and failed |
| ChildJoins.RowStandsIff | packages/orchestrator/src/graph/coordinator.ts:812-869 | the row is open to be satisfied exactly if it was saved and not withdrawn since |
| ChildJoins.SettledMeansDecided | packages/orchestrator/src/graph/coordinator.ts:841-849 | once all children have settled the join is decided, by its mode's meaning |
| ChildJoins.WatchChildren | packages/orchestrator/src/graph/coordinator.ts:764-869 | in any order of saving the row, settling, looking and withdrawing, the parent's wait is satisfied at most once, by the final outcome, and exactly if a look finds it saved and decided |
| ChildJoins.LastLookDecides | packages/orchestrator/src/graph/coordinator.ts:812-869 | it is satisfied exactly if the last look at the saved row finds the join decided |
| ChildJoins.LookingLastSuffices | packages/orchestrator/src/graph/coordinator.ts:812-869 | a look at the saved row after all children have settled suffices |
| ChildJoins.OneChildNoticedIff | packages/orchestrator/src/graph/node-executors.ts:458-495 | the wait for one child is satisfied exactly if a look at the saved row follows the child's end |
| ChildJoins.SettledUnnoticed | packages/orchestrator/src/graph/coordinator.ts:602-637 | a child that settles before the row is saved, or without a look, leaves the wait open |
| ManagedSection.AppliedIffIntact | packages/core/src/checkpoints.ts:75-107 | an upsert is applied exactly to intact bodies and leaves any other as it is |
| ManagedSection.AppliedSplices | packages/core/src/checkpoints.ts:105-107 | all text outside the section is preserved, and has no marker |
| ManagedSection.ReadBackIffNoEndMarker | packages/core/src/checkpoints.ts:109-115 | what was written is read back exactly if the trimmed content has no end marker |
| ManagedSection.UpsertAgainIffNoMarker | packages/core/src/checkpoints.ts:75-107 | a further upsert applies exactly if the trimmed content has neither marker; then it is idempotent |

## Left out

- Timing: timeouts, backoff, wall-clock limits and due times are choices that may fall either way.
- Numbers: JavaScript numbers are exact reals or not a number; rounding, infinities and number formatting are not modelled.
- Concurrency limits of the step scheduler are integers; a fractional limit is not modelled.
- WorkflowEngine.Settle: a result is recorded and its task leaves those in flight in one step; the moment between the two, in which a pass sees the result while the task still counts against the limit, is not a state of its own.
- Expressions over scopes (guards, conditions, effects of graph nodes) come out in any way; their own parser and evaluator are not modelled.
- Lookups in plain objects that find inherited properties, such as a variable named `constructor`, are not modelled.
- Text is a sequence of characters, not of UTF-16 code units: positions count characters, and ids are ordered by them.
- What executors yield and conditions come out as is open in the graph engine: any node that is not terminal may wait, succeed or fail, so that what a run can do is an upper bound wherever it depends on them.
- Domain data, projections, side-effect descriptions, events, log lines and prompt texts are dropped.
- Interpolation of expressions into goals and shell commands, and the compiler from step definitions to graphs, are not modelled.
- RunLifetime.Lifetime: operations on one run come one after another, as under its lock; a response that is accepted while another drive of the run is about to end it is not modelled.
- RunStore.Persistence: the stores are those in memory, whose writes do not fail; a failing release of a claim is not modelled.
- RunStore.Row: supplemental responses to a satisfied wait are not modelled, and the last satisfied row of a node is the last one in order, as times that never tie would have it.
- RunStore.Store: which rows belong to waits that are over is recorded nowhere in the source; the model keeps account of it.
- Coordinator.Satisfy: whether a response is valid input and its secret can be stored is a parameter.
- Coordinator.Drive: workspaces, checkpoints, specifications and projections are reduced to whether they throw.
- AgentLoop.RunLoop: a model's responses contain text and tool calls only; sessions begun with `resume` are covered as far as the conversation they resume is well-formed, which the contract says exactly.
- Conversation.Compact: the usage of the summarizing call is not part of the reported usage, in the source as here.
- ExperimentRunner.AskAgents: candidate ids are never empty and never repeat, as the id generator is to guarantee.
- Experiments.Record: names, versions, hypotheses, artifacts, reasons and dates of a record are dropped, and a risk is evidence like any other.
- Gates.EvaluateGates: what a command gate or an agent gate answers, attempt by attempt, is given; the reason of its failure is not told apart.
- ChildJoins.WatchChildren: a look reads the states of all children at one moment, and nobody but the children answers the wait.
