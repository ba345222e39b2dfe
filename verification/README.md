# Workflow runs, proved

A Dafny model of the digital-thread backend's workflow engine and of the services around it, with
proofs of what they keep over every run.

The core is the iteration: a run of a frozen workflow graph whose nodes are IDLE, PENDING, RUNNING,
COMPLETED, ERROR or SKIPPED. The calls are create, claim, complete (followed by recursive activation
through AND/OR/XOR gateways and a skip cascade), upload or link a file, repair, fork, and the reports of
automatic handlers. Graphs are arbitrary unless a result says otherwise: edges may repeat, form cycles,
or name nodes that do not exist.

| module | contents |
|---|---|
| `Flow`, `Runtime` | the frozen graph; the runtime rows and every decision the engine takes by reading them |
| `Activation` | what one advancement does to the rows, as recursive functions |
| `Lifecycle` | the service calls as functions from state to state, and runs as sequences of calls |
| `Iterations` | the same calls as a class that updates its rows step by step, proved equal to those functions |
| `Settling` | the invariant of the activation recursion, on any graph and any rows |
| `Gates` | what a gateway's answer means, stated on the predecessors |
| `Confluence`, `Commuting` | advancement equals a rank-by-rank evaluation; completions commute |
| `Ledgers`, `Runs`, `Reports`, `Histories` | which wakeups can be lost, and causality, after every history of calls; what a handler's report asks |
| `Progress`, `Finishing` | deadlock freedom, stored status, forward-only statuses, every clean run can be finished |
| `Branches`, `Deliveries`, `Provenance` | what lies behind a blocked gate; required outputs; where forwarded files come from |
| `Repairs`, `Forks` | what repair heals and what it misses; what a fork keeps |
| `Effects` | what each call on an iteration answers and leaves in the rows, field by field |
| `Interleaving`, `Solo`, `Stale` | any number of calls in flight, cut between database accesses |
| `Witnesses` | reachable states on which the exceptions arise |
| `Machines`, `Saves` | versioned definitions, pins and frozen workflows, and which saves spare them; what each call stores |
| `Searching`, `Lineage` | derivation edges and the two breadth-first queries |
| `JsonValues`, `Compare` | the structural diff |
| `Normalize`, `Canonical` | node normalisation, its second pass, and what a canonical node says of the raw one |
| `Approvals`, `Erasure` | two-approver requests, and the erasure they gate |

How the parts fit. `Iterations.Iteration` has the loops and the recursion of the source, and each method's
postcondition equates the new state with a function of `Activation` or `Lifecycle`. Everything else is proved
about those functions. `Settling.TryAllIsSettled` is the one induction over the activation recursion: it
explains every node that left IDLE and accounts for every node that was attempted. Causality, lost-wakeup
freedom, confluence, repair and fork results all follow from it. `Solo.HistoriesAreSchedules` ties the interleaved
model to the sequential one.

Ids, slots, files and paths are numbers, because the code only compares them; an empty string in a binding is
`None`. Acyclicity is a ranking function that increases along edges. `order` in repair is the order in which
the database returns the rows. Random ids, clocks, logs and events are dropped.

Where the code does not do what its comments or a first reading suggest, the model follows the code:

- The branch that would skip a task behind an ERROR predecessor (`workflow-engine.service.ts:258-266`) cannot be
  reached. Such a task stays IDLE, unless the cascade of a blocked gateway skips it (`Branches.ErrorHoldsTasks`).
- A gate with file inputs treats XOR like AND (`Gates.FileGateMeaning`).
- Everything behind a SKIPPED node ends SKIPPED, unless a fork reset it or a handler reported on it, so no OR or XOR
  gate ever passes with a skipped branch (`Branches.SkipsSpread`, `Branches.OnlyCompletedFeeds`); a fork can run a node
  behind a SKIPPED one (`Witnesses.ForkRunsBehindSkipped`).
- A handler stores COMPLETED without advancing the workflow (`base.handler.ts:44-49`), which can leave a ready node
  IDLE (`Witnesses.SilenceForgets`; exactly when, in `Repairs.SilentCompletion`). Over every history and every schedule
  that is the only way, next to abandoned calls, to lose a wakeup (`Histories.EveryHistoryRemembers`,
  `Interleaving.NoWakeupLost`), and a repair makes up for any number of such writes
  (`Repairs.RepairHealsSilentCompletions`).
- A handler may be run on a node of any status, and asks for no outputs. Exactly which reports keep every status
  accounted for is `Reports.ReportKeepsCausal`, and over whole histories `Histories.EveryHistoryIsCausal`; one that does
  not is `Witnesses.HandlerOutOfOrder`. What a report leaves of the required outputs is `Deliveries.ReportDelivers`.
- Repair restarts from COMPLETED nodes only. After it a ready node is IDLE exactly if it was already IDLE with
  predecessors all SKIPPED (`Repairs.RepairMissesExactlyTheStranded`), as a cascade that is cut short leaves it
  (`Witnesses.CascadeCutStrands`).
- A fork passes on the kept rows unchanged exactly if no kept successor of the first predecessor would fire
  (`Forks.ForkKeepsExactly`), and one can (`Witnesses.ForkDisturbs`); a source without errors and untried nodes always
  qualifies (`Forks.ForkPreservesRun`).
- A step of a concurrent call moves statuses forward exactly if its write lands on an expected status
  (`Stale.StepsForwardExactly`), which only another write of the same node can prevent (`Stale.OnlyOverwritesMiss`);
  one late wakeup may set a claimed node back to PENDING (`Stale.StaleWakeupTurnsBack`).
- The stored iteration status is that of the last read (`Progress.StoredStatus`). A report can leave it stale by ending
  the last open node (`Witnesses.EndGoesUnseen`) or reopening a terminal one (`Witnesses.ReopeningGoesUnseen`); exactly
  when, is `Progress.HandlerAgrees`.
- A save spreads the remaining properties of its body into the write of the head row, so a body can name head columns
  and, through the relation, version rows. Head columns never change what an iteration with a pin loads
  (`Machines.PlainHistoriesFreeze`). A body such as `{versions: {updateMany: ...}}` does, exactly unless the save spares
  the live iterations (`Machines.SaveFrozen`, `Machines.RowsThawTheWorkflow`). Numbers, head and version rows stay in step
  exactly if the save is harmless (`Machines.SaveKeepsInStep`, `Machines.ColumnsBreakTheStep`).
- Executing an erasure twice hashes the pseudonym again, although it is described as idempotent
  (`Erasure.SecondExecutionRehashes`).
- A second normalisation pass changes two kinds of node besides those whose kind is contradicted by their type: those
  whose id prints as the empty string and default outputs with an empty file type (`Normalize.NormalizeTwice`,
  `Normalize.SecondPassChanges`).

## Model

| member | source | states |
|---|---|---|
| Settling.TryAllIsSettled | backend/src/iterations/workflow-engine.service.ts:165-306 | For any graph, rows and list of nodes: after trying them all, every node that left IDLE either was attempted and holds the row decided from some intermediate state with no newly skipped predecessor, or lies behind such a node along newly skipped ones; no IDLE node has a newly skipped predecessor; no attempted node would still fire |
| Activation.TryAllAppend | backend/src/iterations/workflow-engine.service.ts:147-155 | Trying one list and then another is trying their concatenation, so a repair is one long advancement |
| Activation.SkippableStep | backend/src/iterations/workflow-engine.service.ts:286-306 | An IDLE successor of the blocked gateway, or of a skipped node, is skipped |
| Activation.ClosedHoldsSkippable | backend/src/iterations/workflow-engine.service.ts:286-306 | Any set of nodes closed under IDLE successors of the blocked gateway contains every node the cascade skips |
| Confluence.AdvanceIsEvaluation | backend/src/iterations/workflow-engine.service.ts:147-306 | On an acyclic graph whose bindings follow edges, an advancement leaves in every row exactly the rank-by-rank evaluation: SKIPPED behind a newly skipped predecessor, else what one attempt decides from the predecessors' final rows |
| Confluence.EdgeOrderIrrelevant | backend/src/iterations/workflow-engine.service.ts:147-155 | Reordering or repeating edges does not change the rows an advancement leaves |
| Confluence.ConsistentIsEvaluated | backend/src/iterations/workflow-engine.service.ts:165-306 | Only one outcome is consistent with the predecessors' rows on an acyclic graph |
| Confluence.DecideAgrees | backend/src/iterations/workflow-engine.service.ts:165-256 | What an attempt decides depends only on the node's own row and the rows of its predecessors |
| Confluence.WokenTaskSeesFiles | backend/src/iterations/workflow-engine.service.ts:50-107 | A task woken by an advancement records, for each bound input, the files its slot holds when the advancement ends |
| Commuting.AdvancementsCommute | backend/src/iterations/workflow-engine.service.ts:147-306 | Completing two running nodes in either order leaves the same rows |
| Commuting.CompletionsCommute | backend/src/iterations/iterations.service.ts:522-572 | Two completions that are both accepted commute: rows, iteration status and replies are the same in either order, and the second is still accepted |
| Gates.StatusGateMeaning | backend/src/iterations/workflow-engine.service.ts:422-435 | Without file inputs a gate passes iff: AND or unknown, all predecessors COMPLETED; OR, some; XOR, one and no other |
| Gates.FileGateMeaning | backend/src/iterations/workflow-engine.service.ts:191-210 | With file inputs a gate passes iff: OR, some input id is supplied; any other logic, XOR included, every input id is. An id is supplied by the last input with that id bound to a predecessor, through a file in its slot or a legacy path |
| Gates.GateForwardsExactly | backend/src/iterations/workflow-engine.service.ts:211-225 | A passing gate publishes, under the id of each input that counts, exactly the files of the slot it is bound to and nothing else; with nothing to forward its outputs stay as they are |
| Gates.RecordedInputMeaning | backend/src/iterations/workflow-engine.service.ts:50-107 | The status recorded for an id lists the files of the slot that counts; it is provided iff there are some, or a legacy path stands in; a path is recorded only then, and it is the one stored on the predecessor whose default slot is bound |
| Gates.ResolvedByLast | backend/src/iterations/workflow-engine.service.ts:50-107 | An id is resolved iff an input bound to a predecessor has it, and as the last of them |
| Gates.DistinctCount | backend/src/iterations/workflow-engine.service.ts:191-210 | With distinct input ids every input counts for itself |
| Runtime.Dedupe | backend/src/files/files.service.ts:386-388 | Appending to an output slot keeps every file and lists each once |
| Histories.EveryHistoryRemembers | backend/src/iterations/iterations.service.ts:228-605 | On any graph, after any sequence of calls, forks and repairs included, whatever handlers report on whatever status: a ready node is IDLE only if a predecessor finished silently since the node was last tried, and then it has a COMPLETED predecessor |
| Histories.MissedMeaning | backend/src/execution/handlers/base.handler.ts:44-49 | The nodes set apart by that result are exactly those for which some handler reported that a predecessor finished, with no later call trying or resetting them |
| Histories.EveryHistoryIsCausal | backend/src/iterations/iterations.service.ts:228-605 | On any graph, every status is accounted for throughout a history iff every handler report in it is admitted by the rows it finds; claims, completions, uploads, repairs and forks never disturb it. Accounted for: every active or COMPLETED task has predecessors COMPLETED or SKIPPED; every evaluated gate had terminal predecessors and the answer its status shows; every SKIPPED node traces back along SKIPPED nodes to a gate that blocked |
| Reports.ReportKeepsCausal | backend/src/execution/handlers/base.handler.ts:37-64 | One report, whatever the status it finds, keeps every status accounted for iff the node's predecessors bear its new status and each direct successor's status bears the new status of the node, stated on the rows before the report |
| Reports.ActiveAdmits | backend/src/execution/handlers/base.handler.ts:37-64 | Any report on a PENDING or RUNNING node is admitted |
| Histories.GentleIsAdmissible | backend/src/execution/handlers/base.handler.ts:37-64 | Histories whose reports find their node PENDING or RUNNING, or repeat its status, are admitted throughout |
| Histories.ManualHistoriesLoseNothing | backend/src/iterations/iterations.service.ts:228-605 | While no handler finishes, no ready node is ever IDLE |
| Histories.CompletionRemembers | backend/src/iterations/iterations.service.ts:553-563 | Writing COMPLETED and advancing overlooks nothing new and makes up for what it tries |
| Histories.CompletionCausal | backend/src/iterations/iterations.service.ts:553-563 | Writing COMPLETED and advancing keeps every status accounted for |
| Histories.ForkRemembers | backend/src/iterations/iterations.service.ts:391-483 | Forking at any node overlooks nothing new, from any state of the source |
| Histories.ForkCausal | backend/src/iterations/iterations.service.ts:391-483 | A fork has every status accounted for if its source has |
| Histories.KeptIsClosed | backend/src/iterations/iterations.service.ts:926-937 | The nodes a fork keeps are closed under predecessors |
| Runs.TryAllRemembers | backend/src/iterations/workflow-engine.service.ts:165-306 | Trying a list that holds every newly ready node leaves none of the attempted nodes ready and IDLE |
| Runs.TryAllKeepsCausal | backend/src/iterations/workflow-engine.service.ts:165-306 | Activation keeps every status accounted for |
| Runs.TracedIsTraced | backend/src/iterations/workflow-engine.service.ts:239-251 | A node skipped by a cascade traces back to the gate that blocked |
| Progress.DeadlockFree | backend/src/iterations/workflow-engine.service.ts:308-329 | On a non-empty acyclic graph, when no node is PENDING or RUNNING and none failed: all nodes are terminal iff no node left untried by a silent completion is IDLE, and then the next read shows COMPLETED, which is stored already if no handler reported since the last read |
| Progress.StuckNodesHaveBlockers | backend/src/iterations/workflow-engine.service.ts:147-306 | On an acyclic graph, when nobody can act every IDLE node has an ancestor that failed, that is missing, or that is ready and still IDLE because a silent completion left it untried |
| Progress.StoredStatus | backend/src/iterations/iterations.service.ts:179-226 | After every history, whatever handlers report, the stored iteration status is the one the rows derived after the last read (view, completion, repair or fork); if no handler reported since, it is what they derive now |
| Progress.OrderlyStatus | backend/src/iterations/iterations.service.ts:179-226 | While handlers start on PENDING or RUNNING nodes and end RUNNING ones, the stored status is stale only because the last open node ended unseen |
| Progress.StartsAgreed | backend/src/iterations/iterations.service.ts:228-312 | A created iteration already stores what reconciling would derive |
| Progress.ForkAgreed | backend/src/iterations/iterations.service.ts:468-480 | So does a fork |
| Progress.CompleteAgrees | backend/src/iterations/iterations.service.ts:522-572 | So does a completion |
| Progress.HandlerAgrees | backend/src/execution/handlers/base.handler.ts:37-64 | A report on a node of any status leaves an agreed stored status agreed iff another node is open, or the old and the new status are both open, or both are terminal and agree on ERROR or another node is in ERROR |
| Progress.ReconcileMeaning | backend/src/iterations/iterations.service.ts:179-226 | From any state reconciling leaves the rows alone and stores RUNNING iff a node is open, FAILED iff none is open and one failed, COMPLETED iff all are COMPLETED or SKIPPED; without nodes it changes nothing; it is idempotent |
| Progress.StatusesMoveForward | backend/src/iterations/workflow-engine.service.ts:165-284 | Within one iteration a call moves every node at most one legal step forward iff it is not a handler's report on a node of the wrong status |
| Finishing.CanFinish | backend/src/iterations/iterations.service.ts:513-605 | On a non-empty acyclic graph whose edges join nodes, after every history: the iteration can be continued to COMPLETED by hand (views, repairs, claims, uploads and completions, with no handler and no fork) iff no node is in ERROR |
| Branches.SkipsSpread | backend/src/iterations/workflow-engine.service.ts:286-306 | After every history, forks and reports included, an edge from a SKIPPED node leads to a SKIPPED node, or to one that some fork reset or some handler reported on |
| Branches.OnlyCompletedFeeds | backend/src/iterations/workflow-engine.service.ts:165-284 | While reports are admitted, every predecessor of a node that was activated, and not reset or reported on, is COMPLETED, or failed if the node is a gateway |
| Branches.ErrorHoldsTasks | backend/src/iterations/workflow-engine.service.ts:255-266 | While reports are admitted, a task behind an ERROR predecessor is IDLE or SKIPPED, forks included |
| Deliveries.RequiredOutputsArePresent | backend/src/iterations/iterations.service.ts:536-551 | After every history no task is COMPLETED without a file (or, for the default slot, a legacy path) in each required output, except those for which a handler reported that it finished while some were missing |
| Deliveries.ReportDelivers | backend/src/execution/handlers/base.handler.ts:44-49 | A report leaves a task delivered iff it does not finish it, or its required slots are filled or the path stands in |
| Deliveries.ExcusedMeaning | backend/src/execution/handlers/base.handler.ts:44-49 | The excepted nodes are exactly those for which some handler finished with required outputs missing |
| Witnesses.FinishedWithoutOutput | backend/src/execution/handlers/base.handler.ts:44-49 | Reachable: a handler completes a task without the output it requires |
| Provenance.GatewaysInventNothing | backend/src/iterations/workflow-engine.service.ts:191-225 | With uploads and links to non-gateways only, every file a gateway publishes is still in the slot its input is bound to, after every history |
| Provenance.EveryFileHasProducer | backend/src/iterations/workflow-engine.service.ts:50-107 | On an acyclic graph every recorded file leads back, binding by binding through gateways, to a non-gateway slot holding it |
| Provenance.ChainToProducer | backend/src/iterations/workflow-engine.service.ts:50-107 | The chain of bindings behind one slot ends at a producer |
| Repairs.RepairLeavesNothingToFire | backend/src/iterations/iterations.service.ts:579-605 | From any rows: after repair no successor of a COMPLETED node would still fire |
| Repairs.RepairIsIdempotent | backend/src/iterations/iterations.service.ts:574-578 | From any state, a second repair in any row order changes nothing |
| Repairs.RepairMissesExactlyTheStranded | backend/src/iterations/iterations.service.ts:589-599 | After repair a ready node is IDLE iff it was IDLE with all its predecessors SKIPPED before |
| Repairs.RepairRestores | backend/src/iterations/iterations.service.ts:579-605 | Repair restores lost-wakeup freedom iff nothing was stranded behind skipped nodes only |
| Repairs.SilentCompletion | backend/src/execution/handlers/base.handler.ts:44-49 | Storing COMPLETED without advancing loses no wakeup iff every IDLE successor has another predecessor that is not cleared |
| Repairs.RepairHealsSilentCompletions | backend/src/iterations/iterations.service.ts:579-605 | After any history, with any number of silent completions, a repair that covers the COMPLETED rows leaves no ready node IDLE |
| Witnesses.SilenceForgets | backend/src/execution/handlers/base.handler.ts:44-49 | Reachable: a handler finishes silently on a claimed start node, and its only successor is ready and IDLE |
| Witnesses.CascadeCutStrands | backend/src/iterations/workflow-engine.service.ts:239-251 | Reachable by one completion and nothing else: cut between the blocked gateway and its cascade it leaves a node IDLE behind SKIPPED ones, and a covering repair leaves it so |
| Witnesses.NoFileNoPass | backend/src/iterations/workflow-engine.service.ts:195-210 | In that schedule the gate's answer is the one the files give |
| Forks.ForkKeepsExactly | backend/src/iterations/iterations.service.ts:430-480 | All kept rows equal the source's iff no kept successor of the first predecessor would fire |
| Forks.ForkPreservesRun | backend/src/iterations/iterations.service.ts:430-480 | A fork of an error-free run without untried nodes passes on the row, outputs included, of every node the restart node does not reach |
| Witnesses.ForkDisturbs | backend/src/iterations/iterations.service.ts:461-480 | Reachable: a gateway IDLE behind a COMPLETED and an ERROR predecessor is kept by a fork and yet evaluated in it |
| Witnesses.ForkRunsBehindSkipped | backend/src/iterations/iterations.service.ts:461-480 | Reachable: a fork from a node behind a SKIPPED gateway makes it PENDING with its only predecessor SKIPPED |
| Forks.RestartInputsResolveAlike | backend/src/iterations/iterations.service.ts:461-475 | The bound inputs of the restart node resolve to the same files as in the source |
| Forks.RestartedTask | backend/src/iterations/iterations.service.ts:461-480 | A restarted task is PENDING with those inputs iff the source cleared all its predecessors, else a fresh IDLE row |
| Effects.CreateEffect | backend/src/iterations/iterations.service.ts:228-312 | A new iteration is RUNNING and has a bare row for every node and nothing else, PENDING iff no edge leads into the node, else IDLE |
| Effects.ClaimEffect | backend/src/iterations/iterations.service.ts:513-520 | A claim is accepted iff the row exists and is PENDING; NotFound iff there is no row, BadRequest otherwise; it sets RUNNING and changes nothing else, and refused it changes nothing |
| Effects.CompleteEffect | backend/src/iterations/iterations.service.ts:522-572 | A completion is accepted iff the row exists, is RUNNING and each required output has a file, or is the default one with a path given or stored; NotFound iff there is no row. Accepted, the row holds COMPLETED and the given path, else the old one, with inputs and outputs kept, and other rows that had left IDLE stay. Refused, no row changes |
| Effects.ReportEffect | backend/src/execution/handlers/base.handler.ts:37-64 | A report stores its status and, if it finishes with a path, exactly that path; inputs, outputs and every other row stay, and the iteration status is not touched |
| Effects.PathIsSeen | backend/src/iterations/workflow-engine.service.ts:50-107 | A task woken by a completion sees, on an input bound to the completed node's empty default slot, exactly the path the completion left there |
| Effects.AttachEffect | backend/src/files/files.service.ts:369-393 | An upload is recorded iff the row exists. The named slot then holds the old files in their order and the new one behind them if it was absent, each once; every other slot, row, status, recorded input and path stays |
| Effects.SlotsStayDistinct | backend/src/files/files.service.ts:386-388 | After every history no output slot lists a file twice |
| Effects.UploadAppends | backend/src/files/files.service.ts:369-393 | Hence in every history an upload leaves in its slot exactly the old list, followed by the new file if it was absent, and every other slot of every node as it was |
| Effects.LinkEffect | backend/src/iterations/iterations.service.ts:830-851 | A link is accepted iff the file exists and the node has a row, else NotFound and no change; it does to the named slot what an upload does, and nothing else |
| Effects.AttemptEffect | backend/src/iterations/workflow-engine.service.ts:165-284 | One attempt writes a row iff the node is defined, IDLE, has no open predecessor, and is a gateway or has no failed predecessor. A gateway becomes COMPLETED or SKIPPED by its gate and records what it saw; a task becomes PENDING, keeps its outputs and adds the resolved inputs to those recorded; the path stays |
| Effects.TargetsInOrder | backend/src/iterations/workflow-engine.service.ts:147-155 | Successors are tried in edge order |
| Effects.RepairsInOrder | backend/src/iterations/iterations.service.ts:587-600 | Repair takes the rows in order, and of each COMPLETED row with an IDLE successor all successors |
| Effects.FindIsFirst | backend/src/iterations/iterations.service.ts:537 | Among nodes that share an id the first is the definition |
| Effects.PrereqIsFirst | backend/src/iterations/iterations.service.ts:468-480 | A fork wakes its restart node through the first edge into it |
| Effects.ForkEffect | backend/src/iterations/iterations.service.ts:391-483 | A fork exists iff the restart node is a node. Every node that the restart node reaches has no path and, if it is no gateway, no outputs; it is bare and IDLE, or holds what a cascade or one attempt wrote into a bare IDLE row; a restart node without predecessors is bare and PENDING. Every other node that had left IDLE keeps its row |
| Interleaving.NoWakeupLost | backend/src/iterations/workflow-engine.service.ts:147-306 | After any history, forks included, and any interleaving of claims, completions, repairs, abandoned calls and handler reports of every kind: once no call is in flight, a ready node is IDLE only if a silent completion or an abandoned call left it without an attempt |
| Interleaving.EveryScheduleIsSafe | backend/src/iterations/iterations.service.ts:553-563 | At every moment of every schedule, from any safe world, each IDLE node is held back by a predecessor, owed an attempt by a call in flight, or neglected |
| Interleaving.NeglectedMeaning | backend/src/execution/handlers/base.handler.ts:44-49 | A node is neglected iff a silent completion or an abandoned call lost its attempt, and no later attempt or repair took it up |
| Interleaving.NothingNeglected | backend/src/iterations/workflow-engine.service.ts:147-306 | Schedules without silent completions and abandoned calls neglect nothing |
| Interleaving.RepairTakesUp | backend/src/iterations/iterations.service.ts:579-605 | A repair that lists every IDLE node with a COMPLETED predecessor takes up all neglected nodes except those behind SKIPPED ones only |
| Interleaving.HistoryIsSafe | backend/src/iterations/iterations.service.ts:228-605 | Every sequential history ends in a safe world |
| Interleaving.InterleavedDeadlockFree | backend/src/iterations/workflow-engine.service.ts:147-306 | On an acyclic graph, when no call is in flight, nobody can act and nothing failed, every node is COMPLETED or SKIPPED iff no neglected node is IDLE |
| Interleaving.DecisionIsDecide | backend/src/iterations/workflow-engine.service.ts:165-256 | The decision taken from one reading of the statuses is the engine's decision on the rows |
| Solo.HistoriesAreSchedules | backend/src/iterations/workflow-engine.service.ts:147-306 | After any history, every continuation without a fork is a schedule of its own calls and reports, with no call abandoned, ending in the same statuses with no call in flight |
| Solo.CompletionAlone | backend/src/iterations/iterations.service.ts:553-563 | A completion whose steps run back to back ends in the statuses of the sequential model |
| Solo.RepairAlone | backend/src/iterations/iterations.service.ts:579-605 | Likewise a repair |
| Solo.CascadeAlone | backend/src/iterations/workflow-engine.service.ts:286-306 | The cascade's reads and writes, back to back, skip exactly the nodes of the sequential cascade |
| Stale.StepsForwardExactly | backend/src/iterations/workflow-engine.service.ts:226-250 | In every schedule the next step of a call moves all statuses forward iff its write finds the status that was read, the one it writes, or RUNNING where it writes COMPLETED |
| Stale.OnlyOverwritesMiss | backend/src/iterations/workflow-engine.service.ts:226-250 | A call's pending write fails to land only if, since the last step of that call, which read the status, another call or a handler wrote the same node |
| Stale.StaleWakeupTurnsBack | backend/src/iterations/workflow-engine.service.ts:267-283 | A concrete schedule of claims and completions only in which a second wakeup takes a claimed node from RUNNING back to PENDING |
| Witnesses.HandlerOutOfOrder | backend/src/execution/handlers/base.handler.ts:37-42 | Reachable: a handler run on a waiting task makes it RUNNING before its predecessors are cleared |
| Witnesses.EndGoesUnseen | backend/src/execution/handlers/base.handler.ts:44-64 | Reachable: a handler that ends the only node leaves the stored status stale |
| Witnesses.ReopeningGoesUnseen | backend/src/execution/handlers/base.handler.ts:37-42 | Reachable: a handler started on a COMPLETED node leaves COMPLETED stored over an open node |
| Witnesses.ExceptionsArise | backend/src/iterations/workflow-engine.service.ts:147-329 | One reachable state on a concrete graph for each exception |
| Witnesses.LaterExceptionsArise | backend/src/iterations/workflow-engine.service.ts:147-329 | Likewise for the restart behind a SKIPPED node, the reopened iteration and the missing output |
| Iterations.Iteration.constructor | backend/src/iterations/iterations.service.ts:292-300 | Creating an iteration leaves the state of Lifecycle.Create |
| Iterations.Iteration.InitNodeStates | backend/src/iterations/workflow-engine.service.ts:34-43 | Adds a fresh row for every node and leaves existing rows alone |
| Iterations.Iteration.UpdateNodeStatus | backend/src/iterations/workflow-engine.service.ts:331-360 | Changes the status of one row, and its path if one is given, and nothing else |
| Iterations.Iteration.ReconcileStatus | backend/src/iterations/iterations.service.ts:179-226 | Leaves the state of Lifecycle.Reconcile |
| Iterations.Iteration.CheckIterationComplete | backend/src/iterations/workflow-engine.service.ts:308-329 | Leaves the state of Lifecycle.CheckComplete |
| Iterations.Iteration.ResolvePredecessorInputs | backend/src/iterations/workflow-engine.service.ts:50-107 | The loop over inputs computes Runtime.ResolveInputs |
| Iterations.Iteration.AdvanceWorkflow | backend/src/iterations/workflow-engine.service.ts:147-155 | Rows and stored status after an advancement |
| Iterations.Iteration.TryActivate | backend/src/iterations/workflow-engine.service.ts:165-284 | The mutual recursion through gateways computes Activation.TryActivate and terminates on any graph, cycles included |
| Iterations.Iteration.EvaluateGate | backend/src/iterations/workflow-engine.service.ts:186-251 | Writes exactly the row of Runtime.GateRow and answers as it does |
| Iterations.Iteration.SkipBehind | backend/src/iterations/workflow-engine.service.ts:286-306 | The work list skips exactly the IDLE nodes reachable from the gateway along IDLE-only paths, and terminates on any graph |
| Iterations.Iteration.ClaimNode | backend/src/iterations/iterations.service.ts:513-520 | State and reply of Lifecycle.Claim, errors included |
| Iterations.Iteration.CompleteNode | backend/src/iterations/iterations.service.ts:522-572 | State and reply of Lifecycle.Complete, errors included |
| Iterations.Iteration.AttachOutput | backend/src/iterations/iterations.service.ts:830-851 | State and reply of Lifecycle.Link, an unknown file or node refused |
| Iterations.Iteration.SaveUpload | backend/src/files/files.service.ts:369-393 | The state of Lifecycle.Attach; without a row nothing is recorded |
| Iterations.Iteration.RecordReport | backend/src/execution/handlers/base.handler.ts:37-64 | The state of Lifecycle.Handle: the report is written whatever the status was, and nothing is advanced |
| Iterations.Iteration.RepairRun | backend/src/iterations/iterations.service.ts:579-605 | State of Lifecycle.Repair; the answer is the number of places in the row order whose node was COMPLETED and had an IDLE successor before the repair |
| Iterations.Iteration.AdvanceAll | backend/src/iterations/iterations.service.ts:587-600 | The loop advances behind exactly the rows that the snapshot shows to need it, and counts them: the places whose node is COMPLETED there with an IDLE successor |
| Iterations.Iteration.CollectSuccessors | backend/src/iterations/iterations.service.ts:926-937 | The work list returns exactly the nodes reachable from the start, each once, on any graph |
| Iterations.Iteration.InheritRows | backend/src/iterations/iterations.service.ts:430-459 | The loop builds the inherited and fresh rows of Lifecycle.ForkRows |
| Iterations.Iteration.Restart | backend/src/iterations/iterations.service.ts:391-483 | A fresh iteration in the state of Lifecycle.Fork, None iff the node is unknown; the source is not modified |
| Iterations.Iteration.WakeRestartNode | backend/src/iterations/iterations.service.ts:468-480 | State of Lifecycle.WakeRestart |
| Iterations.CascadeSkips | backend/src/iterations/workflow-engine.service.ts:292-305 | One turn of the cascade keeps its invariant and strictly shrinks the set of IDLE nodes |
| Iterations.CascadeEnds | backend/src/iterations/workflow-engine.service.ts:292-305 | An exhausted work list means the cascade is complete |
| Machines.FrozenWorkflow | backend/src/machines/machines.service.ts:114-212 | Over every history of creates, saves, starts, forks and deletions: between any two moments of its life an iteration loads the same graph, as long as the saves in between spare the live iterations |
| Machines.SaveFrozen | backend/src/machines/machines.service.ts:114-161 | A save leaves what every live iteration loads unchanged iff it is refused, or each version row that it writes through the relation and that a live iteration is pinned to is to hold what it holds (or is deleted while the head will hold the same), and a record without a pin finds the head unchanged |
| Machines.PlainHistoriesFreeze | backend/src/machines/machines.service.ts:114-212 | In histories whose saves name no version row, whatever parts of the graph and head columns they name, what an iteration loads never changes |
| Machines.RowsThawTheWorkflow | backend/src/machines/machines.service.ts:118-159 | Failing input: a body that only rewrites version row 1 through the relation changes what a running iteration loads |
| Machines.EveryHistoryInStep | backend/src/machines/machines.service.ts:79-212 | After every history of harmless saves the version numbers of each machine are exactly 1..latestVersion and its head equals the latest row |
| Machines.EveryHistoryResolves | backend/src/machines/machines.service.ts:79-212 | After every history every pin that is left resolves to a version row of its machine |
| Machines.SaveKeepsInStep | backend/src/machines/machines.service.ts:114-161 | A save keeps a machine in step iff it is harmless: rows are named to be written up to the number the head will carry and deleted beyond it, every number between it and the last row is named, and the row with that number will hold what the head holds |
| Machines.PlainHarmless | backend/src/machines/machines.service.ts:114-161 | For a save that names no version row: it is harmless iff it appends a version, or renumbers nothing and changes no head column without a part of the graph |
| Machines.StepInStep | backend/src/machines/machines.service.ts:114-212 | A call keeps all machines in step iff it is not a harmful save |
| Machines.ColumnsBreakTheStep | backend/src/machines/machines.service.ts:118-159 | Failing inputs: a body with latestVersion 5 puts the numbers out of step and makes the next save fail; one with nodesJson makes a new iteration load something else than the head |
| Machines.StepFrozen | backend/src/iterations/iterations.service.ts:343-370 | No call but a save that does not spare it changes what a live iteration loads |
| Machines.StartsFromHead | backend/src/iterations/iterations.service.ts:248-290 | In every history an iteration can be started iff the machine has a version row, and loads the one with the highest number; after harmless saves it can be, and that is the head |
| Machines.StartAfterSave | backend/src/iterations/iterations.service.ts:248-254 | After one save from an in-step store that names no version row a new iteration loads the head iff the save carried a part of the graph or left the head as it was |
| Machines.NewVersionOnlyWhenHeld | backend/src/machines/machines.service.ts:47-55 | After harmless saves every save of the graph is accepted, whatever else it names, and, unless it names version rows, adds a version number iff a live iteration holds the head version |
| Machines.SaveAfterRenumbering | backend/src/machines/machines.service.ts:130-159 | Once the head is renumbered, a save of the graph is accepted iff the number is the last one, or an earlier one that no live iteration holds |
| Machines.SaveWritesOneVersion | backend/src/machines/machines.service.ts:132-159 | On its own a save of the graph changes the head and exactly one version row, the next one if the head version is held, else the latest; then come the rows it names |
| Machines.ForkLoadsAlike | backend/src/iterations/iterations.service.ts:414-428 | Over every later history of sparing saves a fork loads what its source loaded when it was forked |
| Machines.UnpinnedFollowsHead | backend/src/iterations/iterations.service.ts:343-370 | A record without a pin follows every accepted save, columns named in the body included |
| Saves.SaveReply | backend/src/machines/machines.service.ts:114-161 | A save is NotFound iff the machine is unknown, and BadRequest iff it carries a part of the graph and the row to be appended exists (head version held by a live iteration) or the row to be edited does not (otherwise); refused it changes nothing |
| Saves.SaveStoresHead | backend/src/machines/machines.service.ts:114-161 | After an accepted save each of nodes, edges and groups in the head is the part given, else the column named in the body, else the old value; the number is one higher iff a part was given and the head version was held, else as named or as before; other machines stay |
| Saves.SaveStoresRows | backend/src/machines/machines.service.ts:132-159 | After an accepted save a version row is what the body names for it; the row written with a part of the graph holds, part by part, what was given, named or there before; every other row, and every pin not on a deleted row, stays |
| Saves.SavedIsStarted | backend/src/iterations/iterations.service.ts:248-290 | After harmless saves a new iteration loads, part by part, the graph just saved, or the head from before if the save carried no part |
| Saves.CreateMachineEffect | backend/src/machines/machines.service.ts:79-112 | A new machine has the given graph in the head and in its only version row, number 1; nothing else changes |
| Saves.RemoveEffect | backend/src/machines/machines.service.ts:214-217 | A machine is removed iff it is known and no live iteration runs it; its version rows go and nothing else |
| Saves.StartEffect | backend/src/iterations/iterations.service.ts:228-312 | An iteration starts iff its machine is known and has a version row, pinned to the row with the highest number; nothing else changes |
| Saves.ForkAndDeleteEffect | backend/src/iterations/iterations.service.ts:391-428 | A fork carries its source's machine and pin; a deletion removes one iteration; both NotFound iff it is unknown |
| Saves.LoadMeaning | backend/src/iterations/iterations.service.ts:343-370 | In every store that histories reach an iteration loads the version row it is pinned to, or the head of its machine without a pin |
| Machines.MachinesService.Create | backend/src/machines/machines.service.ts:79-112 | New head with version 1 |
| Machines.MachinesService.HeadVersionHasIterations | backend/src/machines/machines.service.ts:47-55 | True iff the head version row exists and a live iteration is pinned to it |
| Machines.MachinesService.Update | backend/src/machines/machines.service.ts:114-162 | Store and reply of Machines.Save, the head columns and version rows named in the body included |
| Machines.MachinesService.UpdateGraph | backend/src/machines/machines.service.ts:164-212 | Store and reply of Machines.Save with nodes and edges always present |
| Lineage.LineageService.Traverse | backend/src/lineage/lineage.service.ts:314-336 | None iff the root is unknown; else each file at distance 1..depth in the direction exactly once, nearest first, each with an edge that leads to it from one hop closer, and nothing else; any edges, cycles included |
| Lineage.LineageService.GetFullGraph | backend/src/lineage/lineage.service.ts:175-215 | On any lineage it ends, None iff the root is unknown, and returns only ancestors and descendants within the bound and edges among them; on acyclic lineage exactly those files, and the edges met on the way each once |
| Lineage.LineageService.CreateDerivation | backend/src/lineage/lineage.service.ts:101-116 | Adds one derivation edge at the end iff none joins the two files, and says so |
| Lineage.LineageService.RecordEdgesForNode | backend/src/lineage/lineage.service.ts:38-118 | Afterwards every recorded input file of the node, by id or by path, is joined to every other file it produced; only missing edges of that kind were added; the count is right |
| Lineage.LineageService.RebuildForIteration | backend/src/lineage/lineage.service.ts:122-139 | The same for every COMPLETED row of the iteration; counts those rows, the edges added, and the nodes whose files gained one |
| Lineage.LineageService.RebuildTwice | backend/src/lineage/lineage.service.ts:32-36 | A second rebuild creates no edge |
| Lineage.SidesAreApart | backend/src/lineage/lineage.service.ts:193-215 | On acyclic lineage no edge leads from one side of the root to the other, so the shared visited map is harmless |
| Lineage.BothEnd | backend/src/lineage/lineage.service.ts:193-215 | An exhausted queue means both searches are complete and every edge has been listed once |
| Searching.SearchEnds | backend/src/lineage/lineage.service.ts:314-336 | An exhausted queue means exactly the files within the bound were found |
| Searching.SearchDiscovers | backend/src/lineage/lineage.service.ts:328-333 | A newly met file is one hop further than the file being expanded, and no closer |
| Searching.SearchPops | backend/src/lineage/lineage.service.ts:321-323 | Taking the head of the queue keeps distances exact and the queue ordered |
| Searching.BallIsChains | backend/src/lineage/lineage.service.ts:314-336 | The files within a bound are the ends of the chains of at most that many edges, each followed in the given direction |
| Compare.DiffObject | backend/src/compliance/version-compare.service.ts:102-113 | Reports exactly the places where the sides first stop being both objects and differ, each once |
| Compare.ReportedPlaces | backend/src/compliance/version-compare.service.ts:102-113 | A difference is reported at a path iff the values there differ and are not both objects while every proper prefix leads to an object on both sides; it carries these two values |
| Compare.PatchGivesRight | backend/src/compliance/version-compare.service.ts:102-113 | Patching the left side with the diff, in any order, gives the right side |
| Compare.EmptyIffEqual | backend/src/compliance/version-compare.service.ts:102-113 | The diff is empty iff the sides are equal |
| Compare.SwapSides | backend/src/compliance/version-compare.service.ts:102-113 | Swapping the sides swaps left and right in every difference |
| Compare.OnePerPath | backend/src/compliance/version-compare.service.ts:102-113 | No two reported differences have the same path |
| Compare.DiffCollection | backend/src/compliance/version-compare.service.ts:84-100 | Added, removed and changed are exactly the keys on one side only and the common keys with different values, each listed once |
| Compare.CollectionRoundTrip | backend/src/compliance/version-compare.service.ts:84-100 | Patching the left collection gives the right one |
| Compare.CollectionEmptyIffEqual | backend/src/compliance/version-compare.service.ts:84-100 | Nothing is reported iff the keyed collections are equal |
| Compare.CollectionSwap | backend/src/compliance/version-compare.service.ts:84-100 | Swapping the sides swaps added with removed, keeps the changed keys, and swaps left with right inside each of them |
| Compare.UniqueKeysKeepAll | backend/src/compliance/version-compare.service.ts:84-87 | With unique keys the keyed form loses no element |
| Compare.LastWins | backend/src/compliance/version-compare.service.ts:84-87 | Of the elements that share a key the last one counts |
| Normalize.NormalizeTwice | backend/src/iterations/normalize-node.ts:170-253 | A second pass changes nothing iff the id does not print as the empty string, the kind is not AUTOMATIC, MANUAL or STORAGE against a TRIGGER or GATEWAY type, and no default output got an empty file type |
| Normalize.SecondPassChanges | backend/src/iterations/normalize-node.ts:170-253 | One raw node for each of the three exceptions |
| Normalize.SecondKind | backend/src/iterations/normalize-node.ts:48-61 | The kind inferred from a normalised node is its kind iff it does not flip |
| Normalize.InputAgain | backend/src/iterations/normalize-node.ts:82-150 | A normalised input is normalised to itself |
| Normalize.OutputAgain | backend/src/iterations/normalize-node.ts:152-168 | A normalised output is normalised to itself iff it has no empty file type |
| Normalize.DefaultAgain | backend/src/iterations/normalize-node.ts:186-206 | The implicit output comes back unchanged iff no configured file type is empty |
| Normalize.PartnersAgain | backend/src/iterations/normalize-node.ts:72-80 | Normalised partner ids, read again with their first as the single id, are unchanged |
| Normalize.NormalizeResponsiblePartnerIds | backend/src/iterations/normalize-node.ts:72-80 | The pushing loop keeps non-blank ids, each once, in order of first occurrence |
| Canonical.KindMeaning | backend/src/iterations/normalize-node.ts:48-61 | Only an id is required. The kind is what `kind` maps to, else `type`, else the catalog category of `nodeTypeId`, else TASK; AUTOMATIC, MANUAL and STORAGE are TASK |
| Canonical.LogicMeaning | backend/src/iterations/normalize-node.ts:207-240 | A gateway's logic is its own, else the textual `config.gateType`, else AND; no other node has one |
| Canonical.InputMeaning | backend/src/iterations/normalize-node.ts:82-150 | Each field of a normalised input from the raw one: id, name, cardinality, required flag, file types (the items that print as something, lowered, in order), mime types, size, and the source with its legacy fallback to a data source |
| Canonical.InputsMeaning | backend/src/iterations/normalize-node.ts:176-215 | A trigger has no inputs; any other node has those of its own list, else of its configuration, one by one in order |
| Canonical.OutputMeaning | backend/src/iterations/normalize-node.ts:152-168 | Each field of a normalised output from the raw one, the classification only if it is one of the five |
| Canonical.OutputsMeaning | backend/src/iterations/normalize-node.ts:181-227 | A gateway's outputs mirror its inputs field by field; a task without any has the default one with its name and file types; others are normalised one by one |
| Canonical.PartnersMeaning | backend/src/iterations/normalize-node.ts:72-80 | The partner ids are exactly the texts that are not blank, of the list and then the single id, each once, in order of first occurrence; the single id becomes the first of them |
| Canonical.RestMeaning | backend/src/iterations/normalize-node.ts:174-253 | Where id, name, label, description, tags, group, position, types, partner name, annotations and configuration come from |
| Canonical.DigitsRead | backend/src/iterations/normalize-node.ts:119-120 | Generated ids count in decimal, without leading zeros |
| Canonical.ArrayPrints | backend/src/iterations/normalize-node.ts:119-120 | An array used as text prints its items between commas, null as nothing |
| Approvals.TwoApproverOutcome | backend/src/governance/approvals.service.ts:54-99 | After any decide and cancel calls: PENDING iff no rejection, no accepted cancellation and fewer than two distinct approvers; APPROVED iff two distinct approvers and no rejection; REJECTED iff rejected; never approved by the requester; and every approver approved in a call of their own as SUPERADMIN or OWNER |
| Approvals.AfterInv | backend/src/governance/approvals.service.ts:91-99 | CANCELLED iff a cancellation was accepted along the way |
| Approvals.DecideEffect | backend/src/governance/approvals.service.ts:54-89 | A decision is accepted iff it comes from a SUPERADMIN or OWNER on a PENDING request of somebody else, where the database allows, once each. Forbidden iff the role is missing or the PENDING request is their own; else BadRequest. Accepted, it is appended, REJECTED iff it rejects, APPROVED iff it approves and another approver had approved; nothing else changes, and refused nothing does |
| Approvals.CancelEffect | backend/src/governance/approvals.service.ts:91-99 | A cancellation is accepted iff it comes from the requester while the request is PENDING; Forbidden iff from another; it only sets CANCELLED, and refused it changes nothing |
| Approvals.ApprovalsService.RequestApproval | backend/src/governance/approvals.service.ts:27-44 | A new PENDING request without decisions |
| Approvals.ApprovalsService.DecideRequest | backend/src/governance/approvals.service.ts:54-89 | Request and reply of Approvals.Decide; other requests untouched |
| Approvals.ApprovalsService.CancelRequest | backend/src/governance/approvals.service.ts:91-99 | Request and reply of Approvals.Cancel; other requests untouched |
| Erasure.ErasureOnlyWhenSanctioned | backend/src/retention/erasure.service.ts:41-67 | Over every history, profile and password changes included, a user's email changes only into a pseudonym, and only if two people other than the requester approved the erasure and nobody rejected it; the audit rows then carry the pseudonym, and until a new password is set all tokens are revoked |
| Erasure.SecondExecutionRehashes | backend/src/retention/erasure.service.ts:40-58 | A second execution is accepted and replaces the pseudonym by its own digest, leaving tokens and requests as they are |
| Erasure.FileEffect | backend/src/retention/erasure.service.ts:25-38 | A request is filed iff the user is known: PENDING, on that user, without decisions; nothing else changes |
| Erasure.ExecuteEffect | backend/src/retention/erasure.service.ts:41-71 | An execution is accepted iff the request exists, revokes a user, is APPROVED and its target exists; BadRequest iff it exists and is no such request. Accepted, the user is pseudonymised, here and in the audit rows, unnamed, inactive and cannot log in, and all its tokens are revoked; other users, tokens, audit rows and all requests stay. Refused, nothing changes |
| Erasure.ErasureService.FileRequest | backend/src/retention/erasure.service.ts:25-38 | A PENDING erasure request, or NotFound for an unknown user |
| Erasure.ErasureService.ExecuteRequest | backend/src/retention/erasure.service.ts:41-71 | Tables and reply of Erasure.Execute, errors included |

## Left out

- Interleaving.NoWakeupLost: how a gate with file inputs answers under interleaving is left to the schedule, and the
  writes of the iteration status are not interleaved; only node statuses are shared.
- Solo.HistoriesAreSchedules: the continuation has no forks, because a fork's rows belong to another iteration; the
  history before it may have any.
- Confluence.AdvanceIsEvaluation: needs file bindings to follow edges; a binding to a node that is no predecessor makes the
  files seen depend on timing.
- Commuting.CompletionsCommute: needs the same, and an acyclic graph.
- Lineage.LineageService.GetFullGraph: on cyclic lineage only soundness and termination are stated, because the one visited
  map shared by both directions decides which side expands a file. Enrichment with iterations and partners and the
  owner's scope filter are not modelled.
- Lineage.LineageService.RecordEdgesForNode: the transform description of an edge is not modelled.
- Machines.FrozenWorkflow: one save is one atomic step, although the code reads the lock before its transaction opens. Of
  the relations that a body can write through, only the version rows are modelled, not the iterations or bindings of the
  machine; nor is a body that names the machine's id.
- Compare.DiffObject: paths are lists of keys, so the ambiguity of joining keys with dots is not captured; arrays are compared as
  values, without the key order of the printed form of objects inside them.
- Normalize.NormalizeTwice: strings have no Unicode case mapping or trimming beyond ASCII, keys inherited from an object's
  prototype are ignored, and JSON numbers are integers.
- Approvals.TwoApproverOutcome: two concurrent decisions on one request are taken one after the other.
- Erasure.ErasureOnlyWhenSanctioned: the digest is a constructor, so distinct addresses have distinct pseudonyms; users are
  neither created nor deleted.
- Iterations.Iteration.Restart: a definition with repeated node ids is forked here, while the database would refuse the second row.
- Iterations.Iteration.UpdateNodeStatus: timestamps, messages, progress, claimant, logs, lineage recording and emitted events are
  dropped.
- Setting an input file by hand, recording an output through the engine, listing outputs and re-parenting a linked file.
- Template resolution, unit tables, usage policies and pagination; groups are no more than a saved column.
- Owner and product resolution when an iteration is created; display ids; timeline and provenance agents.
- JSON text: columns are taken as parsed values, and the fallbacks for broken text are the empty map.
- Retention sweeps, impact analysis of change requests, data export, file access rules and classifications.
- Storage, manifests, signatures, mail, webhooks, controllers, guards and the frontend.
