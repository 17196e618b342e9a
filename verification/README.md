# PatchQuest, modelled in Dafny

PatchQuest is a durable runtime for agents. This project models the deterministic parts its guarantees rest on and
proves those guarantees for every input, every history and every interleaving.

- **Workflow definitions**: `WorkflowModel`, `Searches` (the four graph searches, proved exact), `Templates`,
  `Conditions`, `Validation` (an empty problem list means a statement about all paths), `Walks` (what follows for every
  path and walk), `Definition` and `RoundTrip` (parser and printer), `Engine` (the step machine that runs a workflow,
  late and repeated writes included), `Example` (a workflow that meets the theorems' hypotheses, and a lost successor).
- **Durable protocols**: `Runs`, `Recovery`, `Queue` (claims, leases, fenced commits), `Stream` (following a run's
  events), `Outbound` (webhook deliveries), `Connector` (crash-safe external actions). Each protocol is a set of steps
  on values, with theorems over all histories, and a class whose methods are proved to be those steps.
- **Incremental repository index**: `RepoIndex`.
- **Policy evaluation**: `Sorting`, `PolicyEngine`.
- **Algorithms**: `Calendar`, `Sql`, `Salvage`, `Budget`, `SignTest`.

`Wrappers`, `Json` and `Effects` hold shared data types. `dafny verify dfyconfig.toml` checks everything.

## Where the code and its documentation disagree

The model follows the code.

- `backend/patchquest/runtime/queue.py:11` says every claim raises the lease epoch. The claim that recovers a dead
  worker's run does not; it clears the owner, which is why stale commits still fail (`Queue.ReclaimKeepsEpoch`,
  `Queue.StepRow`).
- `backend/patchquest/connectors/outbound.py:5` says a crash can never loop for ever. A claim has no cap of its own, so
  attempts that all crash do (`Outbound.CrashesNeverEnd`); attempts are bounded by the cap plus the crashes.
- `backend/patchquest/application/service.py:423` says subscribing first closes the gap in which an event could be missed.
  That holds when the bus mirrors the ledger without drops (`Stream.NoGaps`). When another process writes an
  unannounced event just before an announced one, the earlier one is passed over for good
  (`Stream.MixedWritersLeaveAGap`, `Stream.SkippedForever`). `Stream.HistoryGapFreeIff` says exactly when there is none.
- `backend/patchquest/agents/budget.py:60` speaks of at most about the budget. The minimum per block can exceed it
  (`Budget.MinimumOvershoots`); `Budget.FitText` gives the exact length and `Budget.WithinBudget` a sufficient condition.
- Collecting a condition's references can raise on a condition the validator accepted
  (`Conditions.AcceptedYetUnreadable`); `Conditions.ReferencesCollected` says exactly when.
- An action's success and the firing of its edges are two transactions. A crash between them loses the successors
  (`Example.SuccessorIsLost`); `Engine.SuccessorLostIff` says exactly when one is lost.
- A settled webhook delivery is overwritten by a late answer (`Outbound.LateFailureResurrects`);
  `Outbound.StaysSettledIff` says exactly when it is not.
- `backend/patchquest/workflows/engine.py:12` says that an action that may not be repeated stops for a person. That holds
  across crashes (`Engine.BegunOnceAndOnRetry`). Within one start the retry helper is not told that the effect is
  uncertain (`backend/patchquest/workflows/engine.py:633`), so a failure it takes as passing is tried again.
- Two overlapping connector calls with one key create two objects (`Connector.OverlappingCallsDuplicate`);
  `Connector.OneObjectIff` says exactly when.
- The approval gate looks at nodes, not at edge labels: it guarantees that a path passes an approval node
  (`Walks.GateOnEveryPath`). That someone approved is checked when the action runs (`Engine.PerformedOnlyApproved`).
- The idempotency key pattern also accepts one final newline (`Connector.AcceptedKeyIsCleanIff`).
- The indexer's "racy" age is measured against the pass's own clock, so agreement with a full index needs size and time
  to identify content (`RepoIndex.PassExactIff`).

## Model

| member | source | states |
|---|---|---|
| WorkflowModel.NodeByIdIs | backend/patchquest/domain/workflows.py:95-96 | with unique ids, looking a node up by its id gives that node |
| Searches.Reachable | backend/patchquest/domain/workflows.py:400-408 | the stack search returns exactly the ids some start leads to over a path of edges, and terminates |
| Searches.Ancestors | backend/patchquest/domain/workflows.py:411-418 | the backward search returns exactly the ids with a non-empty path to the node |
| Searches.OnCycle | backend/patchquest/domain/workflows.py:428-436 | the inner search is true exactly when the node has a non-empty path to itself |
| Searches.NodesOnCycles | backend/patchquest/domain/workflows.py:425-437 | returns exactly the nodes of the workflow with a non-empty path to themselves |
| Searches.ReachableAvoidingApproval | backend/patchquest/domain/workflows.py:540-554 | in a graph without duplicate ids or dangling edges: true if and only if some path from an entry to the target has no approval node before the target |
| Templates.MatchAtComplete | backend/patchquest/domain/workflows.py:252-260 | a template written at a position is found there, with exactly its path and end |
| Templates.MatchAtSound | backend/patchquest/domain/workflows.py:252-260 | whatever is found at a position is a template written there |
| Templates.LookupCursor | backend/patchquest/domain/workflows.py:240-249 | the cursor loop computes the recursive lookup of a dotted path, through mappings and list indices |
| Templates.RenderSucceeds | backend/patchquest/domain/workflows.py:263-274 | over all nested values: rendering succeeds if and only if every path among the value's references resolves |
| Templates.SubstituteSucceeds | backend/patchquest/domain/workflows.py:263-274 | the same for the holes of one string; a string without holes is returned as it is |
| Templates.RenderIdentity | backend/patchquest/domain/workflows.py:263-274 | a value without references renders to itself |
| Templates.TokensSpell | backend/patchquest/domain/workflows.py:263-274 | cutting a string into literal text and holes loses nothing |
| Templates.SubstituteFills | backend/patchquest/domain/workflows.py:263-274 | a rendered string is the original with each hole replaced by its value's text and nothing else moved |
| Templates.WholeTemplateKeepsType | backend/patchquest/domain/workflows.py:263-274 | a string that is one template up to blanks renders to the looked-up value itself, not to text |
| Templates.WholeTemplatePaths | backend/patchquest/domain/workflows.py:252-266 | a string that is one whole template references exactly that path |
| Conditions.AcceptedEvaluates | backend/patchquest/domain/workflows.py:277-306 | a condition the validator accepts takes the same branch in evaluation, gives the answer its structure means, and fails only on an unresolved path or on values that do not compare |
| Conditions.AcceptedSeqEvaluates | backend/patchquest/domain/workflows.py:277-306 | the same for the lists under all and any |
| Conditions.SeqIsFirstDecisive | backend/patchquest/domain/workflows.py:277-306 | all and any answer with the first decisive item, and an error before it wins |
| Conditions.AcceptedItem | backend/patchquest/domain/workflows.py:506-520 | every item of an accepted list is an accepted condition |
| Conditions.ReferencesCollected | backend/patchquest/domain/workflows.py:309-317 | references are collected without an error if and only if the condition is readable, and are among those the data mentions |
| Conditions.AcceptedYetUnreadable | backend/patchquest/domain/workflows.py:309-317 | an accepted condition can still raise there: a concrete one with a stray key beside all |
| Validation.CheckDuplicates | backend/patchquest/domain/workflows.py:360-362 | reports exactly the ids that occur twice |
| Validation.CheckDangling | backend/patchquest/domain/workflows.py:363-367 | reports exactly the missing ends of edges |
| Validation.CheckReachable | backend/patchquest/domain/workflows.py:371-377 | reports exactly the nodes no entry leads to, in node order |
| Validation.CheckLoops | backend/patchquest/domain/workflows.py:381-383 | reports exactly the nodes on a cycle that allow a single visit |
| Validation.GateOpen | backend/patchquest/domain/workflows.py:527-537 | the gate test of one action is exact |
| Validation.CheckApprovalGates | backend/patchquest/domain/workflows.py:523-537 | reports, in node order, exactly the actions with an approval-requiring effect that an approval-free path reaches |
| Validation.CheckReferences | backend/patchquest/domain/workflows.py:491-502 | no problem if and only if every reference is to a known root, and every nodes.X names an ancestor |
| Validation.CheckVariables | backend/patchquest/domain/workflows.py:389-396 | no problem if and only if every variable has a plain name, no secret-looking default, and, unless the workflow is started by hand, a default when it is required |
| Validation.CheckNode | backend/patchquest/domain/workflows.py:440-503 | raises exactly on an unhashable action name, a condition whose validation fails with an error, or one whose references cannot be collected; otherwise empty if and only if the node's rules hold |
| Validation.CheckNodes | backend/patchquest/domain/workflows.py:385-387 | the same over all nodes, with each node's ancestors |
| Validation.CheckGraph | backend/patchquest/domain/workflows.py:371-383 | no problem if and only if there is an entry, a terminal node, everything is reachable and loops are bounded |
| Validation.Validate | backend/patchquest/domain/workflows.py:356-397 | the problem list is empty if and only if every rule holds of the workflow, in terms of its paths; graph rules are looked at only in a well-formed graph |
| Walks.AncestorsAgreeWithReachable | backend/patchquest/domain/workflows.py:400-418 | a is an ancestor of b if and only if b is reachable from a successor of a |
| Walks.SearchesAgree | backend/patchquest/domain/workflows.py:400-437 | the two searches, run on any workflow and pair of ids, answer alike |
| Walks.GateOnEveryPath | backend/patchquest/domain/workflows.py:523-554 | in a validated workflow with unapproved writes off, every path from an entry to an action that needs approval passes an approval node before it |
| Walks.ReferencesPointBack | backend/patchquest/domain/workflows.py:491-502 | a nodes.X reference of a validated workflow names a node X from which the referring node is reachable |
| Walks.OnceOnAnyWalk | backend/patchquest/domain/workflows.py:381-383 | with bounded loops, a node of max_visits 1 occurs at most once on a walk of any length |
| Walks.LoopIsNeeded | backend/patchquest/domain/workflows.py:381-383 | conversely, a reported node does occur twice on some walk |
| Walks.WalkWithinAllowance | backend/patchquest/domain/workflows.py:158-184 | a walk that respects every max_visits is no longer than their sum |
| Walks.BoundedWalk | backend/patchquest/domain/workflows.py:158-184 | such a walk has at most MAX_NODES * MAX_VISITS_LIMIT entries |
| Walks.LoopFreeWalk | backend/patchquest/domain/workflows.py:381-383 | a validated workflow that never raises max_visits has no walk longer than its node count |
| Definition.NamesAreUnique | backend/patchquest/domain/workflows.py:35-60 | node types and edge labels are recovered from their written names |
| Definition.NodeItemExact | backend/patchquest/domain/workflows.py:160-184 | a node item yields no defect if and only if it is acceptable, and is then read whole |
| Definition.EdgeItemExact | backend/patchquest/domain/workflows.py:186-197 | the same for an edge item, including the unhashable label on which the source raises |
| Definition.TriggerItemExact | backend/patchquest/domain/workflows.py:139-151 | the same for the trigger |
| Definition.HeadDefects | backend/patchquest/domain/workflows.py:130-137 | no defect if and only if the keys are known, the schema is 1 and the name is well formed |
| Definition.ParseNodes | backend/patchquest/domain/workflows.py:153-184 | the node loop: no defects if and only if every item is a node, and then the nodes are theirs, in order; otherwise every defect of every item is listed |
| Definition.ParseEdges | backend/patchquest/domain/workflows.py:186-197 | the edge loop, likewise, and exactly when it raises |
| Definition.ParseLayout | backend/patchquest/domain/workflows.py:203-215 | the layout loop, likewise, in whatever order the mapping is walked |
| Definition.Parse | backend/patchquest/domain/workflows.py:123-219 | accepts exactly the acceptable definitions and reads each one whole; raises exactly on edges it cannot walk; rejects everything else with every structural problem listed |
| RoundTrip.NodeReadsBack | backend/patchquest/domain/workflows.py:222-232 | a canonical node, written out, is accepted and reads back as itself |
| RoundTrip.EdgeReadsBack | backend/patchquest/domain/workflows.py:222-232 | every edge, written out, is accepted and reads back as itself |
| RoundTrip.TriggerReadsBack | backend/patchquest/domain/workflows.py:222-232 | the same for the trigger |
| RoundTrip.LayoutReadsBack | backend/patchquest/domain/workflows.py:222-232 | the same for the layout |
| RoundTrip.ReadingIsCanonical | backend/patchquest/domain/workflows.py:123-219 | what parse produces is in the form the printer preserves |
| RoundTrip.WriteThenRead | backend/patchquest/domain/workflows.py:222-232 | printing a canonical workflow gives an acceptable definition that reads back as that workflow |
| RoundTrip.ReadThenWriteThenRead | backend/patchquest/domain/workflows.py:123-232 | for every accepted definition parse(to_dict(parse(raw))) equals parse(raw), and to_dict after parse is a fixed point |
| RoundTrip.NothingDropped | backend/patchquest/domain/workflows.py:153-197 | an accepted definition keeps every node and edge, in order, with its id, type and ends |
| Engine.StartKeeps | backend/patchquest/workflows/engine.py:130-163 | a started run satisfies the engine invariant |
| Engine.FireKeeps | backend/patchquest/workflows/engine.py:370-389 | entering the picked successors of a step that fired keeps the invariant and, unless the run fails, leaves every target with a step |
| Engine.MoveKeeps | backend/patchquest/workflows/engine.py:204-492 | every write of the engine keeps the invariant and takes nothing back, whatever the run's status: steps, decisions, timeouts, failures handled or not, cancelling, ending, settling, all three ways to resolve an uncertain action, and the late writes of an action that was skipped meanwhile |
| Engine.HistoryKeeps | backend/patchquest/workflows/engine.py:270-290 | so does every history of these writes, in any order, from a started run of a validated workflow |
| Engine.VisitsBounded | backend/patchquest/workflows/engine.py:370-389 | in every history a node is entered at most max_visits times |
| Engine.StepsBounded | backend/patchquest/workflows/engine.py:370-389 | in every history there are at most MAX_NODES * MAX_VISITS_LIMIT steps |
| Engine.PathBehind | backend/patchquest/workflows/engine.py:370-389 | every step has a path from an entry behind it, each node of which has an earlier step that fired |
| Engine.GatePassed | backend/patchquest/workflows/engine.py:343-428 | in every history of a validated workflow, a step of a guarded action exists only after an approval node that leads to it was decided; an approval that fails or is skipped lets nothing through |
| Engine.PerformedOnlyApproved | backend/patchquest/workflows/engine.py:576-656 | a guarded action is begun, and so performed, even if it was skipped and answered later, only when someone approved at an approval node that leads to it |
| Engine.KeysDiffer | backend/patchquest/workflows/engine.py:318-320 | two different steps of a run never share an idempotency key |
| Engine.DecimalReadsBack | backend/patchquest/workflows/engine.py:318-320 | the decimal visit number in a key determines the number |
| Engine.EnteredIff | backend/patchquest/workflows/engine.py:370-389 | in every history of an active run, and so when it settles, the nodes entered are exactly the entries and the targets of fired edges |
| Engine.HistoryRemembers | backend/patchquest/workflows/engine.py:355-359 | in every history an action's success is unfired exactly when its first transaction took place and its second did not |
| Engine.SuccessorLostIff | backend/patchquest/workflows/engine.py:640-643 | in every history that settles, an unlabelled successor of a succeeded action was never entered if and only if the success was recorded, its edges were never fired, and no other step fired an edge to it |
| Engine.NoneLost | backend/patchquest/workflows/engine.py:640-643 | when every recorded success is fired before the run settles, every unlabelled successor of every succeeded action was entered |
| Engine.BegunOnceAndOnRetry | backend/patchquest/workflows/engine.py:608-628 | in every history, crashes included, an action that may not be repeated is begun at most once, and once more for each time a person said to retry it |
| Engine.UnhandledIff | backend/patchquest/workflows/engine.py:240-256 | in every history of an active run a step failed with nothing fired if and only if a person resolved it as failed |
| Engine.MoveFollows | backend/patchquest/workflows/engine.py:204-492 | every write changes one row, skips active rows or not, and adds only rows that have done nothing yet |
| Example.GuardedWorkflowIsRunnable | backend/patchquest/domain/workflows.py:356-397 | a concrete valid workflow and history of it with two steps, the second of a guarded action that was begun and performed: the hypotheses of the engine's theorems can be met |
| Example.SuccessorIsLost | backend/patchquest/workflows/engine.py:640-643 | the same history, crashed between the action's two transactions: the run completes and its end node was never entered |
| Runs.TerminalAbsorbs | backend/patchquest/domain/runs.py:26-40 | on every legal history a terminal status is the last |
| Runs.StartedBefore | backend/patchquest/domain/runs.py:26-40 | on every legal history from created, completed (and waiting, cancelling, interrupted) is preceded by running |
| Runs.RequeuedAfterInterruption | backend/patchquest/domain/runs.py:26-40 | a run that was running is queued again only after it was interrupted |
| Runs.MovedKeepsEnded | backend/patchquest/persistence/runs.py:23-64 | a legal move keeps the end time in step with the status |
| Recovery.SettledIsLegal | backend/patchquest/recovery.py:20-61 | recovery of a run uses only legal transitions, leaves no unleased run active, leaves leased runs as they are, and is idempotent |
| Recovery.Store.Transition | backend/patchquest/persistence/runs.py:23-64 | a refused move changes nothing; a legal one changes the row and is recorded |
| Recovery.Store.RecoverOne | backend/patchquest/recovery.py:33-60 | one run in flight is settled by recorded legal moves and its pending approvals expire |
| Recovery.Store.Recover | backend/patchquest/recovery.py:23-61 | afterwards every run is settled, the pending approvals of recovered runs are expired, all else is unchanged, the count is right, only legal moves were recorded, and every recovered run's change was |
| Recovery.RecoverTwice | backend/patchquest/recovery.py:23-61 | a second recovery finds nothing and changes nothing |
| Queue.StepKeepsFenced | backend/patchquest/database.py:153-206 | every step of workers, claims, recovery and time keeps the invariant of committed fenced writes |
| Queue.PlayKeepsFenced | backend/patchquest/database.py:153-206 | so does every history |
| Queue.EpochsNeverDecrease | backend/patchquest/database.py:153-206 | from any run table, in every interleaving, the epochs of the writes committed to a run never decrease, and one epoch has one writer |
| Queue.EpochsGrow | backend/patchquest/runtime/queue.py:52-104 | no event lowers a run's epoch, and a lease given up is not regained without a larger one |
| Queue.StepRow | backend/patchquest/runtime/queue.py:47-104 | every event raises a run's epoch by one if it is a start claim of it, and otherwise leaves it, and changes the owner only to that worker or to none |
| Queue.ReclaimKeepsEpoch | backend/patchquest/runtime/queue.py:68-86 | the claim that recovers a dead worker's run takes effect with the epoch unchanged, and afterwards no lease on the run holds |
| Queue.StaleCommitLeavesNothing | backend/patchquest/database.py:169-206 | a transaction whose lease was lost before its commit leaves no write, whatever happened in between |
| Queue.LeaseEndsOnlyBy | backend/patchquest/runtime/queue.py:47-104 | a lease ends exactly by a new claim, recovery of a dead worker, its own release or re-queueing |
| Queue.ClaimedAgainOnlyAfterInterruption | backend/patchquest/runtime/queue.py:52-88 | between two claims of one run the run was interrupted |
| Queue.LaterClaimHasLargerEpoch | backend/patchquest/runtime/queue.py:52-88 | a claim's epoch is larger than that of every earlier claim of the run |
| Queue.Database.EnterFence | backend/patchquest/database.py:157-167 | entering a fence puts it in force and hands back what was in force before |
| Queue.Database.ExitFence | backend/patchquest/database.py:157-167 | leaving it restores that |
| Queue.Database.Transact | backend/patchquest/database.py:169-206 | a status change commits exactly when it is legal and the fence in force, if any, still holds; otherwise nothing changes |
| Queue.Database.DoEnqueue | backend/patchquest/runtime/queue.py:47-50 | queueing is the protocol's enqueue step and is refused exactly on an illegal transition |
| Queue.Database.DoClaim | backend/patchquest/runtime/queue.py:52-88 | takes the oldest queued run, else the run whose lease ran out first, ties broken by id, else nothing |
| Queue.Database.DoHeartbeat | backend/patchquest/runtime/queue.py:89-96 | extends the lease exactly when it is still held |
| Queue.Database.DoRelease | backend/patchquest/runtime/queue.py:98-102 | gives the lease up exactly when it is still held |
| Stream.StepKeepsClean | backend/patchquest/application/service.py:420-464 | every step of writers, bus and follower keeps delivered ids increasing and nothing after a terminal event |
| Stream.HistoryIsClean | backend/patchquest/application/service.py:420-464 | so does every interleaving |
| Stream.NoRepeats | backend/patchquest/application/service.py:420-464 | in every interleaving the delivered ids strictly increase from the cursor and at most one terminal event is delivered, as the last |
| Stream.StepFollows | backend/patchquest/application/service.py:420-464 | while the bus mirrors the ledger without drops, every step keeps the stream free of gaps |
| Stream.HistoryFollows | backend/patchquest/application/service.py:420-464 | so does every such interleaving |
| Stream.NoGaps | backend/patchquest/application/service.py:399-464 | then what was delivered is at every moment a prefix of the ledger events after the cursor, up to the last id seen |
| Stream.TakeKeepsGapFreeIff | backend/patchquest/application/service.py:457-462 | taking a live event keeps the stream free of gaps if and only if it was already seen or is the next ledger event |
| Stream.StepKeepsBacked | backend/patchquest/application/service.py:420-464 | whatever the bus does, every step but a take keeps a gap-free stream gap-free |
| Stream.HistoryGapFreeIff | backend/patchquest/application/service.py:420-464 | in every interleaving the stream is free of gaps at every moment if and only if every live event taken was already seen or was the next one of the ledger |
| Stream.SkippedForever | backend/patchquest/application/service.py:457-462 | an event passed over is never delivered by any later step |
| Stream.MixedWritersLeaveAGap | backend/patchquest/application/service.py:420-464 | a history in which another process's unannounced event is passed over |
| Stream.HandedOutIsYields | backend/patchquest/application/service.py:430-435 | handing out a ledger read extends the history by yield steps only |
| Stream.Tail.HandOut | backend/patchquest/application/service.py:430-435 | the loop over a read yields it in order, cut after a terminal event |
| Stream.Tail.Receive | backend/patchquest/application/service.py:457-462 | receiving a live event is exactly the protocol's take step |
| Stream.Tail.Poll | backend/patchquest/application/service.py:441-456 | the poll yields what is new; empty polls add up to a ping after the heartbeat, and only then may the status end the stream |
| Outbound.StepKeepsCounted | backend/patchquest/connectors/outbound.py:79-115 | every step keeps the attempt accounts |
| Outbound.AttemptsCountClaims | backend/patchquest/connectors/outbound.py:79-115 | in every interleaving with crashes attempts equals the successful claims, which are in flight, settled or crashed, and sends never exceed attempts |
| Outbound.StepKeepsExclusive | backend/patchquest/connectors/outbound.py:88-115 | while attempts end within their lease, every step keeps the attempt in flight the last one claimed |
| Outbound.OneAtATime | backend/patchquest/connectors/outbound.py:88-115 | then at most one attempt is in flight, and attempts are at most the cap plus the crashes |
| Outbound.TerminalAbsorbs | backend/patchquest/connectors/outbound.py:112-115 | then a delivered or dead row never changes again |
| Outbound.TerminalMovesIff | backend/patchquest/connectors/outbound.py:112-115 | without that hypothesis a settled row moves exactly on a late answer that contradicts it: any failure of a delivered one; for a dead one a success, or a retryable failure of an attempt below the cap |
| Outbound.StaysSettledIff | backend/patchquest/connectors/outbound.py:79-115 | over whole histories, once settled a row stays as it is if and only if no later step is such an answer |
| Outbound.LateFailureResurrects | backend/patchquest/connectors/outbound.py:112-115 | a history in which a late failure makes a delivered row pending again |
| Outbound.CrashesNeverEnd | backend/patchquest/connectors/outbound.py:88-97 | for every n a history within all leases with n crashed attempts and the delivery still pending |
| Outbound.AttemptIsSteps | backend/patchquest/connectors/outbound.py:88-110 | one sent and answered attempt extends the history by exactly its claim, its send and its settlement |
| Outbound.Outbox.Enqueue | backend/patchquest/connectors/outbound.py:58-69 | a new row is pending, unattempted and due at once |
| Outbound.Outbox.Attempt | backend/patchquest/connectors/outbound.py:88-110 | claims exactly a pending due row, counts before sending, and settles only that row |
| Outbound.Outbox.Due | backend/patchquest/connectors/outbound.py:81-85 | the due rows, earliest first; one is left out only when the limit is reached by rows due no later |
| Outbound.Outbox.DeliverDue | backend/patchquest/connectors/outbound.py:79-86 | every selected row gets exactly one attempt, no other row is touched, and none due is left out below the limit |
| Connector.CheckGrant | backend/patchquest/connectors/base.py:126-134 | passes if and only if there is a grant for this action and key, by someone, with a zone, unexpired now |
| Connector.AcceptedKeyIsCleanIff | backend/patchquest/connectors/base.py:30-30 | an accepted idempotency key is 1-128 characters of the class if and only if it does not end in a newline |
| Connector.FoundAction | backend/patchquest/connectors/base.py:103-107 | the lookup finds an action of that name, or there is none |
| Connector.StepKeepsGranted | backend/patchquest/connectors/base.py:171-182 | every step keeps all created objects and poised calls covered by a grant |
| Connector.CreationsAreGranted | backend/patchquest/connectors/base.py:77-85 | in every interleaving each creation was under a grant for its action and key that was unexpired when checked |
| Connector.StepKeepsOnePerKey | backend/patchquest/connectors/base.py:171-182 | with an honest lookup and no other call on the key between lookup and act, every step keeps one object per key |
| Connector.AtMostOneObject | backend/patchquest/connectors/base.py:171-182 | so over every such history with crashes at any point no key has two objects |
| Connector.OneObjectIff | backend/patchquest/connectors/base.py:171-182 | over every history whose lookups see what exists, with crashes at any point: no key has two objects if and only if no call acted that had looked before another call with its key acted |
| Connector.OverlappingCallsDuplicate | backend/patchquest/connectors/base.py:171-182 | for every permitted risky call: a history of two that overlap, in which no lookup misses an object, with two objects for one key |
| Connector.Account.FindExisting | backend/patchquest/connectors/base.py:164-166 | a lookup that answers exactly whether an object with the key exists |
| Connector.Account.Perform | backend/patchquest/connectors/base.py:171-182 | refuses exactly in the source's order and cases; creates at most one object, only for a permitted risky call whose key has none; keeps one object per key |
| RepoIndex.StoredOnce | backend/patchquest/memory/repo_indexer.py:104-116 | no stored symbol repeats a key, and every parsed symbol is stored or has its key taken |
| RepoIndex.PassFromNothing | backend/patchquest/memory/repo_indexer.py:71-128 | a pass over an empty index leaves the full index |
| RepoIndex.FileExact | backend/patchquest/memory/repo_indexer.py:86-109 | for one file: the pass leaves what a fresh indexing would if and only if stat and hash were honest about it |
| RepoIndex.PassExactIff | backend/patchquest/memory/repo_indexer.py:71-121 | a pass over an exact index is exact if and only if no shared file kept a trusted size and time while its hash moved, or its hash while its symbols moved |
| RepoIndex.HistoryExactIff | backend/patchquest/memory/repo_indexer.py:71-121 | over any history of disk changes and passes, every pass is exact if and only if every two consecutive passes saw honest files |
| RepoIndex.RefinesFullIndex | backend/patchquest/memory/repo_indexer.py:71-121 | with readable files, no two contents of one path in the history sharing a hash, and equal size and time meaning equal content, the tables after any history equal those of a pass from nothing |
| RepoIndex.SilentEditGoesStale | backend/patchquest/memory/repo_indexer.py:87-89 | a file whose hash moved behind an old, unmoved stat is left stale |
| RepoIndex.WarmPass | backend/patchquest/memory/repo_indexer.py:86-102 | a second pass over the same files reparses nothing and changes nothing |
| RepoIndex.TalliesCover | backend/patchquest/memory/repo_indexer.py:124-128 | new + changed + unchanged + touched equals the files seen |
| RepoIndex.Tables.Reparse | backend/patchquest/memory/repo_indexer.py:104-116 | replaces one file's symbols by the deduplicated parse and touches no other |
| RepoIndex.Tables.Visit | backend/patchquest/memory/repo_indexer.py:86-116 | one file gets the outcome, row and symbols the rules give it |
| RepoIndex.Tables.Forget | backend/patchquest/memory/repo_indexer.py:118-121 | removes exactly the rows and symbols of the unseen files |
| RepoIndex.Tables.IndexRepo | backend/patchquest/memory/repo_indexer.py:54-128 | the tables become the pass's result and every counter is the number of files with that outcome |
| Sorting.SortedSorts | backend/patchquest/domain/policy.py:190-190 | the sort by scope yields an ascending permutation |
| Sorting.SortedIsStable | backend/patchquest/domain/policy.py:190-190 | among elements of one key the first of the list stays first |
| PolicyEngine.Tighten | backend/patchquest/domain/policy.py:198-200 | merging constraints takes the pointwise minimum |
| PolicyEngine.Fold | backend/patchquest/domain/policy.py:188-203 | the loop keeps the first strictest answer and the least constraints of what it saw |
| PolicyEngine.Evaluate | backend/patchquest/domain/policy.py:186-210 | the decision meets the order-free specification: maximum strictness, widest scope at it, least constraints; name, code and reason come from the first deciding policy in the given order |
| PolicyEngine.DecidesIsUnique | backend/patchquest/domain/policy.py:186-210 | the order-free specification fixes result, scope and constraints |
| PolicyEngine.OrderDoesNotMatter | backend/patchquest/domain/policy.py:186-210 | permuting the policies changes neither result, scope nor constraints |
| PolicyEngine.AddingNeverLoosens | backend/patchquest/domain/policy.py:186-210 | adding policies never makes the result laxer, the scope narrower or a constraint larger |
| PolicyEngine.MalformedDenies | backend/patchquest/domain/policy.py:129-132 | a malformed policy denies every action whatever the others say |
| PolicyEngine.FloorHolds | backend/patchquest/domain/policy.py:120-127 | whatever the stored policies, an action with a guarded effect is denied or needs approval |
| PolicyEngine.Strictest | backend/patchquest/domain/policy.py:213-215 | the most restrictive decision, the first on a tie, none for an empty list |
| PolicyEngine.EffectiveLimits | backend/patchquest/domain/policy.py:218-225 | each setting gets the least ceiling any policy sets, from a policy of the widest scope that sets it |
| PolicyEngine.CeilingsOnlyLower | backend/patchquest/domain/policy.py:218-225 | ceilings do not depend on the order of the policies, and further policies only lower them |
| Calendar.WindowMembers | backend/patchquest/calendar/providers/local_calendar.py:18-27 | the provider's window holds exactly the events that end at or after its start and begin by its end |
| Calendar.CheckConflicts | backend/patchquest/calendar/calendar_service.py:51-57 | exactly the overlapping events of the whole calendar, in order |
| Calendar.FindSlot | backend/patchquest/calendar/calendar_service.py:60-86 | for any blocks and duration: the least conflict-free start, returned if and only if it ends by the horizon or some block starts after it |
| Calendar.EarliestIsUnique | backend/patchquest/calendar/calendar_service.py:60-86 | there is one least conflict-free start |
| Calendar.WindowSuffices | backend/patchquest/calendar/calendar_service.py:60-86 | inside the search window, conflicts with the window's blocks are conflicts with the calendar |
| Calendar.FindNextAvailable | backend/patchquest/calendar/calendar_service.py:60-86 | the least start at or after the given time that ends by the horizon and conflicts with nothing; None if and only if there is none |
| Calendar.PastTheHorizon | backend/patchquest/calendar/calendar_service.py:80-86 | without the provider's window a later block makes the search answer past the horizon |
| Sql.ScanLiteral | backend/patchquest/dbpg.py:46-55 | a literal runs from its quote to its closing quote or the end, doubled quotes inside |
| Sql.SplitLiterals | backend/patchquest/dbpg.py:35-61 | the segments concatenate back to the input, literal and plain segments strictly alternate, every literal but the last is closed |
| Sql.LiteralIsInside | backend/patchquest/dbpg.py:35-61 | a character is in a literal segment if and only if it is a quote or has an odd number of quotes before it |
| Sql.RewritingKeepsMeaning | backend/patchquest/dbpg.py:83-90 | read by the driver's rule, the rewritten segments are the statement with exactly its question marks outside literals as parameters |
| Sql.Translate | backend/patchquest/dbpg.py:83-94 | the same of the joined result, for every statement |
| Salvage.NestedIff | backend/patchquest/agents/roles.py:365-379 | the bracket grammar and the strict stack accept the same words |
| Salvage.MissingClosers | backend/patchquest/agents/roles.py:365-383 | the stack, reversed, completes the word if and only if anything could; no other run of closers does |
| Salvage.CutIsOutside | backend/patchquest/agents/roles.py:382-382 | trimming trailing blanks and commas never cuts inside a string and loses no bracket |
| Salvage.RepairNests | backend/patchquest/agents/roles.py:365-384 | outside a string, the candidate plus reversed stack is fully nested if and only if the brackets are a properly nested prefix |
| Salvage.Scan | backend/patchquest/agents/roles.py:365-379 | the loop computes the stack of the brackets outside strings, and whether the text ends in one |
| Salvage.SalvageTruncated | backend/patchquest/agents/roles.py:352-387 | a result exactly when there is a brace, the cut is outside strings, something is open, and the parser reads the repaired text as an object |
| Budget.Shrink | backend/patchquest/agents/budget.py:50-56 | the exact length of a shrunk body |
| Budget.ShrinkKeepsEnds | backend/patchquest/agents/budget.py:50-56 | a shrunk body is its own head, the marker and its own tail, about two to one |
| Budget.WovenIdentity | backend/patchquest/agents/budget.py:70-77 | weaving the bodies back unchanged gives the text |
| Budget.WovenLength | backend/patchquest/agents/budget.py:67-77 | the woven text's length is the fixed text plus what each body keeps |
| Budget.SharesFit | backend/patchquest/agents/budget.py:71-72 | floor shares never add up to more than the room they divide |
| Budget.FitText | backend/patchquest/agents/budget.py:59-78 | never longer; untouched within budget; text outside bodies verbatim; exact length, at most budget plus 240 per block, within budget if and only if what the bodies keep fits; the fallback's exact length |
| Budget.WithinBudget | backend/patchquest/agents/budget.py:67-77 | the bodies fit the room when no share is below the minimum |
| Budget.MinimumOvershoots | backend/patchquest/agents/budget.py:67-77 | two blocks whose minimum overshoots the room |
| SignTest.Symmetry | backend/patchquest/evaluation/experiments.py:41-48 | binomials are symmetric |
| SignTest.RowSum | backend/patchquest/evaluation/experiments.py:41-48 | a row of binomials sums to a power of two |
| SignTest.TwoSided | backend/patchquest/evaluation/experiments.py:41-48 | twice the tail, capped, counts exactly the outcomes at least as far from an even split |
| SignTest.SignTestNumerator | backend/patchquest/evaluation/experiments.py:41-48 | the p-value's numerator over 2**n is that count; none without pairs |
| SignTest.PValueCountsOutcomes | backend/patchquest/evaluation/experiments.py:41-48 | that count is the size of the set of win/loss sequences at least as extreme |

## Left out

- Connector HTTP clients, model providers, the command line, API routes, frontend, demo and diagnostics: I/O.
- SQL engines, connection pools, triggers, migrations and row locking (`SKIP LOCKED`): a transaction is one atomic step.
- Hashing, HMAC signatures, JSON decoding, pattern matching of policies and file walking: parameters of the members that
  need them, with the assumption stated in the contract. The workflow template pattern is modelled by a matcher.
- Wall-clock formats and floating point: times are integers, ratios integers or reals. Rounding of the p-value and the
  index's hit rate, elapsed time and total symbol count are not modelled.
- Problem and defect messages, and the order of problems where the source walks a set; codes and nodes are kept.
- What agent steps do, trigger matching and event filters of the workflow engine; their effect on the rows is modelled.
- Several engine processes advancing one workflow run at once: the engine's lock is per process, and so is the model.
- `parse_policy`, role tables, preference lookup, metrics and configuration schemas: each is settled by one branch.
- The reset of scheduled tasks during recovery.
- Keyword rewrites of the SQL translation (`AUTOINCREMENT`, `REAL`, `datetime`, `INSERT OR IGNORE`) and statement trimming.
- Templates.LookupCursor: list indices are ASCII digits; other Unicode digits are not modelled.
- Stream.NoGaps: does not claim that a run's terminal event is delivered, because the status checks may end the stream before it.
- Connector.Account.Perform: one call at a time; overlapping calls are covered by the step machine beside it.
- Connector.OneObjectIff: assumes that the provider's lookup sees earlier objects, which the connectors must ensure.
- Engine.BegunOnceAndOnRetry: counts starts of an action; how often the retry helper calls it within one start is not modelled.
- Engine.KeysDiffer: for node ids without a colon, which is what the definition parser admits.
- PolicyEngine.FloorHolds and PolicyEngine.MalformedDenies assume that the pattern `*` matches the action.
- Calendar.FindNextAvailable: for the local calendar provider; text order is taken to be time order.
- Budget.FitText: takes the block bodies as the pattern search yields them, and integer floor shares.
