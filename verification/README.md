# Verified model of the codex2lark V3 runtime

This project models the parts of the codex2lark runtime whose correctness spans
several operations, and proves what they promise over every input, every step and
every run. A database transaction is one method; a table is a field; a crash loses
local values and keeps fields. Code without state is written as functions. Tools,
models, publishers, clocks and other workers are arbitrary values or arbitrary
interleaved steps.

Check everything with `dafny verify dfyconfig.toml`.

| part | files | what is proved |
|---|---|---|
| Agent graphs | `AgentGraph`, `AgentMoves`, `AgentStore`, `AgentTheorems` | every transaction keeps exact budget sums, dependency safety, no lost wake-up and the concurrency limit; exact outcomes of failing, completing, cancelling and leasing; consequences for whole trees |
| Task queue | `TaskRules`, `TaskStarvation`, `TaskStore`, `TaskWorker`, `SqlLike` | four nested caps and one lease per session, bounded bypass between lanes over any history and where it ends, attempt accounting with refunds |
| Outbox | `OutboxRules`, `OutboxStore`, `OutboxDispatcher` | messages of a task go out in order, each at most eight times, under any interleaving of workers and late publications |
| Capacity gate | `CapacityLine`, `CapacityGate` | permit conservation, no idle permit while somebody waits, bounded waiting |
| Harness run | `HarnessRules`, `Harness` | controls are delivered exactly once across crashes, the loop ends within a stated number of turns |
| External writes | `OperationJournal` | at most one uncleared execution over any interleaving of attempts |
| Key rotation | `EnvelopeCipher`, `KeyRotation` | every plaintext stays readable at every crash point, reruns finish the job |
| Document compiler | `Markup`, `MarkupPrinter`, `MarkupTheorems`, `MarkupTexts`, `MarkupTrees`, `RichText`, `RichTextMeaning`, `DocumentCompiler`, `DocumentTexts`, `DocumentPublisher`, `DocumentReader`, `DocumentRoundTrip` | reading the compiled text gives back the author's document, block by block and styled character by styled character, exactly when nothing the author wrote is rewritten by XML; compilation fails exactly on characters XML excludes |
| Message mirror | `MessageMirror`, `SqlLike` | any order and repetition of edits and recalls converges; which rows and checkpoints an edit, a recall or a revocation reaches |

## Findings

Statements that turned out not to hold as they are documented or might be expected.
Each bullet names the failing case and the condition, for all inputs, under which
the statement holds.

- `docs/group-agent-runtime.md:524-528` says that no lane takes a second turn while a less
  recently served lane waits. `NoSecondTurn` proves that for lanes; but a task without a group
  has no group lane and counts as never served. Fails: `GroupStarves` gives, for every n, a history
  in which a group's waiting task could be leased in n turns in a row and all n go to tasks without
  a group. Condition: of two sessions of one application, the one already served goes first again
  if and only if the other's group was served later than its own, where no group counts as 0
  (`OvertakesExactly`, `ChosenExactly`). Where all of an application's tasks have groups, or none
  has, the documented rule holds (`OneKindIsFair`).
- A control is delivered exactly once unless the checkpoint that covers it is dropped after it was
  acknowledged. Fails: `LoseSteering` is a run that completes without an acknowledged message.
  Condition: a completed run lacks a control if and only if it was acknowledged when the last
  process started and is not in the checkpoint that process loaded (`RootRun.Run`, `Lost`). Editing
  or recalling a source message drops checkpoints
  (`src/codex2lark/capabilities/im/repository.py:72-85`).
- The tool may run again after an operation was completed. Fails: `LateAttemptRunsAfterCompletion`.
  Condition: it can run again if and only if some attempt is still cleared, or still reconciling, at
  that moment (`RunsAgainExactly`). If attempts respected their claims' expiry so far, only those
  whose claim has run out matter (`OnlyLateAttemptsRunAgain`), and as long as they go on respecting
  it the tool never runs again (`NoRunAfterCompletion`).
- The rotation marker, and the verification that ends a rotation, name keys and do not identify
  their bytes. Fails and condition: `RerunUnderSameName` reports success and removes the marker, and
  afterwards everything opens under the new target if and only if its bytes are those of the first
  target, or nothing had been moved (`RerunNeedsTheSameBytes` is the case of one envelope).
- Creation times alone do not keep the outbox in order. Fails: `SameMillisecondBreaksOrder`, a
  progress note created in the same millisecond as a result already leased. Condition:
  `InsertKeepsOrder`.
- Carriage returns in document text, and tabs or line ends in links and other attributes, do not
  survive XML's normalisation. Fails: `LostInRichText`, `LostInTitle` with
  `ReturnInTitleIsLegal`, a document that compiles. Condition, on the texts,
  links and other values the author wrote: `RichTextReadsBack`, `DocumentReadsBack`,
  `DocumentRoundTrips`.
- `docs/group-agent-runtime.md:462-466` asks that a recall and the loss of access remove the source
  row and context checkpoints. A recall keeps the row as a tombstone and the message's body in it
  (`src/codex2lark/capabilities/im/repository.py:277-286`). Fails: `RecalledBodyStays`. Condition:
  a recall no older than anything delivered leaves a body behind if and only if the row stored before
  it has one (`BodyOutlivesRecallExactly`).
  A recall that arrives as an upsert with the version already stored does not remove checkpoints.
  Fails: `SameVersionRecallLeavesCheckpoint`. Condition: `StaleCheckpointSurvives`. Revoking a chat
  leaves checkpoints that cite only attachments of the removed messages. Fails:
  `AttachmentCheckpointSurvivesRevocation`. Condition: `AttachmentsOnlySurvive`.
- Deliveries of one message may leave different contents visible. Fails:
  `ConflictingContentsDiverge`. Condition: order and repetition do not matter if and only if the
  highest version has a tombstone, or one live content (`ConvergesExactly`).
- A recall can be undone. Fails: `RevocationForgetsRecall`, where revoking a chat and restoring
  access brings an older live version back. Condition: nothing of the message is visible if and only
  if, among the deliveries accepted since the last revocation, every live one has a tombstone of at
  least its version (`RecallHoldsWhileCounted`).
- Revoking a chat cancels pending tasks by an SQL pattern into which the tenant, app and chat ids
  are put as they are; an underscore in it stands for any character, a percent sign for any text, and
  letter case does not count. Fails: `RevocationFitsAnotherChat`, one instance of each kind.
  Condition: among chats whose ids hold no slash, only tasks of the revoked chat are cancelled if and
  only if its three ids hold no letter, underscore or percent sign (`OnlyItsChatExactly`); ids with
  slashes are never safe (`SlashReachesAnother`). For any text in place of the prefix, the pattern
  fits only what starts with it under the same condition on its characters (`OnlyItselfExactly`), and
  for one without a percent sign `FitsAnotherExactly` says which other texts it fits.
- Editing or recalling a message removes checkpoints by the same kind of pattern over attachment
  references, so checkpoints of other messages may go with it. Fails: `EditRemovesAnothersCheckpoint`.
  Condition: among message ids without a colon, only references to the message itself are matched if
  and only if its id holds no letter, underscore or percent sign (`OnlyOwnSourcesExactly`). Its own
  are always matched (`NothingDerivedStays`).
- The exhaustion markers are ordinary error texts. Fails: `RetryWithMarkerText`, a retry that marks a
  task with two attempts left. Condition: `MarkersAreOrdinaryTexts`; `RetryTask` and `DeferTask` keep
  "a marker means that all attempts are used" for all other texts.

## Model

| member | source | states |
|---|---|---|
| AgentStore.Store.CreateGraph | src/codex2lark/storage/agent_store.py:37-119 | Refused exactly when the graph name is taken or the run already has a graph; otherwise the new root is ready at depth 1, with no dependencies and nothing reserved; all invariants hold afterwards, and a run keeps having one graph at most. |
| AgentStore.Store.SpawnChild | src/codex2lark/storage/agent_store.py:169-251 | Refused exactly when one of the eight checks fails, with the first reason in the store's own order and without effect; otherwise exactly one child row is added, the parent's budget is put aside and an idle parent waits; all invariants are kept. |
| AgentStore.Store.ReserveBudget | src/codex2lark/storage/agent_store.py:1111-1131 | Succeeds exactly when every kind fits, and then reserves every kind; a failure keeps nothing. |
| AgentStore.Store.ReleaseParentBudget | src/codex2lark/storage/agent_store.py:1133-1150 | The parent's accounts after a child gives its budgets back, clipped at zero. |
| AgentStore.Store.EndNode | src/codex2lark/storage/agent_store.py:1133-1150 | Where the sums are exact they stay exact, and the clip never bites: the reserve drops by precisely the child's budget, so a child is released once. |
| AgentStore.Store.WakeParent | src/codex2lark/storage/agent_store.py:1152-1174 | Exactly a waiting parent without open children becomes ready. |
| AgentStore.Store.BlockDependents | src/codex2lark/storage/agent_store.py:1176-1198 | Exactly the open direct dependents are blocked; nothing is reopened, and whoever waited for them is woken. |
| AgentStore.Store.ActivateNode | src/codex2lark/storage/agent_store.py:253-272 | Succeeds exactly for created or ready nodes, and leaves them ready. |
| AgentStore.Store.InterruptNode | src/codex2lark/storage/agent_store.py:390-407 | Succeeds exactly for ready, running or waiting nodes, which lose their lease. |
| AgentStore.Store.FinishGraph | src/codex2lark/storage/agent_store.py:1028-1049 | Only the root of an active graph can finish it, and only once. |
| AgentStore.Store.FailNode | src/codex2lark/storage/agent_store.py:362-388 | Only the lease owner can fail a node; then that node is failed, its open dependents are blocked, waiting nodes left without open children are ready, and every other row is untouched. |
| AgentStore.Store.CompleteNode | src/codex2lark/storage/agent_store.py:409-479 | Only the lease owner can complete a node; then only that node and a parent it was the last open child of change. |
| AgentStore.Store.Descendants | src/codex2lark/storage/agent_store.py:483-500 | The list is exactly the set reachable through parents, without repetition and starting with the root. |
| AgentStore.Store.CancelSubtree | src/codex2lark/storage/agent_store.py:481-543 | Everything at or below the node is terminal; outside, a row is blocked exactly when it depends directly on a row cancelled now and ready exactly when it waits for nobody; budgets are released and the graph of a cancelled root is cancelled. |
| AgentStore.Store.LeaseReady | src/codex2lark/storage/agent_store.py:274-360 | After expired leases of the graph are returned, exactly the best eligible rows are leased, within the concurrency limit; a shorter batch means that none is left. |
| AgentStore.PickReady | src/codex2lark/storage/agent_store.py:317-343 | The chosen rows are eligible, sorted by depth, age and name, and no eligible row left out is ahead of one chosen. |
| AgentStore.AfterChild | src/codex2lark/storage/agent_store.py:192-251 | Adding a child that is not refused keeps every invariant of the store. |
| AgentStore.AfterLease | src/codex2lark/storage/agent_store.py:300-358 | Leasing an eligible row below the concurrency limit keeps every invariant. |
| AgentStore.SubtreeSettled | src/codex2lark/storage/agent_store.py:501-543 | The step-by-step cancellation ends in the declared outcome inside and outside the subtree. |
| AgentMoves.BalancedAfterEnd | src/codex2lark/storage/agent_store.py:1133-1150 | Ending an open row and releasing its budget keeps `reserved` equal to the sum over open children, and the ceilings. |
| AgentMoves.WakeupsAfterEnd | src/codex2lark/storage/agent_store.py:1152-1174 | Ending a row can rob only its own parent of its last open child. |
| AgentMoves.WakeupsAfterWake | src/codex2lark/storage/agent_store.py:1152-1174 | The wake-up after it restores that every waiting node has an open child. |
| AgentMoves.DepsAfterEnd | src/codex2lark/storage/agent_store.py:362-388 | No ending invalidates that running, completed and failed nodes have completed predecessors. |
| AgentMoves.SettledExactly | src/codex2lark/storage/agent_store.py:1152-1198 | A transaction that only ends and wakes has exactly the outcome determined by the nodes it ends. |
| AgentGraph.SumAfterUpdate | src/codex2lark/storage/agent_store.py:1111-1150 | The sum of open children's budgets changes by exactly one child's share. |
| AgentGraph.ClosedSetHoldsDescendants | src/codex2lark/storage/agent_store.py:483-500 | A set closed under children that holds a node holds everything below it. |
| AgentTheorems.NoBudgetFromNothing | src/codex2lark/storage/agent_store.py:1111-1150 | At every depth below a node, the open nodes reached through open nodes hold together no more than that node was given. |
| AgentTheorems.StartedAfterAllPredecessors | src/codex2lark/storage/agent_store.py:304-333 | Dependencies are acyclic, and all direct and indirect predecessors of a running, completed or failed node are completed. |
| AgentTheorems.WaitingHasWork | src/codex2lark/storage/agent_store.py:1152-1174 | Below every waiting node there is an open node that does not wait. |
| TaskStore.Scheduler.Admit | src/codex2lark/storage/runtime_store.py:52-143 | An event is admitted once; a repeated one changes nothing and names the same task. |
| TaskStore.Scheduler.LeaseTasks | src/codex2lark/storage/runtime_store.py:501-558 | After expired leases return, the batch is leased one turn after the other within all caps; it stops short of limit and global cap only when nothing admissible is left; each lease costs one attempt unless the task is only recovered. |
| TaskStore.Scheduler.ReclaimExpired | src/codex2lark/storage/runtime_store.py:513-533 | Exactly the expired leases return to the queue, marked when their attempts are used up. |
| TaskStore.SelectNext | src/codex2lark/storage/runtime_store.py:1010-1097 | The selected task is admissible and no admissible task sorts before it; none is returned only when there is none. |
| TaskStore.Scheduler.LeaseOne | src/codex2lark/storage/runtime_store.py:1101-1166 | One turn leases the selected task, stamps its lanes with a new sequence number and keeps caps, accounts and the record of turns. |
| TaskStore.CapsAfterLease | src/codex2lark/storage/runtime_store.py:1010-1097 | An admissible task can be leased without exceeding the global, tenant, application or group cap or a second lease in its session. |
| TaskStore.Scheduler.FinishTask | src/codex2lark/storage/runtime_store.py:560-598 | Only the owner can finish a task, and only its row changes. |
| TaskStore.Scheduler.RetryTask | src/codex2lark/storage/runtime_store.py:600-627 | Only the owner can put a task back; it is marked exactly when its attempts are used up. |
| TaskStore.Scheduler.DeferTask | src/codex2lark/storage/runtime_store.py:629-656 | Only the owner can defer, with a reason; the attempt is refunded. |
| TaskStore.MarkersAreOrdinaryTexts | src/codex2lark/storage/runtime_store.py:600-656 | After a retry or deferral a marker still means that all attempts are used, if and only if the given text is no marker or the attempts are used up. |
| TaskStore.RetryWithMarkerText | src/codex2lark/storage/runtime_store.py:600-627 | A retry with a marker as its text marks a task that has attempts left. |
| TaskStore.Scheduler.CancelChat | src/codex2lark/capabilities/im/repository.py:377-384 | Exactly the pending tasks whose session fits the SQL pattern, other than the revocation itself, are cancelled. |
| SqlLike.OnlyItselfExactly | src/codex2lark/capabilities/im/repository.py:377-384 | For every prefix: the pattern fits only texts that start with it if and only if it holds no letter, underscore or percent sign. |
| SqlLike.OnlyItsChatExactly | src/codex2lark/capabilities/im/repository.py:377-384 | Among chats whose ids hold no slash, the pattern reaches sessions of the revoked chat only, if and only if the same holds of its tenant, app and chat id. |
| SqlLike.SlashReachesAnother | src/codex2lark/capabilities/im/models.py:67-82 | With slashes in ids, every chat's pattern reaches the session of another chat. |
| SqlLike.RevocationFitsAnotherChat | src/codex2lark/capabilities/im/repository.py:377-384 | The pattern of one chat fits a session of another: under an underscore, in the other letter case, and where a percent sign swallows two characters. |
| SqlLike.LikePrefix | src/codex2lark/capabilities/im/repository.py:377-384 | For prefixes without a percent sign: the pattern fits exactly the sessions that agree with the prefix up to letter case and underscores. |
| SqlLike.FitsAnotherExactly | src/codex2lark/capabilities/im/repository.py:377-384 | For prefixes without a percent sign: it fits a session that does not start with the prefix if and only if that differs from it only in letter case or under an underscore. |
| SqlLike.OwnEntriesExactly | src/codex2lark/capabilities/im/repository.py:72-85 | An id between a fixed beginning and a separator: the pattern fits entries of that id only, if and only if the id holds no letter, underscore or percent sign. |
| TaskStore.SoundAfterLease | src/codex2lark/storage/runtime_store.py:1101-1124 | Leasing keeps attempts within the limit and executions within charged leases. |
| TaskStore.BatchGrows | src/codex2lark/storage/runtime_store.py:1010-1097 | One more turn extends the account of the whole batch: rows, tallies and recorded selections. |
| TaskRules.StampBetween | src/codex2lark/storage/runtime_store.py:1126-1166 | Lane stamps never exceed the next sequence number, only grow, and change only when the lane is served. |
| TaskRules.NoSecondTurn | docs/group-agent-runtime.md:524-528 | At each of the four levels: between two turns of one lane, every sibling lane that could have been served at the second was served. |
| TaskRules.WaitsOneRound | docs/group-agent-runtime.md:524-528 | A tenant admissible in every turn and never chosen lets every other tenant go first at most once. |
| TaskRules.AppWaitsOneRound | docs/group-agent-runtime.md:524-528 | The same between the applications of one tenant. |
| TaskRules.GrouplessGoFirst | src/codex2lark/storage/runtime_store.py:1010-1097 | In any one turn: while a task without a group is admissible, no task of an already served group of its application is chosen. |
| TaskStarvation.GroupStarves | docs/group-agent-runtime.md:524-528 | For every n there is a history in which a group is served once and then, while its next task is admissible, n turns in a row go to tasks of the same application without a group. |
| TaskStarvation.OvertakesExactly | src/codex2lark/storage/runtime_store.py:1010-1097 | Of two sessions of one application, one served since the other, the served one sorts first if and only if the other's group was served later, no group counting as 0; otherwise the other sorts first. |
| TaskStarvation.ChosenExactly | docs/group-agent-runtime.md:524-528 | Of the two, the one already served is chosen again under exactly that condition. |
| TaskStarvation.SecondTurnNeedsLaterGroup | docs/group-agent-runtime.md:524-528 | Whoever takes a second turn over a waiting session of its application has a group served earlier than the other's. |
| TaskStarvation.OneKindIsFair | docs/group-agent-runtime.md:524-528 | Where all tasks of an application have groups, or none has, no group or session takes a second turn before a waiting one was served. |
| TaskWorker.Worker.Execute | src/codex2lark/runtime/tasks.py:135-191 | Every path ends in exactly one transition of the leased task, or in none if the lease was lost; a recovered task is failed without being run. |
| TaskWorker.Worker.RunOnce | src/codex2lark/runtime/tasks.py:121-133 | Nothing of the leased batch stays leased, no lease is lost, and leases of others are untouched. |
| TaskWorker.ExecutionsAreBounded | src/codex2lark/runtime/tasks.py:135-191 | Over any run, executions minus deferrals never exceed the allowed attempts, and a pending task can run or is marked exhausted. |
| OutboxStore.Outbox.Insert | src/codex2lark/storage/runtime_store.py:891-922 | A repeated idempotency key is dropped in silence; otherwise delivery order survives exactly when nothing that sorts after the new message was leased. |
| OutboxRules.InsertKeepsOrder | src/codex2lark/storage/runtime_store.py:658-725 | The same condition, if and only if, for any rows and any publication history. |
| OutboxRules.SameMillisecondBreaksOrder | src/codex2lark/storage/runtime_store.py:693-726 | A progress note created in the millisecond of a leased result breaks the order. |
| OutboxStore.Outbox.LeaseMessages | src/codex2lark/storage/runtime_store.py:658-760 | Expired leases return or fail; then exactly the first eligible messages, none of which has an unsent earlier one of its task, are leased. |
| OutboxStore.SelectBatch | src/codex2lark/storage/runtime_store.py:693-726 | The batch is sorted and contains the first eligible messages; a shorter one contains all. |
| OutboxStore.Outbox.ReclaimExpired | src/codex2lark/storage/runtime_store.py:670-692 | Exactly the expired leases move, to pending while attempts remain and to failed otherwise. |
| OutboxStore.Outbox.MarkSent | src/codex2lark/storage/runtime_store.py:762-783 | Only the lease owner can mark a message sent. |
| OutboxStore.Outbox.Retry | src/codex2lark/storage/runtime_store.py:785-811 | Only the lease owner can put a message back; it fails for good exactly when its attempts are used up. |
| OutboxStore.LeasingIsSafe | src/codex2lark/storage/runtime_store.py:693-745 | Leasing unblocked messages keeps row soundness, the publication accounts and the delivery order. |
| OutboxRules.PublishingKeepsOrder | src/codex2lark/runtime/outbox.py:62-94 | A publication, however late, follows publications of all strictly earlier messages of its task. |
| OutboxRules.OnlyRepeatsGoBack | src/codex2lark/runtime/outbox.py:62-94 | A publication that goes back behind another one of its task only repeats a message. |
| OutboxRules.PublishedAtMostEightTimes | src/codex2lark/storage/runtime_store.py:891-922 | No message is published more than eight times. |
| OutboxDispatcher.Dispatcher.RunOnce | src/codex2lark/runtime/outbox.py:62-94 | Sent and put-back messages are together exactly the leased ones, unless a rival took a lease over; what is reported sent is sent for good; without rivals no round stops early. |
| OutboxDispatcher.Dispatcher.Deliver | src/codex2lark/runtime/outbox.py:73-93 | One message is published at most once and recorded according to the answer, or not at all when its lease was lost meanwhile. |
| CapacityGate.FairCapacityGate.Dispatch | src/codex2lark/runtime/capacity.py:116-129 | Grants go in ring order until permits or waiters run out; in use stays equal to permits held and within the limit; no waiter is lost, and none taken from a queue was granted before. |
| CapacityGate.FairCapacityGate.Acquire | src/codex2lark/runtime/capacity.py:66-81 | A free permit is granted at once, otherwise the caller joins its lane; a different limit is refused without effect. |
| CapacityGate.FairCapacityGate.Release | src/codex2lark/runtime/capacity.py:108-114 | A returned permit goes to exactly the first waiter in turn. |
| CapacityGate.FairCapacityGate.CancelWaiter | src/codex2lark/runtime/capacity.py:88-106 | A cancelled waiter hands on the permit it already got, or leaves its queue without disturbing anybody. |
| CapacityGate.HandingOnIsOneGrant | src/codex2lark/runtime/capacity.py:108-129 | A permit handed on is one grant of the waiting line, unless nobody waits. |
| CapacityGate.EntryIsLineRun | src/codex2lark/runtime/capacity.py:66-81 | Acquiring a permit is a run of the waiting line, with one grant per permit given out. |
| CapacityGate.HandingOnIsLineRun | src/codex2lark/runtime/capacity.py:108-129 | So is returning one. |
| CapacityGate.LeavingIsLineRun | src/codex2lark/runtime/capacity.py:100-106 | So is giving up while waiting. |
| CapacityGate.AloneIsServedAtOnce | src/codex2lark/runtime/capacity.py:66-81 | With a permit free on arrival, the newcomer and nobody else is served. |
| CapacityLine.JoinedIsWellFormed | src/codex2lark/runtime/capacity.py:70-81 | Joining keeps the ring a repetition-free list of exactly the lanes with waiters. |
| CapacityLine.ServedIsWellFormed | src/codex2lark/runtime/capacity.py:116-129 | Serving keeps it so, and a served waiter waits no more. |
| CapacityLine.LeftIsWellFormed | src/codex2lark/runtime/capacity.py:88-106 | Leaving keeps it so, and removes only the one who leaves. |
| CapacityLine.WaitIsBounded | src/codex2lark/runtime/capacity.py:116-129 | With q before it in its lane and p lanes before its own, a waiter sees at most q*N+p grants to others, whatever arrives or leaves in up to N lanes. |
| CapacityLine.ServedInTime | src/codex2lark/runtime/capacity.py:116-129 | It is granted by grant number q*N+p+1. |
| Harness.RootRun.Begin | src/codex2lark/runtime/harness.py:131-212 | A run starts once, or resumes in step with the tables; the controls it starts without are exactly those acknowledged before that are not in the checkpoint it loaded. |
| Harness.RootRun.ApplyControls | src/codex2lark/runtime/harness.py:474-506 | Every pending control is taken in, none twice, and a control nobody had seen lowers the loop's measure. |
| Harness.RootRun.SaveCheckpoint | src/codex2lark/storage/session_store.py:103-148 | A checkpoint keeps each instruction as often as the journal has it, with private observations blanked. |
| Harness.RootRun.Acknowledge | src/codex2lark/storage/runtime_store.py:481-499 | Only controls covered by the saved checkpoint are acknowledged, so a crash loses none. |
| Harness.RootRun.TryFinish | src/codex2lark/storage/session_store.py:213-291 | A run completes only when no control is pending; any other ending leaves none pending. |
| Harness.RootRun.Conclude | src/codex2lark/runtime/harness.py:570-602 | Completion needs verified writes where required and nothing unresolved; a refusal means that an unseen control is pending. |
| Harness.RootRun.RunTools | src/codex2lark/runtime/harness.py:335-408 | Calls are charged to the budget before any runs, and an unverified write leaves the run unresolved. |
| Harness.RootRun.Turn | src/codex2lark/runtime/harness.py:214-445 | A turn ends the run properly, dies with consistent tables, or uses up some of the measure. |
| Harness.RootRun.Run | src/codex2lark/runtime/harness.py:131-472 | One process takes at most L + 2C + 1 turns for L tool calls and C controls; if it completes, none is pending and every control is in the journal exactly once, except precisely those acknowledged when the process started that are not in the checkpoint it loaded. |
| Harness.RootRun.Lifetime | src/codex2lark/runtime/harness.py:131-472 | The same over any number of crashes and restarts; with no checkpoint dropped, every control is in the journal exactly once. |
| Harness.ResumedInStep | src/codex2lark/runtime/harness.py:154-189 | Memory rebuilt from a checkpoint agrees with the tables after its controls are acknowledged again. |
| Harness.DroppedCheckpointLosesSteering | src/codex2lark/runtime/harness.py:154-189 | The state such a run passes through: an acknowledged message whose checkpoint is gone is in no journal, and the tables do not show it. |
| Harness.LoseSteering | src/codex2lark/runtime/harness.py:131-472 | A run from its creation to completion: a message taken in, saved and acknowledged, the process dead, the checkpoint deleted, the run resumed and completed with no copy of the message in its journal. |
| HarnessRules.PersistedKeepsInstructions | src/codex2lark/runtime/harness.py:628-646 | Blanking private observations changes no instruction. |
| OperationJournal.Journal.ClaimIdempotency | src/codex2lark/storage/runtime_store.py:813-856 | Who gets a claim and what the row is afterwards, for every state of the row and every clock. |
| OperationJournal.Journal.CompleteIdempotency | src/codex2lark/storage/runtime_store.py:858-879 | Only the owner of an unfinished claim can complete it. |
| OperationJournal.Journal.ExecuteWrite | src/codex2lark/runtime/tools.py:511-643 | One attempt does exactly what its claim, reconciliation and execution determine; it executes only on a fresh claim or after a reconciliation that declared it safe, never on a completed or running one, and records only the verified result. |
| OperationJournal.AttemptIsSteps | src/codex2lark/runtime/tools.py:511-643 | Every outcome of one attempt is reached by steps of the world in which many attempts run side by side. |
| OperationJournal.BoundedStep | src/codex2lark/runtime/tools.py:566-643 | Each step of any attempt keeps executions within one uncleared run plus the clearances used. |
| OperationJournal.RunsAtMostOnceUncleared | src/codex2lark/runtime/tools.py:511-643 | Over every interleaving of attempts, expiries and crashes the tool runs at most once without a reconciliation that declared it safe. |
| OperationJournal.ResultIsFinal | src/codex2lark/storage/runtime_store.py:830-834 | A recorded result never changes. |
| OperationJournal.RunsAgainExactly | src/codex2lark/runtime/tools.py:511-643 | After completion the tool can run again if and only if some attempt is still cleared or still reconciling. |
| OperationJournal.OnlyLateAttemptsRunAgain | src/codex2lark/runtime/tools.py:511-643 | If attempts so far acted only while their claims were valid, that means an attempt whose claim has run out. |
| OperationJournal.NoRunAfterCompletion | src/codex2lark/runtime/tools.py:511-643 | If attempts act only while their claim is valid, the tool never runs after completion. |
| OperationJournal.LateAttemptRunsAfterCompletion | src/codex2lark/runtime/tools.py:511-643 | Without that, a stalled attempt runs it after completion. |
| EnvelopeCipher.DecryptUndoesEncrypt | src/codex2lark/storage/crypto.py:46-87 | An envelope opens to its plaintext under the same key and place, and fails in the stated way for every other key or place. |
| EnvelopeCipher.RewrapKeepsMeaning | src/codex2lark/storage/crypto.py:89-118 | A rewrapped envelope opens under the target to what it said, no longer under the old key, with the same body; rewrapping again changes nothing. |
| EnvelopeCipher.RerunNeedsTheSameBytes | src/codex2lark/storage/crypto.py:97-99 | One envelope already moved is accepted by a rerun under a key of the same name, and readable for it if and only if the key bytes are the same. |
| KeyRotation.DataDirectory.Rotate | src/codex2lark/storage/key_rotation.py:43-83 | On any directory: every slot is as it was or moved; a run stops at an envelope it cannot open and leaves the marker; a finished run has moved everything, counts what it moved and removes the marker; it is refused at once exactly for equal names or another rotation's marker. |
| KeyRotation.DataDirectory.RotateSafely | src/codex2lark/storage/key_rotation.py:43-83 | With the pair of keys the data is under, every plaintext is readable at every crash point, keys are mixed only under the marker, and no envelope stops the run. |
| KeyRotation.RerunUnderSameName | src/codex2lark/storage/key_rotation.py:59-83 | An interrupted rotation picked up with a target of the same name is not refused and, if it survives, removes the marker; everything opens under that target if and only if the bytes agree or nothing had been moved. |
| KeyRotation.DataDirectory.RotateDatabase | src/codex2lark/storage/key_rotation.py:85-133 | All rows move in one transaction exactly when none is in the way, and otherwise none does; the count is the number not yet moved. |
| KeyRotation.DataDirectory.RotateBlobs | src/codex2lark/storage/key_rotation.py:135-160 | Files move one at a time; death or an unreadable file between two leaves each as it was or moved; it succeeds exactly when no file is in the way. |
| KeyRotation.MoveOne | src/codex2lark/storage/crypto.py:89-118 | One envelope is rewrapped, or left as it is if it is already under the target's name, and refused exactly when it cannot be opened. |
| KeyRotation.RotateUntilDone | src/codex2lark/storage/key_rotation.py:43-83 | Runs with the same pair are never refused, and the first that survives leaves every row and blob opening under the target to its original plaintext. |
| RichTextMeaning.RichTextReadsBack | src/codex2lark/authoring/compiler.py:159-188 | A reader of the compiled text sees every character in its style and under its link, if and only if no text has a carriage return, no link a tab or line end, and neither a character XML excludes. |
| RichTextMeaning.LostInRichText | src/codex2lark/authoring/compiler.py:159-184 | A carriage return in a text and a tab in a link are not read back. |
| RichTextMeaning.PaintedFragment | src/codex2lark/authoring/compiler.py:159-188 | The styled characters of any fragment are those its elements give to its text, whatever surrounds it. |
| RichTextMeaning.SpanLook | src/codex2lark/authoring/compiler.py:159-184 | The nested wrappers of a span add up to exactly the span's style. |
| RichText.SpanPrinted | src/codex2lark/authoring/compiler.py:159-184 | The span's text is the text of its nest of elements. |
| RichText.AttributesPrinted | src/codex2lark/authoring/compiler.py:150-156 | Rendered attributes are those that have a value, in order. |
| MarkupPrinter.PrintReads | src/codex2lark/authoring/compiler.py:150-285 | Every fragment of XML characters reads as itself up to end-of-line and attribute-value normalisation. |
| MarkupPrinter.WordsRead | src/codex2lark/authoring/compiler.py:159-162 | Escaped text reads as the text with normalised line ends. |
| MarkupTheorems.ReadsBack | src/codex2lark/authoring/compiler.py:150-285 | A fragment's text reads back exactly, if and only if nothing in it is excluded or rewritten by XML. |
| MarkupTheorems.TokensNest | src/codex2lark/authoring/compiler.py:203-277 | All tags are balanced and properly nested. |
| MarkupTheorems.PrintLegal | src/codex2lark/authoring/compiler.py:81-112 | The output holds a character XML excludes exactly when the input does. |
| DocumentCompiler.RenderTable | src/codex2lark/authoring/compiler.py:203-219 | The parts appended one by one are the text of the table: optional columns, optional header, rows of cells. |
| DocumentCompiler.CellPrinted | src/codex2lark/authoring/compiler.py:191-200 | A cell's text is one element with its set attributes and its rich text; spans of one are left out. |
| DocumentPublisher.RenderBlock | src/codex2lark/authoring/compiler.py:222-277 | Each of the thirteen kinds of block is written as the element it stands for. |
| DocumentPublisher.BlockUses | src/codex2lark/authoring/compiler.py:23-78 | Valid blocks use supported tags only. |
| DocumentPublisher.PreflightAccepts | src/codex2lark/authoring/compiler.py:81-112 | Printed fragments over supported tags pass the preflight exactly when they hold no excluded character; no other check rejects them, and none looks like a declaration. |
| DocumentTexts.DocumentDecides | src/codex2lark/authoring/compiler.py:222-285 | Of all that is written down, only the author's own texts, links, captions, names and addresses decide whether the document is free of excluded or rewritten characters. |
| DocumentPublisher.CompileDocument | src/codex2lark/authoring/compiler.py:280-285 | Compilation succeeds exactly if all the author's texts and values consist of XML characters, and otherwise reports ill-formed markup. |
| DocumentPublisher.DocumentReadsBack | src/codex2lark/authoring/compiler.py:280-285 | The whole document reads back as its tags, attributes and characters, if and only if none of the author's texts and values is excluded or rewritten. |
| MarkupTrees.TokensGrow | src/codex2lark/authoring/compiler.py:203-277 | The tree a reader builds from a fragment's tokens is the fragment's own nesting, whatever follows it. |
| DocumentReader.LookupPresent | src/codex2lark/authoring/compiler.py:150-156 | What was written under an attribute's name is found under it, and nothing where it was left out. |
| DocumentReader.TableReads | src/codex2lark/authoring/compiler.py:191-219 | A table's cells, colors, alignments, spans and column widths are recovered, with and without columns and header. |
| DocumentReader.BlockReads | src/codex2lark/authoring/compiler.py:222-277 | Each of the thirteen kinds of block is recognised from its element, with all its fields. |
| DocumentReader.SameLettersSameMeaning | src/codex2lark/authoring/compiler.py:159-188 | Two rich texts taken apart into characters are equal if and only if they show the same characters in the same styles. |
| DocumentRoundTrip.DocumentRoundTrips | src/codex2lark/authoring/compiler.py:280-285 | Reading the compiled text gives the author's document back, with its rich text taken apart into characters, if and only if none of the author's texts and values is excluded or rewritten. |
| DocumentRoundTrip.OnlyCleanDocumentsAreRead | src/codex2lark/authoring/compiler.py:280-285 | Whatever the text, a document read from it holds nothing that XML excludes or rewrites. |
| DocumentRoundTrip.TextDeterminesDocument | src/codex2lark/authoring/compiler.py:280-285 | Two such documents with the same text are the same, block by block, but for where equally styled text was cut into spans. |
| DocumentPublisher.LostInTitle | src/codex2lark/authoring/compiler.py:280-285 | No document with a carriage return in its title is read back as written. |
| DocumentPublisher.ReturnInTitleIsLegal | src/codex2lark/authoring/compiler.py:81-112 | Such a document compiles. |
| MessageMirror.Repository.UpsertMessage | src/codex2lark/capabilities/im/repository.py:44-191 | Refused without effect for a revoked chat; otherwise the newer, and among equals the buried, row stays, and derived checkpoints go when the version changes. |
| MessageMirror.Repository.InvalidateMessage | src/codex2lark/capabilities/im/repository.py:207-309 | A recall buries the message unless a newer version is stored, and removes derived checkpoints; a revoked chat keeps nothing readable. |
| MessageMirror.Repository.RevokeChat | src/codex2lark/capabilities/im/repository.py:311-387 | Exactly the chat's messages, and the checkpoints that cite one of them as a message, are removed. |
| MessageMirror.Repository.RestoreChat | src/codex2lark/capabilities/im/repository.py:389-407 | Messages of the chat are accepted again. |
| MessageMirror.StoredIsMaximum | src/codex2lark/capabilities/im/repository.py:56-71 | The stored version and tombstone are the lexicographic maximum of what was delivered, and live content is that of a live delivery of that version. |
| MessageMirror.Converges | src/codex2lark/capabilities/im/repository.py:56-71 | With a tombstone or one live content on the highest version, the same deliveries in any order and number show the same. |
| MessageMirror.VersionsConverge | src/codex2lark/capabilities/im/repository.py:56-71 | The same deliveries in any order and number always give the same version and tombstone. |
| MessageMirror.ConvergesExactly | src/codex2lark/capabilities/im/repository.py:56-71 | Order and repetition do not change what is visible if and only if the highest version has a tombstone or one live content. |
| MessageMirror.RecallIsNeverUndone | src/codex2lark/capabilities/im/repository.py:219-231 | No delivery of an equal or older version brings a recalled message back. |
| MessageMirror.OnlyCountedDeliveriesMatter | src/codex2lark/capabilities/im/repository.py:44-407 | With revocations and restorations in between, the stored row depends only on the deliveries accepted since the last revocation. |
| MessageMirror.RecallHoldsWhileCounted | src/codex2lark/capabilities/im/repository.py:219-309 | Through any history, nothing is visible if and only if every counted live delivery has a counted tombstone of at least its version. |
| MessageMirror.RevocationForgetsRecall | src/codex2lark/capabilities/im/repository.py:356-387 | After revocation and restoration an older live version of a recalled message shows again, for every history before. |
| MessageMirror.StaleCheckpointSurvives | src/codex2lark/capabilities/im/repository.py:64-85 | A derived checkpoint survives a change of the row if and only if an upsert repeats the row's version with something else in it. |
| MessageMirror.SameVersionRecallLeavesCheckpoint | docs/group-agent-runtime.md:462-466 | A recall delivered as an upsert of the stored version hides the message and leaves its checkpoints. |
| MessageMirror.AttachmentsOnlySurvive | src/codex2lark/capabilities/im/repository.py:341-354 | A checkpoint derived from a removed message survives the revocation if and only if it cites only attachments of such messages. |
| MessageMirror.AttachmentCheckpointSurvivesRevocation | docs/group-agent-runtime.md:462-466 | Such a checkpoint exists. |
| MessageMirror.BodyOutlivesRecallExactly | src/codex2lark/capabilities/im/repository.py:277-286 | After any deliveries, a recall at least as new as all of them hides the message, and a body stays in its row if and only if the row had one. |
| MessageMirror.RecalledBodyStays | docs/group-agent-runtime.md:462-466 | The body of a delivered message is still stored after its recall. |
| MessageMirror.NothingDerivedStays | src/codex2lark/capabilities/im/repository.py:72-85 | Whatever characters a message id has, no checkpoint derived from the message survives the deletion. |
| MessageMirror.OnlyOwnSourcesExactly | src/codex2lark/capabilities/im/repository.py:72-85 | Among ids without a colon, the deletion matches references to the message only, if and only if its id holds no letter, underscore or percent sign. |
| MessageMirror.EditRemovesAnothersCheckpoint | src/codex2lark/capabilities/im/repository.py:72-85 | The deletion for one message removes a checkpoint derived from another alone. |
| MessageMirror.ConflictingContentsDiverge | src/codex2lark/capabilities/im/repository.py:56-71 | Two live deliveries of one version in either order show the same only if their contents are equal. |

## Left out

- Node, task and control identifiers are row numbers; the order of the random names, where the code uses it to break ties, is the separate field `uuid`.
- Canonical paths of nodes are reduced to the name being unique among siblings.
- Resource locks, mailbox, artifacts, node checkpoints and write scopes of the agent store are not modelled; `_block_dependents` not dropping a blocked node's locks is therefore not visible.
- The supervisor's role checks, tool delegation, `execute_ready` and `merge_artifacts` only add easy members on top of the store.
- Transitive blocking and liveness of blocked graphs are not claimed: a node may be spawned on a failed predecessor.
- The legacy selection without concurrency limits, and the order of the batch returned by a task lease call, are not modelled.
- The outbox rows of `admit`, `finish_task` and approvals are inserted by `Outbox.Insert`; that they commit together with the task row is not modelled.
- AgentStore.Store.CompleteNode: does not model the artifact it stores, the output checks on it, or the evidence a completion carries.
- AgentStore.Store.SpawnChild: does not model the encrypted fields of a node and the duplicate-identifier errors that random identifiers exclude.
- TaskStore.Scheduler.Admit: does not model the acknowledgement and payload stored with the event, nor events without a command.
- TaskWorker.Worker.RunOnce: runs the handlers of a batch one after the other, where the source runs them concurrently, and with no other worker in between; interleavings are covered by what every store method keeps, not by this method.
- OutboxDispatcher.Dispatcher.RunOnce: lets rivals in between only lease, where the source also lets them publish, record and insert; those are covered by what every store method keeps.
- Harness.RootRun.Begin: does not say when a checkpoint is compatible; the comparison of fingerprints and budgets is an arbitrary answer.
- Harness.RootRun.RunTools: does not model wall time, cost, tokens or external-write budgets; running out of one of them is the arbitrary failure of a turn.
- Runs without a tool-call limit, delegated child runs that share the task, and reservations in the budget ledger are not modelled.
- The capacity gate's double cancellation while waiting for its lock, and its snapshots, are not modelled; waiters are distinct values.
- OperationJournal.Journal.ExecuteWrite: does not model argument validation, policy, approval and the write-scope lease heartbeat around the operation.
- Key files, directory checks and the list of encrypted columns are not modelled; a slot stands for one encrypted column or blob with its place.
- EnvelopeCipher.DecryptUndoesEncrypt: takes AES-GCM as an ideal cipher and leaves out the JSON encoding of envelopes.
- Markup's reader accepts the part of XML that the compiler emits, with double-quoted attributes and five character references; comments, sections and other references are rejected.
- DocumentRoundTrip.DocumentRoundTrips: the reader does not recover where text in one style was cut into spans; this includes the border between adjacent formulas.
- Numbers in attributes are unbounded, and the length limits of the document model are not checked, since no property depends on them.
- Parsing attachments, chat digests, token estimates, transports, command line, channel adapters and maintenance are not modelled; maintenance deletes lanes, claims and messages, so the properties hold between its runs.
- MessageMirror.Repository.UpsertMessage: does not model sender and thread columns.
