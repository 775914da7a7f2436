# Stackport: a verified model of its core logic

Stackport runs Docker Compose projects on one server: it deploys commits, streams action output to
browsers, keeps a deployment history to roll back through, probes project health, and migrates its
own database. This project models the parts of it where an ordering, a bound or a race decides
whether the result is right, and proves what they keep over every input and every run.
`dafny verify dfyconfig.toml` checks everything.

| file | models |
|---|---|
| `EditScript.dfy`, `Hunks.dfy`, `TextDiff.dfy` | the line diff of deploy and rollback previews: the script of the LCS walk, hunks as patches, and the loops of `diffLines` proved against both |
| `SecretMask.dfy`, `Masking.dfy` | what `split(secret).join("***")` leaves behind, and the masker over a list of secrets |
| `OutputEvents.dfy`, `Registry.dfy` | action output: queued, cut at newlines, masked, numbered, kept in a bounded window, logged and replayed |
| `LiveView.dfy` | the client's `action:output` handler, and server, connection and client as one step system |
| `Serving.dfy` | every run of the registry with a client attached is a run of that step system |
| `Progress.dfy` | the build progress estimate |
| `AutoDeploy.dfy` | the "newest wins" queue of automatic deploys, driven by finish callbacks and deferred immediates |
| `History.dfy` | deployment history, pruning and rollback targets |
| `Health.dfy` | health probes of any number of processes, ordered by tickets |
| `Migrations.dfy` | schema migrations run by any number of processes |
| `Text.dfy`, `Options.dfy` | shared helpers |

Code that updates objects is modelled by classes and methods with loops. Their contracts tie the new
state to a function of the old one, and the lemmas are about those functions. Where several
processes, or a browser and a server, interleave, the model is a step system and the theorems are
about every run from its start. Each transaction and each synchronous JavaScript turn is one step.
The ghost history of an action (`Registry.History`) holds all its raw output and every cut, so that
the bounded in-memory state can be stated as a view of it.

## Where the code does not do what its comments say

- **Masking.** Output is said to be masked before it is written. A secret is removed from every text
  exactly when it does not begin or end with `*` and does not contain `***` (`MaskRemovesIffSafe`);
  for any other secret there is a text whose masked form still contains it. A secret cut by a newline
  escapes when the cut falls inside it, so cutting at newlines is harmless exactly when the secret has
  no newline before its last character (`CutsSafeIff`).
- **Partial lines.** A partial line held for a second is sent as it is, so a secret half of which
  arrives a second late reaches the log and the clients unmasked (`HeldPartRun`). The chunks and the
  pending text are masked like the whole output, secret by secret, if no cut fell inside an occurrence
  that would be replaced, and for secrets that do not begin with `*` only then (`EmittedIsMaskedIff`);
  a partial line forced out elsewhere does no harm. A secret of stars can be split harmlessly
  (`StarsSplitHarmlessly`). For one secret the condition decides the final text; with several a split
  can be hidden by another secret of the list (`SplitCanBeHidden`).
- **A log file that is not there.** A client is said to be replayed from where it left off or from the
  start. When the log could not be opened, or was deleted, and the chunks asked for were evicted, it
  is reset to nothing at the current number instead (`RunningReplay` is exact), and its view shows
  only what follows (`LostLogCutsView`).
- **Rolling back.** Rolling back twice is said to keep going back and never to return to the revision
  the first rollback left. It returns there exactly when an unmarked row of that revision is left that
  only unmarked rows of it and of the restored revision are newer than (`SecondRollbackReturnsIff`).
  Redeploying the running revision is enough (`RedeployReturns`). When the running row and the two
  newest unmarked ones differ in turn, two default rollbacks restore those two, whatever lies between
  them (`RollbacksDescendTwice`), and the third returns to the first of them exactly when pruning left
  it in the table (`ThirdRollbackReturnsIff`): only the copy made by the first rollback is marked.
- **Restart during a queued deploy.** The poller is said to pick up the lost commit. With the
  settings as they are, some pass deploys it exactly when the poller is enabled, the project is not paused, has a repository and is triggered
  by the poller, or by webhook with the safety check on, and some other commit was the last one
  recorded (`RestartVisibleLaterIff`). A project without a recorded commit takes the lost one as its
  baseline (`FirstCommitCanBeLost`); one deployed by webhook without the safety check, and any project
  while the poller is off, is not looked at (`UnpolledCommitIsLost`).
- **Health incidents.** Pausing a project resets its status but keeps its incident key
  (`src/modules/projects/operations.ts:234-243`). The next failed probe then opens a second incident,
  and the first event is never cancelled (`PauseOrphansIncident`). `CommitKeepsOneIff` gives the exact
  branch, and `IncidentsCounted` counts such events in every run. Until then the project has an
  incident without being down (`PauseForgetsDown`). The other way round, a project that was down before
  incidents were recorded has none until it is found up, or paused, and then down (`DownStaysSilent`). Status
  and incident disagree in no other case.

## Assumptions

- Random ids are fresh. The log stream writes a chunk when it is handed over, and only the logs of
  actions that are not running are deleted.
- Attaching joins the room and answers in one step, each direction of a connection is in order, and
  one view uses a connection (`src/transports/socket/manager.ts:115-127`).
- Every action in a project's repo slot carries its project id, as all callers do, so the finish
  listener always recognises it.
- Database ids are handed out in increasing order (`AUTOINCREMENT`).
- Time is any number at each step; timers may fire at any point once set. A poll reaches GitHub and
  finds the lost commit at the head of the watched branch.

## Model

| member | source | states |
|---|---|---|
| TextDiff.DiffLines | src/shared/textDiff.ts:33-107 | `identical` exactly when the texts agree up to CRLF and a missing final newline; `tooLarge` exactly when they differ and the trimmed middles exceed the cell cap; otherwise hunks that show exactly the lines near a change of the shortest script, and patch old to new and back |
| TextDiff.SplitLinesExact | src/shared/textDiff.ts:25-29 | a text's lines are the lines it is written in, each ended by LF or CRLF in any mix, and what follows the last end if that is not empty |
| TextDiff.LineEndsIgnored | src/shared/textDiff.ts:25-29 | so texts with the same lines and other line ends, or without the last one, split alike |
| TextDiff.SameLines | src/shared/textDiff.ts:25-29 | two texts split into the same lines exactly when they are equal after CRLF becomes LF and a final newline is added |
| TextDiff.SkipCommonStart | src/shared/textDiff.ts:37-38 | the loop finds the whole common start |
| TextDiff.SkipCommonEnd | src/shared/textDiff.ts:39-41 | the loop finds the whole common end of what is left, and never overlaps the start |
| TextDiff.FillTable | src/shared/textDiff.ts:48-57 | every cell of the flat table holds the LCS length of the two suffixes it stands for |
| TextDiff.LcsFitsUint32 | src/shared/textDiff.ts:46-50 | under the cell cap no table value is truncated by the 32-bit array |
| TextDiff.WalkTable | src/shared/textDiff.ts:61-75 | the walk appends exactly the script of the two middles, each op numbered with the lines consumed before it |
| TextDiff.PushKept | src/shared/textDiff.ts:60-78 | shared lines become context ops with the right old and new line numbers |
| TextDiff.GroupHunks | src/shared/textDiff.ts:80-105 | an op is shown exactly when a change lies within `context` ops of it; hunks are in order, apart by at least one hidden op, and start where they say |
| EditScript.ScriptCorrect | src/shared/textDiff.ts:37-78 | the whole script consumes exactly the old lines, produces exactly the new ones, and keeps as many lines as their LCS |
| EditScript.ScriptMinimal | src/shared/textDiff.ts:37-78 | no script turning the old lines into the new ones has fewer additions and removals |
| EditScript.ScriptCanonical | src/shared/textDiff.ts:63-75 | no removal directly follows an addition, in any script |
| EditScript.NoChangeIffEqual | src/shared/textDiff.ts:42-42 | the script has no change exactly when the line lists are equal |
| Hunks.GroupingUnique | src/shared/textDiff.ts:80-105 | a script and a context width leave exactly one possible list of hunks |
| Hunks.PatchForward | src/shared/textDiff.ts:80-106 | strictly applying the hunks at their old starts to the old lines gives the new lines |
| Hunks.PatchBackward | src/shared/textDiff.ts:80-106 | strictly applying them in reverse at their new starts to the new lines gives the old lines |
| SecretMask.SplitJoinReplaces | src/modules/actions/log.ts:87-88 | splitting by the secret and joining with the mask replaces the leftmost occurrences in turn |
| SecretMask.MaskRemovesIffSafe | src/modules/actions/log.ts:82-93 | masking a secret removes it from every text exactly when it can't overlap an inserted mask |
| SecretMask.NeverRecreated | src/modules/actions/log.ts:84-89 | no later replacement brings back a safe secret that was not in the text |
| Masking.Mask | src/modules/actions/log.ts:82-93 | the loop applies every secret's replacement in list order |
| Masking.MaskComplete | src/modules/actions/log.ts:82-93 | for every text and every list of secrets, no safe secret of the list occurs in the output, whatever the other secrets are |
| Masking.CleanTextKept | src/modules/actions/log.ts:82-93 | text without any secret of the list comes out as it is |
| Masking.CollectSecrets | src/modules/actions/log.ts:59-74 | exactly the stored values of at least six characters, each once, longest first |
| Masking.WholeSecretMasked | src/modules/actions/log.ts:73-73 | longest first, a secret printed alone is masked whole although the list has secrets inside it, whatever the other secrets are, if all are longer than the mask, as the stored ones used are |
| Masking.SecretInTextMasked | src/modules/actions/log.ts:73-93 | so is a secret inside other text, if no secret overlaps its ends |
| Masking.ShorterFirstLeaks | src/modules/actions/log.ts:73-73 | in the other order part of a longer secret stays readable |
| Masking.CutsSafeIff | src/modules/actions/registry.ts:328-350 | cutting a text after a newline never changes what is masked, exactly when the secret has no newline before its last character |
| Masking.CutHarmlessIff | src/modules/actions/log.ts:84-89 | masking two parts is masking the whole if the cut is not inside an occurrence that would be replaced, and only then unless the secret begins with `*` |
| Masking.StarsSplitHarmlessly | src/modules/actions/log.ts:84-89 | a secret of stars that is split without a difference |
| Masking.PartsHarmlessIff | src/modules/actions/log.ts:84-89 | both directions for any number of parts |
| Masking.MaskCommutesIff | src/modules/actions/registry.ts:328-357 | masking chunk by chunk is masking the whole output, after each secret of the list, if no chunk ends inside a secret, and only then if no secret begins with `*` |
| Masking.SplitCanBeHidden | src/modules/actions/log.ts:84-89 | with several secrets the final texts can agree although one was split |
| Masking.MaskCommutesWithCuts | src/modules/actions/registry.ts:328-357 | for newline-free secrets, masking chunks cut at newlines is masking the whole output |
| Registry.TrimLogAppend | src/modules/actions/registry.ts:37-40 | trimming the log as chunks arrive keeps the last 262144 characters of the whole output, as trimming once would |
| Registry.PushChunk | src/modules/actions/registry.ts:357-362 | the window stays the newest chunks, contiguous to the last number, with exact byte count, within the cap unless one chunk is left, and drops no chunk that would fit |
| Registry.FlushOutput | src/modules/actions/registry.ts:330-368 | what a flush emits, keeps pending, logs and sends is the mask of the part up to the last newline, of a partial line held too long, or of everything at the end; pending output keeps a timer |
| Registry.ActionRegistry.TryStart | src/modules/actions/registry.ts:125-174 | starts exactly when the slot is free, and replaces the previous run with its output |
| Registry.ActionRegistry.Append | src/modules/actions/registry.ts:197-205 | raw output is added to the running action's history and pending text and to nothing else |
| Registry.ActionRegistry.Flush | src/modules/actions/registry.ts:330-368 | only this action's output and log change, as the flush decides; clients are sent the emitted chunk under its number; nothing happens once its output was dropped |
| Registry.ActionRegistry.Finish | src/modules/actions/registry.ts:263-292 | the action in the slot ends with everything pending, or its only output, emitted as the last chunk |
| Registry.QueueMeans | src/modules/actions/registry.ts:197-205 | queued output is pending after what was, with a timer, and waits since the oldest of it came |
| Registry.FlushMeans | src/modules/actions/registry.ts:330-356 | a flush emits up to the last newline and keeps the rest, waiting from then; without a newline it waits a second and then emits all |
| Registry.EndMeans | src/modules/actions/registry.ts:263-282 | the end emits everything pending, or the only output of an action that had none, as one last chunk, and sets the status |
| Registry.ReplayMeans | src/modules/actions/registry.ts:239-252 | every answer: the missing chunks, the log file or nothing, and whether the action has ended |
| Registry.ActionRegistry.Replay | src/modules/actions/registry.ts:239-252 | the answer, in terms of the whole output, for actions in memory, only on disk, pruned or unknown |
| Registry.StartedConsistent | src/modules/actions/registry.ts:131-151 | starting an action keeps every other action's bounded state a view of its whole history |
| Registry.UpdatedConsistent | src/modules/actions/registry.ts:330-368 | changing one action's record, output and log keeps the same for all actions |
| Registry.OutputWindow | src/modules/actions/registry.ts:357-363 | chunks in memory run without a gap up to the next number, byte count exact and within the cap unless one remains; the record's log is the last 262144 characters of all output; pending output of a running action has a timer |
| Registry.EmittedIsMasked | src/modules/actions/registry.ts:330-357 | what was emitted, followed by the mask of what is pending, is the mask of everything appended, if no cut fell inside a secret |
| Registry.EmittedIsMaskedIff | src/modules/actions/registry.ts:330-357 | it is, secret by secret, if no cut fell inside a secret, and only then if no secret begins with `*`; with one such secret that decides what clients were sent |
| Registry.UnforcedUnsplit | src/modules/actions/registry.ts:338-351 | no newline-free secret is cut unless a partial line was forced out |
| Registry.HeldPartRun | src/modules/actions/registry.ts:338-351 | a run of the registry that emits a whole secret |
| Registry.RunningReplay | src/modules/actions/registry.ts:239-252 | a running action is replayed, from the requested chunk or whole, exactly when those chunks are in memory or its log could be opened |
| Registry.RecordLogIsFileEnd | src/modules/actions/registry.ts:363-364 | the log file holds everything emitted, and the record's log is its last 262144 characters |
| LiveView.ActionOutputView.Handle | client/src/hooks/useActionOutput.ts:39-56 | the handler takes a reset, then the chunks it doesn't have, in order |
| LiveView.HandleFits | client/src/hooks/useActionOutput.ts:39-56 | an event that tells the truth and leaves no gap extends the view to its end, and a reset sets where it begins |
| LiveView.StepKeeps | client/src/hooks/useActionOutput.ts:35-63 | emission, eviction, finish, drop, loss of the log, connect, disconnect, reattach, attach and delivery all keep the queue gapless and the view exact |
| LiveView.ViewIsPrefix | client/src/hooks/useActionOutput.ts:12-66 | in every run the view holds exactly the chunks before `nextSeq` from some chunk on, resets included; from the first one while the log file exists, even after the slot was reused |
| LiveView.ViewCatchesUp | client/src/hooks/useActionOutput.ts:12-66 | an attached view with nothing left to receive, and a view the server told `done`, shows everything up to the end |
| LiveView.ReconnectSendsMissing | client/src/hooks/useActionOutput.ts:35-63 | a view that connects again asks from its next number and is sent exactly what it misses, while that is in memory |
| LiveView.AttachTellsDone | client/src/hooks/useActionOutput.ts:53-56 | a view that attaches to an ended action is done once it has the answer |
| LiveView.LostLogCutsView | src/modules/actions/registry.ts:249-251 | a run without a log file in which the view misses evicted output |
| Serving.WindowUnique | src/modules/actions/registry.ts:357-362 | what is in memory depends only on the output, not on how it got there |
| Serving.WindowAdvances | src/modules/actions/registry.ts:357-362 | a new chunk evicts only from the old end, and never itself |
| Serving.CallMoved | src/modules/actions/registry.ts:125-368 | no call of the registry changes more of an action than one more chunk, its end, its place in memory and its log, in that order |
| Serving.ChangeServes | src/modules/actions/registry.ts:263-368 | such a change is steps of the view's server, and the event sent is the one an attached view gets |
| Serving.RunIsShown | src/modules/actions/registry.ts:125-368 | every run of calls on all actions, interleaved with a client of one of them, is a run of the step system |
| Serving.RegistryViewIsPrefix | client/src/hooks/useActionOutput.ts:12-66 | so in every such run the view holds a run of the registry's masked chunks, those before `nextSeq` while the output is in memory, and everything once it has caught up while the log is there |
| Serving.ViewShowsNoSecret | src/modules/actions/log.ts:8-13 | in every such run, unless a cut fell inside a secret, no view shows a safe secret, and a caught-up view of a finished action, while its log is there, shows the mask of all it was given |
| Serving.ReplayServes | src/transports/socket/manager.ts:115-123 | an attaching client is answered exactly as by the step system's server, whether or not the action, its chunks and its log file are still there |
| Progress.ConsumeTwice | src/modules/actions/progress.ts:57-69 | two chunks leave the same entry as one, wherever the cut falls, between CR and LF too |
| Progress.ChunkingIrrelevant | src/modules/actions/progress.ts:57-69 | any two ways to cut the same output leave the same buffer, phase and progress |
| Progress.ConsumeGrows | src/modules/actions/progress.ts:71-109 | phase and progress never go down, and output alone never takes progress past 0.95 |
| Progress.LineMeans | src/modules/actions/progress.ts:71-109 | the phase becomes the furthest the line speaks of, the progress the larger of before and the finished steps up to 0.95 |
| Progress.SplitCrLfExact | src/modules/actions/progress.ts:57-61 | lines lose their LF or CRLF and nothing else, and what follows the last end waits |
| Progress.ConsumeLine | src/modules/actions/progress.ts:57-69 | an ended line counts as its trimmed text's marks say, a blank one doesn't |
| Progress.ApplyLine | src/modules/actions/progress.ts:71-109 | the line's transition, reported as a change exactly when phase or progress differ |
| Progress.BuildProgressTracker.Consume | src/modules/actions/progress.ts:57-69 | the key's entry consumes the chunk, and null is returned exactly when the estimate is the same |
| Progress.BuildProgressTracker.Finish | src/modules/actions/progress.ts:113-117 | success sets progress to 1, failure leaves it, phase stays |
| AutoDeploy.QueueIsWatched | src/modules/automation/autoDeploy.ts:53-88 | in every run a queued commit has a running action or an immediate that captured exactly the queued entry, and `pending_deploy_sha` is the queue |
| AutoDeploy.NewestCommitWins | src/modules/automation/autoDeploy.ts:21-88 | deploys started are a subsequence of the requests, the queue holds the newest, the newest was started unless queued or dropped, and `last_commit_sha` is the last one started |
| AutoDeploy.RestartVisibleIff | src/modules/automation/githubPolling.ts:273-404 | a pass after a restart deploys the lost commit exactly when the poller is enabled and selects the project at that time, and some other commit was the last one recorded |
| AutoDeploy.RestartVisibleLaterIff | src/modules/automation/autoDeploy.ts:90-95 | some later pass does exactly when the project's and the poller's settings ever let one look at the project, and some other commit was the last one recorded |
| AutoDeploy.UnpolledCommitIsLost | src/modules/automation/githubPolling.ts:273-281 | runs in which the lost commit is never polled for, although another one was recorded |
| AutoDeploy.FirstCommitCanBeLost | src/modules/automation/githubPolling.ts:388-404 | a run in which the poller takes the lost commit as its baseline |
| AutoDeploy.StepKeeps | src/modules/automation/autoDeploy.ts:53-95 | requests, other actions, finishes, immediates, clears, pauses, deletion and restarts all keep the queue's invariant |
| AutoDeploy.ProjectQueue.RequestAutoDeploy | src/modules/automation/autoDeploy.ts:53-64 | starts and records the commit when the slot is free, otherwise replaces the queue entry |
| AutoDeploy.ProjectQueue.RunImmediate | src/modules/automation/autoDeploy.ts:78-87 | does nothing for another entry; starts exactly the queued deploy and records its commit if the slot is free; queues it again if not; drops it if the project is gone, paused or manual |
| AutoDeploy.ImmediateMeans | src/modules/automation/autoDeploy.ts:78-87 | the same for the step, in terms of the state |
| AutoDeploy.QueuedStartsNext | src/modules/automation/autoDeploy.ts:72-88 | in every run, a queued deploy with the slot free has its immediate, and running it starts the newest request and records its commit |
| AutoDeploy.DroppedOnlyBy | src/modules/automation/autoDeploy.ts:67-95 | a queued deploy is dropped only by a clear, a restart, or the immediate of a project not deployed automatically any more |
| AutoDeploy.NewestStartedOrQueued | src/modules/automation/autoDeploy.ts:15-17 | in every run without such a drop the newest request was started or is queued |
| AutoDeploy.ProjectQueue.OnFinish | src/modules/automation/autoDeploy.ts:72-88 | frees the slot and schedules exactly the queued entry |
| History.PruneKeeps | src/modules/deployments/history.ts:72-82 | pruning never changes the running row or the default rollback target |
| History.PruneBounds | src/modules/deployments/history.ts:72-82 | a pruned table keeps its order and one active row, and has at most 22 rows |
| History.FailureKeeps | src/modules/deployments/history.ts:109-120 | a failed deploy changes neither the running row nor the default rollback target |
| History.FailuresKeep | src/modules/deployments/history.ts:109-120 | so does a run of failures of any length after any history |
| History.SuccessWellFormed | src/modules/deployments/history.ts:94-107 | a success leaves exactly its own row active |
| History.HistoryWellFormed | src/modules/deployments/history.ts:72-120 | in every history, rollbacks included, at most one row is active and at most 22 are kept |
| History.BoundedRefinesUnbounded | src/modules/deployments/history.ts:72-120 | over every run of failures and fully recorded deploys, the table has the same running row and rollback target as one that keeps every row |
| History.NextRollback | src/modules/deployments/history.ts:94-107 | after a rollback to a revision the next default target is the newest remaining candidate that differs from it |
| History.SecondRollbackReturnsIff | src/modules/deployments/history.ts:165-169 | in any table, the rollback after one from c to b returns to c exactly when an unmarked row of c is left that only unmarked rows of b and c are newer than |
| History.RedeployReturns | src/modules/deployments/history.ts:165-169 | after deploys of a, b, c and c again the second default rollback returns to c |
| History.RedeployOlderReturns | src/modules/deployments/history.ts:165-169 | after deploys of a, b and a again it returns to a |
| History.RollbacksDescendTwice | src/modules/deployments/history.ts:163-194 | in any table two default rollbacks restore the newest and then the second newest unmarked row, whatever rows lie between, if each differs from the one before |
| History.ThirdRollbackReturnsIff | src/modules/deployments/history.ts:72-107 | the third returns to the row the first restored exactly when that row is among the newest, so pruning left it |
| History.HistoryDescends | src/modules/deployments/history.ts:72-194 | the same for the tables after any history and its rollbacks |
| History.RollbacksDescendTwiceThenReturn | src/modules/deployments/history.ts:163-194 | after any history and fewer than 20 attempts, failed ones among them, two default rollbacks run the revisions of the last deploy but one and but two, and the third would return |
| History.DefaultCanBePicked | src/modules/deployments/history.ts:171-194 | picking the default target explicitly restores the same row |
| History.PickedRestores | src/modules/deployments/history.ts:177-185 | the answer to a pick: not found exactly when no row has the id; not restorable exactly when it failed or lacks its commit, compose file name or compose; then already running or restored |
| History.DefaultIsNewest | src/modules/deployments/history.ts:187-194 | a default rollback restores the newest superseded, unmarked row that has all three and differs from what runs, and nothing exactly when no row is so |
| History.RollbackChangesRevision | src/modules/deployments/history.ts:171-194 | a rollback, default or picked, restores a row of the table with all three recorded and always changes the running revision |
| History.PruneKeepsExactly | src/modules/deployments/history.ts:72-82 | pruning keeps the newest 20 rows, the active one and the default target, and no other |
| History.SuccessRecords | src/modules/deployments/history.ts:94-107 | the columns of a success; the rows before it stay but for the active one, marked with the rollback's time if it is one |
| History.FailureRecords | src/modules/deployments/history.ts:109-120 | the columns of a failure, without compose bodies; the rows before it stay |
| History.RollbackRecords | src/modules/deployments/operations.ts:1798-1805 | a rollback records the restored row's content |
| History.PickedRollbackRuns | src/modules/deployments/history.ts:177-185 | after a picked rollback the picked revision runs, and nothing changes if it can't be restored |
| History.DeploymentTable.RecordSuccessfulDeployment | src/modules/deployments/history.ts:94-107 | only the project's rows change: superseded or marked, a new active row, pruned |
| History.DeploymentTable.RecordFailedDeployment | src/modules/deployments/history.ts:109-120 | only the project's rows change: a failed row, pruned |
| Health.OnlyNewestCommits | src/modules/deployments/health.ts:103-132 | over all processes tickets strictly increase, committed tickets too, and a result is accepted only under the newest ticket |
| Health.IncidentsCounted | src/modules/deployments/health.ts:119-130 | in every run from any status the open events are the recorded incident plus those overwritten; up means no incident, and an incident goes with down except exactly where a pause forgot that the project was down or it was down from the start and neither found up nor paused since |
| Health.CommitKeepsOneIff | src/modules/deployments/health.ts:119-130 | a commit keeps the open events equal to the recorded incident exactly when it opens no incident over a recorded one |
| Health.PauseOrphansIncident | src/modules/projects/operations.ts:234-243 | a run in which a pause leaves an event open for good |
| Health.PauseForgetsDown | src/modules/projects/operations.ts:234-243 | a run to the state with an incident that is not down |
| Health.DownStaysSilent | src/migrations/007_push_outbox.ts:47-47 | a project down when incidents began to be recorded opens none at its next failed probe |
| Health.StepKeeps | src/modules/deployments/health.ts:97-132 | probes beginning, committing and crashing in any process, and changes to the project, keep the ticket and incident invariants |
| Health.ProjectStore.TakeTicket | src/modules/deployments/health.ts:105-112 | the ticket is at least the clock and above the stored one, is one of those two bounds, and is all that is stored |
| Health.ProjectStore.CommitResult | src/modules/deployments/health.ts:116-132 | a result is applied exactly when the project is not paused and its URL and ticket still match; then the status is the result, an incident is opened on going down and closed on coming up, and nothing else changes |
| Health.StatusIsLastResult | src/modules/deployments/health.ts:129-130 | in every run the status is the last accepted result, unless a pause followed it |
| Health.HealthChecker.Begin | src/modules/deployments/health.ts:90-112 | a process has at most one probe in flight, and none without a URL |
| Migrations.MigrationsApplyOnce | src/migrations/index.ts:35-56 | over all runners and crashes, same release or older, migrations are applied at most once, in order, without gaps; the version never goes down and reaches each finished runner's latest |
| Migrations.CompletedReachesLatest | src/migrations/index.ts:48-56 | whenever a runner completes, the version has reached every migration of its release, and those newer than the initial version were applied |
| Migrations.BeginRunsThrough | src/migrations/index.ts:40-56 | a runner that isn't interrupted can always take its transactions to the end |
| Migrations.StepKeeps | src/migrations/index.ts:40-56 | each start, transaction, completion or crash of a runner keeps that |
| Migrations.RunMigrations | src/migrations/index.ts:40-56 | alone, it applies exactly the missing migrations and leaves the version at the larger of its own and the latest |

## Left out

- Files, sockets, child processes, Docker, git, GitHub, nginx, SQLite itself: only the events they
  feed into the models.
- Action persistence, cancelers, annotations and progress fields of `ActionRegistry`: bookkeeping
  beside the output.
- Slots of actions other than the output they own: `finish` is by slot, and the model lets anyone end
  whatever runs in it.
- `pruneActionLogs`, `deleteProjectActionLogs`: only their effect, a log file going away.
- The tracker that marks a view done when an action finishes; the view's `done` is the server's.
- Regular expressions and trimming in `progress.ts`: a function from trimmed lines to marks.
- UTF-16: strings are sequences of characters, and lengths count them.
- `AutoDeploy` models one project; the module keeps the same state for each project id.
- `last_commit_sha` written by the poller and other modules; polls asked for by hand, and their errors.
- `markActiveDeploymentUnhealthy`, listing and detail queries of `history.ts`.
- Delivery, expiry and preferences of push events: an incident event is enqueued and cancelled.
- The migrations' own schema changes.
