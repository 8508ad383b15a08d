# A verified model of the workflow platform

This project models the parts of the workflow platform whose correctness depends on more than one
function: the executor that interprets a workflow graph, the protocol that moves an execution through
its stored states on many replicas, the deploy lineage, the diff that carries the assistant's edits back
to the canvas, the two rate limiters, the warm container pool, the sandbox file cache, the ancestor search
and the licence-header stamper. Code that works by changing fields and local variables is modelled by
classes and methods with loops, each proved against a specification function or predicate; protocols that
interleave at await points or across replicas are step relations, and their properties are proved over
every run.

| File | Content |
|---|---|
| `Helpers.dfy` | options and small facts about sets that several modules use |
| `Graphs.dfy` | edges, walks, cycles; a finite graph is acyclic exactly if it can be ranked |
| `Engine.dfy` | what one visit of the executor does, and the recursive meaning of a workflow |
| `Executor.dfy` | `execute` and `resume` as loops over the stored document |
| `Outcomes.dfy` | what the tables of a run say, read off edges, handles, labels and parents' results |
| `ValidateDag.dfy` | the graph check (Kahn's algorithm) |
| `RunTheorems.dfy`, `Counterexamples.dfy` | when a run finishes, what a resumed run gives, and where resuming differs |
| `LeaderLease.dfy`, `CronFire.dfy`, `ApprovalRace.dfy`, `CrashResume.dfy` | the execution-lifecycle protocols |
| `DeployLineage.dfy` | snapshots, retention, rollback |
| `FieldDiff.dfy`, `GraphDiff.dfy` | the two diffs, the assistant's working copy, the canvas patch |
| `RateLimit.dfy`, `SandboxPool.dfy`, `FileCache.dfy` | limiters, container pool, disk cache |
| `Ancestors.dfy`, `LicenseHeaders.dfy` | breadth-first ancestors; header printer, locator and stamper |

## How the executor is specified

A node body is an arbitrary function of the node and of the input gathered from its parents. It returns
an output (possibly one that waits for an approval) or an error. A run is judged by its table of results:
`Sound` says that each recorded result is what a visit computes from the parents' results and that a
parent (or the start) scheduled it; `Complete` says that nothing schedulable is missing; `Meaning` is an
independent recursive definition of the result of a node. `Execute` and `Resume` are the imperative loops;
`Ends` says what their final status promises about the table, and `Orderly` that each node was visited
once and after its parents. Everything else follows from these: confluence, coverage, resume. `Outcomes.dfy`
reads the same tables back without the executor's own notions: a node is skipped exactly if an edge-level
condition holds, and otherwise has what its body makes of the input described there.

## Properties that fail, and when they hold

Several promises do not hold of the code without a condition. The code is modelled as it is, and a lemma
states exactly when the promise is met.

* Resume after a crash (executor.py:822-833) promises to restart every unfinished frontier. It forgets
  soft failures, does not propagate skips, does not honour `continue_on_error`, and gives a join the value None for
  a restored skipped parent instead of the empty dictionary. So the resumed run gives the results of the
  uninterrupted one if and only if nothing still to be done failed softly, was skipped only through its parents, or
  reads that None differently. `Counterexamples.CrashResumeCanDiffer` and `Counterexamples.RestoredSkipCanFail` are
  runs that differ.
* Resume after an approval seeds only the paused node's children (executor.py:817-821). Nodes of another
  branch that were ready but not yet visited never run, and the execution is nevertheless COMPLETED.
* Leader election: an instance that finds its own id in the store becomes leader without extending the
  lease (scheduler.py:258-285). Two leaders are possible however short the heartbeat is.
* One execution per minute holds exactly if the fire lock outlives the minute plus the delay before the
  lock is taken. The overlap guard also fails when the SET NX of the overlap lock raises.
* The crash sweep looks at the stored status and the time of the last resume only (scheduler.py:1073-1078), while a
  resumed run stays RESUMING in the store until it ends, and a decider rolls back its RESUMING write without looking
  at the status again (router.py:2007-2033). So a slow queue or a long resumed run is resumed a second time. Two
  workers can then run the same nodes, a pause be resolved twice and a run come back from CANCELLED; none of it happens if and only if the time a decider
  takes and the time from an enqueue to the next stored status together stay within the sweep's cutoff.
* A rejection is carried only by the job, and the sweep resumes every run as approved. So a rejected pause can be passed
  when a worker dies with the rejecting job, and when the bound above does not hold.
* The bound on crash resumes needs sweeps that do not overlap: the compare-and-set looks at the status, not at
  the attempt count.
* The proposed diff compares with Python's equality, for which True is 1 and False is 0. So a setting changed from
  true to 1 is neither shown to the user nor sent to the canvas; the field diff gives the new node up to that equality.
* The proposed diff compares edges by key only, and the canvas skips falsy fields of updated nodes, fills in the label
  and config of new ones, and gives each new edge a handle that its source has. So an edge that was removed and added
  again with another label keeps its old label, and an edge added without a handle comes back with its source's first
  output, for which a condition reads "true".
* The shared limiter admits up to twice its limit less one in one window, not its limit.
* A warm-up is documented to bring the pool to its minimum size (sandbox_pool.py:161). Its guard counts each new
  container twice, so an undisturbed one creates half of what is missing, rounded up, and reaches the minimum exactly
  if at most one container was missing, with room for it.
* The pool's periodic reaper protects idle and in-use containers only. A container that is being checked, wiped
  or that was created after the snapshot is destroyed.
* The file cache keeps its old sidecar if the write of a new one fails; the old object's ETag then vouches for
  the new bytes.
* A file whose front matter pushes the tag out of the first fifteen lines gets another header on every stamping,
  and a rewrite can drop the blank line, even the final newline, that follows the header.

## Model

| member | source | states |
|---|---|---|
| Engine.SoundIsMeaning | citra-workflow/citra_workflow/executor.py:450-686 | however far a run got, each recorded result is the one that the recursive definition gives |
| Engine.CompleteIsMeaning | citra-workflow/citra_workflow/executor.py:422-447 | a run with nothing left to schedule leaves out exactly the nodes that the recursive definition leaves out |
| Engine.Confluence | citra-workflow/citra_workflow/executor.py:404-688 | on an acyclic graph two runs that end have the same results, whatever the order of roots and batches |
| Engine.StoppedRunsAgree | citra-workflow/citra_workflow/executor.py:450-686 | runs stopped anywhere (failure, pause, cancel, step limit) never disagree on a node |
| Engine.VisitDependsOnParents | citra-workflow/citra_workflow/executor.py:460-525 | branch gating, switch routing, gathered input and skip propagation depend on the parents' results only |
| Outcomes.ResultIs | citra-workflow/citra_workflow/executor.py:460-604 | over every sound table, so over every run: a visited node is skipped if and only if a completed condition parent has an edge to it that names a branch and none that names the taken one, or a matched switch parent has no edge to it with that route, or all its parents were skipped or failed softly; otherwise it fails for an unknown type or has what its body makes of its parents' outputs |
| Outcomes.TakenBranchRuns | citra-workflow/citra_workflow/executor.py:473-493 | a child on the taken branch is never skipped, unless another parent routes too |
| Outcomes.MatchedRouteRuns | citra-workflow/citra_workflow/executor.py:495-512 | nor is one on the matched route of a switch |
| Outcomes.LiveParentRuns | citra-workflow/citra_workflow/executor.py:514-527 | nor one with a completed parent, when no parent routes |
| Outcomes.IncomingInEdgeOrder | citra-workflow/citra_workflow/executor.py:359-366 | the parents of a node, and so the inputs of a join, come in the order of the edges, one for each parallel edge |
| Outcomes.BlanksDoNotMatter | citra-workflow/citra_workflow/executor.py:89-102 | blanks around a branch word do not change the branch it names |
| Outcomes.CapitalsDoNotMatter | citra-workflow/citra_workflow/executor.py:89-102 | nor do capitals |
| Outcomes.EndIs | citra-workflow/citra_workflow/executor.py:604-686 | a finished or cancelled run has no node that waits or failed for good; a paused one stands at the only node that waits, a failed one at the only node that failed for good |
| Outcomes.StepsAre | citra-workflow/citra_workflow/executor.py:540-557 | a run takes at most the allowed steps, where a resumed one counts the restored nodes as taken, and stops for the limit only when they are used up |
| Outcomes.RecordedIff | citra-workflow/citra_workflow/executor.py:422-447 | in a finished run a node that is no starting point is recorded if and only if all its parents are and one of them was visited in this run and was not of an unknown type |
| Outcomes.StartIs | citra-workflow/citra_workflow/executor.py:369-401 | a run starts at the nodes without an incoming edge; nodes without any edge that are no triggers are skipped from the start |
| Outcomes.ResumeStartIs | citra-workflow/citra_workflow/executor.py:799-833 | a resumed run keeps the completed and skipped nodes and starts at the children of the paused node, or at all other nodes after a crash |
| Executor.BuildIndexes | citra-workflow/citra_workflow/executor.py:359-366 | the adjacency and incoming lists hold exactly the edges' endpoints, in edge order |
| Executor.CollectBatch | citra-workflow/citra_workflow/executor.py:431-441 | the batch is, without duplicates, the queued unexecuted nodes whose parents are all executed; the rest stays queued |
| Executor.GateParents | citra-workflow/citra_workflow/executor.py:460-512 | the loop over the parents computes whether the node is routed away, and the input it would get |
| Executor.VisitNode | citra-workflow/citra_workflow/executor.py:460-604 | one visit from the executor's own variables gives the specified result, or stops at the step limit |
| Executor.BoundaryStep | citra-workflow/citra_workflow/executor.py:604-686 | after each visit the run goes on with the whole invariant, or ends for the reason its status names |
| Executor.Execute | citra-workflow/citra_workflow/executor.py:350-700 | over every run: the final status tells why it ended, results are sound, each node was visited once and after its parents, no visit started after a cancel was seen, and the checkpoints are exactly the tables after the completed, non-waiting visits at which one was due |
| Executor.Resume | citra-workflow/citra_workflow/executor.py:747-1023 | refused unless paused or resuming; a rejection keeps the results; otherwise the same guarantees relative to the restored nodes, none of which is visited again, and no checkpoint is added |
| ValidateDag.CountInDegrees | citra-workflow/citra_workflow/router.py:459-481 | the in-degree map counts, for each node or unknown endpoint, the edges into it, parallel ones separately |
| ValidateDag.PeeledIffAcyclic | citra-workflow/citra_workflow/router.py:483-498 | when the queue is empty, fewer nodes than given are finished if and only if there is a cycle |
| ValidateDag.Validate | citra-workflow/citra_workflow/router.py:453-505 | no errors if and only if every endpoint exists, the graph is acyclic, and no node is isolated among several; the errors name exactly the unknown endpoints and exactly the isolated nodes |
| RunTheorems.FinishesIff | citra-workflow/citra_workflow/executor.py:350-700 | on an accepted graph an uncancelled run is COMPLETED if and only if the recursive definition runs through within the step limit, and then every node has exactly its result |
| RunTheorems.RanInIsRanByMeaning | citra-workflow/citra_workflow/executor.py:552-557 | the nodes run are among those that the definition runs, never more than there are nodes, and fewer while one is still to run |
| RunTheorems.FinishedCoversAll | citra-workflow/citra_workflow/executor.py:422-447 | a run of an accepted graph that finishes has a result for each node |
| RunTheorems.NothingUnresolved | citra-workflow/citra_workflow/executor.py:443-447 | when a round finds nothing to run on an accepted graph, nothing unvisited is on the queue: the loop never gives up on unresolvable dependencies |
| RunTheorems.CrashResumeExact | citra-workflow/citra_workflow/executor.py:799-1023 | a crash-resumed run ends with the results of the uninterrupted run if and only if nothing still to do failed softly, was skipped only through its parents, or tells the None of a restored skipped parent from the original input |
| RunTheorems.CrashResumeForAllIff | citra-workflow/citra_workflow/executor.py:799-1023 | it does so for all bodies with the same uninterrupted results if and only if nothing still to do failed softly or was skipped only through its parents, and no body to be run gathers from a restored skipped parent |
| RunTheorems.InputAlikeIff | citra-workflow/citra_workflow/executor.py:808-811 | the restored input of a node differs from the original one if and only if it gathers from a restored skipped parent and no parent routes |
| RunTheorems.CrashResumePlain | citra-workflow/citra_workflow/executor.py:822-1023 | without branch, approval and continue-on-error nodes it always does, from any checkpoint, and every checkpointed node is restored |
| RunTheorems.CrashResumePlainIff | citra-workflow/citra_workflow/executor.py:822-1023 | on such a graph, from any checkpoint, the resumed run finishes if and only if the uninterrupted run does, also when the latter fails |
| RunTheorems.ResumeWithinLimit | citra-workflow/citra_workflow/executor.py:814-816 | restored nodes count as steps, and yet the step limit of a graph that fits it cannot be hit by a resumed run |
| RunTheorems.ApprovalResumeCoversIff | citra-workflow/citra_workflow/executor.py:815-821 | a run resumed after an approval records every node if and only if each node ready at the pause is a child of the paused node |
| Counterexamples.ApprovalResumeCanLoseABranch | citra-workflow/citra_workflow/executor.py:815-821 | a paused run that, once approved, finishes without a node of an independent branch |
| Counterexamples.CrashResumeCanDiffer | citra-workflow/citra_workflow/executor.py:835-1023 | a run that, interrupted, executes a node which the uninterrupted run skips |
| Counterexamples.RestoredSkipCanFail | citra-workflow/citra_workflow/executor.py:799-833 | a run that, interrupted, fails at a join which the uninterrupted run completes, though all that is left is replayable |
| Graphs.AcyclicIffRanked | citra-workflow/citra_workflow/router.py:483-498 | a finite graph has no cycle if and only if its nodes can be numbered along its edges |
| LeaderLease.ExclusiveIff | citra-workflow/citra_workflow/scheduler.py:223-318 | at most one leader over all runs if and only if leaders act before the lease ends and a re-entry finds enough of the lease left |
| LeaderLease.CodeIsNotExclusive | citra-workflow/citra_workflow/scheduler.py:258-285 | with a re-entry that extends nothing, no heartbeat interval makes leadership exclusive |
| LeaderLease.StaleLeaderIsGone | citra-workflow/citra_workflow/scheduler.py:290-318 | whoever has lost the lease is no leader any more when the renewal interval has passed, over any run in which it does not come in again |
| LeaderLease.LeaderlessIsTaken | citra-workflow/citra_workflow/scheduler.py:223-285 | when all leaders are gone, any instance can lead after at most one lease time |
| CronFire.OncePerMinuteIff | citra-workflow/citra_workflow/scheduler.py:717-812 | over all runs, replicas and leader changes at most one execution per workflow and minute is inserted if and only if the fire lock lasts 60 seconds plus the delay before it is taken |
| CronFire.NeverOverlapsIff | citra-workflow/citra_workflow/scheduler.py:872-931 | no scheduled execution starts beside a scheduled one in flight if and only if the overlap lock cannot error and cannot expire before the insert, neither by its own nor by the renewed lifetime |
| CronFire.FreeMinuteIsServed | citra-workflow/citra_workflow/scheduler.py:717-931 | a fire whose minute and overlap lock are free, with nothing in flight, inserts exactly one execution of its minute |
| CronFire.LatecomersStop | citra-workflow/citra_workflow/scheduler.py:740-931 | whoever finds the minute claimed, the overlap lock held or an execution in flight inserts nothing, and in the last case gives the overlap lock back |
| CronFire.LiveLocksAreTheOwners | citra-workflow/citra_workflow/scheduler.py:740-812 | a live fire or overlap lock is moved by its owner only |
| ApprovalRace.ResolvedOnceIff | citra-workflow/citra_workflow/router.py:1986-2033 | at most one resume decision is enqueued per pause over all interleavings of approve, reject, cancel, timeout, sweep and workers if and only if a decider's time and a job's time to the next stored status together stay within the sweep's cutoff |
| ApprovalRace.TerminalIsFinalIff | citra-workflow/citra_workflow/router.py:2064-2164 | a cancelled, timed-out or finished run is never revived, and no resume is enqueued for it, if and only if the same bound holds |
| ApprovalRace.NeverTwoWorkersIff | citra-workflow/citra_workflow/scheduler.py:1073-1078 | over all runs no two workers run the execution at the same time if and only if the same bound holds |
| ApprovalRace.RejectionsHoldIff | citra-workflow/citra_workflow/scheduler.py:1073-1204 | a rejected pause is never passed if and only if no worker can die with the rejecting job and the same bound holds |
| ApprovalRace.OvertakenRejectionIsPassed | citra-workflow/citra_workflow/scheduler.py:1073-1078 | the run in which the sweep's job, added beside a live one, passes a pause that was rejected |
| ApprovalRace.CancelledRunComesBack | citra-workflow/citra_workflow/router.py:2007-2033 | the run in which a decider's rollback turns a cancelled execution back into a paused one |
| ApprovalRace.CancelledForGood | citra-workflow/citra_workflow/router.py:2128-2141 | a paused run that is cancelled is CANCELLED after any later steps, and its pause is never decided (while the bound holds) |
| ApprovalRace.NoPauseOutlastsCancel | citra-workflow/citra_workflow/router.py:2128-2164 | however late the second half of a cancel comes, the run is not paused afterwards; a decision made in between stands with the request on record |
| ApprovalRace.ExpiryEndsPause | citra-workflow/citra_workflow/scheduler.py:1315-1337 | the approval timeout fails a paused run, and leaves any other alone |
| ApprovalRace.FirstWins | citra-workflow/citra_workflow/router.py:1986-2006 | over any run of decision requests the first compare-and-set takes the pause with its own verdict, and whoever comes later is dropped |
| ApprovalRace.DecisionIsCarriedOut | citra-workflow/citra_workflow/router.py:1986-2033 | an approval of a paused run puts exactly one worker behind the pause; a rejection ends the run as failed with nothing run |
| ApprovalRace.LostDecisionReopens | citra-workflow/citra_workflow/router.py:2007-2033 | a decision that cannot be enqueued opens the same pause again, with no job |
| ApprovalRace.SweepObeysRequest | citra-workflow/citra_workflow/scheduler.py:1094-1117 | after a request to cancel, however long ago, the sweep ends an overdue run as CANCELLED and cannot resume it |
| CrashResume.ResumesBoundedIff | citra-workflow/citra_workflow/scheduler.py:1094-1204 | at most the configured number of crash resumes per execution over all runs if and only if sweeps do not overlap (or the number is 0) |
| CrashResume.SweepProgress | citra-workflow/citra_workflow/scheduler.py:1094-1204 | an undisturbed sweep of a stale run ends it, as CANCELLED if a cancel was requested, or uses up one attempt; a failed enqueue leaves status and count as they were |
| CrashResume.CancelWins | citra-workflow/citra_workflow/scheduler.py:1094-1130 | after a cancel request at most the sweeps already under way can still enqueue a resume, and none that starts later |
| CrashResume.SweepDecides | citra-workflow/citra_workflow/scheduler.py:1094-1165 | an undisturbed sweep cancels exactly if a cancel was requested, fails a test of the assistant's or a run without attempts left, and otherwise resumes |
| DeployLineage.NextKeepsLineage | citra-workflow/citra_workflow/router.py:3433-3519 | every operation keeps the deployed version the largest snapshot number, at most `keep` snapshots, all of valid graphs, and raises the largest number by one exactly if it issues a version |
| DeployLineage.LineageAlways | citra-workflow/citra_workflow/router.py:3541-3684 | the same over every history, and a snapshot still stored is the one that was taken |
| DeployLineage.NumbersNeverReused | citra-workflow/citra_workflow/router.py:3473-3519 | a new version gets the number after the largest ever issued, whatever was pruned or deleted in between |
| DeployLineage.RollbackRestores | citra-workflow/citra_workflow/router.py:3861-3924 | a rollback restores the graph once deployed under that number, and a live one also puts exactly that graph on top of the lineage |
| DeployLineage.RollbackNeverInvalid | citra-workflow/citra_workflow/router.py:3829-3860 | rolling back is refused only for a missing version or, when live, a failed environment check |
| DeployLineage.DeployedIff | citra-workflow/citra_workflow/router.py:3541-3684 | over every history a workflow is live if and only if the last accepted deploy or undeploy was a deploy, or it was live before and there was none |
| DeployLineage.LiveIsLastWritten | citra-workflow/citra_workflow/router.py:3829-3935 | over every history the live content is that of the last accepted edit or rollback |
| DeployLineage.DeployDeploys | citra-workflow/citra_workflow/router.py:3600-3684 | right after an accepted deploy the workflow is live under the next number, whose snapshot is exactly its content |
| DeployLineage.LineageIsLeftAlone | citra-workflow/citra_workflow/router.py:3665-3680 | undeploying, editing and rolling back a draft leave lineage and deployed version alone; a delete takes exactly one version |
| DeployLineage.DeletedNeverReturns | citra-workflow/citra_workflow/router.py:3798-3826 | a deleted version is gone over every later history |
| DeployLineage.DropsOnlyOldest | citra-workflow/citra_workflow/router.py:3433-3455 | retention keeps as many snapshots as it may, and every one dropped is older than every one kept |
| DeployLineage.KeptAreNewest | citra-workflow/citra_workflow/router.py:3433-3455 | the first `keep` of the numbers sorted downwards are those with fewer than `keep` above them |
| DeployLineage.StoredWorkflow.PruneOldVersions | citra-workflow/citra_workflow/router.py:3433-3455 | keeps exactly the newest `keep` snapshots and the protected one |
| DeployLineage.StoredWorkflow.AppendSnapshot | citra-workflow/citra_workflow/router.py:3473-3519 | appends under the next number, then prunes with that number protected |
| DeployLineage.StoredWorkflow.Deploy | citra-workflow/citra_workflow/router.py:3541-3684 | the stored documents move as the lineage says; refused exactly for an empty or invalid graph or failed checks |
| DeployLineage.StoredWorkflow.Rollback | citra-workflow/citra_workflow/router.py:3829-3935 | the stored documents move as the lineage says, with the refusals of the endpoint |
| DeployLineage.StoredWorkflow.DeleteVersion | citra-workflow/citra_workflow/router.py:3798-3826 | deletes one snapshot, never the deployed one |
| FieldDiff.Walk | citra-workflow/citra_workflow/router.py:1110-1128 | the recursive walk over two values that differ to Python emits real differences at prefix-free paths, never none, and writing the after-values there gives the new value except where Python saw no difference |
| FieldDiff.FieldChanges | citra-workflow/citra_workflow/router.py:1093-1129 | the same for a node's type, label and config, and no entries exactly if they agree to Python |
| FieldDiff.SameIffEqual | citra-workflow/citra_workflow/router.py:1118-1123 | "different" is inequality in Python: lists item by item, objects field by field, truth values and numbers as numbers, all else by itself, at every depth |
| FieldDiff.MergedViewIsNewIff | citra-workflow/citra_workflow/router.py:1093-1129 | what the entries give equals the new node to Python, and exactly if and only if no field was replaced by another that Python holds for equal |
| FieldDiff.MergedIsNewIff | citra-workflow/citra_workflow/router.py:1110-1128 | the same for the config, at every depth |
| GraphDiff.DiffIsPatchIff | ui/components/WorkflowBuilder/WorkflowCanvas.js:1081-1172 | the canvas, given the diff, becomes the new one if and only if shared edge keys carry equal edges, a shared node that differs to Python has no field emptied and one that does not is unchanged, new nodes have a label and a config, and new edges name a handle that their source has |
| GraphDiff.NewEdgeGetsFirstOutput | ui/components/WorkflowBuilder/WorkflowCanvas.js:1147-1169 | an edge added without a handle comes back with the first output of its source |
| GraphDiff.NewEdgeGetsNamedOutput | ui/components/WorkflowBuilder/WorkflowCanvas.js:2055-2072 | one added under the name of an output ("out-N", "output_N", "false") that is no handle of its source comes back with that output |
| GraphDiff.FalsyGivesWay | ui/components/WorkflowBuilder/WorkflowCanvas.js:1100-1130 | null, false, zero and the empty string of a patch give way; empty lists and objects, which Python takes for empty, do not |
| GraphDiff.EditedById | citra-workflow/citra_workflow/ai_assistant.py:802-867 | by id an accepted node edit adds one node, changes one field by field, or removes one, and leaves all others as they were |
| GraphDiff.EdgesAfter | citra-workflow/citra_workflow/ai_assistant.py:860-899 | which edges there are after each accepted edit |
| GraphDiff.ConfigAfter | citra-workflow/citra_workflow/ai_assistant.py:836-852 | in an updated config a removed key is gone, a given one has the given value and any other is as it was |
| GraphDiff.EditKeepsWellFormed | citra-workflow/citra_workflow/ai_assistant.py:802-895 | every edit that rewrites no id keeps node ids unique and non-empty and edges attached |
| GraphDiff.EditsThenDiffIsPatchIff | citra-workflow/citra_workflow/ai_assistant.py:915-940 | after any sequence of such edits the proposed diff, applied to the canvas, gives the working copy back if and only if the change is patchable |
| GraphDiff.RelabelledEdgeIsLost | citra-workflow/citra_workflow/router.py:1031-1048 | removing an edge and adding it with another label is lost by the diff |
| GraphDiff.TrueToOneIsLost | citra-workflow/citra_workflow/router.py:1136-1140 | setting a field of a node's config from true to 1 is lost by the diff |
| GraphDiff.WorkingCopy.AddNode | citra-workflow/citra_workflow/ai_assistant.py:809-816 | appends the node, or refuses a missing or taken id and changes nothing |
| GraphDiff.WorkingCopy.UpdateNode | citra-workflow/citra_workflow/ai_assistant.py:819-857 | changes the first node with the id, merging config one level deep, or refuses an unknown id |
| GraphDiff.WorkingCopy.RemoveNode | citra-workflow/citra_workflow/ai_assistant.py:860-867 | removes the node and every edge at it, in place and in order |
| GraphDiff.WorkingCopy.AddEdge | citra-workflow/citra_workflow/ai_assistant.py:870-882 | appends the edge under its derived id, only between existing nodes |
| GraphDiff.WorkingCopy.RemoveEdge | citra-workflow/citra_workflow/ai_assistant.py:885-899 | removes exactly the matching edges and counts them |
| RateLimit.SlidingLimiter.Check | citra-workflow/citra_workflow/router.py:115-129 | grants if fewer than the limit of the bucket's grants are younger than the window, and records the grant; other keys are untouched |
| RateLimit.SlidingBound | citra-workflow/citra_workflow/router.py:115-129 | over any requests at most `maxRequests` are granted in any half-open interval of one window |
| RateLimit.CheckEach | citra-workflow/citra_workflow/router.py:115-129 | checking any history of requests against the limiter's own buckets grants within that bound |
| RateLimit.SlidingGrantIff | citra-workflow/citra_workflow/router.py:115-129 | over any history a request is granted if and only if fewer than the limit of the grants lie in the window that it ends |
| RateLimit.SharedCounter.Check | citra-workflow/citra_workflow/router.py:143-158 | counts up, starts a new expiring counter after expiry, grants within the limit |
| RateLimit.SharedBound | citra-workflow/citra_workflow/router.py:132-158 | over any requests at most `2 * maxRequests - 1` are granted in such an interval |
| RateLimit.CountEach | citra-workflow/citra_workflow/router.py:132-158 | checking any history of requests against the shared counter itself grants within that bound |
| RateLimit.CounterGrantsFirst | citra-workflow/citra_workflow/router.py:132-158 | a counter grants exactly the first `maxRequests` of the requests it counts, and refused ones do not prolong it |
| RateLimit.SharedBoundIsTight | citra-workflow/citra_workflow/router.py:132-158 | requests for which exactly that many are granted, for every limit |
| SandboxPool.InvAlways | services/sandbox_pool.py:160-274 | over every interleaving: containers unshared, the grow lock held by the one task in its section, in-use exact, the counter equal to what exists |
| SandboxPool.CreatedCountsContainers | services/sandbox_pool.py:183-245 | the counter is the number of containers idle, in use or in transit, and at most the maximum |
| SandboxPool.ClampsNeverFire | services/sandbox_pool.py:263-274 | the decrements never meet zero, so their clamps never act |
| SandboxPool.HeldByOne | services/sandbox_pool.py:209-274 | no container is held by two callers, nor queued, wiped or written off while held; every held one is in the in-use set |
| SandboxPool.AcquireTakesIdle | services/sandbox_pool.py:205-218 | a caller gets the container that has been idle longest |
| SandboxPool.DeadIsPassedOver | services/sandbox_pool.py:205-218 | one that died in the queue is written off, and the next is tried |
| SandboxPool.AcquireGrows | services/sandbox_pool.py:220-245 | with none idle and room for one more, a new one is created for the caller |
| SandboxPool.ReleaseReturns | services/sandbox_pool.py:260-274 | a released container joins the end of the queue |
| SandboxPool.BrokenIsWrittenOff | services/sandbox_pool.py:260-273 | one that cannot be wiped is written off, and a warm-up follows |
| SandboxPool.WarmupReachesMinimumIff | services/sandbox_pool.py:181-201 | an undisturbed warm-up creates half of what is missing, rounded up, while there is room, and so reaches the minimum if and only if at most one was missing, with room for it |
| SandboxPool.ReapOrphans | services/sandbox_pool.py:355-391 | destroys exactly the unknown containers that are this worker's own or not running |
| SandboxPool.SiblingIsReapedIff | services/sandbox_pool.py:355-391 | another worker's container is destroyed if and only if it has stopped and is unknown |
| SandboxPool.ReaperSparesPoolIff | services/sandbox_pool.py:393-421 | at one moment, the reaper spares the whole pool if and only if no container is being checked, written off or wiped |
| SandboxPool.NewContainerIsReaped | services/sandbox_pool.py:393-421 | a run in which the reaper destroys a container already handed to a caller |
| FileCache.DiskCache.GetOrDownload | services/sandbox_file_cache.py:69-136 | hit exactly if the sidecar has the current ETag and the file the sidecar's size; what is returned and what is on disk afterwards, also when a write fails; a file that was served or written has the time of the lookup, and no other file changes |
| FileCache.CurrentIff | services/sandbox_file_cache.py:77-136 | over all uploads, lookups and sweeps a hit always serves the object's current bytes if and only if HEAD and GET see one version and no sidecar write fails |
| FileCache.LookupIsCurrent | services/sandbox_file_cache.py:77-136 | then every lookup returns the current bytes, and a saved one makes the next lookup a hit |
| FileCache.StaleFileIsServed | services/sandbox_file_cache.py:59-66 | the run that serves old bytes after a lost sidecar write or a torn lookup |
| FileCache.DiskCache.ByAge | services/sandbox_file_cache.py:147-159 | sorts the entries oldest access first, then by size and name, and totals their sizes |
| FileCache.DiskCache.EvictIfOversize | services/sandbox_file_cache.py:139-165 | tries the shortest oldest-first prefix that brings its own total within the limit; failed deletes keep their files and count for nothing |
| FileCache.SweepOrderIsUseOrder | services/sandbox_file_cache.py:91-165 | over every history of lookups and sweeps, oldest first is least recently used first: of two files the sweep tries the one last used later |
| FileCache.SweepLeaves | services/sandbox_file_cache.py:139-165 | after a sweep without failures the disk holds exactly the untried files, unchanged and within the limit, with their sidecars |
| FileCache.SweepSpares | services/sandbox_file_cache.py:139-165 | whatever fails, a file stays if and only if it was not tried or cannot be deleted, and its sidecar with it or if it cannot be deleted itself |
| FileCache.CountIsOnDisk | services/sandbox_file_cache.py:139-165 | what the sweep counts down to is never less than what is on the disk, and exactly that unless a deleted file's sidecar is stuck |
| FileCache.SweepIsShortest | services/sandbox_file_cache.py:139-165 | if every delete succeeds, the rest fits the limit and no shorter oldest-first prefix would have done |
| Ancestors.DepthIsShortest | citra-workflow/citra_workflow/workflow_context_extractor.py:103-109 | the recorded depth of a node is at most the length of any backward walk to it |
| Ancestors.AllAncestors | citra-workflow/citra_workflow/workflow_context_extractor.py:89-111 | terminates on any finite graph and returns, once each and nearest first, exactly the nodes with a non-empty path to the node |
| LicenseHeaders.HeaderSpan | scripts/license_headers.py:156-191 | the scanning loops find the span that the first tag decides |
| LicenseHeaders.InsertionPoint | scripts/license_headers.py:260-285 | the header goes after a shebang, an encoding line, an XML declaration or closed front matter |
| LicenseHeaders.StampFile | scripts/license_headers.py:288-353 | the new lines, and whether the file changed or, in a check, would be reported |
| LicenseHeaders.RenderedIsCanonical | scripts/license_headers.py:247-255 | every printed header, in each comment style and for every wording clear of the marks, carries the marks the locator looks for where it looks for them, and no others |
| LicenseHeaders.HeaderIsFoundIff | scripts/license_headers.py:156-191 | in a stamped file the locator finds the inserted block, all of it and nothing else, if and only if its tag is within the scanned lines |
| LicenseHeaders.StampingIsIdempotentIff | scripts/license_headers.py:326-353 | stamping twice is stamping once if and only if the file was empty or marked, or the inserted tag is within the scanned lines |
| LicenseHeaders.RewritingIsNoopIff | scripts/license_headers.py:313-353 | rewriting a stamped file changes nothing if and only if the tag is in sight and the gap after the header is one empty line, followed by text, that holds no line back from the top (or none was there) |
| LicenseHeaders.OldHeaderSpan | scripts/license_headers.py:156-191 | a header of the old kind is located from its notice to its tag, or to the comment tokens around them |
| LicenseHeaders.OldHeaderIsReplaced | scripts/license_headers.py:313-353 | a rewrite takes exactly that off, with one blank line after it, and stamps what is left |
| LicenseHeaders.ForeignTagIsLeft | scripts/license_headers.py:156-191 | a file whose first tag is somebody else's has no header of ours to cut |
| LicenseHeaders.StampOnlyInserts | scripts/license_headers.py:326-353 | a stamp deletes and moves no line |
| LicenseHeaders.TopStaysOnTop | scripts/license_headers.py:260-285 | a shebang with its encoding line, an encoding line, an XML declaration and closed front matter stay on top; otherwise the header comes first |
| LicenseHeaders.StampedUnlessBlank | scripts/license_headers.py:294-326 | a file is left without a header if and only if all its lines are blank or one of the first fifteen has the marker |
| LicenseHeaders.OurTagsAreFound | scripts/license_headers.py:147-148 | each of the three licences is recognised wherever in the line and however far from the marker |

## Left out

- Execution and node time limits of the executor; a node that runs into its limit is one that returns an error.
- The `variables` that nodes may share and emit: node bodies are functions of their gathered input.
- Executor.Execute: the integer in a switch handle is not parsed from text; an edge carries the route it stands for.
- Branch tokens: ASCII letters and blanks only, no Unicode case folding or whitespace.
- Progress updates, notifications, blob clean-up, the concurrency slot, metrics, logging and role checks.
- Engine.Confluence: states nothing about a run that a failure, pause or cancel cut short; for those StoppedRunsAgree does.
- RunTheorems.CrashResumeExact: a stored output is read back as it was; the code turns tuples, sets, dates and enums into other values when it stores them (executor.py:44-63).
- The executor's unconditional save of the whole document is a step of `ApprovalRace.dfy`; in the other protocols late workers do not overwrite a terminal status.
- The cluster without a shared store, in which every instance leads.
- LeaderLease.ExclusiveIff: the lease store has one clock and never loses a key early.
- CronFire.OncePerMinuteIff: replicas read one clock; a job reads it at most `delay` before it takes the lock.
- CronFire.NeverOverlapsIff: scheduled runs only. A manual or webhook run that is inserted between the check and the insert is not a step, and nothing keeps it out. An execution in flight stays in the collection that the check reads until it is terminal.
- ApprovalRace.ResolvedOnceIff: the crash sweep's compare-and-set and enqueue are one step there and its attempts are not counted; `CrashResume.dfy` models both. An approval record is never marked resolved by an approval, so its timeout is possible in any later pause.
- ApprovalRace.RejectionsHoldIff: a job that was lost is not delivered again, and the run's first worker is at work from the start.
- CrashResume.ResumesBoundedIff: pauses and approvals of the run are single steps there, and staleness is not modelled: a sweep may take any running or resuming execution for abandoned.
- Queue redelivery and the worker's own deduplication.
- DeployLineage.LineageAlways: operations are serial, so a crash between the snapshot's insert and the version field's update, and concurrent deploys, are not covered; neither are duplicating, archiving, deleting and restoring a workflow, nor a workflow whose version field was set from outside.
- FieldDiff.Walk: the before- and after-values are not truncated for display; numbers are integers, so that 1 and 1.0, which Python and JavaScript both hold for equal, are one.
- FieldDiff.FieldChanges: the same, and the order of the paths is not stated.
- GraphDiff.DiffIsPatchIff: positions and the order of nodes and edges are not compared, every edge has an id, and which output handles a node of a type and config has is a parameter. Target handles are not compared: the canvas gives an edge that was added without one the handle "in-0".
- GraphDiff.EditsThenDiffIsPatchIff: the canvas is compared by id. AddEdge twice with the same endpoints and handle leaves two entries with one id in the working copy, of which the diff sees the last.
- GraphDiff.EditKeepsWellFormed: an update that rewrites the node's own id is excluded; the code accepts one and can then leave edges dangling or ids equal.
- GraphDiff.WorkingCopy.UpdateNode: the changes are already parsed; the code applies the fields before an unparsable config and then reports an error. Merging into a config that is neither an object nor empty gives the new fields here, while the code raises. Workflow-level settings edits touch neither nodes nor edges.
- RateLimit.SharedBound: no store errors (the code then lets every request through) and a counter that expires exactly on time.
- SandboxPool.InvAlways: cancellation of a task at an await point, pool shutdown, the daemon wait and the reap with which a warm-up starts while the pool has no container are not steps; the daemon's calls succeed or fail as a whole.
- SandboxPool.WarmupReachesMinimumIff: a warm-up during which no other task acts and every creation succeeds.
- FileCache.SweepOrderIsUseOrder: access times are the ones that lookups set (the code ignores it when that fails), no two lookups fall on one tick of the clock, and nobody else touches the files.
- FileCache.CurrentIff: lookups of one key do not overlap, digests of keys do not collide, and a file is not deleted between a hit and its use.
- LicenseHeaders.RenderedIsCanonical: the parts of the header that are not tested for are parameters, and the results are about wordings that `Clear` allows: no part has a character by which it could be mistaken for a mark.
- LicenseHeaders.StampFile: works on lines; decoding, byte-order mark, line endings, saved web pages, the legacy header's removal and the choice of files are left out, and blanks are the ASCII ones.
- Schema discovery, connection encryption, reference validation, prompt building, the webhook and role checks: branching field by field, with nothing to relate across functions.
