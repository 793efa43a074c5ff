# A verified model of tekton-sidekick's run handlers

tekton-sidekick serves the runs of a Tekton pipeline to a browser: a live event stream that follows
every task of a PipelineRun, a replay of runs that only the tekton-results archive still knows, and
a list of runs by label drawn from the cluster and the archive. This project models the five parts
of it that hold state or combine sources, and proves what they keep.

**The live stream** (`EventStream`, `WorkerOrder`, `EventStreamSafety`, `EventStreamProgress`, `TaskWorker`,
`StuckStreams`, `UnfollowedTasks`, `StreamShape`).
One worker per task sends items into an unbounded FIFO channel; one receiver counts `TaskDone`s,
numbers events, remembers failed tasks and finally emits a verdict. The system is a transition
system: a state holds every worker's program counter, the queue, the receiver's variables and the
output; an action is one step of one of them, a shutdown, or the client leaving. `Reachable` is every
state of every interleaving, for any number of workers and any environment. The answers of the
cluster come from a world, a cluster state per nanosecond. Every worker and the receiver have a
clock: what they read, they read one after another, and a read of a container is a step of its own.
Every await may be answered in any way the world allows, a poll ends as the polling loops do, and a
followed log ends when the world says. Discovery and refresh may see the cluster change under them.
Safety, conservation, the exact deadlocks, progress, per-task order and the verdict are proved over
all of it. `RunTaskWorker` and `ReceiveLoop` are the loops themselves, proved against specification
functions that are proved to be paths of the transition system.

**Polling** (`Polling`, `StepLogStream`). The five waiting loops, with their exact end and bounds on
the number of calls. A sleep lasts at least its interval; the clock is otherwise free.

**Runs by label** (`LabelSelector`, `RunsByLabel`, `ClusterSelector`). The selector's parser and
printer, the archive query with its placeholders and bound values, the live-first merge of two capped
lists, and what the cluster makes of the printed selector by Kubernetes' own grammar.

**One run, three readers** (`RunDiscovery`, `RunArchive`, `ArchivedMeta`, `ArchivedLogs`). Discovery
from the cluster, refresh of one task, and reconstruction from the archive build the same task
records from overlapping data. The archive side also merges proxy TaskRuns and log streams.

**The auth hook** (`AuthHook`). A cooldown cell under a lock, and how often it can admit.

`Sequences`, `Text` and `StableSort` hold the sequence, string and sorting theory these rest on, and
`RunModel` and `TektonApi` the records. Kubernetes, Postgres and Loki are parameters: a cluster is
the answers it gives, an archive is a list of records and the queries that fail, Loki is a list of
streams. Times are nanoseconds.

Where the source's comments and its code differ, the model follows the code:

- `src/handlers/runs_by_label.rs:20-23` expects the merged list to fall short of `limit` when the two
  slices overlap. Its length is `limit` or the number of distinct names in the two slices, whichever
  is less (`RunsByLabel.MergeGuarantees`), so with unique names a full slice makes it full
  (`RunsByLabel.FullExactlyWhen`) and capping never shortens it (`RunsByLabel.CappingKeepsLength`).
  An archive that repeats a name can (`RunsByLabel.RepeatedArchiveNamesBreakPushdown`); when it does,
  `RunsByLabel.CappingShortensExactly` says.
- The same comment treats capping each source before the merge as a matter of speed. It can change
  which runs are shown: `RunsByLabel.PushdownIsExact` says for which inputs, and
  `RunsByLabel.TimesDecidePushdown` that it comes down to an archived copy newer than its live run.
- `src/handlers/runs_by_label.rs:95-96` calls the archive's condition the same as the cluster's
  selector. It is for keys and values that labels can have (`ClusterSelector.HalvesAskForTheSameRuns`),
  and otherwise only where both ask for the impossible (`ClusterSelector.SelectorMeansPairsExactly`).
  The service knows no operator but `=`: it prints `k!=v` and `k==v` as it got them, the archive is
  asked for a label `k!` and a value `=v`, and the cluster reads "not `v`" and "`v`"
  (`ClusterSelector.NotEqualIsReadByCluster`, `ClusterSelector.DoubleEqualIsReadByCluster`).
- `src/handlers/step_log_stream.rs:26-29` documents `AlreadyTerminated` as the case of a container
  that never showed up; the code returns it for a terminated container.
- `src/handlers/run_discovery.rs:377-379` says the placeholder name of a CustomRun lets `refresh_task`
  find it later. A worker polls only for an empty name, so no log line or step status of such a task
  ever comes (`UnfollowedTasks.MissingProxyIsNeverFollowed`); a task listed without steps is followed
  exactly if it is listed without a name and starts (`UnfollowedTasks.FollowedExactlyIfPolled`). In
  `UnfollowedTasks.ProxyStartsUnnoticed` the proxy runs while the client is told "TaskRun disappeared".
- `src/handlers/step_log_stream.rs:33-34` says that the wait for a container gives up at some point;
  `:61-63` retries a 401 without counting it, so it need not (`StepLogStream.WaitsForeverOnlyOn401s`).
  A worker is blocked if from now on the container it waits for only answers 401, or if the log it
  follows is not over from now on; a live stream can go on by itself exactly unless nothing is queued
  and every unfinished worker is blocked (`EventStreamProgress.DeadlockExactly`). It happens on a
  container that is refused from the start, on one refused once the worker gets to it, and on one
  that runs on in silence (`StuckStreams.RefusedHangs`, `ExpiredHangs`, `SilentHangs`).

## Model

| member | source | states |
|---|---|---|
| `EventStreamSafety.ApplyKeepsInv` | src/handlers/run_event_stream.rs:127-204 | Every action of a worker, the receiver, the shutdown or the client keeps the invariant: FIFO channel, workers in grammar, counters, output, drained after the loop. |
| `EventStreamSafety.ReachableInv` | src/handlers/run_event_stream.rs:127-204 | The invariant holds in every state of every interleaving. |
| `EventStreamSafety.Conservation` | src/handlers/run_event_stream.rs:138-185 | While the receiver lives, `tasks_remaining` is the workers that have not sent `TaskDone` plus the `TaskDone`s still queued, and a `TaskDone` never takes it below zero. |
| `EventStreamSafety.ChannelNeverCloses` | src/handlers/run_event_stream.rs:148-157 | The receiver never finds the channel closed with tasks remaining, in any interleaving. |
| `EventStreamSafety.EndsEarlyOnlyOnRequest` | src/handlers/run_event_stream.rs:148-157 | A stream that ends without `done` was shut down or left by its client. |
| `EventStreamProgress.WaitEndsUnlessNeverReady` | src/handlers/step_log_stream.rs:35-74 | A wait for a container, begun at any time, can end exactly unless no read of it from then on settles the wait and no sixty reads, two seconds apart, are counted. |
| `EventStreamProgress.NeverReadyIsA401` | src/handlers/step_log_stream.rs:61-71 | Such a container answers only 401 from some time on; and one that does from the start is such a container. |
| `EventStreamProgress.WorkerCanStep` | src/handlers/run_event_stream.rs:221-356 | A worker that has neither stopped nor aborted has an enabled action of its own, without a shutdown, a log line or a refused read, unless it is blocked: it waits for a container that only answers 401 from its own time on, or follows a log that is not over from then on. |
| `EventStreamProgress.BlockedWorkerWaits` | src/handlers/run_event_stream.rs:265-325 | A blocked worker can do nothing but pass on a log line, be refused again or see a shutdown, and stays blocked without one. |
| `EventStreamProgress.DeadlockExactly` | src/handlers/run_event_stream.rs:144-204 | In every reachable state, while the receiver lives, it or some worker can move without a shutdown, a log line or a refused read exactly unless nothing is queued and every unfinished worker is blocked; and then some worker is. |
| `StuckStreams.RefusedHangs` | src/handlers/step_log_stream.rs:61-63 | A concrete run, listed by discovery, whose stream comes to such a state: its step's container answers only 401, and the answers keep a wait going forever. |
| `StuckStreams.ExpiredHangs` | src/handlers/step_log_stream.rs:61-63 | Another, whose credentials expire while the first step runs: that step's log and status still come, and then the wait for the second step's container, which could once be read, never ends. |
| `StuckStreams.SilentHangs` | src/handlers/run_event_stream.rs:307-325 | A third, whose running step is followed and never ends. |
| `EventStreamProgress.ApplyCosts` | src/handlers/run_event_stream.rs:127-356 | Every action uses up part of a potential, apart from log lines, refused reads and the steps of a task that starts late. |
| `EventStreamProgress.StreamsAreBounded` | src/handlers/run_event_stream.rs:127-356 | Every interleaving has at most five actions per task, 63 per step (sixty reads of its container among them), two per log line, one per 401 and three more: a stream runs on only while log lines or 401s come. |
| `EventStreamProgress.LeftAloneItCompletes` | src/handlers/run_event_stream.rs:127-356 | From any live state, without further log lines, refused reads, shutdown or disconnect, every schedule is bounded, and one that cannot go on has reached `done` or is stuck on blocked workers. |
| `EventStreamProgress.ShutdownIsSeen` | src/handlers/run_event_stream.rs:148-356 | In every reachable state, a shutdown is never waited out: a live receiver can end at once whatever it waits for, or has nothing left to wait for, and so can every worker that polls, waits or follows a log, a blocked one included; from a log it goes on to report the step, from anything else to `TaskDone`. |
| `EventStreamSafety.DrainedWhenNoneRemain` | src/handlers/run_event_stream.rs:145-147 | When no task remains, the channel is empty and every worker has stopped with all it said received, because `TaskDone` is a worker's last word. |
| `EventStreamSafety.NothingLost` | src/handlers/run_event_stream.rs:127-204 | After the loop the events yielded are everything the workers sent, in the order sent, `TaskDone` erased, between the meta event and the verdict. |
| `EventStreamSafety.RenderErases` | src/handlers/run_event_stream.rs:159-184 | Yielded payloads are the received items in order with `TaskDone` removed. |
| `EventStreamSafety.RenderIds` | src/handlers/run_event_stream.rs:140-184 | Live ids strictly increase, and an id is missing exactly where a `TaskDone` consumed it. |
| `EventStreamSafety.PerTaskOrder` | src/handlers/run_event_stream.rs:221-356 | At any moment, under any interleaving, what has come out of one worker is the beginning of its step groups in snapshot order and its task status. |
| `EventStreamSafety.CompletedStreamIsComplete` | src/handlers/run_event_stream.rs:228-356 | A stream that completes without a shutdown has, per resolved task, exactly one group per step and then one status; per task that never started, its one Pending status. |
| `EventStreamSafety.StreamNeverGoesBackwards` | src/handlers/run_event_stream.rs:327-338 | On a cluster whose uniquely named steps only advance, also while the run is discovered or a task refreshed, every status event of a live stream is at or after the status the step had in the task its worker started from. |
| `EventStreamSafety.VerdictIsHonest` | src/handlers/run_event_stream.rs:169-204 | The last event of a completed stream is `done` for the run. If a task was received as Failed, with whatever reason, it is Failed without a reason and the PipelineRun is not asked for; otherwise the cluster was asked after the last thing any worker did, and `done` is Succeeded exactly for "True", Failed exactly for "False", with the condition's reason, and Unknown else. |
| `EventStreamSafety.VerdictTimeoutHasWaited` | src/handlers/run_event_stream.rs:458-486 | "PipelineRun condition not finalized yet" closes a stream only if no failed task was received, and thirty seconds after a wait that began after the last thing any worker did, on an answer that decides nothing. |
| `EventStreamSafety.ReceivedIsGrounded` | src/handlers/run_event_stream.rs:228-354 | Every step status, task status and error received from a worker rests on reads of the cluster made in its turn: after the worker said the item before, and before it said this one. |
| `EventStreamSafety.FailedTaskWasRead` | src/handlers/run_event_stream.rs:169-177 | A task is shown as Failed only by the worker that follows it, and only if the cluster, in that worker's turn, gave its own TaskRun as "False". |
| `EventStreamSafety.NeverStartedHasReason` | src/handlers/run_event_stream.rs:378-401 | "Task never started" is shown, as Pending, only after a refresh that found the task neither with steps nor Succeeded nor Failed, and after the PipelineRun was read as there and not "Unknown", or four hours: while it reads "Unknown", nothing else ends the poll. |
| `EventStreamSafety.TimeoutHasSixtyReads` | src/handlers/run_event_stream.rs:277-285 | The text of a timeout error names the followed task and one of its steps; it comes only after sixty reads of the step's container that were not refused, over at least 118 seconds, none of which showed it running or terminated, all made between the worker's item before and the error. |
| `EventStreamSafety.TaskStatusWasRead` | src/handlers/run_event_stream.rs:429-456 | The status of a followed task is what the cluster gave its own TaskRun as in the worker's turn: Succeeded exactly for "True", Failed exactly for "False", with the condition's reason; "TaskRun disappeared" for one that was gone; and the timeout only for an undecided answer ten minutes after the final wait began. |
| `EventStreamSafety.StepStatusWasRead` | src/handlers/run_event_stream.rs:327-338 | The status and reason sent for a step are those of the first of five reads in the worker's turn that found the step terminated, Succeeded for exit code 0 and Failed for any other; without one, of the fifth read; and the listed ones if that did not find the step. |
| `EventStreamSafety.LogsAreOpenedAsRead` | src/handlers/run_event_stream.rs:258-305 | In every reachable state, the log a worker streams is followed unless the step was listed as finished; of a step listed as Pending, its container was read since the worker's last status or error, as running and not terminated if the log is followed, as terminated if not. |
| `EventStreamSafety.EveryLineIsPassedOn` | src/handlers/run_event_stream.rs:307-325 | Over every run that has not ended early: the log lines sent for a worker are the lines it was given, text and timestamp, once each and in order; after the loop they have all been received. |
| `UnfollowedTasks.NamedWithoutStepsIsNeverFollowed` | src/handlers/run_event_stream.rs:228-251 | From a task listed with a TaskRun name and no steps, one status is all that is ever received: what a TaskRun of that name is said to be. |
| `UnfollowedTasks.MissingProxyIsNeverFollowed` | src/handlers/run_discovery.rs:371-386 | A CustomRun child that discovery did not see a proxy of is such a task, in every reachable state, whenever the proxy starts, also if that is during discovery. |
| `UnfollowedTasks.FollowedExactlyIfPolled` | src/handlers/run_event_stream.rs:228-251 | A task listed without steps can get steps to follow exactly if it is listed without a name and some later refresh finds it with steps. |
| `UnfollowedTasks.ProxyStartsUnnoticed` | src/handlers/run_discovery.rs:371-386 | A concrete cluster and stream in which the proxy TaskRun is running while the client is told that the TaskRun disappeared. |
| `WorkerOrder.StepKeepsOrder` | src/handlers/run_event_stream.rs:258-356 | Every statement of a worker keeps what it has said in step with where it is in the code; only a shutdown makes it say less. |
| `WorkerOrder.ConcludedIsCompleteRun` | src/handlers/run_event_stream.rs:258-356 | The grammar automaton accepts exactly the sequences of one group per step (a timeout error, or log lines closed by a status) followed by one task status. |
| `WorkerOrder.RefreshedIsGrounded` | src/handlers/run_discovery.rs:442-510 | The steps of a refreshed task were read from the TaskRun the task names, by the end of the refresh, whatever changed during it. |
| `WorkerOrder.DiscoveredIsGrounded` | src/handlers/run_discovery.rs:264-399 | The steps of every discovered task were read from the TaskRun the task names, by the end of discovery, whatever changed during it. |
| `WorkerOrder.PollEndsWait` | src/handlers/step_log_stream.rs:35-74 | A worker's read that ends its wait ends it as the loop does, on the reads made since it came to the step. |
| `WorkerOrder.StepKeepsForward` | src/handlers/run_event_stream.rs:228-338 | No action of a worker makes it report a step behind the status it started from, a resolved start included. |
| `EventStream.ReceiveLoop` | src/handlers/run_event_stream.rs:140-185 | The receive loop yields the rendered prefix it consumed, stops exactly when no task remains, and otherwise stops only on shutdown or an empty closed channel; it remembers a failed task exactly if a task status it consumed says Failed. |
| `EventStream.StartPollIsAction` | src/handlers/run_event_stream.rs:228-243 | However the start poll ends on answers of the cluster, that is an action of the worker: the refreshed task, or giving up. |
| `TaskWorker.WaitPath` | src/handlers/run_event_stream.rs:265-290 | However the wait for a container ends on answers of the cluster, with its sleeps, its reads are actions of the worker one after another, and lead it to where the loop's result does, at the time of the last read. |
| `EventStream.FinalWaitIsAction` | src/handlers/run_event_stream.rs:341-348 | However the final wait of a worker ends on answers of the cluster, that is an action of the worker, and what it sends is the wait's result. |
| `EventStream.VerdictWaitIsAction` | src/handlers/run_event_stream.rs:190-195 | However the final wait of the receiver ends on answers of the cluster, that is a step of the system, and what it emits is the wait's result. |
| `TaskWorker.RunTaskWorker` | src/handlers/run_event_stream.rs:221-356 | For any answers, shutdown and lost receiver, the worker's code attempts exactly its conversation and `TaskDone`, cut after the first log or status send that fails. |
| `TaskWorker.RunTask` | src/handlers/run_event_stream.rs:258-354 | The step loop and the final wait attempt the task's items in step order, and go on to `TaskDone` exactly if no log or status send failed. |
| `TaskWorker.RunStep` | src/handlers/run_event_stream.rs:258-339 | One pass: a shutdown while waiting says nothing and quits, a timeout says one error and moves on, anything else streams the step; its log is followed unless the container was seen to have terminated. |
| `TaskWorker.StreamStep` | src/handlers/run_event_stream.rs:307-338 | A step's lines are followed by its fresh status, or the snapshot's if none was read; a failed send aborts. |
| `TaskWorker.SendLines` | src/handlers/run_event_stream.rs:307-325 | The log loop attempts the lines in order under the step's name, up to the first that fails. |
| `TaskWorker.AttemptedConcat` | src/handlers/run_event_stream.rs:314-338 | Cutting at the first failed vital send distributes over concatenation, with the sends already used up. |
| `TaskWorker.AttemptedUpToLoss` | src/handlers/run_event_stream.rs:314-338 | What is attempted is a beginning of the items: all, unless a log line or step status is not taken, which is then the first such and the last item. |
| `TaskWorker.DoneUnlessLost` | src/handlers/run_event_stream.rs:314-355 | A worker ends with `TaskDone` exactly unless a log line or step status was not taken; a lost error or task status does not keep it from it. |
| `TaskWorker.ProgramIsPath` | src/handlers/run_event_stream.rs:221-356 | What the worker's code attempts is what some path of the transition system's worker says from the snapshot to the end of the code; so it is in order, and complete without a shutdown or a failed send. |
| `StreamShape.Open` | src/handlers/run_event_stream.rs:31-74 | A request is answered live first, from the archive only on NotFound, and refused with the source's message otherwise. |
| `StreamShape.ReplayedWhenOnlyArchived` | src/handlers/run_event_stream.rs:31-74 | A run is replayed exactly when the cluster does not know it and the archive has it as terminal, and streamed live exactly when discovery succeeds. |
| `StreamShape.RefusalsSay` | src/handlers/run_event_stream.rs:34-73 | A refusal carries the cluster's error; or, for a run the cluster does not know, that the archive has it neither, that it is not yet terminal there, or the database's error. |
| `StreamShape.FetchReplayLines` | src/handlers/run_event_stream.rs:86-104 | The replayed lines are the archive's merged lines, or none if the fetch fails. |
| `StreamShape.YieldReplay` | src/handlers/run_event_stream.rs:107-123 | A replay is meta, the first lines up to a shutdown numbered from `log-0`, and `done` with the archived status and reason. |
| `StreamShape.ReplayIsWhole` | src/handlers/run_event_stream.rs:76-123 | Event `k + 1` of a replay is line `k` with id `log-k`, for every line up to the shutdown, and for all of them without one, between the run and its archived end. |
| `StreamShape.ReplayShowsEveryLine` | src/handlers/run_event_stream.rs:86-104 | The lines of a replay are exactly the values of Loki's streams that clean to something, each as often as it occurs, cleaned and remapped; none if a fetch fails. |
| `StreamShape.EveryStreamIsWellShaped` | src/handlers/run_event_stream.rs:27-206 | Every stream is a lone error, the refusal, or the run as it was found and then events of which at most one is `done`, the last; ids increase. |
| `StreamShape.ClosingEventIsHonest` | src/handlers/run_event_stream.rs:118-204 | `done` names the run asked for. In a replay it is the archived status, Succeeded or Failed, and reason; live it is Failed without a reason if the stream shows a task as Failed, and else what the cluster gave the PipelineRun as. |
| `Polling.WaitForTaskRunTerminalStatus` | src/handlers/run_event_stream.rs:429-456 | The wait ends with the first deciding answer or the first late one, after at most 301 polls. |
| `Polling.WaitForPipelineRunTerminalStatus` | src/handlers/run_event_stream.rs:458-486 | The wait ends with the first deciding answer or the first late one, after at most 16 polls. |
| `Polling.VerdictIsRead` | src/handlers/run_event_stream.rs:458-486 | The wait says Succeeded exactly when its last answer reads "True", Failed exactly when it reads "False", with the condition's reason, and Unknown otherwise, with the reason of a timeout only after thirty seconds; every answer before it decided nothing and was in time. |
| `Polling.TaskStatusIsRead` | src/handlers/run_event_stream.rs:429-456 | The same of the wait for a TaskRun, with ten minutes and "TaskRun disappeared". |
| `Polling.PollForTaskStart` | src/handlers/run_event_stream.rs:360-405 | The start poll ends with the first started task, decided PipelineRun or late round, after at most 7201 polls; it checks the PipelineRun on every fifteenth round that finds no started task, and at most 481 times. |
| `Polling.StartPollReasons` | src/handlers/run_event_stream.rs:378-401 | The poll returns a task exactly when its last round found that task with steps, Succeeded or Failed; else four hours had passed, or in a round that is a multiple of fifteen the PipelineRun was there and did not read "Unknown", a missing condition included; no earlier round had any of these. |
| `Polling.PollFreshStepStatus` | src/handlers/run_event_stream.rs:407-427 | The retries return the first terminal read, else whatever the fifth attempt read. |
| `Polling.FreshStepIsRead` | src/handlers/run_event_stream.rs:407-427 | The retries give the first read of a Succeeded or Failed step; without one, the fifth read, also if it found nothing. |
| `Polling.FreshOrIsRead` | src/handlers/run_event_stream.rs:327-338 | From the cluster's TaskRuns to the status sent: the first read that found the step terminated, else the fifth, else the step itself. |
| `Polling.EndIsUnique` | src/handlers/run_event_stream.rs:429-486 | The specification of a polling loop admits one number of polls and one result. |
| `Polling.NoStepGoesBackwards` | src/handlers/run_event_stream.rs:327-338 | On a cluster whose steps only advance, the status sent for a step, fallback included, is at or after the one started from. |
| `Polling.RefreshedStepAdvances` | src/handlers/run_discovery.rs:415-425 | On such a cluster a later refresh of a step never shows an earlier phase. |
| `Polling.TerminalReadIsReported` | src/handlers/run_event_stream.rs:415-423 | A terminal status seen by any of the five reads is the one reported. |
| `StepLogStream.WaitForContainerReady` | src/handlers/step_log_stream.rs:35-74 | The wait ends at the first settled state or the sixtieth counted answer, 401s not counted, if 401s are finite. |
| `StepLogStream.WaitMeans` | src/handlers/step_log_stream.rs:35-74 | A wait ends with a call exactly if no answer before showed the container running or terminated and fewer than sixty were not 401s; and this one shows it running and not terminated (ready), or terminated (already terminated), or shows neither and is the sixtieth that is not a 401 (timed out). |
| `StepLogStream.WaitsForeverOnlyOn401s` | src/handlers/step_log_stream.rs:61-71 | The wait never ends exactly when from some call on every answer is a 401. |
| `StepLogStream.EndIsUnique` | src/handlers/step_log_stream.rs:35-74 | The specification of the wait admits one number of calls and one result. |
| `StepLogStream.StampRoundTrip` | src/handlers/step_log_stream.rs:134-142 | A stamped line splits back into stamp and text exactly when the stamp looks like one and the text is not indented. |
| `StepLogStream.StampIsRecognised` | src/handlers/step_log_stream.rs:134-142 | A first word in ASCII is split off exactly if it has twenty characters, a `T` among them, and ends in `Z` or holds a `+`. |
| `StepLogStream.NothingButWhitespaceIsLost` | src/handlers/step_log_stream.rs:134-142 | Splitting a line at its first space loses nothing but whitespace after it, and a line that is not split is kept as it is. |
| `LabelSelector.ParseLabelSelector` | src/handlers/label_selector.rs:41-63 | The parsing loop with its early return computes the parse specification. |
| `LabelSelector.ParseCanonical` | src/handlers/label_selector.rs:41-63 | Every parsed pair has a key and survives printing. |
| `LabelSelector.RoundTrip` | src/handlers/label_selector.rs:41-73 | Printing then parsing gives the pairs back exactly for the pairs a parse can return. |
| `LabelSelector.ParsePrintParse` | src/handlers/label_selector.rs:41-73 | Parse, print, parse is parse. |
| `LabelSelector.ParseConcat` | src/handlers/label_selector.rs:41-63 | Parsing distributes over a comma, failures included. |
| `LabelSelector.ParseFailsOnFirstMalformed` | src/handlers/label_selector.rs:44-60 | A parse fails exactly when some non-empty segment lacks an `=` or a key, and reports the first one. |
| `LabelSelector.SegmentMeans` | src/handlers/label_selector.rs:44-53 | A well-formed segment in any whitespace is the pair of what comes before its first `=` and all that follows; a blank one is no pair. |
| `RunsByLabel.LiveSliceIsNewest` | src/handlers/runs_by_label.rs:63-88 | The live slice is newest first, has `limit` runs or all there are, and leaves out none newer than one it has; its runs are the listed ones that have a name and a time. |
| `RunsByLabel.BuildQuery` | src/handlers/runs_by_label.rs:141-183 | For any number of pairs, every placeholder of the statement is bound to the namespace, its own pair or the limit, and to nothing else. |
| `RunsByLabel.QueryMeansSelector` | src/handlers/runs_by_label.rs:141-168 | The statement selects exactly the namespace's rows whose labels satisfy every pair, repeated keys included. |
| `RunsByLabel.MergedObjectEquivalence` | src/handlers/runs_by_label.rs:95-101 | One merged object would select the same rows exactly when no key repeats with another value. |
| `ClusterSelector.LiveSelectorMeansPairs` | src/handlers/label_selector.rs:67-73 | Where every key and value is one a label can have, the cluster reads the printed selector, and for every label map it asks for exactly the pairs. |
| `ClusterSelector.HalvesAskForTheSameRuns` | src/handlers/runs_by_label.rs:95-96 | Then the archive query selects a row of the namespace exactly when the cluster's reading is met by its labels. |
| `ClusterSelector.SelectorMeansPairsExactly` | src/handlers/label_selector.rs:41-73 | For every parsed query: what the cluster reads means the pairs, for all labels an object can have, exactly when every key and value is a label's, or what is read asks for the impossible. |
| `ClusterSelector.OnePairIsMeantExactly` | src/handlers/label_selector.rs:41-73 | For a query of one pair: exactly when its key and value are a label's. |
| `ClusterSelector.MetUnlessConflicting` | src/db/k8s_tekton.rs:198-204 | Comparisons ask for the impossible exactly when a key is to equal two values, or to equal and differ from one. |
| `ClusterSelector.NotEqualIsReadByCluster` | src/handlers/label_selector.rs:52-55 | `k!=v` is parsed to the pair `k!`, `v`, which no object carries; the cluster reads it as `k` not equal to `v`. |
| `ClusterSelector.DoubleEqualIsReadByCluster` | src/handlers/label_selector.rs:52-55 | `k==v` is parsed to the pair `k`, `=v`, which no object carries; the cluster reads it as `k` equal to `v`. |
| `RunsByLabel.ArchivedSummaries` | src/handlers/runs_by_label.rs:107-202 | The archive source returns the summaries of the newest `limit` matching rows, or the failure; each has the name and time of a row of the namespace that satisfies every pair. |
| `RunsByLabel.ArchiveSliceIsNewest` | src/handlers/runs_by_label.rs:159-201 | The runs of the archive are, under their names and times, exactly the rows of the namespace that satisfy every pair and have both; where all matching rows have both, its slice is the newest `limit` of them, and leaves out none newer than one it has. |
| `RunsByLabel.MergeSources` | src/handlers/runs_by_label.rs:236-261 | The merge loop with its seen-set is the newest `limit` of the live list followed by the archived names not yet seen. |
| `RunsByLabel.FetchRunsByLabel` | src/handlers/runs_by_label.rs:206-262 | A live failure fails the request, an archive failure does not, and the response merges the two capped lists; every run of it is a listed object or a matching row, under its name and time. |
| `RunsByLabel.MergeGuarantees` | src/handlers/runs_by_label.rs:236-261 | The response is newest first, without repeats, shows the live copy wherever there is one and else the archive's first, leaves out none newer than one it shows, and has `limit` runs or one per distinct name, whichever is less. |
| `RunsByLabel.FullExactlyWhen` | src/handlers/runs_by_label.rs:253-259 | The response is full exactly when the slices hold `limit` distinct names, as they do when the live slice is full, or the archive's is and repeats no name. |
| `RunsByLabel.CappingShortensExactly` | src/handlers/runs_by_label.rs:20-23 | Whatever names the archive repeats, capping never lengthens the response, and shortens it exactly when the slices hold fewer than `limit` distinct names and fewer than the full lists. |
| `RunsByLabel.CappingKeepsLength` | src/handlers/runs_by_label.rs:20-23 | With unique names in each source, capping never shortens the response. |
| `RunsByLabel.PushdownIsExact` | src/handlers/runs_by_label.rs:15-23 | For any two lists and any limit, capping first gives the newest `limit` of the full merge exactly when, of the archived runs with fewer than `limit` merged runs before them, those kept are within the archive's slice and those dropped that are within it are dropped for a name of the live slice or an earlier row. The converse is for lists tagged with their sources, as all summaries are. |
| `RunsByLabel.PushdownIsLossless` | src/handlers/runs_by_label.rs:87-88 | Capping each source first gives exactly the newest `limit` of the full merge, sources and order included, when the archive repeats no name and holds no copy newer than its live run. |
| `RunsByLabel.TimesDecidePushdown` | src/handlers/runs_by_label.rs:87-88 | For any two times of a run's copies: capping is lossless for all lists with such copies and all limits exactly when the archived time is not the newer. |
| `RunsByLabel.ResponseIsNewestOfEverything` | src/handlers/runs_by_label.rs:206-262 | From listed objects and archive rows to the response: if matching rows have names and times, it is the newest `limit` of everything exactly when the cap is harmless, and so when they repeat no name and none is newer than its live run. |
| `RunsByLabel.NewerCopyBreaksPushdown` | src/handlers/runs_by_label.rs:87-88 | Whenever an archived copy is newer than its live run, there are lists with those times for which a limit of one shows the copy in place of the newest run. |
| `RunsByLabel.RepeatedArchiveNamesBreakPushdown` | src/handlers/runs_by_label.rs:20-23 | A concrete archive that repeats a name and leaves the response short. |
| `RunDiscovery.OrderNames` | src/handlers/run_discovery.rs:289-295 | The loop lists the declared names and appends each missing reference once. |
| `RunDiscovery.CollectTasks` | src/handlers/run_discovery.rs:312-389 | The loop collects one entry per name in order, or the first failure. |
| `RunDiscovery.DiscoverLiveRun` | src/handlers/run_discovery.rs:264-399 | Discovery computes the run's skeleton, NotFound or the cluster's error. |
| `RunDiscovery.DiscoveredIsShown` | src/handlers/run_discovery.rs:264-399 | What discovery says is what the cluster says: the run's status and reason by its first condition; each task by the first reference to it or, where there is none, the first legacy entry; a CustomRun by its `-exec` TaskRun or else the first with its label; the TaskRun's name, pod, condition and steps (exit code 0 is Succeeded, any other or none Failed); taskRef and dependencies of the first declaration; pending without a TaskRun. |
| `RunDiscovery.RefreshedIsShown` | src/handlers/run_discovery.rs:442-510 | A refresh finds a task exactly when the child that stands for it has a TaskRun, and shows it as discovery would. |
| `RunDiscovery.ReadersFailExactly` | src/handlers/run_discovery.rs:447-481 | Discovery and refresh say NotFound exactly of a run the cluster does not have; a refresh fails otherwise exactly with the error of the run's or its child's lookup. |
| `RunDiscovery.RefreshedStepIsShown` | src/handlers/run_discovery.rs:415-425 | A step is found exactly if the TaskRun can be read and has one of that name, and is the first of them. |
| `RunDiscovery.DiscoveryOrder` | src/handlers/run_discovery.rs:289-295 | The tasks are the declared ones first, in declared order, then every other referenced one once, and nothing else. |
| `RunDiscovery.RefreshRefinesDiscovery` | src/handlers/run_discovery.rs:442-510 | On one cluster state a refresh returns discovery's very entry, or nothing exactly when that entry is the placeholder. |
| `RunDiscovery.OnlyUnreferencedTasksArePolled` | src/handlers/run_discovery.rs:318-386 | A placeholder has an empty TaskRun name only if its task has no child reference, or one with an empty name. |
| `RunArchive.PickProxy` | src/handlers/run_archive.rs:174-227 | One CustomRun child is skipped, found by its conventional name, or found by label; a failing query fails the fetch. |
| `RunArchive.AddProxies` | src/handlers/run_archive.rs:161-228 | The loop appends the picks in child order against the names found before it started. |
| `RunArchive.FetchPgRecords` | src/handlers/run_archive.rs:68-248 | The fetch returns the newest PipelineRun record with the merged TaskRuns, or the first failure. |
| `RunArchive.EveryProxyIsRepresented` | src/handlers/run_archive.rs:144-227 | Every child reference of kind CustomRun whose proxy has a readable record is represented in the merge. |
| `RunArchive.PrimaryIsOldestFirst` | src/handlers/run_archive.rs:115-132 | The labelled TaskRuns are those of the readable records with the run's label, each once, the oldest record first. |
| `RunArchive.PickIsNewest` | src/handlers/run_archive.rs:174-227 | A proxy is added exactly as the newest record of its `-exec` name; where that cannot be read, as the newest record with the child's label, unless that name was found; and not at all if the `-exec` name was. |
| `RunArchive.FetchFailsExactly` | src/handlers/run_archive.rs:74-212 | The fetch says NotFound exactly when there is no record of the run, and succeeds exactly when that can be read and no query made fails: the label query of a child is made only when its name query brought nothing. |
| `RunArchive.MergeIsSortedRearrangement` | src/handlers/run_archive.rs:161-245 | With CustomRun children the merge is what was collected, in the text order of creationTimestamps; without, the labelled TaskRuns as they came. |
| `RunArchive.NoDuplicatesUnlessMisfiled` | src/handlers/run_archive.rs:164-228 | With distinct children and uniquely named records, no TaskRun appears twice exactly when no proxy is misfiled under another child's label. |
| `RunArchive.HonestLabelsPreventMisfiling` | src/handlers/run_archive.rs:203-226 | If every `c-exec` record carries no other CustomRun's label, nothing is misfiled. |
| `RunArchive.MisfiledExample` | src/handlers/run_archive.rs:164-172 | A concrete archive in which one TaskRun is merged twice, since `already_found` is not updated. |
| `ArchivedMeta.AssembleTasks` | src/handlers/run_archive.rs:378-441 | The loop builds one task per TaskRun, in order, and each is what its TaskRun says. |
| `ArchivedMeta.FetchArchivedMeta` | src/handlers/run_archive.rs:313-451 | The archive's skeleton of a run, or the fetch's failure. |
| `ArchivedMeta.ArchivedIsShown` | src/handlers/run_archive.rs:313-451 | What the archive says is what its records say: the run's status by its first condition; each task named by its TaskRun's pipelineTask label, without one by the last child of the CustomRun it is labelled with, and else by itself; its steps Unknown unless terminated, its dependencies those of the last declaration. |
| `ArchivedMeta.StepsAgreement` | src/handlers/run_archive.rs:269-311 | The archive's step list equals the live one exactly when every step has terminated. |
| `ArchivedMeta.DependsOnAgreement` | src/handlers/run_archive.rs:328-350 | The archive's dependency table equals the live lookup when declared names are unique. |
| `ArchivedMeta.EntryAgreement` | src/handlers/run_archive.rs:379-440 | The two readers build the same task from one named TaskRun exactly when its labels lead back to the task (the pipelineTask label; without one, the CustomRun label through the children; else the TaskRun's name), its taskRef is the declared one, it is settled and its steps are done. |
| `ArchivedMeta.ArchiveAgreesWithDiscovery` | src/handlers/run_archive.rs:313-451 | Where the archive has the TaskRuns that discovery finds, distinctly named and in any order, it gives discovery's run (same status, reason and tasks, another source and order) exactly when the run is settled and every listed task has a TaskRun that both readers read alike. |
| `ArchivedMeta.HeldRunIsFetched` | src/handlers/run_archive.rs:126-245 | An archive that holds a run's TaskRuns, directly or as proxies, yields each exactly once. |
| `ArchivedMeta.HeldRunAgreesWithDiscovery` | src/handlers/run_archive.rs:313-451 | From the records alone: an archive that holds the run the cluster shows, with no failing query and no misfiled proxy, gives the run that discovery gives exactly when the run is finished in that sense. |
| `ArchivedLogs.AppendStream` | src/handlers/run_archive.rs:532-548 | The inner loop appends a stream's non-empty cleaned lines in order. |
| `ArchivedLogs.CleanedLine` | src/handlers/run_archive.rs:533-541 | Of a raw line only what follows the last carriage return is kept, without the whitespace around it. |
| `ArchivedLogs.FetchArchivedLogsRaw` | src/handlers/run_archive.rs:512-551 | The outer loop flattens the streams sorted by first timestamp. |
| `ArchivedLogs.Remap` | src/handlers/run_archive.rs:574-622 | Remapping in place rewrites each line's task by the two tables and keeps count, order, step, text and timestamp. |
| `ArchivedLogs.FetchArchivedLogsForRun` | src/handlers/run_archive.rs:559-625 | The whole fetch, with the archive's failure before Loki's. |
| `ArchivedLogs.TaskRefRemapIsCorrect` | src/handlers/run_archive.rs:600-616 | Lines tagged with a taskRef end at the task of every TaskRun using it exactly when that is one task. |
| `ArchivedLogs.ProxyRemapIsCorrect` | src/handlers/run_archive.rs:604-621 | Lines tagged with a proxy's name end at the task of every proxy of that name exactly when that is one task, or, where the name doubles as a taskRef, the task the taskRef gives. |
| `ArchivedLogs.RemapIsCorrect` | src/handlers/run_archive.rs:600-621 | By the two tables together, a tag ends at the task of every TaskRun that explains it exactly when those agree on one task. |
| `ArchivedLogs.UnknownTagsAreKept` | src/handlers/run_archive.rs:613-622 | A tag that no TaskRun explains is left alone. |
| `ArchivedLogs.LastTaskRunWins` | src/handlers/run_archive.rs:579-622 | Where TaskRuns disagree about a tag, it ends at the task of the last that uses it as its taskRef, or, if none does, of the last proxy of that name. |
| `ArchivedLogs.EmittedInterleavesStreams` | src/handlers/run_event_stream.rs:88-99 | The emitted lines interleave the streams: each stream contributes exactly its cleaned, remapped lines, sorted stably by time; a time-ordered stream, in its own order; lines of one time in the order of the streams. |
| `ArchivedLogs.StreamsInOrder` | src/handlers/run_archive.rs:512-517 | The streams come in the text order of their first timestamps, an empty one at "0". |
| `ArchivedLogs.EmittedIsRearrangement` | src/handlers/run_archive.rs:512-551 | The emitted lines are a permutation of the non-empty cleaned lines, remapped. |
| `ArchivedLogs.EmittedLineIsValue` | src/handlers/run_archive.rs:519-549 | A line is emitted exactly if some value of some stream gives it: its timestamp, its text cleaned and not empty, the container without `step-`, the task tag remapped, "unknown" for a missing label. |
| `ArchivedLogs.EmittedInNanosecondOrder` | src/handlers/run_event_stream.rs:89-94 | With timestamps of one length, the text sort is numeric nanosecond order. |
| `StableSort.StableSortUnique` | src/handlers/runs_by_label.rs:81-88 | The sort used for every `sort_by`: a sorted permutation that keeps the order of equals is this one and no other. |
| `AuthHook.HookCooldown.constructor` | src/db/k8s_client.rs:85-87 | The cell starts with no admission. |
| `AuthHook.HookCooldown.Admit` | src/db/k8s_client.rs:89-103 | The critical section admits exactly when every earlier admission is a cooldown old, and records a later reading. |
| `AuthHook.WindowBound` | src/db/k8s_client.rs:22-22 | Any window holds at most one admission per whole cooldown in it, plus one. |
| `AuthHook.RateBound` | src/db/k8s_client.rs:73-103 | Over every interleaving of any number of callers, admissions are 180 s apart and W seconds hold at most floor(W/180) + 1. |
| `AuthHook.MutualExclusion` | src/db/k8s_client.rs:89-103 | No two callers are past the lock together. |
| `AuthHook.ChecksAdmitExactly` | src/db/k8s_client.rs:91-102 | After any interleaving, a free lock can be taken by any caller; one that checks goes on exactly when every admission is 180 s old; nothing but its recording, at the time it is made, adds an admission. |

## Left out

- JSON decoding: objects are typed records with optional fields; an absent array is empty.
- SQL text and Postgres itself: the label query is modelled as its conditions, placeholders and bound values; NULL times and text collation are outside the model.
- Set-based selectors (`in`, `notin`, `<`, `>`) and NUL characters in a selector: `ClusterSelector` refuses them. A printed segment always holds a `=`, which no set-based form can.
- RFC 3339 parsing: times of one source are compared as text, as the source does; section 5.1 of RFC 3339 says when that is meaningful.
- The first-200 cap of the live list in src/db/k8s_tekton.rs, and the two-attempt 401 retry there: a list or an answer is what the call returns.
- The clamping of `limit` in the route, IAM, CORS, OpenAPI, MongoDB and Redis: no property beyond one body.
- The hook script, its subprocess timeout and the rebuild of the client: only the cooldown cell decides admissions.
- The Loki request and its time window: the streams are a parameter. The 5000-line limit of the request is not modelled.
- `stream_step_logs`: its error lines are not told from log lines; to the worker its lines are arbitrary, and a log that is followed is over when the world says so.
- Elapsed seconds in `done`: `duration_seconds` is not modelled.
- Panics of a worker and memory exhaustion of the unbounded channels.
- Fairness: that the scheduler runs every enabled task and that every API call answers is the reading of the progress results, not part of them.
- `Glimpsed`: what discovery or a refresh sees of a changing cluster has one answer per name; one that asks for the same name twice may in fact get two.
- `WorkerEnabled`: the two-second sleeps between the rounds of a start poll and between the five status reads are not part of the actions; the bounds that rest on them are proved of the loops in `Polling`.
- `RunsByLabel.PushdownIsLossless`: its condition is sufficient; the exact one is that of `RunsByLabel.PushdownIsExact`.
