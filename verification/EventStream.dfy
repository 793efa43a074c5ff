/**
  src/handlers/run_event_stream.rs as a transition system: one worker per task sends items into an
  unbounded FIFO channel, one receiver turns them into numbered events, and a shutdown or a client
  disconnect may come at any step. `sent`, `received` and `said` record history; the program has
  no such variables.
*/
module EventStream {
  import opened Wrappers
  import opened Sequences
  import opened RunModel
  import opened TektonApi
  import opened RunDiscovery
  import opened Polling
  import opened StepLogStream

  // ── Channel items and events ───────────────────────────────────────────

  datatype Item =
    | Log(line: LogLine)
    | StepStatus(task: string, step: string, status: RunStatus, reason: Option<string>)
    | TaskStatus(task: string, status: RunStatus, reason: Option<string>)
    | Error(message: string)
    | TaskDone

  /** An item and the worker that sent it. */
  datatype Msg = Msg(worker: nat, item: Item)

  datatype EventId = Numbered(n: nat) | LogNumber(i: nat) | NoId

  datatype Payload = Meta(meta: RunMeta) | Carried(item: Item) | Done(runName: string, outcome: Outcome)

  datatype Event = Event(payload: Payload, id: EventId)

  // ── Worker ─────────────────────────────────────────────────────────────

  /** Where a worker is: the statement it will execute next. */
  datatype Pc =
    | Resolving
    | AtStep(i: nat)
    | Streaming(i: nat, follow: bool)
    | Reporting(i: nat)
    | Finishing
    | Stopped
    | Aborted

  /**
    `task` is the snapshot until it is resolved, and was read by time `since`. `now` is how far the
    worker's own clock has come: its reads of the cluster come one after another. `attempt` counts
    in a wait for a container; the container was read at `polled`. Item `k` was said at `saidAt[k]`.
  */
  datatype Worker = Worker(
    task: TaskMeta, resolved: bool, since: nat, now: nat, attempt: nat, pc: Pc,
    said: seq<Item>, saidAt: seq<nat>, polled: seq<nat>)

  /** What the environment answers at a worker's next await. */
  datatype WorkerAction =
    | Begin
    | Resolve(started: TaskMeta, at: nat)
    | GiveUp(refreshedAt: nat, at: nat)
    | SeeShutdown
    | Open
    | Poll(at: nat, answer: PodAnswer)
    | Line(timestamp: Option<string>, text: string)
    | EndOfLogs(at: nat)
    | Report(times: seq<nat>)
    | Conclude(poll: LastPoll)
    | Finish

  /** The cluster over time, and the run being streamed. */
  datatype Env = Env(world: World, runName: string)

  function NewWorker(snapshot: TaskMeta, since: nat): Worker {
    Worker(snapshot, false, since, since, 0, Resolving, [], [], [])
  }

  predicate WaitsForStep(w: Worker) {
    w.pc.AtStep? && w.pc.i < |w.task.steps| && w.task.steps[w.pc.i].status == Pending
  }

  predicate AtEnd(w: Worker) {
    w.pc.AtStep? && w.pc.i == |w.task.steps|
  }

  /** A task with no TaskRun name is polled for before anything else. */
  predicate MustPoll(w: Worker) {
    w.pc == Resolving && w.task.taskrunName == ""
  }

  /** A refresh of the task, asking from `begun` to `ended`, comes to `r`. */
  ghost predicate Refreshes(
    env: Env, name: string, begun: nat, ended: nat, r: Result<Option<TaskMeta>, DiscoverError>)
  {
    exists seen :: Glimpsed(env.world, seen, begun, ended) && RefreshTask(seen, env.runName, name) == r
  }

  predicate Started(r: Result<Option<TaskMeta>, DiscoverError>) {
    r.Ok? && r.value.Some? && HasStarted(r.value.value)
  }

  /** Why a start poll gives up: a refresh without the task, then a decided PipelineRun or the cap. */
  ghost predicate GivesUp(env: Env, name: string, since: nat, refreshedAt: nat, at: nat) {
    && since <= refreshedAt <= at && (exists r :: Refreshes(env, name, since, refreshedAt, r) && !Started(r))
    && (RunDecided(env.world(at).getPipelineRun(env.runName)) || at >= since + SAFETY_CAP)
  }

  function PodOf(task: TaskMeta): string {
    task.podName.GetOr(task.taskrunName + "-pod")
  }

  function ContainerAt(world: World, task: TaskMeta, step: StepMeta, at: nat): PodAnswer {
    world(at).getContainer(PodOf(task), step.container)
  }

  /** The answers to a wait that polls at `times`. */
  function AnswersAt(world: World, task: TaskMeta, step: StepMeta, times: seq<nat>): nat -> PodAnswer {
    (k: nat) => if k < |times| then ContainerAt(world, task, step, times[k]) else Failure
  }

  /** A wait for the step's container that ends with the last of `times`. */
  predicate Waited(world: World, task: TaskMeta, step: StepMeta, since: nat, times: seq<nat>, result: WaitResult) {
    var answers := AnswersAt(world, task, step, times);
    InOrder(times, since) && Paced(answers, times) && Ends(answers, |times|, result)
  }

  /** A log followed in the step's container is over. */
  predicate LogOverAt(world: World, task: TaskMeta, step: StepMeta, at: nat) {
    world(at).logOver(PodOf(task), step.container)
  }

  /** The TaskRun's final wait ends with `poll`. */
  predicate TaskPolled(world: World, task: TaskMeta, since: nat, poll: LastPoll) {
    && since <= poll.begun
    && EndsWait(poll, TaskRunDecision(world(poll.at).getTaskRun(task.taskrunName)), TASKRUN_TERMINAL_TIMEOUT)
  }

  /** The PipelineRun's final wait ends with `poll`. */
  predicate RunPolled(env: Env, since: nat, poll: LastPoll) {
    && since <= poll.begun
    && EndsWait(poll, PipelineRunDecision(env.world(poll.at).getPipelineRun(env.runName)), SHORT_TIMEOUT)
  }

  /** What a read of the container brings the wait to, if it ends it. */
  function PollEnds(w: Worker, answer: PodAnswer): Option<WaitResult> {
    if Settles(answer).Some? then Settles(answer)
    else if Counted(answer) && w.attempt + 1 >= MAX_READY_RETRIES then Some(TimedOut)
    else None
  }

  ghost predicate WorkerEnabled(env: Env, w: Worker, a: WorkerAction, shutdown: bool) {
    match a
    case Begin => w.pc == Resolving && !MustPoll(w)
    case Resolve(started, at) =>
      && MustPoll(w) && w.now <= at && HasStarted(started)
      && Refreshes(env, w.task.name, w.now, at, Ok(Some(started)))
    case GiveUp(refreshedAt, at) => MustPoll(w) && GivesUp(env, w.task.name, w.now, refreshedAt, at)
    case SeeShutdown => shutdown && (MustPoll(w) || WaitsForStep(w) || AtEnd(w) || w.pc.Streaming?)
    case Open => w.pc.AtStep? && w.pc.i < |w.task.steps| && !WaitsForStep(w)
    case Poll(at, answer) =>
      WaitsForStep(w) && w.now <= at && answer == ContainerAt(env.world, w.task, w.task.steps[w.pc.i], at)
    case Line(_, _) => w.pc.Streaming? && w.pc.i < |w.task.steps|
    case EndOfLogs(at) =>
      && w.pc.Streaming? && w.pc.i < |w.task.steps| && w.now <= at
      && (w.pc.follow ==> LogOverAt(env.world, w.task, w.task.steps[w.pc.i], at))
    case Report(times) =>
      w.pc.Reporting? && w.pc.i < |w.task.steps| && |times| == MAX_ATTEMPTS && InOrder(times, w.now)
    case Conclude(poll) => AtEnd(w) && TaskPolled(env.world, w.task, w.now, poll)
    case Finish => w.pc == Finishing
  }

  // ── The waits a worker makes are its actions ───────────────────────────

  /** A round of a start poll: a refresh that is done at one time, the PipelineRun asked for at another. */
  ghost predicate RoundAt(env: Env, name: string, round: StartRound, since: nat, refreshed: nat, asked: nat) {
    && since <= refreshed <= asked
    && Refreshes(env, name, since, refreshed, round.task)
    && round.pipelineRun == env.world(asked).getPipelineRun(env.runName)
  }

  /** However the start poll ends, that is an action of the worker. */
  lemma StartPollIsAction(
    env: Env, w: Worker, shutdown: bool, begun: nat, rounds: nat -> StartRound, elapsed: nat -> nat,
    polls: nat, r: Option<TaskMeta>, refreshed: nat, asked: nat) returns (a: WorkerAction)
    requires MustPoll(w) && EndsWith(StartDecisions(rounds), elapsed, SAFETY_CAP, None, polls, r)
    requires w.now <= begun <= refreshed && asked <= begun + elapsed(polls - 1)
    requires RoundAt(env, w.task.name, rounds(polls - 1), w.now, refreshed, asked)
    ensures WorkerEnabled(env, w, a, shutdown)
    ensures if r.Some? then a == Resolve(r.value, refreshed) else a.GiveUp? && a.refreshedAt == refreshed
  {
    StartPollEnds(rounds, elapsed, polls, r);
    if r.Some? {
      a := Resolve(r.value, refreshed);
    } else if RunDecided(rounds(polls - 1).pipelineRun) {
      a := GiveUp(refreshed, asked);
    } else {
      a := GiveUp(refreshed, begun + elapsed(polls - 1));
    }
  }

  // ── What actions send, and where they lead ─────────────────────────────

  function TimeoutMessage(task: TaskMeta, step: StepMeta): string {
    "timed out waiting for " + task.name + "/" + step.name + " to start"
  }

  function NeverStarted(task: TaskMeta): Item {
    TaskStatus(task.name, Pending, Some("task never started"))
  }

  /** The outcome of the final wait, from its last answer. */
  function TaskOutcome(answer: Answer<TaskRun>): Outcome {
    TaskRunDecision(answer).GetOr(TASKRUN_TIMED_OUT)
  }

  /** However the final wait ends on answers of the cluster, that is an action, with the result it sends. */
  lemma FinalWaitIsAction(
    env: Env, w: Worker, shutdown: bool, answers: nat -> Answer<TaskRun>, elapsed: nat -> nat, polls: nat, r: Outcome,
    poll: LastPoll)
    requires EndsWith(TaskRunDecisions(answers), elapsed, TASKRUN_TERMINAL_TIMEOUT, TASKRUN_TIMED_OUT, polls, r)
    requires answers(polls - 1) == env.world(poll.at).getTaskRun(w.task.taskrunName)
    requires AtEnd(w) && w.now <= poll.begun <= poll.at <= poll.ended == poll.begun + elapsed(polls - 1)
    ensures WorkerEnabled(env, w, Conclude(poll), shutdown)
    ensures r == TaskOutcome(env.world(poll.at).getTaskRun(w.task.taskrunName))
  {
    LastPollEndsWait(
      TaskRunDecisions(answers), elapsed, TASKRUN_TERMINAL_TIMEOUT, TASKRUN_TIMED_OUT, polls, r, poll);
  }

  /** The item a worker's next action sends, if any. */
  function SentBy(env: Env, w: Worker, a: WorkerAction, shutdown: bool): Option<Item>
    requires WorkerEnabled(env, w, a, shutdown)
  {
    match a
    case GiveUp(_, _) => Some(NeverStarted(w.task))
    case Poll(_, answer) =>
      if PollEnds(w, answer) == Some(TimedOut) then Some(Error(TimeoutMessage(w.task, w.task.steps[w.pc.i]))) else None
    case Line(timestamp, text) => Some(Log(LogLine(w.task.name, w.task.steps[w.pc.i].name, text, timestamp)))
    case Report(times) =>
      var step := w.task.steps[w.pc.i];
      var latest := FreshOr(env.world, w.task.taskrunName, step, times);
      Some(StepStatus(w.task.name, step.name, latest.status, latest.reason))
    case Conclude(poll) =>
      var outcome := TaskOutcome(env.world(poll.at).getTaskRun(w.task.taskrunName));
      Some(TaskStatus(w.task.name, outcome.0, outcome.1))
    case Finish => Some(TaskDone)
    case _ => None
  }

  /** Where the action leaves the worker; `alive` says whether a send still succeeds. */
  function NextPc(env: Env, w: Worker, a: WorkerAction, shutdown: bool, alive: bool): Pc
    requires WorkerEnabled(env, w, a, shutdown)
  {
    match a
    case Begin => AtStep(0)
    case Resolve(_, _) => AtStep(0)
    case GiveUp(_, _) => Finishing
    case SeeShutdown => if w.pc.Streaming? then Reporting(w.pc.i) else Finishing
    case Open => Streaming(w.pc.i, !w.task.steps[w.pc.i].status.IsTerminal())
    case Poll(_, answer) =>
      match PollEnds(w, answer) {
        case None => w.pc
        case Some(TimedOut) => AtStep(w.pc.i + 1)
        case Some(result) => Streaming(w.pc.i, result != AlreadyTerminated)
      }
    case Line(_, _) => if alive then w.pc else Aborted
    case EndOfLogs(_) => Reporting(w.pc.i)
    case Report(_) => if alive then AtStep(w.pc.i + 1) else Aborted
    case Conclude(_) => Finishing
    case Finish => Stopped
  }

  function Said(item: Option<Item>): seq<Item> {
    if item.Some? then [item.value] else []
  }

  function Stamp(item: Option<Item>, at: nat): seq<nat> {
    if item.Some? then [at] else []
  }

  predicate StillPolling(w: Worker, a: WorkerAction) {
    a.Poll? && PollEnds(w, a.answer).None?
  }

  /** How far the clock is after the action; a counted read that leaves the wait open is followed by a sleep. */
  function NextNow(w: Worker, a: WorkerAction): nat {
    match a
    case Resolve(_, at) => at
    case GiveUp(_, at) => at
    case Poll(at, answer) => if StillPolling(w, a) && Counted(answer) then at + READY_POLL_INTERVAL else at
    case EndOfLogs(at) => at
    case Report(times) => if times == [] then w.now else times[|times| - 1]
    case Conclude(poll) => poll.ended
    case _ => w.now
  }

  function WorkerAfter(env: Env, w: Worker, a: WorkerAction, shutdown: bool, alive: bool): Worker
    requires WorkerEnabled(env, w, a, shutdown)
  {
    var item := SentBy(env, w, a, shutdown);
    w.(
      task := if a.Resolve? then a.started else w.task,
      resolved := w.resolved || a.Begin? || a.Resolve?,
      since := if a.Resolve? then a.at else w.since,
      now := NextNow(w, a),
      attempt := if StillPolling(w, a) then w.attempt + (if Counted(a.answer) then 1 else 0) else 0,
      pc := NextPc(env, w, a, shutdown, alive),
      said := w.said + Said(item),
      saidAt := w.saidAt + Stamp(item, NextNow(w, a)),
      polled := if StillPolling(w, a) then w.polled + [a.at] else [])
  }

  // ── Receiver ───────────────────────────────────────────────────────────

  /** The receiver's loop variables. */
  datatype Receiver = Receiver(eventId: nat, anyTaskFailed: bool, tasksRemaining: int)

  function NewReceiver(tasks: nat): Receiver {
    Receiver(1, false, tasks)
  }

  predicate ReportsFailure(item: Item) {
    item.TaskStatus? && item.status == Failed
  }

  function ReceiverAfter(r: Receiver, item: Item): Receiver {
    Receiver(
      r.eventId + 1, r.anyTaskFailed || ReportsFailure(item),
      if item.TaskDone? then r.tasksRemaining - 1 else r.tasksRemaining)
  }

  /** The event an item becomes; `TaskDone` uses up an id but yields nothing. */
  function EventsFor(item: Item, id: nat): seq<Event> {
    if item.TaskDone? then [] else [Event(Carried(item), Numbered(id))]
  }

  /** The events of a received sequence: message `j` has id `j + 2`. */
  function Render(received: seq<Msg>): seq<Event> {
    if received == [] then []
    else Render(received[..|received| - 1]) + EventsFor(received[|received| - 1].item, |received| + 1)
  }

  function ReceiveAll(tasks: nat, received: seq<Msg>): Receiver {
    if received == [] then NewReceiver(tasks)
    else ReceiverAfter(ReceiveAll(tasks, received[..|received| - 1]), received[|received| - 1].item)
  }

  predicate SomeTaskFailed(received: seq<Msg>) {
    exists k :: 0 <= k < |received| && received[k].item.TaskStatus? && received[k].item.status == Failed
  }

  lemma {:induction false} FailuresAreCounted(tasks: nat, received: seq<Msg>)
    ensures ReceiveAll(tasks, received).anyTaskFailed <==> SomeTaskFailed(received)
  {
    if received != [] {
      var front, last := received[..|received| - 1], received[|received| - 1].item;
      FailuresAreCounted(tasks, front);
      assert SomeTaskFailed(received) <==> SomeTaskFailed(front) || (last.TaskStatus? && last.status == Failed) by {
        assert forall k | 0 <= k < |front| :: front[k] == received[k];
      }
    }
  }

  /**
    The receive loop over what the channel delivers, cut short when a shutdown wins the select
    after `until` items. It returns early, without a verdict, if tasks remain.
  */
  method ReceiveLoop(tasks: nat, inbox: seq<Msg>, until: nat)
    returns (output: seq<Event>, r: Receiver, consumed: nat, finished: bool)
    ensures consumed <= |inbox| && output == Render(inbox[..consumed])
    ensures r == ReceiveAll(tasks, inbox[..consumed]) && r.eventId == consumed + 1
    ensures r.anyTaskFailed <==> SomeTaskFailed(inbox[..consumed])
    ensures finished <==> r.tasksRemaining == 0
    ensures !finished ==> consumed == |inbox| || consumed == until
    ensures forall k | 0 <= k < consumed :: ReceiveAll(tasks, inbox[..k]).tasksRemaining > 0
  {
    var eventId := 1;
    var anyTaskFailed := false;
    var tasksRemaining: int := tasks;
    output := [];
    consumed := 0;
    while true
      invariant consumed <= |inbox| && output == Render(inbox[..consumed])
      invariant Receiver(eventId, anyTaskFailed, tasksRemaining) == ReceiveAll(tasks, inbox[..consumed])
      invariant eventId == consumed + 1 && tasksRemaining >= 0
      invariant forall k | 0 <= k < consumed :: ReceiveAll(tasks, inbox[..k]).tasksRemaining > 0
      decreases |inbox| - consumed
    {
      if tasksRemaining == 0 {
        break;
      }
      if consumed == until || consumed == |inbox| {
        FailuresAreCounted(tasks, inbox[..consumed]);
        return output, Receiver(eventId, anyTaskFailed, tasksRemaining), consumed, false;
      }
      var item := inbox[consumed].item;
      assert inbox[..consumed + 1][..consumed] == inbox[..consumed];
      consumed := consumed + 1;
      eventId := eventId + 1;
      if item.TaskDone? {
        tasksRemaining := tasksRemaining - 1;
      } else {
        output := output + [Event(Carried(item), Numbered(eventId))];
        if ReportsFailure(item) {
          anyTaskFailed := true;
        }
      }
    }
    FailuresAreCounted(tasks, inbox[..consumed]);
    return output, Receiver(eventId, anyTaskFailed, tasksRemaining), consumed, true;
  }

  // ── The whole system ───────────────────────────────────────────────────

  /** The receiver loops, then judges the run; the stream ends with a `done` or without one. */
  datatype Phase = Looping | Judging | Completed | Ended {
    predicate Alive() {
      Looping? || Judging?
    }
  }

  /** `now` is how far the receiver's clock has come: to the discovery, later to the end of its loop. */
  datatype State = State(
    meta: RunMeta,
    now: nat,
    workers: seq<Worker>,
    queue: seq<Msg>,
    sent: seq<Msg>,
    received: seq<Msg>,
    receiver: Receiver,
    phase: Phase,
    shutdown: bool,
    verdict: Option<Answer<PipelineRun>>,
    output: seq<Event>)

  datatype Action =
    | Work(w: nat, step: WorkerAction)
    | Receive
    | ChannelClosed
    | StopOnShutdown
    | LeaveLoop(at: nat)
    | Judge(poll: LastPoll)
    | JudgeFailed
    | Shutdown
    | Disconnect

  /** A running stream: `meta` has been yielded, every task has a worker. */
  function Initial(meta: RunMeta, since: nat): State {
    State(
      meta, since, MapSeq(meta.tasks, (t: TaskMeta) => NewWorker(t, since)), [], [], [],
      NewReceiver(|meta.tasks|), Looping, false, None, [Event(Meta(meta), Numbered(0))])
  }

  /** A time that neither the receiver nor a worker is past: what a worker did is received later. */
  predicate AfterAll(s: State, at: nat) {
    s.now <= at && forall w | 0 <= w < |s.workers| :: s.workers[w].now <= at
  }

  predicate WorkerGone(w: Worker) {
    w.pc == Stopped || w.pc == Aborted
  }

  ghost predicate Enabled(env: Env, s: State, a: Action) {
    match a
    case Work(w, step) => w < |s.workers| && WorkerEnabled(env, s.workers[w], step, s.shutdown)
    case Receive => s.phase == Looping && s.receiver.tasksRemaining != 0 && s.queue != []
    case ChannelClosed =>
      && s.phase == Looping && s.receiver.tasksRemaining != 0 && s.queue == []
      && forall w | 0 <= w < |s.workers| :: WorkerGone(s.workers[w])
    case StopOnShutdown => s.shutdown && ((s.phase == Looping && s.receiver.tasksRemaining != 0) ||
                                          (s.phase == Judging && !s.receiver.anyTaskFailed))
    case LeaveLoop(at) => s.phase == Looping && s.receiver.tasksRemaining == 0 && AfterAll(s, at)
    case Judge(poll) => s.phase == Judging && !s.receiver.anyTaskFailed && RunPolled(env, s.now, poll)
    case JudgeFailed => s.phase == Judging && s.receiver.anyTaskFailed
    case Shutdown => !s.shutdown
    case Disconnect => s.phase.Alive()
  }

  /** The verdict of the final wait, from its last answer. */
  function RunOutcome(answer: Answer<PipelineRun>): Outcome {
    PipelineRunDecision(answer).GetOr(PIPELINERUN_TIMED_OUT)
  }

  /** However the receiver's final wait ends on answers of the cluster, that is a step, with its result. */
  lemma VerdictWaitIsAction(
    env: Env, s: State, answers: nat -> Answer<PipelineRun>, elapsed: nat -> nat, polls: nat, r: Outcome,
    poll: LastPoll)
    requires EndsWith(PipelineRunDecisions(answers), elapsed, SHORT_TIMEOUT, PIPELINERUN_TIMED_OUT, polls, r)
    requires answers(polls - 1) == env.world(poll.at).getPipelineRun(env.runName)
    requires s.phase == Judging && !s.receiver.anyTaskFailed
    requires s.now <= poll.begun <= poll.at <= poll.ended == poll.begun + elapsed(polls - 1)
    ensures Enabled(env, s, Judge(poll))
    ensures r == RunOutcome(env.world(poll.at).getPipelineRun(env.runName))
  {
    LastPollEndsWait(PipelineRunDecisions(answers), elapsed, SHORT_TIMEOUT, PIPELINERUN_TIMED_OUT, polls, r, poll);
  }

  function Messages(w: nat, item: Option<Item>): seq<Msg> {
    if item.Some? then [Msg(w, item.value)] else []
  }

  function AfterWork(env: Env, s: State, w: nat, step: WorkerAction): State
    requires Enabled(env, s, Work(w, step))
  {
    var alive := s.phase.Alive();
    var msgs := if alive then Messages(w, SentBy(env, s.workers[w], step, s.shutdown)) else [];
    s.(
      workers := s.workers[w := WorkerAfter(env, s.workers[w], step, s.shutdown, alive)],
      queue := s.queue + msgs,
      sent := s.sent + msgs)
  }

  function AfterReceive(s: State): State
    requires s.queue != []
  {
    var receiver := ReceiverAfter(s.receiver, s.queue[0].item);
    s.(
      queue := s.queue[1..],
      received := s.received + [s.queue[0]],
      receiver := receiver,
      output := s.output + EventsFor(s.queue[0].item, receiver.eventId))
  }

  function DoneEvent(s: State, outcome: Outcome): Event {
    Event(Done(s.meta.runName, outcome), NoId)
  }

  function Apply(env: Env, s: State, a: Action): State
    requires Enabled(env, s, a)
  {
    match a
    case Work(w, step) => AfterWork(env, s, w, step)
    case Receive => AfterReceive(s)
    case ChannelClosed => s.(phase := Ended)
    case StopOnShutdown => s.(phase := Ended)
    case LeaveLoop(at) => s.(phase := Judging, now := at)
    case Judge(poll) =>
      var answer := env.world(poll.at).getPipelineRun(env.runName);
      s.(phase := Completed, verdict := Some(answer), output := s.output + [DoneEvent(s, RunOutcome(answer))])
    case JudgeFailed => s.(phase := Completed, output := s.output + [DoneEvent(s, (Failed, None))])
    case Shutdown => s.(shutdown := true)
    case Disconnect => s.(phase := Ended)
  }

  /** The actions can be taken one after another: one interleaving. */
  ghost predicate Executable(env: Env, s: State, actions: seq<Action>)
    decreases |actions|
  {
    actions == [] ||
    (Enabled(env, s, actions[0]) && Executable(env, Apply(env, s, actions[0]), actions[1..]))
  }

  function Run(env: Env, s: State, actions: seq<Action>): State
    requires Executable(env, s, actions)
    decreases |actions|
  {
    if actions == [] then s else Run(env, Apply(env, s, actions[0]), actions[1..])
  }
}
