/**
  How long a live stream can run, and where it can get stuck: every action but a log line, a refused
  read and a task's late start uses up something, so a stream is finite when its log lines and its
  401s are; and it stands still before its end exactly when every unfinished worker is blocked.
*/
module EventStreamProgress {
  import opened Sequences
  import opened RunModel
  import opened TektonApi
  import opened RunDiscovery
  import opened Polling
  import opened StepLogStream
  import opened EventStream
  import opened WorkerOrder
  import opened EventStreamSafety

  /**
    The actions a worker has left besides log lines and refused reads, and the receipts they cause.
    A step has 63: sixty reads of its container, the end of its log, its status, its receipt.
  */
  function Remaining(w: Worker): int {
    var steps := |w.task.steps|;
    match w.pc
    case Resolving => 5 + 63 * steps
    case AtStep(i) => 4 + 63 * (steps - i) - w.attempt
    case Streaming(i, _) => 7 + 63 * (steps - i - 1)
    case Reporting(i) => 6 + 63 * (steps - i - 1)
    case Finishing => 2
    case Stopped => 0
    case Aborted => 0
  }

  function AllRemaining(workers: seq<Worker>): int {
    if workers == [] then 0
    else AllRemaining(workers[..|workers| - 1]) + Remaining(workers[|workers| - 1])
  }

  function PhasesLeft(phase: Phase): nat {
    match phase
    case Looping => 2
    case Judging => 1
    case _ => 0
  }

  /** Actions the state has left, if no log line comes, no read is refused and no task starts late. */
  function Potential(s: State): int {
    AllRemaining(s.workers) + |s.queue| + PhasesLeft(s.phase) + if s.shutdown then 0 else 1
  }

  /** What an action may add: a line, its receipt; a refused read, itself; a late start, the task's steps. */
  function Adds(a: Action): nat {
    match a
    case Work(_, Line(_, _)) => 2
    case Work(_, Poll(_, Unauthorized)) => 1
    case Work(_, Resolve(started, _)) => 63 * |started.steps|
    case _ => 0
  }

  function AllAdds(actions: seq<Action>): nat {
    if actions == [] then 0 else Adds(actions[0]) + AllAdds(actions[1..])
  }

  lemma {:induction false} AllRemainingUpdate(workers: seq<Worker>, w: nat, after: Worker)
    requires w < |workers|
    ensures AllRemaining(workers[w := after]) == AllRemaining(workers) + Remaining(after) - Remaining(workers[w])
  {
    var k := |workers| - 1;
    if w < k {
      AllRemainingUpdate(workers[..k], w, after);
      assert workers[w := after][..k] == workers[..k][w := after];
    } else {
      assert workers[w := after][..k] == workers[..k];
    }
  }

  lemma {:induction false} AllRemainingIsNat(workers: seq<Worker>, shutdown: bool)
    requires forall w | 0 <= w < |workers| :: InOrderAt(workers[w], shutdown)
    ensures AllRemaining(workers) >= 0
  {
    if workers != [] {
      AllRemainingIsNat(workers[..|workers| - 1], shutdown);
      assert InOrderAt(workers[|workers| - 1], shutdown);
    }
  }

  /** A worker's action costs one, and one more if it sends; lines, refusals and late starts are paid for. */
  ghost predicate Costs(env: Env, w: Worker, a: WorkerAction, shutdown: bool, alive: bool)
    requires WorkerEnabled(env, w, a, shutdown)
  {
    Remaining(WorkerAfter(env, w, a, shutdown, alive)) + 1 + |Said(SentBy(env, w, a, shutdown))|
    <= Remaining(w) + Adds(Work(0, a))
  }

  lemma PollCosts(env: Env, w: Worker, at: nat, answer: PodAnswer, shutdown: bool, alive: bool)
    requires WorkerEnabled(env, w, Poll(at, answer), shutdown) && InOrderAt(w, shutdown)
    ensures Costs(env, w, Poll(at, answer), shutdown, alive)
  {
    var w' := WorkerAfter(env, w, Poll(at, answer), shutdown, alive);
    if PollEnds(w, answer).None? {
      assert w'.attempt == if Counted(answer) then w.attempt + 1 else w.attempt;
    } else {
      assert w'.attempt == 0;
    }
  }

  lemma StepCosts(env: Env, w: Worker, a: WorkerAction, shutdown: bool, alive: bool)
    requires WorkerEnabled(env, w, a, shutdown) && InOrderAt(w, shutdown)
    ensures Costs(env, w, a, shutdown, alive)
  {
    if a.Poll? {
      PollCosts(env, w, a.at, a.answer, shutdown, alive);
    } else {
      assert WorkerAfter(env, w, a, shutdown, alive).attempt == 0;
    }
  }

  lemma ApplyCosts(env: Env, s: State, a: Action)
    requires Enabled(env, s, a) && Workers(s)
    ensures 1 + Potential(Apply(env, s, a)) <= Potential(s) + Adds(a)
  {
    if a.Work? {
      var after := Apply(env, s, a).workers[a.w];
      assert InOrderAt(s.workers[a.w], s.shutdown);
      StepCosts(env, s.workers[a.w], a.step, s.shutdown, s.phase.Alive());
      AllRemainingUpdate(s.workers, a.w, after);
    }
  }

  lemma {:induction false} RunCosts(env: Env, s: State, actions: seq<Action>)
    requires Workers(s) && Executable(env, s, actions)
    ensures |actions| + Potential(Run(env, s, actions)) <= Potential(s) + AllAdds(actions)
    ensures Workers(Run(env, s, actions))
    decreases |actions|
  {
    if actions != [] {
      ApplyKeepsWorkers(env, s, actions[0]);
      ApplyCosts(env, s, actions[0]);
      RunCosts(env, Apply(env, s, actions[0]), actions[1..]);
    }
  }

  /** A bound from what is known at the start: five actions a task, 63 a step, and three of its own. */
  function StartingBound(tasks: seq<TaskMeta>): nat {
    if tasks == [] then 3
    else StartingBound(tasks[..|tasks| - 1]) + 5 + 63 * |tasks[|tasks| - 1].steps|
  }

  lemma {:induction false} StartingPotential(tasks: seq<TaskMeta>, since: nat)
    ensures AllRemaining(MapSeq(tasks, (t: TaskMeta) => NewWorker(t, since))) + 3 == StartingBound(tasks)
  {
    if tasks != [] {
      var front := tasks[..|tasks| - 1];
      StartingPotential(front, since);
      var workers := MapSeq(tasks, (t: TaskMeta) => NewWorker(t, since));
      assert workers[..|tasks| - 1] == MapSeq(front, (t: TaskMeta) => NewWorker(t, since));
    }
  }

  /**
    Every interleaving is finite but for log lines and refused reads: it has at most five actions
    per task and 63 per step, shown or started late, two per log line, one per 401, and three more.
  */
  lemma StreamsAreBounded(env: Env, meta: RunMeta, since: nat, actions: seq<Action>)
    requires Executable(env, Initial(meta, since), actions)
    ensures |actions| <= StartingBound(meta.tasks) + AllAdds(actions)
  {
    var start := Initial(meta, since);
    InitialInv(meta, since);
    RunCosts(env, start, actions);
    var end := Run(env, start, actions);
    AllRemainingIsNat(end.workers, end.shutdown);
    StartingPotential(meta.tasks, since);
  }

  // ── When a wait for a container can end ────────────────────────────────

  /** Reads of the step's container that a wait counts, a sleep apart. */
  predicate CountedReads(env: Env, task: TaskMeta, step: StepMeta, since: nat, marks: seq<nat>) {
    && Apart(marks)
    && forall k | 0 <= k < |marks| :: since <= marks[k] && Counted(ContainerAt(env.world, task, step, marks[k]))
  }

  /**
    No read of the container settles a wait, and no sixty of them, two seconds apart, are counted:
    so the wait for it cannot end.
  */
  ghost predicate NeverReady(env: Env, task: TaskMeta, step: StepMeta, since: nat) {
    && (forall at: nat | at >= since :: Settles(ContainerAt(env.world, task, step, at)).None?)
    && (forall marks | CountedReads(env, task, step, since, marks) :: |marks| < MAX_READY_RETRIES)
  }

  ghost predicate OnlyRefuses(env: Env, task: TaskMeta, step: StepMeta, from: nat) {
    forall at: nat | at >= from :: ContainerAt(env.world, task, step, at).Unauthorized?
  }

  lemma {:induction false} OnlyRefusalsFollow(
    env: Env, task: TaskMeta, step: StepMeta, since: nat, marks: seq<nat>, from: nat) returns (last: nat)
    requires NeverReady(env, task, step, since) && CountedReads(env, task, step, since, marks)
    requires since <= from && (marks != [] ==> marks[|marks| - 1] + READY_POLL_INTERVAL <= from)
    ensures since <= last
    ensures forall at: nat | at >= last :: ContainerAt(env.world, task, step, at).Unauthorized?
    decreases MAX_READY_RETRIES - |marks|
  {
    if at: nat :| at >= from && !ContainerAt(env.world, task, step, at).Unauthorized? {
      assert Counted(ContainerAt(env.world, task, step, at));
      assert CountedReads(env, task, step, since, marks + [at]);
      last := OnlyRefusalsFollow(env, task, step, since, marks + [at], at + READY_POLL_INTERVAL);
    } else {
      last := from;
    }
  }

  /** A container never gets ready only by answering 401 from some time on; and always if it only does. */
  lemma NeverReadyIsA401(env: Env, task: TaskMeta, step: StepMeta, since: nat)
    ensures NeverReady(env, task, step, since) ==>
              exists from: nat :: since <= from && OnlyRefuses(env, task, step, from)
    ensures OnlyRefuses(env, task, step, since) ==> NeverReady(env, task, step, since)
  {
    if NeverReady(env, task, step, since) {
      var last := OnlyRefusalsFollow(env, task, step, since, [], since);
      assert OnlyRefuses(env, task, step, last);
    }
    if OnlyRefuses(env, task, step, since) {
      forall marks | CountedReads(env, task, step, since, marks)
        ensures |marks| < MAX_READY_RETRIES
      {
        assert marks == [] || !Counted(ContainerAt(env.world, task, step, marks[0]));
      }
    }
  }

  lemma SettledWaitEnds(env: Env, task: TaskMeta, step: StepMeta, since: nat, at: nat)
    requires since <= at && Settles(ContainerAt(env.world, task, step, at)).Some?
    ensures Waited(env.world, task, step, since, [at], Settles(ContainerAt(env.world, task, step, at)).value)
  {
    assert AnswersAt(env.world, task, step, [at])(0) == ContainerAt(env.world, task, step, at);
  }

  lemma SixtyReadsEndWait(env: Env, task: TaskMeta, step: StepMeta, since: nat, marks: seq<nat>)
    requires CountedReads(env, task, step, since, marks) && |marks| == MAX_READY_RETRIES
    ensures Waited(env.world, task, step, since, marks, TimedOut)
  {
    var answers := AnswersAt(env.world, task, step, marks);
    assert forall k | 0 <= k < |marks| :: answers(k) == ContainerAt(env.world, task, step, marks[k]);
    AllCounted(answers, |marks|);
    AllCounted(answers, |marks| - 1);
    ApartInOrder(marks, since);
  }

  lemma {:induction false} ApartInOrder(marks: seq<nat>, since: nat)
    requires Apart(marks) && forall k | 0 <= k < |marks| :: since <= marks[k]
    ensures InOrder(marks, since)
  {
    if marks != [] {
      var front := marks[..|marks| - 1];
      ApartInOrder(front, since);
      forall i, j | 0 <= i < j < |marks|
        ensures marks[i] <= marks[j]
      {
        if j == |front| && i < |front| - 1 {
          assert front[i] <= front[|front| - 1];
        }
      }
    }
  }

  /** A wait for a container can end exactly if the container is not one that never gets ready. */
  lemma WaitEndsUnlessNeverReady(env: Env, task: TaskMeta, step: StepMeta, since: nat)
    ensures (exists times, result :: Waited(env.world, task, step, since, times, result)) <==>
            !NeverReady(env, task, step, since)
  {
    if at: nat :| at >= since && Settles(ContainerAt(env.world, task, step, at)).Some? {
      SettledWaitEnds(env, task, step, since, at);
    } else if marks :| CountedReads(env, task, step, since, marks) && |marks| >= MAX_READY_RETRIES {
      assert CountedReads(env, task, step, since, marks[..MAX_READY_RETRIES]);
      SixtyReadsEndWait(env, task, step, since, marks[..MAX_READY_RETRIES]);
    } else if times, result :| Waited(env.world, task, step, since, times, result) {
      WaitIsReadOff(env, task, step, since, times, result);
    }
  }

  /** From a wait that ended, what makes the container get ready. */
  lemma WaitIsReadOff(env: Env, task: TaskMeta, step: StepMeta, since: nat, times: seq<nat>, result: WaitResult)
    requires Waited(env.world, task, step, since, times, result)
    ensures !NeverReady(env, task, step, since)
  {
    var answers := AnswersAt(env.world, task, step, times);
    assert forall k | 0 <= k < |times| :: answers(k) == ContainerAt(env.world, task, step, times[k]);
    if result == TimedOut {
      var marks := CountedCalls(answers, times, |times|);
      assert CountedReads(env, task, step, since, marks);
    } else {
      assert Settles(ContainerAt(env.world, task, step, times[|times| - 1])).Some?;
    }
  }

  // ── Blocked workers ────────────────────────────────────────────────────

  /** What a worker does by itself: no log line, no shutdown, and no read that is refused and to be repeated. */
  predicate OwnStep(a: WorkerAction) {
    !a.Line? && !a.SeeShutdown? && !(a.Poll? && a.answer.Unauthorized?)
  }

  /** Actions the program takes by itself: no shutdown or disconnect, and no log line. */
  predicate OnItsOwn(a: Action) {
    match a
    case Work(_, step) => OwnStep(step)
    case ChannelClosed => false
    case StopOnShutdown => false
    case Shutdown => false
    case Disconnect => false
    case _ => true
  }

  /** The worker waits for a container that from now on only answers 401. */
  ghost predicate Refused(env: Env, w: Worker) {
    WaitsForStep(w) && OnlyRefuses(env, w.task, w.task.steps[w.pc.i], w.now)
  }

  /** The worker follows a log that is not over from now on. */
  ghost predicate Listening(env: Env, w: Worker) {
    && w.pc.Streaming? && w.pc.follow && w.pc.i < |w.task.steps|
    && forall at: nat | at >= w.now :: !LogOverAt(env.world, w.task, w.task.steps[w.pc.i], at)
  }

  ghost predicate Blocked(env: Env, w: Worker) {
    Refused(env, w) || Listening(env, w)
  }

  /** A poll for a task can end: with the task, or given up when the cap has passed. */
  lemma PollCanEnd(env: Env, w: Worker) returns (a: WorkerAction)
    requires MustPoll(w)
    ensures (a.Resolve? || a.GiveUp?) && forall shutdown :: WorkerEnabled(env, w, a, shutdown)
  {
    var late := w.now + SAFETY_CAP;
    InstantIsGlimpsed(env.world, w.now, late, late);
    var r := RefreshTask(env.world(late), env.runName, w.task.name);
    assert Refreshes(env, w.task.name, w.now, late, r);
    a := if Started(r) then Resolve(r.value.value, late) else GiveUp(late, late);
  }

  /** A worker that has not finished and is not blocked can take a step of its own. */
  lemma WorkerCanStep(env: Env, w: Worker, shutdown: bool) returns (a: WorkerAction)
    requires InOrderAt(w, shutdown) && !WorkerGone(w) && !Blocked(env, w)
    ensures WorkerEnabled(env, w, a, shutdown) && OwnStep(a)
  {
    match w.pc {
      case Resolving =>
        if MustPoll(w) {
          a := PollCanEnd(env, w);
        } else {
          a := Begin;
        }
      case AtStep(i) =>
        if WaitsForStep(w) {
          var at: nat :| at >= w.now && !ContainerAt(env.world, w.task, w.task.steps[i], at).Unauthorized?;
          a := Poll(at, ContainerAt(env.world, w.task, w.task.steps[i], at));
        } else {
          a := if i == |w.task.steps| then Conclude(LastPoll(w.now, w.now, w.now + TASKRUN_TERMINAL_TIMEOUT)) else Open;
        }
      case Streaming(i, follow) =>
        var at := w.now;
        if follow {
          at :| at >= w.now && LogOverAt(env.world, w.task, w.task.steps[i], at);
        }
        a := EndOfLogs(at);
      case Reporting(_) => a := Report(seq(MAX_ATTEMPTS, _ => w.now));
      case Finishing => a := Finish;
    }
  }

  /** A blocked worker can only go on listening, ask again to be refused, or see a shutdown. */
  lemma BlockedWorkerWaits(env: Env, w: Worker, a: WorkerAction, shutdown: bool)
    requires Blocked(env, w) && WorkerEnabled(env, w, a, shutdown)
    ensures !OwnStep(a) && (shutdown || Blocked(env, WorkerAfter(env, w, a, shutdown, true)))
  {
  }

  /** The receiver waits for items, none is queued, and every worker is gone or blocked. */
  ghost predicate Stuck(env: Env, s: State) {
    && s.phase == Looping && s.receiver.tasksRemaining != 0 && s.queue == []
    && forall w | 0 <= w < |s.workers| :: WorkerGone(s.workers[w]) || Blocked(env, s.workers[w])
  }

  /** A time that none of the clocks is past. */
  function Latest(workers: seq<Worker>, now: nat): nat {
    if workers == [] then now
    else
      var before, last := Latest(workers[..|workers| - 1], now), workers[|workers| - 1].now;
      if before <= last then last else before
  }

  lemma {:induction false} LatestCovers(workers: seq<Worker>, now: nat)
    ensures now <= Latest(workers, now)
    ensures forall w | 0 <= w < |workers| :: workers[w].now <= Latest(workers, now)
  {
    if workers != [] {
      LatestCovers(workers[..|workers| - 1], now);
    }
  }

  lemma LatestIsAfterAll(s: State)
    ensures AfterAll(s, Latest(s.workers, s.now))
  {
    LatestCovers(s.workers, s.now);
  }

  lemma SomeoneCanStep(env: Env, s: State) returns (a: Action)
    requires Inv(s) && s.phase.Alive() && !Stuck(env, s)
    ensures Enabled(env, s, a) && OnItsOwn(a)
  {
    if s.phase == Judging {
      a := if s.receiver.anyTaskFailed then JudgeFailed else Judge(LastPoll(s.now, s.now, s.now + SHORT_TIMEOUT));
    } else if s.receiver.tasksRemaining == 0 {
      a := LeaveLoop(Latest(s.workers, s.now));
      LatestIsAfterAll(s);
    } else if s.queue != [] {
      a := Receive;
    } else {
      var w :| 0 <= w < |s.workers| && !WorkerGone(s.workers[w]) && !Blocked(env, s.workers[w]);
      assert InOrderAt(s.workers[w], s.shutdown);
      var step := WorkerCanStep(env, s.workers[w], s.shutdown);
      a := Work(w, step);
    }
  }

  lemma StuckStaysStuck(env: Env, s: State, a: Action)
    requires Stuck(env, s) && Enabled(env, s, a)
    ensures !OnItsOwn(a)
  {
    if a.Work? {
      assert WorkerGone(s.workers[a.w]) || Blocked(env, s.workers[a.w]);
      if Blocked(env, s.workers[a.w]) {
        BlockedWorkerWaits(env, s.workers[a.w], a.step, s.shutdown);
      }
    }
  }

  lemma SomeoneIsUnfinished(s: State) returns (w: nat)
    requires Channel(s) && Counts(s) && |s.workers| == |s.meta.tasks|
    requires s.phase == Looping && s.receiver.tasksRemaining != 0 && s.queue == []
    ensures w < |s.workers| && !WorkerGone(s.workers[w])
  {
    CountsConserve(s);
    StoppedCountBounds(s.workers);
    w :| 0 <= w < |s.workers| && s.workers[w].pc != Stopped;
  }

  /** In a stuck stream some worker is blocked: it is not that all have finished. */
  lemma SomeoneIsBlocked(env: Env, s: State) returns (w: nat)
    requires Inv(s) && Stuck(env, s)
    ensures w < |s.workers| && Blocked(env, s.workers[w])
  {
    w := SomeoneIsUnfinished(s);
    assert WorkerGone(s.workers[w]) || Blocked(env, s.workers[w]);
  }

  /**
    Deadlock: while the receiver lives, something can move without a shutdown, a log line or a
    refused read exactly unless nothing is queued and every unfinished worker waits for a container
    that only answers 401 from now on or follows a log that is not over from now on; and then there
    is such a worker.
  */
  lemma DeadlockExactly(env: Env, meta: RunMeta, since: nat, s: State)
    requires Reachable(env, meta, since, s) && s.phase.Alive()
    ensures (exists a :: Enabled(env, s, a) && OnItsOwn(a)) <==> !Stuck(env, s)
    ensures Stuck(env, s) ==> exists w :: 0 <= w < |s.workers| && Blocked(env, s.workers[w])
  {
    ReachableInv(env, meta, since, s);
    if Stuck(env, s) {
      forall a | Enabled(env, s, a)
        ensures !OnItsOwn(a)
      {
        StuckStaysStuck(env, s, a);
      }
      var w := SomeoneIsBlocked(env, s);
    } else {
      var a := SomeoneCanStep(env, s);
    }
  }

  /** The worker polls for its task, waits for a container or for its TaskRun, or follows a log. */
  predicate Awaits(w: Worker) {
    match w.pc
    case Resolving => w.task.taskrunName == ""
    case AtStep(i) => i == |w.task.steps| || (i < |w.task.steps| && w.task.steps[i].status == Pending)
    case Streaming(_, _) => true
    case _ => false
  }

  /**
    A shutdown is never waited out. A live receiver can then end at once, whatever it waits for, or,
    with nothing left to wait for, go on. So can every worker that waits, a blocked one included: from
    a log it goes on to report the step, from anything else to its `TaskDone`.
  */
  lemma ShutdownIsSeen(env: Env, meta: RunMeta, since: nat, s: State, w: nat)
    requires Reachable(env, meta, since, s) && s.shutdown
    ensures s.phase == Looping && s.receiver.tasksRemaining != 0 ==> Enabled(env, s, StopOnShutdown)
    ensures s.phase == Looping && s.receiver.tasksRemaining == 0 ==> exists at: nat :: Enabled(env, s, LeaveLoop(at))
    ensures s.phase == Judging ==>
              if SomeTaskFailed(s.received) then Enabled(env, s, JudgeFailed) else Enabled(env, s, StopOnShutdown)
    ensures w < |s.workers| && (Awaits(s.workers[w]) || Blocked(env, s.workers[w])) ==>
              && Enabled(env, s, Work(w, SeeShutdown))
              && var pc := s.workers[w].pc;
                 Apply(env, s, Work(w, SeeShutdown)).workers[w].pc ==
                 if pc.Streaming? then Reporting(pc.i) else Finishing
  {
    ReachableInv(env, meta, since, s);
    FailuresAreCounted(|s.meta.tasks|, s.received);
    LatestIsAfterAll(s);
    if s.phase == Looping && s.receiver.tasksRemaining == 0 {
      assert Enabled(env, s, LeaveLoop(Latest(s.workers, s.now)));
    }
  }

  // ── Every stream left to itself completes ──────────────────────────────

  lemma {:induction false} OwnRun(env: Env, s: State, actions: seq<Action>)
    requires Inv(s) && s.phase.Alive() && Executable(env, s, actions)
    requires forall a | a in actions :: OnItsOwn(a)
    ensures Inv(Run(env, s, actions))
    ensures Run(env, s, actions).phase.Alive() || Run(env, s, actions).phase == Completed
    decreases |actions|
  {
    if actions != [] {
      assert OnItsOwn(actions[0]);
      var s' := Apply(env, s, actions[0]);
      ApplyKeepsInv(env, s, actions[0]);
      if s'.phase.Alive() {
        OwnRun(env, s', actions[1..]);
      } else {
        AfterCompletion(env, s', actions[1..]);
      }
    }
  }

  /** Nothing of its own happens after `done`: every worker has stopped. */
  lemma AfterCompletion(env: Env, s: State, actions: seq<Action>)
    requires Inv(s) && s.phase == Completed && Executable(env, s, actions)
    requires forall a | a in actions :: OnItsOwn(a)
    ensures actions == []
  {
    if actions != [] {
      assert OnItsOwn(actions[0]);
      if actions[0].Work? {
        DrainedWorkersRest(env, s, actions[0].w, actions[0].step);
      }
    }
  }

  /**
    From any state of a live stream, if no further log line, shutdown or disconnect comes, every
    schedule ends within the state's potential and the steps of the tasks that still start; and one
    that cannot be continued has reached `done`, or is stuck on blocked workers.
  */
  lemma LeftAloneItCompletes(env: Env, s: State, actions: seq<Action>)
    requires Inv(s) && s.phase.Alive() && Executable(env, s, actions)
    requires forall a | a in actions :: OnItsOwn(a)
    ensures |actions| <= Potential(s) + AllAdds(actions)
    ensures var end := Run(env, s, actions);
            end.phase == Completed || Stuck(env, end) || exists a :: Enabled(env, end, a) && OnItsOwn(a)
  {
    OwnRun(env, s, actions);
    RunCosts(env, s, actions);
    var end := Run(env, s, actions);
    AllRemainingIsNat(end.workers, end.shutdown);
    if end.phase.Alive() && !Stuck(env, end) {
      var a := SomeoneCanStep(env, end);
    }
  }
}
