/**
  The polling helpers of src/handlers/run_event_stream.rs. The answers of successive polls and the
  elapsed time read after each are parameters; a sleep lasts at least its interval.
*/
module Polling {
  import opened Wrappers
  import opened Sequences
  import opened Clock
  import opened RunModel
  import opened TektonApi
  import opened RunDiscovery

  const TASKRUN_TERMINAL_TIMEOUT: nat := 600 * SECOND
  const TASKRUN_POLL_INTERVAL: nat := 2 * SECOND
  const SHORT_TIMEOUT: nat := 30 * SECOND
  const SAFETY_CAP: nat := 60 * 60 * 4 * SECOND
  const PR_CHECK_EVERY: nat := 15
  const MAX_ATTEMPTS: nat := 5

  /** What a wait reports: a status with its reason. */
  type Outcome = (RunStatus, Option<string>)

  /** `elapsed(i)` is read after poll `i`; a sleep of at least the interval separates the polls. */
  ghost predicate Sleeps(elapsed: nat -> nat) {
    forall i :: Slept(elapsed, i)
  }

  predicate Slept(elapsed: nat -> nat, i: nat) {
    elapsed(i) + TASKRUN_POLL_INTERVAL <= elapsed(i + 1)
  }

  lemma {:induction false} ElapsedAfter(elapsed: nat -> nat, i: nat)
    requires Sleeps(elapsed)
    ensures elapsed(i) >= i * TASKRUN_POLL_INTERVAL
  {
    if i > 0 {
      ElapsedAfter(elapsed, i - 1);
      assert Slept(elapsed, i - 1);
    }
  }

  /** Within `n` intervals there are fewer than `n` sleeps. */
  lemma PollsWithin(elapsed: nat -> nat, i: nat, n: nat)
    requires Sleeps(elapsed)
    ensures elapsed(i) < n * TASKRUN_POLL_INTERVAL ==> i < n
  {
    ElapsedAfter(elapsed, i);
    if n <= i {
      assert n * TASKRUN_POLL_INTERVAL <= i * TASKRUN_POLL_INTERVAL;
    }
  }

  /** None of the first `polls` answers decided, and time was left after each. */
  ghost predicate Undecided<R(!new)>(decision: nat -> Option<R>, elapsed: nat -> nat, timeout: nat, polls: nat) {
    forall j | 0 <= j < polls :: decision(j).None? && elapsed(j) < timeout
  }

  /**
    A loop that polls until an answer decides or the time is up, and has polled `polls` times:
    the last poll decided on `r`, or came too late and `r` is the result for a timeout.
  */
  ghost predicate EndsWith<R(!new)>(
    decision: nat -> Option<R>, elapsed: nat -> nat, timeout: nat, timedOut: R, polls: nat, r: R)
  {
    && polls > 0
    && Undecided(decision, elapsed, timeout, polls - 1)
    && (decision(polls - 1) == Some(r) ||
        (decision(polls - 1).None? && elapsed(polls - 1) >= timeout && r == timedOut))
  }

  /** Such a loop has one possible end. */
  lemma EndIsUnique<R(!new)>(
    decision: nat -> Option<R>, elapsed: nat -> nat, timeout: nat, timedOut: R,
    polls: nat, r: R, polls': nat, r': R)
    requires EndsWith(decision, elapsed, timeout, timedOut, polls, r)
    requires EndsWith(decision, elapsed, timeout, timedOut, polls', r')
    ensures polls == polls' && r == r'
  {
    assert polls <= polls' && polls' <= polls;
  }

  /** The last poll of a wait begun at `begun`: asked at `at`, and the clock read at `ended`. */
  datatype LastPoll = LastPoll(begun: nat, at: nat, ended: nat)

  /** It decided, or it came too late. */
  predicate EndsWait<R>(poll: LastPoll, decision: Option<R>, timeout: nat) {
    poll.begun <= poll.at <= poll.ended && (decision.None? ==> poll.ended >= poll.begun + timeout)
  }

  lemma LastPollEndsWait<R(!new)>(
    decision: nat -> Option<R>, elapsed: nat -> nat, timeout: nat, timedOut: R, polls: nat, r: R, poll: LastPoll)
    requires EndsWith(decision, elapsed, timeout, timedOut, polls, r)
    requires poll.begun <= poll.at <= poll.ended && poll.ended == poll.begun + elapsed(polls - 1)
    ensures EndsWait(poll, decision(polls - 1), timeout)
    ensures r == decision(polls - 1).GetOr(timedOut)
  {
  }

  // ── wait_for_taskrun_terminal_status ───────────────────────────────────

  /** The outcome a decided condition gives. */
  function ConditionOutcome(conditions: seq<Condition>): Option<Outcome> {
    if ConditionStatus(conditions) == Some("True") then Some((Succeeded, ConditionReason(conditions)))
    else if ConditionStatus(conditions) == Some("False") then Some((Failed, ConditionReason(conditions)))
    else None
  }

  function TaskRunDecision(answer: Answer<TaskRun>): Option<Outcome> {
    match answer
    case Ok(Some(tr)) => ConditionOutcome(tr.conditions)
    case Ok(None) => Some((Unknown, Some("TaskRun disappeared")))
    case Err(_) => None
  }

  function TaskRunDecisions(answers: nat -> Answer<TaskRun>): nat -> Option<Outcome> {
    (i: nat) => TaskRunDecision(answers(i))
  }

  const TASKRUN_TIMED_OUT: Outcome := (Unknown, Some("timed out waiting for TaskRun"))

  method WaitForTaskRunTerminalStatus(answers: nat -> Answer<TaskRun>, elapsed: nat -> nat)
    returns (r: Outcome, polls: nat)
    requires Sleeps(elapsed)
    ensures EndsWith(TaskRunDecisions(answers), elapsed, TASKRUN_TERMINAL_TIMEOUT, TASKRUN_TIMED_OUT, polls, r)
    ensures polls <= 301
  {
    polls := 0;
    while true
      invariant Undecided(TaskRunDecisions(answers), elapsed, TASKRUN_TERMINAL_TIMEOUT, polls)
      invariant polls <= 300
      decreases 301 - polls
    {
      PollsWithin(elapsed, polls, 300);
      var i := polls;
      polls := polls + 1;
      match answers(i) {
        case Ok(Some(tr)) =>
          if ConditionStatus(tr.conditions) == Some("True") {
            return (Succeeded, ConditionReason(tr.conditions)), polls;
          }
          if ConditionStatus(tr.conditions) == Some("False") {
            return (Failed, ConditionReason(tr.conditions)), polls;
          }
        case Ok(None) =>
          return (Unknown, Some("TaskRun disappeared")), polls;
        case Err(_) =>
      }
      if elapsed(i) >= TASKRUN_TERMINAL_TIMEOUT {
        return TASKRUN_TIMED_OUT, polls;
      }
    }
  }

  // ── wait_for_pipelinerun_terminal_status ───────────────────────────────

  function PipelineRunDecision(answer: Answer<PipelineRun>): Option<Outcome> {
    match answer
    case Ok(Some(pr)) => ConditionOutcome(pr.conditions)
    case Ok(None) => Some((Unknown, None))
    case Err(_) => None
  }

  function PipelineRunDecisions(answers: nat -> Answer<PipelineRun>): nat -> Option<Outcome> {
    (i: nat) => PipelineRunDecision(answers(i))
  }

  const PIPELINERUN_TIMED_OUT: Outcome := (Unknown, Some("PipelineRun condition not finalized yet"))

  method WaitForPipelineRunTerminalStatus(answers: nat -> Answer<PipelineRun>, elapsed: nat -> nat)
    returns (r: Outcome, polls: nat)
    requires Sleeps(elapsed)
    ensures EndsWith(PipelineRunDecisions(answers), elapsed, SHORT_TIMEOUT, PIPELINERUN_TIMED_OUT, polls, r)
    ensures polls <= 16
  {
    polls := 0;
    while true
      invariant Undecided(PipelineRunDecisions(answers), elapsed, SHORT_TIMEOUT, polls)
      invariant polls <= 15
      decreases 16 - polls
    {
      PollsWithin(elapsed, polls, 15);
      var i := polls;
      polls := polls + 1;
      match answers(i) {
        case Ok(Some(pr)) =>
          if ConditionStatus(pr.conditions) == Some("True") {
            return (Succeeded, ConditionReason(pr.conditions)), polls;
          }
          if ConditionStatus(pr.conditions) == Some("False") {
            return (Failed, ConditionReason(pr.conditions)), polls;
          }
        case Ok(None) =>
          return (Unknown, None), polls;
        case Err(_) =>
      }
      if elapsed(i) >= SHORT_TIMEOUT {
        return PIPELINERUN_TIMED_OUT, polls;
      }
    }
  }

  predicate PipelineRunReads(answer: Answer<PipelineRun>, status: string) {
    answer.Ok? && answer.value.Some? && Reads(answer.value.value.conditions, status)
  }

  predicate TaskRunReads(answer: Answer<TaskRun>, status: string) {
    answer.Ok? && answer.value.Some? && Reads(answer.value.value.conditions, status)
  }

  /** What the last answer of a wait for a PipelineRun is reported as, a timeout included. */
  predicate RunReportedAs(answer: Answer<PipelineRun>, r: Outcome) {
    && (r.0 == Succeeded <==> PipelineRunReads(answer, "True"))
    && (r.0 == Failed <==> PipelineRunReads(answer, "False"))
    && (r.0 == Succeeded || r.0 == Failed ==> r.1 == answer.value.value.conditions[0].reason)
    && (answer == Ok(None) ==> r == (Unknown, None))
    && (r.0 != Succeeded && r.0 != Failed && answer != Ok(None) ==>
          r == (Unknown, Some("PipelineRun condition not finalized yet")))
  }

  predicate TaskReportedAs(answer: Answer<TaskRun>, r: Outcome) {
    && (r.0 == Succeeded <==> TaskRunReads(answer, "True"))
    && (r.0 == Failed <==> TaskRunReads(answer, "False"))
    && (r.0 == Succeeded || r.0 == Failed ==> r.1 == answer.value.value.conditions[0].reason)
    && (answer == Ok(None) ==> r == (Unknown, Some("TaskRun disappeared")))
    && (r.0 != Succeeded && r.0 != Failed && answer != Ok(None) ==>
          r == (Unknown, Some("timed out waiting for TaskRun")))
  }

  /** The answer leaves a wait for a PipelineRun going: an error, or a condition that is neither "True" nor "False". */
  predicate RunUndecided(answer: Answer<PipelineRun>) {
    answer != Ok(None) && !PipelineRunReads(answer, "True") && !PipelineRunReads(answer, "False")
  }

  predicate TaskUndecided(answer: Answer<TaskRun>) {
    answer != Ok(None) && !TaskRunReads(answer, "True") && !TaskRunReads(answer, "False")
  }

  /** A wait reports its last answer, undecided only after thirty seconds, and no answer before decided. */
  lemma VerdictIsRead(
    answers: nat -> Answer<PipelineRun>, elapsed: nat -> nat, polls: nat, r: Outcome)
    requires EndsWith(PipelineRunDecisions(answers), elapsed, SHORT_TIMEOUT, PIPELINERUN_TIMED_OUT, polls, r)
    ensures RunReportedAs(answers(polls - 1), r)
    ensures RunUndecided(answers(polls - 1)) ==> elapsed(polls - 1) >= 30 * SECOND
    ensures forall j | 0 <= j < polls - 1 :: RunUndecided(answers(j)) && elapsed(j) < 30 * SECOND
  {
    assert PipelineRunDecisions(answers)(polls - 1) == PipelineRunDecision(answers(polls - 1));
    forall j | 0 <= j < polls - 1
      ensures RunUndecided(answers(j)) && elapsed(j) < 30 * SECOND
    {
      assert PipelineRunDecisions(answers)(j) == PipelineRunDecision(answers(j));
    }
  }

  lemma TaskStatusIsRead(answers: nat -> Answer<TaskRun>, elapsed: nat -> nat, polls: nat, r: Outcome)
    requires EndsWith(TaskRunDecisions(answers), elapsed, TASKRUN_TERMINAL_TIMEOUT, TASKRUN_TIMED_OUT, polls, r)
    ensures TaskReportedAs(answers(polls - 1), r)
    ensures TaskUndecided(answers(polls - 1)) ==> elapsed(polls - 1) >= 600 * SECOND
    ensures forall j | 0 <= j < polls - 1 :: TaskUndecided(answers(j)) && elapsed(j) < 600 * SECOND
  {
    assert TaskRunDecisions(answers)(polls - 1) == TaskRunDecision(answers(polls - 1));
    forall j | 0 <= j < polls - 1
      ensures TaskUndecided(answers(j)) && elapsed(j) < 600 * SECOND
    {
      assert TaskRunDecisions(answers)(j) == TaskRunDecision(answers(j));
    }
  }

  // ── poll_for_task_start ────────────────────────────────────────────────

  /** What one round of the start poll sees: the refreshed task, and the PipelineRun if asked. */
  datatype StartRound = StartRound(task: Result<Option<TaskMeta>, DiscoverError>, pipelineRun: Answer<PipelineRun>)

  predicate HasStarted(task: TaskMeta) {
    task.steps != [] || task.status.IsTerminal()
  }

  /** The PipelineRun exists and its condition is anything but "Unknown", a missing one included. */
  predicate RunDecided(answer: Answer<PipelineRun>) {
    && answer.Ok? && answer.value.Some?
    && ConditionStatus(answer.value.value.conditions) != Some("Unknown")
  }

  predicate RoundStarted(round: StartRound) {
    round.task.Ok? && round.task.value.Some? && HasStarted(round.task.value.value)
  }

  /** The task, or `None` for never started, once a round decides. */
  function StartDecision(i: nat, round: StartRound): Option<Option<TaskMeta>> {
    if RoundStarted(round) then Some(round.task.value)
    else if i % PR_CHECK_EVERY == 0 && RunDecided(round.pipelineRun) then Some(None)
    else None
  }

  function StartDecisions(rounds: nat -> StartRound): nat -> Option<Option<TaskMeta>> {
    (i: nat) => StartDecision(i, rounds(i))
  }

  /** The PipelineRun checks made in the first `polls` rounds: every fifteenth, from the first. */
  function ChecksIn(polls: nat): nat {
    (polls + PR_CHECK_EVERY - 1) / PR_CHECK_EVERY
  }

  lemma ChecksInNext(i: nat)
    ensures ChecksIn(i + 1) == ChecksIn(i) + if i % PR_CHECK_EVERY == 0 then 1 else 0
  {
  }

  /** One round: the refreshed task, then the PipelineRun on every fifteenth round. */
  method PollOnce(i: nat, round: StartRound) returns (decided: Option<Option<TaskMeta>>, checked: bool)
    ensures decided == StartDecision(i, round)
    ensures checked <==> i % PR_CHECK_EVERY == 0 && !RoundStarted(round)
  {
    checked := false;
    if round.task.Ok? && round.task.value.Some? {
      var task := round.task.value.value;
      if task.steps != [] || task.status.IsTerminal() {
        return Some(Some(task)), checked;
      }
    }
    if i % PR_CHECK_EVERY == 0 {
      checked := true;
      if round.pipelineRun.Ok? && round.pipelineRun.value.Some? {
        var pr := round.pipelineRun.value.value;
        if ConditionStatus(pr.conditions) != Some("Unknown") {
          return Some(None), checked;
        }
      }
    }
    return None, checked;
  }

  method PollForTaskStart(rounds: nat -> StartRound, elapsed: nat -> nat)
    returns (r: Option<TaskMeta>, polls: nat, prChecks: nat)
    requires Sleeps(elapsed)
    ensures EndsWith(StartDecisions(rounds), elapsed, SAFETY_CAP, None, polls, r)
    ensures polls <= 7201 && prChecks == ChecksIn(if r.Some? then polls - 1 else polls) <= 481
  {
    polls := 0;
    prChecks := 0;
    r := None;
    while true
      invariant Undecided(StartDecisions(rounds), elapsed, SAFETY_CAP, polls)
      invariant polls <= 7200 && prChecks == ChecksIn(polls)
      decreases 7201 - polls
    {
      PollsWithin(elapsed, polls, 7200);
      ChecksInNext(polls);
      var i := polls;
      polls := polls + 1;
      var decided, checked := PollOnce(i, rounds(i));
      if checked {
        prChecks := prChecks + 1;
      }
      if decided.Some? {
        r := decided.value;
        break;
      }
      if elapsed(i) >= SAFETY_CAP {
        r := None;
        break;
      }
    }
  }

  lemma StartPollEnds(rounds: nat -> StartRound, elapsed: nat -> nat, polls: nat, r: Option<TaskMeta>)
    requires EndsWith(StartDecisions(rounds), elapsed, SAFETY_CAP, None, polls, r)
    ensures r.Some? <==> RoundStarted(rounds(polls - 1))
    ensures r.Some? ==> rounds(polls - 1).task == Ok(r)
    ensures r.None? ==>
              || ((polls - 1) % PR_CHECK_EVERY == 0 && RunDecided(rounds(polls - 1).pipelineRun))
              || elapsed(polls - 1) >= SAFETY_CAP
    ensures forall j | 0 <= j < polls - 1 ::
              && !RoundStarted(rounds(j)) && elapsed(j) < SAFETY_CAP
              && (j % PR_CHECK_EVERY == 0 ==> !RunDecided(rounds(j).pipelineRun))
  {
    assert StartDecisions(rounds)(polls - 1) == StartDecision(polls - 1, rounds(polls - 1));
    forall j | 0 <= j < polls - 1
      ensures StartDecision(j, rounds(j)).None? && elapsed(j) < SAFETY_CAP
    {
      assert StartDecisions(rounds)(j) == StartDecision(j, rounds(j));
    }
  }

  /**
    How a start poll ends. It returns a task exactly when the last round found that task with steps,
    or as Succeeded or Failed. Otherwise four hours had passed, or it was a round that is a multiple
    of fifteen and the PipelineRun was read as anything but "Unknown", a missing condition included.
    No earlier round had any of these: a PipelineRun that reads "Unknown", is missing or cannot be
    read ends no poll before its time.
  */
  lemma StartPollReasons(rounds: nat -> StartRound, elapsed: nat -> nat, polls: nat, r: Option<TaskMeta>)
    requires EndsWith(StartDecisions(rounds), elapsed, SAFETY_CAP, None, polls, r)
    ensures forall task: TaskMeta | rounds(polls - 1).task == Ok(Some(task)) ::
              r == Some(task) <==> task.steps != [] || task.status == Succeeded || task.status == Failed
    ensures r.Some? ==> rounds(polls - 1).task == Ok(r)
    ensures r.None? && elapsed(polls - 1) < 4 * 3600 * SECOND ==>
              && (polls - 1) % 15 == 0
              && exists pr: PipelineRun ::
                   rounds(polls - 1).pipelineRun == Ok(Some(pr)) && !Reads(pr.conditions, "Unknown")
    ensures forall j | 0 <= j < polls - 1 :: elapsed(j) < 4 * 3600 * SECOND
    ensures forall j, task: TaskMeta | 0 <= j < polls - 1 && rounds(j).task == Ok(Some(task)) ::
              task.steps == [] && task.status != Succeeded && task.status != Failed
    ensures forall j, pr: PipelineRun | 0 <= j < polls - 1 && j % 15 == 0 && rounds(j).pipelineRun == Ok(Some(pr)) ::
              Reads(pr.conditions, "Unknown")
  {
    StartPollEnds(rounds, elapsed, polls, r);
  }

  // ── poll_fresh_step_status ─────────────────────────────────────────────

  function TerminalRead(): Option<StepMeta> -> bool {
    (read: Option<StepMeta>) => read.Some? && read.value.status.IsTerminal()
  }

  /** The first terminal read, else whatever the last attempt read. */
  function FreshStep(seen: seq<Option<StepMeta>>): Option<StepMeta>
    requires |seen| == MAX_ATTEMPTS
  {
    match Find(seen, TerminalRead())
    case Some(read) => read
    case None => seen[MAX_ATTEMPTS - 1]
  }

  method PollFreshStepStatus(seen: seq<Option<StepMeta>>) returns (r: Option<StepMeta>)
    requires |seen| == MAX_ATTEMPTS
    ensures r == FreshStep(seen)
  {
    assert seen[0..] == seen;
    for attempt := 0 to MAX_ATTEMPTS
      invariant Find(seen, TerminalRead()) == Find(seen[attempt..], TerminalRead())
      invariant attempt == MAX_ATTEMPTS ==> seen[MAX_ATTEMPTS - 1].None?
    {
      assert seen[attempt..][1..] == seen[attempt + 1..];
      if seen[attempt].Some? {
        if seen[attempt].value.status.IsTerminal() {
          return seen[attempt];
        }
        if attempt + 1 == MAX_ATTEMPTS {
          return seen[attempt];
        }
      }
    }
    return None;
  }

  /** Read `i` found the step as Succeeded or Failed. */
  predicate FinishedAt(seen: seq<Option<StepMeta>>, i: int) {
    0 <= i < |seen| && seen[i].Some? && (seen[i].value.status == Succeeded || seen[i].value.status == Failed)
  }

  /** The retries give the first read of a finished step; without one, the fifth read, whatever it was. */
  lemma FreshStepIsRead(seen: seq<Option<StepMeta>>)
    requires |seen| == 5
    ensures forall i | FinishedAt(seen, i) && (forall k | 0 <= k < i :: !FinishedAt(seen, k)) ::
              FreshStep(seen) == seen[i]
    ensures (forall i :: !FinishedAt(seen, i)) ==> FreshStep(seen) == seen[4]
  {
    assert forall i | 0 <= i < 5 :: TerminalRead()(seen[i]) <==> FinishedAt(seen, i);
    forall i | FinishedAt(seen, i) && (forall k | 0 <= k < i :: !FinishedAt(seen, k))
      ensures FreshStep(seen) == seen[i]
    {
      FindIsFirst(seen, TerminalRead(), i);
    }
    if Find(seen, TerminalRead()).Some? {
      var i := FindPosition(seen, TerminalRead());
      assert FinishedAt(seen, i);
    }
  }

  // ── No step goes backwards ─────────────────────────────────────────────

  /** The cluster over time. */
  type World = nat -> Cluster

  predicate GavePipelineRun(world: World, begun: nat, ended: nat, name: string, answer: Answer<PipelineRun>) {
    exists t: nat :: begun <= t <= ended && world(t).getPipelineRun(name) == answer
  }

  predicate GaveTaskRun(world: World, begun: nat, ended: nat, name: string, answer: Answer<TaskRun>) {
    exists t: nat :: begun <= t <= ended && world(t).getTaskRun(name) == answer
  }

  predicate GaveList(world: World, begun: nat, ended: nat, customRun: string, answer: Result<seq<TaskRun>, string>) {
    exists t: nat :: begun <= t <= ended && world(t).listByCustomRunLabel(customRun) == answer
  }

  /**
    The cluster as it looks to a reader that asks it more than once: every answer was given at some
    time from `begun` to `ended`.
  */
  ghost predicate Glimpsed(world: World, seen: Cluster, begun: nat, ended: nat) {
    && (forall n: string :: GavePipelineRun(world, begun, ended, n, seen.getPipelineRun(n)))
    && (forall n: string :: GaveTaskRun(world, begun, ended, n, seen.getTaskRun(n)))
    && (forall c: string :: GaveList(world, begun, ended, c, seen.listByCustomRunLabel(c)))
  }

  /** What is read at one instant is a glimpse. */
  lemma InstantIsGlimpsed(world: World, begun: nat, at: nat, ended: nat)
    requires begun <= at <= ended
    ensures Glimpsed(world, world(at), begun, ended)
  {
  }

  function Rank(status: RunStatus): nat {
    match status
    case Pending => 0
    case Running => 1
    case _ => 2
  }

  /** `later` is the same status, or a later phase than `earlier`. */
  predicate AtOrAfter(earlier: RunStatus, later: RunStatus) {
    earlier == later || Rank(earlier) < Rank(later)
  }

  /** A step's container only moves forward, and how it terminated does not change. */
  predicate StepAdvances(earlier: StepState, later: StepState) {
    && (earlier.terminated.Some? ==> later.terminated == earlier.terminated)
    && (earlier.running ==> later.running || later.terminated.Some?)
  }

  predicate UniqueSteps(tr: TaskRun) {
    forall i, j | 0 <= i < j < |tr.steps| :: StepName(tr.steps[i]) != StepName(tr.steps[j])
  }

  predicate TaskRunAdvances(earlier: TaskRun, later: TaskRun) {
    forall a, b | a in earlier.steps && b in later.steps && StepName(a) == StepName(b) :: StepAdvances(a, b)
  }

  /** Over time the steps of a TaskRun, uniquely named, only advance. */
  ghost predicate OnlyAdvances(world: World, taskrunName: string) {
    && (forall t, tr | Shows(world, t, taskrunName, tr) :: UniqueSteps(tr))
    && (forall t, t', a, b | t <= t' && Shows(world, t, taskrunName, a) && Shows(world, t', taskrunName, b) ::
          TaskRunAdvances(a, b))
  }

  predicate Shows(world: World, t: nat, taskrunName: string, tr: TaskRun) {
    world(t).getTaskRun(taskrunName) == Ok(Some(tr))
  }

  lemma AdvancingStepStatus(a: StepState, b: StepState)
    requires StepAdvances(a, b)
    ensures AtOrAfter(LiveStep(a).status, LiveStep(b).status)
  {
  }

  /** One refresh at a later time never reports an earlier phase. */
  lemma RefreshedStepAdvances(world: World, taskrunName: string, t: nat, t': nat, tr: TaskRun, step: StepMeta)
    requires OnlyAdvances(world, taskrunName) && t <= t' && Shows(world, t, taskrunName, tr)
    requires step in StepsFromTaskRunStatus(tr)
    ensures var read := RefreshStepStatus(world(t'), taskrunName, step.name);
            read.Some? ==> AtOrAfter(step.status, read.value.status)
  {
    var read := RefreshStepStatus(world(t'), taskrunName, step.name);
    if read.Some? {
      var tr' := world(t').getTaskRun(taskrunName).value.value;
      assert Shows(world, t', taskrunName, tr');
      var i :| 0 <= i < |tr.steps| && LiveStep(tr.steps[i]) == step;
      var steps' := StepsFromTaskRunStatus(tr');
      FindMeans(steps', (s: StepMeta) => s.name == step.name);
      assert read.value in steps';
      var j :| 0 <= j < |steps'| && steps'[j] == read.value;
      assert LiveStep(tr'.steps[j]) == read.value;
      assert tr.steps[i] in tr.steps && tr'.steps[j] in tr'.steps;
      AdvancingStepStatus(tr.steps[i], tr'.steps[j]);
    }
  }

  predicate InOrder(times: seq<nat>, since: nat) {
    && (forall i | 0 <= i < |times| :: since <= times[i])
    && (forall i, j | 0 <= i < j < |times| :: times[i] <= times[j])
  }

  function SeenAt(world: World, taskrunName: string, stepName: string, times: seq<nat>): (r: seq<Option<StepMeta>>)
    ensures |r| == |times|
  {
    MapSeq(times, t => RefreshStepStatus(world(t), taskrunName, stepName))
  }

  /** The status a worker sends for a step: what the retries found, else the step it started from. */
  function FreshOr(world: World, taskrunName: string, step: StepMeta, times: seq<nat>): StepMeta
    requires |times| == MAX_ATTEMPTS
  {
    FreshStep(SeenAt(world, taskrunName, step.name, times)).GetOr(step)
  }

  /** At that time the TaskRun can be read, and its first step of the name is in that state. */
  ghost predicate Finds(cluster: Cluster, taskrunName: string, name: string, state: StepState) {
    exists tr, i :: FirstStep(cluster, taskrunName, name, tr, i) && tr.steps[i] == state
  }

  ghost predicate FindsEnded(cluster: Cluster, taskrunName: string, name: string) {
    exists state :: Finds(cluster, taskrunName, name, state) && state.terminated.Some?
  }

  /**
    `latest` is the step as the first of the reads that found it terminated; without one, as the
    last read found it; and the step itself if that read did not find it.
  */
  ghost predicate ReadAfresh(world: World, taskrunName: string, step: StepMeta, times: seq<nat>, latest: StepMeta)
    requires |times| == MAX_ATTEMPTS
  {
    && (forall j, state |
          && 0 <= j < |times| && Finds(world(times[j]), taskrunName, step.name, state) && state.terminated.Some?
          && (forall k | 0 <= k < j :: !FindsEnded(world(times[k]), taskrunName, step.name)) ::
          StepIs(latest, state))
    && ((forall j | 0 <= j < |times| :: !FindsEnded(world(times[j]), taskrunName, step.name)) ==>
          && (forall state | Finds(world(times[4]), taskrunName, step.name, state) :: StepIs(latest, state))
          && ((forall state :: !Finds(world(times[4]), taskrunName, step.name, state)) ==> latest == step))
  }

  lemma ReadFinds(cluster: Cluster, taskrunName: string, name: string)
    ensures var read := RefreshStepStatus(cluster, taskrunName, name);
            && (read.Some? <==> exists state :: Finds(cluster, taskrunName, name, state))
            && (forall state | read.Some? && Finds(cluster, taskrunName, name, state) :: StepIs(read.value, state))
            && (FinishedAt([read], 0) <==> FindsEnded(cluster, taskrunName, name))
  {
    RefreshedStepIsShown(cluster, taskrunName, name);
    if RefreshStepStatus(cluster, taskrunName, name).Some? {
      var tr, i :| FirstStep(cluster, taskrunName, name, tr, i);
      assert Finds(cluster, taskrunName, name, tr.steps[i]);
    }
  }

  /** What a worker sends for a step was read: by the first of the five reads that found it terminated, or the last. */
  lemma FreshOrIsRead(world: World, taskrunName: string, step: StepMeta, times: seq<nat>)
    requires |times| == 5
    ensures ReadAfresh(world, taskrunName, step, times, FreshOr(world, taskrunName, step, times))
  {
    var seen := SeenAt(world, taskrunName, step.name, times);
    forall j | 0 <= j < 5
      ensures FinishedAt(seen, j) <==> FindsEnded(world(times[j]), taskrunName, step.name)
    {
      ReadFinds(world(times[j]), taskrunName, step.name);
    }
    FreshStepIsRead(seen);
    forall j, state |
      && 0 <= j < |times| && Finds(world(times[j]), taskrunName, step.name, state) && state.terminated.Some?
      && (forall k | 0 <= k < j :: !FindsEnded(world(times[k]), taskrunName, step.name))
      ensures StepIs(FreshOr(world, taskrunName, step, times), state)
    {
      ReadFinds(world(times[j]), taskrunName, step.name);
    }
    ReadFinds(world(times[4]), taskrunName, step.name);
  }

  /** No step goes backwards: the status sent is at or after the one the worker started from. */
  lemma NoStepGoesBackwards(
    world: World, taskrunName: string, since: nat, tr: TaskRun, step: StepMeta, times: seq<nat>)
    requires OnlyAdvances(world, taskrunName) && Shows(world, since, taskrunName, tr)
    requires step in StepsFromTaskRunStatus(tr)
    requires |times| == MAX_ATTEMPTS && InOrder(times, since)
    ensures AtOrAfter(step.status, FreshOr(world, taskrunName, step, times).status)
  {
    var seen := SeenAt(world, taskrunName, step.name, times);
    if FreshStep(seen).Some? {
      FindMeans(seen, TerminalRead());
      assert FreshStep(seen) in seen;
      var i :| 0 <= i < |seen| && seen[i] == FreshStep(seen);
      RefreshedStepAdvances(world, taskrunName, since, times[i], tr, step);
    }
  }

  /** A terminal status seen by any retry is the one reported. */
  lemma TerminalReadIsReported(world: World, taskrunName: string, step: StepMeta, times: seq<nat>, since: nat, i: nat)
    requires OnlyAdvances(world, taskrunName)
    requires |times| == MAX_ATTEMPTS && InOrder(times, since) && i < MAX_ATTEMPTS
    requires TerminalRead()(RefreshStepStatus(world(times[i]), taskrunName, step.name))
    ensures FreshOr(world, taskrunName, step, times).status ==
            RefreshStepStatus(world(times[i]), taskrunName, step.name).value.status
  {
    var seen := SeenAt(world, taskrunName, step.name, times);
    FindMeans(seen, TerminalRead());
    assert seen[i] in seen;
    var first := Find(seen, TerminalRead()).value;
    var j :| 0 <= j < |seen| && seen[j] == first;
    if i <= j {
      TerminalReadsAgree(world, taskrunName, step.name, times[i], times[j]);
    } else {
      TerminalReadsAgree(world, taskrunName, step.name, times[j], times[i]);
    }
  }

  lemma TerminalReadsAgree(world: World, taskrunName: string, stepName: string, t: nat, t': nat)
    requires OnlyAdvances(world, taskrunName) && t <= t'
    requires TerminalRead()(RefreshStepStatus(world(t), taskrunName, stepName))
    requires TerminalRead()(RefreshStepStatus(world(t'), taskrunName, stepName))
    ensures RefreshStepStatus(world(t), taskrunName, stepName).value.status ==
            RefreshStepStatus(world(t'), taskrunName, stepName).value.status
  {
    var tr := world(t).getTaskRun(taskrunName).value.value;
    assert Shows(world, t, taskrunName, tr);
    var step := RefreshStepStatus(world(t), taskrunName, stepName).value;
    FindMeans(StepsFromTaskRunStatus(tr), (s: StepMeta) => s.name == stepName);
    RefreshedStepAdvances(world, taskrunName, t, t', tr, step);
  }
}
