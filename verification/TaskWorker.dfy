/**
  `run_task_worker` as the program it is: loops over steps and log lines that send as they go. Every
  execution is a path of the worker in the transition system, so it keeps to the grammar.
*/
module TaskWorker {
  import opened Wrappers
  import opened Sequences
  import opened RunModel
  import opened Polling
  import opened StepLogStream
  import opened EventStream
  import opened WorkerOrder

  // ── Paths of a worker ──────────────────────────────────────────────────

  /** One action, and whether the receiver was still there. */
  datatype Tick = Tick(action: WorkerAction, alive: bool)

  /** The action is enabled, and leads there. */
  ghost predicate Ticks(env: Env, shutdown: bool, w: Worker, tick: Tick, after: Worker) {
    WorkerEnabled(env, w, tick.action, shutdown) && after == WorkerAfter(env, w, tick.action, shutdown, tick.alive)
  }

  /** The worker before each action of the script and after the last, each enabled in turn. */
  ghost predicate Traces(env: Env, shutdown: bool, script: seq<Tick>, trace: seq<Worker>) {
    && |trace| == |script| + 1
    && forall k {:trigger script[k]} | 0 <= k < |script| :: Ticks(env, shutdown, trace[k], script[k], trace[k + 1])
  }

  /** The script takes the worker from `start` to `end`. */
  ghost predicate Leads(env: Env, shutdown: bool, start: Worker, script: seq<Tick>, end: Worker) {
    exists trace :: Traces(env, shutdown, script, trace) && trace[0] == start && trace[|script|] == end
  }

  lemma Extend(env: Env, shutdown: bool, start: Worker, script: seq<Tick>, w: Worker, tick: Tick)
    requires Leads(env, shutdown, start, script, w) && WorkerEnabled(env, w, tick.action, shutdown)
    ensures Leads(
              env, shutdown, start, script + [tick], WorkerAfter(env, w, tick.action, shutdown, tick.alive))
  {
    var trace :| Traces(env, shutdown, script, trace) && trace[0] == start && trace[|script|] == w;
    var after := WorkerAfter(env, w, tick.action, shutdown, tick.alive);
    TracesGrow(env, shutdown, script, trace, tick, after);
  }

  lemma TracesGrow(env: Env, shutdown: bool, script: seq<Tick>, trace: seq<Worker>, tick: Tick, after: Worker)
    requires Traces(env, shutdown, script, trace) && Ticks(env, shutdown, trace[|script|], tick, after)
    ensures Traces(env, shutdown, script + [tick], trace + [after])
  {
    var script', trace' := script + [tick], trace + [after];
    forall k | 0 <= k < |script'|
      ensures Ticks(env, shutdown, trace'[k], script'[k], trace'[k + 1])
    {
      assert k < |script| ==> script'[k] == script[k] && trace'[k] == trace[k] && trace'[k + 1] == trace[k + 1];
    }
  }

  lemma {:induction false} TraceInOrder(env: Env, shutdown: bool, script: seq<Tick>, trace: seq<Worker>, k: nat)
    requires Traces(env, shutdown, script, trace) && k <= |script| && InOrderAt(trace[0], shutdown)
    ensures InOrderAt(trace[k], shutdown)
  {
    if k > 0 {
      TraceInOrder(env, shutdown, script, trace, k - 1);
      assert Ticks(env, shutdown, trace[k - 1], script[k - 1], trace[k]);
      StepKeepsOrder(env, trace[k - 1], script[k - 1].action, shutdown, script[k - 1].alive);
    }
  }

  lemma LeadsInOrder(env: Env, shutdown: bool, start: Worker, script: seq<Tick>, end: Worker)
    requires InOrderAt(start, shutdown) && Leads(env, shutdown, start, script, end)
    ensures InOrderAt(end, shutdown)
  {
    var trace :| Traces(env, shutdown, script, trace) && trace[0] == start && trace[|script|] == end;
    TraceInOrder(env, shutdown, script, trace, |script|);
  }

  // ── What the worker's awaits answer ────────────────────────────────────

  type FiveTimes = s: seq<nat> | |s| == MAX_ATTEMPTS witness [0, 0, 0, 0, 0]

  /** A wait for a container: when it polled, and how it ended. */
  datatype Waiting = Waiting(times: seq<nat>, result: WaitResult)

  /** `None` where a shutdown wins the select; `cut` where it wins it in the log loop, else that ends at `overAt`. */
  datatype StepInputs = StepInputs(
    ready: Option<Waiting>, lines: seq<(Option<string>, string)>, cut: bool, overAt: nat, times: FiveTimes)

  /**
    The start poll refreshes last at `at` and ends at `endedAt`; `last` is the final wait's last
    poll; the receiver takes the first `accepted` sends.
  */
  datatype Inputs = Inputs(
    start: Option<Option<TaskMeta>>, at: nat, endedAt: nat, steps: nat -> StepInputs, last: Option<LastPoll>,
    accepted: nat)

  /** When the step's log is opened, or its wait has timed out, by a worker that came to the step at `from`. */
  function OpenedAt(step: StepMeta, answers: StepInputs, from: nat): nat {
    if step.status == Pending && answers.ready.Some? && answers.ready.value.times != []
    then answers.ready.value.times[|answers.ready.value.times| - 1]
    else from
  }

  /** When the worker comes to the next step. */
  function PassedAt(step: StepMeta, answers: StepInputs, from: nat): nat {
    if TimesOut(step, answers) then OpenedAt(step, answers, from) else answers.times[MAX_ATTEMPTS - 1]
  }

  /** When a worker whose task was read at `since` comes to step `i`. */
  function ArrivesAt(task: TaskMeta, inputs: Inputs, since: nat, i: nat): nat
    requires i <= |task.steps|
  {
    if i == 0 then since
    else PassedAt(task.steps[i - 1], inputs.steps(i - 1), ArrivesAt(task, inputs, since, i - 1))
  }

  /** How the wait for the step's container ends, begun at `from`. */
  predicate WaitFits(
    env: Env, shutdown: bool, task: TaskMeta, step: StepMeta, from: nat, answers: StepInputs)
  {
    && (ShutWhileWaiting(step, answers) ==> shutdown)
    && (step.status == Pending && answers.ready.Some? ==>
          Waited(env.world, task, step, from, answers.ready.value.times, answers.ready.value.result))
  }

  /** The log opened at `from` ends, by itself or by a shutdown, and the status is read thereafter. */
  predicate LoopFits(
    env: Env, shutdown: bool, task: TaskMeta, step: StepMeta, from: nat, answers: StepInputs)
  {
    if answers.cut then shutdown && InOrder(answers.times, from)
    else
      && from <= answers.overAt && (Follows(step, answers) ==> LogOverAt(env.world, task, step, answers.overAt))
      && InOrder(answers.times, answers.overAt)
  }

  /** A vital send has failed before step `i`: the worker does not get there. */
  predicate LostBefore(env: Env, task: TaskMeta, inputs: Inputs, i: nat)
    requires i <= |task.steps|
  {
    Aborts(ItemsBefore(env, task, inputs, i), inputs.accepted)
  }

  /** What a worker that has said `said` items can meet at a step it comes to at `from`. */
  predicate StepFits(
    env: Env, shutdown: bool, task: TaskMeta, step: StepMeta, from: nat, answers: StepInputs, accepted: nat, said: nat)
  {
    && WaitFits(env, shutdown, task, step, from, answers)
    && (|| ShutWhileWaiting(step, answers) || TimesOut(step, answers)
        || Aborts(LogItems(task, step, answers), accepted - said)
        || LoopFits(env, shutdown, task, step, OpenedAt(step, answers, from), answers))
  }

  /** What the worker can meet at step `i`, or in its final wait. */
  predicate FitsAt(env: Env, shutdown: bool, task: TaskMeta, since: nat, inputs: Inputs, i: nat)
    requires i <= |task.steps|
  {
    var from := ArrivesAt(task, inputs, since, i);
    if i < |task.steps| then
      StepFits(
        env, shutdown, task, task.steps[i], from, inputs.steps(i), inputs.accepted,
        |ItemsBefore(env, task, inputs, i)|)
    else if inputs.last.None? then shutdown
    else TaskPolled(env.world, task, from, inputs.last.value)
  }

  /** What the worker can meet from its steps on, as far as it gets. */
  predicate LaterPossible(env: Env, shutdown: bool, task: TaskMeta, since: nat, inputs: Inputs) {
    forall i | 0 <= i <= |task.steps| && !LostBefore(env, task, inputs, i) ::
      FitsAt(env, shutdown, task, since, inputs, i)
  }

  /** What the start poll can answer. */
  ghost predicate StartPossible(env: Env, shutdown: bool, snapshot: TaskMeta, since: nat, inputs: Inputs) {
    match inputs.start
    case None => shutdown
    case Some(None) => GivesUp(env, snapshot.name, since, inputs.at, inputs.endedAt)
    case Some(Some(task)) =>
      && since <= inputs.at && HasStarted(task) && Refreshes(env, snapshot.name, since, inputs.at, Ok(Some(task)))
      && LaterPossible(env, shutdown, task, inputs.at, inputs)
  }

  ghost predicate Possible(env: Env, shutdown: bool, snapshot: TaskMeta, since: nat, inputs: Inputs) {
    if snapshot.taskrunName == "" then StartPossible(env, shutdown, snapshot, since, inputs)
    else LaterPossible(env, shutdown, snapshot, since, inputs)
  }

  // ── What the worker says, were every send to succeed ───────────────────

  function LogItem(task: TaskMeta, step: StepMeta): ((Option<string>, string)) -> Item {
    (line: (Option<string>, string)) => Log(LogLine(task.name, step.name, line.1, line.0))
  }

  function StatusItem(env: Env, task: TaskMeta, step: StepMeta, times: FiveTimes): Item {
    var latest := FreshOr(env.world, task.taskrunName, step, times);
    StepStatus(task.name, step.name, latest.status, latest.reason)
  }

  function LogItems(task: TaskMeta, step: StepMeta, answers: StepInputs): seq<Item> {
    MapSeq(answers.lines, LogItem(task, step))
  }

  function StreamItems(env: Env, task: TaskMeta, step: StepMeta, answers: StepInputs): seq<Item> {
    LogItems(task, step, answers) + [StatusItem(env, task, step, answers.times)]
  }

  predicate TimesOut(step: StepMeta, answers: StepInputs) {
    step.status == Pending && answers.ready.Some? && answers.ready.value.result == TimedOut
  }

  function StepItems(env: Env, task: TaskMeta, step: StepMeta, answers: StepInputs): seq<Item> {
    if TimesOut(step, answers)
    then [Error(TimeoutMessage(task, step))]
    else StreamItems(env, task, step, answers)
  }

  /** Whether the log is opened to be followed: not if the container was seen to have terminated. */
  predicate Follows(step: StepMeta, answers: StepInputs) {
    if step.status == Pending then answers.ready.Some? && answers.ready.value.result != AlreadyTerminated
    else !step.status.IsTerminal()
  }

  predicate ShutWhileWaiting(step: StepMeta, answers: StepInputs) {
    step.status == Pending && answers.ready.None?
  }

  /** What the final wait gives, unless a shutdown wins it. */
  function FinalItems(env: Env, task: TaskMeta, last: Option<LastPoll>): seq<Item> {
    match last
    case None => []
    case Some(poll) =>
      var outcome := TaskOutcome(env.world(poll.at).getTaskRun(task.taskrunName));
      [TaskStatus(task.name, outcome.0, outcome.1)]
  }

  /** What the steps before step `i` have the worker say. */
  function ItemsBefore(env: Env, task: TaskMeta, inputs: Inputs, i: nat): seq<Item>
    requires i <= |task.steps|
  {
    if i == 0 then []
    else ItemsBefore(env, task, inputs, i - 1) + StepItems(env, task, task.steps[i - 1], inputs.steps(i - 1))
  }

  /** From step `i` on, before `TaskDone`. */
  function TaskItems(env: Env, task: TaskMeta, inputs: Inputs, i: nat): seq<Item>
    requires i <= |task.steps|
    decreases |task.steps| - i
  {
    if i == |task.steps| then FinalItems(env, task, inputs.last)
    else if ShutWhileWaiting(task.steps[i], inputs.steps(i)) then []
    else StepItems(env, task, task.steps[i], inputs.steps(i)) + TaskItems(env, task, inputs, i + 1)
  }

  /** Before `TaskDone`. */
  function Conversation(env: Env, snapshot: TaskMeta, inputs: Inputs): seq<Item> {
    if snapshot.taskrunName != "" then TaskItems(env, snapshot, inputs, 0)
    else
      match inputs.start
      case None => []
      case Some(None) => [NeverStarted(snapshot)]
      case Some(Some(task)) => TaskItems(env, task, inputs, 0)
  }

  // ── Sends that fail ────────────────────────────────────────────────────

  /** A worker gives up when one of these cannot be sent; other sends are let fail. */
  predicate Vital(item: Item) {
    item.Log? || item.StepStatus?
  }

  /** With `accepted` sends left, some vital send fails. */
  predicate Aborts(items: seq<Item>, accepted: int) {
    items != [] && ((accepted <= 0 && Vital(items[0])) || Aborts(items[1..], accepted - 1))
  }

  /** The sends attempted: all of them, or up to the first vital one that fails. */
  function Attempted(items: seq<Item>, accepted: int): seq<Item> {
    if items == [] then []
    else if accepted <= 0 && Vital(items[0]) then [items[0]]
    else [items[0]] + Attempted(items[1..], accepted - 1)
  }

  lemma {:induction false} AbortsConcat(a: seq<Item>, b: seq<Item>, accepted: int)
    ensures Aborts(a + b, accepted) <==> Aborts(a, accepted) || Aborts(b, accepted - |a|)
  {
    if a == [] {
      assert a + b == b;
    } else {
      AbortsConcat(a[1..], b, accepted - 1);
      assert (a + b)[1..] == a[1..] + b;
    }
  }

  lemma {:induction false} AllAttempted(items: seq<Item>, accepted: int)
    requires !Aborts(items, accepted)
    ensures Attempted(items, accepted) == items
  {
    if items != [] {
      AllAttempted(items[1..], accepted - 1);
    }
  }

  lemma {:induction false} CutBefore(a: seq<Item>, b: seq<Item>, accepted: int)
    requires Aborts(a, accepted)
    ensures Attempted(a + b, accepted) == Attempted(a, accepted)
  {
    assert (a + b)[1..] == a[1..] + b;
    if accepted > 0 || !Vital(a[0]) {
      CutBefore(a[1..], b, accepted - 1);
    }
  }

  lemma {:induction false} CutAfter(a: seq<Item>, b: seq<Item>, accepted: int)
    requires !Aborts(a, accepted)
    ensures Attempted(a + b, accepted) == a + Attempted(b, accepted - |a|)
  {
    if a == [] {
      assert a + b == b;
    } else {
      var rest := Attempted(b, accepted - |a|);
      CutAfter(a[1..], b, accepted - 1);
      assert (a + b)[1..] == a[1..] + b;
      assert [a[0]] + (a[1..] + rest) == a + rest;
    }
  }

  lemma AttemptedConcat(a: seq<Item>, b: seq<Item>, accepted: int)
    ensures Aborts(a + b, accepted) <==> Aborts(a, accepted) || Aborts(b, accepted - |a|)
    ensures Attempted(a + b, accepted) ==
            if Aborts(a, accepted) then Attempted(a, accepted) else a + Attempted(b, accepted - |a|)
    ensures !Aborts(a, accepted) ==> Attempted(a, accepted) == a
  {
    AbortsConcat(a, b, accepted);
    if Aborts(a, accepted) {
      CutBefore(a, b, accepted);
    } else {
      CutAfter(a, b, accepted);
      AllAttempted(a, accepted);
    }
  }

  /**
    What is attempted is a beginning of the items: all of them, unless a log line or a step status
    is not taken, which is then the first such and the last item attempted.
  */
  lemma {:induction false} AttemptedUpToLoss(items: seq<Item>, accepted: int)
    ensures var sent := Attempted(items, accepted);
            && sent <= items
            && (forall k | 0 <= k < |sent| - 1 && (items[k].Log? || items[k].StepStatus?) :: k < accepted)
            && (|sent| < |items| || Aborts(items, accepted) ==>
                  && sent != [] && |sent| - 1 >= accepted
                  && (items[|sent| - 1].Log? || items[|sent| - 1].StepStatus?))
            && (!Aborts(items, accepted) ==>
                  forall k | 0 <= k < |items| && (items[k].Log? || items[k].StepStatus?) :: k < accepted)
  {
    if items != [] && !(accepted <= 0 && Vital(items[0])) {
      AttemptedUpToLoss(items[1..], accepted - 1);
    }
  }

  /** Having said `said` of `all`, with `rest` still to say. */
  predicate OnCourse(all: seq<Item>, said: seq<Item>, rest: seq<Item>, accepted: int) {
    && Attempted(all, accepted) == said + Attempted(rest, accepted - |said|)
    && Aborts(all, accepted) == Aborts(rest, accepted - |said|)
  }

  lemma Onward(all: seq<Item>, said: seq<Item>, step: seq<Item>, later: seq<Item>, accepted: int)
    requires OnCourse(all, said, step + later, accepted)
    ensures if Aborts(step, accepted - |said|)
            then Aborts(all, accepted) && Attempted(all, accepted) == said + Attempted(step, accepted - |said|)
            else Attempted(step, accepted - |said|) == step && OnCourse(all, said + step, later, accepted)
  {
    AttemptedConcat(step, later, accepted - |said|);
    var left := accepted - |said| - |step|;
    assert left == accepted - |said + step|;
    assert said + (step + Attempted(later, left)) == said + step + Attempted(later, left);
  }

  /** At most one item, and not a vital one. */
  predicate Harmless(items: seq<Item>) {
    items == [] || (|items| == 1 && !Vital(items[0]))
  }

  lemma HarmlessIsAttempted(items: seq<Item>, accepted: int)
    requires Harmless(items)
    ensures !Aborts(items, accepted) && Attempted(items, accepted) == items
  {
    if items != [] {
      assert !Aborts(items[1..], accepted - 1);
    }
    AttemptedConcat(items, [], accepted);
  }

  lemma OnwardToEnd(all: seq<Item>, said: seq<Item>, last: seq<Item>, accepted: int)
    requires OnCourse(all, said, last, accepted) && Harmless(last)
    ensures !Aborts(all, accepted) && Attempted(all, accepted) == said + last
  {
    HarmlessIsAttempted(last, accepted - |said|);
  }

  // ── The program ────────────────────────────────────────────────────────

  /** What the log loop attempts are its lines, with their texts and timestamps. */
  lemma LinesAreVerbatim(
    task: TaskMeta, step: StepMeta, lines: seq<(Option<string>, string)>, accepted: int, k: nat)
    requires k < |Attempted(MapSeq(lines, LogItem(task, step)), accepted)|
    ensures k < |lines|
    ensures var (timestamp, text) := lines[k];
            Attempted(MapSeq(lines, LogItem(task, step)), accepted)[k] ==
            Log(LogLine(task.name, step.name, text, timestamp))
  {
    AttemptedUpToLoss(MapSeq(lines, LogItem(task, step)), accepted);
  }

  /** The log loop: `ok` says that no send failed. */
  method SendLines(
    task: TaskMeta, step: StepMeta, lines: seq<(Option<string>, string)>, before: seq<Item>, accepted: nat)
    returns (said: seq<Item>, ok: bool)
    ensures var items := MapSeq(lines, LogItem(task, step));
            && said == before + Attempted(items, accepted - |before|)
            && ok == !Aborts(items, accepted - |before|)
  {
    ghost var items := MapSeq(lines, LogItem(task, step));
    said := before;
    for k := 0 to |lines|
      invariant said + Attempted(items[k..], accepted - |said|) == before + Attempted(items, accepted - |before|)
      invariant Aborts(items[k..], accepted - |said|) == Aborts(items, accepted - |before|)
    {
      var (timestamp, line) := lines[k];
      assert items[k..][1..] == items[k + 1..];
      ok := |said| < accepted;
      said := said + [Log(LogLine(task.name, step.name, line, timestamp))];
      if !ok {
        return;
      }
    }
    ok := true;
  }

  /** Streams a step and reports it. */
  method StreamStep(
    env: Env, task: TaskMeta, step: StepMeta, answers: StepInputs, before: seq<Item>, accepted: nat)
    returns (said: seq<Item>, ok: bool)
    ensures var items := StreamItems(env, task, step, answers);
            && said == before + Attempted(items, accepted - |before|)
            && ok == !Aborts(items, accepted - |before|)
  {
    ghost var logs := LogItems(task, step, answers);
    AttemptedConcat(logs, [StatusItem(env, task, step, answers.times)], accepted - |before|);
    said, ok := SendLines(task, step, answers.lines, before, accepted);
    if !ok {
      return;
    }
    var read := PollFreshStepStatus(SeenAt(env.world, task.taskrunName, step.name, answers.times));
    var latest := read.GetOr(step);
    ok := |said| < accepted;
    said := said + [StepStatus(task.name, step.name, latest.status, latest.reason)];
  }

  datatype Pass = Next | Quit | Abort

  /** One pass of the step loop; `follow` says how the step's log is opened, if it is. */
  method RunStep(
    env: Env, task: TaskMeta, step: StepMeta, answers: StepInputs, before: seq<Item>, accepted: nat)
    returns (said: seq<Item>, pass: Pass, follow: bool)
    ensures ShutWhileWaiting(step, answers) ==> pass == Quit && said == before
    ensures !ShutWhileWaiting(step, answers) && !TimesOut(step, answers) ==> follow == Follows(step, answers)
    ensures !ShutWhileWaiting(step, answers) ==>
              var items := StepItems(env, task, step, answers);
              && said == before + Attempted(items, accepted - |before|)
              && pass == if Aborts(items, accepted - |before|) then Abort else Next
  {
    var alreadyTerminated := step.status.IsTerminal();
    if step.status == Pending {
      match answers.ready {
        case Some(Waiting(_, Ready)) =>
          alreadyTerminated := false;
        case Some(Waiting(_, AlreadyTerminated)) =>
          alreadyTerminated := true;
        case Some(Waiting(_, TimedOut)) =>
          return before + [Error(TimeoutMessage(task, step))], Next, false;
        case None =>
          return before, Quit, false;
      }
    }
    follow := !alreadyTerminated;
    var ok;
    said, ok := StreamStep(env, task, step, answers, before, accepted);
    pass := if ok then Next else Abort;
  }

  method WaitForTask(env: Env, task: TaskMeta, last: Option<LastPoll>) returns (items: seq<Item>)
    ensures items == FinalItems(env, task, last)
  {
    items := [];
    match last {
      case None =>
      case Some(poll) =>
        var outcome := TaskOutcome(env.world(poll.at).getTaskRun(task.taskrunName));
        items := items + [TaskStatus(task.name, outcome.0, outcome.1)];
    }
  }

  /** A pass on course stays on course, or ends the loop with all that is attempted said. */
  method TakePass(
    env: Env, task: TaskMeta, inputs: Inputs, i: nat, ghost all: seq<Item>, before: seq<Item>)
    returns (said: seq<Item>, pass: Pass)
    requires i < |task.steps| && OnCourse(all, before, TaskItems(env, task, inputs, i), inputs.accepted)
    ensures pass == Next ==> OnCourse(all, said, TaskItems(env, task, inputs, i + 1), inputs.accepted)
    ensures pass != Next ==>
              said == Attempted(all, inputs.accepted) && (pass == Abort <==> Aborts(all, inputs.accepted))
  {
    var follow;
    said, pass, follow := RunStep(env, task, task.steps[i], inputs.steps(i), before, inputs.accepted);
    if pass == Quit {
      OnwardToEnd(all, said, [], inputs.accepted);
    } else {
      Onward(
        all, before, StepItems(env, task, task.steps[i], inputs.steps(i)), TaskItems(env, task, inputs, i + 1),
        inputs.accepted);
    }
  }

  /** The step loop and the final wait: `ok` says that the worker goes on to its `TaskDone`. */
  method RunTask(env: Env, task: TaskMeta, inputs: Inputs) returns (said: seq<Item>, ok: bool)
    ensures var items := TaskItems(env, task, inputs, 0);
            && said == Attempted(items, inputs.accepted) && ok == !Aborts(items, inputs.accepted)
  {
    said := [];
    ghost var all := TaskItems(env, task, inputs, 0);
    for i := 0 to |task.steps|
      invariant OnCourse(all, said, TaskItems(env, task, inputs, i), inputs.accepted)
    {
      var pass;
      said, pass := TakePass(env, task, inputs, i, all, said);
      if pass != Next {
        return said, pass == Quit;
      }
    }
    var last := WaitForTask(env, task, inputs.last);
    OnwardToEnd(all, said, last, inputs.accepted);
    return said + last, true;
  }

  /** What the whole worker attempts to send; nothing follows a vital send that failed. */
  function Output(env: Env, snapshot: TaskMeta, inputs: Inputs): seq<Item> {
    Attempted(Conversation(env, snapshot, inputs) + [TaskDone], inputs.accepted)
  }

  /** The worker ends with `TaskDone` exactly unless a log line or a step status was not taken. */
  lemma DoneUnlessLost(env: Env, snapshot: TaskMeta, inputs: Inputs)
    ensures var said, output := Conversation(env, snapshot, inputs), Output(env, snapshot, inputs);
            && output != []
            && (output[|output| - 1] == TaskDone <==>
                forall k | inputs.accepted <= k < |said| :: !said[k].Log? && !said[k].StepStatus?)
  {
    var said, all := Conversation(env, snapshot, inputs), Conversation(env, snapshot, inputs) + [TaskDone];
    AttemptedUpToLoss(all, inputs.accepted);
    assert forall k | 0 <= k < |said| :: all[k] == said[k];
    if |Output(env, snapshot, inputs)| == |all| {
      assert Output(env, snapshot, inputs) == all;
    }
  }

  method RunTaskWorker(env: Env, snapshot: TaskMeta, inputs: Inputs) returns (said: seq<Item>)
    ensures said == Output(env, snapshot, inputs)
  {
    AttemptedConcat(Conversation(env, snapshot, inputs), [TaskDone], inputs.accepted);
    var task := snapshot;
    if snapshot.taskrunName == "" {
      match inputs.start {
        case Some(Some(t)) =>
          task := t;
        case Some(None) =>
          return [NeverStarted(snapshot)] + [TaskDone];
        case None =>
          return [TaskDone];
      }
    }
    var ok;
    said, ok := RunTask(env, task, inputs);
    if ok {
      said := said + [TaskDone];
    }
  }

  // ── The program follows the transition system ──────────────────────────

  /** Attempting `items` takes `w` to `end`: to `pc`, unless a vital send fails on the way. */
  predicate Lands(w: Worker, items: seq<Item>, accepted: nat, pc: Pc, end: Worker) {
    var left := accepted - |w.said|;
    && end.task == w.task && end.resolved == w.resolved && end.since == w.since
    && end.said == w.said + Attempted(items, left)
    && end.pc == if Aborts(items, left) then Aborted else pc
  }

  lemma AttemptedOn(before: seq<Item>, a: seq<Item>, mid: seq<Item>, b: seq<Item>, accepted: int)
    requires !Aborts(a, accepted - |before|) && mid == before + Attempted(a, accepted - |before|)
    ensures before + Attempted(a + b, accepted - |before|) == mid + Attempted(b, accepted - |mid|)
    ensures Aborts(a + b, accepted - |before|) == Aborts(b, accepted - |mid|)
  {
    AttemptedConcat(a, b, accepted - |before|);
    assert accepted - |mid| == accepted - |before| - |a|;
    Associative(before, a, Attempted(b, accepted - |mid|));
  }

  lemma Associative(a: seq<Item>, b: seq<Item>, c: seq<Item>)
    ensures a + b + c == a + (b + c)
  {
  }

  lemma LandsOn(w: Worker, a: seq<Item>, m: Worker, b: seq<Item>, end: Worker, accepted: nat, at: Pc, pc: Pc)
    requires Lands(w, a, accepted, at, m) && m.pc != Aborted && Lands(m, b, accepted, pc, end)
    ensures Lands(w, a + b, accepted, pc, end)
  {
    AttemptedOn(w.said, a, m.said, b, accepted);
  }

  lemma LandsAfterQuiet(w: Worker, m: Worker, b: seq<Item>, end: Worker, accepted: nat, at: Pc, pc: Pc)
    requires Lands(w, [], accepted, at, m) && at != Aborted && Lands(m, b, accepted, pc, end)
    ensures Lands(w, b, accepted, pc, end)
  {
    LandsOn(w, [], m, b, end, accepted, at, pc);
    assert [] + b == b;
  }

  lemma LandsShort(w: Worker, a: seq<Item>, m: Worker, b: seq<Item>, accepted: nat, at: Pc, pc: Pc)
    requires Lands(w, a, accepted, at, m) && m.pc == Aborted && at != Aborted
    ensures Lands(w, a + b, accepted, pc, m)
  {
    AttemptedConcat(a, b, accepted - |w.said|);
  }

  /** After `m`: what is left, unless the client is lost. */
  predicate GoesOn(m: Worker, items: seq<Item>, accepted: nat, pc: Pc, end: Worker) {
    if m.pc == Aborted then end == m else Lands(m, items, accepted, pc, end)
  }

  lemma LandsInTurn(w: Worker, a: seq<Item>, m: Worker, b: seq<Item>, end: Worker, accepted: nat, at: Pc, pc: Pc)
    requires Lands(w, a, accepted, at, m) && at != Aborted && GoesOn(m, b, accepted, pc, end)
    ensures Lands(w, a + b, accepted, pc, end)
  {
    if m.pc == Aborted {
      LandsShort(w, a, m, b, accepted, at, pc);
    } else {
      LandsOn(w, a, m, b, end, accepted, at, pc);
    }
  }

  lemma NeverAborts(item: Option<Item>, accepted: int)
    requires item.Some? ==> !Vital(item.value) || accepted > 0
    ensures !Aborts(Said(item), accepted) && Attempted(Said(item), accepted) == Said(item)
  {
    if item.Some? {
      assert !Aborts(Said(item)[1..], accepted - 1);
      assert Attempted(Said(item)[1..], accepted - 1) == [];
    }
  }

  lemma ActLands(env: Env, shutdown: bool, w: Worker, a: WorkerAction, accepted: nat)
    requires WorkerEnabled(env, w, a, shutdown) && !a.Begin? && !a.Resolve?
    ensures Lands(w, Said(SentBy(env, w, a, shutdown)), accepted, NextPc(env, w, a, shutdown, true),
                  WorkerAfter(env, w, a, shutdown, |w.said| < accepted))
  {
    var item := SentBy(env, w, a, shutdown);
    if item.None? || !Vital(item.value) || |w.said| < accepted {
      NeverAborts(item, accepted - |w.said|);
    }
  }

  /** One action, its send failing if the receiver takes no more. */
  lemma Act(env: Env, shutdown: bool, start: Worker, before: seq<Tick>, w: Worker, a: WorkerAction, accepted: nat)
    returns (script: seq<Tick>, end: Worker)
    requires Leads(env, shutdown, start, before, w) && WorkerEnabled(env, w, a, shutdown)
    requires !a.Begin? && !a.Resolve?
    ensures Leads(env, shutdown, start, script, end)
    ensures Lands(w, Said(SentBy(env, w, a, shutdown)), accepted, NextPc(env, w, a, shutdown, true), end)
    ensures end.now == NextNow(w, a)
    ensures end.attempt == if StillPolling(w, a) then w.attempt + (if Counted(a.answer) then 1 else 0) else 0
  {
    var tick := Tick(a, |w.said| < accepted);
    Extend(env, shutdown, start, before, w, tick);
    script, end := before + [tick], WorkerAfter(env, w, a, shutdown, tick.alive);
    ActLands(env, shutdown, w, a, accepted);
  }

  // ── A wait is a series of reads ────────────────────────────────────────

  /** `m` is `w` in its wait, after `k` of the reads at `times`. */
  predicate MidWait(world: World, w: Worker, times: seq<nat>, k: nat, m: Worker)
    requires WaitsForStep(w) && k < |times|
  {
    && m.task == w.task && m.resolved == w.resolved && m.since == w.since && m.said == w.said && m.pc == w.pc
    && m.attempt == CountedIn(AnswersAt(world, w.task, w.task.steps[w.pc.i], times), k) && m.now <= times[k]
  }

  lemma OneMoreRead(
    env: Env, shutdown: bool, start: Worker, before: seq<Tick>, w: Worker, times: seq<nat>, r: WaitResult, k: nat,
    m: Worker, accepted: nat)
    returns (script: seq<Tick>, m': Worker)
    requires WaitsForStep(w) && Waited(env.world, w.task, w.task.steps[w.pc.i], w.now, times, r) && k + 1 < |times|
    requires Leads(env, shutdown, start, before, m) && MidWait(env.world, w, times, k, m)
    ensures Leads(env, shutdown, start, script, m') && MidWait(env.world, w, times, k + 1, m')
  {
    var answers := AnswersAt(env.world, w.task, w.task.steps[w.pc.i], times);
    NextReadGoesOn(env, shutdown, w, times, r, k, m);
    script, m' := Act(env, shutdown, start, before, m, Poll(times[k], answers(k)), accepted);
    assert m'.said == m.said + [] == m.said;
  }

  /** A read before the last is possible, and ends nothing. */
  lemma NextReadGoesOn(
    env: Env, shutdown: bool, w: Worker, times: seq<nat>, r: WaitResult, k: nat, m: Worker)
    requires WaitsForStep(w) && Waited(env.world, w.task, w.task.steps[w.pc.i], w.now, times, r) && k + 1 < |times|
    requires MidWait(env.world, w, times, k, m)
    ensures var answers := AnswersAt(env.world, w.task, w.task.steps[w.pc.i], times);
            var a := Poll(times[k], answers(k));
            && WorkerEnabled(env, m, a, shutdown) && PollEnds(m, answers(k)).None?
            && NextNow(m, a) <= times[k + 1]
            && CountedIn(answers, k + 1) == m.attempt + if Counted(answers(k)) then 1 else 0
  {
    var answers := AnswersAt(env.world, w.task, w.task.steps[w.pc.i], times);
    assert Settles(answers(k)).None? && PacedAt(answers, times, k);
    CountedGrows(answers, k + 1, |times| - 1);
  }

  lemma {:induction false} ReadsPath(
    env: Env, shutdown: bool, start: Worker, before: seq<Tick>, w: Worker, times: seq<nat>, r: WaitResult, k: nat,
    accepted: nat)
    returns (script: seq<Tick>, m: Worker)
    requires WaitsForStep(w) && Waited(env.world, w.task, w.task.steps[w.pc.i], w.now, times, r) && k < |times|
    requires Leads(env, shutdown, start, before, w) && w.attempt == 0
    ensures Leads(env, shutdown, start, script, m) && MidWait(env.world, w, times, k, m)
  {
    if k == 0 {
      script, m := before, w;
    } else {
      var l;
      script, l := ReadsPath(env, shutdown, start, before, w, times, r, k - 1, accepted);
      script, m := OneMoreRead(env, shutdown, start, script, w, times, r, k - 1, l, accepted);
    }
  }

  /** What a wait that ends with `r` says. */
  function WaitItems(task: TaskMeta, step: StepMeta, r: WaitResult): seq<Item> {
    if r == TimedOut then [Error(TimeoutMessage(task, step))] else []
  }

  function AfterWait(i: nat, r: WaitResult): Pc {
    if r == TimedOut then AtStep(i + 1) else Streaming(i, r != AlreadyTerminated)
  }

  lemma LastRead(
    env: Env, shutdown: bool, w: Worker, times: seq<nat>, r: WaitResult, m: Worker) returns (a: WorkerAction)
    requires WaitsForStep(w) && Waited(env.world, w.task, w.task.steps[w.pc.i], w.now, times, r)
    requires MidWait(env.world, w, times, |times| - 1, m)
    ensures WorkerEnabled(env, m, a, shutdown) && a.Poll? && a.at == times[|times| - 1]
    ensures PollEnds(m, a.answer) == Some(r)
  {
    var last := |times| - 1;
    var answers := AnswersAt(env.world, w.task, w.task.steps[w.pc.i], times);
    assert CountedIn(answers, |times|) == m.attempt + if Counted(answers(last)) then 1 else 0;
    a := Poll(times[last], answers(last));
  }

  /** However the wait for a container ends, its reads are actions of the worker, and lead it there. */
  lemma WaitPath(
    env: Env, shutdown: bool, start: Worker, before: seq<Tick>, w: Worker, times: seq<nat>, r: WaitResult,
    accepted: nat)
    returns (script: seq<Tick>, end: Worker)
    requires WaitsForStep(w) && Waited(env.world, w.task, w.task.steps[w.pc.i], w.now, times, r)
    requires Leads(env, shutdown, start, before, w) && w.attempt == 0
    ensures Leads(env, shutdown, start, script, end)
    ensures Lands(w, WaitItems(w.task, w.task.steps[w.pc.i], r), accepted, AfterWait(w.pc.i, r), end)
    ensures end.now == times[|times| - 1] && end.attempt == 0
  {
    var m;
    script, m := ReadsPath(env, shutdown, start, before, w, times, r, |times| - 1, accepted);
    var a := LastRead(env, shutdown, w, times, r, m);
    script, end := Act(env, shutdown, start, script, m, a, accepted);
    var items := WaitItems(w.task, w.task.steps[w.pc.i], r);
    assert Said(SentBy(env, m, a, shutdown)) == items;
    SameStart(w, m, items, accepted, AfterWait(w.pc.i, r), end);
  }

  lemma SameStart(w: Worker, m: Worker, items: seq<Item>, accepted: nat, pc: Pc, end: Worker)
    requires m.task == w.task && m.resolved == w.resolved && m.since == w.since && m.said == w.said
    requires Lands(m, items, accepted, pc, end)
    ensures Lands(w, items, accepted, pc, end)
  {
  }

  // ── The steps of the program ───────────────────────────────────────────

  lemma {:induction false} LinesPath(
    env: Env, shutdown: bool, start: Worker, before: seq<Tick>, w: Worker, lines: seq<(Option<string>, string)>,
    accepted: nat)
    returns (script: seq<Tick>, end: Worker)
    requires Leads(env, shutdown, start, before, w) && w.pc.Streaming? && w.pc.i < |w.task.steps|
    ensures Leads(env, shutdown, start, script, end)
    ensures Lands(w, MapSeq(lines, LogItem(w.task, w.task.steps[w.pc.i])), accepted, w.pc, end) && end.now == w.now
    decreases |lines|
  {
    if lines == [] {
      script, end := before, w;
    } else {
      var sender := LogItem(w.task, w.task.steps[w.pc.i]);
      var first, others := [sender(lines[0])], MapSeq(lines[1..], sender);
      assert MapSeq(lines, sender) == first + others;
      var m;
      script, m := Act(env, shutdown, start, before, w, Line(lines[0].0, lines[0].1), accepted);
      if m.pc == Aborted {
        LandsShort(w, first, m, others, accepted, w.pc, w.pc);
        end := m;
      } else {
        script, end := LinesPath(env, shutdown, start, script, m, lines[1..], accepted);
        LandsOn(w, first, m, others, end, accepted, w.pc, w.pc);
      }
    }
  }

  /** The log loop is left on a shutdown or at the end of the log. */
  predicate CanStop(env: Env, shutdown: bool, w: Worker, answers: StepInputs) {
    && w.pc.Streaming? && w.pc.i < |w.task.steps| && w.pc.follow == Follows(w.task.steps[w.pc.i], answers)
    && LoopFits(env, shutdown, w.task, w.task.steps[w.pc.i], w.now, answers)
  }

  lemma StopPath(
    env: Env, shutdown: bool, start: Worker, before: seq<Tick>, w: Worker, answers: StepInputs, accepted: nat)
    returns (script: seq<Tick>, end: Worker)
    requires Leads(env, shutdown, start, before, w) && CanStop(env, shutdown, w, answers)
    ensures Leads(env, shutdown, start, script, end) && Lands(w, [], accepted, Reporting(w.pc.i), end)
    ensures InOrder(answers.times, end.now)
  {
    var action := if answers.cut then SeeShutdown else EndOfLogs(answers.overAt);
    script, end := Act(env, shutdown, start, before, w, action, accepted);
  }

  /** Reports step `i`, if its log loop has not lost the client. */
  lemma ReportPath(
    env: Env, shutdown: bool, start: Worker, before: seq<Tick>, w: Worker, i: nat, times: FiveTimes,
    items: seq<Item>, accepted: nat)
    returns (script: seq<Tick>, end: Worker)
    requires Leads(env, shutdown, start, before, w)
    requires w.pc == Aborted || (w.pc == Reporting(i) && InOrder(times, w.now))
    requires i < |w.task.steps| && items == [StatusItem(env, w.task, w.task.steps[i], times)]
    ensures Leads(env, shutdown, start, script, end) && GoesOn(w, items, accepted, AtStep(i + 1), end)
    ensures end.pc == Aborted || ClockIs(end, times[MAX_ATTEMPTS - 1])
  {
    script, end := before, w;
    if w.pc != Aborted {
      script, end := Act(env, shutdown, start, before, w, Report(times), accepted);
    }
  }

  predicate ClockIs(w: Worker, now: nat) {
    w.now == now && w.attempt == 0
  }

  /** The worker can stop reading the log, unless its client is gone before. */
  predicate StopsOrLoses(env: Env, shutdown: bool, w: Worker, answers: StepInputs, accepted: nat) {
    && w.pc.Streaming? && w.pc.i < |w.task.steps|
    && (Aborts(LogItems(w.task, w.task.steps[w.pc.i], answers), accepted - |w.said|) ||
        CanStop(env, shutdown, w, answers))
  }

  /** The log loop. */
  lemma LoopPath(
    env: Env, shutdown: bool, start: Worker, before: seq<Tick>, w: Worker, answers: StepInputs, accepted: nat)
    returns (script: seq<Tick>, end: Worker)
    requires Leads(env, shutdown, start, before, w) && StopsOrLoses(env, shutdown, w, answers, accepted)
    ensures Leads(env, shutdown, start, script, end)
    ensures Lands(w, LogItems(w.task, w.task.steps[w.pc.i], answers), accepted, Reporting(w.pc.i), end)
    ensures end.pc == Aborted || InOrder(answers.times, end.now)
  {
    script, end := LinesPath(env, shutdown, start, before, w, answers.lines, accepted);
    if end.pc != Aborted {
      var m := end;
      script, end := StopPath(env, shutdown, start, script, m, answers, accepted);
      var logs := LogItems(w.task, w.task.steps[w.pc.i], answers);
      LandsThenQuiet(w, logs, m, end, accepted, w.pc, Reporting(w.pc.i));
    }
  }

  lemma LandsThenQuiet(w: Worker, a: seq<Item>, m: Worker, end: Worker, accepted: nat, at: Pc, pc: Pc)
    requires Lands(w, a, accepted, at, m) && m.pc != Aborted && Lands(m, [], accepted, pc, end)
    ensures Lands(w, a, accepted, pc, end)
  {
    LandsOn(w, a, m, [], end, accepted, at, pc);
    assert a + [] == a;
  }

  /** Streaming and reporting a step. */
  lemma StreamPath(
    env: Env, shutdown: bool, start: Worker, before: seq<Tick>, w: Worker, answers: StepInputs, accepted: nat)
    returns (script: seq<Tick>, end: Worker)
    requires Leads(env, shutdown, start, before, w) && StopsOrLoses(env, shutdown, w, answers, accepted)
    ensures Leads(env, shutdown, start, script, end)
    ensures Lands(
              w, StreamItems(env, w.task, w.task.steps[w.pc.i], answers), accepted, AtStep(w.pc.i + 1), end)
    ensures end.pc == Aborted || ClockIs(end, answers.times[MAX_ATTEMPTS - 1])
  {
    var logs := LogItems(w.task, w.task.steps[w.pc.i], answers);
    var status := [StatusItem(env, w.task, w.task.steps[w.pc.i], answers.times)];
    var m;
    script, m := LoopPath(env, shutdown, start, before, w, answers, accepted);
    script, end := ReportPath(env, shutdown, start, script, m, w.pc.i, answers.times, status, accepted);
    LandsInTurn(w, logs, m, status, end, accepted, Reporting(w.pc.i), AtStep(w.pc.i + 1));
  }

  /** Opening the step's log, after the wait if there is one. */
  lemma OpenPath(
    env: Env, shutdown: bool, start: Worker, before: seq<Tick>, w: Worker, answers: StepInputs, accepted: nat)
    returns (script: seq<Tick>, end: Worker)
    requires Leads(env, shutdown, start, before, w) && w.pc.AtStep? && w.pc.i < |w.task.steps| && w.attempt == 0
    requires WaitFits(env, shutdown, w.task, w.task.steps[w.pc.i], w.now, answers)
    requires !ShutWhileWaiting(w.task.steps[w.pc.i], answers) && !TimesOut(w.task.steps[w.pc.i], answers)
    ensures Leads(env, shutdown, start, script, end)
    ensures Lands(w, [], accepted, Streaming(w.pc.i, Follows(w.task.steps[w.pc.i], answers)), end)
    ensures end.now == OpenedAt(w.task.steps[w.pc.i], answers, w.now)
  {
    if WaitsForStep(w) {
      var ready := answers.ready.value;
      script, end := WaitPath(env, shutdown, start, before, w, ready.times, ready.result, accepted);
    } else {
      script, end := Act(env, shutdown, start, before, w, Open, accepted);
    }
  }

  lemma TimeoutPath(
    env: Env, shutdown: bool, start: Worker, before: seq<Tick>, w: Worker, answers: StepInputs, accepted: nat)
    returns (script: seq<Tick>, end: Worker)
    requires Leads(env, shutdown, start, before, w) && w.pc.AtStep? && w.pc.i < |w.task.steps| && w.attempt == 0
    requires WaitFits(env, shutdown, w.task, w.task.steps[w.pc.i], w.now, answers)
    requires TimesOut(w.task.steps[w.pc.i], answers)
    ensures Leads(env, shutdown, start, script, end)
    ensures Lands(w, [Error(TimeoutMessage(w.task, w.task.steps[w.pc.i]))], accepted, AtStep(w.pc.i + 1), end)
    ensures ClockIs(end, OpenedAt(w.task.steps[w.pc.i], answers, w.now))
  {
    script, end := WaitPath(env, shutdown, start, before, w, answers.ready.value.times, TimedOut, accepted);
  }

  /** What the worker can meet at the step it is at. */
  predicate FitsHere(env: Env, shutdown: bool, w: Worker, answers: StepInputs, accepted: nat) {
    && w.pc.AtStep? && w.pc.i < |w.task.steps| && w.attempt == 0
    && StepFits(env, shutdown, w.task, w.task.steps[w.pc.i], w.now, answers, accepted, |w.said|)
  }

  /** One pass of the step loop that is not shut down while it waits. */
  lemma StepPath(
    env: Env, shutdown: bool, start: Worker, before: seq<Tick>, w: Worker, answers: StepInputs, accepted: nat)
    returns (script: seq<Tick>, end: Worker)
    requires Leads(env, shutdown, start, before, w) && FitsHere(env, shutdown, w, answers, accepted)
    requires !ShutWhileWaiting(w.task.steps[w.pc.i], answers)
    ensures Leads(env, shutdown, start, script, end)
    ensures Lands(
              w, StepItems(env, w.task, w.task.steps[w.pc.i], answers), accepted, AtStep(w.pc.i + 1), end)
    ensures end.pc == Aborted || ClockIs(end, PassedAt(w.task.steps[w.pc.i], answers, w.now))
  {
    if TimesOut(w.task.steps[w.pc.i], answers) {
      script, end := TimeoutPath(env, shutdown, start, before, w, answers, accepted);
    } else {
      var m;
      script, m := OpenPath(env, shutdown, start, before, w, answers, accepted);
      script, end := StreamPath(env, shutdown, start, script, m, answers, accepted);
      StepWhole(env, w, m, end, answers, accepted);
    }
  }

  lemma StepWhole(env: Env, w: Worker, m: Worker, end: Worker, answers: StepInputs, accepted: nat)
    requires w.pc.AtStep? && w.pc.i < |w.task.steps| && m.pc.Streaming? && m.pc.i == w.pc.i
    requires m.task == w.task && Lands(w, [], accepted, m.pc, m) && !TimesOut(w.task.steps[w.pc.i], answers)
    requires Lands(m, StreamItems(env, m.task, m.task.steps[m.pc.i], answers), accepted, AtStep(m.pc.i + 1), end)
    ensures Lands(w, StepItems(env, w.task, w.task.steps[w.pc.i], answers), accepted, AtStep(w.pc.i + 1), end)
  {
    var items := StreamItems(env, w.task, w.task.steps[w.pc.i], answers);
    LandsAfterQuiet(w, m, items, end, accepted, m.pc, AtStep(w.pc.i + 1));
  }

  predicate InTime(w: Worker, inputs: Inputs) {
    w.pc.AtStep? && w.pc.i <= |w.task.steps| && ClockIs(w, ArrivesAt(w.task, inputs, w.since, w.pc.i))
  }

  /** The worker has got to step `w.pc.i` in time, having said what comes before, and lost nothing. */
  predicate Arrived(env: Env, w: Worker, inputs: Inputs) {
    && InTime(w, inputs)
    && w.said == ItemsBefore(env, w.task, inputs, w.pc.i) && !Aborts(w.said, inputs.accepted)
  }

  ghost predicate OnTrack(env: Env, shutdown: bool, w: Worker, inputs: Inputs) {
    Arrived(env, w, inputs) && LaterPossible(env, shutdown, w.task, w.since, inputs)
  }

  lemma ArrivedFits(env: Env, shutdown: bool, w: Worker, inputs: Inputs)
    requires OnTrack(env, shutdown, w, inputs) && w.pc.i < |w.task.steps|
    ensures FitsHere(env, shutdown, w, inputs.steps(w.pc.i), inputs.accepted)
  {
    assert !LostBefore(env, w.task, inputs, w.pc.i);
  }

  predicate FollowsStep(env: Env, w: Worker, m: Worker, inputs: Inputs) {
    && w.pc.AtStep? && w.pc.i < |w.task.steps| && !ShutWhileWaiting(w.task.steps[w.pc.i], inputs.steps(w.pc.i))
    && Lands(
         w, StepItems(env, w.task, w.task.steps[w.pc.i], inputs.steps(w.pc.i)), inputs.accepted, AtStep(w.pc.i + 1), m)
  }

  lemma LandsWhole(w: Worker, items: seq<Item>, accepted: nat, pc: Pc, m: Worker)
    requires Lands(w, items, accepted, pc, m) && m.pc != Aborted && !Aborts(w.said, accepted)
    ensures m.said == w.said + items && !Aborts(m.said, accepted)
  {
    AllAttempted(items, accepted - |w.said|);
    AbortsConcat(w.said, items, accepted);
  }

  lemma InTimeNext(env: Env, w: Worker, m: Worker, inputs: Inputs)
    requires InTime(w, inputs) && FollowsStep(env, w, m, inputs) && m.pc != Aborted
    requires ClockIs(m, PassedAt(w.task.steps[w.pc.i], inputs.steps(w.pc.i), w.now))
    ensures InTime(m, inputs) && m.task == w.task && m.pc.i == w.pc.i + 1
  {
  }

  /** After a whole step the worker has got to the next. */
  lemma ArrivesNext(env: Env, w: Worker, m: Worker, inputs: Inputs)
    requires Arrived(env, w, inputs) && FollowsStep(env, w, m, inputs) && m.pc != Aborted
    requires ClockIs(m, PassedAt(w.task.steps[w.pc.i], inputs.steps(w.pc.i), w.now))
    ensures Arrived(env, m, inputs)
  {
    InTimeNext(env, w, m, inputs);
    var step := StepItems(env, w.task, w.task.steps[w.pc.i], inputs.steps(w.pc.i));
    LandsWhole(w, step, inputs.accepted, AtStep(w.pc.i + 1), m);
    assert ItemsBefore(env, w.task, inputs, w.pc.i + 1) == w.said + step;
  }

  /** The worker leaves its step loop here: no step is left, or a shutdown comes while it waits. */
  predicate Leaves(w: Worker, inputs: Inputs)
    requires w.pc.AtStep? && w.pc.i <= |w.task.steps|
  {
    w.pc.i == |w.task.steps| || ShutWhileWaiting(w.task.steps[w.pc.i], inputs.steps(w.pc.i))
  }

  /** A pass that is not shut down: it loses its client, or gets to the next step. */
  lemma PassPath(env: Env, shutdown: bool, start: Worker, before: seq<Tick>, w: Worker, inputs: Inputs)
    returns (script: seq<Tick>, m: Worker)
    requires Leads(env, shutdown, start, before, w) && OnTrack(env, shutdown, w, inputs) && !Leaves(w, inputs)
    ensures Leads(env, shutdown, start, script, m) && FollowsStep(env, w, m, inputs)
    ensures m.pc == Aborted || OnTrack(env, shutdown, m, inputs)
  {
    ArrivedFits(env, shutdown, w, inputs);
    script, m := StepPath(env, shutdown, start, before, w, inputs.steps(w.pc.i), inputs.accepted);
    if m.pc != Aborted {
      ArrivesNext(env, w, m, inputs);
    }
  }

  lemma FinalPath(env: Env, shutdown: bool, start: Worker, before: seq<Tick>, w: Worker, inputs: Inputs)
    returns (script: seq<Tick>, end: Worker)
    requires Leads(env, shutdown, start, before, w) && OnTrack(env, shutdown, w, inputs) && AtEnd(w)
    ensures Leads(env, shutdown, start, script, end)
    ensures Lands(w, FinalItems(env, w.task, inputs.last), inputs.accepted, Finishing, end)
  {
    assert !LostBefore(env, w.task, inputs, w.pc.i);
    var action := if inputs.last.None? then SeeShutdown else Conclude(inputs.last.value);
    script, end := Act(env, shutdown, start, before, w, action, inputs.accepted);
  }

  lemma ShutPath(env: Env, shutdown: bool, start: Worker, before: seq<Tick>, w: Worker, inputs: Inputs)
    returns (script: seq<Tick>, end: Worker)
    requires Leads(env, shutdown, start, before, w) && OnTrack(env, shutdown, w, inputs)
    requires w.pc.i < |w.task.steps| && ShutWhileWaiting(w.task.steps[w.pc.i], inputs.steps(w.pc.i))
    ensures Leads(env, shutdown, start, script, end)
    ensures Lands(w, [], inputs.accepted, Finishing, end)
  {
    ArrivedFits(env, shutdown, w, inputs);
    script, end := Act(env, shutdown, start, before, w, SeeShutdown, inputs.accepted);
  }

  lemma LeavePath(env: Env, shutdown: bool, start: Worker, before: seq<Tick>, w: Worker, inputs: Inputs)
    returns (script: seq<Tick>, end: Worker)
    requires Leads(env, shutdown, start, before, w) && OnTrack(env, shutdown, w, inputs) && Leaves(w, inputs)
    ensures Leads(env, shutdown, start, script, end)
    ensures Lands(w, TaskItems(env, w.task, inputs, w.pc.i), inputs.accepted, Finishing, end)
  {
    if w.pc.i == |w.task.steps| {
      script, end := FinalPath(env, shutdown, start, before, w, inputs);
    } else {
      script, end := ShutPath(env, shutdown, start, before, w, inputs);
    }
  }

  lemma RestGoes(env: Env, w: Worker, m: Worker, end: Worker, inputs: Inputs)
    requires FollowsStep(env, w, m, inputs)
    requires GoesOn(m, TaskItems(env, m.task, inputs, w.pc.i + 1), inputs.accepted, Finishing, end)
    ensures Lands(w, TaskItems(env, w.task, inputs, w.pc.i), inputs.accepted, Finishing, end)
  {
    var step := StepItems(env, w.task, w.task.steps[w.pc.i], inputs.steps(w.pc.i));
    var later := TaskItems(env, w.task, inputs, w.pc.i + 1);
    LandsInTurn(w, step, m, later, end, inputs.accepted, AtStep(w.pc.i + 1), Finishing);
  }

  /** A pass, and what comes after it. */
  lemma {:induction false} GoPath(
    env: Env, shutdown: bool, start: Worker, before: seq<Tick>, w: Worker, inputs: Inputs)
    returns (script: seq<Tick>, end: Worker)
    requires Leads(env, shutdown, start, before, w) && OnTrack(env, shutdown, w, inputs) && !Leaves(w, inputs)
    ensures Leads(env, shutdown, start, script, end)
    ensures Lands(w, TaskItems(env, w.task, inputs, w.pc.i), inputs.accepted, Finishing, end)
    decreases |w.task.steps| - w.pc.i, 0
  {
    var m;
    script, m := PassPath(env, shutdown, start, before, w, inputs);
    script, end := TaskPath(env, shutdown, start, script, m, inputs, w.pc.i + 1);
    RestGoes(env, w, m, end, inputs);
  }

  /** The step loop from step `i` on and the final wait, unless the client is lost. */
  lemma {:induction false} TaskPath(
    env: Env, shutdown: bool, start: Worker, before: seq<Tick>, m: Worker, inputs: Inputs, i: nat)
    returns (script: seq<Tick>, end: Worker)
    requires Leads(env, shutdown, start, before, m) && i <= |m.task.steps|
    requires m.pc == Aborted || (OnTrack(env, shutdown, m, inputs) && m.pc.i == i)
    ensures Leads(env, shutdown, start, script, end)
    ensures GoesOn(m, TaskItems(env, m.task, inputs, i), inputs.accepted, Finishing, end)
    decreases |m.task.steps| - i, 1
  {
    if m.pc == Aborted {
      script, end := before, m;
    } else if Leaves(m, inputs) {
      script, end := LeavePath(env, shutdown, start, before, m, inputs);
    } else {
      script, end := GoPath(env, shutdown, start, before, m, inputs);
    }
  }

  /** The start of the worker, from its snapshot. */
  lemma StartPath(env: Env, shutdown: bool, snapshot: TaskMeta, since: nat, inputs: Inputs)
    returns (script: seq<Tick>, w: Worker)
    requires Possible(env, shutdown, snapshot, since, inputs)
    ensures Leads(env, shutdown, NewWorker(snapshot, since), script, w)
    ensures if w.pc == AtStep(0)
            then
              && w.said == [] && OnTrack(env, shutdown, w, inputs)
              && Conversation(env, snapshot, inputs) == TaskItems(env, w.task, inputs, 0)
            else w.pc == Finishing && w.said == Conversation(env, snapshot, inputs) && Harmless(w.said)
  {
    var action := if snapshot.taskrunName != "" then Begin else StartAction(inputs);
    script, w := FirstAct(env, shutdown, NewWorker(snapshot, since), action);
  }

  function StartAction(inputs: Inputs): WorkerAction {
    match inputs.start
    case Some(Some(task)) => Resolve(task, inputs.at)
    case Some(None) => GiveUp(inputs.at, inputs.endedAt)
    case None => SeeShutdown
  }

  lemma FirstAct(env: Env, shutdown: bool, start: Worker, action: WorkerAction)
    returns (script: seq<Tick>, w: Worker)
    requires WorkerEnabled(env, start, action, shutdown)
    ensures Leads(env, shutdown, start, script, w) && w == WorkerAfter(env, start, action, shutdown, true)
  {
    assert Traces(env, shutdown, [], [start]);
    Extend(env, shutdown, start, [], start, Tick(action, true));
    script, w := [] + [Tick(action, true)], WorkerAfter(env, start, action, shutdown, true);
  }

  lemma LandsFromNothing(w: Worker, items: seq<Item>, accepted: nat, end: Worker)
    requires w.said == [] && Lands(w, items, accepted, Finishing, end)
    ensures end.said == Attempted(items, accepted)
    ensures end.pc == if Aborts(items, accepted) then Aborted else Finishing
  {
    assert accepted - |w.said| == accepted;
    assert w.said + Attempted(items, accepted) == Attempted(items, accepted);
  }

  /** The worker up to its `TaskDone`. */
  lemma ConversationPath(env: Env, shutdown: bool, snapshot: TaskMeta, since: nat, inputs: Inputs)
    returns (script: seq<Tick>, end: Worker)
    requires Possible(env, shutdown, snapshot, since, inputs)
    ensures var items := Conversation(env, snapshot, inputs);
            && Leads(env, shutdown, NewWorker(snapshot, since), script, end)
            && end.said == Attempted(items, inputs.accepted)
            && end.pc == if Aborts(items, inputs.accepted) then Aborted else Finishing
  {
    var w;
    script, w := StartPath(env, shutdown, snapshot, since, inputs);
    if w.pc == AtStep(0) {
      script, end := TaskPath(env, shutdown, NewWorker(snapshot, since), script, w, inputs, 0);
      LandsFromNothing(w, Conversation(env, snapshot, inputs), inputs.accepted, end);
    } else {
      HarmlessIsAttempted(w.said, inputs.accepted);
      end := w;
    }
  }

  /**
    The worker's program is a path of the transition system: whatever its awaits answer, what it
    attempts to send is what a worker of the system says on its way to the end of the code, and so
    it is in order; with no shutdown and no vital send failing, nothing is missing.
  */
  lemma ProgramIsPath(env: Env, shutdown: bool, snapshot: TaskMeta, since: nat, inputs: Inputs)
    returns (script: seq<Tick>, end: Worker)
    requires Possible(env, shutdown, snapshot, since, inputs)
    ensures Leads(env, shutdown, NewWorker(snapshot, since), script, end)
    ensures end.said == Output(env, snapshot, inputs) && WorkerGone(end) && InOrderAt(end, shutdown)
    ensures end.pc == Aborted <==> Aborts(Conversation(env, snapshot, inputs), inputs.accepted)
  {
    var w;
    script, w := ConversationPath(env, shutdown, snapshot, since, inputs);
    AttemptedConcat(Conversation(env, snapshot, inputs), [TaskDone], inputs.accepted);
    if w.pc == Finishing {
      var tick := Tick(Finish, true);
      Extend(env, shutdown, NewWorker(snapshot, since), script, w, tick);
      script, end := script + [tick], WorkerAfter(env, w, Finish, shutdown, true);
      HarmlessIsAttempted([TaskDone], inputs.accepted - |w.said|);
    } else {
      end := w;
    }
    LeadsInOrder(env, shutdown, NewWorker(snapshot, since), script, end);
  }
}
