/**
  What one worker sends, in order: for each step of its task either a timeout error, or the
  step's log lines closed by its status; then the task's status; then `TaskDone`.
*/
module WorkerOrder {
  import opened Wrappers
  import opened Sequences
  import opened RunModel
  import opened TektonApi
  import opened RunDiscovery
  import opened Polling
  import opened StepLogStream
  import opened EventStream

  // ── The grammar ────────────────────────────────────────────────────────

  /** How far a sequence of items has come: between steps, in a step's log, or past the task's status. */
  datatype Progress = Before(i: nat) | Within(i: nat) | Concluded | Rejected

  function Advance(task: TaskMeta, p: Progress, item: Item): Progress {
    match item
    case Error(message) =>
      if p.Before? && p.i < |task.steps| && message == TimeoutMessage(task, task.steps[p.i])
      then Before(p.i + 1) else Rejected
    case Log(line) =>
      if (p.Before? || p.Within?) && p.i < |task.steps| && line.task == task.name && line.step == task.steps[p.i].name
      then Within(p.i) else Rejected
    case StepStatus(name, step, _, _) =>
      if (p.Before? || p.Within?) && p.i < |task.steps| && name == task.name && step == task.steps[p.i].name
      then Before(p.i + 1) else Rejected
    case TaskStatus(name, _, _) =>
      if p == Before(|task.steps|) && name == task.name then Concluded else Rejected
    case TaskDone => Rejected
  }

  function Parse(task: TaskMeta, items: seq<Item>): Progress {
    if items == [] then Before(0)
    else Advance(task, Parse(task, items[..|items| - 1]), items[|items| - 1])
  }

  lemma ParseSnoc(task: TaskMeta, items: seq<Item>, item: Item)
    ensures Parse(task, items + [item]) == Advance(task, Parse(task, items), item)
  {
    assert (items + [item])[..|items|] == items;
  }

  lemma {:induction false} ParsePrefix(task: TaskMeta, items: seq<Item>, k: nat)
    requires k <= |items| && Parse(task, items) != Rejected
    ensures Parse(task, items[..k]) != Rejected
    decreases |items|
  {
    if k == |items| {
      assert items[..k] == items;
    } else {
      var front := items[..|items| - 1];
      assert front[..k] == items[..k];
      ParsePrefix(task, front, k);
    }
  }

  lemma {:induction false} ParsedHasNoTaskDone(task: TaskMeta, items: seq<Item>)
    requires Parse(task, items) != Rejected
    ensures TaskDone !in items
  {
    if items != [] {
      ParsedHasNoTaskDone(task, items[..|items| - 1]);
      assert items == items[..|items| - 1] + [items[|items| - 1]];
    }
  }

  // ── The grammar, as groups ─────────────────────────────────────────────

  predicate LogOf(task: TaskMeta, i: nat, item: Item)
    requires i < |task.steps|
  {
    item.Log? && item.line.task == task.name && item.line.step == task.steps[i].name
  }

  /** What step `i` contributes: a timeout, or log lines and then its status. */
  predicate Group(task: TaskMeta, i: nat, items: seq<Item>)
    requires i < |task.steps|
  {
    || items == [Error(TimeoutMessage(task, task.steps[i]))]
    || (&& items != []
        && items[|items| - 1].StepStatus?
        && items[|items| - 1].task == task.name && items[|items| - 1].step == task.steps[i].name
        && forall k | 0 <= k < |items| - 1 :: LogOf(task, i, items[k]))
  }

  predicate Groups(task: TaskMeta, groups: seq<seq<Item>>) {
    |groups| <= |task.steps| && forall i | 0 <= i < |groups| :: Group(task, i, groups[i])
  }

  function Whole(group: seq<Item>): seq<Item> {
    group
  }

  lemma {:induction false} ParseLogs(task: TaskMeta, i: nat, front: seq<Item>, logs: seq<Item>)
    requires i < |task.steps| && Parse(task, front) == Before(i)
    requires forall k | 0 <= k < |logs| :: LogOf(task, i, logs[k])
    ensures Parse(task, front + logs) == if logs == [] then Before(i) else Within(i)
  {
    if logs == [] {
      assert front + logs == front;
    } else {
      var logs', last := logs[..|logs| - 1], logs[|logs| - 1];
      ParseLogs(task, i, front, logs');
      assert front + logs == (front + logs') + [last];
      ParseSnoc(task, front + logs', last);
    }
  }

  lemma ParseGroup(task: TaskMeta, i: nat, front: seq<Item>, group: seq<Item>)
    requires i < |task.steps| && Parse(task, front) == Before(i) && Group(task, i, group)
    ensures Parse(task, front + group) == Before(i + 1)
  {
    var logs, last := group[..|group| - 1], group[|group| - 1];
    assert group == logs + [last];
    assert front + group == (front + logs) + [last];
    if last.Error? {
      assert front + logs == front;
    } else {
      ParseLogs(task, i, front, logs);
    }
    ParseSnoc(task, front + logs, last);
  }

  lemma {:induction false} ParseGroups(task: TaskMeta, groups: seq<seq<Item>>)
    requires Groups(task, groups)
    ensures Parse(task, FlatMap(groups, Whole)) == Before(|groups|)
  {
    if groups != [] {
      var k := |groups| - 1;
      ParseGroups(task, groups[..k]);
      ParseGroup(task, k, FlatMap(groups[..k], Whole), groups[k]);
    }
  }

  /** `items` are whole groups and then `logs`, the log lines of the step in progress. */
  ghost predicate Grouping(task: TaskMeta, items: seq<Item>, p: Progress, groups: seq<seq<Item>>, logs: seq<Item>) {
    && (p.Before? || p.Within?)
    && Groups(task, groups) && |groups| == p.i
    && items == FlatMap(groups, Whole) + logs
    && (p.Before? ==> logs == [])
    && (p.Within? ==> p.i < |task.steps|)
    && forall k | 0 <= k < |logs| :: p.i < |task.steps| && LogOf(task, p.i, logs[k])
  }

  lemma GroupingAfterLog(
    task: TaskMeta, items: seq<Item>, p: Progress, groups: seq<seq<Item>>, logs: seq<Item>, last: Item)
    requires Grouping(task, items, p, groups, logs) && last.Log? && Advance(task, p, last) != Rejected
    ensures Grouping(task, items + [last], Advance(task, p, last), groups, logs + [last])
  {
    assert FlatMap(groups, Whole) + logs + [last] == FlatMap(groups, Whole) + (logs + [last]);
  }

  lemma GroupingAfterClose(
    task: TaskMeta, items: seq<Item>, p: Progress, groups: seq<seq<Item>>, logs: seq<Item>, last: Item)
    requires Grouping(task, items, p, groups, logs) && !last.Log? && Advance(task, p, last).Before?
    ensures Grouping(task, items + [last], Advance(task, p, last), groups + [logs + [last]], [])
  {
    FlatMapSnoc(groups, logs + [last], Whole);
    assert FlatMap(groups, Whole) + logs + [last] == FlatMap(groups, Whole) + (logs + [last]) + [];
    assert Group(task, p.i, logs + [last]);
  }

  /** Items parsed up to a step boundary are groups; inside a step, groups and then its log lines. */
  lemma {:induction false} ParsedIsGrouped(task: TaskMeta, items: seq<Item>)
    returns (groups: seq<seq<Item>>, logs: seq<Item>)
    requires Parse(task, items).Before? || Parse(task, items).Within?
    ensures Grouping(task, items, Parse(task, items), groups, logs)
  {
    if items == [] {
      groups, logs := [], [];
    } else {
      var front, last := items[..|items| - 1], items[|items| - 1];
      assert items == front + [last];
      groups, logs := ParsedIsGrouped(task, front);
      if last.Log? {
        GroupingAfterLog(task, front, Parse(task, front), groups, logs, last);
        logs := logs + [last];
      } else {
        GroupingAfterClose(task, front, Parse(task, front), groups, logs, last);
        groups, logs := groups + [logs + [last]], [];
      }
    }
  }

  /** Exactly one group per step, in step order, and then one status for the task. */
  ghost predicate CompleteRun(task: TaskMeta, items: seq<Item>) {
    exists groups: seq<seq<Item>>, status: RunStatus, reason: Option<string> ::
      ClosesWith(task, items, groups, status, reason)
  }

  ghost predicate ClosesWith(
    task: TaskMeta, items: seq<Item>, groups: seq<seq<Item>>, status: RunStatus, reason: Option<string>)
  {
    && Groups(task, groups) && |groups| == |task.steps|
    && items == FlatMap(groups, Whole) + [TaskStatus(task.name, status, reason)]
  }

  lemma ConcludedCloses(task: TaskMeta, items: seq<Item>)
    requires Parse(task, items) == Concluded
    ensures CompleteRun(task, items)
  {
    var front, last := items[..|items| - 1], items[|items| - 1];
    var groups, logs := ParsedIsGrouped(task, front);
    assert items == front + [last];
    assert ClosesWith(task, items, groups, last.status, last.reason);
  }

  lemma ClosedIsConcluded(
    task: TaskMeta, items: seq<Item>, groups: seq<seq<Item>>, status: RunStatus, reason: Option<string>)
    requires ClosesWith(task, items, groups, status, reason)
    ensures Parse(task, items) == Concluded
  {
    ParseGroups(task, groups);
    ParseSnoc(task, FlatMap(groups, Whole), TaskStatus(task.name, status, reason));
  }

  lemma ConcludedIsCompleteRun(task: TaskMeta, items: seq<Item>)
    ensures Parse(task, items) == Concluded <==> CompleteRun(task, items)
  {
    if Parse(task, items) == Concluded {
      ConcludedCloses(task, items);
    }
    if groups, status, reason :| ClosesWith(task, items, groups, status, reason) {
      ClosedIsConcluded(task, items, groups, status, reason);
    }
  }

  // ── A worker keeps to the grammar ──────────────────────────────────────

  /** What a worker has said, apart from a closing `TaskDone`. */
  ghost predicate Orderly(w: Worker, body: seq<Item>) {
    if w.resolved then Parse(w.task, body) != Rejected
    else body == [] || body == [NeverStarted(w.task)]
  }

  /** A body with nothing missing. */
  ghost predicate Complete(w: Worker, body: seq<Item>) {
    if w.resolved then Parse(w.task, body) == Concluded else body == [NeverStarted(w.task)]
  }

  /** What a worker has said is what its place in the code allows; only a shutdown makes it say less. */
  ghost predicate InOrderAt(w: Worker, shutdown: bool) {
    match w.pc
    case Resolving => !w.resolved && w.said == []
    case AtStep(i) =>
      && w.resolved && i <= |w.task.steps| && Parse(w.task, w.said) == Before(i)
      && w.attempt < MAX_READY_RETRIES && (w.attempt == 0 || WaitsForStep(w))
    case Streaming(i, _) => MidStep(w, i)
    case Reporting(i) => MidStep(w, i)
    case Finishing => Orderly(w, w.said) && (!shutdown ==> Complete(w, w.said))
    case Stopped =>
      && w.said != [] && w.said[|w.said| - 1] == TaskDone
      && Orderly(w, w.said[..|w.said| - 1]) && (!shutdown ==> Complete(w, w.said[..|w.said| - 1]))
    case Aborted => w.resolved && Parse(w.task, w.said) != Rejected
  }

  ghost predicate MidStep(w: Worker, i: nat) {
    && w.resolved && i < |w.task.steps|
    && (Parse(w.task, w.said) == Before(i) || Parse(w.task, w.said) == Within(i))
  }

  lemma SilentStepKeepsOrder(env: Env, w: Worker, a: WorkerAction, shutdown: bool, alive: bool)
    requires WorkerEnabled(env, w, a, shutdown) && InOrderAt(w, shutdown)
    requires SentBy(env, w, a, shutdown).None?
    ensures InOrderAt(WorkerAfter(env, w, a, shutdown, alive), shutdown)
  {
    assert WorkerAfter(env, w, a, shutdown, alive).said == w.said;
  }

  lemma SendKeepsOrder(env: Env, w: Worker, a: WorkerAction, shutdown: bool, alive: bool)
    requires WorkerEnabled(env, w, a, shutdown) && InOrderAt(w, shutdown)
    requires SentBy(env, w, a, shutdown).Some? && !a.Finish? && !a.GiveUp? && !a.Conclude?
    ensures InOrderAt(WorkerAfter(env, w, a, shutdown, alive), shutdown)
  {
    ParseSnoc(w.task, w.said, SentBy(env, w, a, shutdown).value);
  }

  lemma ConcludeKeepsOrder(env: Env, w: Worker, poll: LastPoll, shutdown: bool, alive: bool)
    requires WorkerEnabled(env, w, Conclude(poll), shutdown) && InOrderAt(w, shutdown)
    ensures InOrderAt(WorkerAfter(env, w, Conclude(poll), shutdown, alive), shutdown)
  {
    ParseSnoc(w.task, w.said, SentBy(env, w, Conclude(poll), shutdown).value);
  }

  lemma StepKeepsOrder(env: Env, w: Worker, a: WorkerAction, shutdown: bool, alive: bool)
    requires WorkerEnabled(env, w, a, shutdown) && InOrderAt(w, shutdown)
    ensures InOrderAt(WorkerAfter(env, w, a, shutdown, alive), shutdown)
  {
    if a.Finish? {
      assert WorkerAfter(env, w, a, shutdown, alive).said[..|w.said|] == w.said;
    } else if a.GiveUp? {
      assert WorkerAfter(env, w, a, shutdown, alive).said == [NeverStarted(w.task)];
    } else if a.Conclude? {
      ConcludeKeepsOrder(env, w, a.poll, shutdown, alive);
    } else if SentBy(env, w, a, shutdown).Some? {
      SendKeepsOrder(env, w, a, shutdown, alive);
    } else {
      SilentStepKeepsOrder(env, w, a, shutdown, alive);
    }
  }

  // ── Where a worker's steps come from ───────────────────────────────────

  /** The steps of the task were read from its TaskRun by time `since`. */
  ghost predicate Grounded(world: World, task: TaskMeta, since: nat) {
    task.steps == [] || exists t: nat, tr :: ReadFrom(world, task, t, tr) && t <= since
  }

  predicate ReadFrom(world: World, task: TaskMeta, t: nat, tr: TaskRun) {
    Shows(world, t, task.taskrunName, tr) && task.steps == StepsFromTaskRunStatus(tr)
  }

  /** A TaskRun that any query returns carries its name and is what a query for that name returns. */
  ghost predicate SelfNamed(cluster: Cluster) {
    && (forall n: string, tr: TaskRun | cluster.getTaskRun(n) == Ok(Some(tr)) :: tr.name == Some(n))
    && (forall c: string, items: seq<TaskRun>, i | cluster.listByCustomRunLabel(c) == Ok(items) && 0 <= i < |items| ::
          items[i].name.Some? && cluster.getTaskRun(items[i].name.value) == Ok(Some(items[i])))
  }

  /** The cluster behaves: TaskRuns keep their names and their steps only advance. */
  ghost predicate Behaves(world: World) {
    (forall t: nat :: SelfNamed(world(t))) && forall n: string :: OnlyAdvances(world, n)
  }

  lemma NamedIsShown(world: World, t: nat, name: string, tr: TaskRun)
    requires SelfNamed(world(t)) && world(t).getTaskRun(name) == Ok(Some(tr))
    ensures tr.name.Some? && Shows(world, t, tr.name.value, tr)
  {
  }

  lemma LabelledIsShown(world: World, t: nat, customRun: string, items: seq<TaskRun>)
    requires SelfNamed(world(t)) && world(t).listByCustomRunLabel(customRun) == Ok(items) && items != []
    ensures items[0].name.Some? && Shows(world, t, items[0].name.value, items[0])
  {
  }

  /** A TaskRun that was glimpsed through a child reference was shown under its own name. */
  lemma ResolvedIsShown(world: World, seen: Cluster, begun: nat, ended: nat, r: ChildRef, tr: TaskRun)
    returns (t: nat)
    requires forall t: nat :: SelfNamed(world(t))
    requires Glimpsed(world, seen, begun, ended) && TaskRunOf(seen, r) == Ok(Some(tr))
    ensures t <= ended && tr.name.Some? && Shows(world, t, tr.name.value, tr)
  {
    if r.kind == "CustomRun" && seen.getTaskRun(r.childName + "-exec") == Ok(None) {
      var items := seen.listByCustomRunLabel(r.childName).value;
      assert GaveList(world, begun, ended, r.childName, Ok(items));
      t :| begun <= t <= ended && world(t).listByCustomRunLabel(r.childName) == Ok(items);
      LabelledIsShown(world, t, r.childName, items);
    } else {
      var name := if r.kind == "CustomRun" then r.childName + "-exec" else r.childName;
      assert GaveTaskRun(world, begun, ended, name, Ok(Some(tr)));
      t :| begun <= t <= ended && world(t).getTaskRun(name) == Ok(Some(tr));
      NamedIsShown(world, t, name, tr);
    }
  }

  lemma RefreshedIsGrounded(env: Env, name: string, begun: nat, ended: nat, task: TaskMeta)
    requires Behaves(env.world) && Refreshes(env, name, begun, ended, Ok(Some(task)))
    ensures task.name == name && Grounded(env.world, task, ended)
  {
    var seen :| Glimpsed(env.world, seen, begun, ended) && RefreshTask(seen, env.runName, name) == Ok(Some(task));
    var pr := seen.getPipelineRun(env.runName).value.value;
    var r := FindRef(Refs(pr), name).value;
    var tr := TaskRunOf(seen, r).value.value;
    var t := ResolvedIsShown(env.world, seen, begun, ended, r, tr);
    assert ReadFrom(env.world, task, t, tr);
  }

  lemma EntryIsGrounded(
    world: World, seen: Cluster, begun: nat, ended: nat, pr: PipelineRun, name: string, task: TaskMeta)
    requires Behaves(world) && Glimpsed(world, seen, begun, ended) && Entry(seen, pr, name) == Ok(task)
    ensures Grounded(world, task, ended)
  {
    if task.steps != [] {
      var r := FindRef(Refs(pr), name).value;
      var tr := TaskRunOf(seen, r).value.value;
      var t := ResolvedIsShown(world, seen, begun, ended, r, tr);
      assert ReadFrom(world, task, t, tr);
    }
  }

  /** The run was discovered from `begun` to `ended`; the cluster may have changed meanwhile. */
  ghost predicate DiscoveredBy(env: Env, meta: RunMeta, seen: Cluster, begun: nat, ended: nat) {
    Glimpsed(env.world, seen, begun, ended) && Discovered(seen, env.runName) == Ok(meta)
  }

  lemma DiscoveredIsGrounded(env: Env, meta: RunMeta, seen: Cluster, begun: nat, ended: nat, i: nat)
    requires Behaves(env.world) && DiscoveredBy(env, meta, seen, begun, ended) && i < |meta.tasks|
    ensures Grounded(env.world, meta.tasks[i], ended)
  {
    var pr := seen.getPipelineRun(env.runName).value.value;
    EntriesPerName(seen, pr, OrderedNames(pr));
    EntryIsGrounded(env.world, seen, begun, ended, pr, OrderedNames(pr)[i], meta.tasks[i]);
  }

  // ── No step goes backwards ─────────────────────────────────────────────

  /** A status report is at or after the status its step had in the task the worker started from. */
  ghost predicate NotBackwards(task: TaskMeta, item: Item) {
    item.StepStatus? ==>
      exists step :: step in task.steps && step.name == item.step && AtOrAfter(step.status, item.status)
  }

  ghost predicate Forward(world: World, w: Worker) {
    && w.since <= w.now && Grounded(world, w.task, w.since)
    && (forall i | 0 <= i < |w.said| :: NotBackwards(w.task, w.said[i]))
  }

  lemma ReportIsNotBackwards(env: Env, w: Worker, times: seq<nat>, shutdown: bool)
    requires Behaves(env.world) && w.since <= w.now && Grounded(env.world, w.task, w.since)
    requires WorkerEnabled(env, w, Report(times), shutdown)
    ensures NotBackwards(w.task, SentBy(env, w, Report(times), shutdown).value)
  {
    var step := w.task.steps[w.pc.i];
    var t: nat, tr :| ReadFrom(env.world, w.task, t, tr) && t <= w.since;
    assert step in w.task.steps;
    NoStepGoesBackwards(env.world, w.task.taskrunName, t, tr, step, times);
  }

  /** What every action of a worker does to what it has said, to its task and to its clock. */
  lemma StepMoves(env: Env, w: Worker, a: WorkerAction, shutdown: bool, alive: bool)
    requires WorkerEnabled(env, w, a, shutdown)
    ensures var w', item := WorkerAfter(env, w, a, shutdown, alive), SentBy(env, w, a, shutdown);
            && w'.said == w.said + Said(item) && w'.saidAt == w.saidAt + Stamp(item, NextNow(w, a))
            && w.now <= w'.now == NextNow(w, a) && w'.pc != Resolving
            && if a.Resolve? then w.pc == Resolving && item.None? && w'.task == a.started && w'.since == w'.now == a.at
               else w'.task == w.task && w'.since == w.since
  {
  }

  lemma SentIsForward(env: Env, w: Worker, a: WorkerAction, shutdown: bool)
    requires Behaves(env.world) && WorkerEnabled(env, w, a, shutdown) && Forward(env.world, w)
    ensures SentBy(env, w, a, shutdown).Some? ==> NotBackwards(w.task, SentBy(env, w, a, shutdown).value)
  {
    if a.Report? {
      ReportIsNotBackwards(env, w, a.times, shutdown);
    }
  }

  lemma ForwardFollows(world: World, w: Worker, w': Worker, item: Option<Item>)
    requires Forward(world, w) && w'.said == w.said + Said(item) && w.now <= w'.now
    requires w'.task == w.task && w'.since == w.since
    requires item.Some? ==> NotBackwards(w.task, item.value)
    ensures Forward(world, w')
  {
  }

  /** No action makes a worker report a step behind the status it started from. */
  lemma StepKeepsForward(env: Env, w: Worker, a: WorkerAction, shutdown: bool, alive: bool)
    requires Behaves(env.world) && WorkerEnabled(env, w, a, shutdown)
    requires InOrderAt(w, shutdown) && Forward(env.world, w)
    ensures Forward(env.world, WorkerAfter(env, w, a, shutdown, alive))
  {
    StepMoves(env, w, a, shutdown, alive);
    if a.Resolve? {
      RefreshedIsGrounded(env, w.task.name, w.now, a.at, a.started);
    } else {
      SentIsForward(env, w, a, shutdown);
      ForwardFollows(
        env.world, w, WorkerAfter(env, w, a, shutdown, alive), SentBy(env, w, a, shutdown));
    }
  }

  // ── A worker's clock ───────────────────────────────────────────────────

  /** Since when the worker has said nothing: its last item, or its task if it has said none. */
  function Turn(w: Worker): nat {
    if w.saidAt == [] then w.since else w.saidAt[|w.saidAt| - 1]
  }

  /** The wait for a step's container so far: every read since the worker came to the step, none of which ended it. */
  ghost predicate Waits(world: World, w: Worker, step: StepMeta) {
    var answers := AnswersAt(world, w.task, step, w.polled);
    && w.attempt == CountedIn(answers, |w.polled|) && StillWaiting(answers, |w.polled|)
    && InOrder(w.polled, Turn(w)) && Paced(answers, w.polled)
    && (w.polled != [] ==> Resumed(answers, w.polled) <= w.now)
  }

  /** When the worker goes on after its last read. */
  function Resumed(answers: nat -> PodAnswer, times: seq<nat>): nat
    requires times != []
  {
    times[|times| - 1] + if Counted(answers(|times| - 1)) then READY_POLL_INTERVAL else 0
  }

  /** What a worker says, it says one after another. */
  predicate Timed(w: Worker) {
    && |w.saidAt| == |w.said| && InOrder(w.saidAt, w.since) && w.since <= Turn(w) <= w.now
    && (w.pc == Resolving ==> w.now == w.since)
  }

  ghost predicate WaitIsKept(world: World, w: Worker) {
    if WaitsForStep(w) then Waits(world, w, w.task.steps[w.pc.i]) else w.polled == [] && w.attempt == 0
  }

  /** A worker's clock, and the wait it may be in. */
  ghost predicate OnTime(world: World, w: Worker) {
    Timed(w) && WaitIsKept(world, w)
  }

  /** Another read that does not end the wait. */
  lemma PollGoesOn(env: Env, w: Worker, at: nat, answer: PodAnswer, shutdown: bool, alive: bool)
    requires WorkerEnabled(env, w, Poll(at, answer), shutdown) && OnTime(env.world, w) && PollEnds(w, answer).None?
    ensures WaitIsKept(env.world, WorkerAfter(env, w, Poll(at, answer), shutdown, alive))
  {
    var step, w' := w.task.steps[w.pc.i], WorkerAfter(env, w, Poll(at, answer), shutdown, alive);
    PollsExtend(env.world, w, step, at);
    assert w'.saidAt == w.saidAt;
  }

  /** The answers so far, with one more. */
  lemma PollsExtend(world: World, w: Worker, step: StepMeta, at: nat)
    requires Waits(world, w, step) && w.now <= at && Turn(w) <= w.now
    ensures var answers := AnswersAt(world, w.task, step, w.polled + [at]);
            && CountedIn(answers, |w.polled|) == w.attempt && StillWaiting(answers, |w.polled|)
            && InOrder(w.polled + [at], Turn(w)) && Paced(answers, w.polled + [at])
  {
    var old', answers := AnswersAt(world, w.task, step, w.polled), AnswersAt(world, w.task, step, w.polled + [at]);
    CountedInAgrees(old', answers, |w.polled|);
    forall k | 0 <= k < |w.polled + [at]| - 1
      ensures PacedAt(answers, w.polled + [at], k)
    {
      assert answers(k) == old'(k);
      assert k < |w.polled| - 1 ==> PacedAt(old', w.polled, k);
    }
  }

  /** A read that ends the wait: the worker has waited as the loop does. */
  lemma PollEndsWait(env: Env, w: Worker, at: nat, answer: PodAnswer, shutdown: bool)
    requires WorkerEnabled(env, w, Poll(at, answer), shutdown) && OnTime(env.world, w) && PollEnds(w, answer).Some?
    ensures Waited(
              env.world, w.task, w.task.steps[w.pc.i], Turn(w), w.polled + [at], PollEnds(w, answer).value)
  {
    PollsExtend(env.world, w, w.task.steps[w.pc.i], at);
  }

  /** Once a wait is over, or without one, nothing is left of it. */
  lemma StepLeavesNoWait(env: Env, w: Worker, a: WorkerAction, shutdown: bool, alive: bool)
    requires WorkerEnabled(env, w, a, shutdown) && !StillPolling(w, a)
    ensures WaitIsKept(env.world, WorkerAfter(env, w, a, shutdown, alive))
  {
    var w' := WorkerAfter(env, w, a, shutdown, alive);
    assert w'.attempt == 0 && w'.polled == [];
    if WaitsForStep(w') {
      assert StillWaiting(AnswersAt(env.world, w'.task, w'.task.steps[w'.pc.i], []), 0);
    }
  }

  lemma TimedFollows(w: Worker, w': Worker, item: Option<Item>)
    requires Timed(w) && w.now <= w'.now && w'.since == w.since && w'.pc != Resolving
    requires w'.said == w.said + Said(item) && w'.saidAt == w.saidAt + Stamp(item, w'.now)
    ensures Timed(w')
  {
    if item.None? {
      assert w'.saidAt == w.saidAt && w'.said == w.said;
    }
  }

  lemma SaysInTime(env: Env, w: Worker, a: WorkerAction, shutdown: bool, alive: bool)
    requires WorkerEnabled(env, w, a, shutdown) && InOrderAt(w, shutdown) && Timed(w)
    ensures Timed(WorkerAfter(env, w, a, shutdown, alive))
  {
    StepMoves(env, w, a, shutdown, alive);
    if !a.Resolve? {
      TimedFollows(w, WorkerAfter(env, w, a, shutdown, alive), SentBy(env, w, a, shutdown));
    }
  }

  lemma StepKeepsTime(env: Env, w: Worker, a: WorkerAction, shutdown: bool, alive: bool)
    requires WorkerEnabled(env, w, a, shutdown) && InOrderAt(w, shutdown) && OnTime(env.world, w)
    ensures OnTime(env.world, WorkerAfter(env, w, a, shutdown, alive))
  {
    SaysInTime(env, w, a, shutdown, alive);
    if StillPolling(w, a) {
      PollGoesOn(env, w, a.at, a.answer, shutdown, alive);
    } else {
      StepLeavesNoWait(env, w, a, shutdown, alive);
    }
  }

  // ── How a log is opened ────────────────────────────────────────────────

  /** The container of the step, as the cluster answers for it. */
  function ContainerOf(world: World, task: TaskMeta, step: StepMeta, at: nat): PodAnswer {
    world(at).getContainer(task.podName.GetOr(task.taskrunName + "-pod"), step.container)
  }

  /**
    At that time, after everything the worker has said but the step's own lines, the container was
    read: as running and not terminated if its log is followed, as terminated if not.
  */
  predicate OpenedAt(world: World, w: Worker, step: StepMeta, follow: bool, at: nat)
    requires |w.saidAt| == |w.said|
  {
    && w.since <= at <= w.now && (forall k | 0 <= k < |w.said| && !w.said[k].Log? :: w.saidAt[k] <= at)
    && if follow then ContainerOf(world, w.task, step, at) == Pod(Some(ContainerState(false, true)))
       else exists running :: ContainerOf(world, w.task, step, at) == Pod(Some(ContainerState(true, running)))
  }

  /** Whether a log is followed: not if the step had finished; if it was pending, as its container was read. */
  ghost predicate OpenedAsRead(world: World, w: Worker)
    requires |w.saidAt| == |w.said|
  {
    w.pc.Streaming? && w.pc.i < |w.task.steps| ==>
      var step := w.task.steps[w.pc.i];
      match step.status
      case Pending => exists at :: OpenedAt(world, w, step, w.pc.follow, at)
      case Succeeded => !w.pc.follow
      case Failed => !w.pc.follow
      case _ => w.pc.follow
  }

  lemma PollOpensAsRead(env: Env, w: Worker, at: nat, answer: PodAnswer, shutdown: bool, alive: bool)
    requires WorkerEnabled(env, w, Poll(at, answer), shutdown) && InOrderAt(w, shutdown) && Timed(w)
    requires Timed(WorkerAfter(env, w, Poll(at, answer), shutdown, alive))
    ensures OpenedAsRead(env.world, WorkerAfter(env, w, Poll(at, answer), shutdown, alive))
  {
    var w' := WorkerAfter(env, w, Poll(at, answer), shutdown, alive);
    if w'.pc.Streaming? {
      var state := answer.state.value;
      assert state == ContainerState(state.terminated, state.running);
      assert w'.said == w.said && w'.saidAt == w.saidAt;
      assert OpenedAt(env.world, w', w.task.steps[w.pc.i], w'.pc.follow, at);
    }
  }

  lemma StepKeepsOpened(env: Env, w: Worker, a: WorkerAction, shutdown: bool, alive: bool)
    requires WorkerEnabled(env, w, a, shutdown) && InOrderAt(w, shutdown) && Timed(w) && OpenedAsRead(env.world, w)
    requires Timed(WorkerAfter(env, w, a, shutdown, alive))
    ensures OpenedAsRead(env.world, WorkerAfter(env, w, a, shutdown, alive))
  {
    var w' := WorkerAfter(env, w, a, shutdown, alive);
    match a {
      case Poll(at, answer) => PollOpensAsRead(env, w, at, answer, shutdown, alive);
      case Line(_, _) =>
        if w'.pc.Streaming? && w.task.steps[w.pc.i].status == Pending {
          var at :| OpenedAt(env.world, w, w.task.steps[w.pc.i], w.pc.follow, at);
          assert OpenedAt(env.world, w', w.task.steps[w.pc.i], w.pc.follow, at);
        }
      case _ =>
    }
  }

  // ── What is said was read ──────────────────────────────────────────────

  /** The status is what a final wait for the task's TaskRun, ending with `poll`, gives. */
  predicate StatusReadAt(world: World, task: TaskMeta, since: nat, item: Item, poll: LastPoll) {
    && item.TaskStatus? && TaskPolled(world, task, since, poll)
    && (item.status, item.reason) == TaskOutcome(world(poll.at).getTaskRun(task.taskrunName))
  }

  /** The error is the timeout of step `k`, whose container was read at `times`. */
  predicate TimedOutAt(world: World, task: TaskMeta, since: nat, item: Item, k: nat, times: seq<nat>) {
    && k < |task.steps| && item == Error(TimeoutMessage(task, task.steps[k]))
    && Waited(world, task, task.steps[k], since, times, TimedOut)
  }

  /** The status is what step `k` was read as at `times`. */
  predicate StepReadAt(world: World, task: TaskMeta, since: nat, item: Item, k: nat, times: seq<nat>) {
    && k < |task.steps| && |times| == MAX_ATTEMPTS && InOrder(times, since)
    && var latest := FreshOr(world, task.taskrunName, task.steps[k], times);
    item == StepStatus(task.name, task.steps[k].name, latest.status, latest.reason)
  }

  /** What an item that the worker says by `at`, not having said anything since `since`, rests on. */
  ghost predicate Grounds(env: Env, w: Worker, item: Item, since: nat, at: nat) {
    match item
    case TaskStatus(_, _, _) =>
      if w.resolved then exists poll :: StatusReadAt(env.world, w.task, since, item, poll) && poll.ended <= at
      else exists refreshedAt, ended: nat :: GivesUp(env, w.task.name, w.since, refreshedAt, ended) && ended <= at
    case Error(_) => exists k, times :: TimedOutAt(env.world, w.task, since, item, k, times) && times[|times| - 1] <= at
    case StepStatus(_, _, _, _) =>
      exists k, times :: StepReadAt(env.world, w.task, since, item, k, times) && times[MAX_ATTEMPTS - 1] <= at
    case _ => true
  }

  /** When the item before item `i` was said. */
  function TurnAt(w: Worker, i: nat): nat
    requires i <= |w.saidAt|
  {
    if i == 0 then w.since else w.saidAt[i - 1]
  }

  /** Item `i` rests on reads made after the item before it was said. */
  ghost predicate GroundedAt(env: Env, w: Worker, i: nat)
    requires |w.saidAt| == |w.said|
  {
    i < |w.said| && Grounds(env, w, w.said[i], TurnAt(w, i), w.saidAt[i])
  }

  ghost predicate Truthful(env: Env, w: Worker) {
    && OnTime(env.world, w) && OpenedAsRead(env.world, w)
    && forall i | 0 <= i < |w.said| :: GroundedAt(env, w, i)
  }

  lemma SentHasGrounds(env: Env, w: Worker, a: WorkerAction, shutdown: bool)
    requires WorkerEnabled(env, w, a, shutdown) && InOrderAt(w, shutdown) && OnTime(env.world, w)
    requires SentBy(env, w, a, shutdown).Some?
    ensures Grounds(env, w, SentBy(env, w, a, shutdown).value, Turn(w), NextNow(w, a))
  {
    var item := SentBy(env, w, a, shutdown).value;
    match a {
      case Conclude(poll) => assert StatusReadAt(env.world, w.task, Turn(w), item, poll);
      case Poll(at, answer) =>
        PollEndsWait(env, w, at, answer, shutdown);
        assert TimedOutAt(env.world, w.task, Turn(w), item, w.pc.i, w.polled + [at]);
      case Report(times) => assert StepReadAt(env.world, w.task, Turn(w), item, w.pc.i, times);
      case _ =>
    }
  }

  /** Once something has been said, what it rests on does not change. */
  lemma GroundsStay(env: Env, w: Worker, w': Worker, item: Item, since: nat, at: nat)
    requires Grounds(env, w, item, since, at)
    requires w'.task == w.task && w'.since == w.since && w'.resolved == w.resolved
    ensures Grounds(env, w', item, since, at)
  {
  }

  lemma OldSaidIsGrounded(env: Env, w: Worker, a: WorkerAction, shutdown: bool, alive: bool, i: nat)
    requires WorkerEnabled(env, w, a, shutdown) && InOrderAt(w, shutdown) && Timed(w)
    requires i < |w.said| && GroundedAt(env, w, i)
    requires Timed(WorkerAfter(env, w, a, shutdown, alive))
    ensures GroundedAt(env, WorkerAfter(env, w, a, shutdown, alive), i)
  {
    var w' := WorkerAfter(env, w, a, shutdown, alive);
    assert w'.said[i] == w.said[i] && w'.saidAt[i] == w.saidAt[i] && TurnAt(w', i) == TurnAt(w, i);
    GroundsStay(env, w, w', w.said[i], TurnAt(w, i), w.saidAt[i]);
  }

  lemma NewSaidIsGrounded(env: Env, w: Worker, a: WorkerAction, shutdown: bool, alive: bool)
    requires WorkerEnabled(env, w, a, shutdown) && InOrderAt(w, shutdown) && OnTime(env.world, w)
    requires SentBy(env, w, a, shutdown).Some? && Timed(WorkerAfter(env, w, a, shutdown, alive))
    ensures GroundedAt(env, WorkerAfter(env, w, a, shutdown, alive), |w.said|)
  {
    var w', item := WorkerAfter(env, w, a, shutdown, alive), SentBy(env, w, a, shutdown).value;
    assert w'.said[|w.said|] == item && w'.saidAt[|w.said|] == NextNow(w, a) && TurnAt(w', |w.said|) == Turn(w);
    SentHasGrounds(env, w, a, shutdown);
    GroundsStay(env, w, w', item, Turn(w), NextNow(w, a));
  }

  lemma StepKeepsTruthful(env: Env, w: Worker, a: WorkerAction, shutdown: bool, alive: bool)
    requires WorkerEnabled(env, w, a, shutdown) && InOrderAt(w, shutdown) && Truthful(env, w)
    ensures Truthful(env, WorkerAfter(env, w, a, shutdown, alive))
  {
    StepKeepsTime(env, w, a, shutdown, alive);
    StepKeepsOpened(env, w, a, shutdown, alive);
    forall i | 0 <= i < |WorkerAfter(env, w, a, shutdown, alive).said|
      ensures GroundedAt(env, WorkerAfter(env, w, a, shutdown, alive), i)
    {
      if i == |w.said| {
        NewSaidIsGrounded(env, w, a, shutdown, alive);
      } else {
        OldSaidIsGrounded(env, w, a, shutdown, alive, i);
      }
    }
  }
}
