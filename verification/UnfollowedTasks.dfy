/**
  A task that discovery lists with a TaskRun name but without steps is never followed: its worker
  does not poll for it, whatever starts later. CustomRun children without a proxy are listed so.
*/
module UnfollowedTasks {
  import opened Wrappers
  import opened RunModel
  import opened TektonApi
  import opened RunDiscovery
  import opened Polling
  import opened EventStream
  import opened WorkerOrder
  import opened EventStreamSafety

  // ── Where a worker's task comes from ───────────────────────────────────

  ghost predicate RefreshedAs(env: Env, name: string, since: nat, at: nat, task: TaskMeta) {
    Refreshes(env, name, since, at, Ok(Some(task)))
  }

  /** A snapshot with a TaskRun name is kept; one without is kept until a refresh replaces it. */
  ghost predicate Keeps(env: Env, w: Worker, snapshot: TaskMeta, since: nat) {
    && (w.pc == Resolving ==> !w.resolved && w.now == w.since)
    && (if w.resolved && snapshot.taskrunName == ""
        then since <= w.since && RefreshedAs(env, snapshot.name, since, w.since, w.task)
        else w.task == snapshot && w.since == since)
    && (snapshot.taskrunName != "" ==> w.resolved || w.pc == Resolving)
  }

  ghost predicate AllKeep(env: Env, meta: RunMeta, since: nat, s: State) {
    && s.meta == meta && |s.workers| == |meta.tasks|
    && forall w | 0 <= w < |s.workers| :: Keeps(env, s.workers[w], meta.tasks[w], since)
  }

  lemma StepKeeps(env: Env, w: Worker, a: WorkerAction, shutdown: bool, alive: bool, snapshot: TaskMeta, since: nat)
    requires WorkerEnabled(env, w, a, shutdown) && Keeps(env, w, snapshot, since)
    ensures Keeps(env, WorkerAfter(env, w, a, shutdown, alive), snapshot, since)
  {
  }

  lemma ApplyKeeps(env: Env, meta: RunMeta, since: nat, s: State, a: Action)
    requires Enabled(env, s, a) && AllKeep(env, meta, since, s)
    ensures AllKeep(env, meta, since, Apply(env, s, a))
  {
    if a.Work? {
      StepKeeps(env, s.workers[a.w], a.step, s.shutdown, s.phase.Alive(), meta.tasks[a.w], since);
    }
  }

  lemma {:induction false} RunKeeps(env: Env, meta: RunMeta, since: nat, s: State, actions: seq<Action>)
    requires AllKeep(env, meta, since, s) && Executable(env, s, actions)
    ensures AllKeep(env, meta, since, Run(env, s, actions))
    decreases |actions|
  {
    if actions != [] {
      ApplyKeeps(env, meta, since, s, actions[0]);
      RunKeeps(env, meta, since, Apply(env, s, actions[0]), actions[1..]);
    }
  }

  lemma ReachableKeeps(env: Env, meta: RunMeta, since: nat, s: State)
    requires Reachable(env, meta, since, s)
    ensures AllKeep(env, meta, since, s)
  {
    var start := Initial(meta, since);
    var actions :| Executable(env, start, actions) && Run(env, start, actions) == s;
    RunKeeps(env, meta, since, start, actions);
  }

  // ── Who gets steps to follow ───────────────────────────────────────────

  /** In some state of some interleaving the worker has steps to follow. */
  ghost predicate EverFollowed(env: Env, meta: RunMeta, since: nat, w: nat) {
    exists s :: Reachable(env, meta, since, s) && w < |s.workers| && s.workers[w].task.steps != []
  }

  /** Some refresh, from `since` on, finds the task with steps. */
  ghost predicate EverStarts(env: Env, name: string, since: nat) {
    exists at, task :: since <= at && RefreshedAs(env, name, since, at, task) && task.steps != []
  }

  lemma PolledTaskIsFollowed(env: Env, meta: RunMeta, since: nat, w: nat)
    requires w < |meta.tasks| && meta.tasks[w].taskrunName == "" && EverStarts(env, meta.tasks[w].name, since)
    ensures EverFollowed(env, meta, since, w)
  {
    var at, task :| since <= at && RefreshedAs(env, meta.tasks[w].name, since, at, task) && task.steps != [];
    var start, a := Initial(meta, since), Work(w, Resolve(task, at));
    assert start.workers[w] == NewWorker(meta.tasks[w], since);
    var s := Apply(env, start, a);
    FirstAction(env, start, a, []);
    assert Reachable(env, meta, since, s);
  }

  /**
    A task listed without steps can be followed exactly if it is listed without a TaskRun name and
    some later refresh finds it with steps. Under a name it never is.
  */
  lemma FollowedExactlyIfPolled(env: Env, meta: RunMeta, since: nat, w: nat)
    requires w < |meta.tasks| && meta.tasks[w].steps == []
    ensures EverFollowed(env, meta, since, w) <==>
            meta.tasks[w].taskrunName == "" && EverStarts(env, meta.tasks[w].name, since)
  {
    if EverFollowed(env, meta, since, w) {
      var s :| Reachable(env, meta, since, s) && w < |s.workers| && s.workers[w].task.steps != [];
      ReachableKeeps(env, meta, since, s);
      assert Keeps(env, s.workers[w], meta.tasks[w], since);
      assert RefreshedAs(env, meta.tasks[w].name, since, s.workers[w].since, s.workers[w].task);
    }
    if meta.tasks[w].taskrunName == "" && EverStarts(env, meta.tasks[w].name, since) {
      PolledTaskIsFollowed(env, meta, since, w);
    }
  }

  // ── Nothing but a final status ─────────────────────────────────────────

  /** Of a task without steps there is nothing to say but its status. */
  lemma {:induction false} StatusOnly(task: TaskMeta, items: seq<Item>)
    requires task.steps == [] && Parse(task, items) != Rejected
    ensures items == [] || (|items| == 1 && items[0].TaskStatus? && items[0].task == task.name)
    ensures Parse(task, items) == if items == [] then Before(0) else Concluded
  {
    if items != [] {
      StatusOnly(task, items[..|items| - 1]);
    }
  }

  /** Everything received from the worker of an unfollowed task, before its `TaskDone`. */
  ghost predicate FinalStatusOnly(world: World, task: TaskMeta, since: nat, items: seq<Item>) {
    items == [] ||
    (|items| == 1 && items[0].TaskStatus? && items[0].task == task.name
     && exists poll :: StatusReadAt(world, task, since, items[0], poll))
  }

  /**
    No log line and no step status of such a task ever comes, even if its TaskRun starts later: only
    one status, which is what a TaskRun of the listed name is said to be.
  */
  lemma NamedWithoutStepsIsNeverFollowed(env: Env, meta: RunMeta, since: nat, s: State, w: nat)
    requires Reachable(env, meta, since, s) && w < |s.workers| && w < |meta.tasks|
    requires meta.tasks[w].taskrunName != "" && meta.tasks[w].steps == []
    ensures FinalStatusOnly(env.world, meta.tasks[w], since, Body(Proj(s.received, w)))
  {
    ReachableKeeps(env, meta, since, s);
    PerTaskOrder(env, meta, since, s, w);
    var worker, body := s.workers[w], Body(Proj(s.received, w));
    assert Keeps(env, worker, meta.tasks[w], since);
    if body != [] {
      SaidMeansResolved(env, meta, since, s, w);
      StatusOnly(worker.task, body);
      ReceivedIsGrounded(env, meta, since, s, w, 0);
      assert body[0] == Proj(s.received, w)[0];
    }
  }

  lemma SaidMeansResolved(env: Env, meta: RunMeta, since: nat, s: State, w: nat)
    requires Reachable(env, meta, since, s) && w < |s.workers| && AllKeep(env, meta, since, s)
    requires meta.tasks[w].taskrunName != "" && Proj(s.received, w) != []
    ensures s.workers[w].resolved
  {
    ReachableInv(env, meta, since, s);
    ReceivedIsPrefix(s, w);
    assert InOrderAt(s.workers[w], s.shutdown) && Keeps(env, s.workers[w], meta.tasks[w], since);
  }

  /** A CustomRun child without a proxy is listed under the CustomRun's name. */
  lemma MissingProxyIsNeverFollowed(
    env: Env, meta: RunMeta, seen: Cluster, begun: nat, since: nat, s: State, pr: PipelineRun, w: nat, r: ChildRef)
    requires seen.getPipelineRun(env.runName) == Ok(Some(pr))
    requires DiscoveredBy(env, meta, seen, begun, since) && Reachable(env, meta, since, s)
    requires w < |s.workers| && w < |meta.tasks| && FindRef(Refs(pr), meta.tasks[w].name) == Some(r)
    requires r.childName != "" && TaskRunOf(seen, r) == Ok(None)
    ensures meta.tasks[w].taskrunName == r.childName
    ensures FinalStatusOnly(env.world, meta.tasks[w], since, Body(Proj(s.received, w)))
  {
    var names := OrderedNames(pr);
    EntriesPerName(seen, pr, names);
    EntryIsNamed(seen, pr, names[w]);
    NamedWithoutStepsIsNeverFollowed(env, meta, since, s, w);
  }

  // ── A run in which the proxy starts unnoticed ──────────────────────────

  const WAITING_RUN: PipelineRun :=
    PipelineRun(
      None, [Condition(Some("Unknown"), None)], true,
      [ChildReference(Some("build"), Some("remote"), Some("CustomRun"))], [], [])

  const PROXY: TaskRun :=
    TaskRun(
      Some("remote-exec"), Some("run"), Some("build"), Some("remote"), None, None,
      [Condition(Some("Unknown"), None)], true, None, [StepState(Some("run"), None, None, true, None)])

  /** The proxy TaskRun of the CustomRun appears at time 1. */
  function ProxyWorld(): World {
    (t: nat) => Cluster(
      (name: string) => if name == "run" then Ok(Some(WAITING_RUN)) else Ok(None),
      (name: string) => if name == "remote-exec" && t >= 1 then Ok(Some(PROXY)) else Ok(None),
      (customRun: string) => Ok([]),
      (pod: string, container: string) => Pod(None),
      (pod: string, container: string) => true)
  }

  const PLACEHOLDER: TaskMeta := TaskMeta("build", None, "remote", None, Pending, None, [], [])

  const LISTED: RunMeta := RunMeta("run", Tekton, None, Running, None, [PLACEHOLDER])

  lemma RefsOfWaitingRun()
    ensures Refs(WAITING_RUN) == [ChildRef("build", "remote", "CustomRun")]
    ensures DeclaredTaskOrder(WAITING_RUN) == [] && OrderedNames(WAITING_RUN) == ["build"]
    ensures FindRef(Refs(WAITING_RUN), "build") == Some(ChildRef("build", "remote", "CustomRun"))
  {
    var refs := [ChildRef("build", "remote", "CustomRun")];
    assert WAITING_RUN.childReferences[1..] == [];
    assert ChildRefs(WAITING_RUN) == refs;
    assert refs[..0] == [];
    assert AddMissing([], refs[..0]) == [];
  }

  lemma ListedAtFirst()
    ensures Discovered(ProxyWorld()(0), "run") == Ok(LISTED)
  {
    RefsOfWaitingRun();
    var cluster := ProxyWorld()(0);
    assert "remote" + "-exec" == "remote-exec";
    assert Entry(cluster, WAITING_RUN, "build") == Ok(PLACEHOLDER);
    assert ["build"][..0] == [];
    assert Entries(cluster, WAITING_RUN, []) == Ok([]);
    assert Entries(cluster, WAITING_RUN, ["build"]) == Ok([] + [PLACEHOLDER]);
    assert [] + [PLACEHOLDER] == [PLACEHOLDER];
    assert cluster.getPipelineRun("run") == Ok(Some(WAITING_RUN));
    assert ConditionStatus(WAITING_RUN.conditions) == Some("Unknown");
  }

  predicate StartedAt(env: Env, name: string, at: nat) {
    Started(RefreshTask(env.world(at), env.runName, name))
  }

  lemma StartedLater()
    ensures StartedAt(Env(ProxyWorld(), "run"), "build", 1)
  {
    RefsOfWaitingRun();
    assert "remote" + "-exec" == "remote-exec";
    assert |StepsFromTaskRunStatus(PROXY)| == 1;
  }

  lemma ThreeActions(env: Env, s: State, s1: State, s2: State, s3: State, a: Action, b: Action, c: Action)
    requires Enabled(env, s, a) && s1 == Apply(env, s, a)
    requires Enabled(env, s1, b) && s2 == Apply(env, s1, b)
    requires Enabled(env, s2, c) && s3 == Apply(env, s2, c)
    ensures Executable(env, s, [a] + ([b] + ([c] + []))) && Run(env, s, [a] + ([b] + ([c] + []))) == s3
  {
    FirstAction(env, s2, c, []);
    FirstAction(env, s1, b, [c] + []);
    FirstAction(env, s, a, [b] + ([c] + []));
  }

  const DISAPPEARED: Item := TaskStatus("build", Unknown, Some("TaskRun disappeared"))

  /** The one worker begins with its placeholder, since that has a name. */
  lemma WorkerBegins(env: Env) returns (s: State)
    ensures Enabled(env, Initial(LISTED, 0), Work(0, Begin)) && s == Apply(env, Initial(LISTED, 0), Work(0, Begin))
    ensures s.workers == [Worker(PLACEHOLDER, true, 0, 0, 0, AtStep(0), [], [], [])] && s.queue == s.received == []
    ensures s.phase == Looping && s.receiver == NewReceiver(1)
  {
    var start := Initial(LISTED, 0);
    assert start.workers == [NewWorker(PLACEHOLDER, 0)];
    s := Apply(env, start, Work(0, Begin));
    assert s.workers[0].said == [] + [];
  }

  /** It has no step to stream, and asks for a TaskRun of the CustomRun's name. */
  lemma WorkerConcludes(env: Env, s: State) returns (s': State)
    requires env == Env(ProxyWorld(), "run") && s.workers == [Worker(PLACEHOLDER, true, 0, 0, 0, AtStep(0), [], [], [])]
    requires s.queue == s.received == [] && s.phase == Looping && s.receiver == NewReceiver(1)
    ensures var conclude := Work(0, Conclude(LastPoll(1, 1, 1)));
            Enabled(env, s, conclude) && s' == Apply(env, s, conclude)
    ensures s'.queue == [Msg(0, DISAPPEARED)] && s'.received == []
    ensures s'.phase == Looping && s'.receiver == NewReceiver(1)
  {
    assert env.world(1).getTaskRun("remote") == Ok(None);
    assert TaskOutcome(env.world(1).getTaskRun("remote")) == (Unknown, Some("TaskRun disappeared"));
    s' := Apply(env, s, Work(0, Conclude(LastPoll(1, 1, 1))));
    assert s'.queue == [] + [Msg(0, DISAPPEARED)];
  }

  lemma ClientIsTold(env: Env, s: State) returns (s': State)
    requires s.queue == [Msg(0, DISAPPEARED)] && s.received == []
    requires s.phase == Looping && s.receiver == NewReceiver(1)
    ensures Enabled(env, s, Receive) && s' == Apply(env, s, Receive)
    ensures Proj(s'.received, 0) == [DISAPPEARED]
  {
    s' := Apply(env, s, Receive);
    ProjSnoc([], Msg(0, DISAPPEARED), 0);
    assert s'.received == [] + [Msg(0, DISAPPEARED)];
  }

  lemma ToldDisappeared(env: Env) returns (s: State)
    requires env == Env(ProxyWorld(), "run")
    ensures Reachable(env, LISTED, 0, s) && Proj(s.received, 0) == [DISAPPEARED]
  {
    var s1 := WorkerBegins(env);
    var s2 := WorkerConcludes(env, s1);
    s := ClientIsTold(env, s2);
    ThreeActions(env, Initial(LISTED, 0), s1, s2, s, Work(0, Begin), Work(0, Conclude(LastPoll(1, 1, 1))), Receive);
  }

  /**
    A stream in which the proxy is running while the client is told that the task's TaskRun has
    disappeared.
  */
  lemma ProxyStartsUnnoticed() returns (env: Env, s: State)
    ensures Discovered(env.world(0), env.runName) == Ok(LISTED) && Reachable(env, LISTED, 0, s)
    ensures StartedAt(env, "build", 1)
    ensures Proj(s.received, 0) == [TaskStatus("build", Unknown, Some("TaskRun disappeared"))]
  {
    env := Env(ProxyWorld(), "run");
    ListedAtFirst();
    StartedLater();
    s := ToldDisappeared(env);
  }
}
