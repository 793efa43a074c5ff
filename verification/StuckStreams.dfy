/**
  Three live streams that hang: on a container whose reads are all refused, on one whose reads are
  refused once the worker gets to it, and on a container that runs on in silence.
*/
module StuckStreams {
  import opened Wrappers
  import opened RunModel
  import opened TektonApi
  import opened RunDiscovery
  import opened Polling
  import opened StepLogStream
  import opened EventStream
  import opened EventStreamSafety
  import opened EventStreamProgress

  /** A build of some steps, what its containers answer over time, and when its logs are over. */
  datatype Case = Case(steps: seq<StepState>, answer: nat -> PodAnswer, over: nat -> bool)

  const RUNNING: PodAnswer := Pod(Some(ContainerState(false, true)))

  const COMPILE_WAITS: StepState := StepState(Some("compile"), Some("step-compile"), None, false, None)
  const COMPILE_RUNS: StepState := StepState(Some("compile"), Some("step-compile"), None, true, None)
  const TEST_WAITS: StepState := StepState(Some("test"), Some("step-test"), None, false, None)

  const REFUSED: Case := Case([COMPILE_WAITS], (t: nat) => Unauthorized, (t: nat) => false)
  const SILENT: Case := Case([COMPILE_RUNS], (t: nat) => RUNNING, (t: nat) => false)

  /** The credentials expire at time 10; the first step ends at time 15. */
  const EXPIRED: Case :=
    Case([COMPILE_WAITS, TEST_WAITS], (t: nat) => if t < 10 then RUNNING else Unauthorized, (t: nat) => t >= 15)

  const BUILD_RUN: PipelineRun :=
    PipelineRun(
      None, [Condition(Some("Unknown"), None)], true,
      [ChildReference(Some("build"), Some("run-build"), Some("TaskRun"))], [], [])

  function BuildTaskRun(c: Case): TaskRun {
    TaskRun(
      Some("run-build"), Some("run"), Some("build"), None, None, None, [Condition(Some("Unknown"), None)], true,
      Some("pod"), c.steps)
  }

  function BuildWorld(c: Case): World {
    (t: nat) => Cluster(
      (name: string) => if name == "run" then Ok(Some(BUILD_RUN)) else Ok(None),
      (name: string) => if name == "run-build" then Ok(Some(BuildTaskRun(c))) else Ok(None),
      (customRun: string) => Ok([]),
      (pod: string, container: string) => c.answer(t),
      (pod: string, container: string) => c.over(t))
  }

  function Build(c: Case): TaskMeta {
    TaskMeta(
      "build", None, "run-build", Some("pod"), Running, None, StepsFromTaskRunStatus(BuildTaskRun(c)), [])
  }

  function Listed(c: Case): RunMeta {
    RunMeta("run", Tekton, None, Running, None, [Build(c)])
  }

  function BuildEnv(c: Case): Env {
    Env(BuildWorld(c), "run")
  }

  lemma RefsOfBuildRun()
    ensures Refs(BUILD_RUN) == [ChildRef("build", "run-build", "TaskRun")]
    ensures DeclaredTaskOrder(BUILD_RUN) == [] && OrderedNames(BUILD_RUN) == ["build"]
    ensures FindRef(Refs(BUILD_RUN), "build") == Some(ChildRef("build", "run-build", "TaskRun"))
  {
    var refs := [ChildRef("build", "run-build", "TaskRun")];
    assert BUILD_RUN.childReferences[1..] == [];
    assert ChildRefs(BUILD_RUN) == refs;
    assert refs[..0] == [];
    assert AddMissing([], refs[..0]) == [];
  }

  lemma BuildEntry(c: Case)
    ensures Entry(BuildWorld(c)(0), BUILD_RUN, "build") == Ok(Build(c))
  {
    RefsOfBuildRun();
    var tr := BuildTaskRun(c);
    assert BuildWorld(c)(0).getTaskRun("run-build") == Ok(Some(tr));
    assert ConditionStatus(tr.conditions) == Some("Unknown");
  }

  lemma BuildIsListed(c: Case)
    ensures Discovered(BuildWorld(c)(0), "run") == Ok(Listed(c))
  {
    RefsOfBuildRun();
    BuildEntry(c);
    var cluster := BuildWorld(c)(0);
    assert ["build"][..0] == [];
    assert Entries(cluster, BUILD_RUN, []) == Ok([]);
    assert Entries(cluster, BUILD_RUN, ["build"]) == Ok([] + [Build(c)]);
    assert [] + [Build(c)] == [Build(c)];
    assert cluster.getPipelineRun("run") == Ok(Some(BUILD_RUN));
    assert ConditionStatus(BUILD_RUN.conditions) == Some("Unknown");
  }

  // ── The stream so far ──────────────────────────────────────────────────

  /** A stream of one worker, with nothing to receive. */
  predicate OneWorker(s: State, c: Case, pc: Pc, now: nat) {
    && |s.workers| == 1 && s.workers[0].task == Build(c) && s.workers[0].pc == pc
    && s.workers[0].now == now && s.workers[0].attempt == 0
    && s.queue == [] && s.phase == Looping && s.receiver.tasksRemaining == 1
  }

  /** The actions lead from the beginning to the state. */
  ghost predicate Comes(c: Case, actions: seq<Action>, s: State) {
    && Executable(BuildEnv(c), Initial(Listed(c), 0), actions)
    && Run(BuildEnv(c), Initial(Listed(c), 0), actions) == s
  }

  lemma ThenDoes(c: Case, actions: seq<Action>, s: State, a: Action) returns (s': State)
    requires Comes(c, actions, s) && Enabled(BuildEnv(c), s, a)
    ensures s' == Apply(BuildEnv(c), s, a) && Comes(c, actions + [a], s')
  {
    s' := Apply(BuildEnv(c), s, a);
    RunExtends(BuildEnv(c), Initial(Listed(c), 0), actions, a);
  }

  lemma BuildBegins(c: Case) returns (s: State)
    requires |c.steps| > 0
    ensures Comes(c, [] + [Work(0, Begin)], s) && OneWorker(s, c, AtStep(0), 0)
  {
    var start := Initial(Listed(c), 0);
    assert start.workers == [NewWorker(Build(c), 0)];
    s := ThenDoes(c, [], start, Work(0, Begin));
  }

  lemma SilentOpens() returns (s: State)
    ensures Comes(SILENT, [] + [Work(0, Begin)] + [Work(0, Open)], s)
    ensures OneWorker(s, SILENT, Streaming(0, true), 0)
  {
    var s1 := BuildBegins(SILENT);
    s := ThenDoes(SILENT, [] + [Work(0, Begin)], s1, Work(0, Open));
  }

  /** The container of the first step is read while it runs, and its log followed to the end. */
  lemma ExpiredReads() returns (s: State, actions: seq<Action>)
    ensures Comes(EXPIRED, actions, s) && OneWorker(s, EXPIRED, Reporting(0), 20)
  {
    s := BuildBegins(EXPIRED);
    actions := [] + [Work(0, Begin)];
    assert Build(EXPIRED).steps[0].status == Pending;
    s := ThenDoes(EXPIRED, actions, s, Work(0, Poll(1, RUNNING)));
    actions := actions + [Work(0, Poll(1, RUNNING))];
    s := ThenDoes(EXPIRED, actions, s, Work(0, EndOfLogs(20)));
    actions := actions + [Work(0, EndOfLogs(20))];
  }

  const AT_TWENTY: seq<nat> := [20, 20, 20, 20, 20]

  /** The worker has come to the second step, and said the first one's status. */
  predicate StatusIsQueued(s: State) {
    && |s.queue| == 1 && s.queue[0].item.StepStatus? && OneWorker(s.(queue := []), EXPIRED, AtStep(1), 20)
  }

  lemma ExpiredReports() returns (s: State, actions: seq<Action>)
    ensures Comes(EXPIRED, actions, s) && StatusIsQueued(s)
  {
    var s1, before := ExpiredReads();
    s := ThenDoes(EXPIRED, before, s1, Work(0, Report(AT_TWENTY)));
    actions := before + [Work(0, Report(AT_TWENTY))];
  }

  lemma ExpiredReceives() returns (s: State, actions: seq<Action>)
    ensures Comes(EXPIRED, actions, s) && OneWorker(s, EXPIRED, AtStep(1), 20)
  {
    var s1, before := ExpiredReports();
    s := ThenDoes(EXPIRED, before, s1, Receive);
    actions := before + [Receive];
  }

  // ── Stuck ──────────────────────────────────────────────────────────────

  /** Discovery lists the build, its stream comes to the state, and from there nothing goes on by itself. */
  ghost predicate Hangs(c: Case, s: State) {
    && Discovered(BuildWorld(c)(0), "run") == Ok(Listed(c)) && Reachable(BuildEnv(c), Listed(c), 0, s)
    && Stuck(BuildEnv(c), s) && forall a | Enabled(BuildEnv(c), s, a) :: !OnItsOwn(a)
  }

  lemma BlockedHangs(c: Case, s: State)
    requires Reachable(BuildEnv(c), Listed(c), 0, s) && Stuck(BuildEnv(c), s)
    ensures Hangs(c, s)
  {
    BuildIsListed(c);
    DeadlockExactly(BuildEnv(c), Listed(c), 0, s);
  }

  lemma OneWorkerIsStuck(c: Case, s: State, pc: Pc, now: nat)
    requires OneWorker(s, c, pc, now) && Blocked(BuildEnv(c), s.workers[0])
    ensures Stuck(BuildEnv(c), s)
  {
  }

  lemma OneWorkerHangs(c: Case, s: State, pc: Pc, now: nat, actions: seq<Action>)
    requires Comes(c, actions, s) && OneWorker(s, c, pc, now) && Blocked(BuildEnv(c), s.workers[0])
    ensures Hangs(c, s)
  {
    OneWorkerIsStuck(c, s, pc, now);
    BlockedHangs(c, s);
  }

  /** A step that waits for a container whose reads are all refused: the wait never ends, not even in a timeout. */
  lemma RefusedHangs() returns (s: State)
    ensures Hangs(REFUSED, s)
    ensures StuckFrom((k: nat) => ContainerAt(BuildWorld(REFUSED), Build(REFUSED), Build(REFUSED).steps[0], k), 0)
  {
    s := BuildBegins(REFUSED);
    OneWorkerHangs(REFUSED, s, AtStep(0), 0, [] + [Work(0, Begin)]);
  }

  /** A step that runs and never ends: its log is followed. */
  lemma SilentHangs() returns (s: State)
    ensures Hangs(SILENT, s) && OneWorker(s, SILENT, Streaming(0, true), 0)
  {
    s := SilentOpens();
    OneWorkerHangs(SILENT, s, Streaming(0, true), 0, [] + [Work(0, Begin)] + [Work(0, Open)]);
  }

  /**
    Two steps that wait, on a cluster whose credentials expire while the first one runs: its log and
    its status still come, and then the wait for the second never ends, although its container could
    once be read.
  */
  lemma ExpiredHangs() returns (s: State)
    ensures Hangs(EXPIRED, s) && OneWorker(s, EXPIRED, AtStep(1), 20)
    ensures ContainerAt(BuildWorld(EXPIRED), Build(EXPIRED), Build(EXPIRED).steps[1], 1) == RUNNING
  {
    var actions;
    s, actions := ExpiredReceives();
    assert Build(EXPIRED).steps[1].status == Pending;
    OneWorkerHangs(EXPIRED, s, AtStep(1), 20, actions);
  }
}
