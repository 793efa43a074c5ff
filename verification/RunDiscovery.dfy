/** src/handlers/run_discovery.rs: a run's skeleton, read from the live cluster. */
module RunDiscovery {
  import opened Wrappers
  import opened Sequences
  import opened RunModel
  import opened TektonApi

  // ── Reading the PipelineRun ────────────────────────────────────────────

  datatype ChildRef = ChildRef(pipelineTaskName: string, childName: string, kind: string)

  function ChildRefOf(c: ChildReference): Option<ChildRef> {
    if c.pipelineTaskName.Some? && c.name.Some?
    then Some(ChildRef(c.pipelineTaskName.value, c.name.value, c.kind.GetOr("TaskRun")))
    else None
  }

  function ChildRefs(pr: PipelineRun): seq<ChildRef> {
    Collect(pr.childReferences, ChildRefOf)
  }

  function LegacyRefOf(e: LegacyEntry): Option<ChildRef> {
    if e.pipelineTaskName.Some?
    then Some(ChildRef(e.pipelineTaskName.value, e.taskrunName, "TaskRun"))
    else None
  }

  function LegacyTaskRuns(pr: PipelineRun): seq<ChildRef> {
    Collect(pr.legacyTaskRuns, LegacyRefOf)
  }

  /** `status.childReferences`, or the deprecated map when that yields nothing. */
  function Refs(pr: PipelineRun): seq<ChildRef> {
    if ChildRefs(pr) == [] then LegacyTaskRuns(pr) else ChildRefs(pr)
  }

  datatype Declared = Declared(name: string, taskRef: Option<string>, dependsOn: seq<string>)

  function DeclaredOf(t: PipelineTask): Option<Declared> {
    if t.name.Some?
    then Some(Declared(t.name.value, t.taskRef, Collect(t.runAfter, (a: Option<string>) => a)))
    else None
  }

  function DeclaredTaskOrder(pr: PipelineRun): seq<Declared> {
    Collect(pr.pipelineTasks, DeclaredOf)
  }

  function FindRef(refs: seq<ChildRef>, name: string): (r: Option<ChildRef>)
    ensures r.Some? ==> r.value.pipelineTaskName == name && r.value in refs
    ensures r.None? ==> forall ref | ref in refs :: ref.pipelineTaskName != name
  {
    var named := (r: ChildRef) => r.pipelineTaskName == name;
    FindMeans(refs, named);
    Find(refs, named)
  }

  function FindDeclared(declared: seq<Declared>, name: string): (r: Option<Declared>)
    ensures r.Some? ==> r.value.name == name && r.value in declared
    ensures r.None? ==> forall d | d in declared :: d.name != name
  {
    var named := (d: Declared) => d.name == name;
    FindMeans(declared, named);
    Find(declared, named)
  }

  function TaskRefOf(declared: seq<Declared>, name: string): Option<string> {
    match FindDeclared(declared, name)
    case Some(d) => d.taskRef
    case None => None
  }

  function DependsOn(declared: seq<Declared>, name: string): seq<string> {
    match FindDeclared(declared, name)
    case Some(d) => d.dependsOn
    case None => []
  }

  // ── Reading a TaskRun ──────────────────────────────────────────────────

  function StepName(s: StepState): string {
    s.name.GetOr("unknown")
  }

  function StepContainer(s: StepState): string {
    s.container.GetOr("step-" + StepName(s))
  }

  function TerminatedStatus(t: Terminated): RunStatus {
    if t.exitCode.GetOr(-1) == 0 then Succeeded else Failed
  }

  function LiveStep(s: StepState): StepMeta {
    var (status, reason) :=
      if s.terminated.Some? then (TerminatedStatus(s.terminated.value), s.terminated.value.reason)
      else if s.running then (Running, None)
      else if s.waiting.Some? then (Pending, s.waiting.value.reason)
      else (Pending, None);
    StepMeta(StepName(s), StepContainer(s), status, reason)
  }

  function StepsFromTaskRunStatus(tr: TaskRun): seq<StepMeta> {
    MapSeq(tr.steps, LiveStep)
  }

  function PodNameForTaskRun(tr: TaskRun, taskrunName: string): string {
    tr.podName.GetOr(taskrunName + "-pod")
  }

  /** The proxy TaskRun of a CustomRun: by its conventional name, else by label. */
  function ResolveCustomRunTaskRun(cluster: Cluster, customRun: string): Answer<TaskRun> {
    match cluster.getTaskRun(customRun + "-exec")
    case Err(e) => Err(e)
    case Ok(Some(tr)) => Ok(Some(tr))
    case Ok(None) =>
      match cluster.listByCustomRunLabel(customRun)
      case Err(e) => Err(e)
      case Ok(items) => Ok(if items == [] then None else Some(items[0]))
  }

  function TaskRunOf(cluster: Cluster, r: ChildRef): Answer<TaskRun> {
    if r.kind == "CustomRun" then ResolveCustomRunTaskRun(cluster, r.childName)
    else cluster.getTaskRun(r.childName)
  }

  // ── Assembling tasks ───────────────────────────────────────────────────

  /** A task whose TaskRun exists. */
  function TaskFromTaskRun(declared: seq<Declared>, r: ChildRef, tr: TaskRun): TaskMeta {
    var name := r.pipelineTaskName;
    var taskrunName := tr.name.GetOr(r.childName);
    TaskMeta(
      name, TaskRefOf(declared, name), taskrunName, Some(PodNameForTaskRun(tr, taskrunName)),
      RunStatus.FromCondition(ConditionStatus(tr.conditions), tr.started), ConditionReason(tr.conditions),
      StepsFromTaskRunStatus(tr), DependsOn(declared, name))
  }

  /** A task with nothing to show yet; `child` is the name of its child object, if it has one. */
  function PendingTask(declared: seq<Declared>, name: string, child: string): TaskMeta {
    TaskMeta(name, TaskRefOf(declared, name), child, None, Pending, None, [], DependsOn(declared, name))
  }

  /** The entry discovery makes for one pipeline task. */
  function Entry(cluster: Cluster, pr: PipelineRun, name: string): Result<TaskMeta, string> {
    var declared := DeclaredTaskOrder(pr);
    match FindRef(Refs(pr), name)
    case None => Ok(PendingTask(declared, name, ""))
    case Some(r) =>
      match TaskRunOf(cluster, r)
      case Err(e) => Err(e)
      case Ok(Some(tr)) => Ok(TaskFromTaskRun(declared, r, tr))
      case Ok(None) => Ok(PendingTask(declared, name, r.childName))
  }

  datatype DiscoverError = NotFound | Kube(message: string)

  /** Entries for the names in order, or the first failure. */
  function Entries(cluster: Cluster, pr: PipelineRun, names: seq<string>): Result<seq<TaskMeta>, string> {
    if names == [] then Ok([])
    else
      match Entries(cluster, pr, names[..|names| - 1])
      case Err(e) => Err(e)
      case Ok(tasks) =>
        match Entry(cluster, pr, names[|names| - 1])
        case Err(e) => Err(e)
        case Ok(t) => Ok(tasks + [t])
  }

  function DeclaredNames(pr: PipelineRun): seq<string> {
    MapSeq(DeclaredTaskOrder(pr), (d: Declared) => d.name)
  }

  /** `names` with the missing reference names appended, each once. */
  function AddMissing(names: seq<string>, refs: seq<ChildRef>): seq<string> {
    if refs == [] then names
    else
      var before := AddMissing(names, refs[..|refs| - 1]);
      var name := refs[|refs| - 1].pipelineTaskName;
      if name in before then before else before + [name]
  }

  function OrderedNames(pr: PipelineRun): seq<string> {
    AddMissing(DeclaredNames(pr), Refs(pr))
  }

  /** What discovery returns for a run. */
  function Discovered(cluster: Cluster, runName: string): Result<RunMeta, DiscoverError> {
    match cluster.getPipelineRun(runName)
    case Err(e) => Err(Kube(e))
    case Ok(None) => Err(NotFound)
    case Ok(Some(pr)) =>
      match Entries(cluster, pr, OrderedNames(pr))
      case Err(e) => Err(Kube(e))
      case Ok(tasks) =>
        Ok(RunMeta(
             runName, Tekton, pr.pipelineRef,
             RunStatus.FromCondition(ConditionStatus(pr.conditions), pr.started),
             ConditionReason(pr.conditions), tasks))
  }

  lemma {:induction false} EntriesPrefix(cluster: Cluster, pr: PipelineRun, names: seq<string>, k: nat)
    requires k <= |names| && Entries(cluster, pr, names[..k]).Err?
    ensures Entries(cluster, pr, names) == Entries(cluster, pr, names[..k])
    decreases |names|
  {
    if k == |names| {
      assert names[..k] == names;
    } else {
      var front := names[..|names| - 1];
      assert front[..k] == names[..k];
      EntriesPrefix(cluster, pr, front, k);
    }
  }

  method OrderNames(declared: seq<Declared>, refs: seq<ChildRef>) returns (orderedNames: seq<string>)
    ensures orderedNames == AddMissing(MapSeq(declared, (d: Declared) => d.name), refs)
  {
    orderedNames := MapSeq(declared, (d: Declared) => d.name);
    ghost var declaredNames := orderedNames;
    for i := 0 to |refs|
      invariant orderedNames == AddMissing(declaredNames, refs[..i])
    {
      assert refs[..i + 1][..i] == refs[..i];
      if refs[i].pipelineTaskName !in orderedNames {
        orderedNames := orderedNames + [refs[i].pipelineTaskName];
      }
    }
    assert refs[..|refs|] == refs;
  }

  method CollectTasks(cluster: Cluster, pr: PipelineRun, orderedNames: seq<string>)
    returns (r: Result<seq<TaskMeta>, string>)
    ensures r == Entries(cluster, pr, orderedNames)
  {
    var refs, declared := Refs(pr), DeclaredTaskOrder(pr);
    var tasks: seq<TaskMeta> := [];
    for i := 0 to |orderedNames|
      invariant Entries(cluster, pr, orderedNames[..i]) == Ok(tasks)
    {
      var name := orderedNames[i];
      assert orderedNames[..i + 1][..i] == orderedNames[..i];
      var matchingRef := FindRef(refs, name);
      if matchingRef.None? {
        tasks := tasks + [PendingTask(declared, name, "")];
        continue;
      }
      match TaskRunOf(cluster, matchingRef.value)
      case Ok(Some(tr)) =>
        tasks := tasks + [TaskFromTaskRun(declared, matchingRef.value, tr)];
      case Ok(None) =>
        tasks := tasks + [PendingTask(declared, name, matchingRef.value.childName)];
      case Err(e) =>
        EntriesPrefix(cluster, pr, orderedNames, i + 1);
        return Err(e);
    }
    assert orderedNames[..|orderedNames|] == orderedNames;
    return Ok(tasks);
  }

  method DiscoverLiveRun(cluster: Cluster, runName: string) returns (r: Result<RunMeta, DiscoverError>)
    ensures r == Discovered(cluster, runName)
  {
    var answer := cluster.getPipelineRun(runName);
    if answer.Err? {
      return Err(Kube(answer.error));
    }
    if answer.value.None? {
      return Err(NotFound);
    }
    var pr := answer.value.value;
    var refs := ChildRefs(pr);
    if refs == [] {
      refs := LegacyTaskRuns(pr);
    }
    var orderedNames := OrderNames(DeclaredTaskOrder(pr), refs);
    var tasks := CollectTasks(cluster, pr, orderedNames);
    if tasks.Err? {
      return Err(Kube(tasks.error));
    }
    return Ok(RunMeta(
      runName, Tekton, pr.pipelineRef,
      RunStatus.FromCondition(ConditionStatus(pr.conditions), pr.started),
      ConditionReason(pr.conditions), tasks.value));
  }

  /** One step's status now; `None` when the TaskRun or the step cannot be read. */
  function RefreshStepStatus(cluster: Cluster, taskrunName: string, stepName: string): Option<StepMeta> {
    match cluster.getTaskRun(taskrunName)
    case Ok(Some(tr)) => Find(StepsFromTaskRunStatus(tr), (s: StepMeta) => s.name == stepName)
    case _ => None
  }

  /** One task now; `None` while it has no TaskRun. */
  function RefreshTask(cluster: Cluster, runName: string, name: string): Result<Option<TaskMeta>, DiscoverError> {
    match cluster.getPipelineRun(runName)
    case Err(e) => Err(Kube(e))
    case Ok(None) => Err(NotFound)
    case Ok(Some(pr)) =>
      match FindRef(Refs(pr), name)
      case None => Ok(None)
      case Some(r) =>
        match TaskRunOf(cluster, r)
        case Err(e) => Err(Kube(e))
        case Ok(None) => Ok(None)
        case Ok(Some(tr)) => Ok(Some(TaskFromTaskRun(DeclaredTaskOrder(pr), r, tr)))
  }

  // ── Order of the tasks ─────────────────────────────────────────────────

  /** `all` is `names`, then every other referenced task once, and nothing else. */
  ghost predicate DeclaredThenReferenced(all: seq<string>, names: seq<string>, refs: seq<ChildRef>) {
    && names <= all
    && (forall n :: n in all <==> n in names || exists i :: 0 <= i < |refs| && refs[i].pipelineTaskName == n)
    && (forall i, j | 0 <= i < j < |all| && |names| <= j :: all[i] != all[j])
  }

  lemma {:induction false} AddMissingFacts(names: seq<string>, refs: seq<ChildRef>)
    ensures DeclaredThenReferenced(AddMissing(names, refs), names, refs)
  {
    if refs != [] {
      var front, last := refs[..|refs| - 1], refs[|refs| - 1];
      AddMissingFacts(names, front);
      var before := AddMissing(names, front);
      assert last == refs[|refs| - 1];
      forall n | n in before
        ensures n in names || exists i :: 0 <= i < |refs| && refs[i].pipelineTaskName == n
      {
        if n !in names {
          var i :| 0 <= i < |front| && front[i].pipelineTaskName == n;
          assert refs[i] == front[i];
        }
      }
      forall i | 0 <= i < |refs|
        ensures refs[i].pipelineTaskName in AddMissing(names, refs)
      {
        assert i < |front| ==> refs[i] == front[i];
      }
    }
  }

  lemma {:induction false} EntriesPerName(cluster: Cluster, pr: PipelineRun, names: seq<string>)
    requires Entries(cluster, pr, names).Ok?
    ensures |Entries(cluster, pr, names).value| == |names|
    ensures forall i | 0 <= i < |names| ::
              Entry(cluster, pr, names[i]) == Ok(Entries(cluster, pr, names).value[i])
  {
    if names != [] {
      var front := names[..|names| - 1];
      EntriesPerName(cluster, pr, front);
      assert forall i | 0 <= i < |front| :: front[i] == names[i];
    }
  }

  lemma EntryIsNamed(cluster: Cluster, pr: PipelineRun, name: string)
    ensures Entry(cluster, pr, name).Ok? ==> Entry(cluster, pr, name).value.name == name
  {
  }

  function TaskNames(tasks: seq<TaskMeta>): seq<string> {
    MapSeq(tasks, (t: TaskMeta) => t.name)
  }

  lemma EntriesAreNamed(cluster: Cluster, pr: PipelineRun, names: seq<string>)
    requires Entries(cluster, pr, names).Ok?
    ensures TaskNames(Entries(cluster, pr, names).value) == names
  {
    EntriesPerName(cluster, pr, names);
    var tasks := Entries(cluster, pr, names).value;
    forall i | 0 <= i < |names|
      ensures tasks[i].name == names[i]
    {
      EntryIsNamed(cluster, pr, names[i]);
    }
  }

  /**
    Discovery lists the declared tasks first and in declared order, then every other referenced
    task once; nothing else.
  */
  lemma DiscoveryOrder(cluster: Cluster, runName: string, pr: PipelineRun)
    requires cluster.getPipelineRun(runName) == Ok(Some(pr)) && Discovered(cluster, runName).Ok?
    ensures DeclaredThenReferenced(
              TaskNames(Discovered(cluster, runName).value.tasks), DeclaredNames(pr), Refs(pr))
  {
    AddMissingFacts(DeclaredNames(pr), Refs(pr));
    EntriesAreNamed(cluster, pr, OrderedNames(pr));
  }

  // ── Refresh against discovery ──────────────────────────────────────────

  /** The entry of a task that has no TaskRun. */
  predicate Placeholder(t: TaskMeta) {
    t.status == Pending && t.reason.None? && t.podName.None? && t.steps == []
  }

  /**
    On one cluster state a refresh never disagrees with discovery: it returns the very entry, or
    nothing exactly when the entry is a placeholder, or nothing for a task that is not listed.
  */
  lemma RefreshRefinesDiscovery(cluster: Cluster, runName: string, name: string)
    requires Discovered(cluster, runName).Ok?
    ensures RefreshTask(cluster, runName, name).Ok?
    ensures var tasks := Discovered(cluster, runName).value.tasks;
            var refreshed := RefreshTask(cluster, runName, name).value;
            && (forall i | 0 <= i < |tasks| && tasks[i].name == name ::
                  (refreshed == Some(tasks[i]) <==> !Placeholder(tasks[i])) &&
                  (refreshed == None <==> Placeholder(tasks[i])))
            && (refreshed.Some? ==> refreshed.value in tasks && refreshed.value.name == name)
  {
    var pr := cluster.getPipelineRun(runName).value.value;
    var names := OrderedNames(pr);
    var tasks := Discovered(cluster, runName).value.tasks;
    EntriesPerName(cluster, pr, names);
    AddMissingFacts(DeclaredNames(pr), Refs(pr));
    forall i | 0 <= i < |tasks| && tasks[i].name == name
      ensures Entry(cluster, pr, name) == Ok(tasks[i])
    {
      EntryIsNamed(cluster, pr, names[i]);
    }
    match FindRef(Refs(pr), name)
    case None =>
    case Some(r) =>
      assert r in Refs(pr) && r.pipelineTaskName == name;
      assert name in names;
      var i :| 0 <= i < |names| && names[i] == name;
      assert Entry(cluster, pr, name) == Ok(tasks[i]);
  }

  /**
    A listed task starts with an empty TaskRun name, which is what makes its worker poll for it,
    only if it has no child reference (or one with an empty name): a child whose TaskRun is missing
    already has a name.
  */
  lemma OnlyUnreferencedTasksArePolled(cluster: Cluster, pr: PipelineRun, name: string)
    requires Entry(cluster, pr, name).Ok? && Placeholder(Entry(cluster, pr, name).value)
    ensures Entry(cluster, pr, name).value.taskrunName == "" <==>
            FindRef(Refs(pr), name).None? || FindRef(Refs(pr), name).value.childName == ""
  {
    match FindRef(Refs(pr), name)
    case None =>
    case Some(r) =>
      assert TaskRunOf(cluster, r) == Ok(None);
  }

  // ── What a listed task says of the cluster ─────────────────────────────

  /** The status of a run or task whose object has these conditions. */
  predicate StatusIs(status: RunStatus, conditions: seq<Condition>, started: bool) {
    && (status == Succeeded <==> Reads(conditions, "True"))
    && (status == Failed <==> Reads(conditions, "False"))
    && (status == Unknown <==> started && (conditions == [] || conditions[0].status.None?))
    && (status == Pending <==> !started && !Reads(conditions, "True") && !Reads(conditions, "False"))
  }

  predicate ReasonIs(reason: Option<string>, conditions: seq<Condition>) {
    reason == if conditions == [] then None else conditions[0].reason
  }

  /** Exit code 0 is success, any other or none a failure; what has not terminated runs or is pending. */
  predicate StepIs(step: StepMeta, s: StepState) {
    && step.name == s.name.GetOr("unknown") && step.container == s.container.GetOr("step-" + step.name)
    && (step.status == Succeeded <==> s.terminated.Some? && s.terminated.value.exitCode == Some(0))
    && (step.status == Failed <==> s.terminated.Some? && s.terminated.value.exitCode != Some(0))
    && (step.status == Running <==> s.terminated.None? && s.running)
    && (step.status == Pending <==> s.terminated.None? && !s.running)
    && step.reason == (if s.terminated.Some? then s.terminated.value.reason
                       else if !s.running && s.waiting.Some? then s.waiting.value.reason else None)
  }

  function ChildOf(name: string): ChildReference -> bool {
    (c: ChildReference) => c.pipelineTaskName == Some(name) && c.name.Some?
  }

  function LegacyOf(name: string): LegacyEntry -> bool {
    (e: LegacyEntry) => e.pipelineTaskName == Some(name)
  }

  function DeclarationOf(name: string): PipelineTask -> bool {
    (t: PipelineTask) => t.name == Some(name)
  }

  function StepOf(name: string): StepState -> bool {
    (s: StepState) => s.name.GetOr("unknown") == name
  }

  ghost predicate HasChildren(pr: PipelineRun) {
    exists c :: c in pr.childReferences && c.pipelineTaskName.Some? && c.name.Some?
  }

  /** The child that stands for the task: the first referenced, or, where nothing is, the first legacy TaskRun. */
  ghost predicate ChildIs(pr: PipelineRun, name: string, child: string, custom: bool) {
    if HasChildren(pr) then
      exists i ::
        && FirstAt(pr.childReferences, ChildOf(name), i) && pr.childReferences[i].name == Some(child)
        && (custom <==> pr.childReferences[i].kind == Some("CustomRun"))
    else
      && !custom
      && exists i :: FirstAt(pr.legacyTaskRuns, LegacyOf(name), i) && pr.legacyTaskRuns[i].taskrunName == child
  }

  /** What the cluster answers for a child; for a CustomRun, its `-exec` TaskRun, else the first with its label. */
  predicate ChildAnswers(cluster: Cluster, child: string, custom: bool, answer: Answer<TaskRun>) {
    if !custom then answer == cluster.getTaskRun(child)
    else if cluster.getTaskRun(child + "-exec") != Ok(None) then answer == cluster.getTaskRun(child + "-exec")
    else
      match cluster.listByCustomRunLabel(child)
      case Ok(items) => answer == Ok(if items == [] then None else Some(items[0]))
      case Err(e) => answer == Err(e)
  }

  /** The first declaration of the task, if any, gives its taskRef and what it runs after. */
  ghost predicate DeclaredAs(pr: PipelineRun, task: TaskMeta) {
    if exists i :: FirstAt(pr.pipelineTasks, DeclarationOf(task.name), i) then
      exists i ::
        && FirstAt(pr.pipelineTasks, DeclarationOf(task.name), i) && task.taskRef == pr.pipelineTasks[i].taskRef
        && task.dependsOn == Collect(pr.pipelineTasks[i].runAfter, (a: Option<string>) => a)
    else task.taskRef == None && task.dependsOn == []
  }

  predicate ShownAs(task: TaskMeta, child: string, tr: TaskRun) {
    && task.taskrunName == tr.name.GetOr(child) && task.podName == Some(tr.podName.GetOr(task.taskrunName + "-pod"))
    && StatusIs(task.status, tr.conditions, tr.started) && ReasonIs(task.reason, tr.conditions)
    && |task.steps| == |tr.steps| && forall i | 0 <= i < |tr.steps| :: StepIs(task.steps[i], tr.steps[i])
  }

  /** A task is shown as the TaskRun of its child is; as pending, under the child's name, if there is none. */
  ghost predicate TaskIs(cluster: Cluster, pr: PipelineRun, task: TaskMeta) {
    && DeclaredAs(pr, task)
    && ((forall child, custom :: !ChildIs(pr, task.name, child, custom)) ==>
          Placeholder(task) && task.taskrunName == "")
    && forall child, custom, answer |
         ChildIs(pr, task.name, child, custom) && ChildAnswers(cluster, child, custom, answer) ::
         answer.Ok? && if answer.value.Some? then ShownAs(task, child, answer.value.value)
                       else Placeholder(task) && task.taskrunName == child
  }

  lemma ReferenceIsChild(pr: PipelineRun, name: string)
    ensures var r := FindRef(Refs(pr), name);
            forall child, custom ::
              ChildIs(pr, name, child, custom) <==>
              r.Some? && child == r.value.childName && (custom <==> r.value.kind == "CustomRun")
  {
    if HasChildren(pr) {
      ChildIsFirst(pr, name);
    } else {
      LegacyIsFirst(pr, name);
    }
  }

  lemma ChildIsFirst(pr: PipelineRun, name: string)
    requires HasChildren(pr)
    ensures var r := FindRef(Refs(pr), name);
            forall child, custom ::
              ChildIs(pr, name, child, custom) <==>
              r.Some? && child == r.value.childName && (custom <==> r.value.kind == "CustomRun")
  {
    var c :| c in pr.childReferences && c.pipelineTaskName.Some? && c.name.Some?;
    var k :| 0 <= k < |pr.childReferences| && pr.childReferences[k] == c;
    CollectMembers(pr.childReferences, ChildRefOf, ChildRefOf(c).value);
    assert Refs(pr) == ChildRefs(pr);
    var named := (r: ChildRef) => r.pipelineTaskName == name;
    FindCollected(pr.childReferences, ChildRefOf, named, ChildOf(name));
    FindFirst(pr.childReferences, ChildOf(name));
    assert FindRef(Refs(pr), name) == Find(Refs(pr), named);
  }

  lemma LegacyIsFirst(pr: PipelineRun, name: string)
    requires !HasChildren(pr)
    ensures var r := FindRef(Refs(pr), name);
            forall child, custom ::
              ChildIs(pr, name, child, custom) <==>
              r.Some? && child == r.value.childName && (custom <==> r.value.kind == "CustomRun")
  {
    if ChildRefs(pr) != [] {
      CollectMembers(pr.childReferences, ChildRefOf, ChildRefs(pr)[0]);
    }
    var named := (r: ChildRef) => r.pipelineTaskName == name;
    FindCollected(pr.legacyTaskRuns, LegacyRefOf, named, LegacyOf(name));
    FindFirst(pr.legacyTaskRuns, LegacyOf(name));
  }

  lemma DeclarationIsFirst(pr: PipelineRun, name: string, task: TaskMeta)
    requires task.name == name && task.taskRef == TaskRefOf(DeclaredTaskOrder(pr), name)
    requires task.dependsOn == DependsOn(DeclaredTaskOrder(pr), name)
    ensures DeclaredAs(pr, task)
  {
    var named := (d: Declared) => d.name == name;
    FindCollected(pr.pipelineTasks, DeclaredOf, named, DeclarationOf(name));
    FindFirst(pr.pipelineTasks, DeclarationOf(name));
  }

  lemma LiveStepIs(s: StepState)
    ensures StepIs(LiveStep(s), s)
  {
  }

  lemma TaskRunIsShown(declared: seq<Declared>, r: ChildRef, tr: TaskRun)
    ensures ShownAs(TaskFromTaskRun(declared, r, tr), r.childName, tr)
  {
    forall i | 0 <= i < |tr.steps|
      ensures StepIs(StepsFromTaskRunStatus(tr)[i], tr.steps[i])
    {
      LiveStepIs(tr.steps[i]);
    }
  }

  lemma EntryShowsChild(cluster: Cluster, pr: PipelineRun, name: string)
    requires Entry(cluster, pr, name).Ok? && FindRef(Refs(pr), name).Some?
    ensures var task, r := Entry(cluster, pr, name).value, FindRef(Refs(pr), name).value;
            var custom := r.kind == "CustomRun";
            forall answer | ChildAnswers(cluster, r.childName, custom, answer) ::
              answer.Ok? && if answer.value.Some? then ShownAs(task, r.childName, answer.value.value)
                            else Placeholder(task) && task.taskrunName == r.childName
  {
    var r := FindRef(Refs(pr), name).value;
    var custom := r.kind == "CustomRun";
    assert forall answer | ChildAnswers(cluster, r.childName, custom, answer) :: answer == TaskRunOf(cluster, r);
    if TaskRunOf(cluster, r).value.Some? {
      TaskRunIsShown(DeclaredTaskOrder(pr), r, TaskRunOf(cluster, r).value.value);
    }
  }

  lemma EntryIs(cluster: Cluster, pr: PipelineRun, name: string)
    requires Entry(cluster, pr, name).Ok?
    ensures Entry(cluster, pr, name).value.name == name && TaskIs(cluster, pr, Entry(cluster, pr, name).value)
  {
    var task := Entry(cluster, pr, name).value;
    ReferenceIsChild(pr, name);
    DeclarationIsFirst(pr, name, task);
    if FindRef(Refs(pr), name).Some? {
      var r := FindRef(Refs(pr), name).value;
      assert ChildIs(pr, name, r.childName, r.kind == "CustomRun");
      EntryShowsChild(cluster, pr, name);
    }
  }

  /**
    What discovery says is what the cluster says: of the run, by its first condition; of every task,
    by the first reference to it, the TaskRun that stands for that, and the TaskRun's steps.
  */
  lemma DiscoveredIsShown(cluster: Cluster, runName: string, pr: PipelineRun, i: nat)
    requires cluster.getPipelineRun(runName) == Ok(Some(pr)) && Discovered(cluster, runName).Ok?
    ensures var meta := Discovered(cluster, runName).value;
            && meta.runName == runName && meta.source == Tekton && meta.pipelineName == pr.pipelineRef
            && StatusIs(meta.status, pr.conditions, pr.started) && ReasonIs(meta.reason, pr.conditions)
            && (i < |meta.tasks| ==> TaskIs(cluster, pr, meta.tasks[i]))
  {
    EntriesPerName(cluster, pr, OrderedNames(pr));
    if i < |OrderedNames(pr)| {
      EntryIs(cluster, pr, OrderedNames(pr)[i]);
    }
  }

  /** A refresh finds a task exactly when the task's child has a TaskRun, and shows it as that is. */
  lemma RefreshedIsShown(cluster: Cluster, runName: string, pr: PipelineRun, name: string)
    requires cluster.getPipelineRun(runName) == Ok(Some(pr)) && RefreshTask(cluster, runName, name).Ok?
    ensures var found := RefreshTask(cluster, runName, name).value;
            && (found.Some? ==> found.value.name == name && TaskIs(cluster, pr, found.value))
            && (found.Some? <==> exists child, custom, tr ::
                  ChildIs(pr, name, child, custom) && ChildAnswers(cluster, child, custom, Ok(Some(tr))))
  {
    ReferenceIsChild(pr, name);
    if RefreshTask(cluster, runName, name).value.Some? {
      EntryIs(cluster, pr, name);
      var r := FindRef(Refs(pr), name).value;
      assert ChildAnswers(cluster, r.childName, r.kind == "CustomRun", TaskRunOf(cluster, r));
    }
  }

  /**
    Discovery and refresh say NotFound exactly of a run that the cluster does not have. A refresh
    fails otherwise exactly with what the cluster answered about the run, or about the task's child.
  */
  lemma ReadersFailExactly(cluster: Cluster, runName: string, name: string, e: string)
    ensures Discovered(cluster, runName) == Err(NotFound) <==> cluster.getPipelineRun(runName) == Ok(None)
    ensures RefreshTask(cluster, runName, name) == Err(NotFound) <==> cluster.getPipelineRun(runName) == Ok(None)
    ensures RefreshTask(cluster, runName, name) == Err(Kube(e)) <==>
            || cluster.getPipelineRun(runName) == Err(e)
            || exists pr, child, custom ::
                 && cluster.getPipelineRun(runName) == Ok(Some(pr)) && ChildIs(pr, name, child, custom)
                 && ChildAnswers(cluster, child, custom, Err(e))
  {
    match cluster.getPipelineRun(runName)
    case Ok(Some(pr)) =>
      ReferenceIsChild(pr, name);
      if FindRef(Refs(pr), name).Some? {
        var r := FindRef(Refs(pr), name).value;
        assert ChildIs(pr, name, r.childName, r.kind == "CustomRun");
        assert ChildAnswers(cluster, r.childName, r.kind == "CustomRun", TaskRunOf(cluster, r));
      }
    case _ =>
  }

  /** The TaskRun read, and the first of its steps that has the name. */
  ghost predicate FirstStep(cluster: Cluster, taskrunName: string, name: string, tr: TaskRun, i: int) {
    cluster.getTaskRun(taskrunName) == Ok(Some(tr)) && FirstAt(tr.steps, StepOf(name), i)
  }

  lemma LiveStepsNamed(tr: TaskRun, name: string, i: int)
    ensures var named := (s: StepMeta) => s.name == name;
            FirstAt(StepsFromTaskRunStatus(tr), named, i) <==> FirstAt(tr.steps, StepOf(name), i)
  {
    var named, steps := (s: StepMeta) => s.name == name, StepsFromTaskRunStatus(tr);
    assert forall j | 0 <= j < |tr.steps| :: named(steps[j]) <==> StepOf(name)(tr.steps[j]);
  }

  /** Of a step: the TaskRun's first of that name; nothing exactly if the TaskRun cannot be read or has none. */
  lemma RefreshedStepIsShown(cluster: Cluster, taskrunName: string, name: string)
    ensures var read := RefreshStepStatus(cluster, taskrunName, name);
            && (read.Some? <==> exists tr, i :: FirstStep(cluster, taskrunName, name, tr, i))
            && forall tr, i | read.Some? && FirstStep(cluster, taskrunName, name, tr, i) ::
                 StepIs(read.value, tr.steps[i])
  {
    match cluster.getTaskRun(taskrunName)
    case Ok(Some(tr)) =>
      var named := (s: StepMeta) => s.name == name;
      FindFirst(StepsFromTaskRunStatus(tr), named);
      forall i
        ensures FirstAt(StepsFromTaskRunStatus(tr), named, i) <==> FirstAt(tr.steps, StepOf(name), i)
      {
        LiveStepsNamed(tr, name, i);
      }
      forall i | FirstStep(cluster, taskrunName, name, tr, i)
        ensures StepIs(RefreshStepStatus(cluster, taskrunName, name).value, tr.steps[i])
      {
        LiveStepIs(tr.steps[i]);
      }
      if Find(StepsFromTaskRunStatus(tr), named).Some? {
        var i := FindPosition(StepsFromTaskRunStatus(tr), named);
        assert FirstStep(cluster, taskrunName, name, tr, i);
      }
    case _ =>
  }
}
