/**
  src/handlers/run_archive.rs, `fetch_archived_meta`: the skeleton of an archived run, and when it
  agrees with what discovery reported while the run was live.
*/
module ArchivedMeta {
  import opened Wrappers
  import opened Sequences
  import opened StableSort
  import opened RunModel
  import opened TektonApi
  import opened RunDiscovery
  import opened RunArchive

  function ArchivedStep(s: StepState): StepMeta {
    var (status, reason) :=
      if s.terminated.Some? then (TerminatedStatus(s.terminated.value), s.terminated.value.reason)
      else (Unknown, None);
    StepMeta(StepName(s), StepContainer(s), status, reason)
  }

  function StepsFromArchivedTaskRun(tr: TaskRun): seq<StepMeta> {
    MapSeq(tr.steps, ArchivedStep)
  }

  /** `collect()` into a HashMap: a repeated name keeps its last `runAfter`. */
  function DependsOnByTask(declared: seq<Declared>): map<string, seq<string>> {
    if declared == [] then map[]
    else
      var last := declared[|declared| - 1];
      DependsOnByTask(declared[..|declared| - 1])[last.name := last.dependsOn]
  }

  function CustomRunTaskOf(c: ChildReference): Option<(string, string)> {
    if c.kind == Some("CustomRun") && c.name.Some? && c.pipelineTaskName.Some?
    then Some((c.name.value, c.pipelineTaskName.value))
    else None
  }

  function CustomRunToPipelineTask(pr: PipelineRun): map<string, string> {
    MapOf(Collect(pr.childReferences, CustomRunTaskOf))
  }

  /** The pipeline task of an archived TaskRun: its label, its CustomRun's task, or its own name. */
  function ArchivedTaskName(pr: PipelineRun, tr: TaskRun): string {
    var byCustomRun := CustomRunToPipelineTask(pr);
    if tr.pipelineTaskLabel.Some? then tr.pipelineTaskLabel.value
    else if tr.customRunLabel.Some? && tr.customRunLabel.value in byCustomRun
    then byCustomRun[tr.customRunLabel.value]
    else tr.name.GetOr("unknown-taskrun")
  }

  function ArchivedTask(pr: PipelineRun, tr: TaskRun): TaskMeta {
    var taskrunName := tr.name.GetOr("unknown-taskrun");
    var name := ArchivedTaskName(pr, tr);
    var dependsOn := DependsOnByTask(DeclaredTaskOrder(pr));
    TaskMeta(
      name, tr.taskRef, taskrunName, Some(tr.podName.GetOr(taskrunName + "-pod")),
      RunStatus.FromCondition(ConditionStatus(tr.conditions), true), ConditionReason(tr.conditions),
      StepsFromArchivedTaskRun(tr), if name in dependsOn then dependsOn[name] else [])
  }

  function ArchivedRun(runName: string, pr: PipelineRun, tasks: seq<TaskMeta>): RunMeta {
    RunMeta(
      runName, Archive, pr.pipelineRef,
      RunStatus.FromCondition(ConditionStatus(pr.conditions), true), ConditionReason(pr.conditions), tasks)
  }

  function TasksOf(pr: PipelineRun, taskruns: seq<TaskRun>): seq<TaskMeta> {
    MapSeq(taskruns, (tr: TaskRun) => ArchivedTask(pr, tr))
  }

  /** What `fetch_archived_meta` returns. */
  function ArchivedMetaOf(store: Store, runName: string): Result<RunMeta, ArchiveError> {
    match Fetched(store, runName)
    case Err(e) => Err(e)
    case Ok((pr, taskruns)) => Ok(ArchivedRun(runName, pr, TasksOf(pr, taskruns)))
  }

  method AssembleTasks(pr: PipelineRun, taskruns: seq<TaskRun>) returns (tasks: seq<TaskMeta>)
    ensures tasks == TasksOf(pr, taskruns)
    ensures forall i | 0 <= i < |taskruns| :: ArchivedAs(pr, taskruns[i], tasks[i])
  {
    tasks := [];
    for i := 0 to |taskruns|
      invariant |tasks| == i
      invariant forall j | 0 <= j < i :: tasks[j] == ArchivedTask(pr, taskruns[j])
    {
      tasks := tasks + [ArchivedTask(pr, taskruns[i])];
    }
    TasksAreArchived(pr, taskruns);
  }

  method FetchArchivedMeta(store: Store, runName: string) returns (r: Result<RunMeta, ArchiveError>)
    ensures r == ArchivedMetaOf(store, runName)
  {
    var fetched := FetchPgRecords(store, runName);
    if fetched.Err? {
      return Err(fetched.error);
    }
    var (pr, taskruns) := fetched.value;
    var tasks := AssembleTasks(pr, taskruns);
    return Ok(ArchivedRun(runName, pr, tasks));
  }

  // ── What an archived task says of its TaskRun ──────────────────────────

  /** A CustomRun child of that name that belongs to a task. */
  function CustomRunChild(customRun: string): ChildReference -> bool {
    (c: ChildReference) => c.kind == Some("CustomRun") && c.name == Some(customRun) && c.pipelineTaskName.Some?
  }

  /**
    How a TaskRun leads to its task: by its task label; without one, by its CustomRun label, to the
    task of the last child of that name; and otherwise the TaskRun's name stands for the task.
  */
  ghost predicate LeadsTo(pr: PipelineRun, tr: TaskRun, name: string) {
    if tr.pipelineTaskLabel.Some? then name == tr.pipelineTaskLabel.value
    else if tr.customRunLabel.Some? &&
            exists i :: LastAt(pr.childReferences, CustomRunChild(tr.customRunLabel.value), i) then
      exists i ::
        && LastAt(pr.childReferences, CustomRunChild(tr.customRunLabel.value), i)
        && pr.childReferences[i].pipelineTaskName == Some(name)
    else name == tr.name.GetOr("unknown-taskrun")
  }

  lemma CustomRunTableSnoc(front: seq<ChildReference>, last: ChildReference)
    ensures var before, entry := MapOf(Collect(front, CustomRunTaskOf)), CustomRunTaskOf(last);
            MapOf(Collect(front + [last], CustomRunTaskOf)) ==
            if entry.Some? then before[entry.value.0 := entry.value.1] else before
  {
    CollectSnoc(front, last, CustomRunTaskOf);
    if CustomRunTaskOf(last).Some? {
      MapOfSnoc(Collect(front, CustomRunTaskOf), last.name.value, last.pipelineTaskName.value);
    } else {
      assert Collect(front, CustomRunTaskOf) + [] == Collect(front, CustomRunTaskOf);
    }
  }

  lemma {:induction false} LastChildIsTabled(children: seq<ChildReference>, customRun: string, i: int)
    requires LastAt(children, CustomRunChild(customRun), i)
    ensures var table := MapOf(Collect(children, CustomRunTaskOf));
            customRun in table && children[i].pipelineTaskName == Some(table[customRun])
  {
    var front, last := children[..|children| - 1], children[|children| - 1];
    assert children == front + [last];
    CustomRunTableSnoc(front, last);
    if i < |front| {
      LastChildIsTabled(front, customRun, i);
    }
  }

  /** What is in the table is some child's. */
  lemma TabledIsChild(children: seq<ChildReference>, customRun: string)
    requires customRun in MapOf(Collect(children, CustomRunTaskOf))
    ensures exists c :: c in children && CustomRunChild(customRun)(c)
  {
    var pairs := Collect(children, CustomRunTaskOf);
    MapOfEntries(pairs);
    CollectMembers(children, CustomRunTaskOf, (customRun, MapOf(pairs)[customRun]));
    var i :| 0 <= i < |children| && CustomRunTaskOf(children[i]) == Some((customRun, MapOf(pairs)[customRun]));
    assert children[i] in children;
  }

  lemma LeadsToName(pr: PipelineRun, tr: TaskRun, name: string)
    ensures LeadsTo(pr, tr, name) <==> ArchivedTaskName(pr, tr) == name
  {
    if tr.customRunLabel.Some? {
      var customRun := tr.customRunLabel.value;
      if i :| LastAt(pr.childReferences, CustomRunChild(customRun), i) {
        LastChildIsTabled(pr.childReferences, customRun, i);
      } else if customRun in CustomRunToPipelineTask(pr) {
        TabledIsChild(pr.childReferences, customRun);
        var i := SomeIsLast(pr.childReferences, CustomRunChild(customRun));
      }
    }
  }

  /** Only a step that terminated has a known status. */
  predicate ArchivedStepIs(step: StepMeta, s: StepState) {
    && step.name == s.name.GetOr("unknown") && step.container == s.container.GetOr("step-" + step.name)
    && step.status == (if s.terminated.None? then Unknown
                       else if s.terminated.value.exitCode == Some(0) then Succeeded else Failed)
    && step.reason == (if s.terminated.None? then None else s.terminated.value.reason)
  }

  /** The last declaration of the task, if any, gives what it runs after. */
  ghost predicate RunsAfter(pr: PipelineRun, name: string, dependsOn: seq<string>) {
    if exists i :: LastAt(pr.pipelineTasks, DeclarationOf(name), i) then
      exists i ::
        && LastAt(pr.pipelineTasks, DeclarationOf(name), i)
        && dependsOn == Collect(pr.pipelineTasks[i].runAfter, (a: Option<string>) => a)
    else dependsOn == []
  }

  lemma DependsOnTableSnoc(front: seq<PipelineTask>, last: PipelineTask)
    ensures var before, entry := DependsOnByTask(Collect(front, DeclaredOf)), DeclaredOf(last);
            DependsOnByTask(Collect(front + [last], DeclaredOf)) ==
            if entry.Some? then before[entry.value.name := entry.value.dependsOn] else before
  {
    var declared := Collect(front, DeclaredOf);
    CollectSnoc(front, last, DeclaredOf);
    if last.name.Some? {
      assert (declared + [DeclaredOf(last).value])[..|declared|] == declared;
    } else {
      assert declared + [] == declared;
    }
  }

  lemma {:induction false} LastDeclarationIsTabled(tasks: seq<PipelineTask>, name: string, i: int)
    requires LastAt(tasks, DeclarationOf(name), i)
    ensures var table := DependsOnByTask(Collect(tasks, DeclaredOf));
            name in table && DeclaredOf(tasks[i]).value.dependsOn == table[name]
  {
    var front, last := tasks[..|tasks| - 1], tasks[|tasks| - 1];
    assert tasks == front + [last];
    DependsOnTableSnoc(front, last);
    if i < |front| {
      LastDeclarationIsTabled(front, name, i);
    }
  }

  lemma {:induction false} TabledIsDeclared(tasks: seq<PipelineTask>, name: string)
    requires name in DependsOnByTask(Collect(tasks, DeclaredOf))
    ensures exists t :: t in tasks && DeclarationOf(name)(t)
  {
    var front, last := tasks[..|tasks| - 1], tasks[|tasks| - 1];
    assert tasks == front + [last];
    DependsOnTableSnoc(front, last);
    if last.name == Some(name) {
      assert last in tasks;
    } else {
      TabledIsDeclared(front, name);
    }
  }

  lemma TableSaysRunsAfter(pr: PipelineRun, name: string)
    ensures var table := DependsOnByTask(DeclaredTaskOrder(pr));
            RunsAfter(pr, name, if name in table then table[name] else [])
  {
    if i :| LastAt(pr.pipelineTasks, DeclarationOf(name), i) {
      LastDeclarationIsTabled(pr.pipelineTasks, name, i);
    } else if name in DependsOnByTask(DeclaredTaskOrder(pr)) {
      TabledIsDeclared(pr.pipelineTasks, name);
      var i := SomeIsLast(pr.pipelineTasks, DeclarationOf(name));
    }
  }

  /** A task as the archive shows it. */
  ghost predicate ArchivedAs(pr: PipelineRun, tr: TaskRun, task: TaskMeta) {
    && LeadsTo(pr, tr, task.name) && RunsAfter(pr, task.name, task.dependsOn)
    && task.taskRef == tr.taskRef && task.taskrunName == tr.name.GetOr("unknown-taskrun")
    && task.podName == Some(tr.podName.GetOr(task.taskrunName + "-pod"))
    && StatusIs(task.status, tr.conditions, true) && ReasonIs(task.reason, tr.conditions)
    && |task.steps| == |tr.steps| && forall i | 0 <= i < |tr.steps| :: ArchivedStepIs(task.steps[i], tr.steps[i])
  }

  lemma ArchivedTaskIs(pr: PipelineRun, tr: TaskRun)
    ensures ArchivedAs(pr, tr, ArchivedTask(pr, tr))
  {
    LeadsToName(pr, tr, ArchivedTaskName(pr, tr));
    TableSaysRunsAfter(pr, ArchivedTaskName(pr, tr));
  }

  lemma TasksAreArchived(pr: PipelineRun, taskruns: seq<TaskRun>)
    ensures forall i | 0 <= i < |taskruns| :: ArchivedAs(pr, taskruns[i], TasksOf(pr, taskruns)[i])
  {
    forall i | 0 <= i < |taskruns|
      ensures ArchivedAs(pr, taskruns[i], TasksOf(pr, taskruns)[i])
    {
      ArchivedTaskIs(pr, taskruns[i]);
    }
  }

  /** What the archive says is what its records say: of the run, and of one task for every TaskRun fetched. */
  lemma ArchivedIsShown(store: Store, runName: string, i: nat)
    requires ArchivedMetaOf(store, runName).Ok?
    ensures Fetched(store, runName).Ok?
    ensures var meta, (pr, taskruns) := ArchivedMetaOf(store, runName).value, Fetched(store, runName).value;
            && meta.runName == runName && meta.source == Archive && meta.pipelineName == pr.pipelineRef
            && StatusIs(meta.status, pr.conditions, true) && ReasonIs(meta.reason, pr.conditions)
            && |meta.tasks| == |taskruns| && (i < |taskruns| ==> ArchivedAs(pr, taskruns[i], meta.tasks[i]))
  {
    var (pr, taskruns) := Fetched(store, runName).value;
    TasksAreArchived(pr, taskruns);
  }

  // ── One task, live and archived ────────────────────────────────────────

  /** The condition is decided, or the object started: both readers then see the same status. */
  predicate Settled(conditions: seq<Condition>, started: bool) {
    started || Reads(conditions, "True") || Reads(conditions, "False")
  }

  predicate AllTerminated(tr: TaskRun) {
    forall i | 0 <= i < |tr.steps| :: tr.steps[i].terminated.Some?
  }

  lemma StatusAgreement(conditions: seq<Condition>, started: bool)
    ensures (RunStatus.FromCondition(ConditionStatus(conditions), started) ==
             RunStatus.FromCondition(ConditionStatus(conditions), true))
            <==> Settled(conditions, started)
  {
  }

  /** The archive reader keeps only finished steps: any other step comes out differently. */
  lemma StepsAgreement(tr: TaskRun)
    ensures StepsFromTaskRunStatus(tr) == StepsFromArchivedTaskRun(tr) <==> AllTerminated(tr)
  {
    var live, archived := StepsFromTaskRunStatus(tr), StepsFromArchivedTaskRun(tr);
    if live == archived {
      forall i | 0 <= i < |tr.steps|
        ensures tr.steps[i].terminated.Some?
      {
        assert live[i] == archived[i];
      }
    }
  }

  predicate UniqueDeclared(declared: seq<Declared>) {
    forall i, j | 0 <= i < j < |declared| :: declared[i].name != declared[j].name
  }

  lemma {:induction false} DependsOnAgreement(declared: seq<Declared>, name: string)
    requires UniqueDeclared(declared)
    ensures var byTask := DependsOnByTask(declared);
            DependsOn(declared, name) == if name in byTask then byTask[name] else []
  {
    if declared != [] {
      var front, last := declared[..|declared| - 1], declared[|declared| - 1];
      DependsOnAgreement(front, name);
      FindInConcat(front, last, name);
      assert declared == front + [last];
      assert forall i | 0 <= i < |front| :: front[i].name != last.name;
    }
  }

  lemma {:induction false} FindInConcat(front: seq<Declared>, last: Declared, name: string)
    ensures FindDeclared(front + [last], name) ==
            if FindDeclared(front, name).Some? then FindDeclared(front, name)
            else if last.name == name then Some(last) else None
  {
    if front == [] {
      assert front + [last] == [last] && [last][1..] == [];
    } else {
      assert (front + [last])[1..] == front[1..] + [last];
      FindInConcat(front[1..], last, name);
    }
  }

  /**
    The two readers build the same entry from one named TaskRun exactly when its labels lead back
    to the pipeline task, its taskRef is the declared one, it is settled, and its steps are done.
  */
  lemma EntryAgreement(pr: PipelineRun, r: ChildRef, tr: TaskRun)
    requires UniqueDeclared(DeclaredTaskOrder(pr)) && tr.name.Some?
    ensures TaskFromTaskRun(DeclaredTaskOrder(pr), r, tr) == ArchivedTask(pr, tr) <==>
            && LeadsTo(pr, tr, r.pipelineTaskName)
            && tr.taskRef == TaskRefOf(DeclaredTaskOrder(pr), r.pipelineTaskName)
            && Settled(tr.conditions, tr.started)
            && AllTerminated(tr)
  {
    LeadsToName(pr, tr, r.pipelineTaskName);
    DependsOnAgreement(DeclaredTaskOrder(pr), r.pipelineTaskName);
    StepsAgreement(tr);
    StatusAgreement(tr.conditions, tr.started);
  }

  // ── Whole runs ─────────────────────────────────────────────────────────

  /** The TaskRun that discovery finds for a listed task. */
  function FoundFor(cluster: Cluster, pr: PipelineRun): string -> Option<TaskRun> {
    (name: string) =>
      match FindRef(Refs(pr), name)
      case None => None
      case Some(r) =>
        match TaskRunOf(cluster, r)
        case Ok(tr) => tr
        case Err(_) => None
  }

  function FoundIn(cluster: Cluster, pr: PipelineRun): seq<TaskRun> {
    Collect(OrderedNames(pr), FoundFor(cluster, pr))
  }

  /** Both readers build the same entry from the TaskRun. */
  ghost predicate ReadAlike(pr: PipelineRun, name: string, tr: TaskRun) {
    && LeadsTo(pr, tr, name)
    && tr.taskRef == TaskRefOf(DeclaredTaskOrder(pr), name)
    && Settled(tr.conditions, tr.started)
    && AllTerminated(tr)
  }

  ghost predicate FoundAlike(cluster: Cluster, pr: PipelineRun, name: string) {
    var tr := FoundFor(cluster, pr)(name);
    tr.Some? && ReadAlike(pr, name, tr.value)
  }

  /** A finished run: settled, and every listed task with a TaskRun that both readers read alike. */
  ghost predicate Finished(cluster: Cluster, pr: PipelineRun) {
    && Settled(pr.conditions, pr.started)
    && forall i | 0 <= i < |OrderedNames(pr)| :: FoundAlike(cluster, pr, OrderedNames(pr)[i])
  }

  /** The same run but for its source and the order of its tasks. */
  predicate SameRun(live: RunMeta, archived: RunMeta) {
    && archived == live.(source := Archive, tasks := archived.tasks)
    && multiset(archived.tasks) == multiset(live.tasks)
  }

  lemma FoundEntry(cluster: Cluster, pr: PipelineRun, name: string, task: TaskMeta)
    requires UniqueDeclared(DeclaredTaskOrder(pr)) && Entry(cluster, pr, name) == Ok(task)
    requires FoundFor(cluster, pr)(name).Some? && FoundFor(cluster, pr)(name).value.name.Some?
    ensures var tr := FoundFor(cluster, pr)(name).value;
            && Some(task.taskrunName) == tr.name
            && (task == ArchivedTask(pr, tr) <==> ReadAlike(pr, name, tr))
  {
    EntryAgreement(pr, FindRef(Refs(pr), name).value, FoundFor(cluster, pr)(name).value);
  }

  /** The declared names are distinct, and so are those of the TaskRuns found, which have one. */
  ghost predicate WellNamed(cluster: Cluster, pr: PipelineRun) {
    && UniqueDeclared(DeclaredTaskOrder(pr))
    && (forall tr | tr in FoundIn(cluster, pr) :: tr.name.Some?) && DistinctBy(FoundIn(cluster, pr), TaskRunName)
  }

  /** The tasks that discovery lists. */
  ghost predicate Listed(cluster: Cluster, pr: PipelineRun, tasks: seq<TaskMeta>) {
    && WellNamed(cluster, pr)
    && Entries(cluster, pr, OrderedNames(pr)) == Ok(tasks) && |tasks| == |OrderedNames(pr)|
  }

  /** Where every task has a TaskRun: which entries are the archive's. */
  lemma ListedEntry(cluster: Cluster, pr: PipelineRun, tasks: seq<TaskMeta>, i: nat)
    requires Listed(cluster, pr, tasks) && i < |tasks| && |FoundIn(cluster, pr)| == |tasks|
    ensures var tr := FoundIn(cluster, pr)[i];
            && Some(tasks[i].taskrunName) == tr.name
            && (tasks[i] == ArchivedTask(pr, tr) <==> FoundAlike(cluster, pr, OrderedNames(pr)[i]))
  {
    var names := OrderedNames(pr);
    CollectFull(names, FoundFor(cluster, pr));
    CollectAll(names, FoundFor(cluster, pr));
    EntriesPerName(cluster, pr, names);
    assert FoundIn(cluster, pr)[i] in FoundIn(cluster, pr);
    FoundEntry(cluster, pr, names[i], tasks[i]);
  }

  /** The archive's entry for a listed task can only be that of its own TaskRun. */
  lemma SameEntryIsOwn(cluster: Cluster, pr: PipelineRun, tasks: seq<TaskMeta>, i: nat, tr: TaskRun)
    requires Listed(cluster, pr, tasks) && i < |tasks| && |FoundIn(cluster, pr)| == |tasks|
    requires tr in FoundIn(cluster, pr) && tasks[i] == ArchivedTask(pr, tr)
    ensures FoundAlike(cluster, pr, OrderedNames(pr)[i])
  {
    var found := FoundIn(cluster, pr);
    ListedEntry(cluster, pr, tasks, i);
    var j :| 0 <= j < |found| && found[j] == tr;
    assert TaskRunName(found[i]) == TaskRunName(found[j]);
    assert i == j;
  }

  lemma SameTasksAreAlike(cluster: Cluster, pr: PipelineRun, tasks: seq<TaskMeta>, taskruns: seq<TaskRun>)
    requires Listed(cluster, pr, tasks) && multiset(taskruns) == multiset(FoundIn(cluster, pr))
    requires multiset(TasksOf(pr, taskruns)) == multiset(tasks)
    ensures forall i | 0 <= i < |tasks| :: FoundAlike(cluster, pr, OrderedNames(pr)[i])
  {
    assert |multiset(taskruns)| == |multiset(FoundIn(cluster, pr))|;
    assert |multiset(TasksOf(pr, taskruns))| == |multiset(tasks)|;
    forall i | 0 <= i < |tasks|
      ensures FoundAlike(cluster, pr, OrderedNames(pr)[i])
    {
      MemberByMultiset(TasksOf(pr, taskruns), tasks, tasks[i]);
      var j :| 0 <= j < |taskruns| && TasksOf(pr, taskruns)[j] == tasks[i];
      MemberByMultiset(taskruns, FoundIn(cluster, pr), taskruns[j]);
      SameEntryIsOwn(cluster, pr, tasks, i, taskruns[j]);
    }
  }

  lemma AlikeTasksAreSame(cluster: Cluster, pr: PipelineRun, tasks: seq<TaskMeta>, taskruns: seq<TaskRun>)
    requires Listed(cluster, pr, tasks) && multiset(taskruns) == multiset(FoundIn(cluster, pr))
    requires forall i | 0 <= i < |tasks| :: FoundAlike(cluster, pr, OrderedNames(pr)[i])
    ensures multiset(TasksOf(pr, taskruns)) == multiset(tasks)
  {
    var found := FoundIn(cluster, pr);
    CollectAll(OrderedNames(pr), FoundFor(cluster, pr));
    forall i | 0 <= i < |tasks|
      ensures TasksOf(pr, found)[i] == tasks[i]
    {
      ListedEntry(cluster, pr, tasks, i);
    }
    assert TasksOf(pr, found) == tasks;
    MapSeqRearranged(taskruns, found, (tr: TaskRun) => ArchivedTask(pr, tr));
  }

  /**
    Where the archive has the TaskRuns that discovery finds, distinctly named and in any order, it
    gives the run that discovery gives exactly when the run is finished: settled, and every listed
    task with a TaskRun that both readers read alike.
  */
  lemma ArchiveAgreesWithDiscovery(cluster: Cluster, store: Store, runName: string, pr: PipelineRun)
    requires cluster.getPipelineRun(runName) == Ok(Some(pr)) && Discovered(cluster, runName).Ok?
    requires WellNamed(cluster, pr)
    requires Fetched(store, runName).Ok? && Fetched(store, runName).value.0 == pr
    requires multiset(Fetched(store, runName).value.1) == multiset(FoundIn(cluster, pr))
    ensures ArchivedMetaOf(store, runName).Ok?
    ensures SameRun(Discovered(cluster, runName).value, ArchivedMetaOf(store, runName).value) <==>
            Finished(cluster, pr)
  {
    var tasks, taskruns := Discovered(cluster, runName).value.tasks, Fetched(store, runName).value.1;
    EntriesPerName(cluster, pr, OrderedNames(pr));
    StatusAgreement(pr.conditions, pr.started);
    if SameRun(Discovered(cluster, runName).value, ArchivedMetaOf(store, runName).value) {
      SameTasksAreAlike(cluster, pr, tasks, taskruns);
    }
    if Finished(cluster, pr) {
      AlikeTasksAreSame(cluster, pr, tasks, taskruns);
    }
  }

  // ── When the archive holds the run's TaskRuns ──────────────────────────

  /**
    The archive holds the run: uniquely named readable records, those labelled with the run and
    the proxies of its CustomRun children being exactly its TaskRuns.
  */
  ghost predicate Holds(store: Store, runName: string, pr: PipelineRun, resolved: seq<TaskRun>) {
    && UniquelyNamed(store) && (forall record | record in store.records :: record.readable)
    && DistinctBy(resolved, TaskRunName)
    && (forall record | record in store.records && Asks(Labelled(runName), record) :: record.tr in resolved)
    && (forall c | c in CustomRunNames(pr) && ProxyRecord(store, c).Some? :: ProxyRecord(store, c).value in resolved)
    && (forall tr | tr in resolved ::
          || (exists record :: record in store.records && Asks(Labelled(runName), record) && record.tr == tr)
          || (exists c :: c in CustomRunNames(pr) && ProxyRecord(store, c) == Some(tr)))
  }

  lemma PrimaryMembers(store: Store, runName: string, tr: TaskRun)
    ensures tr in Primary(store, runName) <==>
            exists record :: record in store.records && Asks(Labelled(runName), record) &&
                             record.readable && record.tr == tr
  {
    var selected := Filter(store.records, Matching(Labelled(runName)));
    var sorted := Sort(selected, OlderRecord);
    CollectMembers(sorted, TaskRunIn, tr);
    if tr in Primary(store, runName) {
      var i :| 0 <= i < |sorted| && TaskRunIn(sorted[i]) == Some(tr);
      MemberByMultiset(sorted, selected, sorted[i]);
      FilterMembers(store.records, Matching(Labelled(runName)), sorted[i]);
    }
    if record :| record in store.records && Asks(Labelled(runName), record) && record.readable && record.tr == tr {
      FilterMembers(store.records, Matching(Labelled(runName)), record);
      MemberByMultiset(sorted, selected, record);
      var i :| 0 <= i < |sorted| && sorted[i] == record;
      assert TaskRunIn(sorted[i]) == Some(tr);
    }
  }

  lemma ProxyIsRecord(store: Store, customRun: string) returns (record: Record)
    requires ProxyRecord(store, customRun).Some?
    ensures record in store.records && record.tr == ProxyRecord(store, customRun).value
  {
    NewestAsked(store, Exact(ExecName(customRun)));
    NewestAsked(store, ProxyOf(customRun));
    record := if NewestTaskRun(store, Exact(ExecName(customRun))).Some?
              then Newest(store, Exact(ExecName(customRun))).value
              else Newest(store, ProxyOf(customRun)).value;
  }

  /** A record of the conventional name is what the name search returns. */
  lemma ExactFindsNamed(store: Store, record: Record, name: string)
    requires UniquelyNamed(store) && record in store.records && record.readable && record.tr.name == Some(name)
    ensures NewestTaskRun(store, Exact(name)) == Some(record.tr)
  {
    var selected := Filter(store.records, Matching(Exact(name)));
    FilterMembers(store.records, Matching(Exact(name)), record);
    MemberByMultiset(selected, Sort(selected, NewerRecord), record);
    NewestAsked(store, Exact(name));
    SameNameSameRecord(store, record, Newest(store, Exact(name)).value);
  }

  /** The proxy of a child is among the labelled TaskRuns or is picked. */
  lemma ProxyIsCollected(store: Store, primary: seq<TaskRun>, runName: string, customRun: string)
    requires UniquelyNamed(store) && (forall record | record in store.records :: record.readable)
    requires primary == Primary(store, runName) && ProxyRecord(store, customRun).Some?
    ensures ProxyRecord(store, customRun).value in primary ||
            Pick(store, NamesFound(primary), customRun) == ProxyRecord(store, customRun)
  {
    var found := NamesFound(primary);
    var proxy := ProxyIsRecord(store, customRun);
    var taken := if ExecName(customRun) in found then ExecName(customRun) else proxy.tr.name.GetOr("");
    if Pick(store, found, customRun) != ProxyRecord(store, customRun) {
      assert taken in found;
      var tr :| tr in primary && tr.name == Some(taken);
      PrimaryMembers(store, runName, tr);
      var record :| record in store.records && record.tr == tr;
      if taken == ExecName(customRun) {
        ExactFindsNamed(store, record, taken);
      } else {
        SameNameSameRecord(store, record, proxy);
      }
    }
  }

  lemma {:induction false} SameMembersSameMultiset(a: seq<TaskRun>, b: seq<TaskRun>)
    requires DistinctBy(a, TaskRunName) && DistinctBy(b, TaskRunName)
    requires forall tr :: tr in a <==> tr in b
    ensures multiset(a) == multiset(b)
  {
    forall tr
      ensures multiset(a)[tr] == multiset(b)[tr]
    {
      if tr in a {
        DistinctOccursOnce(a, tr);
        DistinctOccursOnce(b, tr);
      }
    }
  }

  lemma DistinctOccursOnce(s: seq<TaskRun>, tr: TaskRun)
    requires DistinctBy(s, TaskRunName) && tr in s
    ensures multiset(s)[tr] == 1
  {
    var i :| 0 <= i < |s| && s[i] == tr;
    forall j | 0 <= j < |s| && j != i
      ensures s[j] != tr
    {
      assert TaskRunName(s[if i < j then i else j]) != TaskRunName(s[if i < j then j else i]);
    }
    OccursOnce(s, i);
  }

  lemma MergedMembers(store: Store, runName: string, pr: PipelineRun, tr: TaskRun)
    ensures tr in MergedTaskRuns(store, runName, pr) <==>
            || tr in Primary(store, runName)
            || (exists i :: 0 <= i < |CustomRunNames(pr)| &&
                            Pick(store, NamesFound(Primary(store, runName)), CustomRunNames(pr)[i]) == Some(tr))
  {
    var primary := Primary(store, runName);
    var all := primary + Picks(store, NamesFound(primary), CustomRunNames(pr));
    PicksMembers(store, NamesFound(primary), CustomRunNames(pr), tr);
    MemberByMultiset(all, Sort(all, EarlierTimestamp), tr);
  }

  lemma PickIsProxyRecord(store: Store, found: set<string>, customRun: string)
    ensures Pick(store, found, customRun).Some? ==> Pick(store, found, customRun) == ProxyRecord(store, customRun)
  {
  }

  lemma MergedIsHeld(store: Store, runName: string, pr: PipelineRun, resolved: seq<TaskRun>, tr: TaskRun)
    requires Holds(store, runName, pr, resolved) && tr in MergedTaskRuns(store, runName, pr)
    ensures tr in resolved
  {
    var found, names := NamesFound(Primary(store, runName)), CustomRunNames(pr);
    PrimaryMembers(store, runName, tr);
    MergedMembers(store, runName, pr, tr);
    if tr !in Primary(store, runName) {
      var i :| 0 <= i < |names| && Pick(store, found, names[i]) == Some(tr);
      PickIsProxyRecord(store, found, names[i]);
      assert names[i] in names;
    }
  }

  lemma HeldIsMerged(store: Store, runName: string, pr: PipelineRun, resolved: seq<TaskRun>, tr: TaskRun)
    requires Holds(store, runName, pr, resolved) && tr in resolved
    ensures tr in MergedTaskRuns(store, runName, pr)
  {
    var primary, names := Primary(store, runName), CustomRunNames(pr);
    PrimaryMembers(store, runName, tr);
    MergedMembers(store, runName, pr, tr);
    if tr !in primary {
      var c :| c in names && ProxyRecord(store, c) == Some(tr);
      ProxyIsCollected(store, primary, runName, c);
      var i := PositionOf(names, c);
    }
  }

  /** The merge of an archive that holds the run gives its TaskRuns, each once. */
  lemma HeldRunIsFetched(store: Store, runName: string, pr: PipelineRun, resolved: seq<TaskRun>)
    requires Holds(store, runName, pr, resolved) && NoRepeats(CustomRunNames(pr))
    requires !SomeMisfiled(store, NamesFound(Primary(store, runName)), CustomRunNames(pr))
    ensures multiset(MergedTaskRuns(store, runName, pr)) == multiset(resolved)
  {
    NoDuplicatesUnlessMisfiled(store, runName, pr);
    forall tr
      ensures tr in MergedTaskRuns(store, runName, pr) <==> tr in resolved
    {
      if tr in resolved {
        HeldIsMerged(store, runName, pr, resolved, tr);
      } else if tr in MergedTaskRuns(store, runName, pr) {
        MergedIsHeld(store, runName, pr, resolved, tr);
      }
    }
    SameMembersSameMultiset(MergedTaskRuns(store, runName, pr), resolved);
  }

  /** None of the queries made for the run fails. */
  predicate Unfailing(store: Store, runName: string, pr: PipelineRun) {
    && store.fault(Labelled(runName)).None?
    && PicksFault(store, NamesFound(Primary(store, runName)), CustomRunNames(pr)).None?
  }

  /**
    From what the two sides hold: if the archive holds the run that the cluster shows, and files no
    proxy under another child's label, it gives the run that discovery gives exactly when the run is
    finished.
  */
  lemma HeldRunAgreesWithDiscovery(cluster: Cluster, store: Store, runName: string, pr: PipelineRun)
    requires cluster.getPipelineRun(runName) == Ok(Some(pr)) && Discovered(cluster, runName).Ok?
    requires WellNamed(cluster, pr)
    requires store.pipelineRun(runName) == Ok(Some(PipelineRecord(pr, true))) && Unfailing(store, runName, pr)
    requires Holds(store, runName, pr, FoundIn(cluster, pr)) && NoRepeats(CustomRunNames(pr))
    requires !SomeMisfiled(store, NamesFound(Primary(store, runName)), CustomRunNames(pr))
    ensures ArchivedMetaOf(store, runName).Ok?
    ensures SameRun(Discovered(cluster, runName).value, ArchivedMetaOf(store, runName).value) <==>
            Finished(cluster, pr)
  {
    HeldRunIsFetched(store, runName, pr, FoundIn(cluster, pr));
    ArchiveAgreesWithDiscovery(cluster, store, runName, pr);
  }
}
