/**
  Tekton objects as typed records, and the cluster as an oracle (src/db/k8s_tekton.rs). An absent
  JSON field is `None`; an absent array is empty.
*/
module TektonApi {
  import opened Wrappers

  datatype Condition = Condition(status: Option<string>, reason: Option<string>)

  datatype Terminated = Terminated(exitCode: Option<int>, reason: Option<string>)

  datatype Waiting = Waiting(reason: Option<string>)

  /** One entry of `status.steps`. */
  datatype StepState = StepState(
    name: Option<string>,
    container: Option<string>,
    terminated: Option<Terminated>,
    running: bool,
    waiting: Option<Waiting>)

  datatype TaskRun = TaskRun(
    name: Option<string>,
    pipelineRunLabel: Option<string>,
    pipelineTaskLabel: Option<string>,
    customRunLabel: Option<string>,
    creationTimestamp: Option<string>,
    taskRef: Option<string>,
    conditions: seq<Condition>,
    started: bool,
    podName: Option<string>,
    steps: seq<StepState>)

  datatype ChildReference = ChildReference(
    pipelineTaskName: Option<string>, name: Option<string>, kind: Option<string>)

  /** One entry of `status.pipelineSpec.tasks`. */
  datatype PipelineTask = PipelineTask(
    name: Option<string>, taskRef: Option<string>, runAfter: seq<Option<string>>)

  /** One entry of the deprecated `status.taskRuns` map, in the map's order. */
  datatype LegacyEntry = LegacyEntry(taskrunName: string, pipelineTaskName: Option<string>)

  datatype PipelineRun = PipelineRun(
    pipelineRef: Option<string>,
    conditions: seq<Condition>,
    started: bool,
    childReferences: seq<ChildReference>,
    legacyTaskRuns: seq<LegacyEntry>,
    pipelineTasks: seq<PipelineTask>)

  function ConditionStatus(conditions: seq<Condition>): Option<string> {
    if conditions == [] then None else conditions[0].status
  }

  function ConditionReason(conditions: seq<Condition>): Option<string> {
    if conditions == [] then None else conditions[0].reason
  }

  /** The object's first condition has that status. */
  predicate Reads(conditions: seq<Condition>, status: string) {
    conditions != [] && conditions[0].status == Some(status)
  }

  /** An API answer: the object, `None` on 404, or an error. */
  type Answer<T> = Result<Option<T>, string>

  /** The state of a container, once its pod reports one. */
  datatype ContainerState = ContainerState(terminated: bool, running: bool)

  /** What asking for a pod tells about one of its containers. */
  datatype PodAnswer = Pod(state: Option<ContainerState>) | Unauthorized | Failure

  /** One cluster state, as the answers it gives; `logOver`: a log followed in this container is over. */
  datatype Cluster = Cluster(
    getPipelineRun: string -> Answer<PipelineRun>,
    getTaskRun: string -> Answer<TaskRun>,
    listByCustomRunLabel: string -> Result<seq<TaskRun>, string>,
    getContainer: (string, string) -> PodAnswer,
    logOver: (string, string) -> bool)
}
