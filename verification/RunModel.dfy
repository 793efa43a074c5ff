/** The values that travel between the handlers and over the wire. */
module RunModel {
  import opened Wrappers

  datatype RunSource = Tekton | Archive

  datatype RunStatus = Pending | Running | Succeeded | Failed | Unknown {
    predicate IsTerminal() {
      Succeeded? || Failed?
    }

    /** A Tekton condition's status, and whether the resource has started. */
    static function FromCondition(status: Option<string>, started: bool): RunStatus {
      if status == Some("True") then Succeeded
      else if status == Some("False") then Failed
      else if status.Some? then (if started then Running else Pending)
      else if started then Unknown
      else Pending
    }
  }

  datatype StepMeta = StepMeta(name: string, container: string, status: RunStatus, reason: Option<string>)

  datatype TaskMeta = TaskMeta(
    name: string,
    taskRef: Option<string>,
    taskrunName: string,
    podName: Option<string>,
    status: RunStatus,
    reason: Option<string>,
    steps: seq<StepMeta>,
    dependsOn: seq<string>)

  datatype RunMeta = RunMeta(
    runName: string,
    source: RunSource,
    pipelineName: Option<string>,
    status: RunStatus,
    reason: Option<string>,
    tasks: seq<TaskMeta>)

  datatype LogLine = LogLine(task: string, step: string, line: string, timestamp: Option<string>)

  datatype RunSummary = RunSummary(name: string, createdTime: string, source: RunSource)
}
