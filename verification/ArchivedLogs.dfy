/**
  src/handlers/run_archive.rs, the Loki half: streams are flattened to cleaned lines, their task
  labels are mapped back to pipeline tasks, and run_event_stream.rs sorts the lines by time.
*/
module ArchivedLogs {
  import opened Wrappers
  import opened Sequences
  import opened Text
  import opened StableSort
  import opened RunModel
  import opened TektonApi
  import opened RunArchive

  /** One Loki stream: its `task` and `container` labels, and `(timestamp, line)` values. */
  datatype LokiStream = LokiStream(task: Option<string>, container: Option<string>, values: seq<(string, string)>)

  // ── Cleaning ───────────────────────────────────────────────────────────

  /** `rsplit('\r').next()`, trimmed: what a terminal would show of a redrawn line. */
  function CleanLine(raw: string): string {
    var parts := Split(raw, '\r');
    Trim(parts[|parts| - 1])
  }

  /** `trim_start_matches("step-")`. */
  function WithoutStepPrefix(container: string): string {
    if "step-" <= container then WithoutStepPrefix(container[5..]) else container
  }

  function StreamTask(stream: LokiStream): string {
    stream.task.GetOr("unknown")
  }

  function StreamStep(stream: LokiStream): string {
    if stream.container.Some? then WithoutStepPrefix(stream.container.value) else "unknown"
  }

  /** The line one value contributes; nothing when it cleans to the empty line. */
  function LineFrom(task: string, step: string): ((string, string)) -> Option<LogLine> {
    (value: (string, string)) =>
      var line := CleanLine(value.1);
      if line == [] then None else Some(LogLine(task, step, line, Some(value.0)))
  }

  function StreamLines(stream: LokiStream): seq<LogLine> {
    Collect(stream.values, LineFrom(StreamTask(stream), StreamStep(stream)))
  }

  function FirstTimestamp(stream: LokiStream): string {
    if stream.values == [] then "0" else stream.values[0].0
  }

  predicate EarlierStream(a: LokiStream, b: LokiStream) {
    StrLe(FirstTimestamp(a), FirstTimestamp(b))
  }

  function Flatten(streams: seq<LokiStream>): seq<LogLine> {
    FlatMap(streams, StreamLines)
  }

  // ── What a line says ───────────────────────────────────────────────────

  /** Only the text after the last carriage return is kept, without the whitespace around it. */
  lemma CleanedLine(before: string, front: string, text: string, back: string)
    requires AllWhitespace(front) && AllWhitespace(back) && Trimmed(text)
    requires '\r' !in front && '\r' !in text && '\r' !in back
    ensures CleanLine(front + text + back) == text
    ensures CleanLine(before + "\r" + (front + text + back)) == text
  {
    var shown := front + text + back;
    TrimGivesText(front, text, back);
    SplitWhole(shown, '\r');
    SplitAtSeparator(before, '\r', shown);
  }

  /** A container is shown without its `step-`, however often that is repeated. */
  lemma StepOfContainer(rest: string)
    ensures WithoutStepPrefix("step-" + rest) == WithoutStepPrefix(rest)
    ensures !("step-" <= rest) ==> WithoutStepPrefix(rest) == rest
  {
    assert ("step-" + rest)[5..] == rest;
  }

  /** One value of a stream as a line. */
  predicate LineOf(stream: LokiStream, value: (string, string), line: LogLine) {
    && line.task == stream.task.GetOr("unknown") && line.timestamp == Some(value.0)
    && line.step == (if stream.container.Some? then WithoutStepPrefix(stream.container.value) else "unknown")
    && line.line == CleanLine(value.1) && line.line != ""
  }

  lemma StreamLineIsValue(stream: LokiStream, line: LogLine)
    ensures line in StreamLines(stream) <==> exists value :: value in stream.values && LineOf(stream, value, line)
  {
    var toLine := LineFrom(StreamTask(stream), StreamStep(stream));
    CollectMembers(stream.values, toLine, line);
    if value :| value in stream.values && LineOf(stream, value, line) {
      var i :| 0 <= i < |stream.values| && stream.values[i] == value;
      assert toLine(stream.values[i]) == Some(line);
    }
    if i :| 0 <= i < |stream.values| && toLine(stream.values[i]) == Some(line) {
      assert LineOf(stream, stream.values[i], line);
    }
  }

  /** The loop over one stream's values. */
  method AppendStream(lines: seq<LogLine>, stream: LokiStream) returns (r: seq<LogLine>)
    ensures r == lines + StreamLines(stream)
  {
    var task, step := StreamTask(stream), StreamStep(stream);
    var values := stream.values;
    r := lines;
    assert values[0..] == values;
    for j := 0 to |values|
      invariant r + Collect(values[j..], LineFrom(task, step)) == lines + StreamLines(stream)
    {
      assert values[j..][1..] == values[j + 1..];
      var line := CleanLine(values[j].1);
      if line == [] {
        continue;
      }
      r := r + [LogLine(task, step, line, Some(values[j].0))];
    }
  }

  method FetchArchivedLogsRaw(answer: Result<seq<LokiStream>, string>) returns (r: Result<seq<LogLine>, ArchiveError>)
    ensures r == if answer.Err? then Err(Loki(answer.error))
                 else Ok(Flatten(Sort(answer.value, EarlierStream)))
  {
    if answer.Err? {
      return Err(Loki(answer.error));
    }
    var streams := Sort(answer.value, EarlierStream);
    var lines: seq<LogLine> := [];
    for i := 0 to |streams|
      invariant lines == Flatten(streams[..i])
    {
      assert streams[..i + 1][..i] == streams[..i];
      lines := AppendStream(lines, streams[i]);
    }
    assert streams[..|streams|] == streams;
    return Ok(lines);
  }

  // ── Remapping ──────────────────────────────────────────────────────────

  /** taskRef name to pipeline task; a repeated taskRef keeps the last one. */
  function TaskRefTable(taskruns: seq<TaskRun>): map<string, string> {
    if taskruns == [] then map[]
    else
      var table, tr := TaskRefTable(taskruns[..|taskruns| - 1]), taskruns[|taskruns| - 1];
      if tr.pipelineTaskLabel.Some? && tr.taskRef.Some?
      then table[tr.taskRef.value := tr.pipelineTaskLabel.value]
      else table
  }

  /** Proxy TaskRun name to pipeline task. */
  function ProxyTable(taskruns: seq<TaskRun>): map<string, string> {
    if taskruns == [] then map[]
    else
      var table, tr := ProxyTable(taskruns[..|taskruns| - 1]), taskruns[|taskruns| - 1];
      if tr.customRunLabel.Some? && tr.pipelineTaskLabel.Some? && tr.name.Some?
      then table[tr.name.value := tr.pipelineTaskLabel.value]
      else table
  }

  function RemapTask(taskruns: seq<TaskRun>, task: string): string {
    if task in TaskRefTable(taskruns) then TaskRefTable(taskruns)[task]
    else if task in ProxyTable(taskruns) then ProxyTable(taskruns)[task]
    else task
  }

  function RemapLine(taskruns: seq<TaskRun>): LogLine -> LogLine {
    (line: LogLine) => line.(task := RemapTask(taskruns, line.task))
  }

  method Remap(taskruns: seq<TaskRun>, raw: seq<LogLine>) returns (lines: seq<LogLine>)
    ensures lines == MapSeq(raw, RemapLine(taskruns))
  {
    var byTaskRef: map<string, string> := map[];
    var byProxyName: map<string, string> := map[];
    for i := 0 to |taskruns|
      invariant byTaskRef == TaskRefTable(taskruns[..i])
      invariant byProxyName == ProxyTable(taskruns[..i])
    {
      assert taskruns[..i + 1][..i] == taskruns[..i];
      var tr := taskruns[i];
      if tr.pipelineTaskLabel.Some? && tr.taskRef.Some? {
        byTaskRef := byTaskRef[tr.taskRef.value := tr.pipelineTaskLabel.value];
      }
      if tr.customRunLabel.Some? && tr.pipelineTaskLabel.Some? && tr.name.Some? {
        byProxyName := byProxyName[tr.name.value := tr.pipelineTaskLabel.value];
      }
    }
    assert taskruns[..|taskruns|] == taskruns;
    lines := raw;
    for i := 0 to |lines|
      invariant |lines| == |raw|
      invariant forall j | 0 <= j < |raw| ::
                  lines[j] == if j < i then RemapLine(taskruns)(raw[j]) else raw[j]
    {
      if lines[i].task in byTaskRef {
        lines := lines[i := lines[i].(task := byTaskRef[lines[i].task])];
      } else if lines[i].task in byProxyName {
        lines := lines[i := lines[i].(task := byProxyName[lines[i].task])];
      }
    }
  }

  method FetchArchivedLogsForRun(store: Store, loki: Result<seq<LokiStream>, string>, runName: string)
    returns (r: Result<seq<LogLine>, ArchiveError>)
    ensures Fetched(store, runName).Err? ==> r == Err(Fetched(store, runName).error)
    ensures Fetched(store, runName).Ok? && loki.Err? ==> r == Err(Loki(loki.error))
    ensures Fetched(store, runName).Ok? && loki.Ok? ==>
              r == Ok(MapSeq(Flatten(Sort(loki.value, EarlierStream)), RemapLine(Fetched(store, runName).value.1)))
  {
    var fetched := FetchPgRecords(store, runName);
    if fetched.Err? {
      return Err(fetched.error);
    }
    var raw := FetchArchivedLogsRaw(loki);
    if raw.Err? {
      return Err(raw.error);
    }
    var lines := Remap(fetched.value.1, raw.value);
    return Ok(lines);
  }

  // ── What remapping keeps and changes ───────────────────────────────────

  predicate Mapped(tr: TaskRun, tag: string) {
    tr.pipelineTaskLabel.Some? && tr.taskRef == Some(tag)
  }

  predicate ProxyNamed(tr: TaskRun, tag: string) {
    tr.customRunLabel.Some? && tr.pipelineTaskLabel.Some? && tr.name == Some(tag)
  }

  predicate Explains(tr: TaskRun, tag: string) {
    Mapped(tr, tag) || ProxyNamed(tr, tag)
  }

  lemma {:induction false} TaskRefTableEntries(taskruns: seq<TaskRun>, tag: string)
    ensures tag in TaskRefTable(taskruns) <==> exists tr :: tr in taskruns && Mapped(tr, tag)
    ensures tag in TaskRefTable(taskruns) ==>
              exists tr :: tr in taskruns && Mapped(tr, tag) &&
                           tr.pipelineTaskLabel == Some(TaskRefTable(taskruns)[tag])
  {
    if taskruns != [] {
      var front, last := taskruns[..|taskruns| - 1], taskruns[|taskruns| - 1];
      TaskRefTableEntries(front, tag);
      assert taskruns == front + [last];
      assert last in taskruns;
      if tag in TaskRefTable(front) && !Mapped(last, tag) {
        var tr :| tr in front && Mapped(tr, tag) && tr.pipelineTaskLabel == Some(TaskRefTable(front)[tag]);
        assert tr in taskruns;
      }
    }
  }

  lemma {:induction false} ProxyTableEntries(taskruns: seq<TaskRun>, tag: string)
    ensures tag in ProxyTable(taskruns) <==> exists tr :: tr in taskruns && ProxyNamed(tr, tag)
    ensures tag in ProxyTable(taskruns) ==>
              exists tr :: tr in taskruns && ProxyNamed(tr, tag) &&
                           tr.pipelineTaskLabel == Some(ProxyTable(taskruns)[tag])
  {
    if taskruns != [] {
      var front, last := taskruns[..|taskruns| - 1], taskruns[|taskruns| - 1];
      ProxyTableEntries(front, tag);
      assert taskruns == front + [last];
      assert last in taskruns;
      if tag in ProxyTable(front) && !ProxyNamed(last, tag) {
        var tr :| tr in front && ProxyNamed(tr, tag) && tr.pipelineTaskLabel == Some(ProxyTable(front)[tag]);
        assert tr in taskruns;
      }
    }
  }

  /** The taskRef is used by one pipeline task only. */
  predicate OneTaskPerRef(taskruns: seq<TaskRun>, tag: string) {
    forall a, b | a in taskruns && b in taskruns && Mapped(a, tag) && Mapped(b, tag) ::
      a.pipelineTaskLabel == b.pipelineTaskLabel
  }

  /** Lines tagged with a taskRef end at the task of every TaskRun using it exactly when there is only one such task. */
  lemma TaskRefRemapIsCorrect(taskruns: seq<TaskRun>, tag: string)
    ensures (forall tr | tr in taskruns && Mapped(tr, tag) :: tr.pipelineTaskLabel == Some(RemapTask(taskruns, tag)))
            <==> OneTaskPerRef(taskruns, tag)
  {
    TaskRefTableEntries(taskruns, tag);
  }

  /** The proxy's name is used for one pipeline task only. */
  predicate OneTaskPerProxy(taskruns: seq<TaskRun>, tag: string) {
    forall a, b | a in taskruns && b in taskruns && ProxyNamed(a, tag) && ProxyNamed(b, tag) ::
      a.pipelineTaskLabel == b.pipelineTaskLabel
  }

  /** The name doubles as a taskRef: the task of every proxy of that name is the one the taskRef gives. */
  predicate TaskRefGives(taskruns: seq<TaskRun>, tag: string)
    requires tag in TaskRefTable(taskruns)
  {
    forall tr | tr in taskruns && ProxyNamed(tr, tag) :: tr.pipelineTaskLabel == Some(TaskRefTable(taskruns)[tag])
  }

  /**
    Lines tagged with the name of a labelled proxy end at the task of every proxy of that name
    exactly when there is only one such task, or, if the name doubles as a taskRef, when it is the
    task that taskRef gives.
  */
  lemma {:induction false} ProxyRemapIsCorrect(taskruns: seq<TaskRun>, tag: string)
    ensures (forall tr | tr in taskruns && ProxyNamed(tr, tag) ::
               tr.pipelineTaskLabel == Some(RemapTask(taskruns, tag)))
            <==> if tag in TaskRefTable(taskruns) then TaskRefGives(taskruns, tag) else OneTaskPerProxy(taskruns, tag)
  {
    ProxyTableEntries(taskruns, tag);
  }

  /** A tag ends at the task of every TaskRun that explains it exactly when they all agree on the task. */
  lemma RemapIsCorrect(taskruns: seq<TaskRun>, tag: string)
    ensures (forall tr | tr in taskruns && Explains(tr, tag) ::
               tr.pipelineTaskLabel == Some(RemapTask(taskruns, tag)))
            <==> forall a, b | a in taskruns && b in taskruns && Explains(a, tag) && Explains(b, tag) ::
                   a.pipelineTaskLabel == b.pipelineTaskLabel
  {
    TaskRefTableEntries(taskruns, tag);
    ProxyTableEntries(taskruns, tag);
  }

  /** A tag no TaskRun explains is left alone. */
  lemma UnknownTagsAreKept(taskruns: seq<TaskRun>, tag: string)
    requires forall tr | tr in taskruns :: !Explains(tr, tag)
    ensures RemapTask(taskruns, tag) == tag
  {
    TaskRefTableEntries(taskruns, tag);
    ProxyTableEntries(taskruns, tag);
  }

  lemma {:induction false} TaskRefTableLast(taskruns: seq<TaskRun>, tag: string, i: nat)
    requires i < |taskruns| && Mapped(taskruns[i], tag)
    requires forall j | i < j < |taskruns| :: !Mapped(taskruns[j], tag)
    ensures tag in TaskRefTable(taskruns) && taskruns[i].pipelineTaskLabel == Some(TaskRefTable(taskruns)[tag])
  {
    if i < |taskruns| - 1 {
      TaskRefTableLast(taskruns[..|taskruns| - 1], tag, i);
    }
  }

  lemma {:induction false} ProxyTableLast(taskruns: seq<TaskRun>, tag: string, i: nat)
    requires i < |taskruns| && ProxyNamed(taskruns[i], tag)
    requires forall j | i < j < |taskruns| :: !ProxyNamed(taskruns[j], tag)
    ensures tag in ProxyTable(taskruns) && taskruns[i].pipelineTaskLabel == Some(ProxyTable(taskruns)[tag])
  {
    if i < |taskruns| - 1 {
      ProxyTableLast(taskruns[..|taskruns| - 1], tag, i);
    }
  }

  /**
    Where TaskRuns disagree, the last one wins: the last that uses the tag as its taskRef; and if
    none does, the last proxy of that name.
  */
  lemma LastTaskRunWins(taskruns: seq<TaskRun>, tag: string, i: nat)
    requires i < |taskruns|
    requires || (Mapped(taskruns[i], tag) && forall j | i < j < |taskruns| :: !Mapped(taskruns[j], tag))
             || (&& ProxyNamed(taskruns[i], tag) && (forall j | i < j < |taskruns| :: !ProxyNamed(taskruns[j], tag))
                 && forall tr | tr in taskruns :: !Mapped(tr, tag))
    ensures taskruns[i].pipelineTaskLabel == Some(RemapTask(taskruns, tag))
  {
    TaskRefTableEntries(taskruns, tag);
    if Mapped(taskruns[i], tag) && forall j | i < j < |taskruns| :: !Mapped(taskruns[j], tag) {
      TaskRefTableLast(taskruns, tag, i);
    } else {
      ProxyTableLast(taskruns, tag, i);
    }
  }

  // ── The emitted order ──────────────────────────────────────────────────

  function LineTime(line: LogLine): string {
    line.timestamp.GetOr("0")
  }

  predicate EarlierLine(a: LogLine, b: LogLine) {
    StrLe(LineTime(a), LineTime(b))
  }

  /** The lines of an archived run in the order they are sent. */
  function EmittedLogs(streams: seq<LokiStream>, taskruns: seq<TaskRun>): seq<LogLine> {
    Sort(MapSeq(Flatten(Sort(streams, EarlierStream)), RemapLine(taskruns)), EarlierLine)
  }

  type Tagged = (LogLine, nat)

  predicate EarlierTagged(a: Tagged, b: Tagged) {
    EarlierLine(a.0, b.0)
  }

  lemma EarlierIsPreorder()
    ensures TotalPreorder(EarlierLine) && TotalPreorder(EarlierTagged)
  {
    forall x: LogLine, y: LogLine
      ensures Comparable(EarlierLine, x, y)
    {
      StrLeTotal(LineTime(x), LineTime(y));
    }
    forall x: LogLine, y: LogLine, z: LogLine
      ensures Chains(EarlierLine, x, y, z)
    {
      if EarlierLine(x, y) && EarlierLine(y, z) {
        StrLeTransitive(LineTime(x), LineTime(y), LineTime(z));
      }
    }
    forall x: Tagged, y: Tagged
      ensures Comparable(EarlierTagged, x, y)
    {
      assert Comparable(EarlierLine, x.0, y.0);
    }
    forall x: Tagged, y: Tagged, z: Tagged
      ensures Chains(EarlierTagged, x, y, z)
    {
      assert Chains(EarlierLine, x.0, y.0, z.0);
    }
  }

  function Untag(t: Tagged): LogLine {
    t.0
  }

  function TagWith(k: nat): LogLine -> Tagged {
    (line: LogLine) => (line, k)
  }

  function FromStream(k: nat): Tagged -> bool {
    (t: Tagged) => t.1 == k
  }

  lemma {:induction false} InsertUntagged(x: Tagged, s: seq<Tagged>)
    ensures MapSeq(Insert(x, s, EarlierTagged), Untag) == Insert(x.0, MapSeq(s, Untag), EarlierLine)
  {
    if s != [] && !EarlierTagged(x, s[0]) {
      InsertUntagged(x, s[1..]);
      MapSeqConcat([s[0]], Insert(x, s[1..], EarlierTagged), Untag);
      assert MapSeq([s[0]], Untag) == [s[0].0];
      assert MapSeq(s, Untag)[1..] == MapSeq(s[1..], Untag);
    } else {
      MapSeqConcat([x], s, Untag);
      assert MapSeq([x], Untag) == [x.0];
    }
  }

  /** Tags do not influence the sort. */
  lemma {:induction false} SortUntagged(s: seq<Tagged>)
    ensures MapSeq(Sort(s, EarlierTagged), Untag) == Sort(MapSeq(s, Untag), EarlierLine)
  {
    if s != [] {
      SortUntagged(s[1..]);
      InsertUntagged(s[0], Sort(s[1..], EarlierTagged));
      assert MapSeq(s, Untag)[1..] == MapSeq(s[1..], Untag);
    }
  }

  /** The remapped lines of the streams, each tagged with the position of its stream. */
  function TaggedLines(streams: seq<LokiStream>, taskruns: seq<TaskRun>): seq<Tagged> {
    if streams == [] then []
    else
      var k := |streams| - 1;
      TaggedLines(streams[..k], taskruns) +
      MapSeq(MapSeq(StreamLines(streams[k]), RemapLine(taskruns)), TagWith(k))
  }

  lemma UntagTagged(lines: seq<LogLine>, k: nat)
    ensures MapSeq(MapSeq(lines, TagWith(k)), Untag) == lines
  {
  }

  lemma {:induction false} TaggedLinesUntagged(streams: seq<LokiStream>, taskruns: seq<TaskRun>)
    ensures MapSeq(TaggedLines(streams, taskruns), Untag) == MapSeq(Flatten(streams), RemapLine(taskruns))
  {
    if streams != [] {
      var k := |streams| - 1;
      TaggedLinesUntagged(streams[..k], taskruns);
      var last := MapSeq(StreamLines(streams[k]), RemapLine(taskruns));
      MapSeqConcat(TaggedLines(streams[..k], taskruns), MapSeq(last, TagWith(k)), Untag);
      UntagTagged(last, k);
      MapSeqConcat(Flatten(streams[..k]), StreamLines(streams[k]), RemapLine(taskruns));
    }
  }

  lemma {:induction false} FilterConcat<T>(a: seq<T>, b: seq<T>, p: T -> bool)
    ensures Filter(a + b, p) == Filter(a, p) + Filter(b, p)
  {
    if a == [] {
      assert a + b == b;
    } else {
      assert (a + b)[1..] == a[1..] + b;
      FilterConcat(a[1..], b, p);
    }
  }

  lemma {:induction false} FilterTagged(lines: seq<LogLine>, j: nat, k: nat)
    ensures Filter(MapSeq(lines, TagWith(j)), FromStream(k)) == if j == k then MapSeq(lines, TagWith(j)) else []
  {
    if lines != [] {
      FilterTagged(lines[1..], j, k);
      assert MapSeq(lines, TagWith(j))[1..] == MapSeq(lines[1..], TagWith(j));
      assert MapSeq(lines, TagWith(j)) == [(lines[0], j)] + MapSeq(lines[1..], TagWith(j));
    }
  }

  lemma {:induction false} TaggedLinesOfStream(streams: seq<LokiStream>, taskruns: seq<TaskRun>, k: nat)
    ensures Filter(TaggedLines(streams, taskruns), FromStream(k)) ==
            if k < |streams| then MapSeq(MapSeq(StreamLines(streams[k]), RemapLine(taskruns)), TagWith(k)) else []
  {
    if streams != [] {
      var last := |streams| - 1;
      var front := streams[..last];
      TaggedLinesOfStream(front, taskruns, k);
      assert k < last ==> front[k] == streams[k];
      var lines := MapSeq(StreamLines(streams[last]), RemapLine(taskruns));
      FilterConcat(TaggedLines(front, taskruns), MapSeq(lines, TagWith(last)), FromStream(k));
      FilterTagged(lines, last, k);
    }
  }

  /** The timestamps of a stream are in order. */
  ghost predicate TimeOrdered(stream: LokiStream) {
    forall i, j | 0 <= i < j < |stream.values| :: StrLe(stream.values[i].0, stream.values[j].0)
  }

  lemma {:induction false} OrderedValuesGiveOrderedLines(
    values: seq<(string, string)>, task: string, step: string)
    requires forall i, j | 0 <= i < j < |values| :: StrLe(values[i].0, values[j].0)
    ensures Sorted(Collect(values, LineFrom(task, step)), EarlierLine)
  {
    if values != [] {
      OrderedValuesGiveOrderedLines(values[1..], task, step);
      var rest := Collect(values[1..], LineFrom(task, step));
      forall j | 0 <= j < |rest|
        ensures StrLe(values[0].0, LineTime(rest[j]))
      {
        CollectMembers(values[1..], LineFrom(task, step), rest[j]);
        var i :| 0 <= i < |values[1..]| && LineFrom(task, step)(values[1..][i]) == Some(rest[j]);
        assert values[1..][i] == values[i + 1];
      }
    }
  }

  /** The lines of `emitted` whose origin is stream `k`, in the order emitted. */
  function FromOrigin(emitted: seq<LogLine>, origins: seq<nat>, k: nat): seq<LogLine>
    requires |origins| == |emitted|
  {
    if emitted == [] then []
    else (if origins[0] == k then [emitted[0]] else []) + FromOrigin(emitted[1..], origins[1..], k)
  }

  function Origins(s: seq<Tagged>): (r: seq<nat>)
    ensures |r| == |s|
  {
    MapSeq(s, (t: Tagged) => t.1)
  }

  lemma {:induction false} FromOriginIsFilter(s: seq<Tagged>, k: nat)
    ensures FromOrigin(MapSeq(s, Untag), Origins(s), k) == MapSeq(Filter(s, FromStream(k)), Untag)
  {
    if s != [] {
      FromOriginIsFilter(s[1..], k);
      assert MapSeq(s, Untag)[1..] == MapSeq(s[1..], Untag);
      assert Origins(s)[1..] == Origins(s[1..]);
      if s[0].1 == k {
        MapSeqConcat([s[0]], Filter(s[1..], FromStream(k)), Untag);
        assert MapSeq([s[0]], Untag) == [s[0].0];
      }
    }
  }

  /** What stream `k` contributes: its cleaned lines, remapped. */
  function OwnLines(streams: seq<LokiStream>, taskruns: seq<TaskRun>, k: nat): seq<LogLine>
    requires k < |streams|
  {
    MapSeq(StreamLines(streams[k]), RemapLine(taskruns))
  }

  lemma StreamIsSorted(streams: seq<LokiStream>, taskruns: seq<TaskRun>, k: nat)
    requires k < |streams|
    ensures MapSeq(Filter(Sort(TaggedLines(streams, taskruns), EarlierTagged), FromStream(k)), Untag) ==
            Sort(OwnLines(streams, taskruns, k), EarlierLine)
  {
    var own := OwnLines(streams, taskruns, k);
    EarlierIsPreorder();
    FilterSort(TaggedLines(streams, taskruns), EarlierTagged, FromStream(k));
    TaggedLinesOfStream(streams, taskruns, k);
    SortUntagged(MapSeq(own, TagWith(k)));
    UntagTagged(own, k);
  }

  lemma TimeOrderedIsSorted(streams: seq<LokiStream>, taskruns: seq<TaskRun>, k: nat)
    requires k < |streams| && TimeOrdered(streams[k])
    ensures Sort(OwnLines(streams, taskruns, k), EarlierLine) == OwnLines(streams, taskruns, k)
  {
    var own, lines := OwnLines(streams, taskruns, k), StreamLines(streams[k]);
    OrderedValuesGiveOrderedLines(streams[k].values, StreamTask(streams[k]), StreamStep(streams[k]));
    EarlierIsPreorder();
    forall i, j | 0 <= i < j < |own|
      ensures EarlierLine(own[i], own[j])
    {
      assert EarlierLine(lines[i], lines[j]);
    }
    SortFixesSorted(own, EarlierLine);
  }

  predicate TagsAscend(s: seq<Tagged>) {
    forall i, j | 0 <= i < j < |s| :: s[i].1 <= s[j].1
  }

  lemma {:induction false} TaggedLinesAscend(streams: seq<LokiStream>, taskruns: seq<TaskRun>)
    ensures TagsAscend(TaggedLines(streams, taskruns))
    ensures forall i | 0 <= i < |TaggedLines(streams, taskruns)| :: TaggedLines(streams, taskruns)[i].1 < |streams|
  {
    if streams != [] {
      var k := |streams| - 1;
      TaggedLinesAscend(streams[..k], taskruns);
      var before, own := TaggedLines(streams[..k], taskruns), MapSeq(OwnLines(streams, taskruns, k), TagWith(k));
      assert TaggedLines(streams, taskruns) == before + own;
      assert forall i | 0 <= i < |own| :: own[i].1 == k;
    }
  }

  lemma {:induction false} FilterAscends(s: seq<Tagged>, p: Tagged -> bool)
    requires TagsAscend(s)
    ensures TagsAscend(Filter(s, p))
  {
    if s != [] {
      FilterAscends(s[1..], p);
      forall j | 0 <= j < |Filter(s[1..], p)|
        ensures s[0].1 <= Filter(s[1..], p)[j].1
      {
        FilterMembers(s[1..], p, Filter(s[1..], p)[j]);
      }
    }
  }

  lemma {:induction false} SelectedAscend(s: seq<Tagged>, p: Tagged -> bool, i: nat, j: nat)
    requires i < j < |s| && p(s[i]) && p(s[j]) && TagsAscend(Filter(s, p))
    ensures s[i].1 <= s[j].1
  {
    if i == 0 {
      var rest := Filter(s[1..], p);
      FilterMembers(s[1..], p, s[1..][j - 1]);
      var q :| 0 <= q < |rest| && rest[q] == s[j];
      assert Filter(s, p)[0] == s[0] && Filter(s, p)[q + 1] == s[j];
    } else {
      assert forall a, b | 0 <= a < b < |Filter(s[1..], p)| :: Filter(s[1..], p)[a].1 <= Filter(s[1..], p)[b].1 by {
        assert Filter(s[1..], p) == Filter(s, p)[if p(s[0]) then 1 else 0..];
      }
      SelectedAscend(s[1..], p, i - 1, j - 1);
    }
  }

  /** Lines of one time come in the order of their streams. */
  predicate TiesInStreamOrder(emitted: seq<LogLine>, origins: seq<nat>) {
    |origins| == |emitted| &&
    forall i, j | 0 <= i < j < |emitted| && emitted[i].timestamp == emitted[j].timestamp :: origins[i] <= origins[j]
  }

  lemma SameTimeTies(a: Tagged, b: Tagged)
    requires a.0.timestamp == b.0.timestamp
    ensures Ties(a, EarlierTagged)(a) && Ties(a, EarlierTagged)(b)
  {
    StrLeTotal(LineTime(a.0), LineTime(a.0));
    var le := EarlierTagged;
    assert le(a, a) && le(a, b) && le(b, a);
  }

  lemma SortIsStable(lines: seq<Tagged>, x: Tagged)
    ensures Filter(Sort(lines, EarlierTagged), Ties(x, EarlierTagged)) == Filter(lines, Ties(x, EarlierTagged))
  {
    EarlierIsPreorder();
    StableSortUnique(lines, Sort(lines, EarlierTagged), EarlierTagged);
  }

  lemma SortKeepsStreamOrder(streams: seq<LokiStream>, taskruns: seq<TaskRun>)
    ensures var tagged := Sort(TaggedLines(streams, taskruns), EarlierTagged);
            TiesInStreamOrder(MapSeq(tagged, Untag), Origins(tagged))
  {
    var lines := TaggedLines(streams, taskruns);
    var tagged := Sort(lines, EarlierTagged);
    TaggedLinesAscend(streams, taskruns);
    forall i, j | 0 <= i < j < |tagged| && tagged[i].0.timestamp == tagged[j].0.timestamp
      ensures tagged[i].1 <= tagged[j].1
    {
      SameTimeTies(tagged[i], tagged[j]);
      SortIsStable(lines, tagged[i]);
      FilterAscends(lines, Ties(tagged[i], EarlierTagged));
      SelectedAscend(tagged, Ties(tagged[i], EarlierTagged), i, j);
    }
  }

  /** The streams come by the time of their first value, "0" for an empty one. */
  lemma StreamsInOrder(streams: seq<LokiStream>, i: nat, j: nat)
    requires i < j < |streams|
    ensures var sorted := Sort(streams, EarlierStream);
            StrLe(if sorted[i].values == [] then "0" else sorted[i].values[0].0,
                  if sorted[j].values == [] then "0" else sorted[j].values[0].0)
  {
    forall x: LokiStream, y: LokiStream
      ensures Comparable(EarlierStream, x, y)
    {
      StrLeTotal(FirstTimestamp(x), FirstTimestamp(y));
    }
    forall x: LokiStream, y: LokiStream, z: LokiStream
      ensures Chains(EarlierStream, x, y, z)
    {
      if EarlierStream(x, y) && EarlierStream(y, z) {
        StrLeTransitive(FirstTimestamp(x), FirstTimestamp(y), FirstTimestamp(z));
      }
    }
    SortSorts(streams, EarlierStream);
    assert EarlierStream(Sort(streams, EarlierStream)[i], Sort(streams, EarlierStream)[j]);
  }

  /** Every emitted line comes from a stream, and each stream contributes its lines, sorted stably by time. */
  ghost predicate Interleaves(
    emitted: seq<LogLine>, streams: seq<LokiStream>, taskruns: seq<TaskRun>, origins: seq<nat>)
  {
    && |origins| == |emitted| && (forall i | 0 <= i < |origins| :: origins[i] < |streams|)
    && forall k | 0 <= k < |streams| ::
         FromOrigin(emitted, origins, k) == Sort(OwnLines(streams, taskruns, k), EarlierLine)
  }

  /**
    The emitted lines are an interleaving of the streams: every line can be given a stream of
    origin so that each stream contributes exactly its cleaned, remapped lines, sorted by time; a
    time-ordered stream, in its own order. Lines of one time come in the order of the streams.
  */
  lemma EmittedInterleavesStreams(streams: seq<LokiStream>, taskruns: seq<TaskRun>) returns (origins: seq<nat>)
    ensures var sorted, emitted := Sort(streams, EarlierStream), EmittedLogs(streams, taskruns);
            && Interleaves(emitted, sorted, taskruns, origins) && TiesInStreamOrder(emitted, origins)
            && forall k | 0 <= k < |sorted| && TimeOrdered(sorted[k]) ::
                 FromOrigin(emitted, origins, k) == OwnLines(sorted, taskruns, k)
  {
    var sorted := Sort(streams, EarlierStream);
    var tagged := Sort(TaggedLines(sorted, taskruns), EarlierTagged);
    TaggedLinesUntagged(sorted, taskruns);
    SortUntagged(TaggedLines(sorted, taskruns));
    origins := Origins(tagged);
    SortKeepsStreamOrder(sorted, taskruns);
    forall i | 0 <= i < |origins|
      ensures origins[i] < |sorted|
    {
      OriginIsStream(sorted, taskruns, i);
    }
    forall k | 0 <= k < |sorted|
      ensures FromOrigin(EmittedLogs(streams, taskruns), origins, k) ==
              Sort(OwnLines(sorted, taskruns, k), EarlierLine)
    {
      FromOriginIsFilter(tagged, k);
      StreamIsSorted(sorted, taskruns, k);
    }
    forall k | 0 <= k < |sorted| && TimeOrdered(sorted[k])
      ensures FromOrigin(EmittedLogs(streams, taskruns), origins, k) == OwnLines(sorted, taskruns, k)
    {
      TimeOrderedIsSorted(sorted, taskruns, k);
    }
  }

  lemma OriginIsStream(streams: seq<LokiStream>, taskruns: seq<TaskRun>, i: nat)
    requires i < |Sort(TaggedLines(streams, taskruns), EarlierTagged)|
    ensures Sort(TaggedLines(streams, taskruns), EarlierTagged)[i].1 < |streams|
  {
    var lines := TaggedLines(streams, taskruns);
    var tagged := Sort(lines, EarlierTagged);
    EarlierIsPreorder();
    SortSorts(lines, EarlierTagged);
    MemberByMultiset(tagged, lines, tagged[i]);
    FilterMembers(lines, FromStream(tagged[i].1), tagged[i]);
    TaggedLinesOfStream(streams, taskruns, tagged[i].1);
  }

  /** Nothing is lost or invented: the emitted lines are the non-empty cleaned lines, remapped. */
  lemma EmittedIsRearrangement(streams: seq<LokiStream>, taskruns: seq<TaskRun>)
    ensures multiset(EmittedLogs(streams, taskruns)) == multiset(MapSeq(Flatten(streams), RemapLine(taskruns)))
  {
    FlatMapRearranged(Sort(streams, EarlierStream), streams, StreamLines);
    MapSeqRearranged(Flatten(Sort(streams, EarlierStream)), Flatten(streams), RemapLine(taskruns));
  }

  /** A value of a stream, cleaned and remapped. */
  predicate EmittedAs(taskruns: seq<TaskRun>, stream: LokiStream, value: (string, string), line: LogLine) {
    && line.task == RemapTask(taskruns, stream.task.GetOr("unknown")) && line.timestamp == Some(value.0)
    && line.step == (if stream.container.Some? then WithoutStepPrefix(stream.container.value) else "unknown")
    && line.line == CleanLine(value.1) && line.line != ""
  }

  /** A line is emitted exactly if it is what some value of some stream cleans and remaps to. */
  lemma EmittedLineIsValue(streams: seq<LokiStream>, taskruns: seq<TaskRun>, line: LogLine)
    ensures line in EmittedLogs(streams, taskruns) <==>
            exists stream, value ::
              stream in streams && value in stream.values && EmittedAs(taskruns, stream, value, line)
  {
    var flat, remap := Flatten(streams), RemapLine(taskruns);
    EmittedIsRearrangement(streams, taskruns);
    MemberByMultiset(EmittedLogs(streams, taskruns), MapSeq(flat, remap), line);
    if stream, value :| stream in streams && value in stream.values && EmittedAs(taskruns, stream, value, line) {
      ValueIsFlattened(streams, stream, value, line.(task := stream.task.GetOr("unknown")));
      var i :| 0 <= i < |flat| && flat[i] == line.(task := stream.task.GetOr("unknown"));
      assert MapSeq(flat, remap)[i] == line;
    }
    if line in MapSeq(flat, remap) {
      var i :| 0 <= i < |flat| && MapSeq(flat, remap)[i] == line;
      var stream, value := FlattenedIsValue(streams, flat[i]);
      assert EmittedAs(taskruns, stream, value, line);
    }
  }

  lemma ValueIsFlattened(streams: seq<LokiStream>, stream: LokiStream, value: (string, string), raw: LogLine)
    requires stream in streams && value in stream.values && LineOf(stream, value, raw)
    ensures raw in Flatten(streams)
  {
    StreamLineIsValue(stream, raw);
    FlatMapMembers(streams, StreamLines, raw);
    var k :| 0 <= k < |streams| && streams[k] == stream;
    assert raw in StreamLines(streams[k]);
  }

  lemma FlattenedIsValue(streams: seq<LokiStream>, raw: LogLine) returns (stream: LokiStream, value: (string, string))
    requires raw in Flatten(streams)
    ensures stream in streams && value in stream.values && LineOf(stream, value, raw)
  {
    FlatMapMembers(streams, StreamLines, raw);
    var k :| 0 <= k < |streams| && raw in StreamLines(streams[k]);
    stream := streams[k];
    StreamLineIsValue(stream, raw);
    value :| value in stream.values && LineOf(stream, value, raw);
  }

  /** Every timestamp is a decimal of `digits` digits. */
  predicate Nanoseconds(streams: seq<LokiStream>, digits: nat) {
    forall s, v | s in streams && v in s.values :: IsDecimal(v.0) && |v.0| == digits
  }

  lemma {:induction false} LineTimesComeFromStreams(streams: seq<LokiStream>, line: LogLine)
    requires line in Flatten(streams)
    ensures exists s, v :: s in streams && v in s.values && line.timestamp == Some(v.0)
  {
    var k := |streams| - 1;
    if line in Flatten(streams[..k]) {
      LineTimesComeFromStreams(streams[..k], line);
      var s, v :| s in streams[..k] && v in s.values && line.timestamp == Some(v.0);
      assert s in streams;
    } else {
      var s := streams[k];
      CollectMembers(s.values, LineFrom(StreamTask(s), StreamStep(s)), line);
      var i :| 0 <= i < |s.values| && LineFrom(StreamTask(s), StreamStep(s))(s.values[i]) == Some(line);
      assert s in streams && s.values[i] in s.values;
    }
  }

  lemma EmittedTimesAreDecimal(streams: seq<LokiStream>, taskruns: seq<TaskRun>, digits: nat, line: LogLine)
    requires Nanoseconds(streams, digits) && line in EmittedLogs(streams, taskruns)
    ensures line.timestamp.Some? && IsDecimal(line.timestamp.value) && |line.timestamp.value| == digits
  {
    var remapped := MapSeq(Flatten(streams), RemapLine(taskruns));
    EmittedIsRearrangement(streams, taskruns);
    MemberByMultiset(EmittedLogs(streams, taskruns), remapped, line);
    var i :| 0 <= i < |remapped| && remapped[i] == line;
    LineTimesComeFromStreams(streams, Flatten(streams)[i]);
  }

  /** With timestamps of one length, the lines come out in numeric nanosecond order. */
  lemma EmittedInNanosecondOrder(streams: seq<LokiStream>, taskruns: seq<TaskRun>, digits: nat, i: nat, j: nat)
    requires Nanoseconds(streams, digits) && i < j < |EmittedLogs(streams, taskruns)|
    ensures var a := EmittedLogs(streams, taskruns)[i].timestamp;
            var b := EmittedLogs(streams, taskruns)[j].timestamp;
            && a.Some? && b.Some? && IsDecimal(a.value) && IsDecimal(b.value)
            && DecimalValue(a.value) <= DecimalValue(b.value)
  {
    var emitted := EmittedLogs(streams, taskruns);
    EarlierIsPreorder();
    SortSorts(MapSeq(Flatten(Sort(streams, EarlierStream)), RemapLine(taskruns)), EarlierLine);
    assert EarlierLine(emitted[i], emitted[j]);
    EmittedTimesAreDecimal(streams, taskruns, digits, emitted[i]);
    EmittedTimesAreDecimal(streams, taskruns, digits, emitted[j]);
    TextOrderIsNumericOrder(emitted[i].timestamp.value, emitted[j].timestamp.value);
  }
}
